/**
 Policy versions with colons: exactly which reminder keys read as a key of another family
 (domain/reminder_service.py, domain/dead_letter.py).

 The scheduler itself always passes the version "v1", so its own keys never do; the versions of other callers are
 arbitrary texts here.
 */
module KeyCollisions {
  import opened Prelude
  import opened MessageKeys

  /** The text that replays at these times append to a key. */
  function Suffix(ats: seq<Stamp>): string {
    if ats == [] then "" else Suffix(ats[..|ats| - 1]) + ":replay:" + Compact(ats[|ats| - 1])
  }

  /** The key replayed at these times, one after the other. */
  function ReplayedAt(k: Key, ats: seq<Stamp>): Key {
    if ats == [] then k else Replay(ReplayedAt(k, ats[..|ats| - 1]), ats[|ats| - 1])
  }

  predicate WholeSeconds(ats: seq<Stamp>) {
    forall i :: 0 <= i < |ats| ==> ValidStamp(ats[i]) && ats[i].micro == 0
  }

  /** A reminder key whose policy version may be anything. */
  predicate FreePolicy(a: Key) {
    a.Reminder? && WellFormed(a.(policy := ""))
  }

  /** The policy version is a colon-free one with replay suffixes. */
  predicate PolicyIs(policy: string, p: string, ats: seq<Stamp>) {
    ColonFree(p) && WholeSeconds(ats) && policy == p + Suffix(ats)
  }

  // ---------------------------------------------------------------- joining and splitting

  /** What one more character does to the parts. */
  function Extended(fs: seq<string>, c: char): seq<string>
    requires fs != []
  {
    if c == ':' then fs + [""] else fs[..|fs| - 1] + [fs[|fs| - 1] + [c]]
  }

  lemma SplitSnoc(s: string, c: char)
    ensures Split(s + [c]) == Extended(Split(s), c)
  {
    assert (s + [c])[..|s|] == s;
  }

  lemma ExtendedConcat(xs: seq<string>, fs: seq<string>, c: char)
    requires fs != []
    ensures Extended(xs + fs, c) == xs + Extended(fs, c)
  {
    assert (xs + fs)[..|xs + fs| - 1] == xs + fs[..|fs| - 1];
  }

  lemma {:induction false} SplitConcat(s: string, w: string)
    ensures Split(s + ":" + w) == Split(s) + Split(w)
  {
    if w == "" {
      SplitSnoc(s, ':');
      assert s + ":" + w == s + [':'];
    } else {
      var front, c := w[..|w| - 1], w[|w| - 1];
      SplitConcat(s, front);
      assert w == front + [c] && s + ":" + w == (s + ":" + front) + [c];
      SplitSnoc(s + ":" + front, c);
      SplitSnoc(front, c);
      ExtendedConcat(Split(s), Split(front), c);
    }
  }

  lemma {:induction false} SplitIsColonFree(s: string)
    ensures ColonFreeAll(Split(s)) && Join(Split(s)) == s
  {
    if s != "" {
      var front, c := s[..|s| - 1], s[|s| - 1];
      SplitIsColonFree(front);
      var fs := Split(front);
      if c == ':' {
        JoinSnoc(fs, "");
      } else {
        var n := |fs| - 1;
        var gs := fs[..n] + [fs[n] + [c]];
        assert Split(s) == gs && gs[..n] == fs[..n];
        assert front + [c] == s;
      }
    }
  }

  /** The parts of a reminder key before its policy version. */
  function Front(a: Key): seq<string>
    requires a.Reminder?
  {
    Fields(a)[..6]
  }

  lemma FrontFacts(a: Key)
    requires FreePolicy(a)
    ensures |Front(a)| == 6 && ColonFreeAll(Front(a)) && Front(a)[5] != "replay" && Front(a)[2] != "response"
  {
    var b := a.(policy := "");
    ReminderRoundTrip(b);
    assert Front(a) == Front(b);
    DigitsFacts(a.contact);
    DigitsRoundTrip(a.contact);
    assert Digits(a.contact)[0] != 'r' && "response"[0] == 'r';
    if a.due.Some? {
      IsoDateRoundTrip(a.due.value, "");
    }
  }

  /** The parts of a key's text are its fields. */
  lemma SplitPrint(b: Key)
    requires WellFormed(b)
    ensures Split(Print(b)) == Fields(b)
  {
    FieldsRoundTrip(b);
    SplitJoin(Fields(b));
  }

  lemma SplitReminder(a: Key)
    requires FreePolicy(a)
    ensures Split(Print(a)) == Front(a) + Split(a.policy)
  {
    FrontFacts(a);
    SplitConcat(Join(Front(a)), a.policy);
    SplitJoin(Front(a));
  }

  // ---------------------------------------------------------------- replays, key by key and part by part

  /** The parts that replays at these times append. */
  function Tags(ats: seq<Stamp>): (r: seq<string>)
    ensures |r| == 2 * |ats|
  {
    if ats == [] then [] else Tags(ats[..|ats| - 1]) + ["replay", Compact(ats[|ats| - 1])]
  }

  lemma {:induction false} TagsAlternate(ats: seq<Stamp>, i: nat)
    requires i < |ats|
    ensures Tags(ats)[2 * i] == "replay"
  {
    var n := |ats| - 1;
    if i < n {
      TagsAlternate(ats[..n], i);
    }
  }

  lemma {:induction false} JoinTags(fs: seq<string>, ats: seq<Stamp>)
    requires fs != []
    ensures Join(fs + Tags(ats)) == Join(fs) + Suffix(ats)
  {
    if ats == [] {
      assert fs + [] == fs && Join(fs) + "" == Join(fs);
    } else {
      var front, at := ats[..|ats| - 1], ats[|ats| - 1];
      JoinTags(fs, front);
      JoinTwo(fs + Tags(front), "replay", Compact(at));
      AppendParts(fs, Tags(front), ["replay", Compact(at)]);
      Regroup(Join(fs), Suffix(front), Compact(at));
    }
  }

  lemma AppendParts(xs: seq<string>, ys: seq<string>, zs: seq<string>)
    ensures xs + (ys + zs) == xs + ys + zs
  {
  }

  lemma Regroup(text: string, suffix: string, at: string)
    ensures text + suffix + (":" + "replay" + ":") + at == text + (suffix + ":replay:" + at)
  {
    assert ":" + "replay" + ":" == ":replay:";
  }

  lemma {:induction false} ReplayedAtFields(k: Key, ats: seq<Stamp>)
    ensures Fields(ReplayedAt(k, ats)) == Fields(k) + Tags(ats)
  {
    if ats != [] {
      ReplayedAtFields(k, ats[..|ats| - 1]);
    }
  }

  lemma {:induction false} ReplayedAtIsWellFormed(k: Key, ats: seq<Stamp>)
    requires WellFormed(k) && WholeSeconds(ats)
    ensures WellFormed(ReplayedAt(k, ats)) && (ReplayedAt(k, ats).Reminder? <==> ats == [] && k.Reminder?)
  {
    if ats != [] {
      ReplayedAtIsWellFormed(k, ats[..|ats| - 1]);
    }
  }

  /** Every key is a key that is no replay, replayed. */
  lemma {:induction false} Unreplayed(b: Key) returns (k: Key, ats: seq<Stamp>)
    requires WellFormed(b)
    ensures b == ReplayedAt(k, ats) && !k.Replay? && WellFormed(k) && WholeSeconds(ats)
    decreases b
  {
    if b.Replay? {
      var before: seq<Stamp>;
      k, before := Unreplayed(b.of);
      ats := before + [b.at];
      assert ats[..|ats| - 1] == before;
    } else {
      k, ats := b, [];
    }
  }

  // ---------------------------------------------------------------- from the suffix to the collision

  lemma SuffixCollides(a: Key, p: string, ats: seq<Stamp>)
    requires FreePolicy(a) && PolicyIs(a.policy, p, ats)
    ensures Print(a) == Print(ReplayedAt(a.(policy := p), ats))
  {
    var k := a.(policy := p);
    FrontIgnoresPolicy(a, p);
    ReplayedAtFields(k, ats);
    JoinTags(Fields(k), ats);
    AppendPolicy(Join(Front(a)), p, Suffix(ats));
  }

  lemma FrontIgnoresPolicy(a: Key, p: string)
    requires a.Reminder?
    ensures Front(a.(policy := p)) == Front(a)
  {
  }

  lemma AppendPolicy(front: string, p: string, suffix: string)
    ensures front + ":" + (p + suffix) == front + ":" + p + suffix
  {
  }

  // ---------------------------------------------------------------- from the collision to the suffix

  /** Six parts like a reminder's leave no room for another family before the replays. */
  lemma OnlyAReminderFits(front: seq<string>, ps: seq<string>, k: Key, ats: seq<Stamp>)
    requires !k.Replay? && ps != [] && |front| == 6 && front[5] != "replay" && front[2] != "response"
    requires Fields(k) + Tags(ats) == front + ps
    ensures k.Reminder? && Fields(k) == front + [k.policy] && ps == [k.policy] + Tags(ats)
  {
    var all := front + ps;
    assert all[2] == front[2] && all[5] == front[5];
    match k {
      case Reminder(_, _, _, _, _, _, _) =>
        assert all[..6] == front && all[6..] == ps && all[..7] == Fields(k) && all[7..] == Tags(ats);
      case Campaign(_, _, _, _) =>
        TagsAlternate(ats, 0);
        assert false;
      case Confirm(_, _) =>
        TagsAlternate(ats, 1);
        assert false;
      case Response(_, _, _) =>
        assert false;
    }
  }

  lemma LastPartDecides(a: Key, p: string, b: Key)
    requires FreePolicy(a) && ColonFree(p) && WellFormed(b) && Fields(b) == Front(a) + [p]
    ensures b == a.(policy := p)
  {
    var k := a.(policy := p);
    FrontIgnoresPolicy(a, p);
    assert Fields(k) == Front(k) + [p];
    FieldsRoundTrip(k);
    FieldsRoundTrip(b);
  }

  lemma CollisionHasSuffix(a: Key, b: Key) returns (p: string, ats: seq<Stamp>)
    requires FreePolicy(a) && WellFormed(b) && Print(a) == Print(b)
    ensures PolicyIs(a.policy, p, ats) && b == ReplayedAt(a.(policy := p), ats)
  {
    var k: Key;
    k, ats := Unreplayed(b);
    FrontFacts(a);
    SplitReminder(a);
    SplitPrint(b);
    SplitIsColonFree(a.policy);
    ReplayedAtFields(k, ats);
    OnlyAReminderFits(Front(a), Split(a.policy), k, ats);
    p := k.policy;
    LastPartDecides(a, p, k);
    JoinTags([p], ats);
  }

  // ---------------------------------------------------------------- the exact condition

  /**
   A reminder key with an arbitrary policy version has the text of a well-formed key if and only if the version is a
   colon-free one followed by replay suffixes, and the key is the reminder of that version so replayed.
   */
  lemma CollidesExactly(a: Key, b: Key)
    requires FreePolicy(a) && WellFormed(b)
    ensures Print(a) == Print(b)
            <==> exists p, ats :: PolicyIs(a.policy, p, ats) && b == ReplayedAt(a.(policy := p), ats)
  {
    if Print(a) == Print(b) {
      var p, ats := CollisionHasSuffix(a, b);
    }
    forall p, ats | PolicyIs(a.policy, p, ats) && b == ReplayedAt(a.(policy := p), ats) ensures Print(a) == Print(b) {
      SuffixCollides(a, p, ats);
    }
  }

  /** It collides with a key of another family if and only if there is at least one such suffix. */
  lemma OtherFamilyExactly(a: Key)
    requires FreePolicy(a)
    ensures (exists b :: WellFormed(b) && !b.Reminder? && Print(a) == Print(b))
            <==> exists p, ats :: PolicyIs(a.policy, p, ats) && ats != []
  {
    forall b | WellFormed(b) && !b.Reminder? && Print(a) == Print(b)
      ensures exists p, ats :: PolicyIs(a.policy, p, ats) && ats != []
    {
      CollidesExactly(a, b);
    }
    forall p, ats | PolicyIs(a.policy, p, ats) && ats != []
      ensures exists b :: WellFormed(b) && !b.Reminder? && Print(a) == Print(b)
    {
      ReplayedAtIsWellFormed(a.(policy := p), ats);
      SuffixCollides(a, p, ats);
    }
  }
}
