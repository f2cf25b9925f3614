/**
 The message_key column (reminder_service.py, campaign_service.py, mpesa_service.py, dead_letter.py, inbound.py): the
 families of keys that services and workers print share one namespace, from which one parser recovers them.
 */
module MessageKeys {
  import opened Prelude

  datatype Date = Date(year: nat, month: nat, day: nat)

  datatype Stamp = Stamp(date: Date, hour: nat, minute: nat, second: nat, micro: nat)

  datatype ReminderType =
    | Due14 | Due3 | DueToday | LateNotice | PaymentConfirmed | CallbackAck | CreditTermsAck
    | AppointmentReminder | LayawayPickup | Promo | LoyaltyPoints

  datatype Key =
    | Reminder(business: nat, customer: nat, contact: nat, txn: nat, kind: ReminderType, due: Option<Date>,
               policy: string)
    | Campaign(business: nat, campaign: nat, customer: nat, date: Date)
    | Confirm(business: nat, ref: string)
    | Response(business: nat, contact: nat, at: Stamp)
    | Replay(of: Key, at: Stamp)

  // ---------------------------------------------------------------- printing

  /** Decimal text of a number, without leading zeros. */
  function Digits(n: nat): string {
    if n < 10 then [Digit(n)] else Digits(n / 10) + [Digit(n % 10)]
  }

  /** Decimal text of exactly `width` characters. */
  function Pad(n: nat, width: nat): string {
    if width == 0 then "" else Pad(n / 10, width - 1) + [Digit(n % 10)]
  }

  function Digit(d: nat): char
    requires d < 10
  {
    '0' + d as char
  }

  /** `date.isoformat()`. */
  function IsoDate(d: Date): string {
    Pad(d.year, 4) + "-" + Pad(d.month, 2) + "-" + Pad(d.day, 2)
  }

  /** `isoformat()` leaves out a zero microsecond part. */
  function IsoSeconds(t: Stamp): string {
    if t.micro == 0 then Pad(t.second, 2) else Pad(t.second, 2) + "." + Pad(t.micro, 6)
  }

  /** `strftime('%Y%m%d%H%M%S')`. */
  function Compact(t: Stamp): string {
    Pad(t.date.year, 4) + Pad(t.date.month, 2) + Pad(t.date.day, 2)
    + Pad(t.hour, 2) + Pad(t.minute, 2) + Pad(t.second, 2)
  }

  const TYPE_NAMES: seq<string> := [
    "due_14", "due_3", "due_today", "late_notice", "payment_confirmed", "callback_ack", "credit_terms_ack",
    "appointment_reminder", "layaway_pickup", "promo", "loyalty_points"]

  const TYPES: seq<ReminderType> := [
    Due14, Due3, DueToday, LateNotice, PaymentConfirmed, CallbackAck, CreditTermsAck,
    AppointmentReminder, LayawayPickup, Promo, LoyaltyPoints]

  function TypeName(t: ReminderType): string {
    match t
    case Due14 => TYPE_NAMES[0]
    case Due3 => TYPE_NAMES[1]
    case DueToday => TYPE_NAMES[2]
    case LateNotice => TYPE_NAMES[3]
    case PaymentConfirmed => TYPE_NAMES[4]
    case CallbackAck => TYPE_NAMES[5]
    case CreditTermsAck => TYPE_NAMES[6]
    case AppointmentReminder => TYPE_NAMES[7]
    case LayawayPickup => TYPE_NAMES[8]
    case Promo => TYPE_NAMES[9]
    case LoyaltyPoints => TYPE_NAMES[10]
  }

  /** The colon-separated parts of a key's text. */
  function Fields(k: Key): (fs: seq<string>)
    ensures |fs| >= 3
  {
    match k
    case Reminder(b, cu, co, t, kind, due, policy) =>
      [Digits(b), Digits(cu), Digits(co), Digits(t), TypeName(kind),
       if due.Some? then IsoDate(due.value) else "none", policy]
    case Campaign(b, ca, cu, date) => [Digits(b), Digits(ca), "promo", Digits(cu), IsoDate(date)]
    case Confirm(b, ref) => [Digits(b), "mpesa_confirm", ref]
    case Response(b, co, t) =>
      [Digits(b), Digits(co), "response", IsoDate(t.date) + "T" + Pad(t.hour, 2), Pad(t.minute, 2), IsoSeconds(t)]
    case Replay(of, t) => Fields(of) + ["replay", Compact(t)]
  }

  function Join(fs: seq<string>): string
    requires fs != []
  {
    if |fs| == 1 then fs[0] else Join(fs[..|fs| - 1]) + ":" + fs[|fs| - 1]
  }

  /** The stored message_key. */
  function Print(k: Key): string {
    Join(Fields(k))
  }

  // ---------------------------------------------------------------- parsing

  function Value(s: string): nat {
    if s == "" then 0 else 10 * Value(s[..|s| - 1]) + DigitValue(s[|s| - 1])
  }

  function DigitValue(c: char): nat {
    if '0' <= c <= '9' then (c - '0') as nat else 0
  }

  function ParseDate(s: string): Date {
    if |s| < 10 then Date(0, 0, 0) else Date(Value(s[..4]), Value(s[5..7]), Value(s[8..10]))
  }

  function ParseCompact(s: string): Stamp {
    if |s| != 14 then Stamp(Date(0, 0, 0), 0, 0, 0, 0)
    else Stamp(Date(Value(s[..4]), Value(s[4..6]), Value(s[6..8])),
               Value(s[8..10]), Value(s[10..12]), Value(s[12..]), 0)
  }

  function ParseType(s: string, from: nat): ReminderType
    requires from <= 10
    decreases 10 - from
  {
    if from == 10 || TYPE_NAMES[from] == s then TYPES[from] else ParseType(s, from + 1)
  }

  /** A key from the parts of its text: the replay suffix first, then the number of parts decides. */
  function ParseFields(fs: seq<string>): Option<Key> {
    var n := |fs|;
    if n >= 2 && fs[n - 2] == "replay" then
      var of := ParseFields(fs[..n - 2]);
      if of.Some? then Some(Replay(of.value, ParseCompact(fs[n - 1]))) else None
    else if n == 7 then
      Some(Reminder(Value(fs[0]), Value(fs[1]), Value(fs[2]), Value(fs[3]), ParseType(fs[4], 0),
                    if fs[5] == "none" then None else Some(ParseDate(fs[5])), fs[6]))
    else if n == 5 then
      Some(Campaign(Value(fs[0]), Value(fs[1]), Value(fs[3]), ParseDate(fs[4])))
    else if n == 3 then
      Some(Confirm(Value(fs[0]), fs[2]))
    else if n == 6 && |fs[3]| == 13 && |fs[5]| in {2, 9} then
      Some(Response(Value(fs[0]), Value(fs[1]),
                    Stamp(ParseDate(fs[3]), Value(fs[3][11..]), Value(fs[4]), Value(fs[5][..2]),
                          if |fs[5]| == 2 then 0 else Value(fs[5][3..]))))
    else
      None
  }

  function Split(s: string): (fs: seq<string>)
    ensures fs != []
  {
    if s == "" then [""]
    else
      var fs, c := Split(s[..|s| - 1]), s[|s| - 1];
      if c == ':' then fs + [""] else fs[..|fs| - 1] + [fs[|fs| - 1] + [c]]
  }

  function Parse(s: string): Option<Key> {
    ParseFields(Split(s))
  }

  // ---------------------------------------------------------------- well-formed keys

  predicate ValidDate(d: Date) {
    1000 <= d.year < 10000 && d.month < 100 && d.day < 100
  }

  predicate ValidStamp(t: Stamp) {
    ValidDate(t.date) && t.hour < 100 && t.minute < 100 && t.second < 100 && t.micro < 1000000
  }

  predicate ColonFree(s: string) {
    ':' !in s
  }

  /** Calendar dates, and no colon in a policy version or receipt code. A replay time has whole seconds. */
  predicate WellFormed(k: Key) {
    match k
    case Reminder(_, _, _, _, _, due, policy) => (due.Some? ==> ValidDate(due.value)) && ColonFree(policy)
    case Campaign(_, _, _, date) => ValidDate(date)
    case Confirm(_, ref) => ColonFree(ref)
    case Response(_, _, t) => ValidStamp(t)
    case Replay(of, t) => WellFormed(of) && ValidStamp(t) && t.micro == 0
  }

  // ---------------------------------------------------------------- numbers and dates come back

  predicate AllDigits(s: string) {
    forall i :: 0 <= i < |s| ==> '0' <= s[i] <= '9'
  }

  lemma {:induction false} DigitsRoundTrip(n: nat)
    ensures Value(Digits(n)) == n && AllDigits(Digits(n)) && Digits(n) != ""
  {
    if n < 10 {
      assert Digits(n)[..0] == "";
    } else {
      DigitsRoundTrip(n / 10);
      assert Digits(n)[..|Digits(n)| - 1] == Digits(n / 10);
    }
  }

  function Pow10(w: nat): nat {
    if w == 0 then 1 else 10 * Pow10(w - 1)
  }

  lemma {:induction false} PadRoundTrip(n: nat, w: nat)
    requires n < Pow10(w)
    ensures |Pad(n, w)| == w && Value(Pad(n, w)) == n && AllDigits(Pad(n, w))
  {
    if w > 0 {
      PadRoundTrip(n / 10, w - 1);
      assert Pad(n, w)[..w - 1] == Pad(n / 10, w - 1);
    }
  }

  /** Cutting a calendar date at its dashes. */
  lemma DateParts(y: string, mo: string, d: string, rest: string)
    requires |y| == 4 && |mo| == |d| == 2
    ensures var date := y + "-" + mo + "-" + d; var s := date + rest;
      |date| == 10 && |s| >= 10 && s[..4] == y && s[5..7] == mo && s[8..10] == d
  {
  }

  lemma IsoDateRoundTrip(d: Date, rest: string)
    requires ValidDate(d)
    ensures |IsoDate(d)| == 10 && ParseDate(IsoDate(d) + rest) == d && ColonFree(IsoDate(d))
    ensures IsoDate(d) != "none" && IsoDate(d) != "replay"
  {
    PadRoundTrip(d.year, 4);
    PadRoundTrip(d.month, 2);
    PadRoundTrip(d.day, 2);
    DateParts(Pad(d.year, 4), Pad(d.month, 2), Pad(d.day, 2), rest);
  }

  lemma CompactRoundTrip(t: Stamp)
    requires ValidStamp(t) && t.micro == 0
    ensures ParseCompact(Compact(t)) == t && ColonFree(Compact(t))
  {
    PadRoundTrip(t.date.year, 4);
    PadRoundTrip(t.date.month, 2);
    PadRoundTrip(t.date.day, 2);
    PadRoundTrip(t.hour, 2);
    PadRoundTrip(t.minute, 2);
    PadRoundTrip(t.second, 2);
    CompactParts(Pad(t.date.year, 4), Pad(t.date.month, 2), Pad(t.date.day, 2),
                 Pad(t.hour, 2), Pad(t.minute, 2), Pad(t.second, 2));
  }

  /** Cutting a fixed-width text at its boundaries gives back its parts. */
  lemma SixParts(y: string, mo: string, d: string, h: string, mi: string, se: string)
    requires |y| == 4 && |mo| == |d| == |h| == |mi| == |se| == 2
    ensures var s := y + mo + d + h + mi + se;
      && |s| == 14 && s[..4] == y && s[4..6] == mo && s[6..8] == d && s[8..10] == h && s[10..12] == mi && s[12..] == se
  {
  }

  lemma CompactParts(y: string, mo: string, d: string, h: string, mi: string, se: string)
    requires |y| == 4 && |mo| == |d| == |h| == |mi| == |se| == 2
    requires AllDigits(y) && AllDigits(mo) && AllDigits(d) && AllDigits(h) && AllDigits(mi) && AllDigits(se)
    ensures var s := y + mo + d + h + mi + se;
      && ParseCompact(s) == Stamp(Date(Value(y), Value(mo), Value(d)), Value(h), Value(mi), Value(se), 0)
      && ColonFree(s)
  {
    SixParts(y, mo, d, h, mi, se);
    var s := y + mo + d + h + mi + se;
    assert forall i :: 0 <= i < |s| ==> s[i] != ':';
  }

  lemma SecondsRoundTrip(t: Stamp)
    requires ValidStamp(t)
    ensures var s := IsoSeconds(t);
      && |s| in {2, 9} && (|s| == 2 <==> t.micro == 0) && ColonFree(s)
      && Value(s[..2]) == t.second && (|s| == 9 ==> Value(s[3..]) == t.micro)
  {
    PadRoundTrip(t.second, 2);
    PadRoundTrip(t.micro, 6);
    var s := IsoSeconds(t);
    assert s[..2] == Pad(t.second, 2);
    if t.micro != 0 {
      assert s[3..] == Pad(t.micro, 6);
    }
  }

  lemma {:induction false} ParseTypeSkips(s: string, from: nat, to: nat)
    requires from <= to <= 10 && TYPE_NAMES[to] == s
    requires forall i :: from <= i < to ==> TYPE_NAMES[i] != s
    ensures ParseType(s, from) == TYPES[to]
    decreases 10 - from
  {
    if from < to {
      ParseTypeSkips(s, from + 1, to);
    }
  }

  function IndexOf(t: ReminderType): (i: nat)
    ensures i <= 10 && TYPES[i] == t && TypeName(t) == TYPE_NAMES[i]
  {
    match t
    case Due14 => 0
    case Due3 => 1
    case DueToday => 2
    case LateNotice => 3
    case PaymentConfirmed => 4
    case CallbackAck => 5
    case CreditTermsAck => 6
    case AppointmentReminder => 7
    case LayawayPickup => 8
    case Promo => 9
    case LoyaltyPoints => 10
  }

  lemma TypeRoundTrip(t: ReminderType)
    ensures ParseType(TypeName(t), 0) == t && ColonFree(TypeName(t))
  {
    ParseTypeSkips(TypeName(t), 0, IndexOf(t));
  }

  // ---------------------------------------------------------------- splitting undoes joining

  lemma {:induction false} SplitAppends(s: string, w: string)
    requires ColonFree(w)
    ensures Split(s + ":" + w) == Split(s) + [w]
  {
    var t := s + ":" + w;
    if w == "" {
      assert t[..|t| - 1] == s;
    } else {
      var w' := w[..|w| - 1];
      assert t[..|t| - 1] == s + ":" + w';
      assert w == w' + [w[|w| - 1]];
      SplitAppends(s, w');
    }
  }

  lemma {:induction false} SplitWord(w: string)
    requires ColonFree(w)
    ensures Split(w) == [w]
  {
    if w != "" {
      assert w == w[..|w| - 1] + [w[|w| - 1]];
      SplitWord(w[..|w| - 1]);
    }
  }

  lemma {:induction false} SplitJoin(fs: seq<string>)
    requires fs != [] && ColonFreeAll(fs)
    ensures Split(Join(fs)) == fs
  {
    var n := |fs| - 1;
    if n == 0 {
      SplitWord(fs[0]);
    } else {
      var front, last := fs[..n], fs[n];
      assert fs == front + [last];
      SplitJoin(front);
      JoinSnoc(front, last);
      SplitAppends(Join(front), last);
    }
  }

  // ---------------------------------------------------------------- the round trip

  lemma DigitsFacts(n: nat)
    ensures Value(Digits(n)) == n && ColonFree(Digits(n)) && Digits(n) != "replay"
  {
  }

  ghost predicate ColonFreeAll(fs: seq<string>) {
    forall i :: 0 <= i < |fs| ==> ColonFree(fs[i])
  }

  lemma ReminderRoundTrip(k: Key)
    requires k.Reminder? && WellFormed(k)
    ensures ColonFreeAll(Fields(k)) && ParseFields(Fields(k)) == Some(k)
  {
    DigitsFacts(k.business);
    DigitsFacts(k.customer);
    DigitsFacts(k.contact);
    DigitsFacts(k.txn);
    TypeRoundTrip(k.kind);
    if k.due.Some? {
      IsoDateRoundTrip(k.due.value, "");
      assert IsoDate(k.due.value) + "" == IsoDate(k.due.value);
    }
  }

  lemma HourPart(t: Stamp)
    requires ValidStamp(t)
    ensures var f := IsoDate(t.date) + "T" + Pad(t.hour, 2);
      |f| == 13 && ColonFree(f) && ParseDate(f) == t.date && Value(f[11..]) == t.hour
  {
    PadRoundTrip(t.hour, 2);
    IsoDateRoundTrip(t.date, "T" + Pad(t.hour, 2));
    var f := IsoDate(t.date) + "T" + Pad(t.hour, 2);
    assert f == IsoDate(t.date) + ("T" + Pad(t.hour, 2));
    assert f[11..] == Pad(t.hour, 2);
  }

  lemma ResponseRoundTrip(k: Key)
    requires k.Response? && WellFormed(k)
    ensures ColonFreeAll(Fields(k)) && ParseFields(Fields(k)) == Some(k)
  {
    var hour, minute, second := IsoDate(k.at.date) + "T" + Pad(k.at.hour, 2), Pad(k.at.minute, 2), IsoSeconds(k.at);
    DigitsFacts(k.business);
    DigitsFacts(k.contact);
    MinutePart(k.at);
    SecondsRoundTrip(k.at);
    HourPart(k.at);
  }

  lemma MinutePart(t: Stamp)
    requires ValidStamp(t)
    ensures |Pad(t.minute, 2)| == 2 && Value(Pad(t.minute, 2)) == t.minute && ColonFree(Pad(t.minute, 2))
  {
    PadRoundTrip(t.minute, 2);
  }

  lemma CampaignRoundTrip(k: Key)
    requires k.Campaign? && WellFormed(k)
    ensures ColonFreeAll(Fields(k)) && ParseFields(Fields(k)) == Some(k)
  {
    DigitsFacts(k.business);
    DigitsFacts(k.campaign);
    DigitsFacts(k.customer);
    IsoDateRoundTrip(k.date, "");
    assert IsoDate(k.date) + "" == IsoDate(k.date);
    assert |Fields(k)| == 5;
  }

  lemma ConfirmRoundTrip(k: Key)
    requires k.Confirm? && WellFormed(k)
    ensures ColonFreeAll(Fields(k)) && ParseFields(Fields(k)) == Some(k)
  {
    DigitsFacts(k.business);
  }

  lemma ReplayRoundTrip(of: Key, t: Stamp)
    requires ValidStamp(t) && t.micro == 0 && ColonFreeAll(Fields(of)) && ParseFields(Fields(of)) == Some(of)
    ensures ColonFreeAll(Fields(of) + ["replay", Compact(t)])
    ensures ParseFields(Fields(of) + ["replay", Compact(t)]) == Some(Replay(of, t))
  {
    CompactRoundTrip(t);
  }

  /** The parts of a key's text contain no colon and determine the key. */
  lemma {:induction false} FieldsRoundTrip(k: Key)
    requires WellFormed(k)
    ensures ColonFreeAll(Fields(k)) && ParseFields(Fields(k)) == Some(k)
  {
    match k {
      case Reminder(_, _, _, _, _, _, _) => ReminderRoundTrip(k);
      case Campaign(_, _, _, _) => CampaignRoundTrip(k);
      case Confirm(_, _) => ConfirmRoundTrip(k);
      case Response(_, _, _) => ResponseRoundTrip(k);
      case Replay(of, t) =>
        FieldsRoundTrip(of);
        ReplayRoundTrip(of, t);
    }
  }

  /** Whatever family a well-formed key belongs to, its text determines it. */
  lemma PrintRoundTrip(k: Key)
    requires WellFormed(k)
    ensures Parse(Print(k)) == Some(k)
  {
    FieldsRoundTrip(k);
    SplitJoin(Fields(k));
  }

  /** Two keys with the same text are the same key of the same family. */
  lemma KeysNeverCollide(a: Key, b: Key)
    requires WellFormed(a) && WellFormed(b) && Print(a) == Print(b)
    ensures a == b
  {
    PrintRoundTrip(a);
    PrintRoundTrip(b);
  }

  /** The texts as they are stored, family by family. */
  lemma ReminderText(b: nat, x: nat, y: nat, z: nat, kind: ReminderType, due: Option<Date>, policy: string)
    ensures Print(Reminder(b, x, y, z, kind, due, policy))
            == Digits(b) + ":" + Digits(x) + ":" + Digits(y) + ":" + Digits(z) + ":" + TypeName(kind) + ":"
               + (if due == None then "none" else IsoDate(due.value)) + ":" + policy
  {
    var day := if due == None then "none" else IsoDate(due.value);
    var front := [Digits(b), Digits(x), Digits(y), Digits(z)];
    JoinThree([Digits(b)], Digits(x), Digits(y), Digits(z));
    JoinThree(front, TypeName(kind), day, policy);
    assert [Digits(b)] + [Digits(x), Digits(y), Digits(z)] == front;
    assert front + [TypeName(kind), day, policy] == Fields(Reminder(b, x, y, z, kind, due, policy));
  }

  lemma CampaignText(b: nat, x: nat, y: nat, date: Date)
    ensures Print(Campaign(b, x, y, date))
            == Digits(b) + ":" + Digits(x) + ":" + "promo" + ":" + Digits(y) + ":" + IsoDate(date)
  {
    JoinSnoc([Digits(b)], Digits(x));
    JoinThree([Digits(b), Digits(x)], "promo", Digits(y), IsoDate(date));
    assert [Digits(b)] + [Digits(x)] == [Digits(b), Digits(x)];
    assert [Digits(b), Digits(x)] + ["promo", Digits(y), IsoDate(date)] == Fields(Campaign(b, x, y, date));
  }

  lemma ConfirmText(b: nat, ref: string)
    ensures Print(Confirm(b, ref)) == Digits(b) + ":" + "mpesa_confirm" + ":" + ref
  {
    JoinSnoc([Digits(b)], "mpesa_confirm");
    JoinSnoc([Digits(b), "mpesa_confirm"], ref);
    assert [Digits(b)] + ["mpesa_confirm"] == [Digits(b), "mpesa_confirm"];
    assert [Digits(b), "mpesa_confirm"] + [ref] == Fields(Confirm(b, ref));
  }

  lemma ResponseText(b: nat, x: nat, at: Stamp)
    ensures Print(Response(b, x, at))
            == Digits(b) + ":" + Digits(x) + ":" + "response" + ":" + (IsoDate(at.date) + "T" + Pad(at.hour, 2))
               + ":" + Pad(at.minute, 2) + ":" + IsoSeconds(at)
  {
    var day := IsoDate(at.date) + "T" + Pad(at.hour, 2);
    JoinSnoc([Digits(b)], Digits(x));
    JoinSnoc([Digits(b), Digits(x)], "response");
    assert [Digits(b)] + [Digits(x)] == [Digits(b), Digits(x)];
    assert [Digits(b), Digits(x)] + ["response"] == [Digits(b), Digits(x), "response"];
    JoinThree([Digits(b), Digits(x), "response"], day, Pad(at.minute, 2), IsoSeconds(at));
    assert [Digits(b), Digits(x), "response"] + [day, Pad(at.minute, 2), IsoSeconds(at)] == Fields(Response(b, x, at));
  }

  lemma JoinThree(fs: seq<string>, a: string, b: string, c: string)
    requires fs != []
    ensures Join(fs + [a, b, c]) == Join(fs) + ":" + a + ":" + b + ":" + c
  {
    JoinTwo(fs, a, b);
    JoinSnoc(fs + [a, b], c);
    assert fs + [a, b] + [c] == fs + [a, b, c];
  }

  /** Joining one more part. */
  lemma JoinSnoc(fs: seq<string>, f: string)
    requires fs != []
    ensures Join(fs + [f]) == Join(fs) + ":" + f
  {
  }

  lemma JoinTwo(fs: seq<string>, a: string, b: string)
    requires fs != []
    ensures Join(fs + [a, b]) == Join(fs) + (":" + a + ":") + b
  {
    assert fs + [a, b] == fs + [a] + [b];
  }
}
