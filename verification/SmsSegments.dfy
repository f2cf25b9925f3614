/**
 Segment counting (domain/templates.py `_count_segments`).

 Capacities follow section 6.2.1 of 3GPP TS 23.038 and section 9.2.3.24.1 of 3GPP TS 23.040:
 160 septets or 70 UCS-2 units alone, 153 or 67 when concatenated.

 The source counts characters. UCS-2 counts 16-bit units, two for a character beyond U+FFFF; the last part of
 the file says exactly when the two counts agree.
 */
module SmsSegments {
  import opened Prelude

  /** The default alphabet as the source lists it. */
  const GSM7: set<char> := DIGITS_AND_PUNCTUATION + CAPITALS + SMALL + LATIN + GREEK_AND_CONTROL

  const DIGITS_AND_PUNCTUATION: set<char> := {
    '@', '$', '_', ' ', '!', '"', '#', '%', '&', '\'', '(', ')', '*', '+', ',', '-', '.', '/', '0', '1', '2',
    '3', '4', '5', '6', '7', '8', '9', ':', ';', '<', '=', '>', '?'}

  const CAPITALS: set<char> := {
    'A', 'B', 'C', 'D', 'E', 'F', 'G', 'H', 'I', 'J', 'K', 'L', 'M', 'N', 'O', 'P', 'Q', 'R', 'S', 'T', 'U',
    'V', 'W', 'X', 'Y', 'Z'}

  const SMALL: set<char> := {
    'a', 'b', 'c', 'd', 'e', 'f', 'g', 'h', 'i', 'j', 'k', 'l', 'm', 'n', 'o', 'p', 'q', 'r', 's', 't', 'u',
    'v', 'w', 'x', 'y', 'z'}

  const LATIN: set<char> := {
    '\U{A3}', '\U{A5}', '\U{E8}', '\U{E9}', '\U{F9}', '\U{EC}', '\U{F2}', '\U{C7}', '\U{D8}', '\U{F8}',
    '\U{C5}', '\U{E5}', '\U{C6}', '\U{E6}', '\U{DF}', '\U{C9}', '\U{A4}', '\U{A1}', '\U{C4}', '\U{D6}',
    '\U{D1}', '\U{DC}', '\U{A7}', '\U{BF}', '\U{E4}', '\U{F6}', '\U{F1}', '\U{FC}', '\U{E0}'}

  const GREEK_AND_CONTROL: set<char> := {
    '\n', '\r', '\U{394}', '\U{3A6}', '\U{393}', '\U{39B}', '\U{3A9}', '\U{3A0}', '\U{3A8}', '\U{3A3}',
    '\U{398}', '\U{39E}', '\U{1B}'}

  predicate Within(body: string, alphabet: set<char>) {
    forall i :: 0 <= i < |body| ==> body[i] in alphabet
  }

  predicate IsGsm7(body: string) {
    Within(body, GSM7)
  }

  /** A body counts in septets exactly if every character is in the default alphabet. */
  lemma Gsm7Exactly(body: string)
    ensures IsGsm7(body) <==> forall c :: c in body ==> c in GSM7
  {
    forall i | 0 <= i < |body| ensures body[i] in body {
    }
  }

  /** Capacity of `n` segments. */
  function Capacity(n: nat, gsm7: bool): nat
    requires n >= 1
  {
    if n == 1 then (if gsm7 then 160 else 70) else n * (if gsm7 then 153 else 67)
  }

  /** `_count_segments` on a body of this many characters. */
  function CountFor(length: nat, gsm7: bool): nat {
    var perSegment := if gsm7 then (if length <= 160 then 160 else 153) else (if length <= 70 then 70 else 67);
    if length <= perSegment then 1 else (length + perSegment - 1) / perSegment
  }

  function CountSegments(body: string): nat {
    CountFor(|body|, IsGsm7(body))
  }

  /** The count is the least number of segments that hold the body: 160 or 70 in one, 153 or 67 in each of several. */
  lemma CountIsLeast(length: nat, gsm7: bool)
    ensures var n := CountFor(length, gsm7);
      && n >= 1
      && length <= Capacity(n, gsm7)
      && (forall m: nat | 1 <= m < n :: Capacity(m, gsm7) < length)
      && (n == 1 <==> length <= if gsm7 then 160 else 70)
      && (n > 1 ==> var each := if gsm7 then 153 else 67; each * (n - 1) < length <= each * n)
  {
  }

  lemma CountIsMonotone(a: nat, b: nat, gsm7: bool)
    requires a <= b
    ensures CountFor(a, gsm7) <= CountFor(b, gsm7)
  {
  }

  // ---------------------------------------------------------------- against an actual splitter

  function Chunks(body: string, size: nat): (parts: seq<string>)
    requires size > 0
    decreases |body|
  {
    if |body| <= size then [body] else [body[..size]] + Chunks(body[size..], size)
  }

  /** The parts a handset would be sent. */
  function Parts(body: string): seq<string> {
    var gsm7 := IsGsm7(body);
    if |body| <= Capacity(1, gsm7) then [body] else Chunks(body, if gsm7 then 153 else 67)
  }

  function Concat(parts: seq<string>): string {
    if parts == [] then "" else parts[0] + Concat(parts[1..])
  }

  lemma {:induction false} ChunksAreRight(body: string, size: nat)
    requires size > 0
    ensures var parts := Chunks(body, size);
      && Concat(parts) == body
      && (forall i :: 0 <= i < |parts| ==> |parts[i]| <= size)
      && |parts| == if |body| <= size then 1 else (|body| + size - 1) / size
    decreases |body|
  {
    var parts := Chunks(body, size);
    if |body| <= size {
      assert parts[1..] == [];
      assert body + "" == body;
    } else {
      ChunksAreRight(body[size..], size);
      assert parts[1..] == Chunks(body[size..], size);
      assert body == body[..size] + body[size..];
      CeilStep(|body|, size);
    }
  }

  lemma CeilStep(length: nat, size: nat)
    requires 0 < size < length
    ensures (length + size - 1) / size == 1 + if length - size <= size then 1 else (length - size + size - 1) / size
  {
    var a := length - 1;
    assert (a + size) / size == a / size + 1 by {
      var q, r := a / size, a % size;
      assert a == size * q + r;
      assert a + size == size * (q + 1) + r;
      QuotientIs(a + size, size, q + 1);
    }
    if length - size <= size {
      QuotientIs(a, size, 1);
    }
  }

  lemma QuotientIs(a: nat, b: nat, q: nat)
    requires b > 0 && b * q <= a < b * q + b
    ensures a / b == q
  {
    ProductBelow(b, a / b, q);
    ProductBelow(b, q, a / b);
  }

  lemma ProductBelow(b: nat, p: nat, q: nat)
    requires b * p < b * (q + 1)
    ensures p <= q
  {
  }

  /** The count is the number of parts, each part fits its segment, and the parts are the body. */
  lemma CountIsNumberOfParts(body: string)
    ensures |Parts(body)| == CountSegments(body)
    ensures Concat(Parts(body)) == body
    ensures forall i :: 0 <= i < |Parts(body)| ==>
              |Parts(body)[i]| <= if |Parts(body)| == 1 then Capacity(1, IsGsm7(body))
                                  else if IsGsm7(body) then 153 else 67
  {
    ChunksAreRight(body, if IsGsm7(body) then 153 else 67);
    if |body| <= Capacity(1, IsGsm7(body)) {
      assert [body][1..] == [] && body + "" == body;
    }
  }

  /** `force or template or settings`: the first cap that is not zero. */
  function CapInForce(force: nat, template: nat, settings: nat): nat {
    if force != 0 then force else if template != 0 then template else settings
  }

  /** The segment check of `render`: a body comes out, unchanged, exactly if the cap's capacity holds it. */
  function Checked(body: string, force: nat, template: nat, settings: nat): (r: Result<string>)
    ensures var cap := if force > 0 then force else if template > 0 then template else settings;
      r.Ok? <==> && cap >= 1
                 && |body| <= if IsGsm7(body) then (if cap == 1 then 160 else 153 * cap)
                              else (if cap == 1 then 70 else 67 * cap)
    ensures r.Ok? ==> r.value == body
  {
    var cap := CapInForce(force, template, settings);
    CountIsLeast(|body|, IsGsm7(body));
    if CountSegments(body) > cap then Err("Rendered message exceeds segments") else Ok(body)
  }

  // ---------------------------------------------------------------- characters beyond the basic plane

  /** UCS-2 units: a character beyond U+FFFF takes two. */
  function Units(body: string): nat {
    if body == "" then 0 else Units(body[..|body| - 1]) + if body[|body| - 1] as int >= 0x10000 then 2 else 1
  }

  lemma {:induction false} UnitsAtLeastLength(body: string)
    ensures |body| <= Units(body) <= 2 * |body|
    ensures (forall i :: 0 <= i < |body| ==> body[i] as int < 0x10000) ==> Units(body) == |body|
  {
    if body != "" {
      UnitsAtLeastLength(body[..|body| - 1]);
    }
  }

  ghost predicate Basic(alphabet: set<char>) {
    forall c :: c in alphabet ==> c as int < 0x10000
  }

  lemma PartsAreBasic()
    ensures Basic(DIGITS_AND_PUNCTUATION)
    ensures Basic(CAPITALS)
    ensures Basic(SMALL)
    ensures Basic(LATIN)
    ensures Basic(GREEK_AND_CONTROL)
  {
  }

  /** No character of the default alphabet lies beyond U+FFFF. */
  lemma AlphabetIsBasic()
    ensures Basic(GSM7)
  {
    PartsAreBasic();
  }

  lemma Gsm7Units(body: string)
    requires IsGsm7(body)
    ensures Units(body) == |body|
  {
    AlphabetIsBasic();
  }

  /**
   The source counts characters where UCS-2 counts units. Both give the same number of segments if and only if the
   body is in the default alphabet, or its units fit one segment, or it is longer than one segment by either
   count and its units fit the segments that its characters fill.
   */
  lemma CountsUnitsExactly(body: string)
    ensures CountSegments(body) <= CountFor(Units(body), IsGsm7(body))
    ensures CountSegments(body) == CountFor(Units(body), IsGsm7(body))
            <==> IsGsm7(body) || Units(body) <= 70 || (|body| > 70 && Units(body) <= 67 * ((|body| + 66) / 67))
  {
    UnitsAtLeastLength(body);
    if IsGsm7(body) {
      Gsm7Units(body);
    }
  }

  /** From 36 to 67 characters beyond U+FFFF count as one segment and need two. */
  lemma AstralBodiesAreUndercounted(body: string)
    requires 36 <= |body| <= 67 && forall i :: 0 <= i < |body| ==> body[i] as int >= 0x10000
    ensures CountSegments(body) == 1 && CountFor(Units(body), IsGsm7(body)) == 2
  {
    AstralUnits(body);
    if IsGsm7(body) {
      Gsm7Units(body);
      assert false;
    }
  }

  lemma {:induction false} AstralUnits(body: string)
    requires forall i :: 0 <= i < |body| ==> body[i] as int >= 0x10000
    ensures Units(body) == 2 * |body|
  {
    if body != "" {
      AstralUnits(body[..|body| - 1]);
    }
  }

  /** There is such a body. */
  lemma SomeBodyIsUndercounted()
    ensures exists body: string :: |body| == 36 && CountSegments(body) == 1 && CountFor(Units(body), IsGsm7(body)) == 2
  {
    var body := seq(36, i => '\U{1F600}');
    AstralBodiesAreUndercounted(body);
  }
}
