/** Repair of mixed-encoding text into clean UTF-8 (internal/compile/sanitize.go). */
module Sanitize {
  type Bytes = seq<bv8>

  // ---- UTF-8, section 4 of RFC 3629 ----

  predicate Tail(b: bv8) {
    0x80 <= b <= 0xBF
  }

  /** The second byte a three- or four-byte lead allows. */
  predicate SecondAfter(lead: bv8, b: bv8) {
    if lead == 0xE0 then 0xA0 <= b <= 0xBF
    else if lead == 0xED then 0x80 <= b <= 0x9F
    else if lead == 0xF0 then 0x90 <= b <= 0xBF
    else if lead == 0xF4 then 0x80 <= b <= 0x8F
    else Tail(b)
  }

  /** The length of the well-formed multi-byte sequence `s` starts with, or zero. */
  function Width(s: Bytes): (k: nat)
    ensures k <= |s| && k != 1
  {
    if |s| >= 2 && 0xC2 <= s[0] <= 0xDF && Tail(s[1]) then 2
    else if |s| >= 3 && 0xE0 <= s[0] <= 0xEF && SecondAfter(s[0], s[1]) && Tail(s[2]) then 3
    else if |s| >= 4 && 0xF0 <= s[0] <= 0xF4 && SecondAfter(s[0], s[1]) && Tail(s[2]) && Tail(s[3]) then 4
    else 0
  }

  /** The code point of a well-formed sequence. */
  function Rune(s: Bytes): bv32
    requires Width(s) > 0
  {
    match Width(s)
    case 2 => ((s[0] as bv32 & 0x1F) << 6) | (s[1] as bv32 & 0x3F)
    case 3 => ((s[0] as bv32 & 0x0F) << 12) | ((s[1] as bv32 & 0x3F) << 6) | (s[2] as bv32 & 0x3F)
    case _ =>
      ((s[0] as bv32 & 0x07) << 18) | ((s[1] as bv32 & 0x3F) << 12) | ((s[2] as bv32 & 0x3F) << 6) | (s[3] as bv32 & 0x3F)
  }

  const REPLACEMENT: bv32 := 0xFFFD

  predicate ValidUtf8(s: Bytes) {
    s == [] || (if s[0] < 0x80 then ValidUtf8(s[1..]) else Width(s) > 0 && ValidUtf8(s[Width(s)..]))
  }

  /** Control bytes that XML 1.0 forbids in content. */
  predicate Forbidden(b: bv8) {
    b < 0x20 && b != 0x09 && b != 0x0A && b != 0x0D
  }

  /** Valid UTF-8 without forbidden control bytes and without U+FFFD. */
  predicate Clean(s: Bytes) {
    s == []
    || (if s[0] < 0x80 then !Forbidden(s[0]) && Clean(s[1..])
        else Width(s) > 0 && Rune(s) != REPLACEMENT && Clean(s[Width(s)..]))
  }

  // ---- The repair ----

  /** Whether Go's decoder yields a rune other than its error rune, which U+FFFD itself decodes to. */
  predicate Decodes(s: Bytes) {
    Width(s) > 0 && Rune(s) != REPLACEMENT
  }

  /** The two-byte encoding of a byte read as Latin-1. */
  function Latin1(b: bv8): (e: Bytes)
    ensures |e| == 2
  {
    [0xC0 | (b >> 6), 0x80 | (b & 0x3F)]
  }

  /** How much of the input one step of the pass takes. */
  function Taken(s: Bytes): (k: nat)
    requires s != []
    ensures 1 <= k <= |s|
  {
    if s[0] >= 0x80 && Decodes(s) then Width(s) else 1
  }

  /** What the step emits. */
  function Emitted(s: Bytes): Bytes
    requires s != []
  {
    if s[0] < 0x80 then (if Forbidden(s[0]) then [] else [s[0]])
    else if Decodes(s) then s[..Width(s)]
    else Latin1(s[0])
  }

  function Repaired(s: Bytes): Bytes {
    if s == [] then [] else Emitted(s) + Repaired(s[Taken(s)..])
  }

  /** The single pass of sanitizeXMLBytes. */
  method SanitizeXmlBytes(s: Bytes) returns (out: Bytes)
    ensures out == Repaired(s)
    ensures Clean(out) && |out| <= 2 * |s|
  {
    out := [];
    var i: nat := 0;
    while i < |s|
      invariant i <= |s| && out + Repaired(s[i..]) == Repaired(s)
    {
      var emitted, taken := Step(s[i..]);
      NextStep(s, i, out);
      out := out + emitted;
      i := i + taken;
    }
    RepairIsClean(s);
    RepairAtMostDoubles(s);
  }

  lemma {:induction false} NextStep(s: Bytes, i: nat, out: Bytes)
    requires i < |s|
    ensures out + Repaired(s[i..]) == (out + Emitted(s[i..])) + Repaired(s[i + Taken(s[i..])..])
  {
    assert s[i..][Taken(s[i..])..] == s[i + Taken(s[i..])..];
  }

  /** One turn of the loop. */
  method Step(rest: Bytes) returns (emitted: Bytes, taken: nat)
    requires rest != []
    ensures emitted == Emitted(rest) && taken == Taken(rest)
  {
    var b := rest[0];
    if b < 0x80 {
      if b == 0x09 || b == 0x0A || b == 0x0D {
        emitted := [b];
      } else if b < 0x20 {
        emitted := [];
      } else {
        emitted := [b];
      }
      return emitted, 1;
    }
    if Decodes(rest) {
      return rest[..Width(rest)], Width(rest);
    }
    return [0xC0 | (b >> 6), 0x80 | (b & 0x3F)], 1;
  }

  // ---- What the repair promises ----

  /** Width and code point of a sequence depend on its own bytes alone. */
  lemma {:induction false} SameSequence(a: Bytes, b: Bytes)
    requires Width(a) > 0 && |b| >= Width(a) && forall i :: 0 <= i < Width(a) ==> b[i] == a[i]
    ensures Width(b) == Width(a) && Rune(b) == Rune(a)
  {
    assert b[0] == a[0] && b[1] == a[1];
  }

  lemma {:induction false} WidthOfPrefix(a: Bytes, b: Bytes)
    requires Width(a) > 0
    ensures Width(a + b) == Width(a) && Rune(a + b) == Rune(a)
    ensures Width(a[..Width(a)]) == Width(a) && Rune(a[..Width(a)]) == Rune(a)
  {
    SameSequence(a, a + b);
    SameSequence(a, a[..Width(a)]);
  }

  lemma {:induction false} Latin1Encodes(b: bv8)
    requires b >= 0x80
    ensures Width(Latin1(b)) == 2 && Rune(Latin1(b)) == b as bv32
  {
    assert 0xC2 <= 0xC0 | (b >> 6) <= 0xC3 && Tail(0x80 | (b & 0x3F));
    assert ((((0xC0 | (b >> 6)) as bv32) & 0x1F) << 6) | (((0x80 | (b & 0x3F)) as bv32) & 0x3F) == b as bv32;
  }

  lemma {:induction false} CleanStep(a: Bytes, b: Bytes)
    requires Clean(b)
    requires (|a| == 1 && a[0] < 0x80 && !Forbidden(a[0])) || (|a| > 0 && Width(a) == |a| && Rune(a) != REPLACEMENT)
    ensures Clean(a + b)
  {
    if Width(a) == |a| {
      WidthOfPrefix(a, b);
      assert (a + b)[|a|..] == b;
    } else {
      assert (a + b)[1..] == b;
    }
  }

  /** Whatever comes in, clean UTF-8 comes out. */
  lemma {:induction false} RepairIsClean(s: Bytes)
    ensures Clean(Repaired(s))
  {
    if s != [] {
      if s[0] < 0x80 {
        RepairIsClean(s[1..]);
        if !Forbidden(s[0]) {
          CleanStep([s[0]], Repaired(s[1..]));
        } else {
          assert [] + Repaired(s[1..]) == Repaired(s[1..]);
        }
      } else if Decodes(s) {
        RepairIsClean(s[Width(s)..]);
        WidthOfPrefix(s, []);
        CleanStep(s[..Width(s)], Repaired(s[Width(s)..]));
      } else {
        RepairIsClean(s[1..]);
        Latin1Encodes(s[0]);
        CleanStep(Latin1(s[0]), Repaired(s[1..]));
      }
    }
  }

  lemma {:induction false} CleanIsValid(s: Bytes)
    requires Clean(s)
    ensures ValidUtf8(s) && forall i :: 0 <= i < |s| ==> !Forbidden(s[i])
  {
    if s != [] {
      var k := if s[0] < 0x80 then 1 else Width(s);
      CleanIsValid(s[k..]);
      forall i | 0 <= i < |s| ensures !Forbidden(s[i]) {
        if i >= k {
          assert s[i] == s[k..][i - k];
        }
      }
    }
  }

  lemma {:induction false} RepairAtMostDoubles(s: Bytes)
    ensures |Repaired(s)| <= 2 * |s|
  {
    if s != [] {
      RepairAtMostDoubles(s[1..]);
      if s[0] >= 0x80 && Decodes(s) {
        RepairAtMostDoubles(s[Width(s)..]);
      }
    }
  }

  /** The repair changes nothing exactly when the input is clean already. */
  lemma {:induction false} IdentityIffClean(s: Bytes)
    ensures Repaired(s) == s <==> Clean(s)
  {
    if Clean(s) {
      CleanIsKept(s);
    }
    RepairIsClean(s);
  }

  lemma {:induction false} CleanIsKept(s: Bytes)
    requires Clean(s)
    ensures Repaired(s) == s
  {
    if s != [] {
      var k := if s[0] < 0x80 then 1 else Width(s);
      CleanIsKept(s[k..]);
      assert s == s[..k] + s[k..];
      assert s[..1] == [s[0]];
    }
  }

  lemma {:induction false} RepairIsIdempotent(s: Bytes)
    ensures Repaired(Repaired(s)) == Repaired(s)
  {
    RepairIsClean(s);
    IdentityIffClean(Repaired(s));
  }

  // ---- Nothing but the encoding changes ----

  /** The text meant: well-formed sequences as such, any other high byte as Latin-1, forbidden controls left out. */
  function Meant(s: Bytes): seq<bv32> {
    if s == [] then []
    else
      (if s[0] < 0x80 && Forbidden(s[0]) then [] else if s[0] >= 0x80 && Decodes(s) then [Rune(s)] else [s[0] as bv32])
      + Meant(s[Taken(s)..])
  }

  /** The code points of valid UTF-8. */
  function Text(s: Bytes): seq<bv32>
    requires ValidUtf8(s)
  {
    if s == [] then []
    else if s[0] < 0x80 then [s[0] as bv32] + Text(s[1..])
    else [Rune(s)] + Text(s[Width(s)..])
  }

  lemma {:induction false} TextStep(a: Bytes, b: Bytes)
    requires a != [] && ValidUtf8(b) && if a[0] < 0x80 then |a| == 1 else Width(a) == |a|
    ensures ValidUtf8(a + b) && Text(a + b) == [if a[0] < 0x80 then a[0] as bv32 else Rune(a)] + Text(b)
  {
    if a[0] >= 0x80 {
      WidthOfPrefix(a, b);
    }
    assert (a + b)[|a|..] == b;
  }

  /** The output, read as plain UTF-8, is the text meant. */
  lemma {:induction false} RepairKeepsMeaning(s: Bytes)
    ensures ValidUtf8(Repaired(s)) && Text(Repaired(s)) == Meant(s)
  {
    if s != [] {
      var rest := Repaired(s[Taken(s)..]);
      RepairKeepsMeaning(s[Taken(s)..]);
      if s[0] < 0x80 && Forbidden(s[0]) {
        assert [] + rest == rest;
      } else {
        if s[0] >= 0x80 && Decodes(s) {
          WidthOfPrefix(s, []);
        } else if s[0] >= 0x80 {
          Latin1Encodes(s[0]);
        }
        TextStep(Emitted(s), rest);
      }
    }
  }

  // ---- The byte patterns, row by row ----

  predicate Between(lo: bv8, b: bv8, hi: bv8) {
    lo <= b <= hi
  }

  /** The rows of the syntax in section 4 of RFC 3629 for several bytes. */
  predicate IsSequence(a: Bytes) {
    || (|a| == 2 && Between(0xC2, a[0], 0xDF) && Between(0x80, a[1], 0xBF))
    || (|a| == 3 && Between(0x80, a[2], 0xBF)
        && (|| (a[0] == 0xE0 && Between(0xA0, a[1], 0xBF))
            || (Between(0xE1, a[0], 0xEC) && Between(0x80, a[1], 0xBF))
            || (a[0] == 0xED && Between(0x80, a[1], 0x9F))
            || (Between(0xEE, a[0], 0xEF) && Between(0x80, a[1], 0xBF))))
    || (|a| == 4 && Between(0x80, a[2], 0xBF) && Between(0x80, a[3], 0xBF)
        && (|| (a[0] == 0xF0 && Between(0x90, a[1], 0xBF))
            || (Between(0xF1, a[0], 0xF3) && Between(0x80, a[1], 0xBF))
            || (a[0] == 0xF4 && Between(0x80, a[1], 0x8F))))
  }

  lemma {:induction false} WidthIs(s: Bytes, k: nat)
    requires 0 < k <= |s|
    ensures Width(s) == k <==> IsSequence(s[..k])
  {
    assert forall i :: 0 <= i < k ==> s[..k][i] == s[i];
  }

  /** One character of clean text: printable ASCII, tab, line feed, carriage return, or a sequence that is not U+FFFD. */
  predicate IsCharacter(a: Bytes) {
    || (|a| == 1 && a[0] < 0x80 && (a[0] >= 0x20 || a[0] == 9 || a[0] == 10 || a[0] == 13))
    || (IsSequence(a) && a != [0xEF, 0xBF, 0xBD])
  }

  lemma {:induction false} ReplacementIs(s: Bytes)
    requires Width(s) > 0
    ensures Rune(s) == 0xFFFD <==> s[..Width(s)] == [0xEF, 0xBF, 0xBD]
  {
    if Width(s) == 3 {
      ThreeBytesOfReplacement(s[0], s[1], s[2]);
    }
  }

  lemma {:induction false} ThreeBytesOfReplacement(b0: bv8, b1: bv8, b2: bv8)
    requires 0xE0 <= b0 <= 0xEF && 0x80 <= b1 <= 0xBF && 0x80 <= b2 <= 0xBF
    ensures ((b0 as bv32 & 0x0F) << 12) | ((b1 as bv32 & 0x3F) << 6) | (b2 as bv32 & 0x3F) == 0xFFFD
       <==> b0 == 0xEF && b1 == 0xBF && b2 == 0xBD
  {}

  lemma {:induction false} CharacterThenClean(a: Bytes, rest: Bytes)
    requires IsCharacter(a) && Clean(rest)
    ensures Clean(a + rest)
  {
    if IsSequence(a) {
      assert a[..|a|] == a;
      WidthIs(a, |a|);
      ReplacementIs(a);
    }
    CleanStep(a, rest);
  }

  lemma {:induction false} FirstCharacter(s: Bytes)
    requires Clean(s) && s != []
    ensures exists a, rest :: IsCharacter(a) && Clean(rest) && s == a + rest
  {
    var k := if s[0] < 0x80 then 1 else Width(s);
    if s[0] >= 0x80 {
      WidthIs(s, k);
      ReplacementIs(s);
    }
    assert IsCharacter(s[..k]) && s == s[..k] + s[k..];
  }

  /** Clean text is a sequence of such characters. */
  lemma {:induction false} CleanIs(s: Bytes)
    ensures Clean(s) <==> s == [] || exists a, rest :: IsCharacter(a) && Clean(rest) && s == a + rest
  {
    if Clean(s) && s != [] {
      FirstCharacter(s);
    }
    if a, rest :| IsCharacter(a) && Clean(rest) && s == a + rest {
      CharacterThenClean(a, rest);
    }
  }
}
