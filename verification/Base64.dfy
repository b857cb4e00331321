/** Standard base64 (section 4 of RFC 4648): the canonical check plus the strict decoder
    accept exactly one spelling of every byte string. */
module Base64 {
  import opened Prelude

  const PAD: byte := 61

  type Bits6 = d: int | 0 <= d < 64

  /** An alphabet character's six bits. */
  function Digit(c: byte): Option<Bits6> {
    if 65 <= c <= 90 then Some(c - 65)
    else if 97 <= c <= 122 then Some(c - 71)
    else if 48 <= c <= 57 then Some(c + 4)
    else if c == 43 then Some(62)
    else if c == 47 then Some(63)
    else None
  }

  function Char(d: Bits6): (c: byte)
    ensures Digit(c) == Some(d)
  {
    if d < 26 then d + 65
    else if d < 52 then d + 71
    else if d < 62 then d - 4
    else if d == 62 then 43
    else 47
  }

  predicate InAlphabet(c: byte) {
    Digit(c).Some?
  }

  /** The four digits of a group of bytes. */
  function First(b0: byte): Bits6 {
    Shifts(b0);
    Shr(b0, 2)
  }

  function Second(b0: byte, b1: byte): Bits6 {
    Shifts(b0);
    Shifts(b1);
    Low(b0, 2) * 16 + Shr(b1, 4)
  }

  function Third(b1: byte, b2: byte): Bits6 {
    Shifts(b1);
    Shifts(b2);
    Low(b1, 4) * 4 + Shr(b2, 6)
  }

  function Fourth(b2: byte): Bits6 {
    Shifts(b2);
    Low(b2, 6)
  }

  function Encode(b: Bytes): Bytes {
    if b == [] then []
    else if |b| == 1 then [Char(First(b[0])), Char(Second(b[0], 0)), PAD, PAD]
    else if |b| == 2 then [Char(First(b[0])), Char(Second(b[0], b[1])), Char(Third(b[1], 0)), PAD]
    else
      [Char(First(b[0])), Char(Second(b[0], b[1])), Char(Third(b[1], b[2])), Char(Fourth(b[2]))] + Encode(b[3..])
  }

  /** The bytes two, three and four digits hold. */
  function Byte0(d0: Bits6, d1: Bits6): byte {
    Shifts(d1);
    d0 * 4 + Shr(d1, 4)
  }

  function Byte1(d1: Bits6, d2: Bits6): byte {
    Shifts(d1);
    Shifts(d2);
    Low(d1, 4) * 16 + Shr(d2, 2)
  }

  function Byte2(d2: Bits6, d3: Bits6): byte {
    Shifts(d2);
    Low(d2, 2) * 64 + d3
  }

  function ThreeOf(d0: Bits6, d1: Bits6, d2: Bits6, d3: Bits6): Bytes {
    [Byte0(d0, d1), Byte1(d1, d2), Byte2(d2, d3)]
  }

  /** The last group may be padded; strict decoding refuses nonzero spare bits. */
  function DecodeQuad(c0: byte, c1: byte, c2: byte, c3: byte, last: bool): Option<Bytes> {
    if !InAlphabet(c0) || !InAlphabet(c1) then None
    else
      var d0, d1 := Digit(c0).value, Digit(c1).value;
      if c2 == PAD && c3 == PAD && last then
        if Low(d1, 4) == 0 then Some([Byte0(d0, d1)]) else None
      else if !InAlphabet(c2) then None
      else
        var d2 := Digit(c2).value;
        if c3 == PAD && last then
          if Low(d2, 2) == 0 then Some([Byte0(d0, d1), Byte1(d1, d2)]) else None
        else if !InAlphabet(c3) then None
        else Some(ThreeOf(d0, d1, d2, Digit(c3).value))
  }

  function DecodeQuads(s: Bytes): Option<Bytes> {
    if s == [] then Some([])
    else if |s| < 4 then None
    else
      var q := DecodeQuad(s[0], s[1], s[2], s[3], |s| == 4);
      var rest := DecodeQuads(s[4..]);
      if q.None? || rest.None? then None else Some(q.value + rest.value)
  }

  /** The library decoder skips line breaks wherever they stand. */
  function Strip(s: Bytes): Bytes {
    if s == [] then []
    else if s[0] == 10 || s[0] == 13 then Strip(s[1..])
    else [s[0]] + Strip(s[1..])
  }

  function StrictDecode(s: Bytes): Option<Bytes> {
    DecodeQuads(Strip(s))
  }

  function Padding(s: Bytes): nat
    requires |s| >= 4
  {
    if s[|s| - 1] != PAD then 0 else if s[|s| - 2] != PAD then 1 else 2
  }

  predicate Canonical(s: Bytes) {
    |s| > 0 && |s| % 4 == 0 && forall i | 0 <= i < |s| - Padding(s) :: InAlphabet(s[i])
  }

  method IsCanonicalStdBase64(s: Bytes) returns (ok: bool)
    ensures ok <==> Canonical(s)
  {
    if |s| == 0 || |s| % 4 != 0 {
      return false;
    }
    var end, pad := |s|, 0;
    if s[end - 1] == PAD {
      pad := pad + 1;
      if s[end - 2] == PAD {
        pad := pad + 1;
      }
    }
    var i := 0;
    while i < end - pad
      invariant 0 <= i <= end - pad && pad == Padding(s)
      invariant forall k | 0 <= k < i :: InAlphabet(s[k])
    {
      if !InAlphabet(s[i]) {
        return false;
      }
      i := i + 1;
    }
    ok := true;
  }

  /* ---------- one spelling ---------- */

  lemma SameByte0(d0: Bits6, d1: Bits6)
    ensures First(Byte0(d0, d1)) == d0 && Low(Byte0(d0, d1), 2) == Shr(d1, 4)
  {
    Shifts(Byte0(d0, d1));
    Shifts(d1);
  }

  lemma SameByte1(d1: Bits6, d2: Bits6)
    ensures Shr(Byte1(d1, d2), 4) == Low(d1, 4) && Low(Byte1(d1, d2), 4) == Shr(d2, 2)
  {
    Shifts(Byte1(d1, d2));
    Shifts(d1);
    Shifts(d2);
  }

  lemma SameByte2(d2: Bits6, d3: Bits6)
    ensures Shr(Byte2(d2, d3), 6) == Low(d2, 2) && Fourth(Byte2(d2, d3)) == d3
  {
    Shifts(Byte2(d2, d3));
    Shifts(d2);
  }

  /** Three bytes and four digits hold the same bits. */
  lemma SameBits(d0: Bits6, d1: Bits6, d2: Bits6, d3: Bits6)
    ensures
      var b0, b1, b2 := Byte0(d0, d1), Byte1(d1, d2), Byte2(d2, d3);
      && First(b0) == d0 && Second(b0, b1) == d1 && Third(b1, b2) == d2 && Fourth(b2) == d3
      && (Low(d1, 4) == 0 ==> Second(b0, 0) == d1) && (Low(d2, 2) == 0 ==> Third(b1, 0) == d2)
  {
    SameByte0(d0, d1);
    SameByte1(d1, d2);
    SameByte2(d2, d3);
    Shifts(d1);
    Shifts(d2);
    Shifts(0);
  }

  lemma CharOfDigit(c: byte)
    ensures InAlphabet(c) ==> Char(Digit(c).value) == c
  {
  }

  lemma FullEncode(d0: Bits6, d1: Bits6, d2: Bits6, d3: Bits6)
    ensures Encode(ThreeOf(d0, d1, d2, d3)) == [Char(d0), Char(d1), Char(d2), Char(d3)]
  {
    SameBits(d0, d1, d2, d3);
    assert ThreeOf(d0, d1, d2, d3)[3..] == [];
  }

  lemma TwoEncode(d0: Bits6, d1: Bits6, d2: Bits6)
    requires Low(d2, 2) == 0
    ensures Encode([Byte0(d0, d1), Byte1(d1, d2)]) == [Char(d0), Char(d1), Char(d2), PAD]
  {
    SameBits(d0, d1, d2, 0);
  }

  lemma OneEncode(d0: Bits6, d1: Bits6)
    requires Low(d1, 4) == 0
    ensures Encode([Byte0(d0, d1)]) == [Char(d0), Char(d1), PAD, PAD]
  {
    SameBits(d0, d1, 0, 0);
  }

  lemma FullBack(c0: byte, c1: byte, c2: byte, c3: byte, d0: Bits6, d1: Bits6, d2: Bits6, d3: Bits6)
    requires Digit(c0) == Some(d0) && Digit(c1) == Some(d1) && Digit(c2) == Some(d2) && Digit(c3) == Some(d3)
    ensures Encode(ThreeOf(d0, d1, d2, d3)) == [c0, c1, c2, c3]
  {
    CharsOfDigits(c0, c1, c2, c3, d0, d1, d2, d3);
    FullEncode(d0, d1, d2, d3);
  }

  lemma CharsOfDigits(c0: byte, c1: byte, c2: byte, c3: byte, d0: Bits6, d1: Bits6, d2: Bits6, d3: Bits6)
    requires Digit(c0) == Some(d0) && Digit(c1) == Some(d1) && Digit(c2) == Some(d2) && Digit(c3) == Some(d3)
    ensures [Char(d0), Char(d1), Char(d2), Char(d3)] == [c0, c1, c2, c3]
  {
    CharOfDigit(c0);
    CharOfDigit(c1);
    CharOfDigit(c2);
    CharOfDigit(c3);
  }

  lemma TwoBack(c0: byte, c1: byte, c2: byte)
    requires InAlphabet(c0) && InAlphabet(c1) && InAlphabet(c2) && Low(Digit(c2).value, 2) == 0
    ensures
      var d0, d1, d2 := Digit(c0).value, Digit(c1).value, Digit(c2).value;
      Encode([Byte0(d0, d1), Byte1(d1, d2)]) == [c0, c1, c2, PAD]
  {
    TwoEncode(Digit(c0).value, Digit(c1).value, Digit(c2).value);
    CharOfDigit(c0);
    CharOfDigit(c1);
    CharOfDigit(c2);
  }

  lemma OneBack(c0: byte, c1: byte)
    requires InAlphabet(c0) && InAlphabet(c1) && Low(Digit(c1).value, 4) == 0
    ensures Encode([Byte0(Digit(c0).value, Digit(c1).value)]) == [c0, c1, PAD, PAD]
  {
    OneEncode(Digit(c0).value, Digit(c1).value);
    CharOfDigit(c0);
    CharOfDigit(c1);
  }

  /** A decoded group re-encodes to the same four characters. */
  lemma QuadBack(c0: byte, c1: byte, c2: byte, c3: byte, last: bool)
    requires DecodeQuad(c0, c1, c2, c3, last).Some?
    ensures
      var q := DecodeQuad(c0, c1, c2, c3, last).value;
      && 1 <= |q| <= 3 && (!last ==> |q| == 3) && Encode(q) == [c0, c1, c2, c3]
  {
    if c2 == PAD && c3 == PAD && last {
      OneBack(c0, c1);
    } else if c3 == PAD && last {
      TwoBack(c0, c1, c2);
    } else {
      FullBack(c0, c1, c2, c3, Digit(c0).value, Digit(c1).value, Digit(c2).value, Digit(c3).value);
    }
  }

  lemma EncodeGroup(q: Bytes, rest: Bytes)
    requires |q| == 3
    ensures Encode(q + rest) == Encode(q) + Encode(rest)
  {
    var b := q + rest;
    assert b[3..] == rest && q[3..] == [];
  }

  lemma GroupThenRest(q: Bytes, rest: Bytes, head: Bytes, tail: Bytes)
    requires Encode(q) == head && Encode(rest) == tail && (|q| == 3 || rest == [])
    ensures Encode(q + rest) == head + tail
  {
    if rest == [] {
      assert q + rest == q && head + tail == head;
    } else {
      EncodeGroup(q, rest);
    }
  }

  lemma {:induction false} QuadsBack(s: Bytes)
    requires DecodeQuads(s).Some?
    ensures Encode(DecodeQuads(s).value) == s
  {
    if s != [] {
      var head := [s[0], s[1], s[2], s[3]];
      QuadBack(s[0], s[1], s[2], s[3], |s| == 4);
      QuadsBack(s[4..]);
      assert s == head + s[4..];
      var q := DecodeQuad(s[0], s[1], s[2], s[3], |s| == 4).value;
      GroupThenRest(q, DecodeQuads(s[4..]).value, head, s[4..]);
    }
  }

  lemma {:induction false} StripNothing(s: Bytes)
    requires forall i | 0 <= i < |s| :: s[i] != 10 && s[i] != 13
    ensures Strip(s) == s
  {
    if s != [] {
      StripNothing(s[1..]);
      assert s == [s[0]] + s[1..];
    }
  }

  /* ---------- every encoding is canonical and decodes ---------- */

  lemma Bits0(b0: byte, b1: byte)
    ensures Byte0(First(b0), Second(b0, b1)) == b0 && Low(Second(b0, b1), 4) == Shr(b1, 4)
    ensures b1 == 0 ==> Low(Second(b0, b1), 4) == 0
  {
    Shifts(b0);
    Shifts(b1);
    Shifts(Second(b0, b1));
  }

  lemma Bits1(b0: byte, b1: byte, b2: byte)
    ensures Byte1(Second(b0, b1), Third(b1, b2)) == b1 && Low(Third(b1, b2), 2) == Shr(b2, 6)
    ensures b2 == 0 ==> Low(Third(b1, b2), 2) == 0
  {
    Bits0(b0, b1);
    Shifts(b1);
    Shifts(b2);
    Shifts(Third(b1, b2));
  }

  lemma Bits2(b1: byte, b2: byte)
    ensures Byte2(Third(b1, b2), Fourth(b2)) == b2
  {
    Bits1(0, b1, b2);
    Shifts(b2);
  }

  lemma ThreeGroup(b0: byte, b1: byte, b2: byte, last: bool)
    ensures
      var s := Encode([b0, b1, b2]);
      |s| == 4 && DecodeQuad(s[0], s[1], s[2], s[3], last) == Some([b0, b1, b2])
  {
    GroupChars(b0, b1, b2);
    Bits0(b0, b1);
    Bits1(b0, b1, b2);
    Bits2(b1, b2);
    DigitsDecode(First(b0), Second(b0, b1), Third(b1, b2), Fourth(b2), last);
  }

  lemma GroupChars(b0: byte, b1: byte, b2: byte)
    ensures Encode([b0, b1, b2]) == [Char(First(b0)), Char(Second(b0, b1)), Char(Third(b1, b2)), Char(Fourth(b2))]
  {
    assert [b0, b1, b2][3..] == [];
  }

  lemma DigitsDecode(d0: Bits6, d1: Bits6, d2: Bits6, d3: Bits6, last: bool)
    ensures DecodeQuad(Char(d0), Char(d1), Char(d2), Char(d3), last) == Some(ThreeOf(d0, d1, d2, d3))
  {
  }

  lemma PaddedDecode(d0: Bits6, d1: Bits6, d2: Bits6)
    ensures Low(d1, 4) == 0 ==> DecodeQuad(Char(d0), Char(d1), PAD, PAD, true) == Some([Byte0(d0, d1)])
    ensures
      Low(d2, 2) == 0 ==>
        DecodeQuad(Char(d0), Char(d1), Char(d2), PAD, true) == Some([Byte0(d0, d1), Byte1(d1, d2)])
  {
  }

  lemma TwoGroup(b0: byte, b1: byte)
    ensures
      var s := Encode([b0, b1]);
      |s| == 4 && DecodeQuad(s[0], s[1], s[2], s[3], true) == Some([b0, b1])
  {
    assert Encode([b0, b1]) == [Char(First(b0)), Char(Second(b0, b1)), Char(Third(b1, 0)), PAD];
    Bits0(b0, b1);
    Bits1(b0, b1, 0);
    PaddedDecode(First(b0), Second(b0, b1), Third(b1, 0));
  }

  lemma OneGroup(b0: byte)
    ensures
      var s := Encode([b0]);
      |s| == 4 && DecodeQuad(s[0], s[1], s[2], s[3], true) == Some([b0])
  {
    assert Encode([b0]) == [Char(First(b0)), Char(Second(b0, 0)), PAD, PAD];
    Bits0(b0, 0);
    PaddedDecode(First(b0), Second(b0, 0), First(b0));
  }

  lemma LastGroup(b: Bytes)
    requires 1 <= |b| <= 3
    ensures
      var s := Encode(b);
      |s| == 4 && DecodeQuad(s[0], s[1], s[2], s[3], true) == Some(b)
  {
    if |b| == 3 {
      assert b == [b[0], b[1], b[2]];
      ThreeGroup(b[0], b[1], b[2], true);
    } else if |b| == 2 {
      assert b == [b[0], b[1]];
      TwoGroup(b[0], b[1]);
    } else {
      assert b == [b[0]];
      OneGroup(b[0]);
    }
  }

  lemma {:induction false} EncodedDecodes(b: Bytes)
    ensures DecodeQuads(Encode(b)) == Some(b)
  {
    if 1 <= |b| <= 3 {
      LastGroup(b);
      assert Encode(b)[4..] == [] && b + [] == b;
    } else if |b| > 3 {
      var q, rest := b[..3], b[3..];
      assert b == q + rest && q == [b[0], b[1], b[2]];
      EncodeGroup(q, rest);
      ThreeGroup(b[0], b[1], b[2], false);
      EncodedDecodes(rest);
      assert Encode(b)[4..] == Encode(rest);
    }
  }

  lemma CanonicalStep(g: Bytes, t: Bytes)
    requires |g| == 4 && (forall i | 0 <= i < 4 :: InAlphabet(g[i])) && Canonical(t)
    ensures Canonical(g + t)
  {
    var s := g + t;
    assert forall i | 4 <= i < |s| :: s[i] == t[i - 4];
    assert s[|s| - 1] == t[|t| - 1] && s[|s| - 2] == t[|t| - 2];
  }

  lemma GroupCanonical(b: Bytes)
    requires 1 <= |b| <= 3
    ensures Canonical(Encode(b))
    ensures |b| == 3 ==> |Encode(b)| == 4 && forall i | 0 <= i < 4 :: InAlphabet(Encode(b)[i])
  {
    assert |b| == 3 ==> b[3..] == [];
  }

  /** Everything before the padding is in the alphabet. */
  lemma {:induction false} EncodedCanonical(b: Bytes)
    requires b != []
    ensures Canonical(Encode(b))
  {
    if |b| <= 3 {
      GroupCanonical(b);
    } else {
      var q, rest := b[..3], b[3..];
      assert b == q + rest;
      EncodedCanonical(rest);
      EncodeGroup(q, rest);
      GroupCanonical(q);
      CanonicalStep(Encode(q), Encode(rest));
    }
  }

  lemma NoBreaks(s: Bytes)
    requires Canonical(s)
    ensures Strip(s) == s
  {
    forall i | 0 <= i < |s|
      ensures s[i] != 10 && s[i] != 13
    {
      assert i < |s| - Padding(s) ==> InAlphabet(s[i]);
    }
    StripNothing(s);
  }

  /** The check and the strict decoder together accept a string for some bytes exactly when
      it is their encoding, so decoding is injective on what they accept. */
  lemma OneSpelling(s: Bytes, b: Bytes)
    ensures Canonical(s) && StrictDecode(s) == Some(b) <==> b != [] && s == Encode(b)
  {
    if Canonical(s) && StrictDecode(s) == Some(b) {
      NoBreaks(s);
      QuadsBack(s);
    }
    if b != [] && s == Encode(b) {
      EncodedCanonical(b);
      NoBreaks(s);
      EncodedDecodes(b);
    }
  }

  /** Neither half is enough: the strict decoder alone accepts a line break. */
  lemma LineBreakAccepted()
    ensures StrictDecode([81, 81, PAD, PAD, 10]) == StrictDecode([81, 81, PAD, PAD]) == Some([65])
    ensures !Canonical([81, 81, PAD, PAD, 10])
  {
    var s: Bytes := [81, 81, PAD, PAD];
    var t: Bytes := [81, 81, PAD, PAD, 10];
    StripNothing(s);
    StripTail(t);
    assert s[4..] == [];
    assert DecodeQuad(s[0], s[1], s[2], s[3], true) == Some([65]);
    var a: Bytes := [65];
    assert a + [] == a;
    assert DecodeQuads(s) == Some(a);
  }

  lemma StripTail(t: Bytes)
    requires t == [81, 81, PAD, PAD, 10]
    ensures Strip(t) == [81, 81, PAD, PAD]
  {
    assert t[1..] == [81, PAD, PAD, 10] && t[1..][1..] == [PAD, PAD, 10];
    assert t[1..][1..][1..] == [PAD, 10] && t[1..][1..][1..][1..] == [10] && t[1..][1..][1..][1..][1..] == [];
    assert Strip([10]) == [] && Strip([PAD, 10]) == [PAD] && Strip([PAD, PAD, 10]) == [PAD, PAD] &&
        Strip([81, PAD, PAD, 10]) == [81, PAD, PAD];
  }

  /** Two groups that between them use both ends of the alphabet: "ABCD" and "+++/". */
  lemma AlphabetEnds()
    ensures Encode([0, 16, 131, 251, 239, 191]) == [65, 66, 67, 68, 43, 43, 43, 47]
  {
    var b: Bytes := [0, 16, 131, 251, 239, 191];
    Shifts(0);
    Shifts(16);
    Shifts(131);
    Shifts(251);
    Shifts(239);
    Shifts(191);
    assert b[3..] == [251, 239, 191] && b[3..][3..] == [];
  }
}
