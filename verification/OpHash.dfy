/** Length-prefixed encodings: the operation-hash input and the attachment key material. */
module OpHash {
  import opened Prelude

  /* ---------- big-endian integers ---------- */

  function Pow256(w: nat): nat {
    if w == 0 then 1 else 256 * Pow256(w - 1)
  }

  /** The low `w` bytes of `n`, most significant first. */
  function BigEndian(w: nat, n: nat): (r: Bytes)
    ensures |r| == w
  {
    if w == 0 then [] else BigEndian(w - 1, n / 256) + [n % 256]
  }

  function Value(b: Bytes): nat {
    if b == [] then 0 else 256 * Value(b[..|b| - 1]) + b[|b| - 1]
  }

  lemma {:induction false} ValueOfBigEndian(w: nat, n: nat)
    requires n < Pow256(w)
    ensures Value(BigEndian(w, n)) == n
  {
    if w > 0 {
      ValueOfBigEndian(w - 1, n / 256);
      assert BigEndian(w, n)[..w - 1] == BigEndian(w - 1, n / 256);
    }
  }

  lemma {:induction false} BigEndianOfValue(b: Bytes)
    ensures Value(b) < Pow256(|b|) && BigEndian(|b|, Value(b)) == b
  {
    if b != [] {
      var k := |b| - 1;
      BigEndianOfValue(b[..k]);
      assert Value(b) / 256 == Value(b[..k]) && Value(b) % 256 == b[k];
      assert b == b[..k] + [b[k]];
    }
  }

  /* ---------- length-prefixed fields ---------- */

  /** A field after its length in `w` big-endian bytes; a longer length is cut to them. */
  function Prefixed(w: nat, f: Bytes): Bytes {
    BigEndian(w, |f|) + f
  }

  function Encode(w: nat, fields: seq<Bytes>): Bytes {
    if fields == [] then [] else Prefixed(w, fields[0]) + Encode(w, fields[1..])
  }

  function Parse(w: nat, b: Bytes): Option<seq<Bytes>>
    requires w > 0
    decreases |b|
  {
    if b == [] then Some([])
    else if |b| < w || |b| - w < Value(b[..w]) then None
    else
      var n := Value(b[..w]);
      var rest := Parse(w, b[w + n..]);
      if rest.None? then None else Some([b[w..w + n]] + rest.value)
  }

  ghost predicate Short(w: nat, fields: seq<Bytes>) {
    forall i | 0 <= i < |fields| :: |fields[i]| < Pow256(w)
  }

  lemma ParseStep(w: nat, f: Bytes, tail: Bytes)
    requires w > 0 && |f| < Pow256(w)
    ensures
      Parse(w, Prefixed(w, f) + tail) ==
      (var rest := Parse(w, tail); if rest.None? then None else Some([f] + rest.value))
  {
    var b := Prefixed(w, f) + tail;
    ValueOfBigEndian(w, |f|);
    assert b[..w] == BigEndian(w, |f|) && b[w..w + |f|] == f && b[w + |f|..] == tail;
  }

  /** Decoding recovers every list of short enough fields. */
  lemma {:induction false} ParseEncode(w: nat, fields: seq<Bytes>)
    requires w > 0 && Short(w, fields)
    ensures Parse(w, Encode(w, fields)) == Some(fields)
  {
    if fields != [] {
      ParseEncode(w, fields[1..]);
      ParseStep(w, fields[0], Encode(w, fields[1..]));
      assert fields == [fields[0]] + fields[1..];
    }
  }

  lemma Glue(b: Bytes, i: nat, j: nat)
    requires i <= j <= |b|
    ensures b == b[..i] + b[i..j] + b[j..]
  {
  }

  /** Nothing else parses to those fields. */
  lemma {:induction false} EncodeParse(w: nat, b: Bytes)
    requires w > 0 && Parse(w, b).Some?
    ensures Short(w, Parse(w, b).value) && Encode(w, Parse(w, b).value) == b
    decreases |b|
  {
    if b != [] {
      var n := Value(b[..w]);
      EncodeParse(w, b[w + n..]);
      BigEndianOfValue(b[..w]);
      var fields := Parse(w, b).value;
      assert fields[0] == b[w..w + n] && fields[1..] == Parse(w, b[w + n..]).value;
      Glue(b, w, w + n);
    }
  }

  lemma EncodeInjective(w: nat, f: seq<Bytes>, g: seq<Bytes>)
    requires w > 0 && Short(w, f) && Short(w, g) && Encode(w, f) == Encode(w, g)
    ensures f == g
  {
    ParseEncode(w, f);
    ParseEncode(w, g);
  }

  lemma {:induction false} EncodeAppend(w: nat, f: seq<Bytes>, g: seq<Bytes>)
    ensures Encode(w, f + g) == Encode(w, f) + Encode(w, g)
  {
    if f == [] {
      assert f + g == g;
    } else {
      EncodeAppend(w, f[1..], g);
      assert (f + g)[1..] == f[1..] + g;
      Assoc(Prefixed(w, f[0]), Encode(w, f[1..]), Encode(w, g));
    }
  }

  /* ---------- the operation tuple ---------- */

  /** `None` is a nil slice. */
  datatype Input = Input(
    verb: Bytes, path: Bytes, keyId: Bytes, ifMatch: Bytes, idempotencyKey: Bytes, body: Bytes,
    aad: Option<Bytes>, envelope: Option<Bytes>, protocol: Bytes)

  function OrEmpty(b: Option<Bytes>): Bytes {
    if b.Some? then b.value else []
  }

  /** Whether the encoding carries the two optional fields. */
  predicate Extended(x: Input) {
    x.aad.Some? || x.envelope.Some? || x.protocol != []
  }

  /** The six, eight or nine fields of an operation. */
  function Fields(x: Input): (f: seq<Bytes>)
    ensures |f| == if x.protocol != [] then 9 else if Extended(x) then 8 else 6
  {
    [x.verb, x.path, x.keyId, x.ifMatch, x.idempotencyKey, x.body]
    + (if Extended(x) then [OrEmpty(x.aad), OrEmpty(x.envelope)] else [])
    + (if x.protocol != [] then [x.protocol] else [])
  }

  const LENGTH_BYTES: nat := 4

  method AppendLenPrefixed(dst: Bytes, b: Bytes, ghost before: seq<Bytes>, ghost start: Bytes) returns (r: Bytes)
    requires dst == start + Encode(LENGTH_BYTES, before)
    ensures r == start + Encode(LENGTH_BYTES, before + [b])
  {
    r := dst + BigEndian(LENGTH_BYTES, |b|) + b;
    EncodeAppend(LENGTH_BYTES, before, [b]);
    assert Encode(LENGTH_BYTES, [b]) == Prefixed(LENGTH_BYTES, b) + Encode(LENGTH_BYTES, []);
    assert r == start + (Encode(LENGTH_BYTES, before) + Prefixed(LENGTH_BYTES, b));
  }

  /** Append the canonical encoding, field by field. */
  method AppendCanonical(dst: Bytes, x: Input) returns (r: Bytes)
    ensures r == dst + Encode(LENGTH_BYTES, Fields(x))
  {
    r := AppendSix(dst, x);
    ghost var f := [x.verb, x.path, x.keyId, x.ifMatch, x.idempotencyKey, x.body];
    if x.aad.Some? || x.envelope.Some? || x.protocol != [] {
      r := AppendLenPrefixed(r, OrEmpty(x.aad), f, dst);
      r := AppendLenPrefixed(r, OrEmpty(x.envelope), f + [OrEmpty(x.aad)], dst);
      f := f + [OrEmpty(x.aad)] + [OrEmpty(x.envelope)];
    }
    if x.protocol != [] {
      r := AppendLenPrefixed(r, x.protocol, f, dst);
      f := f + [x.protocol];
    }
    assert f == Fields(x);
  }

  method AppendSix(dst: Bytes, x: Input) returns (r: Bytes)
    ensures r == dst + Encode(LENGTH_BYTES, [x.verb, x.path, x.keyId, x.ifMatch, x.idempotencyKey, x.body])
  {
    assert dst == dst + Encode(LENGTH_BYTES, []);
    r := AppendLenPrefixed(dst, x.verb, [], dst);
    r := AppendLenPrefixed(r, x.path, [] + [x.verb], dst);
    ghost var f := [x.verb, x.path];
    assert f == [] + [x.verb] + [x.path];
    r := AppendLenPrefixed(r, x.keyId, f, dst);
    r := AppendLenPrefixed(r, x.ifMatch, f + [x.keyId], dst);
    f := [x.verb, x.path, x.keyId, x.ifMatch];
    assert f == [x.verb, x.path] + [x.keyId] + [x.ifMatch];
    r := AppendLenPrefixed(r, x.idempotencyKey, f, dst);
    r := AppendLenPrefixed(r, x.body, f + [x.idempotencyKey], dst);
    assert f + [x.idempotencyKey] + [x.body] == [x.verb, x.path, x.keyId, x.ifMatch, x.idempotencyKey, x.body];
  }

  /** Equal up to nil versus empty in an extended tuple. */
  predicate SameOperation(x: Input, y: Input) {
    && x.verb == y.verb && x.path == y.path && x.keyId == y.keyId && x.ifMatch == y.ifMatch
    && x.idempotencyKey == y.idempotencyKey && x.body == y.body && x.protocol == y.protocol
    && Extended(x) == Extended(y) && OrEmpty(x.aad) == OrEmpty(y.aad) && OrEmpty(x.envelope) == OrEmpty(y.envelope)
  }

  lemma FieldsDetermine(x: Input, y: Input)
    ensures Fields(x) == Fields(y) <==> SameOperation(x, y)
  {
    var f, g := Fields(x), Fields(y);
    if f == g {
      assert forall i | 0 <= i < |f| :: f[i] == g[i];
      assert f[0] == x.verb && f[1] == x.path && f[2] == x.keyId && f[3] == x.ifMatch && f[4] == x.idempotencyKey &&
          f[5] == x.body;
      assert g[0] == y.verb && g[1] == y.path && g[2] == y.keyId && g[3] == y.ifMatch && g[4] == y.idempotencyKey &&
          g[5] == y.body;
      if Extended(x) {
        assert f[6] == OrEmpty(x.aad) && f[7] == OrEmpty(x.envelope) && g[6] == OrEmpty(y.aad) &&
            g[7] == OrEmpty(y.envelope);
      }
      if x.protocol != [] {
        assert f[8] == x.protocol && g[8] == y.protocol;
      }
    }
  }

  /** Two operations encode alike exactly when they are the same operation: the encoding is
      uniquely parseable while every field is shorter than 2^32 bytes. */
  lemma CanonicalInjective(x: Input, y: Input)
    requires Short(LENGTH_BYTES, Fields(x)) && Short(LENGTH_BYTES, Fields(y))
    ensures Encode(LENGTH_BYTES, Fields(x)) == Encode(LENGTH_BYTES, Fields(y)) <==> SameOperation(x, y)
    ensures Parse(LENGTH_BYTES, Encode(LENGTH_BYTES, Fields(x))) == Some(Fields(x))
  {
    FieldsDetermine(x, y);
    ParseEncode(LENGTH_BYTES, Fields(x));
    ParseEncode(LENGTH_BYTES, Fields(y));
  }

  /* ---------- attachment key material ---------- */

  const IKM_LENGTH_BYTES: nat := 8

  method EncodeIkm(parts: seq<Bytes>) returns (buf: Bytes)
    ensures buf == Encode(IKM_LENGTH_BYTES, parts)
  {
    buf := [];
    var i := 0;
    while i < |parts|
      invariant 0 <= i <= |parts|
      invariant buf + Encode(IKM_LENGTH_BYTES, parts[i..]) == Encode(IKM_LENGTH_BYTES, parts)
    {
      assert parts[i..][0] == parts[i] && parts[i..][1..] == parts[i + 1..];
      Assoc(buf, Prefixed(IKM_LENGTH_BYTES, parts[i]), Encode(IKM_LENGTH_BYTES, parts[i + 1..]));
      buf := buf + (BigEndian(IKM_LENGTH_BYTES, |parts[i]|) + parts[i]);
      i := i + 1;
    }
    assert parts[i..] == [];
  }

  /** Distinct lists of parts give distinct key material. */
  lemma IkmInjective(p: seq<Bytes>, q: seq<Bytes>)
    requires Short(IKM_LENGTH_BYTES, p) && Short(IKM_LENGTH_BYTES, q)
    ensures Encode(IKM_LENGTH_BYTES, p) == Encode(IKM_LENGTH_BYTES, q) <==> p == q
  {
    if Encode(IKM_LENGTH_BYTES, p) == Encode(IKM_LENGTH_BYTES, q) {
      EncodeInjective(IKM_LENGTH_BYTES, p, q);
    }
  }
}
