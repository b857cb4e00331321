/** The v2 envelope: the payload sealed under a fresh data key, the data key sealed under the
    user's key, each bound to its associated data. */
module Envelope {
  import opened Prelude
  import Aad
  import Base64

  const KEY_SIZE := 32
  const NONCE_SIZE := 12
  const MAX_PLAINTEXT := 0x200_0000
  const VERSION := 2

  /** Authenticated encryption and compression, as functions. */
  datatype Primitives = Primitives(
    seal: (Bytes, Bytes, Bytes, Bytes) -> Bytes,
    open: (Bytes, Bytes, Bytes, Bytes) -> Option<Bytes>,
    gzip: Bytes -> Bytes,
    gunzip: Bytes -> Option<Bytes>)

  /** Opening inverts sealing exactly for the same key, nonce and associated data. */
  ghost predicate IdealAead(p: Primitives) {
    && (forall k, n, m, a, k', n', a' ::
          (p.open)(k', n', (p.seal)(k, n, m, a), a') == if k' == k && n' == n && a' == a then Some(m) else None)
    && (forall k, n, m, a :: (p.seal)(k, n, m, a) != [])
  }

  ghost predicate IdealGzip(p: Primitives) {
    forall m :: (p.gunzip)((p.gzip)(m)) == if |m| <= MAX_PLAINTEXT then Some(m) else None
  }

  ghost predicate Ideal(p: Primitives) {
    IdealAead(p) && IdealGzip(p)
  }

  /* ---------- hex ---------- */

  function Hex(b: Bytes): Bytes {
    if b == [] then []
    else
      Shifts(b[0]);
      [Aad.HexDigit(Shr(b[0], 4)), Aad.HexDigit(Low(b[0], 4))] + Hex(b[1..])
  }

  /** Upper-case digits are accepted too. */
  function HexDigitValue(c: byte): Option<int> {
    if 65 <= c <= 70 then Some(c - 55) else Aad.HexValue(c)
  }

  function Unhex(s: Bytes): Option<Bytes> {
    if s == [] then Some([])
    else if |s| < 2 || HexDigitValue(s[0]).None? || HexDigitValue(s[1]).None? then None
    else
      var rest := Unhex(s[2..]);
      if rest.None? then None else Some([16 * HexDigitValue(s[0]).value + HexDigitValue(s[1]).value] + rest.value)
  }

  lemma {:induction false} UnhexHex(b: Bytes)
    ensures |Hex(b)| == 2 * |b| && Unhex(Hex(b)) == Some(b)
  {
    if b != [] {
      Shifts(b[0]);
      UnhexHex(b[1..]);
      assert Hex(b)[2..] == Hex(b[1..]);
      assert b == [b[0]] + b[1..];
    }
  }

  predicate AnyHex(c: byte) {
    48 <= c <= 57 || 65 <= c <= 70 || 97 <= c <= 102
  }

  predicate AllHex(s: Bytes) {
    forall i | 0 <= i < |s| :: AnyHex(s[i])
  }

  function Lower(c: byte): byte {
    if 65 <= c <= 70 then c + 32 else c
  }

  function Lowered(s: Bytes): Bytes {
    if s == [] then [] else [Lower(s[0])] + Lowered(s[1..])
  }

  lemma DigitOf(c: byte)
    ensures HexDigitValue(c).Some? <==> AnyHex(c)
    ensures AnyHex(c) ==> 0 <= HexDigitValue(c).value < 16 && Aad.HexDigit(HexDigitValue(c).value) == Lower(c)
  {
  }

  /** A byte and its two digits. */
  lemma HexByte(c: byte, d: byte, rest: Bytes)
    requires AnyHex(c) && AnyHex(d)
    ensures HexDigitValue(c).Some? && HexDigitValue(d).Some?
    ensures Hex([16 * HexDigitValue(c).value + HexDigitValue(d).value] + rest) == [Lower(c), Lower(d)] + Hex(rest)
  {
    DigitOf(c);
    DigitOf(d);
    var b: byte := 16 * HexDigitValue(c).value + HexDigitValue(d).value;
    Shifts(b);
    assert b / 16 == HexDigitValue(c).value && b % 16 == HexDigitValue(d).value;
    assert ([b] + rest)[1..] == rest;
  }

  lemma LoweredTwo(s: Bytes)
    requires |s| >= 2
    ensures Lowered(s) == [Lower(s[0]), Lower(s[1])] + Lowered(s[2..])
  {
    assert s[1..][1..] == s[2..];
  }

  lemma AllHexTwo(s: Bytes)
    requires |s| >= 2
    ensures AllHex(s) <==> AnyHex(s[0]) && AnyHex(s[1]) && AllHex(s[2..])
  {
    assert forall i | 2 <= i < |s| :: s[i] == s[2..][i - 2];
  }

  lemma UnhexMore(s: Bytes)
    requires |s| >= 2 && HexDigitValue(s[0]).Some? && HexDigitValue(s[1]).Some? && Unhex(s[2..]).Some?
    requires 0 <= 16 * HexDigitValue(s[0]).value + HexDigitValue(s[1]).value < 256
    ensures Unhex(s) ==
            Some([16 * HexDigitValue(s[0]).value + HexDigitValue(s[1]).value] + Unhex(s[2..]).value)
  {
  }

  lemma UnhexTwo(s: Bytes)
    requires |s| >= 2
    ensures Unhex(s).Some? <==> AnyHex(s[0]) && AnyHex(s[1]) && Unhex(s[2..]).Some?
    ensures Unhex(s).Some? ==> Hex(Unhex(s).value) == [Lower(s[0]), Lower(s[1])] + Hex(Unhex(s[2..]).value)
  {
    DigitOf(s[0]);
    DigitOf(s[1]);
    if AnyHex(s[0]) && AnyHex(s[1]) && Unhex(s[2..]).Some? {
      UnhexMore(s);
      HexByte(s[0], s[1], Unhex(s[2..]).value);
    }
  }

  /** What decodes is hex of either case, and it is the encoding but for that case. */
  lemma {:induction false} HexUnhex(s: Bytes)
    ensures Unhex(s).Some? <==> |s| % 2 == 0 && AllHex(s)
    ensures Unhex(s).Some? ==> Hex(Unhex(s).value) == Lowered(s)
  {
    if |s| >= 2 {
      UnhexTwo(s);
      LoweredTwo(s);
      AllHexTwo(s);
      HexUnhex(s[2..]);
    }
  }

  /* ---------- sealing ---------- */

  datatype V2 = V2(v: int, alg: Bytes, kid: Bytes, wdek: Bytes, wiv: Bytes, iv: Bytes, ct: Bytes)

  datatype Key = Key(material: Bytes, keyId: Bytes)

  /** The randomness one sealing draws. */
  datatype Fresh = Fresh(dek: Bytes, payloadIv: Bytes, wrapIv: Bytes)

  predicate FreshOK(f: Fresh) {
    |f.dek| == KEY_SIZE && |f.payloadIv| == NONCE_SIZE && |f.wrapIv| == NONCE_SIZE
  }

  const ALG: Bytes := Aad.Ascii("AES-256-GCM")

  function Sealed(
    p: Primitives, key: Bytes, plaintext: Bytes, kid: Bytes, payloadAad: Bytes, wrapAad: Bytes, f: Fresh): V2 {
    V2(VERSION, ALG, kid,
       Base64.Encode((p.seal)(key, f.wrapIv, f.dek, wrapAad)), Hex(f.wrapIv),
       Hex(f.payloadIv), Base64.Encode((p.seal)(f.dek, f.payloadIv, (p.gzip)(plaintext), payloadAad)))
  }

  /** Seal a plaintext; refused for a bad key, bad row data or a plaintext no reader would
      accept back. */
  function Encrypt(p: Primitives, key: Bytes, plaintext: Bytes, aad: Aad.RowAad, f: Fresh): Option<V2> {
    if |key| != KEY_SIZE || Aad.PayloadAad(aad).None? || Aad.WrapAad(aad).None? || |plaintext| > MAX_PLAINTEXT then None
    else Some(Sealed(p, key, plaintext, aad.keyId, Aad.PayloadAad(aad).value, Aad.WrapAad(aad).value, f))
  }

  /** What sealing demands of its inputs. */
  predicate Encryptable(key: Bytes, plaintext: Bytes, aad: Aad.RowAad) {
    |key| == KEY_SIZE && Aad.ValidRow(aad) && Aad.ValidKeyId(aad.keyId) && |plaintext| <= MAX_PLAINTEXT
  }

  function Open(p: Primitives, key: Bytes, nonce: Bytes, ct: Bytes, aad: Bytes): Option<Bytes> {
    if |key| != KEY_SIZE || |nonce| != NONCE_SIZE then None else (p.open)(key, nonce, ct, aad)
  }

  /* ---------- opening ---------- */

  datatype Failure = Malformed | UnsupportedAlg | NoMatchingKey | BadAad | CipherFailed

  datatype Decrypted = Opened(plaintext: Bytes, keyId: Bytes) | Refused(why: Failure)

  /** The first key whose id is the envelope's. */
  function Matching(keys: seq<Key>, kid: Bytes): Option<Key> {
    if keys == [] then None
    else if keys[0].keyId == kid then Some(keys[0])
    else Matching(keys[1..], kid)
  }

  method FindKey(keys: seq<Key>, kid: Bytes) returns (r: Option<Key>)
    ensures r == Matching(keys, kid)
  {
    var i := 0;
    while i < |keys|
      invariant 0 <= i <= |keys|
      invariant Matching(keys, kid) == Matching(keys[i..], kid)
    {
      if keys[i].keyId == kid {
        return Some(keys[i]);
      }
      assert keys[i..][1..] == keys[i + 1..];
      i := i + 1;
    }
    r := None;
  }

  predicate WellFormed(env: V2) {
    && env.v == VERSION && env.alg == ALG && Aad.ValidKeyId(env.kid)
    && |env.iv| == 2 * NONCE_SIZE && |env.wiv| == 2 * NONCE_SIZE
    && Unhex(env.iv).Some? && Unhex(env.wiv).Some?
    && Base64.Canonical(env.ct) && Base64.Canonical(env.wdek)
    && Base64.StrictDecode(env.ct).Some? && Base64.StrictDecode(env.wdek).Some?
  }

  function Shape(env: V2): Failure {
    if env.v != VERSION then Malformed else if env.alg != ALG then UnsupportedAlg else Malformed
  }

  /** Unwrap the data key, then open the payload. */
  function OpenParts(
    p: Primitives, kid: Bytes, key: Bytes, wiv: Bytes, wdek: Bytes, iv: Bytes, ct: Bytes, wrap: Option<Bytes>,
        payload: Option<Bytes>): Decrypted
  {
    if wrap.None? then Refused(BadAad)
    else
      var dek := Open(p, key, wiv, wdek, wrap.value);
      if dek.None? then Refused(CipherFailed)
      else if |dek.value| != KEY_SIZE then Refused(Malformed)
      else if payload.None? then Refused(BadAad)
      else
        var compressed := Open(p, dek.value, iv, ct, payload.value);
        if compressed.None? then Refused(CipherFailed)
        else
          var plaintext := (p.gunzip)(compressed.value);
          if plaintext.None? then Refused(Malformed) else Opened(plaintext.value, kid)
  }

  /** The two layers, once the envelope is well formed and a key matches. */
  function OpenLayers(p: Primitives, env: V2, key: Key, aad: Aad.RowAad): Decrypted
    requires WellFormed(env)
  {
    OpenParts(p, env.kid, key.material, Unhex(env.wiv).value, Base64.StrictDecode(env.wdek).value,
              Unhex(env.iv).value, Base64.StrictDecode(env.ct).value,
              Aad.WrapAad(aad.(keyId := env.kid)), Aad.PayloadAad(aad))
  }

  function DecryptV2(p: Primitives, env: V2, keys: seq<Key>, aad: Aad.RowAad): Decrypted {
    if !WellFormed(env) then Refused(Shape(env))
    else if Matching(keys, env.kid).None? then Refused(NoMatchingKey)
    else OpenLayers(p, env, Matching(keys, env.kid).value, aad)
  }

  /* ---------- the round trip ---------- */

  /** What is sealed passes every shape check. */
  lemma SealedWellFormed(
    p: Primitives, key: Bytes, plaintext: Bytes, kid: Bytes, payloadAad: Bytes, wrapAad: Bytes, f: Fresh)
    requires IdealAead(p) && FreshOK(f) && Aad.ValidKeyId(kid)
    ensures WellFormed(Sealed(p, key, plaintext, kid, payloadAad, wrapAad, f))
  {
    UnhexHex(f.wrapIv);
    UnhexHex(f.payloadIv);
    Base64.OneSpelling(
      Base64.Encode((p.seal)(key, f.wrapIv, f.dek, wrapAad)), (p.seal)(key, f.wrapIv, f.dek, wrapAad));
    var ct := (p.seal)(f.dek, f.payloadIv, (p.gzip)(plaintext), payloadAad);
    Base64.OneSpelling(Base64.Encode(ct), ct);
  }

  /** And decodes to what was put in. */
  lemma SealedReadsBack(
    p: Primitives, key: Bytes, plaintext: Bytes, kid: Bytes, payloadAad: Bytes, wrapAad: Bytes, f: Fresh)
    requires IdealAead(p)
    ensures
      var env := Sealed(p, key, plaintext, kid, payloadAad, wrapAad, f);
      && Unhex(env.wiv) == Some(f.wrapIv) && Unhex(env.iv) == Some(f.payloadIv)
      && Base64.StrictDecode(env.wdek) == Some((p.seal)(key, f.wrapIv, f.dek, wrapAad))
      && Base64.StrictDecode(env.ct) == Some((p.seal)(f.dek, f.payloadIv, (p.gzip)(plaintext), payloadAad))
  {
    UnhexHex(f.wrapIv);
    UnhexHex(f.payloadIv);
    var env := Sealed(p, key, plaintext, kid, payloadAad, wrapAad, f);
    Base64.OneSpelling(env.wdek, (p.seal)(key, f.wrapIv, f.dek, wrapAad));
    Base64.OneSpelling(env.ct, (p.seal)(f.dek, f.payloadIv, (p.gzip)(plaintext), payloadAad));
  }

  /** The row an opener names, apart from the key id. */
  predicate SameRow(a: Aad.RowAad, b: Aad.RowAad) {
    a.user == b.user && a.scope == b.scope && a.id == b.id
  }

  /** Sealed parts open exactly under the same key and the same associated data. */
  lemma PartsOpen(
    p: Primitives, kid: Bytes, key: Bytes, plaintext: Bytes, wrapAad: Bytes, payloadAad: Bytes, f: Fresh,
        given: Bytes, wrap: Option<Bytes>, payload: Option<Bytes>)
    requires Ideal(p) && FreshOK(f) && |key| == KEY_SIZE && |plaintext| <= MAX_PLAINTEXT
    ensures
      var r := OpenParts(p, kid, given, f.wrapIv, (p.seal)(key, f.wrapIv, f.dek, wrapAad),
                         f.payloadIv, (p.seal)(f.dek, f.payloadIv, (p.gzip)(plaintext), payloadAad), wrap, payload);
      && (if given == key && wrap == Some(wrapAad) && payload == Some(payloadAad) then r == Opened(plaintext, kid)
          else r.Refused?)
      && (given != key || wrap != Some(wrapAad) ==> r == Refused(if wrap.None? then BadAad else CipherFailed))
  {
    var wdek := (p.seal)(key, f.wrapIv, f.dek, wrapAad);
    if wrap.Some? {
      assert (p.open)(given, f.wrapIv, wdek, wrap.value) == if given == key && wrap.value == wrapAad
          then Some(f.dek) else None;
    }
    if payload.Some? {
      var ct := (p.seal)(f.dek, f.payloadIv, (p.gzip)(plaintext), payloadAad);
      assert (p.open)(f.dek, f.payloadIv, ct, payload.value) == if payload.value == payloadAad
          then Some((p.gzip)(plaintext)) else None;
    }
  }

  /** Rebuilding both layers' associated data matches exactly for the same row. */
  lemma RebuiltAad(aad: Aad.RowAad, other: Aad.RowAad)
    requires Aad.PayloadAad(aad).Some? && Aad.WrapAad(aad).Some?
    ensures
      var named := other.(keyId := aad.keyId);
      && (Aad.WrapAad(named) == Aad.WrapAad(aad) <==> SameRow(aad, other))
      && (SameRow(aad, other) ==> Aad.PayloadAad(other) == Aad.PayloadAad(aad))
      && (Aad.WrapAad(named).None? <==> !Aad.ValidRow(other))
  {
    var named := other.(keyId := aad.keyId);
    if SameRow(aad, other) {
      assert named == aad;
      Aad.PayloadBinds(other, aad);
    } else if Aad.WrapAad(named).Some? {
      Aad.WrapBinds(named, aad);
    }
  }

  lemma LayersOpen(
    p: Primitives, key: Bytes, plaintext: Bytes, aad: Aad.RowAad, f: Fresh, given: Key, other: Aad.RowAad)
    requires Ideal(p) && FreshOK(f) && Encrypt(p, key, plaintext, aad, f).Some?
    ensures
      var env := Encrypt(p, key, plaintext, aad, f).value;
      && WellFormed(env) && env.kid == aad.keyId
      && (if given.material == key && SameRow(aad, other)
          then OpenLayers(p, env, given, other) == Opened(plaintext, aad.keyId)
          else OpenLayers(p, env, given, other) == Refused(if Aad.ValidRow(other) then CipherFailed else BadAad))
  {
    var payload, wrap := Aad.PayloadAad(aad).value, Aad.WrapAad(aad).value;
    SealedWellFormed(p, key, plaintext, aad.keyId, payload, wrap, f);
    SealedReadsBack(p, key, plaintext, aad.keyId, payload, wrap, f);
    PartsOpen(p, aad.keyId, key, plaintext, wrap, payload, f, given.material, Aad.WrapAad(other.(keyId := aad.keyId)),
        Aad.PayloadAad(other));
    RebuiltAad(aad, other);
  }

  /** An envelope opens to its plaintext exactly when the same user, scope and id are named
      and the key listed for its id is the one that sealed it; otherwise it does not open. */
  lemma OpensExactly(
    p: Primitives, key: Bytes, plaintext: Bytes, aad: Aad.RowAad, f: Fresh, keys: seq<Key>, other: Aad.RowAad)
    requires Ideal(p) && FreshOK(f) && Encrypt(p, key, plaintext, aad, f).Some?
    ensures
      var r := DecryptV2(p, Encrypt(p, key, plaintext, aad, f).value, keys, other);
      var found := Matching(keys, aad.keyId);
      && (r == Opened(plaintext, aad.keyId) <==> SameRow(aad, other) && found.Some? && found.value.material == key)
      && (r.Opened? ==> r == Opened(plaintext, aad.keyId))
  {
    var found := Matching(keys, aad.keyId);
    LayersOpen(p, key, plaintext, aad, f, if found.Some? then found.value else Key([], []), other);
  }

  lemma EncryptChecks(p: Primitives, key: Bytes, plaintext: Bytes, aad: Aad.RowAad, f: Fresh)
    ensures Encrypt(p, key, plaintext, aad, f).Some? <==>
              && |key| == KEY_SIZE && Aad.PayloadAad(aad).Some? && Aad.WrapAad(aad).Some?
              && |plaintext| <= MAX_PLAINTEXT
  {
  }

  lemma AadChecks(aad: Aad.RowAad)
    ensures Aad.PayloadAad(aad).Some? <==> Aad.ValidRow(aad)
    ensures Aad.WrapAad(aad).Some? <==> Aad.ValidRow(aad) && Aad.ValidKeyId(aad.keyId)
  {
  }

  lemma UnpacksExactly(p: Primitives, plaintext: Bytes)
    requires IdealGzip(p)
    ensures (p.gunzip)((p.gzip)(plaintext)) == Some(plaintext) <==> |plaintext| <= MAX_PLAINTEXT
  {
  }

  /** Sealing is refused exactly for a bad key, a bad row, a malformed key id or a plaintext
      that no reader would unpack again. */
  lemma SealsExactly(p: Primitives, key: Bytes, plaintext: Bytes, aad: Aad.RowAad, f: Fresh)
    requires IdealGzip(p)
    ensures Encrypt(p, key, plaintext, aad, f).Some? <==>
              && |key| == 32 && Aad.ValidRow(aad) && |aad.keyId| == 32 && Aad.LowerHex(aad.keyId)
              && (p.gunzip)((p.gzip)(plaintext)) == Some(plaintext)
  {
    EncryptChecks(p, key, plaintext, aad, f);
    AadChecks(aad);
    UnpacksExactly(p, plaintext);
  }

  /** `first` is where the envelope's key id is first listed, or the end. */
  ghost predicate FirstListed(keys: seq<Key>, kid: Bytes, first: nat) {
    && first <= |keys| && (forall i | 0 <= i < first :: keys[i].keyId != kid)
    && (first < |keys| ==> keys[first].keyId == kid)
  }

  lemma {:induction false} MatchingAt(keys: seq<Key>, kid: Bytes, first: nat)
    requires FirstListed(keys, kid, first)
    ensures Matching(keys, kid) == if first < |keys| then Some(keys[first]) else None
  {
    if first > 0 {
      MatchingAt(keys[1..], kid, first - 1);
    }
  }

  /** What opening a sealed envelope answers: no key is listed for its id; or the row named
      could not be sealed at all; or the key or the row is another; or it opens. An envelope of
      another version is malformed whatever else it says; one of another algorithm is
      unsupported. */
  lemma AnswersExactly(
    p: Primitives, key: Bytes, plaintext: Bytes, aad: Aad.RowAad, f: Fresh, keys: seq<Key>, first: nat,
    other: Aad.RowAad, v: int, alg: Bytes)
    requires Ideal(p) && FreshOK(f) && Encrypt(p, key, plaintext, aad, f).Some?
    requires FirstListed(keys, aad.keyId, first)
    ensures
      var env := Encrypt(p, key, plaintext, aad, f).value;
      && DecryptV2(p, env, keys, other) ==
         (if first == |keys| then Refused(NoMatchingKey)
          else if !Aad.ValidRow(other) then Refused(BadAad)
          else if keys[first].material != key || !SameRow(aad, other) then Refused(CipherFailed)
          else Opened(plaintext, aad.keyId))
      && (v != 2 ==> DecryptV2(p, env.(v := v, alg := alg), keys, other) == Refused(Malformed))
      && (alg != Aad.Ascii("AES-256-GCM") ==>
            DecryptV2(p, env.(alg := alg), keys, other) == Refused(UnsupportedAlg))
  {
    MatchingAt(keys, aad.keyId, first);
    LayersOpen(p, key, plaintext, aad, f, if first < |keys| then keys[first] else Key([], []), other);
  }

  /** The data key unwraps; the payload beside it comes from another sealing. */
  lemma PartsSpliced(
    p: Primitives, kid: Bytes, key: Bytes, f: Fresh, wrapAad: Bytes, plaintext: Bytes, g: Fresh, sealedAad: Bytes,
    payload: Bytes)
    requires Ideal(p) && FreshOK(f) && FreshOK(g) && |key| == KEY_SIZE && |plaintext| <= MAX_PLAINTEXT
    ensures
      OpenParts(p, kid, key, f.wrapIv, (p.seal)(key, f.wrapIv, f.dek, wrapAad), g.payloadIv,
                (p.seal)(g.dek, g.payloadIv, (p.gzip)(plaintext), sealedAad), Some(wrapAad), Some(payload)) ==
      if f.dek == g.dek && payload == sealedAad then Opened(plaintext, kid) else Refused(CipherFailed)
  {
    assert (p.open)(key, f.wrapIv, (p.seal)(key, f.wrapIv, f.dek, wrapAad), wrapAad) == Some(f.dek);
    var ct := (p.seal)(g.dek, g.payloadIv, (p.gzip)(plaintext), sealedAad);
    assert (p.open)(f.dek, g.payloadIv, ct, payload) == if f.dek == g.dek && payload == sealedAad
        then Some((p.gzip)(plaintext)) else None;
  }

  /** Two envelopes cannot be spliced: one whose payload is put under the other's key wrap opens
      exactly when both were sealed for the same row under the same data key. */
  lemma SplicedOpensExactly(
    p: Primitives, key: Bytes, plaintext: Bytes, aad: Aad.RowAad, f: Fresh, key': Bytes, plaintext': Bytes,
    aad': Aad.RowAad, g: Fresh, keys: seq<Key>, first: nat)
    requires Ideal(p) && FreshOK(f) && FreshOK(g)
    requires Encrypt(p, key, plaintext, aad, f).Some? && Encrypt(p, key', plaintext', aad', g).Some?
    requires FirstListed(keys, aad.keyId, first) && first < |keys| && keys[first].material == key
    ensures
      var env, other := Encrypt(p, key, plaintext, aad, f).value, Encrypt(p, key', plaintext', aad', g).value;
      DecryptV2(p, env.(iv := other.iv, ct := other.ct), keys, aad) ==
      if f.dek == g.dek && SameRow(aad, aad') then Opened(plaintext', aad.keyId) else Refused(CipherFailed)
  {
    var payload, wrap := Aad.PayloadAad(aad).value, Aad.WrapAad(aad).value;
    var payload', wrap' := Aad.PayloadAad(aad').value, Aad.WrapAad(aad').value;
    SealedWellFormed(p, key, plaintext, aad.keyId, payload, wrap, f);
    SealedReadsBack(p, key, plaintext, aad.keyId, payload, wrap, f);
    SealedWellFormed(p, key', plaintext', aad'.keyId, payload', wrap', g);
    SealedReadsBack(p, key', plaintext', aad'.keyId, payload', wrap', g);
    MatchingAt(keys, aad.keyId, first);
    PartsSpliced(p, aad.keyId, key, f, wrap, plaintext', g, payload', payload);
    Aad.PayloadBinds(aad, aad');
    assert aad.(keyId := aad.keyId) == aad;
  }

  /* ---------- ideal primitives exist ---------- */

  function SymbolicSeal(k: Bytes, n: Bytes, m: Bytes, a: Bytes): Bytes {
    Aad.Quoted(k) + (Aad.Quoted(n) + (Aad.Quoted(m) + (Aad.Quoted(a) + [])))
  }

  function SymbolicOpen(k: Bytes, n: Bytes, c: Bytes, a: Bytes): Option<Bytes> {
    var r1 := Aad.ReadString(c);
    if r1.Malformed? || r1.value != k then None
    else
      var r2 := Aad.ReadString(r1.rest);
      if r2.Malformed? || r2.value != n then None
      else
        var r3 := Aad.ReadString(r2.rest);
        if r3.Malformed? then None
        else
          var r4 := Aad.ReadString(r3.rest);
          if r4.Malformed? || r4.value != a then None else Some(r3.value)
  }

  lemma SymbolicOpens(k: Bytes, n: Bytes, m: Bytes, a: Bytes, k': Bytes, n': Bytes, a': Bytes)
    ensures SymbolicOpen(k', n', SymbolicSeal(k, n, m, a), a') == if k' == k && n' == n && a' == a
        then Some(m) else None
    ensures SymbolicSeal(k, n, m, a) != []
  {
    var c4 := Aad.Quoted(a) + [];
    var c3 := Aad.Quoted(m) + c4;
    var c2 := Aad.Quoted(n) + c3;
    Aad.ReadQuoted(k, c2);
    Aad.ReadQuoted(n, c3);
    Aad.ReadQuoted(m, c4);
    Aad.ReadQuoted(a, []);
  }

  /** What the envelope asks of its primitives can be met. */
  lemma IdealExists() returns (p: Primitives)
    ensures Ideal(p)
  {
    p := Primitives(
      (k, n, m, a) => SymbolicSeal(k, n, m, a),
      (k, n, c, a) => SymbolicOpen(k, n, c, a),
      m => m,
      c => if |c| <= MAX_PLAINTEXT then Some(c) else None);
    forall k, n, m, a, k', n', a'
      ensures (p.open)(k', n', (p.seal)(k, n, m, a), a') == if k' == k && n' == n && a' == a then Some(m) else None
      ensures (p.seal)(k, n, m, a) != []
    {
      SymbolicOpens(k, n, m, a, k', n', a');
    }
  }
}
