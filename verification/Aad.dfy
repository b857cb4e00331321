/** Canonical JSON for the sealed-row associated data: the string escaper (section 7 of
    RFC 8259), flat objects, and a reader that inverts both. */
module Aad {
  import opened Prelude

  const QUOTE: byte := 34
  const BACKSLASH: byte := 92
  const COMMA: byte := 44
  const COLON: byte := 58
  const OPEN: byte := 123
  const CLOSE: byte := 125

  /* ---------- strings ---------- */

  function HexDigit(d: int): (c: byte)
    requires 0 <= d < 16
    ensures HexValue(c) == Some(d)
  {
    if d < 10 then 48 + d else 87 + d
  }

  function HexValue(c: byte): Option<int> {
    if 48 <= c <= 57 then Some(c - 48) else if 97 <= c <= 102 then Some(c - 87) else None
  }

  /** The letter after a backslash for the bytes with a short escape. */
  function Short(c: byte): Option<byte> {
    if c == QUOTE || c == BACKSLASH then Some(c)
    else if c == 10 then Some(110)
    else if c == 13 then Some(114)
    else if c == 9 then Some(116)
    else if c == 8 then Some(98)
    else if c == 12 then Some(102)
    else None
  }

  function Unshort(c: byte): Option<byte> {
    if c == QUOTE || c == BACKSLASH then Some(c)
    else if c == 110 then Some(10)
    else if c == 114 then Some(13)
    else if c == 116 then Some(9)
    else if c == 98 then Some(8)
    else if c == 102 then Some(12)
    else None
  }

  function EscapeByte(c: byte): Bytes {
    if Short(c).Some? then [BACKSLASH, Short(c).value]
    else if c < 32 then [BACKSLASH, 117, 48, 48, HexDigit(c / 16), HexDigit(c % 16)]
    else [c]
  }

  function Escape(s: Bytes): Bytes {
    if s == [] then [] else EscapeByte(s[0]) + Escape(s[1..])
  }

  function Quoted(s: Bytes): Bytes {
    [QUOTE] + Escape(s) + [QUOTE]
  }

  /** What a reader finds: a value and the input after it. */
  datatype Read<T> = Found(value: T, rest: Bytes) | Malformed

  function Prepend(c: byte, r: Read<Bytes>): Read<Bytes> {
    if r.Found? then Found([c] + r.value, r.rest) else Malformed
  }

  /** Read up to the closing quote. */
  function ReadChars(b: Bytes): (r: Read<Bytes>)
    ensures r.Found? ==> |r.rest| < |b|
  {
    if b == [] then Malformed
    else if b[0] == QUOTE then Found([], b[1..])
    else if b[0] == BACKSLASH then
      if |b| >= 2 && Unshort(b[1]).Some? then Prepend(Unshort(b[1]).value, ReadChars(b[2..]))
      else if |b| >= 6 && b[1] == 117 && b[2] == 48 && b[3] == 48 && HexValue(b[4]).Some? && HexValue(b[5]).Some? then
        Prepend(16 * HexValue(b[4]).value + HexValue(b[5]).value, ReadChars(b[6..]))
      else Malformed
    else if b[0] < 32 then Malformed
    else Prepend(b[0], ReadChars(b[1..]))
  }

  function ReadString(b: Bytes): (r: Read<Bytes>)
    ensures r.Found? ==> |r.rest| < |b|
  {
    if b != [] && b[0] == QUOTE then ReadChars(b[1..]) else Malformed
  }

  lemma ReadOne(c: byte, tail: Bytes)
    ensures ReadChars(EscapeByte(c) + tail) == Prepend(c, ReadChars(tail))
  {
    var b := EscapeByte(c) + tail;
    if Short(c).Some? {
      assert b[2..] == tail;
    } else if c < 32 {
      assert b[6..] == tail;
    } else {
      assert b[1..] == tail;
    }
  }

  lemma {:induction false} ReadEscaped(s: Bytes, tail: Bytes)
    ensures ReadChars(Escape(s) + ([QUOTE] + tail)) == Found(s, tail)
  {
    if s == [] {
      assert Escape(s) + ([QUOTE] + tail) == [QUOTE] + tail;
      assert ([QUOTE] + tail)[1..] == tail;
    } else {
      var rest := Escape(s[1..]) + ([QUOTE] + tail);
      ReadEscaped(s[1..], tail);
      ReadOne(s[0], rest);
      Assoc(EscapeByte(s[0]), Escape(s[1..]), [QUOTE] + tail);
      assert s == [s[0]] + s[1..];
    }
  }

  /** The escaper has an inverse, wherever the string stands. */
  lemma ReadQuoted(s: Bytes, tail: Bytes)
    ensures ReadString(Quoted(s) + tail) == Found(s, tail)
  {
    ReadEscaped(s, tail);
    assert (Quoted(s) + tail)[1..] == Escape(s) + ([QUOTE] + tail);
  }

  /** The three ways to spell a first character, by what comes first. */
  predicate Spells(b: Bytes, c: byte) {
    && b != [] && b[0] != QUOTE
    && (b[0] != BACKSLASH ==> c == b[0] >= 32)
    && (b[0] == BACKSLASH ==> |b| >= 3 && (Unshort(b[1]) == Some(c) || (|b| >= 6 && HexValue(b[5]).Some?)))
  }

  lemma FirstRead(b: Bytes, c: byte)
    requires ReadChars(b).Found? && ReadChars(b).value != [] && ReadChars(b).value[0] == c
    ensures Spells(b, c)
  {
  }

  lemma SpelledLength(b: Bytes, c: byte)
    requires Spells(b, c) && b[|b| - 1] == QUOTE
    ensures |EscapeByte(c)| < |b|
  {
    assert HexValue(QUOTE).None?;
  }

  /** Nothing shorter, up to its closing quote, reads back as the byte: the escaper picks the
      shortest spelling, so the two-character escapes wherever they exist. */
  lemma ShortestEscape(c: byte, b: Bytes)
    requires ReadChars(b) == Found([c], []) && b[|b| - 1] == QUOTE
    ensures |EscapeByte(c)| < |b|
  {
    FirstRead(b, c);
    SpelledLength(b, c);
  }

  lemma {:induction false} EscapeAppend(s: Bytes, c: byte)
    ensures Escape(s + [c]) == Escape(s) + EscapeByte(c)
  {
    if s == [] {
      assert s + [c] == [c] && [c][1..] == [];
    } else {
      EscapeAppend(s[1..], c);
      assert (s + [c])[1..] == s[1..] + [c];
    }
  }

  method WriteJsonByte(buf: Bytes, c: byte) returns (out: Bytes)
    ensures out == buf + EscapeByte(c)
  {
    if c == 34 {
      out := buf + [92, 34];
    } else if c == 92 {
      out := buf + [92, 92];
    } else if c == 10 {
      out := buf + [92, 110];
    } else if c == 13 {
      out := buf + [92, 114];
    } else if c == 9 {
      out := buf + [92, 116];
    } else if c == 8 {
      out := buf + [92, 98];
    } else if c == 12 {
      out := buf + [92, 102];
    } else if c < 32 {
      out := buf + [92, 117, 48, 48];
      out := out + [HexDigit(c / 16)];
      out := out + [HexDigit(c % 16)];
    } else {
      out := buf + [c];
    }
  }

  method WriteJsonString(buf: Bytes, s: Bytes) returns (out: Bytes)
    ensures out == buf + Quoted(s)
  {
    out := buf + [QUOTE];
    var i := 0;
    while i < |s|
      invariant 0 <= i <= |s|
      invariant out == buf + ([QUOTE] + Escape(s[..i]))
    {
      assert s[..i + 1] == s[..i] + [s[i]];
      EscapeAppend(s[..i], s[i]);
      out := WriteJsonByte(out, s[i]);
      i := i + 1;
    }
    assert s[..i] == s;
    out := out + [QUOTE];
  }

  /* ---------- numbers ---------- */

  function Decimal(n: nat): Bytes {
    if n < 10 then [48 + n] else Decimal(n / 10) + [48 + n % 10]
  }

  predicate IsDigit(c: byte) {
    48 <= c <= 57
  }

  function ReadDigits(b: Bytes, sofar: nat): (r: Read<nat>)
    ensures r.Found? && |r.rest| <= |b|
  {
    if b != [] && IsDigit(b[0]) then ReadDigits(b[1..], 10 * sofar + (b[0] - 48)) else Found(sofar, b)
  }

  lemma {:induction false} ReadDecimal(n: nat, tail: Bytes)
    ensures ReadDigits(Decimal(n) + tail, 0) == ReadDigits(tail, n)
  {
    var d: byte := 48 + n % 10;
    assert ([d] + tail)[1..] == tail;
    if n >= 10 {
      ReadDecimal(n / 10, [d] + tail);
      Assoc(Decimal(n / 10), [d], tail);
    }
  }

  /* ---------- flat objects ---------- */

  datatype Val = Str(text: Bytes) | Num(number: nat)

  datatype Field = Field(key: Bytes, val: Val)

  function ValText(v: Val): Bytes {
    if v.Str? then Quoted(v.text) else Decimal(v.number)
  }

  function Member(f: Field): Bytes {
    Quoted(f.key) + ([COLON] + ValText(f.val))
  }

  function Members(fields: seq<Field>): Bytes {
    if fields == [] then []
    else if |fields| == 1 then Member(fields[0])
    else Member(fields[0]) + ([COMMA] + Members(fields[1..]))
  }

  function Marshal(fields: seq<Field>): Bytes {
    [OPEN] + (Members(fields) + [CLOSE])
  }

  function ReadVal(b: Bytes): (r: Read<Val>)
    ensures r.Found? ==> |r.rest| <= |b|
  {
    if b == [] then Malformed
    else if b[0] == QUOTE then
      var r := ReadString(b);
      if r.Found? then Found(Str(r.value), r.rest) else Malformed
    else if IsDigit(b[0]) then
      var r := ReadDigits(b, 0);
      Found(Num(r.value), r.rest)
    else Malformed
  }

  function ReadMember(b: Bytes): (r: Read<Field>)
    ensures r.Found? ==> |r.rest| < |b|
  {
    var k := ReadString(b);
    if k.Malformed? || k.rest == [] || k.rest[0] != COLON then Malformed
    else
      var v := ReadVal(k.rest[1..]);
      if v.Found? then Found(Field(k.value, v.value), v.rest) else Malformed
  }

  function ReadMembers(b: Bytes): Read<seq<Field>>
    decreases |b|
  {
    var m := ReadMember(b);
    if m.Malformed? || m.rest == [] then Malformed
    else if m.rest[0] == CLOSE then Found([m.value], m.rest[1..])
    else if m.rest[0] != COMMA then Malformed
    else
      var more := ReadMembers(m.rest[1..]);
      if more.Found? then Found([m.value] + more.value, more.rest) else Malformed
  }

  function ReadObject(b: Bytes): Read<seq<Field>> {
    if |b| < 2 || b[0] != OPEN then Malformed
    else if b[1] == CLOSE then Found([], b[2..])
    else ReadMembers(b[1..])
  }

  /** What may follow a value. */
  predicate Ends(tail: Bytes) {
    tail != [] && (tail[0] == COMMA || tail[0] == CLOSE)
  }

  lemma ReadValBack(v: Val, tail: Bytes)
    requires Ends(tail)
    ensures ReadVal(ValText(v) + tail) == Found(v, tail)
  {
    if v.Str? {
      ReadQuoted(v.text, tail);
      assert (Quoted(v.text) + tail)[0] == QUOTE;
    } else {
      ReadDecimal(v.number, tail);
      assert (Decimal(v.number) + tail)[0] == Decimal(v.number)[0];
    }
  }

  lemma ReadMemberBack(f: Field, tail: Bytes)
    requires Ends(tail)
    ensures ReadMember(Member(f) + tail) == Found(f, tail)
  {
    var after := [COLON] + (ValText(f.val) + tail);
    Assoc(Quoted(f.key), [COLON] + ValText(f.val), tail);
    Assoc([COLON], ValText(f.val), tail);
    ReadQuoted(f.key, after);
    assert after[1..] == ValText(f.val) + tail;
    ReadValBack(f.val, tail);
  }

  /** A member followed by the close ends the object; one followed by a comma does not. */
  lemma ReadLast(f: Field, tail: Bytes)
    ensures ReadMembers(Member(f) + ([CLOSE] + tail)) == Found([f], tail)
  {
    ReadMemberBack(f, [CLOSE] + tail);
    assert ([CLOSE] + tail)[1..] == tail;
  }

  lemma ReadNext(f: Field, more: Bytes)
    ensures
      ReadMembers(Member(f) + ([COMMA] + more)) ==
      (var r := ReadMembers(more); if r.Found? then Found([f] + r.value, r.rest) else Malformed)
  {
    ReadMemberBack(f, [COMMA] + more);
    assert ([COMMA] + more)[1..] == more;
  }

  lemma {:induction false} ReadMembersBack(fields: seq<Field>, tail: Bytes)
    requires fields != []
    ensures ReadMembers(Members(fields) + ([CLOSE] + tail)) == Found(fields, tail)
  {
    if |fields| == 1 {
      ReadLast(fields[0], tail);
      assert fields == [fields[0]];
    } else {
      var more := Members(fields[1..]) + ([CLOSE] + tail);
      Assoc(Member(fields[0]), [COMMA] + Members(fields[1..]), [CLOSE] + tail);
      Assoc([COMMA], Members(fields[1..]), [CLOSE] + tail);
      ReadNext(fields[0], more);
      ReadMembersBack(fields[1..], tail);
      assert fields == [fields[0]] + fields[1..];
    }
  }

  /** Reading inverts marshalling for every list of fields. */
  lemma ReadMarshalled(fields: seq<Field>, tail: Bytes)
    ensures ReadObject(Marshal(fields) + tail) == Found(fields, tail)
  {
    Braced(Members(fields), tail);
    if fields != [] {
      ReadMembersBack(fields, tail);
    }
  }

  lemma Braced(m: Bytes, tail: Bytes)
    ensures
      var b := [OPEN] + (m + [CLOSE]) + tail;
      && b[0] == OPEN && b[1..] == m + ([CLOSE] + tail)
      && b[1] == (if m == [] then CLOSE else m[0]) && (m == [] ==> b[2..] == tail)
  {
  }

  lemma MarshalInjective(f: seq<Field>, g: seq<Field>)
    requires Marshal(f) == Marshal(g)
    ensures f == g
  {
    ReadMarshalled(f, []);
    ReadMarshalled(g, []);
  }

  lemma {:induction false} MembersAppend(fields: seq<Field>, f: Field)
    ensures Members(fields + [f]) == if fields == [] then Member(f) else Members(fields) + ([COMMA] + Member(f))
  {
    if fields == [] {
      assert fields + [f] == [f];
    } else {
      var all := fields + [f];
      assert all[1..] == fields[1..] + [f];
      MembersAppend(fields[1..], f);
      if |fields| > 1 {
        Assoc([COMMA], Members(fields[1..]), [COMMA] + Member(f));
        Assoc(Member(fields[0]), [COMMA] + Members(fields[1..]), [COMMA] + Member(f));
      }
    }
  }

  /** The buffer after one more member. */
  lemma OneMoreMember(fields: seq<Field>, f: Field)
    ensures
      [OPEN] + Members(fields + [f]) ==
      (if fields == [] then [OPEN] else [OPEN] + Members(fields) + [COMMA]) + Member(f)
  {
    MembersAppend(fields, f);
    Assoc([OPEN], Members(fields), [COMMA] + Member(f));
    Assoc([OPEN] + Members(fields), [COMMA], Member(f));
  }

  /** Marshal field by field into a buffer. */
  method MarshalCanonical(fields: seq<Field>) returns (buf: Bytes)
    ensures buf == Marshal(fields)
  {
    buf := [OPEN];
    var i := 0;
    while i < |fields|
      invariant 0 <= i <= |fields|
      invariant buf == [OPEN] + Members(fields[..i])
    {
      assert fields[..i + 1] == fields[..i] + [fields[i]];
      OneMoreMember(fields[..i], fields[i]);
      if i > 0 {
        buf := buf + [COMMA];
      }
      buf := WriteMember(buf, fields[i]);
      i := i + 1;
    }
    assert fields[..i] == fields;
    Assoc([OPEN], Members(fields), [CLOSE]);
    buf := buf + [CLOSE];
  }

  method WriteMember(buf: Bytes, f: Field) returns (out: Bytes)
    ensures out == buf + Member(f)
  {
    out := WriteJsonString(buf, f.key);
    out := out + [COLON];
    match f.val {
      case Str(text) => out := WriteJsonString(out, text);
      case Num(n) => out := out + Decimal(n);
    }
  }

  /* ---------- the associated data ---------- */

  /** A program constant as bytes. */
  function Ascii(s: string): (b: Bytes)
    ensures |b| == |s|
  {
    seq(|s|, i requires 0 <= i < |s| => s[i] as int % 256)
  }

  datatype RowAad = RowAad(keyId: Bytes, scope: Bytes, id: Bytes, user: Bytes)

  datatype BundleAad = BundleAad(user: Bytes, keyId: Bytes, credentialId: Bytes)

  predicate ValidScope(scope: Bytes) {
    scope == Ascii("chat") || scope == Ascii("profile") || scope == Ascii("project") ||
        scope == Ascii("project_document")
  }

  predicate LowerHex(s: Bytes) {
    forall i | 0 <= i < |s| :: 48 <= s[i] <= 57 || 97 <= s[i] <= 102
  }

  method IsLowerHex(s: Bytes) returns (ok: bool)
    ensures ok <==> LowerHex(s)
  {
    var i := 0;
    while i < |s|
      invariant 0 <= i <= |s| && LowerHex(s[..i])
    {
      var c := s[i];
      if !((c >= 48 && c <= 57) || (c >= 97 && c <= 102)) {
        return false;
      }
      assert s[..i + 1] == s[..i] + [c];
      i := i + 1;
    }
    assert s[..i] == s;
    ok := true;
  }

  predicate ValidKeyId(k: Bytes) {
    |k| == 32 && LowerHex(k)
  }

  /** The row checks both layers make. */
  predicate ValidRow(a: RowAad) {
    ValidScope(a.scope) && a.user != [] && (a.scope == Ascii("profile") ==> a.id == Ascii("profile")) && a.id != []
  }

  function PayloadFields(a: RowAad): seq<Field> {
    [ Field(Ascii("alg"), Str(Ascii("AES-256-GCM"))),
      Field(Ascii("clerk_user_id"), Str(a.user)),
      Field(Ascii("domain"), Str(Ascii("tinfoil-sync-envelope-v2"))),
      Field(Ascii("id"), Str(a.id)),
      Field(Ascii("scope"), Str(a.scope)),
      Field(Ascii("v"), Num(2)) ]
  }

  function WrapFields(a: RowAad): seq<Field> {
    [ Field(Ascii("clerk_user_id"), Str(a.user)),
      Field(Ascii("domain"), Str(Ascii("tinfoil-dek-wrap-v2"))),
      Field(Ascii("id"), Str(a.id)),
      Field(Ascii("kid"), Str(a.keyId)),
      Field(Ascii("scope"), Str(a.scope)),
      Field(Ascii("v"), Num(2)) ]
  }

  function BundleFields(a: BundleAad): seq<Field> {
    [ Field(Ascii("clerk_user_id"), Str(a.user)),
      Field(Ascii("credential_id"), Str(a.credentialId)),
      Field(Ascii("domain"), Str(Ascii("tinfoil-key-bundle-v2"))),
      Field(Ascii("key_id"), Str(a.keyId)) ]
  }

  function PayloadAad(a: RowAad): Option<Bytes> {
    if ValidRow(a) then Some(Marshal(PayloadFields(a))) else None
  }

  function WrapAad(a: RowAad): Option<Bytes> {
    if ValidRow(a) && ValidKeyId(a.keyId) then Some(Marshal(WrapFields(a))) else None
  }

  method CanonicalPayloadAad(a: RowAad) returns (r: Option<Bytes>)
    ensures r == PayloadAad(a)
  {
    if !ValidScope(a.scope) || a.user == [] {
      return None;
    }
    if a.scope == Ascii("profile") && a.id != Ascii("profile") {
      return None;
    }
    if a.id == [] {
      return None;
    }
    var text := MarshalCanonical(PayloadFields(a));
    r := Some(text);
  }

  method CanonicalDekWrapAad(a: RowAad) returns (r: Option<Bytes>)
    ensures r == WrapAad(a)
  {
    if !ValidScope(a.scope) {
      return None;
    }
    var hex := IsLowerHex(a.keyId);
    if |a.keyId| != 32 || !hex || a.user == [] {
      return None;
    }
    if a.scope == Ascii("profile") && a.id != Ascii("profile") {
      return None;
    }
    if a.id == [] {
      return None;
    }
    var text := MarshalCanonical(WrapFields(a));
    r := Some(text);
  }

  /** Byte order of two keys: they agree up to `k`, where the first ends or has the smaller
      byte. */
  predicate LessAt(a: Bytes, b: Bytes, k: nat) {
    k <= |a| && k < |b| && a[..k] == b[..k] && (k == |a| || a[k] < b[k])
  }

  ghost predicate KeyLess(a: Bytes, b: Bytes) {
    exists k: nat :: LessAt(a, b, k)
  }

  ghost predicate KeysAscend(fields: seq<Field>) {
    forall i | 0 <= i < |fields| - 1 :: KeyLess(fields[i].key, fields[i + 1].key)
  }

  /** The canonical form lists members in the order of their keys. */
  lemma PayloadKeysAscend(a: RowAad)
    ensures KeysAscend(PayloadFields(a))
  {
    var f := PayloadFields(a);
    forall i | 0 <= i < 5
      ensures KeyLess(f[i].key, f[i + 1].key)
    {
      assert LessAt(f[i].key, f[i + 1].key, 0);
    }
  }

  lemma WrapKeysAscend(a: RowAad)
    ensures KeysAscend(WrapFields(a))
  {
    var f := WrapFields(a);
    forall i | 0 <= i < 5
      ensures KeyLess(f[i].key, f[i + 1].key)
    {
      assert LessAt(f[i].key, f[i + 1].key, 0);
    }
  }

  lemma BundleKeysAscend(a: BundleAad)
    ensures KeysAscend(BundleFields(a))
  {
    var f := BundleFields(a);
    assert LessAt(f[0].key, f[1].key, 1) && LessAt(f[1].key, f[2].key, 0) && LessAt(f[2].key, f[3].key, 0);
  }

  /** The payload layer binds exactly user, id and scope. */
  lemma PayloadBinds(a: RowAad, b: RowAad)
    requires PayloadAad(a).Some? && PayloadAad(b).Some?
    ensures PayloadAad(a) == PayloadAad(b) <==> a.user == b.user && a.id == b.id && a.scope == b.scope
  {
    if PayloadAad(a) == PayloadAad(b) {
      MarshalInjective(PayloadFields(a), PayloadFields(b));
      var f, g := PayloadFields(a), PayloadFields(b);
      assert f[1] == g[1] && f[3] == g[3] && f[4] == g[4];
    }
  }

  /** The key-wrap layer binds exactly user, id, scope and key id. */
  lemma WrapBinds(a: RowAad, b: RowAad)
    requires WrapAad(a).Some? && WrapAad(b).Some?
    ensures WrapAad(a) == WrapAad(b) <==> a == b
  {
    if WrapAad(a) == WrapAad(b) {
      MarshalInjective(WrapFields(a), WrapFields(b));
      var f, g := WrapFields(a), WrapFields(b);
      assert f[0] == g[0] && f[2] == g[2] && f[3] == g[3] && f[4] == g[4];
    }
  }

  /** The three kinds of associated data never coincide. */
  lemma LayersDisjoint(a: RowAad, b: RowAad, c: BundleAad)
    ensures Marshal(PayloadFields(a)) != Marshal(WrapFields(b))
    ensures Marshal(PayloadFields(a)) != Marshal(BundleFields(c))
    ensures Marshal(WrapFields(b)) != Marshal(BundleFields(c))
  {
    ReadMarshalled(PayloadFields(a), []);
    ReadMarshalled(WrapFields(b), []);
    ReadMarshalled(BundleFields(c), []);
    assert |PayloadFields(a)[0].key| == 3 && |WrapFields(b)[0].key| == 13;
    assert |PayloadFields(a)| == |WrapFields(b)| == 6 && |BundleFields(c)| == 4;
  }
}
