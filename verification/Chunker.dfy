/** Packing chat text into embedding chunks without splitting a rune. */
module Chunker {
  import opened Prelude

  const CHUNK_CHARS := 2000
  const MAX_CHUNKS := 8
  const NEWLINE: byte := 10

  /* ---------- UTF-8, section 4 of RFC 3629 ---------- */

  predicate Continuation(b: byte) {
    0x80 <= b < 0xC0
  }

  predicate In(b: byte, lo: int, hi: int) {
    lo <= b <= hi
  }

  /** The length of the well-formed rune a text starts with, 0 if there is none. */
  function RuneLen(s: Bytes): (k: nat)
    ensures k <= 4 && k <= |s|
    ensures forall i | 1 <= i < k :: Continuation(s[i])
    ensures k > 0 ==> !Continuation(s[0])
  {
    if |s| >= 1 && s[0] < 0x80 then 1
    else if |s| >= 2 && In(s[0], 0xC2, 0xDF) && Continuation(s[1]) then 2
    else if |s| >= 3 && Continuation(s[2]) && Second3(s[0], s[1]) then 3
    else if |s| >= 4 && Continuation(s[2]) && Continuation(s[3]) && Second4(s[0], s[1]) then 4
    else 0
  }

  predicate Second3(a: byte, b: byte) {
    || (a == 0xE0 && In(b, 0xA0, 0xBF))
    || ((In(a, 0xE1, 0xEC) || In(a, 0xEE, 0xEF)) && Continuation(b))
    || (a == 0xED && In(b, 0x80, 0x9F))
  }

  predicate Second4(a: byte, b: byte) {
    || (a == 0xF0 && In(b, 0x90, 0xBF))
    || (In(a, 0xF1, 0xF3) && Continuation(b))
    || (a == 0xF4 && In(b, 0x80, 0x8F))
  }

  predicate Utf8(s: Bytes) {
    s == [] || (RuneLen(s) > 0 && Utf8(s[RuneLen(s)..]))
  }

  lemma SameRune(s: Bytes, n: nat)
    requires n <= |s| && 0 < RuneLen(s) <= n
    ensures RuneLen(s[..n]) == RuneLen(s)
  {
  }

  /** A cut inside the text falls at or after the end of the first rune. */
  lemma CutAfterRune(s: Bytes, cut: nat)
    requires Utf8(s) && 0 < cut <= |s| && (cut < |s| ==> !Continuation(s[cut]))
    ensures 0 < RuneLen(s) <= cut
  {
  }

  lemma SplitAfterRune(s: Bytes, cut: nat, k: nat)
    requires k <= cut <= |s|
    ensures s[..cut][k..] == s[k..][..cut - k] && s[cut..] == s[k..][cut - k..]
  {
  }

  /** Cutting valid text where no continuation byte follows leaves two valid texts. */
  lemma {:induction false} CutAtRune(s: Bytes, cut: nat)
    requires Utf8(s) && cut <= |s| && (cut < |s| ==> !Continuation(s[cut]))
    ensures Utf8(s[..cut]) && Utf8(s[cut..])
  {
    if cut == 0 {
      assert s[..0] == [] && s[0..] == s;
    } else {
      var k := RuneLen(s);
      CutAfterRune(s, cut);
      CutAtRune(s[k..], cut - k);
      SameRune(s, cut);
      SplitAfterRune(s, cut, k);
    }
  }

  lemma RuneExtends(a: Bytes, b: Bytes)
    requires RuneLen(a) > 0
    ensures RuneLen(a + b) == RuneLen(a)
  {
    assert forall i | 0 <= i < |a| :: (a + b)[i] == a[i];
  }

  lemma DropJoined(a: Bytes, b: Bytes, k: nat)
    requires k <= |a|
    ensures (a + b)[k..] == a[k..] + b
  {
  }

  lemma {:induction false} JoinRunes(a: Bytes, b: Bytes)
    requires Utf8(a) && Utf8(b)
    ensures Utf8(a + b)
  {
    if a == [] {
      assert a + b == b;
    } else {
      var k := RuneLen(a);
      JoinRunes(a[k..], b);
      RuneExtends(a, b);
      DropJoined(a, b, k);
    }
  }

  /** A rune start lies within any four consecutive positions. */
  lemma {:induction false} RuneNear(s: Bytes, n: nat)
    requires Utf8(s) && n < |s|
    ensures exists c | 0 <= c <= n :: n - c <= 3 && !Continuation(s[c])
    decreases |s|
  {
    var k := RuneLen(s);
    if n < k {
      assert !Continuation(s[0]);
    } else {
      RuneNear(s[k..], n - k);
      var c :| 0 <= c <= n - k && n - k - c <= 3 && !Continuation(s[k..][c]);
      assert s[k..][c] == s[k + c];
    }
  }

  /** The longest prefix of at most `n` bytes that ends on a rune boundary. */
  method TruncateUtf8(s: Bytes, n: int) returns (r: Bytes)
    requires Utf8(s)
    ensures |r| <= |s| && r == s[..|r|] && (|r| <= n || r == [])
    ensures Utf8(r) && Utf8(s[|r|..])
    ensures n > 0 && |s| <= n ==> r == s
    ensures forall c | |r| < c <= n && c < |s| :: Continuation(s[c])
    ensures n >= 4 && s != [] ==> r != []
    ensures |s| > n >= 4 ==> |r| >= n - 3
  {
    assert s[..0] == [] && s[0..] == s;
    if n <= 0 {
      return [];
    }
    if |s| <= n {
      assert s[..|s|] == s && s[|s|..] == [];
      return s;
    }
    var cut := n;
    while cut > 0 && Continuation(s[cut])
      invariant 0 <= cut <= n
      invariant forall c | cut < c <= n :: Continuation(s[c])
    {
      cut := cut - 1;
    }
    RuneNear(s, n);
    assert !Continuation(s[cut]);
    CutAtRune(s, cut);
    r := s[..cut];
  }

  /* ---------- pieces ---------- */

  /** Pieces joined into one chunk's text. */
  ghost function Join(pieces: seq<Bytes>): Bytes {
    if pieces == [] then []
    else if |pieces| == 1 then pieces[0]
    else Join(pieces[..|pieces| - 1]) + [NEWLINE] + pieces[|pieces| - 1]
  }

  /** The text of some pieces or parts, without separators. */
  ghost function Text(pieces: seq<Bytes>): Bytes {
    if pieces == [] then [] else Text(pieces[..|pieces| - 1]) + pieces[|pieces| - 1]
  }

  ghost function TextOf(chunks: seq<seq<Bytes>>): Bytes {
    if chunks == [] then [] else TextOf(chunks[..|chunks| - 1]) + Text(chunks[|chunks| - 1])
  }

  ghost predicate GoodChunk(chunk: Bytes, pieces: seq<Bytes>) {
    && chunk == Join(pieces) && chunk != [] && |chunk| <= CHUNK_CHARS && Utf8(chunk)
    && forall i | 0 <= i < |pieces| :: pieces[i] != []
  }

  /** Closed chunks, each joined from its pieces. */
  ghost predicate Closed(chunks: seq<Bytes>, pieces: seq<seq<Bytes>>) {
    |chunks| == |pieces| && forall i | 0 <= i < |chunks| :: GoodChunk(chunks[i], pieces[i])
  }

  /** The open chunk: empty without pieces, a good chunk otherwise. */
  ghost predicate Open(cur: Bytes, pieces: seq<Bytes>) {
    if pieces == [] then cur == [] else GoodChunk(cur, pieces)
  }

  lemma JoinOneMore(pieces: seq<Bytes>, piece: Bytes)
    requires pieces != []
    ensures Join(pieces + [piece]) == Join(pieces) + [NEWLINE] + piece
  {
    assert (pieces + [piece])[..|pieces|] == pieces;
  }

  lemma TextOneMore(pieces: seq<Bytes>, piece: Bytes)
    ensures Text(pieces + [piece]) == Text(pieces) + piece
  {
    assert (pieces + [piece])[..|pieces|] == pieces;
  }

  lemma NewlineJoins(cur: Bytes, piece: Bytes)
    requires Utf8(cur) && Utf8(piece)
    ensures Utf8(cur + [NEWLINE] + piece)
  {
    assert RuneLen([NEWLINE]) == 1 && Utf8([NEWLINE][1..]);
    JoinRunes(cur, [NEWLINE]);
    JoinRunes(cur + [NEWLINE], piece);
  }

  lemma OneMorePiece(cur: Bytes, pieces: seq<Bytes>, piece: Bytes)
    requires Open(cur, pieces) && piece != [] && Utf8(piece)
    requires |cur| + (if cur == [] then 0 else 1) + |piece| <= CHUNK_CHARS
    ensures Open(if cur == [] then piece else cur + [NEWLINE] + piece, pieces + [piece])
    ensures Text(pieces + [piece]) == Text(pieces) + piece
  {
    TextOneMore(pieces, piece);
    if pieces == [] {
      assert pieces + [piece] == [piece];
    } else {
      JoinOneMore(pieces, piece);
      NewlineJoins(cur, piece);
    }
  }

  lemma OneMoreChunk(chunks: seq<Bytes>, closed: seq<seq<Bytes>>, cur: Bytes, open: seq<Bytes>)
    requires Closed(chunks, closed) && Open(cur, open) && cur != []
    ensures Closed(chunks + [cur], closed + [open]) && TextOf(closed + [open]) == TextOf(closed) + Text(open)
  {
    assert (closed + [open])[..|closed|] == closed;
  }

  lemma Regroup(a: Bytes, b: Bytes, part: Bytes, n: nat)
    requires n <= |part|
    ensures a + (b + part[..n]) + part[n..] == a + b + part
  {
  }

  /* ---------- no chunk closes early ---------- */

  /** All pieces in order, whichever chunk they are in. */
  ghost function Flat(chunks: seq<seq<Bytes>>): seq<Bytes> {
    if chunks == [] then [] else Flat(chunks[..|chunks| - 1]) + chunks[|chunks| - 1]
  }

  lemma FlatOneMore(chunks: seq<seq<Bytes>>, chunk: seq<Bytes>)
    ensures Flat(chunks + [chunk]) == Flat(chunks) + chunk
  {
    assert (chunks + [chunk])[..|chunks|] == chunks;
  }

  /** A chunk that closed before `first` had no room for it, and had room for less than a rune
      unless `first` is a whole part. */
  ghost predicate NoRoom(chunk: Bytes, first: Bytes, parts: seq<Bytes>) {
    |chunk| + 1 + |first| > CHUNK_CHARS && (|chunk| >= CHUNK_CHARS - 4 || first in parts)
  }

  ghost predicate Tight(chunks: seq<Bytes>, pieces: seq<seq<Bytes>>, parts: seq<Bytes>) {
    forall k | 0 <= k < |chunks| && k + 1 < |pieces| ::
      pieces[k + 1] != [] && NoRoom(chunks[k], pieces[k + 1][0], parts)
  }

  /** The last closed chunk had no room for what comes next: the open chunk, or else the rest
      of the part being packed. */
  ghost predicate TightEnd(chunks: seq<Bytes>, open: seq<Bytes>, text: Bytes, part: Bytes, parts: seq<Bytes>) {
    chunks != [] ==>
      if open != [] then NoRoom(chunks[|chunks| - 1], open[0], parts)
      else NoRoomFor(chunks[|chunks| - 1], text, part)
  }

  ghost predicate NoRoomFor(chunk: Bytes, text: Bytes, part: Bytes) {
    |chunk| + 1 + |part| > CHUNK_CHARS && (|chunk| >= CHUNK_CHARS - 4 || (part == text && |text| <= CHUNK_CHARS))
  }

  lemma CloseTight(
    chunks: seq<Bytes>, closed: seq<seq<Bytes>>, cur: Bytes, open: seq<Bytes>, text: Bytes, part: Bytes,
    parts: seq<Bytes>)
    requires Closed(chunks, closed) && Open(cur, open) && cur != [] && open != []
    requires Tight(chunks, closed, parts) && TightEnd(chunks, open, text, part, parts)
    ensures Tight(chunks + [cur], closed + [open], parts)
  {
  }

  /** How one part is split: not at all if it fits a chunk. */
  ghost predicate Split(text: Bytes, group: seq<Bytes>, left: Bytes) {
    && Text(group) + left == text
    && (|text| <= CHUNK_CHARS ==> group == [] || (group == [text] && left == []))
    && forall i | 0 <= i < |group| :: group[i] != []
  }

  lemma SplitMore(text: Bytes, group: seq<Bytes>, part: Bytes, n: nat)
    requires Split(text, group, part) && 0 < n <= |part| && (|part| <= CHUNK_CHARS ==> n == |part|)
    ensures Split(text, group + [part[..n]], part[n..])
  {
    TextOneMore(group, part[..n]);
    Regroup([], Text(group), part, n);
    assert Text(group) + part[..n] + part[n..] == Text(group) + part;
    if |text| <= CHUNK_CHARS {
      assert group == [];
      assert Text(group) == [] && part == text && part[..n] == text;
    }
  }

  /** What packing has done so far with the part `text`, `part` of which is left. */
  ghost predicate Packing(
    chunks: seq<Bytes>, closed: seq<seq<Bytes>>, cur: Bytes, open: seq<Bytes>, before: seq<Bytes>, text: Bytes,
    group: seq<Bytes>, part: Bytes, parts: seq<Bytes>) {
    && Closed(chunks, closed) && Open(cur, open)
    && Flat(closed) + open == before + group
    && Split(text, group, part)
    && Tight(chunks, closed, parts) && TightEnd(chunks, open, text, part, parts)
  }

  lemma FlushPacking(
    chunks: seq<Bytes>, closed: seq<seq<Bytes>>, cur: Bytes, open: seq<Bytes>, before: seq<Bytes>, text: Bytes,
    group: seq<Bytes>, part: Bytes, parts: seq<Bytes>)
    requires Packing(chunks, closed, cur, open, before, text, group, part, parts) && cur != []
    requires NoRoomFor(cur, text, part)
    ensures Packing(chunks + [cur], closed + [open], [], [], before, text, group, part, parts)
  {
    OneMoreChunk(chunks, closed, cur, open);
    CloseTight(chunks, closed, cur, open, text, part, parts);
    FlatOneMore(closed, open);
  }

  /** The open chunk gains a piece of the part: the whole rest, or as much as there is room for. */
  lemma WritePacking(
    chunks: seq<Bytes>, closed: seq<seq<Bytes>>, cur: Bytes, open: seq<Bytes>, before: seq<Bytes>, text: Bytes,
    group: seq<Bytes>, part: Bytes, parts: seq<Bytes>, n: nat)
    requires Packing(chunks, closed, cur, open, before, text, group, part, parts) && text in parts
    requires 0 < n <= |part| && Utf8(part[..n]) && (|part| <= CHUNK_CHARS ==> n == |part|)
    requires |cur| + (if cur == [] then 0 else 1) + n <= CHUNK_CHARS
    requires cur == [] && n < |part| ==> n >= CHUNK_CHARS - 3
    ensures
      Packing(chunks, closed, if cur == [] then part[..n] else cur + [NEWLINE] + part[..n], open + [part[..n]], before,
              text, group + [part[..n]], part[n..], parts)
  {
    OneMorePiece(cur, open, part[..n]);
    SplitMore(text, group, part, n);
    WriteTight(chunks, open, text, group, part, parts, n);
    OneMoreFlat(Flat(closed), open, before, group, part[..n]);
  }

  lemma OneMoreFlat(flat: seq<Bytes>, open: seq<Bytes>, before: seq<Bytes>, group: seq<Bytes>, piece: Bytes)
    requires flat + open == before + group
    ensures flat + (open + [piece]) == before + (group + [piece])
  {
    assert flat + (open + [piece]) == flat + open + [piece];
  }

  /** The first piece of a chunk is a whole part, or comes from one that no chunk can hold. */
  lemma WriteTight(
    chunks: seq<Bytes>, open: seq<Bytes>, text: Bytes, group: seq<Bytes>, part: Bytes, parts: seq<Bytes>, n: nat)
    requires TightEnd(chunks, open, text, part, parts) && Split(text, group, part) && text in parts
    requires 0 < n <= |part| && (|part| <= CHUNK_CHARS ==> n == |part|)
    requires open == [] && n < |part| ==> n >= CHUNK_CHARS - 3
    ensures TightEnd(chunks, open + [part[..n]], text, part[n..], parts)
  {
    if chunks != [] && open == [] {
      assert |part| <= |text|;
      assert n == |part| ==> part[..n] == part;
    }
  }

  /** One turn of the packing loop: the rest of the part goes whole into the open chunk, or the
      chunk closes, or as much as fits goes in and the chunk closes unless that was all. */
  method PackTurn(
    text: Bytes, rest: Bytes, given: seq<Bytes>, current: Bytes, ghost givenClosed: seq<seq<Bytes>>,
    ghost givenOpen: seq<Bytes>, ghost givenGroup: seq<Bytes>, ghost before: seq<Bytes>, ghost parts: seq<Bytes>)
    returns (part: Bytes, chunks: seq<Bytes>, cur: Bytes, ghost closed: seq<seq<Bytes>>, ghost open: seq<Bytes>,
        ghost group: seq<Bytes>)
    requires Utf8(rest) && rest != [] && text in parts && (current != [] ==> givenGroup == [])
    requires Packing(given, givenClosed, current, givenOpen, before, text, givenGroup, rest, parts)
    ensures Utf8(part) && Packing(chunks, closed, cur, open, before, text, group, part, parts)
    ensures |chunks| == |given| || (|chunks| == |given| + 1 && part != [] && open == [])
    ensures if part == [] then open != [] else cur == []
    ensures |part| < |rest| || (part == rest && |cur| < |current|)
  {
    part, chunks, cur, closed, open, group := rest, given, current, givenClosed, givenOpen, givenGroup;
    var available := CHUNK_CHARS - |cur|;
    if |cur| > 0 && |part| + 1 <= available {
      assert part[..|part|] == part && part[|part|..] == [];
      WritePacking(chunks, closed, cur, open, before, text, group, part, parts, |part|);
      part, cur, open, group := [], cur + [NEWLINE] + part, open + [part], group + [part];
      return;
    }
    if |cur| > 0 && |part| <= CHUNK_CHARS {
      FlushPacking(chunks, closed, cur, open, before, text, group, part, parts);
      chunks, cur, closed, open := chunks + [cur], [], closed + [open], [];
      return;
    }
    if |cur| > 0 {
      available := available - 1;
    }
    var piece := TruncateUtf8(part, available);
    if piece != [] {
      WritePacking(chunks, closed, cur, open, before, text, group, part, parts, |piece|);
      cur := if |cur| > 0 then cur + [NEWLINE] + piece else piece;
      open, group := open + [piece], group + [piece];
      part := part[|piece|..];
    }
    if |part| > 0 {
      FlushPacking(chunks, closed, cur, open, before, text, group, part, parts);
      chunks, cur, closed, open := chunks + [cur], [], closed + [open], [];
    }
  }

  /** Pack one part: whole if it fits in the open chunk, else in a fresh chunk, else cut at
      rune boundaries. Stops when the chunk cap is reached. */
  method PackPart(
    text: Bytes, given: seq<Bytes>, current: Bytes, ghost givenClosed: seq<seq<Bytes>>, ghost givenOpen: seq<Bytes>,
    ghost parts: seq<Bytes>)
    returns (chunks: seq<Bytes>, cur: Bytes, full: bool, ghost closed: seq<seq<Bytes>>, ghost open: seq<Bytes>,
        ghost group: seq<Bytes>, ghost left: Bytes)
    requires Utf8(text) && text in parts && |given| < MAX_CHUNKS && (given != [] ==> givenOpen != [])
    requires Closed(given, givenClosed) && Open(current, givenOpen)
    requires Tight(given, givenClosed, parts) && TightEnd(given, givenOpen, text, text, parts)
    ensures Packing(chunks, closed, cur, open, Flat(givenClosed) + givenOpen, text, group, left, parts)
    ensures if full then |chunks| == MAX_CHUNKS && open == [] && left != [] else |chunks| < MAX_CHUNKS && left == []
    ensures !full && chunks != [] ==> open != []
  {
    chunks, cur, closed, open, full, group := given, current, givenClosed, givenOpen, false, [];
    ghost var before := Flat(givenClosed) + givenOpen;
    assert before + [] == before;
    var part := text;
    while |part| > 0
      invariant Utf8(part) && |chunks| < MAX_CHUNKS
      invariant Packing(chunks, closed, cur, open, before, text, group, part, parts)
      invariant part == [] && chunks != [] ==> open != []
      invariant part != [] && cur != [] ==> group == []
      decreases |part|, |cur|
    {
      part, chunks, cur, closed, open, group :=
        PackTurn(text, part, chunks, cur, closed, open, group, before, parts);
      if |chunks| >= MAX_CHUNKS {
        full, left := true, part;
        return;
      }
    }
    left := [];
  }

  lemma {:induction false} TextPrefix(parts: seq<Bytes>, n: nat)
    requires n <= |parts|
    ensures Text(parts[..n]) <= Text(parts)
  {
    if n == |parts| {
      assert parts[..n] == parts;
    } else {
      var k := |parts| - 1;
      TextPrefix(parts[..k], n);
      assert parts[..k][..n] == parts[..n];
    }
  }

  /** A parsed chat: its title and message bodies. */
  datatype Chat = Chat(title: Bytes, contents: seq<Bytes>)

  /** The trimmed title and bodies that are not blank, in order. */
  ghost function Parts(chat: Chat, trim: Bytes -> Bytes): seq<Bytes> {
    NotBlank([chat.title] + chat.contents, trim)
  }

  ghost function NotBlank(texts: seq<Bytes>, trim: Bytes -> Bytes): seq<Bytes> {
    if texts == [] then []
    else
      var k := |texts| - 1;
      NotBlank(texts[..k], trim) + if trim(texts[k]) == [] then [] else [trim(texts[k])]
  }

  /** The part one text gives: its trimmed self or nothing. */
  lemma OnePart(text: Bytes, trim: Bytes -> Bytes)
    ensures NotBlank([text], trim) == if trim(text) == [] then [] else [trim(text)]
  {
    assert [text][..0] == [];
  }

  /** The parts of two stretches of texts are the parts of one and then those of the other: the
      order of the chat is kept. */
  lemma {:induction false} PartsInOrder(a: seq<Bytes>, b: seq<Bytes>, trim: Bytes -> Bytes)
    ensures NotBlank(a + b, trim) == NotBlank(a, trim) + NotBlank(b, trim)
  {
    if b == [] {
      assert a + b == a && NotBlank(b, trim) == [];
    } else {
      var k := |b| - 1;
      var last := if trim(b[k]) == [] then [] else [trim(b[k])];
      PartsInOrder(a, b[..k], trim);
      assert (a + b)[..|a| + k] == a + b[..k] && (a + b)[|a| + k] == b[k];
      assert NotBlank(a + b, trim) == NotBlank(a + b[..k], trim) + last;
      JoinedAssoc(NotBlank(a, trim), NotBlank(b[..k], trim), last);
    }
  }

  lemma JoinedAssoc(a: seq<Bytes>, b: seq<Bytes>, c: seq<Bytes>)
    ensures (a + b) + c == a + (b + c)
  {
  }

  method BuildParts(chat: Chat, trim: Bytes -> Bytes) returns (parts: seq<Bytes>)
    ensures parts == Parts(chat, trim)
  {
    ghost var texts: seq<Bytes> := [chat.title] + chat.contents;
    parts := [];
    var title := trim(chat.title);
    if title != [] {
      parts := parts + [title];
    }
    assert texts[..1] == [chat.title] && |texts[..1][..0]| == 0;
    var i := 0;
    while i < |chat.contents|
      invariant 0 <= i <= |chat.contents|
      invariant parts == NotBlank(texts[..i + 1], trim)
    {
      assert texts[..i + 2][..i + 1] == texts[..i + 1] && texts[..i + 2][i + 1] == chat.contents[i];
      var content := trim(chat.contents[i]);
      if content != [] {
        parts := parts + [content];
      }
      i := i + 1;
    }
    assert texts[..i + 1] == texts;
  }

  lemma {:induction false} NotBlankValid(texts: seq<Bytes>, trim: Bytes -> Bytes)
    requires forall i | 0 <= i < |texts| :: Utf8(trim(texts[i]))
    ensures forall i | 0 <= i < |NotBlank(texts, trim)| :: Utf8(NotBlank(texts, trim)[i])
  {
    if texts != [] {
      NotBlankValid(texts[..|texts| - 1], trim);
    }
  }

  /** From the chat itself: nothing when it did not parse, else the chunks of its parts. */
  method ChatSearchChunks(
    chat: Option<Chat>, trim: Bytes -> Bytes)
    returns (chunks: seq<Bytes>, ghost pieces: seq<seq<Bytes>>, ghost groups: seq<seq<Bytes>>, ghost left: Bytes)
    requires chat.Some? ==> Utf8(trim(chat.value.title)) && forall i | 0 <= i < |chat.value.contents| ::
        Utf8(trim(chat.value.contents[i]))
    ensures chat.None? ==> chunks == []
    ensures |chunks| <= 8 && Closed(chunks, pieces)
    ensures chat.Some? ==> TextOf(pieces) <= Text(Parts(chat.value, trim))
    ensures chat.Some? && |chunks| < 8 ==> TextOf(pieces) == Text(Parts(chat.value, trim))
    ensures chat.Some? ==>
              && Tight(chunks, pieces, Parts(chat.value, trim)) && Flat(pieces) == Flat(groups)
              && Grouped(Parts(chat.value, trim), groups, left)
    ensures chat.Some? && |chunks| < 8 ==> |groups| == |Parts(chat.value, trim)| && left == []
  {
    if chat.None? {
      return [], [], [], [];
    }
    NotBlankValid([chat.value.title] + chat.value.contents, trim);
    var parts := BuildParts(chat.value, trim);
    chunks, pieces, groups, left := ChunkParts(parts);
  }

  /** The parts that were reached, each with its pieces, and what is left of the last. */
  ghost predicate Grouped(parts: seq<Bytes>, groups: seq<seq<Bytes>>, left: Bytes) {
    && |groups| <= |parts|
    && forall i | 0 <= i < |groups| :: Split(parts[i], groups[i], if i == |groups| - 1 then left else [])
  }

  lemma {:induction false} TextFlat(chunks: seq<seq<Bytes>>)
    ensures TextOf(chunks) == Text(Flat(chunks))
  {
    if chunks != [] {
      var k := |chunks| - 1;
      TextFlat(chunks[..k]);
      TextJoined(Flat(chunks[..k]), chunks[k]);
    }
  }

  lemma {:induction false} TextJoined(a: seq<Bytes>, b: seq<Bytes>)
    ensures Text(a + b) == Text(a) + Text(b)
  {
    if b == [] {
      assert a + b == a;
    } else {
      var k := |b| - 1;
      TextJoined(a, b[..k]);
      LastApart(a, b);
      TextOneMore(a + b[..k], b[k]);
      Assoc(Text(a), Text(b[..k]), b[k]);
    }
  }

  lemma GroupedBefore(parts: seq<Bytes>, groups: seq<seq<Bytes>>, left: Bytes)
    requires Grouped(parts, groups, left) && groups != []
    ensures Grouped(parts, groups[..|groups| - 1], [])
    ensures Text(groups[|groups| - 1]) + left == parts[|groups| - 1]
  {
    var k := |groups| - 1;
    assert forall i | 0 <= i < k :: Split(parts[i], groups[i], []);
    assert Split(parts[k], groups[k], left);
  }

  /** The pieces spell the parts that were reached, but for what is left of the last. */
  lemma {:induction false} GroupsSpell(parts: seq<Bytes>, groups: seq<seq<Bytes>>, left: Bytes)
    requires Grouped(parts, groups, left) && (groups == [] ==> left == [])
    ensures Text(Flat(groups)) + left == Text(parts[..|groups|])
  {
    if groups == [] {
      assert parts[..0] == [];
    } else {
      var k := |groups| - 1;
      GroupedBefore(parts, groups, left);
      GroupsSpell(parts, groups[..k], []);
      TextJoined(Flat(groups[..k]), groups[k]);
      assert parts[..k + 1][..k] == parts[..k];
      assert Text(Flat(groups[..k])) + [] == Text(Flat(groups[..k]));
      Assoc(Text(Flat(groups[..k])), Text(groups[k]), left);
    }
  }

  lemma PiecesSpell(parts: seq<Bytes>, groups: seq<seq<Bytes>>, left: Bytes, pieces: seq<seq<Bytes>>)
    requires Grouped(parts, groups, left) && (groups == [] ==> left == []) && Flat(pieces) == Flat(groups)
    ensures TextOf(pieces) + left == Text(parts[..|groups|])
  {
    TextFlat(pieces);
    GroupsSpell(parts, groups, left);
  }

  lemma SpellsPrefix(parts: seq<Bytes>, groups: seq<seq<Bytes>>, left: Bytes, pieces: seq<seq<Bytes>>)
    requires Grouped(parts, groups, left) && (groups == [] ==> left == []) && Flat(pieces) == Flat(groups)
    ensures TextOf(pieces) <= Text(parts)
    ensures left == [] && |groups| == |parts| ==> TextOf(pieces) == Text(parts)
  {
    PiecesSpell(parts, groups, left, pieces);
    PrefixSpelled(parts, |groups|, TextOf(pieces), left);
  }

  lemma PrefixSpelled(parts: seq<Bytes>, n: nat, text: Bytes, left: Bytes)
    requires n <= |parts| && text + left == Text(parts[..n])
    ensures text <= Text(parts) && (left == [] && n == |parts| ==> text == Text(parts))
  {
    TextPrefix(parts, n);
    assert parts[..|parts|] == parts;
    PrefixOfPrefix(text, left, Text(parts[..n]), Text(parts));
  }

  lemma PrefixOfPrefix(a: Bytes, b: Bytes, c: Bytes, d: Bytes)
    requires a + b == c <= d
    ensures a <= d && (b == [] ==> a == c)
  {
    assert a == c[..|a|] && c == d[..|c|];
  }

  lemma GroupedMore(parts: seq<Bytes>, groups: seq<seq<Bytes>>, group: seq<Bytes>, left: Bytes)
    requires Grouped(parts, groups, []) && |groups| < |parts| && Split(parts[|groups|], group, left)
    ensures Grouped(parts, groups + [group], left) && Flat(groups + [group]) == Flat(groups) + group
  {
    FlatOneMore(groups, group);
  }

  /** Chunk a chat's text: at most eight non-empty valid chunks within the size limit, each
      its pieces joined by newlines; the pieces spell a prefix of the parts' text, and all of
      it unless the cap was reached. A part that fits a chunk is one piece, and no chunk closed
      while there was room for what comes next. */
  method ChunkParts(
    parts: seq<Bytes>)
    returns (chunks: seq<Bytes>, ghost pieces: seq<seq<Bytes>>, ghost groups: seq<seq<Bytes>>, ghost left: Bytes)
    requires forall i | 0 <= i < |parts| :: Utf8(parts[i])
    ensures |chunks| <= MAX_CHUNKS && Closed(chunks, pieces)
    ensures TextOf(pieces) <= Text(parts)
    ensures |chunks| < MAX_CHUNKS ==> TextOf(pieces) == Text(parts)
    ensures Tight(chunks, pieces, parts)
    ensures Flat(pieces) == Flat(groups) && Grouped(parts, groups, left)
    ensures |chunks| < MAX_CHUNKS ==> |groups| == |parts| && left == []
  {
    chunks, pieces, groups, left := [], [], [], [];
    var cur: Bytes := [];
    ghost var open: seq<Bytes> := [];
    var i := 0;
    assert Flat(pieces) + open == [];
    while i < |parts|
      invariant 0 <= i <= |parts| && |groups| == i && left == [] && |chunks| < MAX_CHUNKS
      invariant Closed(chunks, pieces) && Open(cur, open) && (chunks != [] ==> open != [])
      invariant Tight(chunks, pieces, parts) && TightEnd(chunks, open, [], [], parts)
      invariant Flat(pieces) + open == Flat(groups) && Grouped(parts, groups, [])
    {
      var full;
      ghost var group;
      chunks, cur, full, pieces, open, group, left := PackPart(parts[i], chunks, cur, pieces, open, parts);
      GroupedMore(parts, groups, group, left);
      groups := groups + [group];
      if full {
        assert Flat(pieces) + open == Flat(pieces);
        SpellsPrefix(parts, groups, left, pieces);
        return;
      }
      i := i + 1;
    }
    if cur != [] {
      CloseTight(chunks, pieces, cur, open, [], [], parts);
      OneMoreChunk(chunks, pieces, cur, open);
      FlatOneMore(pieces, open);
      chunks, pieces := chunks + [cur], pieces + [open];
    } else {
      assert Flat(pieces) + open == Flat(pieces);
    }
    SpellsPrefix(parts, groups, left, pieces);
  }

  /* ---------- short chats are one chunk ---------- */

  lemma JoinMore(s: seq<Bytes>, piece: Bytes)
    requires s != []
    ensures |Join(s + [piece])| == |Join(s)| + 1 + |piece|
  {
    assert (s + [piece])[..|s|] == s;
  }

  lemma LastApart(a: seq<Bytes>, b: seq<Bytes>)
    requires b != []
    ensures b == b[..|b| - 1] + [b[|b| - 1]] && a + b == a + b[..|b| - 1] + [b[|b| - 1]]
  {
  }

  lemma {:induction false} JoinLength(a: seq<Bytes>, b: seq<Bytes>)
    requires a != [] && b != []
    ensures |Join(a + b)| == |Join(a)| + 1 + |Join(b)|
  {
    var k := |b| - 1;
    LastApart(a, b);
    JoinMore(a + b[..k], b[k]);
    if k == 0 {
      assert a + b[..0] == a;
    } else {
      JoinLength(a, b[..k]);
      JoinMore(b[..k], b[k]);
    }
  }

  lemma {:induction false} JoinGrows(a: seq<Bytes>, n: nat)
    requires 0 < n <= |a|
    ensures |Join(a[..n])| <= |Join(a)|
  {
    if n == |a| {
      assert a[..n] == a;
    } else {
      JoinLength(a[..n], a[n..]);
      assert a == a[..n] + a[n..];
    }
  }

  lemma {:induction false} WholeGroups(parts: seq<Bytes>, groups: seq<seq<Bytes>>)
    requires Grouped(parts, groups, []) && |groups| == |parts|
    requires forall i | 0 <= i < |parts| :: parts[i] != [] && |parts[i]| <= CHUNK_CHARS
    ensures Flat(groups) == parts
  {
    if groups != [] {
      var k := |groups| - 1;
      assert Grouped(parts[..k], groups[..k], []) by {
        assert forall i | 0 <= i < k :: Split(parts[i], groups[..k][i], []);
      }
      WholeGroups(parts[..k], groups[..k]);
      assert Split(parts[k], groups[k], []);
      assert groups[k] == [parts[k]];
    }
  }

  lemma PartIsShort(parts: seq<Bytes>, i: nat)
    requires i < |parts| && |Join(parts)| <= CHUNK_CHARS
    ensures |parts[i]| <= CHUNK_CHARS
  {
    JoinGrows(parts, i + 1);
    assert parts[..i + 1][i] == parts[i];
  }

  lemma FirstTwo(chunks: seq<Bytes>, pieces: seq<seq<Bytes>>, parts: seq<Bytes>)
    requires Closed(chunks, pieces) && |pieces| >= 2 && Tight(chunks, pieces, parts)
    ensures |Join(Flat(pieces))| > CHUNK_CHARS
  {
    assert GoodChunk(chunks[0], pieces[0]) && GoodChunk(chunks[1], pieces[1]);
    var a, b := pieces[0], [pieces[1][0]];
    StartsWith(pieces);
    JoinLength(a, b);
    assert Flat(pieces)[..|a + b|] == a + b;
    JoinGrows(Flat(pieces), |a + b|);
    assert NoRoom(chunks[0], pieces[1][0], parts);
  }

  lemma {:induction false} StartsWith(pieces: seq<seq<Bytes>>)
    requires |pieces| >= 2 && pieces[1] != []
    ensures pieces[0] + [pieces[1][0]] <= Flat(pieces)
  {
    var k := |pieces| - 1;
    if k == 1 {
      assert pieces[..1][..0] == [];
      assert Flat(pieces[..1]) == pieces[0];
    } else {
      StartsWith(pieces[..k]);
    }
  }

  /** Parts that fit one chunk with their newlines are one chunk. */
  lemma ShortChatIsOneChunk(
    parts: seq<Bytes>, chunks: seq<Bytes>, pieces: seq<seq<Bytes>>, groups: seq<seq<Bytes>>)
    requires Closed(chunks, pieces) && Tight(chunks, pieces, parts)
    requires Flat(pieces) == Flat(groups) && Grouped(parts, groups, []) && |groups| == |parts|
    requires parts != [] && |Join(parts)| <= 2000 && forall i | 0 <= i < |parts| :: parts[i] != []
    ensures chunks == [Join(parts)]
  {
    forall i | 0 <= i < |parts|
      ensures |parts[i]| <= CHUNK_CHARS
    {
      PartIsShort(parts, i);
    }
    WholeGroups(parts, groups);
    OneChunkHoldsAll(parts, chunks, pieces);
  }

  lemma OneChunkHoldsAll(parts: seq<Bytes>, chunks: seq<Bytes>, pieces: seq<seq<Bytes>>)
    requires Closed(chunks, pieces) && Tight(chunks, pieces, parts) && Flat(pieces) == parts
    requires parts != [] && |Join(parts)| <= CHUNK_CHARS
    ensures chunks == [Join(parts)]
  {
    if |pieces| >= 2 {
      FirstTwo(chunks, pieces, parts);
      assert false;
    }
    assert pieces != [] && pieces[..0] == [];
    assert pieces == [pieces[0]] && Flat(pieces) == pieces[0];
    assert GoodChunk(chunks[0], pieces[0]);
  }
}
