/** Decoding a stored index object: the checks that bound it, the pending flag it infers,
    and how its acceptance relates to the tables the mutators can reach. */
module IndexCodec {
  import opened Prelude
  import opened InvertedIndex

  const FORMAT_VERSION := 1
  const MAX_SERIALIZED_SLOTS := 2 * MAX_CHATS
  const MAX_REINDEX_CURSOR_LENGTH := 4096

  /** A rebuild checkpoint: cursor length, target revision, whether its start time parses. */
  datatype Progress = Progress(cursorLength: nat, target: int, startParses: bool)

  /** The parsed fields of an index object, before any check. */
  datatype Raw = Raw(
    version: int, dims: int, incomplete: bool, reindex: Option<Progress>,
    slots: seq<Id>, chats: map<Id, Entry>, postings: map<Token, seq<int>>)

  /** Decoding ends in an index with its tombstone count, an error, or an index-out-of-range
      panic in the last loop. */
  datatype Outcome = Decoded(raw: Raw, dead: nat) | Rejected | Crashed

  /* ---------- what is accepted ---------- */

  predicate SlotChecks(slots: seq<Id>, chats: map<Id, Entry>, s: int)
    requires 0 <= s < |slots|
  {
    var id := slots[s];
    id == TOMBSTONE || (id in chats && 0 <= chats[id].slot < |slots| && slots[chats[id].slot] == id)
  }

  ghost predicate SlotTableChecks(slots: seq<Id>, chats: map<Id, Entry>) {
    && (forall s {:trigger SlotChecks(slots, chats, s)} | 0 <= s < |slots| :: SlotChecks(slots, chats, s))
    && |Live(slots)| == |chats|
    && (|slots| - |Live(slots)| < COMPACTION_MIN_DEAD || |slots| - |Live(slots)| <= |Live(slots)|)
  }

  predicate ProgressChecks(reindex: Option<Progress>, incomplete: bool) {
    reindex.Some? ==>
      var p := reindex.value;
      incomplete && 0 < p.cursorLength <= MAX_REINDEX_CURSOR_LENGTH && p.target >= 0 && p.startParses
  }

  ghost predicate EntryChecks(e: Entry, dims: int) {
    && e.rev >= 0 && ValidKeyId(e.key) && (!e.pending ==> e.key.NoKey?)
    && |e.vectors| <= MAX_CHUNKS_PER_CHAT
    && forall i | 0 <= i < |e.vectors| :: e.vectors[i] != [] && |e.vectors[i]| == dims
  }

  /** Every (token, slot) posting. */
  ghost function Pairs(postings: map<Token, seq<int>>): set<(Token, int)> {
    set t, s | t in postings && s in postings[t] :: (t, s)
  }

  ghost predicate PostingChecks(postings: map<Token, seq<int>>, n: nat) {
    PostingsOK(postings, n) && |Pairs(postings)| <= n * MAX_TOKENS_PER_CHAT
  }

  ghost predicate Accepts(r: Raw) {
    && r.version == FORMAT_VERSION
    && |r.slots| <= MAX_SERIALIZED_SLOTS
    && SlotTableChecks(r.slots, r.chats)
    && |r.chats| <= MAX_CHATS
    && ProgressChecks(r.reindex, r.incomplete)
    && (forall id | id in r.chats :: EntryChecks(r.chats[id], r.dims))
    && PostingChecks(r.postings, |r.slots|)
  }

  /** Some entry without vectors points outside the slot table. */
  ghost predicate Stray(r: Raw) {
    exists id | id in r.chats :: r.chats[id].vectors == [] && !(0 <= r.chats[id].slot < |r.slots|)
  }

  /** An entry that is posted somewhere but has no vectors is waiting for them. */
  ghost function Settled(e: Entry, postings: map<Token, seq<int>>): Entry {
    if e.vectors == [] && TokensAt(postings, e.slot) != {} then e.(pending := true) else e
  }

  ghost function SettledAll(chats: map<Id, Entry>, postings: map<Token, seq<int>>): map<Id, Entry> {
    map id | id in chats :: Settled(chats[id], postings)
  }

  lemma SettledIs(chats: map<Id, Entry>, postings: map<Token, seq<int>>, out: map<Id, Entry>)
    requires out.Keys == chats.Keys && forall id | id in chats :: out[id] == Settled(chats[id], postings)
    ensures out == SettledAll(chats, postings)
  {
    var m := SettledAll(chats, postings);
    assert m.Keys == out.Keys;
    assert forall id | id in m :: m[id] == out[id];
  }

  ghost function Inferred(r: Raw): Raw {
    r.(chats := SettledAll(r.chats, r.postings))
  }

  /* ---------- the loops ---------- */

  method CheckSlots(slots: seq<Id>, chats: map<Id, Entry>) returns (ok: bool, dead: nat)
    ensures ok <==> SlotTableChecks(slots, chats)
    ensures ok ==> dead == |slots| - |Live(slots)|
  {
    var live;
    ok, live, dead := CheckLinks(slots, chats);
    ok := ok && live == |chats| && !(dead >= COMPACTION_MIN_DEAD && dead > live);
  }

  method CheckLinks(slots: seq<Id>, chats: map<Id, Entry>) returns (ok: bool, live: nat, dead: nat)
    ensures ok <==> forall s {:trigger SlotChecks(slots, chats, s)} | 0 <= s < |slots| :: SlotChecks(slots, chats, s)
    ensures ok ==> live == |Live(slots)| && dead == |slots| - live
  {
    live, dead := 0, 0;
    var s := 0;
    while s < |slots|
      invariant 0 <= s <= |slots|
      invariant live == Rank(slots, s) && dead == s - live
      invariant forall k {:trigger SlotChecks(slots, chats, k)} | 0 <= k < s :: SlotChecks(slots, chats, k)
    {
      RankStep(slots, s);
      if slots[s] == TOMBSTONE {
        dead := dead + 1;
      } else {
        live := live + 1;
        if !SlotChecks(slots, chats, s) {
          return false, live, dead;
        }
      }
      s := s + 1;
    }
    assert slots[..s] == slots;
    ok := true;
  }

  method CheckVectors(vectors: seq<Vector>, dims: int) returns (ok: bool)
    ensures ok <==> forall i | 0 <= i < |vectors| :: vectors[i] != [] && |vectors[i]| == dims
  {
    var i := 0;
    while i < |vectors|
      invariant 0 <= i <= |vectors|
      invariant forall k | 0 <= k < i :: vectors[k] != [] && |vectors[k]| == dims
    {
      if |vectors[i]| == 0 || |vectors[i]| != dims {
        return false;
      }
      i := i + 1;
    }
    ok := true;
  }

  method CheckEntries(chats: map<Id, Entry>, dims: int) returns (ok: bool)
    ensures ok <==> forall id | id in chats :: EntryChecks(chats[id], dims)
  {
    var todo := chats.Keys;
    while todo != {}
      invariant todo <= chats.Keys
      invariant forall id | id in chats && id !in todo :: EntryChecks(chats[id], dims)
      decreases todo
    {
      SomeMember(todo);
      var id :| id in todo;
      var e := chats[id];
      var fits := CheckVectors(e.vectors, dims);
      if e.rev < 0 || !ValidKeyId(e.key) || (!e.pending && e.key.KeyTag?) ||
          |e.vectors| > MAX_CHUNKS_PER_CHAT || !fits {
        assert !EntryChecks(chats[id], dims);
        return false;
      }
      todo := todo - {id};
    }
    ok := true;
  }

  /** The postings of some tokens only. */
  ghost function PairsIn(postings: map<Token, seq<int>>, keys: set<Token>): set<(Token, int)> {
    set t, s | t in postings && t in keys && s in postings[t] :: (t, s)
  }

  ghost function Row(t: Token, list: seq<int>): set<(Token, int)> {
    set s | s in list :: (t, s)
  }

  lemma {:induction false} RowSize(t: Token, list: seq<int>)
    requires Ascending(list)
    ensures |Row(t, list)| == |list|
  {
    if list == [] {
      assert Row(t, list) == {};
    } else {
      var k := |list| - 1;
      RowSize(t, list[..k]);
      assert list == list[..k] + [list[k]];
      assert Row(t, list) == Row(t, list[..k]) + {(t, list[k])};
    }
  }

  lemma PairsGrow(postings: map<Token, seq<int>>, keys: set<Token>, t: Token)
    requires t in postings && t !in keys && Ascending(postings[t])
    ensures |PairsIn(postings, keys + {t})| == |PairsIn(postings, keys)| + |postings[t]|
  {
    RowSize(t, postings[t]);
    assert PairsIn(postings, keys + {t}) == PairsIn(postings, keys) + Row(t, postings[t]);
    assert PairsIn(postings, keys) !! Row(t, postings[t]);
  }

  lemma SubsetSize<T>(a: set<T>, b: set<T>)
    requires a <= b
    ensures |a| <= |b|
  {
    assert b == a + (b - a);
  }

  /** A strictly rising list of slots cannot be longer than the table. */
  lemma {:induction false} RisingFits(list: seq<int>, k: nat)
    requires Ascending(list) && k < |list| && list[0] >= 0
    ensures list[k] >= k
  {
    if k > 0 {
      RisingFits(list, k - 1);
    }
  }

  method CheckList(list: seq<int>, n: nat, total: nat, max: nat, posted: seq<bool>)
    returns (ok: bool, newTotal: nat, newPosted: seq<bool>)
    requires |posted| == n && total <= max
    ensures ok <==> ListOK(list, n) && total + |list| <= max
    ensures |newPosted| == n
    ensures ok ==> newTotal == total + |list|
    ensures ok ==> forall s | 0 <= s < n :: newPosted[s] <==> posted[s] || s in list
  {
    ok, newTotal, newPosted := false, total, posted;
    if |list| == 0 {
      return;
    }
    if |list| > n {
      assert !ListOK(list, n) by {
        if ListOK(list, n) {
          RisingFits(list, |list| - 1);
        }
      }
      return;
    }
    var i, prev := 0, -1;
    while i < |list|
      invariant 0 <= i <= |list|
      invariant prev == if i == 0 then -1 else list[i - 1]
      invariant Ascending(list[..i]) && forall k | 0 <= k < i :: 0 <= list[k] < n
      invariant newTotal == total + i <= max
      invariant |newPosted| == n
      invariant forall s | 0 <= s < n :: newPosted[s] <==> posted[s] || s in list[..i]
    {
      var s := list[i];
      if s < 0 || s >= n || s <= prev {
        return;
      }
      prev := s;
      newPosted := newPosted[s := true];
      newTotal := newTotal + 1;
      if newTotal > max {
        return;
      }
      assert list[..i + 1] == list[..i] + [s];
      i := i + 1;
    }
    assert list[..i] == list;
    ok := true;
  }

  method CheckPostings(postings: map<Token, seq<int>>, n: nat) returns (ok: bool, posted: seq<bool>)
    ensures ok <==> PostingChecks(postings, n)
    ensures ok ==> |posted| == n && forall s | 0 <= s < n :: posted[s] <==> TokensAt(postings, s) != {}
  {
    var max := n * MAX_TOKENS_PER_CHAT;
    var total := 0;
    posted := seq(n, _ => false);
    var todo := postings.Keys;
    ghost var done: set<Token> := {};
    assert PairsIn(postings, done) == {};
    while todo != {}
      invariant done + todo == postings.Keys && done !! todo
      invariant forall t | t in done :: ValidToken(t) && ListOK(postings[t], n)
      invariant total == |PairsIn(postings, done)| <= max
      invariant |posted| == n && forall s | 0 <= s < n :: posted[s] <==> exists t :: t in done && s in postings[t]
      decreases todo
    {
      var t :| t in todo;
      if !ValidToken(t) {
        return false, posted;
      }
      var fits;
      ghost var before := posted;
      fits, total, posted := CheckList(postings[t], n, total, max, posted);
      if !fits {
        if ListOK(postings[t], n) {
          PairsGrow(postings, done, t);
          SubsetSize(PairsIn(postings, done + {t}), Pairs(postings));
        }
        return false, posted;
      }
      PairsGrow(postings, done, t);
      todo, done := todo - {t}, done + {t};
    }
    assert PairsIn(postings, done) == Pairs(postings);
    assert forall s | 0 <= s < n :: TokensAt(postings, s) != {} <==> exists t :: t in done && s in postings[t];
    ok := true;
  }

  /** The last loop reads the posted table at the entry's own slot, unchecked. */
  method InferPending(chats: map<Id, Entry>, postings: map<Token, seq<int>>, posted: seq<bool>)
    returns (settled: Option<map<Id, Entry>>)
    requires forall s | 0 <= s < |posted| :: posted[s] <==> TokensAt(postings, s) != {}
    ensures settled.None? <==> exists id | id in chats :: chats[id].vectors == [] && !(0 <= chats[id].slot < |posted|)
    ensures settled.Some? ==> settled.value == SettledAll(chats, postings)
  {
    var out := chats;
    var todo := chats.Keys;
    while todo != {}
      invariant todo <= chats.Keys && out.Keys == chats.Keys
      invariant forall id | id in todo :: out[id] == chats[id]
      invariant forall id | id in chats && id !in todo :: out[id] == Settled(chats[id], postings)
      invariant forall id | id in chats && id !in todo :: chats[id].vectors == [] ==> 0 <= chats[id].slot < |posted|
      decreases todo
    {
      SomeMember(todo);
      var id :| id in todo;
      var e := chats[id];
      if |e.vectors| == 0 {
        if !(0 <= e.slot < |posted|) {
          return None;
        }
        if posted[e.slot] {
          out := out[id := e.(pending := true)];
        }
      }
      todo := todo - {id};
    }
    SettledIs(chats, postings, out);
    settled := Some(out);
  }

  /** Decode: rejected exactly when some check fails; what is accepted keeps everything and
      only gains inferred pending flags, unless an entry is astray. */
  method Decode(r: Raw) returns (o: Outcome)
    ensures o.Rejected? <==> !Accepts(r)
    ensures o.Crashed? <==> Accepts(r) && Stray(r)
    ensures o.Decoded? ==> o.raw == Inferred(r) && o.dead == |r.slots| - |Live(r.slots)|
  {
    if r.version != FORMAT_VERSION || |r.slots| > MAX_SERIALIZED_SLOTS {
      return Rejected;
    }
    var slotsFit, dead := CheckSlots(r.slots, r.chats);
    if !slotsFit || |r.chats| > MAX_CHATS || !ProgressChecks(r.reindex, r.incomplete) {
      return Rejected;
    }
    var entriesFit := CheckEntries(r.chats, r.dims);
    if !entriesFit {
      return Rejected;
    }
    var postingsFit, posted := CheckPostings(r.postings, |r.slots|);
    if !postingsFit {
      return Rejected;
    }
    var settled := InferPending(r.chats, r.postings, posted);
    if settled.None? {
      return Crashed;
    }
    o := Decoded(r.(chats := settled.value), dead);
  }

  /* ---------- repeated live ids ---------- */

  ghost predicate DistinctLive(slots: seq<Id>) {
    forall s, u | 0 <= s < u < |slots| && slots[s] == slots[u] :: slots[s] == TOMBSTONE
  }

  ghost function LiveIds(slots: seq<Id>): set<Id> {
    set id | id in slots && id != TOMBSTONE
  }

  /** Live slots outnumber live ids exactly when an id repeats. */
  lemma {:induction false} LiveIdsCount(slots: seq<Id>)
    ensures |LiveIds(slots)| <= |Live(slots)|
    ensures |LiveIds(slots)| == |Live(slots)| <==> DistinctLive(slots)
  {
    if slots == [] {
      assert LiveIds(slots) == {};
    } else {
      var k := |slots| - 1;
      var rest, id := slots[..k], slots[k];
      LiveIdsCount(rest);
      assert slots == rest + [id];
      assert LiveIds(slots) == if id == TOMBSTONE then LiveIds(rest) else LiveIds(rest) + {id};
    }
  }

  /** Every entry is a named chat, and its slot is in range and names it back. */
  ghost predicate PointsBack(slots: seq<Id>, chats: map<Id, Entry>) {
    forall id | id in chats :: id != TOMBSTONE && 0 <= chats[id].slot < |slots| && slots[chats[id].slot] == id
  }

  lemma CheckedLiveIds(slots: seq<Id>, chats: map<Id, Entry>, id: Id)
    requires forall s {:trigger SlotChecks(slots, chats, s)} | 0 <= s < |slots| :: SlotChecks(slots, chats, s)
    requires id in LiveIds(slots)
    ensures id in chats && id != TOMBSTONE && 0 <= chats[id].slot < |slots| && slots[chats[id].slot] == id
  {
    var s :| 0 <= s < |slots| && slots[s] == id;
    assert SlotChecks(slots, chats, s);
  }

  lemma SameSize(a: set<Id>, b: set<Id>)
    requires a <= b && |b| <= |a|
    ensures a == b
  {
    assert b == a + (b - a);
    SomeMember(b - a);
  }

  /** For a slot table that passes the checks, every entry points back exactly when no live
      id repeats. */
  lemma PointsBackIffDistinct(slots: seq<Id>, chats: map<Id, Entry>)
    requires SlotTableChecks(slots, chats)
    ensures PointsBack(slots, chats) <==> DistinctLive(slots)
  {
    var live := LiveIds(slots);
    LiveIdsCount(slots);
    assert |chats.Keys| == |chats|;
    forall id | id in live
      ensures id in chats && id != TOMBSTONE && 0 <= chats[id].slot < |slots| && slots[chats[id].slot] == id
    {
      CheckedLiveIds(slots, chats, id);
    }
    if DistinctLive(slots) {
      SameSize(live, chats.Keys);
    }
    if PointsBack(slots, chats) {
      forall id | id in chats
        ensures id in live
      {
        assert slots[chats[id].slot] == id;
      }
      assert live == chats.Keys;
    }
  }

  /** The checks alone let a repeated id through: here chat 2's slot is out of range, the
      object is accepted, and decoding panics. */
  lemma RepeatedIdCrashes()
    ensures Accepts(REPEATED) && Stray(REPEATED) && !DistinctLive(REPEATED.slots)
  {
    var slots := REPEATED.slots;
    assert Pairs(REPEATED.postings) == {};
    assert slots[0] == slots[1];
    assert REPEATED.chats[2].slot == 7 && REPEATED.chats[2].vectors == [];
  }

  const BLANK := Entry(0, 0, 0, [], false, NoKey)
  const REPEATED := Raw(FORMAT_VERSION, 0, false, None, [1, 1], map[1 := BLANK, 2 := BLANK.(slot := 7)], map[])

  /* ---------- reachable tables ---------- */

  datatype Header = Header(incomplete: bool, reindex: Option<Progress>)

  function Encoded(t: Table, h: Header): Raw {
    Raw(FORMAT_VERSION, t.dims, h.incomplete, h.reindex, t.slots, t.chats, t.postings)
  }

  ghost function PairsBelow(postings: map<Token, seq<int>>, n: nat): set<(Token, int)> {
    set t, s | t in postings && s in postings[t] && 0 <= s < n :: (t, s)
  }

  ghost function Tagged(ts: set<Token>, s: int): set<(Token, int)> {
    set t | t in ts :: (t, s)
  }

  lemma {:induction false} TagSize(ts: set<Token>, s: int)
    ensures |Tagged(ts, s)| == |ts|
  {
    if ts == {} {
      assert Tagged(ts, s) == {};
    } else {
      var t :| t in ts;
      TagSize(ts - {t}, s);
      assert Tagged(ts, s) == Tagged(ts - {t}, s) + {(t, s)};
    }
  }

  /** Counting postings by slot instead of by token. */
  lemma {:induction false} PostingsBySlot(postings: map<Token, seq<int>>, n: nat)
    requires Bounded(postings, n)
    ensures |PairsBelow(postings, n)| <= n * MAX_TOKENS_PER_CHAT
  {
    if n == 0 {
      assert PairsBelow(postings, n) == {};
    } else {
      PostingsBySlot(postings, n - 1);
      TagSize(TokensAt(postings, n - 1), n - 1);
      assert PairsBelow(postings, n) == PairsBelow(postings, n - 1) + Tagged(TokensAt(postings, n - 1), n - 1);
    }
  }

  lemma PostingsFit(postings: map<Token, seq<int>>, n: nat)
    requires PostingsOK(postings, n) && Bounded(postings, n)
    ensures PostingChecks(postings, n)
  {
    PostingsBySlot(postings, n);
    forall t, s | t in postings && s in postings[t]
      ensures 0 <= s < n
    {
      assert ListOK(postings[t], n);
    }
    assert PairsBelow(postings, n) == Pairs(postings);
  }

  lemma SlotTableFits(t: Table)
    requires TableOK(t)
    ensures SlotTableChecks(t.slots, t.chats) && |t.slots| <= MAX_SERIALIZED_SLOTS
    ensures PointsBack(t.slots, t.chats)
  {
    CompactedSlotsOK(t.slots, t.chats);
  }

  /** Every table the mutators can reach is accepted, and decodes without a panic. */
  lemma ReachableIsAccepted(t: Table, h: Header)
    requires TableOK(t) && ProgressChecks(h.reindex, h.incomplete)
    ensures Accepts(Encoded(t, h)) && !Stray(Encoded(t, h)) && DistinctLive(t.slots)
  {
    SlotTableFits(t);
    PostingsFit(t.postings, |t.slots|);
    PointsBackIffDistinct(t.slots, t.chats);
  }

  /** Decoding what was decoded changes nothing more. */
  lemma DecodeIsIdempotent(r: Raw)
    requires Accepts(r)
    ensures Accepts(Inferred(r)) && Inferred(Inferred(r)) == Inferred(r)
    ensures Stray(Inferred(r)) <==> Stray(r)
  {
    var q := Inferred(r);
    assert q.chats.Keys == r.chats.Keys && |q.chats.Keys| == |q.chats| && |r.chats.Keys| == |r.chats|;
    SettledSlotsPass(r.slots, r.chats, r.postings);
    forall id | id in q.chats
      ensures EntryChecks(q.chats[id], q.dims)
    {
      assert EntryChecks(r.chats[id], r.dims);
    }
    SettledTwice(r.chats, r.postings);
    if Stray(r) {
      var id :| id in r.chats && r.chats[id].vectors == [] && !(0 <= r.chats[id].slot < |r.slots|);
      assert id in q.chats && q.chats[id].vectors == [];
    }
  }

  lemma SettledTwice(chats: map<Id, Entry>, postings: map<Token, seq<int>>)
    ensures SettledAll(SettledAll(chats, postings), postings) == SettledAll(chats, postings)
  {
    SettledIs(SettledAll(chats, postings), postings, SettledAll(chats, postings));
  }

  lemma SettledSlotsPass(slots: seq<Id>, chats: map<Id, Entry>, postings: map<Token, seq<int>>)
    requires SlotTableChecks(slots, chats)
    ensures SlotTableChecks(slots, SettledAll(chats, postings))
  {
    var q := SettledAll(chats, postings);
    assert q.Keys == chats.Keys && |q.Keys| == |q| && |chats.Keys| == |chats|;
    forall s | 0 <= s < |slots|
      ensures SlotChecks(slots, q, s)
    {
      assert SlotChecks(slots, chats, s);
    }
  }

  /** A load after a store gives back a reachable table with the same documents, differing
      only in pending flags: an entry posted somewhere without vectors is pending. */
  lemma StoreThenLoad(t: Table)
    requires TableOK(t)
    ensures TableOK(Loaded(t)) && Docs(Loaded(t)) == Docs(t)
    ensures forall id | id in t.chats ::
              var missing := t.chats[id].vectors == [] && Docs(t)[id] != {};
              Meta(Loaded(t))[id] == Meta(t)[id].(pending := t.chats[id].pending || missing)
  {
    LoadedOK(t);
    LoadedDocs(t);
  }

  ghost function Loaded(t: Table): Table {
    t.(chats := SettledAll(t.chats, t.postings))
  }

  lemma LoadedOK(t: Table)
    requires TableOK(t)
    ensures TableOK(Loaded(t))
  {
    var u := Loaded(t);
    assert u.chats.Keys == t.chats.Keys && |u.chats.Keys| == |u.chats| && |t.chats.Keys| == |t.chats|;
    forall id | id in u.chats
      ensures EntryOK(u.chats[id], u.dims)
    {
      assert EntryOK(t.chats[id], t.dims);
    }
  }

  lemma LoadedDocs(t: Table)
    ensures Docs(Loaded(t)) == Docs(t)
  {
    assert Docs(Loaded(t)).Keys == Docs(t).Keys;
    assert forall id | id in t.chats :: Docs(Loaded(t))[id] == Docs(t)[id];
  }

  /** Storing an index that any mutations built from a fresh one and decoding it again
      succeeds, and gives the documents the plain store holds. */
  method StoreReplay(ops: seq<Op>, h: Header) returns (o: Outcome)
    requires ProgressChecks(h.reindex, h.incomplete)
    ensures o.Decoded? && o.raw.dims >= 0
    ensures
      var t := Table(o.raw.slots, o.raw.chats, o.raw.postings, o.raw.dims, o.dead);
      TableOK(t) && Docs(t) == PlayAll(Meaning(EMPTY_TABLE), ops).docs
  {
    var ix := Replay(ops);
    ghost var t := ix.View();
    ReachableIsAccepted(t, h);
    StoreThenLoad(t);
    CompactedSlotsOK(t.slots, t.chats);
    o := Decode(Encoded(Table(ix.slots, ix.chats, ix.postings, ix.dims, ix.dead), h));
    assert Table(o.raw.slots, o.raw.chats, o.raw.postings, o.raw.dims, o.dead) == Loaded(t);
  }

  /** What an accepted object without repeated ids guarantees: every table invariant except
      the per-slot token bound, of which only the total is checked. */
  lemma AcceptedIsSound(r: Raw)
    requires Accepts(r) && DistinctLive(r.slots)
    ensures SlotsOK(r.slots, r.chats) && PostingsOK(r.postings, |r.slots|) && !Stray(r)
    ensures forall id | id in r.chats && r.chats[id].vectors != [] :: r.dims > 0
  {
    PointsBackIffDistinct(r.slots, r.chats);
    forall s | 0 <= s < |r.slots| && r.slots[s] != TOMBSTONE
      ensures r.slots[s] in r.chats && r.chats[r.slots[s]].slot == s
    {
      assert SlotChecks(r.slots, r.chats, s);
    }
    forall id | id in r.chats && r.chats[id].vectors != []
      ensures r.dims > 0
    {
      assert EntryChecks(r.chats[id], r.dims);
      assert r.chats[id].vectors[0] != [];
    }
  }

  /** A checkpoint only on a partial index, with a cursor of bounded length, a target and a
      start time that parses. */
  predicate CheckpointFits(r: Raw) {
    r.reindex.None? ||
    (r.incomplete && 1 <= r.reindex.value.cursorLength <= 4096 && r.reindex.value.target >= 0 &&
     r.reindex.value.startParses)
  }

  ghost function TableOf(r: Raw): Table
    requires r.dims >= 0
  {
    LiveFits(r.slots);
    Table(r.slots, r.chats, r.postings, r.dims, |r.slots| - |Live(r.slots)|)
  }

  lemma LiveFits(slots: seq<Id>)
    ensures |Live(slots)| <= |slots|
  {
  }

  lemma AcceptedTable(r: Raw)
    requires Accepts(r) && r.dims >= 0 && DistinctLive(r.slots) && Bounded(r.postings, |r.slots|)
    ensures TableOK(TableOf(r))
  {
    AcceptedIsSound(r);
    forall id | id in r.chats
      ensures EntryOK(r.chats[id], r.dims)
    {
      assert EntryChecks(r.chats[id], r.dims);
      assert forall i | 0 <= i < |r.chats[id].vectors| :: r.chats[id].vectors[i] != [];
    }
  }

  /** But for repeated live ids and the token bound of a single slot, which it does not look
      at, the decoder accepts exactly the tables the mutators keep. */
  lemma AcceptedExactly(r: Raw)
    requires r.dims >= 0 && DistinctLive(r.slots) && Bounded(r.postings, |r.slots|)
    ensures Accepts(r) <==> r.version == 1 && TableOK(TableOf(r)) && CheckpointFits(r)
  {
    if Accepts(r) {
      AcceptedTable(r);
    } else if r.version == 1 && TableOK(TableOf(r)) && CheckpointFits(r) {
      ReachableIsAccepted(TableOf(r), Header(r.incomplete, r.reindex));
    }
  }
}
