/** The chunk-cached archive reader: a random-access read over staged chunks that behaves
    like one flat byte array, whatever the cache holds. */
module ArchiveReader {
  import opened Prelude
  import Staging

  const CHUNK := Staging.MAX_CHUNK_BYTES
  const MAX_CACHED_CHUNKS := 8

  datatype ReadError = NoError | Eof | NegativeOffset | ChunkUnavailable

  /** The staged chunk at an index is present and has the length the layout gives it. */
  predicate Good(staged: map<int, Bytes>, total: int, i: int) {
    i in staged && |staged[i]| == Staging.ExpectedLen(total, i)
  }

  /** The archive's byte at a position, read through its chunk. */
  ghost predicate ByteAt(staged: map<int, Bytes>, total: int, pos: nat, b: byte) {
    var i := pos / CHUNK;
    Good(staged, total, i) && pos % CHUNK < |staged[i]| && staged[i][pos % CHUNK] == b
  }

  ghost predicate CacheOK(cache: map<int, Bytes>, order: seq<int>, staged: map<int, Bytes>, total: int) {
    && |order| <= MAX_CACHED_CHUNKS
    && (forall i | i in cache :: i in order && Good(staged, total, i) && cache[i] == staged[i])
  }

  /** A cache and its eviction order. */
  datatype Held = Held(cache: map<int, Bytes>, order: seq<int>)

  ghost predicate HeldOK(h: Held, staged: map<int, Bytes>, total: int) {
    CacheOK(h.cache, h.order, staged, total)
  }

  /* ---------- what a reader does to the cache while it has the lock ---------- */

  function Dropped(order: seq<int>, idx: int): seq<int> {
    if order == [] then [] else if order[0] == idx then order[1..] else [order[0]] + Dropped(order[1..], idx)
  }

  /** A hit moves its index to the back of the eviction order. */
  function Touched(order: seq<int>, idx: int): seq<int> {
    if idx in order then Dropped(order, idx) + [idx] else order
  }

  /** `after` is `before` with one occurrence of `idx` moved to the back. */
  ghost predicate MovedToBack(before: seq<int>, after: seq<int>, idx: int) {
    exists i | 0 <= i < |before| :: before[i] == idx && after == before[..i] + before[i + 1..] + [idx]
  }

  lemma {:induction false} DroppedAt(order: seq<int>, i: nat)
    requires i < |order| && forall k | 0 <= k < i :: order[k] != order[i]
    ensures Dropped(order, order[i]) == order[..i] + order[i + 1..]
  {
    if i > 0 {
      DroppedAt(order[1..], i - 1);
      assert order[..i] == [order[0]] + order[1..][..i - 1];
      assert order[1..][i..] == order[i + 1..];
    }
  }

  /** A hit keeps the same indices. */
  lemma {:induction false} TouchedSame(order: seq<int>, idx: int)
    ensures |Touched(order, idx)| == |order|
    ensures forall x :: x in Touched(order, idx) <==> x in order
  {
    if idx in order {
      var i: nat := FirstAt(order, idx);
      DroppedAt(order, i);
      assert order == order[..i] + [order[i]] + order[i + 1..];
    }
  }

  lemma {:induction false} FirstAt(order: seq<int>, idx: int) returns (i: nat)
    requires idx in order
    ensures i < |order| && order[i] == idx && forall k | 0 <= k < i :: order[k] != idx
  {
    if order[0] == idx {
      i := 0;
    } else {
      var j := FirstAt(order[1..], idx);
      i := j + 1;
    }
  }

  function Evicted(h: Held): Held
    decreases |h.order|
  {
    if |h.order| <= MAX_CACHED_CHUNKS then h else Evicted(Held(h.cache - {h.order[0]}, h.order[1..]))
  }

  /** A fetched chunk goes in, and the oldest indices go out. */
  function Inserted(h: Held, idx: int, chunk: Bytes): Held {
    Evicted(Held(h.cache[idx := chunk], h.order + [idx]))
  }

  ghost predicate Faithful(h: Held, staged: map<int, Bytes>, total: int) {
    forall i | i in h.cache :: i in h.order && Good(staged, total, i) && h.cache[i] == staged[i]
  }

  lemma {:induction false} EvictedOK(h: Held, staged: map<int, Bytes>, total: int)
    requires Faithful(h, staged, total)
    ensures HeldOK(Evicted(h), staged, total)
    decreases |h.order|
  {
    if |h.order| > MAX_CACHED_CHUNKS {
      var rest := Held(h.cache - {h.order[0]}, h.order[1..]);
      forall i | i in rest.cache
        ensures i in rest.order
      {
        var k :| 0 <= k < |h.order| && h.order[k] == i;
        assert rest.order[k - 1] == i;
      }
      EvictedOK(rest, staged, total);
    }
  }

  lemma InsertedOK(h: Held, idx: int, staged: map<int, Bytes>, total: int)
    requires HeldOK(h, staged, total) && Good(staged, total, idx)
    ensures HeldOK(Inserted(h, idx, staged[idx]), staged, total)
  {
    EvictedOK(Held(h.cache[idx := staged[idx]], h.order + [idx]), staged, total);
  }

  /** One stretch of another reader under the lock: a hit, or the insertion of a chunk that
      was fetched without it. */
  datatype Section = Hit(idx: int) | Fetched(idx: int)

  function After(h: Held, s: Section, staged: map<int, Bytes>, total: int): Held {
    match s
    case Hit(idx) => if idx in h.cache then h.(order := Touched(h.order, idx)) else h
    case Fetched(idx) => if Good(staged, total, idx) then Inserted(h, idx, staged[idx]) else h
  }

  function AfterAll(h: Held, sections: seq<Section>, staged: map<int, Bytes>, total: int): Held
    decreases |sections|
  {
    if sections == [] then h else AfterAll(After(h, sections[0], staged, total), sections[1..], staged, total)
  }

  /** Whatever other readers do between two stretches of this one, they leave a cache of
      staged chunks within its bound. */
  lemma {:induction false} OthersKeepOrder(h: Held, sections: seq<Section>, staged: map<int, Bytes>, total: int)
    requires HeldOK(h, staged, total)
    ensures HeldOK(AfterAll(h, sections, staged, total), staged, total)
    decreases |sections|
  {
    if sections != [] {
      match sections[0] {
        case Hit(idx) => TouchedSame(h.order, idx);
        case Fetched(idx) =>
          if Good(staged, total, idx) {
            InsertedOK(h, idx, staged, total);
          }
      }
      OthersKeepOrder(After(h, sections[0], staged, total), sections[1..], staged, total);
    }
  }

  /* ---------- what stays cached ---------- */

  /** No index is listed twice, and what is listed is cached: so it is while one reader runs. */
  ghost predicate Tidy(h: Held) {
    && (forall i, j | 0 <= i < j < |h.order| :: h.order[i] != h.order[j])
    && (forall x | x in h.order :: x in h.cache)
  }

  /** One read of a chunk by the only reader. */
  function ReadOne(h: Held, idx: int, staged: map<int, Bytes>, total: int): Held {
    After(h, if idx in h.cache then Hit(idx) else Fetched(idx), staged, total)
  }

  function ReadEach(h: Held, asked: seq<int>, staged: map<int, Bytes>, total: int): Held
    decreases |asked|
  {
    if asked == [] then h
    else ReadOne(ReadEach(h, asked[..|asked| - 1], staged, total), asked[|asked| - 1], staged, total)
  }

  /** `x` is among the last `n` in the eviction order. */
  ghost predicate AmongLast(h: Held, x: int, n: nat) {
    exists p :: 0 <= p < |h.order| && h.order[p] == x && |h.order| - p <= n
  }

  /** Where a hit puts what. */
  lemma TouchedAt(order: seq<int>, idx: int) returns (i: nat)
    requires idx in order
    ensures i < |order| && order[i] == idx && |Touched(order, idx)| == |order|
    ensures forall k | 0 <= k < |order| - 1 :: Touched(order, idx)[k] == order[if k < i then k else k + 1]
    ensures Touched(order, idx)[|order| - 1] == idx
  {
    i := FirstAt(order, idx);
    DroppedAt(order, i);
  }

  lemma HitTidy(h: Held, idx: int)
    requires Tidy(h) && idx in h.order
    ensures Tidy(Held(h.cache, Touched(h.order, idx)))
  {
    var i := TouchedAt(h.order, idx);
    TouchedSame(h.order, idx);
  }

  lemma HitMoves(h: Held, idx: int, x: int, n: nat)
    requires Tidy(h) && idx in h.order
    ensures AmongLast(Held(h.cache, Touched(h.order, idx)), idx, 1)
    ensures AmongLast(h, x, n) ==> AmongLast(Held(h.cache, Touched(h.order, idx)), x, n + 1)
  {
    var i := TouchedAt(h.order, idx);
    var order := Touched(h.order, idx);
    if AmongLast(h, x, n) {
      var p :| 0 <= p < |h.order| && h.order[p] == x && |h.order| - p <= n;
      assert x == order[if p == i then |order| - 1 else if p < i then p else p - 1];
    }
  }

  /** A bounded order loses at most its first index to a new one. */
  lemma InsertedIs(h: Held, idx: int, chunk: Bytes)
    requires |h.order| <= MAX_CACHED_CHUNKS
    ensures
      var r := Inserted(h, idx, chunk);
      if |h.order| < MAX_CACHED_CHUNKS then r == Held(h.cache[idx := chunk], h.order + [idx])
      else r == Held(h.cache[idx := chunk] - {h.order[0]}, h.order[1..] + [idx])
  {
    if |h.order| == MAX_CACHED_CHUNKS {
      var all := h.order + [idx];
      assert all[1..] == h.order[1..] + [idx] && all[0] == h.order[0];
      var once := Held(h.cache[idx := chunk] - {all[0]}, all[1..]);
      assert Evicted(once) == once;
    }
  }

  lemma FetchAdds(h: Held, idx: int, chunk: Bytes, x: int, n: nat)
    requires Tidy(h) && idx !in h.order && |h.order| <= MAX_CACHED_CHUNKS && n < MAX_CACHED_CHUNKS
    ensures Tidy(Inserted(h, idx, chunk)) && AmongLast(Inserted(h, idx, chunk), idx, 1)
    ensures AmongLast(h, x, n) ==> AmongLast(Inserted(h, idx, chunk), x, n + 1)
  {
    InsertedIs(h, idx, chunk);
    var r := Inserted(h, idx, chunk);
    var gone := if |h.order| < MAX_CACHED_CHUNKS then 0 else 1;
    assert forall k | 0 <= k < |r.order| - 1 :: r.order[k] == h.order[k + gone];
    assert r.order[|r.order| - 1] == idx;
    if AmongLast(h, x, n) {
      var p :| 0 <= p < |h.order| && h.order[p] == x && |h.order| - p <= n;
      assert r.order[p - gone] == x;
    }
  }

  lemma ReadOneKeeps(h: Held, idx: int, staged: map<int, Bytes>, total: int, x: int, n: nat)
    requires HeldOK(h, staged, total) && Tidy(h) && Good(staged, total, idx) && n < MAX_CACHED_CHUNKS
    ensures
      var r := ReadOne(h, idx, staged, total);
      && HeldOK(r, staged, total) && Tidy(r) && AmongLast(r, idx, 1)
      && (AmongLast(h, x, n) ==> AmongLast(r, x, n + 1))
  {
    if idx in h.cache {
      TouchedSame(h.order, idx);
      HitTidy(h, idx);
      HitMoves(h, idx, x, n);
    } else {
      InsertedOK(h, idx, staged, total);
      FetchAdds(h, idx, staged[idx], x, n);
    }
  }

  lemma {:induction false} ReadsKeep(h: Held, asked: seq<int>, staged: map<int, Bytes>, total: int)
    requires HeldOK(h, staged, total) && Tidy(h) && forall i | i in asked :: Good(staged, total, i)
    ensures HeldOK(ReadEach(h, asked, staged, total), staged, total) && Tidy(ReadEach(h, asked, staged, total))
  {
    if asked != [] {
      var k := |asked| - 1;
      ReadsKeep(h, asked[..k], staged, total);
      ReadOneKeeps(ReadEach(h, asked[..k], staged, total), asked[k], staged, total, 0, 0);
    }
  }

  /** The chunks of the last eight reads are still cached, so reading them again fetches
      nothing. */
  lemma {:induction false} LastReadsStay(h: Held, asked: seq<int>, staged: map<int, Bytes>, total: int, back: nat)
    requires HeldOK(h, staged, total) && Tidy(h) && forall i | i in asked :: Good(staged, total, i)
    requires back < |asked| && back < 8
    ensures asked[|asked| - 1 - back] in ReadEach(h, asked, staged, total).cache
    ensures AmongLast(ReadEach(h, asked, staged, total), asked[|asked| - 1 - back], back + 1)
  {
    var k := |asked| - 1;
    ReadsKeep(h, asked, staged, total);
    ReadsKeep(h, asked[..k], staged, total);
    if back > 0 {
      LastReadsStay(h, asked[..k], staged, total, back - 1);
    }
    ReadOneKeeps(ReadEach(h, asked[..k], staged, total), asked[k], staged, total, asked[k - back], back);
    assert AmongLast(ReadEach(h, asked, staged, total), asked[k - back], back + 1);
  }

  /** What happens around one turn of a read: the bucket fails, other readers run. */
  datatype Turn = Turn(fails: bool, meanwhile: seq<Section>)

  class Reader {
    const total: int
    const staged: map<int, Bytes>
    var cache: map<int, Bytes>
    var order: seq<int>

    ghost predicate Valid()
      reads this
    {
      CacheOK(cache, order, staged, total)
    }

    constructor (total: int, staged: map<int, Bytes>)
      ensures Valid() && this.total == total && this.staged == staged
    {
      this.total, this.staged := total, staged;
      cache, order := map[], [];
    }

    ghost function View(): Held
      reads this
    {
      Held(cache, order)
    }

    /** Move a cached index to the back of the eviction order. */
    method Touch(idx: int)
      requires Valid()
      modifies this`order
      ensures Valid() && order == Touched(old(order), idx)
      ensures idx !in old(order) ==> order == old(order)
      ensures idx in old(order) ==> MovedToBack(old(order), order, idx)
    {
      TouchedSame(order, idx);
      var i := 0;
      while i < |order|
        invariant 0 <= i <= |order| && order == old(order)
        invariant forall k | 0 <= k < i :: order[k] != idx
      {
        if order[i] == idx {
          DroppedAt(order, i);
          order := order[..i] + order[i + 1..] + [idx];
          return;
        }
        i := i + 1;
      }
    }

    /** The chunk at an index, from the cache or the bucket. The lock is released for the
        fetch, and other readers run `meanwhile`. The bucket may fail at any time; what it
        answers is what was staged. */
    method GetChunk(idx: int, fetchFails: bool, meanwhile: seq<Section>) returns (r: Option<Bytes>)
      requires Valid()
      modifies this`cache, this`order
      ensures Valid()
      ensures r.Some? ==> Good(staged, total, idx) && r.value == staged[idx]
      ensures r.None? ==> fetchFails || !Good(staged, total, idx)
      ensures
        var others := AfterAll(old(View()), meanwhile, staged, total);
        View() == if idx in old(cache) then Held(old(cache), Touched(old(order), idx))
                  else if r.Some? then Inserted(others, idx, r.value)
                  else others
    {
      if idx in cache {
        r := Some(cache[idx]);
        Touch(idx);
        return;
      }
      OthersKeepOrder(View(), meanwhile, staged, total);
      var others := AfterAll(Held(cache, order), meanwhile, staged, total);
      cache, order := others.cache, others.order;
      if fetchFails || !Good(staged, total, idx) {
        return None;
      }
      r := Some(staged[idx]);
      Keep(idx);
    }

    /** Insert a fetched chunk, then evict the oldest down to the bound. */
    method Keep(idx: int)
      requires Valid() && Good(staged, total, idx)
      modifies this`cache, this`order
      ensures Valid() && View() == Inserted(old(View()), idx, staged[idx])
      ensures
        var all := old(order) + [idx];
        var gone := if |all| > MAX_CACHED_CHUNKS then |all| - MAX_CACHED_CHUNKS else 0;
        && order == all[gone..]
        && (forall x :: x in cache <==> (x in old(cache) || x == idx) && x !in all[..gone])
    {
      InsertedOK(View(), idx, staged, total);
      cache := cache[idx := staged[idx]];
      order := order + [idx];
      ghost var all, gone := order, 0;
      while |order| > MAX_CACHED_CHUNKS
        invariant Evicted(View()) == Inserted(old(View()), idx, staged[idx])
        invariant gone <= |all| && order == all[gone..]
        invariant gone > 0 ==> |order| >= MAX_CACHED_CHUNKS
        invariant forall x :: x in cache <==> (x in old(cache) || x == idx) && x !in all[..gone]
        decreases |order|
      {
        var evict := order[0];
        order := order[1..];
        cache := cache - {evict};
        assert all[..gone + 1] == all[..gone] + [evict];
        gone := gone + 1;
      }
    }

    /** Fill `p` from `off`. Each turn copies at least one byte. `turns` says when the bucket
        does not answer and what other readers do to the cache. */
    method ReadAt(p: array<byte>, off: int, turns: nat -> Turn) returns (n: nat, err: ReadError)
      requires Valid()
      modifies this`cache, this`order, p
      ensures Valid() && n <= p.Length
      ensures forall k | 0 <= k < n :: off >= 0 && ByteAt(staged, total, off + k, p[k])
      ensures forall k | n <= k < p.Length :: p[k] == old(p[k])
      ensures err.NegativeOffset? <==> off < 0
      ensures err.Eof? ==> off >= total || (off + n == total && n < p.Length)
      ensures err.NoError? ==> 0 <= off < total && n == p.Length && (n > 0 ==> off + n <= total)
      ensures err.ChunkUnavailable? ==>
                || (exists i: nat :: turns(i).fails)
                || (0 <= off + n < total && !Good(staged, total, (off + n) / CHUNK))
      ensures n > 0 ==> 0 <= off && off + n <= total
    {
      if off < 0 {
        return 0, NegativeOffset;
      }
      if off >= total {
        return 0, Eof;
      }
      n := 0;
      var turn: nat := 0;
      while n < p.Length
        invariant n <= p.Length && off + n <= total && Valid()
        invariant forall k | 0 <= k < n :: ByteAt(staged, total, off + k, p[k])
        invariant forall k | n <= k < p.Length :: p[k] == old(p[k])
        decreases p.Length - n
      {
        var cur := off + n;
        if cur >= total {
          return n, Eof;
        }
        var idx := cur / CHUNK;
        var chunk := GetChunk(idx, turns(turn).fails, turns(turn).meanwhile);
        if chunk.None? {
          return n, ChunkUnavailable;
        }
        var within := cur - idx * CHUNK;
        var copied := Copy(p, n, chunk.value, within, off);
        n := n + copied;
        turn := turn + 1;
      }
      err := NoError;
    }

    /** Copy what fits from one chunk. */
    method Copy(p: array<byte>, n: nat, chunk: Bytes, within: nat, ghost off: nat) returns (copied: nat)
      requires n < p.Length && within < |chunk| && off + n < total && within == (off + n) % CHUNK
      requires Good(staged, total, (off + n) / CHUNK) && chunk == staged[(off + n) / CHUNK]
      modifies p
      ensures 0 < copied <= p.Length - n && off + n + copied <= total
      ensures forall k | 0 <= k < n :: p[k] == old(p[k])
      ensures forall k | n <= k < n + copied :: ByteAt(staged, total, off + k, p[k])
      ensures forall k | n + copied <= k < p.Length :: p[k] == old(p[k])
    {
      copied := if |chunk| - within < p.Length - n then |chunk| - within else p.Length - n;
      forall k | n <= k < n + copied {
        p[k] := chunk[within + (k - n)];
      }
      forall k | n <= k < n + copied
        ensures ByteAt(staged, total, off + k, p[k])
      {
        SameChunk(off + n, k - n);
      }
    }
  }

  lemma SameChunk(cur: nat, j: nat)
    requires cur % CHUNK + j < CHUNK
    ensures (cur + j) / CHUNK == cur / CHUNK && (cur + j) % CHUNK == cur % CHUNK + j
  {
  }

  /* ---------- the flat archive ---------- */

  ghost predicate Whole(staged: map<int, Bytes>, total: int, n: nat) {
    forall i | 0 <= i < n :: Good(staged, total, i)
  }

  /** The first `n` chunks joined. */
  ghost function Flat(staged: map<int, Bytes>, n: nat): Bytes {
    if n == 0 then [] else Flat(staged, n - 1) + if n - 1 in staged then staged[n - 1] else []
  }

  /** Joining the chunks gives an archive of the declared length whose bytes are the ones
      read through the chunks. */
  lemma {:induction false} FlatIs(staged: map<int, Bytes>, total: nat, n: nat)
    requires Whole(staged, total, n) && (n - 1) * CHUNK < total
    ensures |Flat(staged, n)| == if n * CHUNK < total then n * CHUNK else total
    ensures forall pos | 0 <= pos < |Flat(staged, n)| :: ByteAt(staged, total, pos, Flat(staged, n)[pos])
  {
    if n > 0 {
      FlatIs(staged, total, n - 1);
      var before := Flat(staged, n - 1);
      assert |before| == (n - 1) * CHUNK;
      assert Good(staged, total, n - 1);
      forall pos | |before| <= pos < |Flat(staged, n)|
        ensures ByteAt(staged, total, pos, Flat(staged, n)[pos])
      {
        SameChunk((n - 1) * CHUNK, pos - |before|);
      }
    }
  }

  /** Over a whole archive and a bucket that answers, whatever other readers do to the cache, a
      read is a slice of the flat bytes:
      as many as were asked for or remain, with end of file exactly when short or past the
      end. */
  method ReadFlat(r: Reader, p: array<byte>, off: int, chunks: nat, turns: nat -> Turn) returns (n: nat, err: ReadError)
    requires forall i: nat :: !turns(i).fails
    requires r.Valid() && 0 < r.total && Whole(r.staged, r.total, chunks)
    requires (chunks - 1) * CHUNK < r.total <= chunks * CHUNK
    modifies r`cache, r`order, p
    ensures r.Valid() && |Flat(r.staged, chunks)| == r.total
    ensures err.NegativeOffset? <==> off < 0
    ensures 0 <= off < r.total ==>
              && n == (if p.Length <= r.total - off then p.Length else r.total - off)
              && p[..n] == Flat(r.staged, chunks)[off..off + n]
              && (err.Eof? <==> n < p.Length)
    ensures off >= r.total ==> n == 0 && err.Eof?
    ensures !err.ChunkUnavailable? && n <= p.Length && p[n..] == old(p[..])[n..]
  {
    FlatIs(r.staged, r.total, chunks);
    n, err := r.ReadAt(p, off, turns);
    if 0 <= off < r.total {
      forall k | 0 <= k < n
        ensures p[k] == Flat(r.staged, chunks)[off + k]
      {
        assert ByteAt(r.staged, r.total, off + k, Flat(r.staged, chunks)[off + k]);
      }
    }
  }

  /** A job that staging lets run gives its reader a whole archive, in every run. */
  lemma RunningJobIsReadable(
    hash: Bytes -> Staging.Digest, r: Staging.CreateRequest, now: int, actions: seq<Staging.Action>)
    requires Staging.Accepts(r) && Staging.Run(hash, Staging.Created(r, now), actions).status.InRun?
    ensures
      var st := Staging.Run(hash, Staging.Created(r, now), actions);
      && st.request == r && Whole(st.bucket, r.totalBytes, r.totalChunks)
      && (r.totalChunks - 1) * CHUNK < r.totalBytes <= r.totalChunks * CHUNK
  {
    Staging.RunsAreWhole(hash, r, now, actions);
    SameRequest(hash, r, now, actions);
  }

  lemma {:induction false} SameRequest(
    hash: Bytes -> Staging.Digest, r: Staging.CreateRequest, now: int, actions: seq<Staging.Action>)
    ensures Staging.Run(hash, Staging.Created(r, now), actions).request == r
  {
    if actions != [] {
      var before := actions[..|actions| - 1];
      SameRequest(hash, r, now, before);
      StepSameRequest(hash, Staging.Run(hash, Staging.Created(r, now), before), actions[|actions| - 1]);
    }
  }

  lemma StepSameRequest(hash: Bytes -> Staging.Digest, st: Staging.State, a: Staging.Action)
    ensures Staging.Apply(hash, st, a).request == st.request
  {
  }

  lemma {:induction false} MembersBound(keys: set<int>, order: seq<int>)
    requires forall i | i in keys :: i in order
    ensures |keys| <= |order|
  {
    if order == [] {
      SomeMember(keys);
    } else {
      MembersBound(keys - {order[0]}, order[1..]);
    }
  }

  /** However chunks came and went, at most eight are held. */
  lemma CacheIsSmall(cache: map<int, Bytes>, order: seq<int>, staged: map<int, Bytes>, total: int)
    requires CacheOK(cache, order, staged, total)
    ensures |cache| <= MAX_CACHED_CHUNKS
  {
    assert |cache.Keys| == |cache|;
    MembersBound(cache.Keys, order);
  }
}
