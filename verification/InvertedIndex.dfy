/** The per-user inverted index: a slot table with tombstones, posting lists of slots, and
    bulk compaction. Proved to answer exactly like a plain map from chat id to token set. */
module InvertedIndex {
  import opened Prelude

  /** Chat ids, compared for equality and by their string order, which integers stand for.
      `TOMBSTONE` is the empty string a dead slot holds. */
  type Id = int
  const TOMBSTONE: Id := 0

  /** A token by identity, with its length in bytes. */
  datatype Token = Token(name: int, length: nat)

  /** An embedding key id by identity, and whether it is 32 lower-case hex digits. */
  datatype KeyTag = NoKey | KeyTag(name: int, wellFormed: bool)

  type Vector = seq<int>

  const MAX_CHATS := 50000
  const MAX_TOKENS_PER_CHAT := 512
  const MAX_CHUNKS_PER_CHAT := 8
  const MIN_TOKEN_LEN := 2
  const MAX_IDENTIFIER_LEN := 64
  const COMPACTION_MIN_DEAD := 64

  datatype Entry = Entry(slot: int, etag: int, rev: int, vectors: seq<Vector>, pending: bool, key: KeyTag)

  predicate ValidToken(t: Token) {
    MIN_TOKEN_LEN <= t.length <= MAX_IDENTIFIER_LEN
  }

  predicate ValidKeyId(k: KeyTag) {
    k.NoKey? || k.wellFormed
  }

  /* ---------- tokens an update accepts ---------- */

  /** Skip invalid and repeated tokens; stop at the cap. */
  function Accepted(tokens: seq<Token>, seen: set<Token>): set<Token> {
    if tokens == [] then seen
    else if !ValidToken(tokens[0]) || tokens[0] in seen then Accepted(tokens[1..], seen)
    else if |seen| + 1 >= MAX_TOKENS_PER_CHAT then seen + {tokens[0]}
    else Accepted(tokens[1..], seen + {tokens[0]})
  }

  lemma AcceptedStep(tokens: seq<Token>, seen: set<Token>)
    requires tokens != []
    ensures
      Accepted(tokens, seen) ==
      if !ValidToken(tokens[0]) || tokens[0] in seen then Accepted(tokens[1..], seen)
      else if |seen + {tokens[0]}| >= MAX_TOKENS_PER_CHAT then seen + {tokens[0]}
      else Accepted(tokens[1..], seen + {tokens[0]})
  {
  }

  /** The accepted tokens are valid tokens of the list, at most the cap, and all of them
      unless the cap was reached. */
  lemma {:induction false} AcceptedMeans(tokens: seq<Token>, seen: set<Token>)
    requires |seen| < MAX_TOKENS_PER_CHAT
    ensures seen <= Accepted(tokens, seen) && |Accepted(tokens, seen)| <= MAX_TOKENS_PER_CHAT
    ensures forall t | t in Accepted(tokens, seen) :: t in seen || (t in tokens && ValidToken(t))
    ensures |Accepted(tokens, seen)| < MAX_TOKENS_PER_CHAT ==> forall t | t in tokens && ValidToken(t) ::
        t in Accepted(tokens, seen)
  {
    if tokens != [] {
      var t := tokens[0];
      assert forall u | u in tokens :: u == t || u in tokens[1..];
      if !ValidToken(t) || t in seen {
        AcceptedMeans(tokens[1..], seen);
      } else {
        assert |seen + {t}| == |seen| + 1;
        if |seen| + 1 < MAX_TOKENS_PER_CHAT {
          AcceptedMeans(tokens[1..], seen + {t});
        }
      }
    }
  }

  ghost function ValidIn(tokens: seq<Token>): set<Token> {
    set t | t in tokens && ValidToken(t)
  }

  lemma ValidInMore(t: Token, rest: seq<Token>)
    ensures ValidIn([t] + rest) == (if ValidToken(t) then {t} else {}) + ValidIn(rest)
  {
  }

  /** What the first `n` tokens add to `seen`. */
  ghost function Through(tokens: seq<Token>, seen: set<Token>, n: nat): set<Token>
    requires n <= |tokens|
  {
    seen + ValidIn(tokens[..n])
  }

  lemma ThroughMore(tokens: seq<Token>, seen: set<Token>, n: nat)
    requires n < |tokens|
    ensures Through(tokens, seen, n + 1) ==
            Through(tokens[1..], if ValidToken(tokens[0]) then seen + {tokens[0]} else seen, n)
  {
    assert tokens[..n + 1] == [tokens[0]] + tokens[1..][..n];
    ValidInMore(tokens[0], tokens[1..][..n]);
  }

  /** The accepted tokens are the valid ones of a beginning of the list: all of it, or as far
      as the token that reaches the cap. */
  lemma {:induction false} AcceptedIsBeginning(tokens: seq<Token>, seen: set<Token>) returns (n: nat)
    requires |seen| < MAX_TOKENS_PER_CHAT
    ensures n <= |tokens| && Accepted(tokens, seen) == Through(tokens, seen, n)
    ensures n < |tokens| ==> |Through(tokens, seen, n)| == 512
    decreases tokens, 1
  {
    if tokens == [] {
      n := 0;
      assert Through(tokens, seen, 0) == seen;
    } else if !ValidToken(tokens[0]) || tokens[0] in seen {
      var m := AcceptedIsBeginning(tokens[1..], seen);
      n := m + 1;
      ThroughMore(tokens, seen, m);
      assert tokens[0] in seen ==> seen + {tokens[0]} == seen;
    } else {
      n := NewTokenIsBeginning(tokens, seen);
    }
  }

  lemma {:induction false} NewTokenIsBeginning(tokens: seq<Token>, seen: set<Token>) returns (n: nat)
    requires |seen| < MAX_TOKENS_PER_CHAT && tokens != [] && ValidToken(tokens[0]) && tokens[0] !in seen
    ensures n <= |tokens| && Accepted(tokens, seen) == Through(tokens, seen, n)
    ensures n < |tokens| ==> |Through(tokens, seen, n)| == 512
    decreases tokens, 0
  {
    var more := seen + {tokens[0]};
    assert |more| == |seen| + 1;
    if |more| >= MAX_TOKENS_PER_CHAT {
      n := 1;
      ThroughMore(tokens, seen, 0);
      assert Through(tokens[1..], more, 0) == more;
    } else {
      var m := AcceptedIsBeginning(tokens[1..], more);
      n := m + 1;
      ThroughMore(tokens, seen, m);
    }
  }

  /* ---------- posting lists ---------- */

  ghost predicate Ascending(p: seq<int>) {
    forall i, j | 0 <= i < j < |p| :: p[i] < p[j]
  }

  ghost predicate ListOK(p: seq<int>, n: nat) {
    p != [] && Ascending(p) && forall i | 0 <= i < |p| :: 0 <= p[i] < n
  }

  ghost predicate PostingsOK(postings: map<Token, seq<int>>, n: nat) {
    forall t | t in postings :: ValidToken(t) && ListOK(postings[t], n)
  }

  /** The tokens posted at a slot. */
  ghost function TokensAt(postings: map<Token, seq<int>>, s: int): set<Token> {
    set t | t in postings && s in postings[t]
  }

  ghost predicate Bounded(postings: map<Token, seq<int>>, n: nat) {
    forall s | 0 <= s < n :: |TokensAt(postings, s)| <= MAX_TOKENS_PER_CHAT
  }

  /* ---------- the slot table ---------- */

  ghost predicate SlotsOK(slots: seq<Id>, chats: map<Id, Entry>) {
    && (forall s | 0 <= s < |slots| && slots[s] != TOMBSTONE :: slots[s] in chats && chats[slots[s]].slot == s)
    && (forall id | id in chats :: id != TOMBSTONE && 0 <= chats[id].slot < |slots| && slots[chats[id].slot] == id)
  }

  ghost predicate EntryOK(e: Entry, dims: nat) {
    && 0 <= e.rev && ValidKeyId(e.key) && (!e.pending ==> e.key.NoKey?)
    && VectorsOK(e.vectors, dims)
  }

  ghost predicate VectorsOK(vs: seq<Vector>, dims: nat) {
    |vs| <= MAX_CHUNKS_PER_CHAT && forall i | 0 <= i < |vs| :: |vs[i]| == dims && dims > 0
  }

  /** The live slots in table order. */
  function Live(slots: seq<Id>): seq<Id> {
    if slots == [] then []
    else if slots[|slots| - 1] == TOMBSTONE then Live(slots[..|slots| - 1])
    else Live(slots[..|slots| - 1]) + [slots[|slots| - 1]]
  }

  /** How many live slots come before `s`: the slot's place after compaction. */
  function Rank(slots: seq<Id>, s: nat): nat
    requires s <= |slots|
  {
    |Live(slots[..s])|
  }

  lemma RankStep(slots: seq<Id>, s: nat)
    requires s < |slots|
    ensures Rank(slots, s + 1) == Rank(slots, s) + if slots[s] == TOMBSTONE then 0 else 1
    ensures Live(slots[..s + 1]) == if slots[s] == TOMBSTONE then Live(slots[..s]) else Live(slots[..s]) + [slots[s]]
  {
    assert slots[..s + 1][..s] == slots[..s];
  }

  lemma {:induction false} RankMonotone(slots: seq<Id>, a: nat, b: nat)
    requires a < b <= |slots|
    ensures Live(slots[..a]) <= Live(slots[..b])
    ensures slots[a] != TOMBSTONE ==> Rank(slots, a) < Rank(slots, b) && Live(slots[..b])[Rank(slots, a)] == slots[a]
    decreases b - a
  {
    RankStep(slots, b - 1);
    if a + 1 < b {
      RankMonotone(slots, a, b - 1);
    }
  }

  /** A live slot keeps its id and moves to its rank; ranks keep the order of slots. */
  lemma LiveAt(slots: seq<Id>, s: nat)
    requires s < |slots| && slots[s] != TOMBSTONE
    ensures Rank(slots, s) < |Live(slots)| && Live(slots)[Rank(slots, s)] == slots[s]
  {
    assert slots[..|slots|] == slots;
    RankMonotone(slots, s, |slots|);
  }

  /** Every place in the compacted table comes from exactly one live slot. */
  lemma {:induction false} LiveFrom(slots: seq<Id>, n: nat) returns (s: nat)
    requires n < |Live(slots)|
    ensures s < |slots| && slots[s] != TOMBSTONE && Rank(slots, s) == n
  {
    var k := |slots| - 1;
    RankStep(slots, k);
    assert slots[..k + 1] == slots;
    if slots[k] != TOMBSTONE && n == |Live(slots[..k])| {
      s := k;
    } else {
      s := LiveFrom(slots[..k], n);
      assert slots[..k][..s] == slots[..s];
    }
  }

  /** The slot table holds each live id once, so it has as many live slots as entries. */
  lemma {:induction false} LiveCount(slots: seq<Id>, ids: set<Id>)
    requires forall s | 0 <= s < |slots| && slots[s] != TOMBSTONE :: slots[s] in ids
    requires forall s, u | 0 <= s < u < |slots| && slots[s] == slots[u] :: slots[s] == TOMBSTONE
    requires forall id | id in ids :: id != TOMBSTONE && id in slots
    ensures |Live(slots)| == |ids|
  {
    if slots == [] {
      SomeMember(ids);
    } else {
      var k := |slots| - 1;
      var rest := if slots[k] == TOMBSTONE then ids else ids - {slots[k]};
      assert forall id | id in rest :: id in slots[..k] by {
        forall id | id in rest
          ensures id in slots[..k]
        {
          var s :| 0 <= s < |slots| && slots[s] == id;
          assert slots[..k][s] == id;
        }
      }
      LiveCount(slots[..k], rest);
    }
  }

  /* ---------- posting a new slot ---------- */

  /** Slot `s` appended to the lists of `seen`. */
  ghost function Post(p: map<Token, seq<int>>, seen: set<Token>, s: int): map<Token, seq<int>> {
    map t | t in p.Keys + seen :: if t !in seen then p[t] else if t in p then p[t] + [s] else [s]
  }

  /** One more token: skipped if invalid or repeated, else appended to. */
  function PostStep(q: map<Token, seq<int>>, seen: set<Token>, t: Token, s: int): (map<Token, seq<int>>, set<Token>) {
    if !ValidToken(t) || t in seen then (q, seen) else (q[t := if t in q then q[t] + [s] else [s]], seen + {t})
  }

  lemma PostStepOK(p: map<Token, seq<int>>, seen: set<Token>, t: Token, s: int)
    ensures
      var (q, after) := PostStep(Post(p, seen, s), seen, t, s);
      q == Post(p, after, s)
  {
  }

  /** Append slot `s` to the list of every accepted token. */
  method PostTokens(tokens: seq<Token>, postings: map<Token, seq<int>>, s: int) returns (q: map<Token, seq<int>>)
    ensures q == Post(postings, Accepted(tokens, {}), s)
  {
    q := postings;
    var seen: set<Token> := {};
    var i := 0;
    while i < |tokens|
      invariant 0 <= i <= |tokens|
      invariant |seen| < MAX_TOKENS_PER_CHAT
      invariant q == Post(postings, seen, s)
      invariant Accepted(tokens, {}) == Accepted(tokens[i..], seen)
    {
      AcceptedStep(tokens[i..], seen);
      PostStepOK(postings, seen, tokens[i], s);
      var (posted, after) := PostStep(q, seen, tokens[i], s);
      q, seen := posted, after;
      if |seen| >= MAX_TOKENS_PER_CHAT {
        return;
      }
      i := i + 1;
    }
  }

  lemma PostedAt(p: map<Token, seq<int>>, seen: set<Token>, n: nat)
    requires PostingsOK(p, n)
    ensures TokensAt(Post(p, seen, n), n) == seen
    ensures forall s | 0 <= s < n :: TokensAt(Post(p, seen, n), s) == TokensAt(p, s)
  {
    var q := Post(p, seen, n);
    forall t | t in q
      ensures n in q[t] <==> t in seen
      ensures forall s | 0 <= s < n :: s in q[t] <==> t in p && s in p[t]
    {
      assert t in p ==> ListOK(p[t], n);
      assert t in seen ==> q[t][|q[t]| - 1] == n;
      assert forall s :: s in q[t] <==> (t in p && s in p[t]) || (t in seen && s == n);
    }
  }

  lemma PostedListsOK(p: map<Token, seq<int>>, seen: set<Token>, n: nat)
    requires PostingsOK(p, n) && forall t | t in seen :: ValidToken(t)
    ensures PostingsOK(Post(p, seen, n), n + 1)
  {
    var q := Post(p, seen, n);
    forall t | t in q
      ensures ValidToken(t) && ListOK(q[t], n + 1)
    {
      assert t in p ==> ListOK(p[t], n);
    }
  }

  lemma PostOK(p: map<Token, seq<int>>, seen: set<Token>, n: nat)
    requires PostingsOK(p, n) && Bounded(p, n)
    requires |seen| <= MAX_TOKENS_PER_CHAT && forall t | t in seen :: ValidToken(t)
    ensures PostingsOK(Post(p, seen, n), n + 1) && Bounded(Post(p, seen, n), n + 1)
  {
    PostedListsOK(p, seen, n);
    PostedAt(p, seen, n);
  }

  /* ---------- compaction ---------- */

  /** A posting list restricted to live slots, each moved to its rank. */
  function Kept(p: seq<int>, slots: seq<Id>): seq<int>
    requires forall i | 0 <= i < |p| :: 0 <= p[i] < |slots|
  {
    if p == [] then []
    else
      var k := p[|p| - 1];
      if slots[k] == TOMBSTONE then Kept(p[..|p| - 1], slots) else Kept(p[..|p| - 1], slots) + [Rank(slots, k)]
  }

  lemma RankDistinct(slots: seq<Id>, s: nat, k: nat)
    requires s < |slots| && k < |slots| && slots[s] != TOMBSTONE && slots[k] != TOMBSTONE && s != k
    ensures Rank(slots, s) != Rank(slots, k)
  {
    if s < k {
      RankMonotone(slots, s, k);
    } else {
      RankMonotone(slots, k, s);
    }
  }

  /** Everything kept from slots before `k` ranks below `k`. */
  lemma {:induction false} KeptBelow(p: seq<int>, slots: seq<Id>, k: nat)
    requires k <= |slots| && forall i | 0 <= i < |p| :: 0 <= p[i] < k
    ensures forall i | 0 <= i < |Kept(p, slots)| :: 0 <= Kept(p, slots)[i] < Rank(slots, k)
  {
    if p != [] {
      KeptBelow(p[..|p| - 1], slots, k);
      RankMonotone(slots, p[|p| - 1], k);
    }
  }

  lemma {:induction false} KeptAscends(p: seq<int>, slots: seq<Id>)
    requires Ascending(p) && forall i | 0 <= i < |p| :: 0 <= p[i] < |slots|
    ensures Ascending(Kept(p, slots))
  {
    if p != [] {
      var q := p[..|p| - 1];
      KeptAscends(q, slots);
      KeptBelow(q, slots, p[|p| - 1]);
    }
  }

  lemma {:induction false} KeptHas(p: seq<int>, slots: seq<Id>, s: nat)
    requires forall i | 0 <= i < |p| :: 0 <= p[i] < |slots|
    requires s < |slots| && slots[s] != TOMBSTONE
    ensures Rank(slots, s) in Kept(p, slots) <==> s in p
  {
    if p != [] {
      var k := p[|p| - 1];
      var q := p[..|p| - 1];
      KeptHas(q, slots, s);
      assert s in p <==> s in q || s == k;
      if slots[k] != TOMBSTONE && s != k {
        RankDistinct(slots, s, k);
      }
    }
  }

  ghost function CompactedPostings(postings: map<Token, seq<int>>, slots: seq<Id>): map<Token, seq<int>>
    requires PostingsOK(postings, |slots|)
  {
    map t | t in postings && Kept(postings[t], slots) != [] :: Kept(postings[t], slots)
  }

  lemma CompactedAt(postings: map<Token, seq<int>>, slots: seq<Id>, s: nat)
    requires PostingsOK(postings, |slots|) && s < |slots| && slots[s] != TOMBSTONE
    ensures TokensAt(CompactedPostings(postings, slots), Rank(slots, s)) == TokensAt(postings, s)
  {
    forall t | t in postings
      ensures Rank(slots, s) in Kept(postings[t], slots) <==> s in postings[t]
    {
      KeptHas(postings[t], slots, s);
    }
  }

  lemma CompactedOK(postings: map<Token, seq<int>>, slots: seq<Id>)
    requires PostingsOK(postings, |slots|) && Bounded(postings, |slots|)
    ensures
      var q := CompactedPostings(postings, slots);
      PostingsOK(q, |Live(slots)|) && Bounded(q, |Live(slots)|)
  {
    var q := CompactedPostings(postings, slots);
    assert slots[..|slots|] == slots;
    forall t | t in q
      ensures ValidToken(t) && ListOK(q[t], |Live(slots)|)
    {
      KeptAscends(postings[t], slots);
      KeptBelow(postings[t], slots, |slots|);
    }
    forall n | 0 <= n < |Live(slots)|
      ensures |TokensAt(q, n)| <= MAX_TOKENS_PER_CHAT
    {
      var s := LiveFrom(slots, n);
      CompactedAt(postings, slots, s);
    }
  }

  /** The compacted entries, each at its rank. */
  ghost function CompactedChats(chats: map<Id, Entry>, slots: seq<Id>): map<Id, Entry>
    requires SlotsOK(slots, chats)
  {
    map id | id in chats :: chats[id].(slot := Rank(slots, chats[id].slot))
  }

  lemma CompactedSlotsOK(slots: seq<Id>, chats: map<Id, Entry>)
    requires SlotsOK(slots, chats)
    ensures SlotsOK(Live(slots), CompactedChats(chats, slots))
    ensures |Live(slots)| == |chats|
  {
    var live := Live(slots);
    forall n | 0 <= n < |live|
      ensures live[n] in chats && live[n] != TOMBSTONE
      ensures 0 <= chats[live[n]].slot < |slots| && Rank(slots, chats[live[n]].slot) == n
    {
      var s := LiveFrom(slots, n);
      LiveAt(slots, s);
      assert live[n] == slots[s] && chats[slots[s]].slot == s;
    }
    forall id | id in chats
      ensures Rank(slots, chats[id].slot) < |live| && live[Rank(slots, chats[id].slot)] == id
    {
      LiveAt(slots, chats[id].slot);
    }
    assert forall id | id in chats :: slots[chats[id].slot] == id;
    LiveCount(slots, chats.Keys);
    assert |chats.Keys| == |chats|;
  }

  /* ---------- vector dimensions ---------- */

  /** The dimension an update settles on: the first vector pins it, later ones must match. */
  function Fit(dims: nat, vs: seq<Vector>): Option<nat>
    decreases |vs|
  {
    if vs == [] then Some(dims)
    else if vs[0] == [] || (dims != 0 && |vs[0]| != dims) then None
    else Fit(|vs[0]|, vs[1..])
  }

  lemma {:induction false} FitMeans(dims: nat, vs: seq<Vector>)
    ensures Fit(dims, vs).Some? <==> (forall i | 0 <= i < |vs| ::
        vs[i] != [] && |vs[i]| == if dims > 0 then dims else |vs[0]|)
    ensures Fit(dims, vs).Some? ==>
              Fit(dims, vs).value == if dims > 0 || vs == [] then dims else |vs[0]|
    decreases |vs|
  {
    if vs != [] {
      FitMeans(|vs[0]|, vs[1..]);
      assert forall i | 1 <= i < |vs| :: vs[i] == vs[1..][i - 1];
      assert forall i | 0 <= i < |vs[1..]| :: vs[1..][i] == vs[i + 1];
    }
  }

  method ValidatedVectorDims(dims: nat, vectors: seq<Vector>) returns (r: Option<nat>)
    ensures r == if |vectors| > MAX_CHUNKS_PER_CHAT then None else Fit(dims, vectors)
  {
    if |vectors| > MAX_CHUNKS_PER_CHAT {
      return None;
    }
    var d: nat := dims;
    var i := 0;
    while i < |vectors|
      invariant 0 <= i <= |vectors|
      invariant Fit(dims, vectors) == Fit(d, vectors[i..])
    {
      assert vectors[i..][1..] == vectors[i + 1..];
      if |vectors[i]| == 0 {
        return None;
      }
      if d == 0 {
        d := |vectors[i]|;
      } else if |vectors[i]| != d {
        return None;
      }
      i := i + 1;
    }
    assert vectors[i..] == [];
    r := Some(d);
  }

  /* ---------- the index as a value ---------- */

  datatype Table = Table(slots: seq<Id>, chats: map<Id, Entry>, postings: map<Token, seq<int>>, dims: nat, dead: nat)

  const EMPTY_TABLE := Table([], map[], map[], 0, 0)

  ghost predicate EntriesOK(chats: map<Id, Entry>, dims: nat) {
    forall id | id in chats :: EntryOK(chats[id], dims)
  }

  /** Everything but the bound on tombstones, which compaction restores. */
  ghost predicate Core(t: Table) {
    && SlotsOK(t.slots, t.chats)
    && PostingsOK(t.postings, |t.slots|)
    && Bounded(t.postings, |t.slots|)
    && |t.slots| == |t.chats| + t.dead
    && |t.chats| <= MAX_CHATS
    && EntriesOK(t.chats, t.dims)
  }

  ghost predicate TableOK(t: Table) {
    Core(t) && (t.dead < COMPACTION_MIN_DEAD || t.dead <= |t.chats|)
  }

  /** The plain store an index stands for: what each chat says and carries. */
  datatype Plain = Plain(docs: map<Id, set<Token>>, meta: map<Id, Entry>, dims: nat)

  ghost function Docs(t: Table): map<Id, set<Token>> {
    map id | id in t.chats :: TokensAt(t.postings, t.chats[id].slot)
  }

  ghost function Meta(t: Table): map<Id, Entry> {
    map id | id in t.chats :: t.chats[id].(slot := 0)
  }

  ghost function Meaning(t: Table): Plain {
    Plain(Docs(t), Meta(t), t.dims)
  }

  ghost function Compacted(t: Table): Table
    requires Core(t)
  {
    Table(Live(t.slots), CompactedChats(t.chats, t.slots), CompactedPostings(t.postings, t.slots), t.dims, 0)
  }

  lemma CompactedEntriesOK(chats: map<Id, Entry>, slots: seq<Id>, dims: nat)
    requires SlotsOK(slots, chats) && EntriesOK(chats, dims)
    ensures EntriesOK(CompactedChats(chats, slots), dims)
    ensures |CompactedChats(chats, slots)| == |chats|
  {
    var c := CompactedChats(chats, slots);
    assert c.Keys == chats.Keys && |c.Keys| == |c| && |chats.Keys| == |chats|;
    forall id | id in c
      ensures EntryOK(c[id], dims)
    {
      assert EntryOK(chats[id], dims);
    }
  }

  lemma CompactedCore(t: Table)
    requires Core(t)
    ensures TableOK(Compacted(t))
  {
    CompactedOK(t.postings, t.slots);
    CompactedSlotsOK(t.slots, t.chats);
    CompactedEntriesOK(t.chats, t.slots, t.dims);
  }

  lemma CompactedDocs(t: Table)
    requires Core(t)
    ensures Docs(Compacted(t)) == Docs(t)
  {
    var c := Compacted(t);
    assert c.chats.Keys == t.chats.Keys;
    forall id | id in t.chats
      ensures TokensAt(c.postings, c.chats[id].slot) == TokensAt(t.postings, t.chats[id].slot)
    {
      CompactedAt(t.postings, t.slots, t.chats[id].slot);
    }
  }

  lemma CompactedMeta(t: Table)
    requires Core(t)
    ensures Meta(Compacted(t)) == Meta(t)
  {
    assert Compacted(t).chats.Keys == t.chats.Keys;
  }

  /** Compaction restores the bound and changes no answer. */
  lemma CompactionIsInvisible(t: Table)
    requires Core(t)
    ensures TableOK(Compacted(t)) && Meaning(Compacted(t)) == Meaning(t)
  {
    CompactedCore(t);
    CompactedDocs(t);
    CompactedMeta(t);
  }

  /** The table with the chat's old slot tombstoned, if it had one. */
  function Tombstoned(t: Table, id: Id): Table
    requires id in t.chats && 0 <= t.chats[id].slot < |t.slots|
  {
    Table(t.slots[t.chats[id].slot := TOMBSTONE], t.chats - {id}, t.postings, t.dims, t.dead + 1)
  }

  lemma RemovedSlotsOK(slots: seq<Id>, chats: map<Id, Entry>, id: Id)
    requires SlotsOK(slots, chats) && id in chats
    ensures SlotsOK(slots[chats[id].slot := TOMBSTONE], chats - {id}) && |chats - {id}| == |chats| - 1
  {
    assert (chats - {id}).Keys == chats.Keys - {id};
    assert |(chats - {id}).Keys| == |chats - {id}| && |chats.Keys| == |chats|;
  }

  lemma RemovalOK(t: Table, id: Id)
    requires Core(t) && id in t.chats
    ensures Core(Tombstoned(t, id))
    ensures Meaning(Tombstoned(t, id)) == Plain(Docs(t) - {id}, Meta(t) - {id}, t.dims)
  {
    RemovedSlotsOK(t.slots, t.chats, id);
  }

  /** A new slot at the end for a chat. */
  function Placed(t: Table, id: Id, e: Entry, dims: nat): Table {
    Table(t.slots + [id], t.chats[id := e.(slot := |t.slots|)], t.postings, dims, t.dead)
  }

  /** A new slot for a chat the table does not hold, posted under `seen`. */
  ghost function Added(t: Table, id: Id, e: Entry, seen: set<Token>, dims: nat): Table {
    Placed(t, id, e, dims).(postings := Post(t.postings, seen, |t.slots|))
  }

  lemma AddedSlotsOK(slots: seq<Id>, chats: map<Id, Entry>, id: Id, e: Entry)
    requires SlotsOK(slots, chats) && id !in chats && id != TOMBSTONE
    ensures SlotsOK(slots + [id], chats[id := e.(slot := |slots|)])
    ensures |chats[id := e.(slot := |slots|)]| == |chats| + 1
  {
    var c := chats[id := e.(slot := |slots|)];
    assert c.Keys == chats.Keys + {id} && |c.Keys| == |c| && |chats.Keys| == |chats|;
  }

  lemma AddedCore(t: Table, id: Id, e: Entry, seen: set<Token>, dims: nat)
    requires Core(t) && id !in t.chats && id != TOMBSTONE && |t.chats| < MAX_CHATS
    requires EntryOK(e, dims) && EntriesOK(t.chats, dims)
    requires |seen| <= MAX_TOKENS_PER_CHAT && forall k | k in seen :: ValidToken(k)
    ensures Core(Added(t, id, e, seen, dims))
  {
    PostOK(t.postings, seen, |t.slots|);
    AddedSlotsOK(t.slots, t.chats, id, e);
  }

  lemma AddedDocs(t: Table, id: Id, e: Entry, seen: set<Token>, dims: nat)
    requires PostingsOK(t.postings, |t.slots|) && forall k | k in t.chats :: 0 <= t.chats[k].slot < |t.slots|
    ensures Docs(Added(t, id, e, seen, dims)) == Docs(t)[id := seen]
  {
    var u := Added(t, id, e, seen, dims);
    PostedAt(t.postings, seen, |t.slots|);
    forall k | k in t.chats && k != id
      ensures Docs(u)[k] == Docs(t)[k]
    {
      assert u.chats[k] == t.chats[k] && 0 <= t.chats[k].slot < |t.slots|;
    }
    assert Docs(u).Keys == Docs(t)[id := seen].Keys;
  }

  lemma AddedMeaning(t: Table, id: Id, e: Entry, seen: set<Token>, dims: nat)
    requires PostingsOK(t.postings, |t.slots|) && SlotsOK(t.slots, t.chats)
    ensures Meaning(Added(t, id, e, seen, dims)) == Plain(Docs(t)[id := seen], Meta(t)[id := e.(slot := 0)], dims)
  {
    AddedDocs(t, id, e, seen, dims);
  }

  predicate Acceptable(chats: map<Id, Entry>, dims: nat, id: Id, e: Entry) {
    && id != TOMBSTONE && e.rev >= 0 && ValidKeyId(e.key) && (e.pending || e.key.NoKey?)
    && |e.vectors| <= MAX_CHUNKS_PER_CHAT && Fit(dims, e.vectors).Some?
    && (id in chats || |chats| < MAX_CHATS)
  }

  /** Vectors already stored keep fitting when a first vector pins the dimension. */
  lemma EntriesKeepFitting(chats: map<Id, Entry>, dims: nat, vs: seq<Vector>)
    requires EntriesOK(chats, dims) && |vs| <= MAX_CHUNKS_PER_CHAT && Fit(dims, vs).Some?
    ensures EntriesOK(chats, Fit(dims, vs).value) && VectorsOK(vs, Fit(dims, vs).value)
  {
    FitMeans(dims, vs);
    forall id | id in chats
      ensures EntryOK(chats[id], Fit(dims, vs).value)
    {
      assert EntryOK(chats[id], dims);
    }
  }

  /** The table an accepted update leaves before compaction. */
  ghost function Upserted(t: Table, id: Id, e: Entry, seen: set<Token>, dims: nat): Table
    requires id in t.chats ==> 0 <= t.chats[id].slot < |t.slots|
  {
    Added(if id in t.chats then Tombstoned(t, id) else t, id, e, seen, dims)
  }

  lemma UpsertedCore(t: Table, id: Id, e: Entry, seen: set<Token>)
    requires Core(t) && Acceptable(t.chats, t.dims, id, e)
    requires |seen| <= MAX_TOKENS_PER_CHAT && forall k | k in seen :: ValidToken(k)
    ensures Core(Upserted(t, id, e, seen, Fit(t.dims, e.vectors).value))
  {
    EntriesKeepFitting(t.chats, t.dims, e.vectors);
    var dims := Fit(t.dims, e.vectors).value;
    if id in t.chats {
      RemovalOK(t, id);
      AddedCore(Tombstoned(t, id), id, e, seen, dims);
    } else {
      AddedCore(t, id, e, seen, dims);
    }
  }

  lemma UpsertedMeaning(t: Table, id: Id, e: Entry, seen: set<Token>)
    requires Core(t) && Fit(t.dims, e.vectors).Some?
    ensures
      Meaning(Upserted(t, id, e, seen, Fit(t.dims, e.vectors).value)) ==
          Plain(Docs(t)[id := seen], Meta(t)[id := e.(slot := 0)], Fit(t.dims, e.vectors).value)
  {
    var dims := Fit(t.dims, e.vectors).value;
    if id in t.chats {
      RemovalOK(t, id);
      AddedMeaning(Tombstoned(t, id), id, e, seen, dims);
      Overwrite(Docs(t), id, seen);
      Overwrite(Meta(t), id, e.(slot := 0));
    } else {
      AddedMeaning(t, id, e, seen, dims);
    }
  }

  lemma Overwrite<T>(m: map<Id, T>, id: Id, v: T)
    ensures (m - {id})[id := v] == m[id := v]
  {
  }

  /** An accepted update keeps the table sound and means the plain update. */
  lemma UpsertedOK(t: Table, id: Id, e: Entry, tokens: seq<Token>)
    requires Core(t) && Acceptable(t.chats, t.dims, id, e)
    ensures
      var seen := Accepted(tokens, {});
      && Core(Upserted(t, id, e, seen, Fit(t.dims, e.vectors).value))
      && Meaning(Upserted(t, id, e, seen, Fit(t.dims, e.vectors).value)) == Play(Meaning(t), DoUpsert(id, e, tokens))
  {
    var seen := Accepted(tokens, {});
    AcceptedMeans(tokens, {});
    UpsertedCore(t, id, e, seen);
    UpsertedMeaning(t, id, e, seen);
    SameAcceptance(t, id, e);
  }

  /** Changing an entry without moving it. */
  lemma RewrittenOK(t: Table, id: Id, e: Entry, dims: nat)
    requires TableOK(t) && id in t.chats && e.slot == t.chats[id].slot
    requires EntryOK(e, dims) && EntriesOK(t.chats, dims)
    ensures
      var u := t.(chats := t.chats[id := e], dims := dims);
      TableOK(u) && Meaning(u) == Plain(Docs(t), Meta(t)[id := e.(slot := 0)], dims)
  {
    var u := t.(chats := t.chats[id := e], dims := dims);
    assert u.chats.Keys == t.chats.Keys;
    assert |u.chats.Keys| == |u.chats| && |t.chats.Keys| == |t.chats|;
    assert Docs(u) == Docs(t) && Meta(u) == Meta(t)[id := e.(slot := 0)];
  }

  /* ---------- the mutators on the plain store ---------- */

  datatype Op =
    | DoUpsert(id: Id, e: Entry, tokens: seq<Token>)
    | DoRemove(id: Id)
    | DoRepair(id: Id, vectors: seq<Vector>)
    | DoMark(id: Id, key: KeyTag)

  ghost function Play(p: Plain, op: Op): Plain {
    match op
    case DoUpsert(id, e, tokens) =>
      if Acceptable(p.meta, p.dims, id, e)
      then Plain(p.docs[id := Accepted(tokens, {})], p.meta[id := e.(slot := 0)], Fit(p.dims, e.vectors).value)
      else p
    case DoRemove(id) => Plain(p.docs - {id}, p.meta - {id}, p.dims)
    case DoRepair(id, vectors) =>
      if id in p.meta && |vectors| <= MAX_CHUNKS_PER_CHAT && Fit(p.dims, vectors).Some?
      then Plain(p.docs, p.meta[id := p.meta[id].(vectors := vectors, pending := false, key := NoKey)],
          Fit(p.dims, vectors).value)
      else p
    case DoMark(id, key) =>
      if id in p.meta && p.meta[id].pending && key.KeyTag? && key.wellFormed && p.meta[id].key != key
      then p.(meta := p.meta[id := p.meta[id].(key := key)])
      else p
  }

  /** The dimension after an update: the first vector pins it. */
  function Settled(dims: nat, vectors: seq<Vector>): nat {
    if dims > 0 || vectors == [] then dims else |vectors[0]|
  }

  /** `f` is `e` at slot `slot`. */
  predicate SameBut(f: Entry, e: Entry, slot: int) {
    && f.slot == slot && f.etag == e.etag && f.rev == e.rev
    && f.vectors == e.vectors && f.pending == e.pending && f.key == e.key
  }

  /** From `t` to `u` every chat but `id` keeps its document and, but for its slot, its entry. */
  ghost predicate OthersKept(t: Table, u: Table, id: Id) {
    forall x | x in t.chats && x != id ::
      x in u.chats && SameBut(u.chats[x], t.chats[x], u.chats[x].slot) && Docs(u)[x] == Docs(t)[x]
  }

  lemma PutMeans(t: Table, u: Table, id: Id, e: Entry, seen: set<Token>, dims: nat)
    requires Meaning(u) == Plain(Docs(t)[id := seen], Meta(t)[id := e.(slot := 0)], dims)
    ensures u.chats.Keys == t.chats.Keys + {id} && SameBut(u.chats[id], e, u.chats[id].slot)
    ensures Docs(u)[id] == seen && u.dims == dims && OthersKept(t, u, id)
  {
    assert u.chats.Keys == Meta(u).Keys && t.chats.Keys == Meta(t).Keys;
    assert Meta(u)[id] == e.(slot := 0);
    forall x | x in t.chats && x != id
      ensures x in u.chats && SameBut(u.chats[x], t.chats[x], u.chats[x].slot) && Docs(u)[x] == Docs(t)[x]
    {
      assert Meta(u)[x] == Meta(t)[x];
    }
  }

  lemma RemovalMeans(t: Table, u: Table, id: Id)
    requires Meaning(u) == Plain(Docs(t) - {id}, Meta(t) - {id}, t.dims)
    ensures u.chats.Keys == t.chats.Keys - {id} && u.dims == t.dims && OthersKept(t, u, id)
  {
    assert u.chats.Keys == Meta(u).Keys && t.chats.Keys == Meta(t).Keys;
    forall x | x in t.chats && x != id
      ensures x in u.chats && SameBut(u.chats[x], t.chats[x], u.chats[x].slot) && Docs(u)[x] == Docs(t)[x]
    {
      assert Meta(u)[x] == Meta(t)[x];
    }
  }

  lemma SameAcceptance(t: Table, id: Id, e: Entry)
    ensures Acceptable(Meta(t), t.dims, id, e) <==> Acceptable(t.chats, t.dims, id, e)
  {
    assert Meta(t).Keys == t.chats.Keys;
    assert |Meta(t).Keys| == |Meta(t)| && |t.chats.Keys| == |t.chats|;
  }

  class Index {
    var slots: seq<Id>
    var chats: map<Id, Entry>
    var postings: map<Token, seq<int>>
    var dims: nat
    var dead: nat

    ghost function View(): Table
      reads this
    {
      Table(slots, chats, postings, dims, dead)
    }

    ghost predicate Valid()
      reads this
    {
      TableOK(View())
    }

    constructor ()
      ensures Valid() && View() == EMPTY_TABLE
    {
      slots, chats, postings, dims, dead := [], map[], map[], 0, 0;
    }

    /** The index a decoder fills in. */
    constructor Restored(t: Table)
      ensures View() == t
    {
      slots, chats, postings, dims, dead := t.slots, t.chats, t.postings, t.dims, t.dead;
    }

    /** Record or replace one chat. */
    method Upsert(id: Id, e: Entry, tokens: seq<Token>) returns (ok: bool)
      requires Valid()
      modifies this
      ensures Valid()
      ensures ok <==> Acceptable(old(chats), old(dims), id, e)
      ensures Meaning(View()) == Play(old(Meaning(View())), DoUpsert(id, e, tokens))
      ensures ok ==> chats.Keys == old(chats).Keys + {id} && SameBut(chats[id], e, chats[id].slot)
      ensures ok ==> Docs(View())[id] == Accepted(tokens, {}) && dims == Settled(old(dims), e.vectors)
      ensures ok ==> OthersKept(old(View()), View(), id)
      ensures !ok ==> View() == old(View())
    {
      SameAcceptance(View(), id, e);
      ok := false;
      if id == TOMBSTONE || e.rev < 0 || !ValidKeyId(e.key) || (!e.pending && !e.key.NoKey?) {
        return;
      }
      var fitted := ValidatedVectorDims(dims, e.vectors);
      if fitted.None? || (id !in chats && |chats| >= MAX_CHATS) {
        return;
      }
      UpsertedOK(View(), id, e, tokens);
      FitMeans(dims, e.vectors);
      Insert(id, e, tokens, fitted.value);
      MaybeCompact();
      ok := true;
      PutMeans(old(View()), View(), id, e, Accepted(tokens, {}), fitted.value);
    }

    method Insert(id: Id, e: Entry, tokens: seq<Token>, newDims: nat)
      requires id in chats ==> 0 <= chats[id].slot < |slots|
      modifies this
      ensures View() == Upserted(old(View()), id, e, Accepted(tokens, {}), newDims)
    {
      if id in chats {
        Tombstone(id);
      }
      Place(id, e, newDims);
      postings := PostTokens(tokens, postings, |slots| - 1);
    }

    /** Give the chat a fresh slot at the end. */
    method Place(id: Id, e: Entry, newDims: nat)
      modifies this
      ensures View() == Placed(old(View()), id, e, newDims)
    {
      dims := newDims;
      chats := chats[id := e.(slot := |slots|)];
      slots := slots + [id];
    }

    method Remove(id: Id)
      requires Valid()
      modifies this
      ensures Valid() && Meaning(View()) == Play(old(Meaning(View())), DoRemove(id))
      ensures chats.Keys == old(chats).Keys - {id} && dims == old(dims) && OthersKept(old(View()), View(), id)
    {
      if id in chats {
        RemovalOK(View(), id);
        Tombstone(id);
        MaybeCompact();
        RemovalMeans(old(View()), View(), id);
      } else {
        assert Docs(View()) - {id} == Docs(View()) && Meta(View()) - {id} == Meta(View());
      }
    }

    method Tombstone(id: Id)
      requires id in chats && 0 <= chats[id].slot < |slots|
      modifies this
      ensures View() == Tombstoned(old(View()), id)
    {
      slots := slots[chats[id].slot := TOMBSTONE];
      dead := dead + 1;
      chats := chats - {id};
    }

    /** Replace only the vectors. */
    method RepairEmbedding(id: Id, vectors: seq<Vector>) returns (ok: bool)
      requires Valid()
      modifies this
      ensures Valid() && Meaning(View()) == Play(old(Meaning(View())), DoRepair(id, vectors))
      ensures ok <==> id in old(chats) && |vectors| <= MAX_CHUNKS_PER_CHAT && Fit(old(dims), vectors).Some?
      ensures ok ==>
                && chats == old(chats)[id := chats[id]]
                && chats[id].vectors == vectors && !chats[id].pending && chats[id].key.NoKey?
                && chats[id].slot == old(chats)[id].slot && chats[id].etag == old(chats)[id].etag
                && chats[id].rev == old(chats)[id].rev
      ensures ok ==> slots == old(slots) && postings == old(postings) && dead == old(dead)
      ensures ok ==> dims == Settled(old(dims), vectors) && Docs(View()) == old(Docs(View()))
      ensures !ok ==> View() == old(View())
    {
      ok := false;
      if id !in chats {
        return;
      }
      var fitted := ValidatedVectorDims(dims, vectors);
      if fitted.None? {
        return;
      }
      EntriesKeepFitting(chats, dims, vectors);
      FitMeans(dims, vectors);
      var e := chats[id].(vectors := vectors, pending := false, key := NoKey);
      RewrittenOK(View(), id, e, fitted.value);
      chats := chats[id := e];
      dims := fitted.value;
      ok := true;
    }

    /** Record which key a pending entry waits for. */
    method MarkEmbeddingKey(id: Id, key: KeyTag) returns (ok: bool)
      requires Valid()
      modifies this
      ensures Valid() && Meaning(View()) == Play(old(Meaning(View())), DoMark(id, key))
      ensures ok <==>
              && id in old(chats) && old(chats)[id].pending && key.KeyTag? && key.wellFormed
              && old(chats)[id].key != key
      ensures ok ==> chats == old(chats)[id := chats[id]] && chats[id].key == key && chats[id].pending
      ensures ok ==> chats[id].vectors == old(chats)[id].vectors && chats[id].slot == old(chats)[id].slot
      ensures ok ==> chats[id].etag == old(chats)[id].etag && chats[id].rev == old(chats)[id].rev
      ensures slots == old(slots) && postings == old(postings) && dims == old(dims) && dead == old(dead)
      ensures Docs(View()) == old(Docs(View())) && (!ok ==> chats == old(chats))
    {
      if id !in chats || !chats[id].pending || key.NoKey? || !ValidKeyId(key) || chats[id].key == key {
        return false;
      }
      assert EntryOK(chats[id], dims);
      RewrittenOK(View(), id, chats[id].(key := key), dims);
      chats := chats[id := chats[id].(key := key)];
      ok := true;
    }

    method Do(op: Op)
      requires Valid()
      modifies this
      ensures Valid() && Meaning(View()) == Play(old(Meaning(View())), op)
    {
      match op {
        case DoUpsert(id, e, tokens) => var _ := Upsert(id, e, tokens);
        case DoRemove(id) => Remove(id);
        case DoRepair(id, vectors) => var _ := RepairEmbedding(id, vectors);
        case DoMark(id, key) => var _ := MarkEmbeddingKey(id, key);
      }
    }

    /** Rewrite slots and postings once tombstones outnumber live entries. */
    method MaybeCompact()
      requires Core(View())
      modifies this
      ensures Valid() && Meaning(View()) == old(Meaning(View()))
      ensures old(dead) < 64 || old(dead) <= |old(chats)| ==> View() == old(View())
      ensures old(dead) >= 64 && old(dead) > |old(chats)| ==> dead == 0 && slots == Live(old(slots))
    {
      if dead < COMPACTION_MIN_DEAD || dead <= |chats| {
        return;
      }
      CompactionIsInvisible(View());
      Compact();
    }

    method Compact()
      requires Core(View())
      modifies this
      ensures View() == Compacted(old(View()))
    {
      var remap, newSlots := Renumber();
      var newPostings := RewritePostings(remap);
      var moved := MoveEntries(remap);
      chats, postings, slots, dead := moved, newPostings, newSlots, 0;
    }

    method MoveEntries(remap: map<int, int>) returns (moved: map<Id, Entry>)
      requires SlotsOK(slots, chats)
      requires forall s :: s in remap <==> 0 <= s < |slots| && slots[s] != TOMBSTONE
      requires forall s | s in remap :: remap[s] == Rank(slots, s)
      ensures moved == CompactedChats(chats, slots)
    {
      moved := map[];
      var todo := chats.Keys;
      while todo != {}
        invariant todo <= chats.Keys
        invariant moved == map id | id in chats && id !in todo :: chats[id].(slot := Rank(slots, chats[id].slot))
        decreases todo
      {
        SomeMember(todo);
        var id :| id in todo;
        moved := moved[id := chats[id].(slot := remap[chats[id].slot])];
        todo := todo - {id};
      }
    }

    method Renumber() returns (remap: map<int, int>, newSlots: seq<Id>)
      ensures newSlots == Live(slots)
      ensures forall s :: s in remap <==> 0 <= s < |slots| && slots[s] != TOMBSTONE
      ensures forall s | s in remap :: remap[s] == Rank(slots, s)
    {
      remap, newSlots := map[], [];
      var s := 0;
      while s < |slots|
        invariant 0 <= s <= |slots|
        invariant newSlots == Live(slots[..s])
        invariant forall k :: k in remap <==> 0 <= k < s && slots[k] != TOMBSTONE
        invariant forall k | k in remap :: remap[k] == Rank(slots, k)
      {
        RankStep(slots, s);
        if slots[s] != TOMBSTONE {
          remap := remap[s := |newSlots|];
          newSlots := newSlots + [slots[s]];
        }
        s := s + 1;
      }
      assert slots[..s] == slots;
    }

    method RewritePostings(remap: map<int, int>) returns (kept: map<Token, seq<int>>)
      requires PostingsOK(postings, |slots|)
      requires forall s :: s in remap <==> 0 <= s < |slots| && slots[s] != TOMBSTONE
      requires forall s | s in remap :: remap[s] == Rank(slots, s)
      ensures kept == CompactedPostings(postings, slots)
    {
      kept := map[];
      var todo := postings.Keys;
      while todo != {}
        invariant todo <= postings.Keys
        invariant kept == map t | t in postings && t !in todo && Kept(postings[t], slots) != [] ::
            Kept(postings[t], slots)
        decreases todo
      {
        var t :| t in todo;
        var list := RewriteList(postings[t], remap);
        if list != [] {
          kept := kept[t := list];
        }
        todo := todo - {t};
      }
    }

    /** Ranks keep the order of slots, so the rewritten list needs no sorting. */
    method RewriteList(list: seq<int>, remap: map<int, int>) returns (kept: seq<int>)
      requires forall i | 0 <= i < |list| :: 0 <= list[i] < |slots|
      requires forall s :: s in remap <==> 0 <= s < |slots| && slots[s] != TOMBSTONE
      requires forall s | s in remap :: remap[s] == Rank(slots, s)
      ensures kept == Kept(list, slots)
    {
      kept := [];
      var i := 0;
      while i < |list|
        invariant 0 <= i <= |list|
        invariant kept == Kept(list[..i], slots)
      {
        assert list[..i + 1][..i] == list[..i];
        if list[i] in remap {
          kept := kept + [remap[list[i]]];
        }
        i := i + 1;
      }
      assert list[..i] == list;
    }

    /** The token's posting list without tombstoned slots: exactly the chats whose document
        holds the token. */
    method LivePostings(tok: Token) returns (live: seq<int>)
      requires Valid()
      ensures Ascending(live)
      ensures forall s | s in live :: 0 <= s < |slots| && slots[s] in chats && chats[slots[s]].slot == s
      ensures forall id | id in chats :: tok in Docs(View())[id] <==> chats[id].slot in live
    {
      live := [];
      var list := if tok in postings then postings[tok] else [];
      var i := 0;
      while i < |list|
        invariant 0 <= i <= |list|
        invariant Ascending(live) && forall k | 0 <= k < |live| && i < |list| :: live[k] < list[i]
        invariant forall s :: s in live <==> s in list[..i] && slots[s] != TOMBSTONE
      {
        assert list[..i + 1] == list[..i] + [list[i]];
        if slots[list[i]] != TOMBSTONE {
          live := live + [list[i]];
        }
        i := i + 1;
      }
      assert list[..i] == list;
    }
  }

  /* ---------- any sequence of mutations ---------- */

  ghost function PlayAll(p: Plain, ops: seq<Op>): Plain
    decreases |ops|
  {
    if ops == [] then p else Play(PlayAll(p, ops[..|ops| - 1]), ops[|ops| - 1])
  }

  /** However mutations and compactions interleave, a fresh index stands for the plain
      store the same mutations give. */
  method Replay(ops: seq<Op>) returns (ix: Index)
    ensures fresh(ix) && ix.Valid()
    ensures Meaning(ix.View()) == PlayAll(Meaning(EMPTY_TABLE), ops)
  {
    ix := new Index();
    var i := 0;
    while i < |ops|
      invariant 0 <= i <= |ops|
      invariant fresh(ix) && ix.Valid()
      invariant Meaning(ix.View()) == PlayAll(Meaning(EMPTY_TABLE), ops[..i])
    {
      assert ops[..i + 1][..i] == ops[..i];
      ix.Do(ops[i]);
      i := i + 1;
    }
    assert ops[..i] == ops;
  }
}
