/** Query ranking: two truncated ranked lists fused into one answer. The answer is a unique
    sort, depends only on the plain store behind the index, and never on iteration order. */
module SearchRanking {
  import opened Prelude
  import opened InvertedIndex

  const RRF_K := 60
  const DEPTH: nat := 128
  const LEXICAL_WEIGHT := 1.0
  const SEMANTIC_WEIGHT := 0.5

  /** A query: its tokens, the width of its vector (0 for none), cosine against that vector,
      and the weight of a token held by `df` of `n` chats. */
  datatype Query = Query(tokens: seq<Token>, width: nat, cosine: Vector -> real, idf: (nat, nat) -> real)

  datatype Hit = Hit(first: bool, score: real, id: Id)

  /** Earlier in a ranked list: the first tier, then the higher score, then the smaller id. */
  predicate Before(a: Hit, b: Hit) {
    if a.first != b.first then a.first
    else if a.score != b.score then a.score > b.score
    else a.id < b.id
  }

  ghost predicate Ranked(r: seq<Hit>) {
    forall i, j | 0 <= i < j < |r| :: Before(r[i], r[j])
  }

  /** `r` is the best `k` of `hits`, best first. */
  ghost predicate IsTop(hits: set<Hit>, k: nat, r: seq<Hit>) {
    && |r| == (if |hits| < k then |hits| else k)
    && (forall i | 0 <= i < |r| :: r[i] in hits)
    && Ranked(r)
    && (forall h, i | h in hits && h !in r && 0 <= i < |r| :: Before(r[i], h))
  }

  /** The best hit of a set is the same in every ranking of it. */
  lemma SameHead(hits: set<Hit>, k: nat, r: seq<Hit>, q: seq<Hit>)
    requires IsTop(hits, k, r) && IsTop(hits, k, q) && r != []
    ensures q != [] && r[0] == q[0]
  {
    assert q[0] in hits && r[0] in hits;
  }

  lemma TailIsTop(hits: set<Hit>, k: nat, r: seq<Hit>)
    requires IsTop(hits, k, r) && r != []
    ensures IsTop(hits - {r[0]}, k - 1, r[1..])
  {
    var t := r[1..];
    assert forall i | 0 <= i < |t| :: t[i] == r[i + 1] && Before(r[0], r[i + 1]);
    forall h, i | h in hits - {r[0]} && h !in t && 0 <= i < |t|
      ensures Before(t[i], h)
    {
      assert h !in r;
    }
  }

  /** A ranked list is determined by the set it ranks. */
  lemma {:induction false} TopIsUnique(hits: set<Hit>, k: nat, r: seq<Hit>, q: seq<Hit>)
    requires IsTop(hits, k, r) && IsTop(hits, k, q)
    ensures r == q
    decreases |r|
  {
    if r != [] {
      SameHead(hits, k, r, q);
      TailIsTop(hits, k, r);
      TailIsTop(hits, k, q);
      TopIsUnique(hits - {r[0]}, k - 1, r[1..], q[1..]);
      assert r == [r[0]] + r[1..] && q == [q[0]] + q[1..];
    }
  }

  /* ---------- the answer on the plain store ---------- */

  ghost function Holders(docs: map<Id, set<Token>>, tok: Token): set<Id> {
    set id | id in docs && tok in docs[id]
  }

  ghost function TokenWeight(docs: map<Id, set<Token>>, q: Query, tok: Token): real {
    (q.idf)(|docs|, |Holders(docs, tok)|)
  }

  /** The summed weights of the distinct query tokens a chat holds. */
  ghost function LexScore(docs: map<Id, set<Token>>, q: Query, tokens: seq<Token>, doc: set<Token>): real {
    if tokens == [] then 0.0
    else
      var k := |tokens| - 1;
      LexScore(docs, q, tokens[..k], doc) + if tokens[k] in doc && tokens[k] !in tokens[..k]
          then TokenWeight(docs, q, tokens[k]) else 0.0
  }

  predicate Matches(tokens: seq<Token>, doc: set<Token>) {
    exists tok | tok in tokens :: tok in doc
  }

  ghost function LexHits(docs: map<Id, set<Token>>, q: Query, tokens: seq<Token>): set<Hit> {
    set id | id in docs && Matches(tokens, docs[id]) :: Hit(true, LexScore(docs, q, tokens, docs[id]), id)
  }

  /** The best similarity over a chat's vectors of the query's width. */
  function Best(q: Query, vectors: seq<Vector>): Option<real> {
    if vectors == [] then None
    else
      var rest := Best(q, vectors[..|vectors| - 1]);
      var v := vectors[|vectors| - 1];
      if |v| != q.width then rest
      else if rest.None? || (q.cosine)(v) > rest.value then Some((q.cosine)(v))
      else rest
  }

  ghost function SemHits(meta: map<Id, Entry>, q: Query): set<Hit> {
    set id | id in meta && q.width > 0 && Best(q, meta[id].vectors).Some? ::
        Hit(true, Best(q, meta[id].vectors).value, id)
  }

  /** Reciprocal rank: what a chat's place in a ranked list contributes. */
  function Share(weight: real, ranked: seq<Hit>, id: Id): real {
    if ranked == [] then 0.0
    else
      var k := |ranked| - 1;
      if ranked[k].id == id then weight / (RRF_K + k + 1) as real else Share(weight, ranked[..k], id)
  }

  ghost function IdsOf(r: seq<Hit>): set<Id> {
    set h | h in r :: h.id
  }

  ghost function FusedHits(lex: seq<Hit>, sem: seq<Hit>): set<Hit> {
    set id | id in IdsOf(lex) + IdsOf(sem) ::
      Hit(id in IdsOf(lex), Share(LEXICAL_WEIGHT, lex, id) + Share(SEMANTIC_WEIGHT, sem, id), id)
  }

  ghost predicate IsAnswer(p: Plain, q: Query, limit: int, r: seq<Hit>) {
    if limit <= 0 || |p.docs| == 0 then r == []
    else exists lex, sem ::
      && IsTop(LexHits(p.docs, q, q.tokens), DEPTH, lex)
      && IsTop(SemHits(p.meta, q), DEPTH, sem)
      && IsTop(FusedHits(lex, sem), limit, r)
  }

  /** One plain store and query have one answer. */
  lemma AnswerIsUnique(p: Plain, q: Query, limit: int, r: seq<Hit>, r': seq<Hit>)
    requires IsAnswer(p, q, limit, r) && IsAnswer(p, q, limit, r')
    ensures r == r'
  {
    if limit > 0 && |p.docs| != 0 {
      var lex, sem :| IsTop(LexHits(p.docs, q, q.tokens), DEPTH, lex) && IsTop(SemHits(p.meta, q), DEPTH, sem)
        && IsTop(FusedHits(lex, sem), limit, r);
      var lex', sem' :| IsTop(LexHits(p.docs, q, q.tokens), DEPTH, lex') && IsTop(SemHits(p.meta, q), DEPTH, sem')
        && IsTop(FusedHits(lex', sem'), limit, r');
      TopIsUnique(LexHits(p.docs, q, q.tokens), DEPTH, lex, lex');
      TopIsUnique(SemHits(p.meta, q), DEPTH, sem, sem');
      TopIsUnique(FusedHits(lex, sem), limit, r, r');
    }
  }

  /** An answer holds at most `limit` distinct live chats. */
  lemma AnswerShape(p: Plain, q: Query, limit: int, r: seq<Hit>)
    requires IsAnswer(p, q, limit, r) && p.meta.Keys == p.docs.Keys
    ensures |r| <= if limit > 0 then limit else 0
    ensures forall i | 0 <= i < |r| :: r[i].id in p.docs
    ensures forall i, j | 0 <= i < j < |r| :: r[i].id != r[j].id
  {
    if limit > 0 && |p.docs| != 0 {
      var lex, sem :| IsTop(LexHits(p.docs, q, q.tokens), DEPTH, lex) && IsTop(SemHits(p.meta, q), DEPTH, sem)
        && IsTop(FusedHits(lex, sem), limit, r);
      assert forall h | h in lex :: h in LexHits(p.docs, q, q.tokens);
      assert forall h | h in sem :: h in SemHits(p.meta, q);
      assert forall i | 0 <= i < |r| :: r[i] in FusedHits(lex, sem);
      forall i, j | 0 <= i < j < |r|
        ensures r[i].id != r[j].id
      {
        assert Before(r[i], r[j]);
      }
    }
  }

  /** Every hit from the truncated keyword list precedes every other hit, and a
      keyword-listed chat is left out only when the answer is full of keyword-listed chats. */
  lemma KeywordTierFirst(p: Plain, q: Query, limit: int, r: seq<Hit>, lex: seq<Hit>)
    requires IsAnswer(p, q, limit, r) && limit > 0 && |p.docs| != 0
    requires IsTop(LexHits(p.docs, q, q.tokens), DEPTH, lex)
    ensures forall i, j | 0 <= i < |r| && 0 <= j < |r| && r[i].id in IdsOf(lex) && r[j].id !in IdsOf(lex) :: i < j
    ensures forall id | id in IdsOf(lex) && id !in IdsOf(r) :: forall i | 0 <= i < |r| :: r[i].id in IdsOf(lex)
  {
    var lex', sem :| IsTop(LexHits(p.docs, q, q.tokens), DEPTH, lex') && IsTop(SemHits(p.meta, q), DEPTH, sem)
      && IsTop(FusedHits(lex', sem), limit, r);
    TopIsUnique(LexHits(p.docs, q, q.tokens), DEPTH, lex, lex');
    TierOrder(lex, sem, limit, r);
    forall id | id in IdsOf(lex) && id !in IdsOf(r)
      ensures forall i | 0 <= i < |r| :: r[i].id in IdsOf(lex)
    {
      LeftOut(lex, sem, limit, r, id);
    }
  }

  lemma TierOrder(lex: seq<Hit>, sem: seq<Hit>, limit: nat, r: seq<Hit>)
    requires IsTop(FusedHits(lex, sem), limit, r)
    ensures forall i, j | 0 <= i < |r| && 0 <= j < |r| && r[i].id in IdsOf(lex) && r[j].id !in IdsOf(lex) :: i < j
  {
    forall i, j | 0 <= i < |r| && 0 <= j < |r| && r[i].id in IdsOf(lex) && r[j].id !in IdsOf(lex)
      ensures i < j
    {
      assert r[i] in FusedHits(lex, sem) && r[j] in FusedHits(lex, sem);
    }
  }

  lemma LeftOut(lex: seq<Hit>, sem: seq<Hit>, limit: nat, r: seq<Hit>, id: Id)
    requires IsTop(FusedHits(lex, sem), limit, r) && id in IdsOf(lex) && id !in IdsOf(r)
    ensures forall i | 0 <= i < |r| :: r[i].id in IdsOf(lex)
  {
    var h := Hit(true, Share(LEXICAL_WEIGHT, lex, id) + Share(SEMANTIC_WEIGHT, sem, id), id);
    assert h in FusedHits(lex, sem) && h !in r;
    forall i | 0 <= i < |r|
      ensures r[i].id in IdsOf(lex)
    {
      assert r[i] in FusedHits(lex, sem) && Before(r[i], h);
    }
  }

  /** `Best` is the maximum over the vectors of the right width. */
  lemma {:induction false} BestIsMax(q: Query, vectors: seq<Vector>)
    ensures Best(q, vectors).None? <==> forall v | v in vectors :: |v| != q.width
    ensures Best(q, vectors).Some? ==> exists v | v in vectors ::
        |v| == q.width && (q.cosine)(v) == Best(q, vectors).value
    ensures Best(q, vectors).Some? ==> forall v | v in vectors && |v| == q.width ::
        (q.cosine)(v) <= Best(q, vectors).value
  {
    if vectors != [] {
      var k := |vectors| - 1;
      BestIsMax(q, vectors[..k]);
      assert vectors == vectors[..k] + [vectors[k]];
      assert vectors[k] in vectors;
    }
  }

  /* ---------- sorting in any iteration order ---------- */

  ghost function HitsOf(key: map<int, Hit>): set<Hit> {
    set s | s in key :: key[s]
  }

  /** Distinct items have distinct ids. */
  ghost predicate Keyed(key: map<int, Hit>) {
    forall s, u | s in key && u in key && key[s].id == key[u].id :: s == u
  }

  lemma InHits(key: map<int, Hit>, s: int)
    requires s in key
    ensures key[s] in HitsOf(key)
  {
  }

  lemma IdsDiffer(key: map<int, Hit>, s: int, u: int)
    requires Keyed(key) && s in key && u in key && s != u
    ensures key[s].id != key[u].id
  {
  }

  ghost predicate InOrder(r: seq<int>, key: map<int, Hit>) {
    && (forall i | 0 <= i < |r| :: r[i] in key)
    && (forall i, j | 0 <= i < j < |r| :: Before(key[r[i]], key[r[j]]))
  }

  ghost function Mapped(r: seq<int>, key: map<int, Hit>): (hits: seq<Hit>)
    requires forall i | 0 <= i < |r| :: r[i] in key
    ensures |hits| == |r| && forall i | 0 <= i < |r| :: hits[i] == key[r[i]]
  {
    seq(|r|, i requires 0 <= i < |r| => key[r[i]])
  }

  method InsertSorted(r: seq<int>, key: map<int, Hit>, s: int) returns (r': seq<int>)
    requires InOrder(r, key) && Keyed(key) && s in key && s !in r
    ensures InOrder(r', key) && |r'| == |r| + 1 && forall x :: x in r' <==> x in r || x == s
  {
    var j := 0;
    while j < |r| && Before(key[r[j]], key[s])
      invariant 0 <= j <= |r|
      invariant forall i | 0 <= i < j :: Before(key[r[i]], key[s])
    {
      j := j + 1;
    }
    if j < |r| {
      AfterInserted(r, key, s, j);
    }
    Inserted(r, key, s, j);
    r' := r[..j] + [s] + r[j..];
  }

  lemma AfterInserted(r: seq<int>, key: map<int, Hit>, s: int, j: nat)
    requires InOrder(r, key) && Keyed(key) && s in key && s !in r && j < |r| && !Before(key[r[j]], key[s])
    ensures forall i | j <= i < |r| :: Before(key[s], key[r[i]])
  {
    assert r[j] in r;
    IdsDiffer(key, r[j], s);
    assert Before(key[s], key[r[j]]);
  }

  lemma Inserted(r: seq<int>, key: map<int, Hit>, s: int, j: nat)
    requires InOrder(r, key) && s in key && j <= |r|
    requires forall i | 0 <= i < j :: Before(key[r[i]], key[s])
    requires forall i | j <= i < |r| :: Before(key[s], key[r[i]])
    ensures
      var r' := r[..j] + [s] + r[j..];
      InOrder(r', key) && forall x :: x in r' <==> x in r || x == s
  {
    assert r == r[..j] + r[j..];
  }

  /** Collect the items in any order and sort them. */
  method SortKeys(key: map<int, Hit>) returns (r: seq<int>)
    requires Keyed(key)
    ensures InOrder(r, key) && |r| == |key| && forall x :: x in r <==> x in key
  {
    r := [];
    var todo := key.Keys;
    assert |key.Keys| == |key|;
    while todo != {}
      invariant todo <= key.Keys && |r| + |todo| == |key|
      invariant InOrder(r, key) && forall x :: x in r <==> x in key && x !in todo
      decreases todo
    {
      SomeMember(todo);
      var s :| s in todo;
      r := InsertSorted(r, key, s);
      todo := todo - {s};
    }
  }

  lemma {:induction false} HitsCount(key: map<int, Hit>, keys: set<int>)
    requires Keyed(key) && keys <= key.Keys
    ensures |set s | s in keys :: key[s]| == |keys|
  {
    var hits := set s | s in keys :: key[s];
    if keys == {} {
      assert hits == {};
    } else {
      SomeMember(keys);
      var s :| s in keys;
      HitsCount(key, keys - {s});
      assert hits == (set u | u in keys - {s} :: key[u]) + {key[s]};
    }
  }

  /** Cutting a sorted list of all hits leaves the best of them. */
  lemma CutIsTop(key: map<int, Hit>, full: seq<int>, k: nat)
    requires Keyed(key) && InOrder(full, key) && |full| == |key| && forall x :: x in full <==> x in key
    ensures
      var r := if |full| > k then full[..k] else full;
      IsTop(HitsOf(key), k, Mapped(r, key))
  {
    var r := if |full| > k then full[..k] else full;
    var m := Mapped(r, key);
    HitsCount(key, key.Keys);
    assert HitsOf(key) == set s | s in key.Keys :: key[s];
    assert |key.Keys| == |key|;
    forall i | 0 <= i < |m|
      ensures m[i] in HitsOf(key)
    {
      InHits(key, r[i]);
    }
    forall h, i | h in HitsOf(key) && h !in m && 0 <= i < |m|
      ensures Before(m[i], h)
    {
      var s :| s in key && key[s] == h;
      var j :| 0 <= j < |full| && full[j] == s;
      assert forall i | 0 <= i < |r| :: m[i] == key[full[i]];
    }
  }

  /** Rank slots by score, ties by chat id, cut to the candidate depth. */
  method RankSlots(scores: map<int, real>, slots: seq<Id>) returns (ranked: seq<int>)
    requires forall s | s in scores :: 0 <= s < |slots|
    requires forall s, u | s in scores && u in scores && slots[s] == slots[u] :: s == u
    ensures NoRepeats(ranked) && forall i | 0 <= i < |ranked| :: ranked[i] in scores
    ensures
      var key := KeyOf(scores, slots);
      IsTop(HitsOf(key), DEPTH, Mapped(ranked, key))
  {
    var key := map s | s in scores :: Hit(true, scores[s], slots[s]);
    ranked := SortKeys(key);
    CutIsTop(key, ranked, DEPTH);
    if |ranked| > DEPTH {
      ranked := ranked[..DEPTH];
    }
  }

  /* ---------- keyword scores ---------- */

  lemma {:induction false} NoMatchNoScore(docs: map<Id, set<Token>>, q: Query, tokens: seq<Token>, doc: set<Token>)
    requires !Matches(tokens, doc)
    ensures LexScore(docs, q, tokens, doc) == 0.0
  {
    if tokens != [] {
      var k := |tokens| - 1;
      assert tokens[k] in tokens;
      assert forall tok | tok in tokens[..k] :: tok in tokens;
      NoMatchNoScore(docs, q, tokens[..k], doc);
    }
  }

  /** A slot's score so far. */
  function At(scores: map<int, real>, s: int): real {
    if s in scores then scores[s] else 0.0
  }

  /** Slots in `live` gain `w`. */
  method AddScores(scores: map<int, real>, live: seq<int>, w: real) returns (out: map<int, real>)
    requires Ascending(live)
    ensures forall s :: s in out <==> s in scores || s in live
    ensures forall s :: At(out, s) == At(scores, s) + if s in live then w else 0.0
  {
    out := scores;
    var i := 0;
    while i < |live|
      invariant 0 <= i <= |live|
      invariant forall s :: s in out <==> s in scores || s in live[..i]
      invariant forall s :: At(out, s) == At(scores, s) + if s in live[..i] then w else 0.0
    {
      var s := live[i];
      assert live[..i + 1] == live[..i] + [s];
      assert s !in live[..i];
      out := out[s := At(out, s) + w];
      i := i + 1;
    }
    assert live[..i] == live;
  }

  /** The slot scores stand for the keyword scores of the chats at those slots. */
  ghost predicate ScoresAre(t: Table, q: Query, tokens: seq<Token>, scores: map<int, real>) {
    && (forall s | s in scores :: 0 <= s < |t.slots| && t.slots[s] != TOMBSTONE)
    && (forall id | id in t.chats :: t.chats[id].slot in scores <==> Matches(tokens, Docs(t)[id]))
    && (forall id | id in t.chats :: At(scores, t.chats[id].slot) == LexScore(Docs(t), q, tokens, Docs(t)[id]))
  }

  /** One chat's score after one more query token. */
  lemma OneMoreToken(docs: map<Id, set<Token>>, q: Query, tokens: seq<Token>, k: nat, doc: set<Token>)
    requires k < |tokens|
    ensures
      var tok := tokens[k];
      var gain := if tok in doc && tok !in tokens[..k] then TokenWeight(docs, q, tok) else 0.0;
      LexScore(docs, q, tokens[..k + 1], doc) == LexScore(docs, q, tokens[..k], doc) + gain
  {
    assert tokens[..k + 1][..k] == tokens[..k];
  }

  lemma RepeatedToken(t: Table, q: Query, k: nat, scores: map<int, real>)
    requires k < |q.tokens| && q.tokens[k] in q.tokens[..k] && ScoresAre(t, q, q.tokens[..k], scores)
    ensures ScoresAre(t, q, q.tokens[..k + 1], scores)
  {
    forall id | id in t.chats
      ensures t.chats[id].slot in scores <==> Matches(q.tokens[..k + 1], Docs(t)[id])
      ensures At(scores, t.chats[id].slot) == LexScore(Docs(t), q, q.tokens[..k + 1], Docs(t)[id])
    {
      OneMoreToken(Docs(t), q, q.tokens, k, Docs(t)[id]);
    }
  }

  /** `live` lists the slots of the chats that hold the token. */
  ghost predicate LiveFor(t: Table, tok: Token, live: seq<int>) {
    && Ascending(live)
    && (forall s | s in live :: 0 <= s < |t.slots| && t.slots[s] != TOMBSTONE)
    && (forall id | id in t.chats :: tok in Docs(t)[id] <==> t.chats[id].slot in live)
  }

  lemma NewToken(t: Table, q: Query, k: nat, scores: map<int, real>, live: seq<int>, out: map<int, real>)
    requires k < |q.tokens| && q.tokens[k] !in q.tokens[..k] && ScoresAre(t, q, q.tokens[..k], scores)
    requires LiveFor(t, q.tokens[k], live)
    requires forall s :: s in out <==> s in scores || s in live
    requires forall s :: At(out, s) == At(scores, s) + if s in live then TokenWeight(Docs(t), q, q.tokens[k]) else 0.0
    ensures ScoresAre(t, q, q.tokens[..k + 1], out)
  {
    forall id | id in t.chats
      ensures t.chats[id].slot in out <==> Matches(q.tokens[..k + 1], Docs(t)[id])
      ensures At(out, t.chats[id].slot) == LexScore(Docs(t), q, q.tokens[..k + 1], Docs(t)[id])
    {
      OneMoreToken(Docs(t), q, q.tokens, k, Docs(t)[id]);
    }
  }

  /** The chats at some slots. */
  ghost function ChatsAt(chats: map<Id, Entry>, live: seq<int>): set<Id> {
    set id | id in chats && chats[id].slot in live
  }

  /** A list of distinct live slots has as many slots as chats at them. */
  lemma {:induction false} ChatsAtCount(slots: seq<Id>, chats: map<Id, Entry>, live: seq<int>)
    requires SlotsOK(slots, chats) && Ascending(live)
    requires forall s | s in live :: 0 <= s < |slots| && slots[s] != TOMBSTONE
    ensures |ChatsAt(chats, live)| == |live|
  {
    if live == [] {
      assert ChatsAt(chats, live) == {};
    } else {
      var k := |live| - 1;
      var s := live[k];
      assert live == live[..k] + [s];
      assert forall x | x in live[..k] :: x in live;
      ChatsAtCount(slots, chats, live[..k]);
      assert s in live && s !in live[..k];
      assert chats[slots[s]].slot == s;
      OneMoreChat(slots, chats, live[..k], s);
    }
  }

  lemma OneMoreChat(slots: seq<Id>, chats: map<Id, Entry>, live: seq<int>, s: int)
    requires SlotsOK(slots, chats) && 0 <= s < |slots| && slots[s] != TOMBSTONE && s !in live
    ensures slots[s] !in ChatsAt(chats, live) && ChatsAt(chats, live + [s]) == ChatsAt(chats, live) + {slots[s]}
  {
    forall id
      ensures id in ChatsAt(chats, live + [s]) <==> id in ChatsAt(chats, live) || id == slots[s]
    {
      assert id in chats ==> (chats[id].slot == s <==> id == slots[s]);
      assert id in chats ==> (chats[id].slot in live + [s] <==> chats[id].slot in live || chats[id].slot == s);
    }
  }

  /** The length of a live posting list is the token's document frequency. */
  lemma Frequency(t: Table, tok: Token, live: seq<int>)
    requires SlotsOK(t.slots, t.chats) && LiveFor(t, tok, live)
    ensures |Holders(Docs(t), tok)| == |live| && |Docs(t)| == |t.chats|
  {
    ChatsAtCount(t.slots, t.chats, live);
    assert forall id ::
      (id in Holders(Docs(t), tok) <==> id in ChatsAt(t.chats, live));
    assert Holders(Docs(t), tok) == ChatsAt(t.chats, live);
    assert Docs(t).Keys == t.chats.Keys && |Docs(t).Keys| == |Docs(t)| && |t.chats.Keys| == |t.chats|;
  }

  /** The keys scores are ranked by. */
  ghost function KeyOf(scores: map<int, real>, slots: seq<Id>): map<int, Hit>
    requires forall s | s in scores :: 0 <= s < |slots|
  {
    map s | s in scores :: Hit(true, scores[s], slots[s])
  }

  lemma LexHitsAre(t: Table, q: Query, scores: map<int, real>)
    requires SlotsOK(t.slots, t.chats) && ScoresAre(t, q, q.tokens, scores)
    ensures HitsOf(KeyOf(scores, t.slots)) == LexHits(Docs(t), q, q.tokens)
  {
    var key := KeyOf(scores, t.slots);
    forall h
      ensures h in HitsOf(key) <==> h in LexHits(Docs(t), q, q.tokens)
    {
      if h in HitsOf(key) {
        var s :| s in key && key[s] == h;
      }
      if h in LexHits(Docs(t), q, q.tokens) {
        InHits(key, t.chats[h.id].slot);
      }
    }
  }

  method LexicalScores(ix: Index, q: Query) returns (scores: map<int, real>)
    requires ix.Valid()
    ensures ScoresAre(ix.View(), q, q.tokens, scores)
  {
    scores := map[];
    var seen: set<Token> := {};
    var i := 0;
    ghost var t := ix.View();
    while i < |q.tokens|
      invariant 0 <= i <= |q.tokens|
      invariant forall tok :: tok in seen <==> tok in q.tokens[..i]
      invariant ScoresAre(t, q, q.tokens[..i], scores)
    {
      var tok := q.tokens[i];
      assert q.tokens[..i + 1] == q.tokens[..i] + [tok];
      if tok in seen {
        RepeatedToken(t, q, i, scores);
      } else {
        seen := seen + {tok};
        var live := ix.LivePostings(tok);
        Frequency(t, tok, live);
        var out := AddScores(scores, live, (q.idf)(|ix.chats|, |live|));
        NewToken(t, q, i, scores, live, out);
        scores := out;
      }
      i := i + 1;
    }
    assert q.tokens[..i] == q.tokens;
  }

  /* ---------- vector scores ---------- */

  method BestSimilarity(q: Query, vectors: seq<Vector>) returns (best: Option<real>)
    ensures best == Best(q, vectors)
  {
    best := None;
    var i := 0;
    while i < |vectors|
      invariant 0 <= i <= |vectors|
      invariant best == Best(q, vectors[..i])
    {
      assert vectors[..i + 1][..i] == vectors[..i];
      if |vectors[i]| == q.width {
        var c := (q.cosine)(vectors[i]);
        if best.None? || c > best.value {
          best := Some(c);
        }
      }
      i := i + 1;
    }
    assert vectors[..i] == vectors;
  }

  /** The slot scores are the similarities of the chats visited so far. */
  ghost predicate SimilaritiesAre(
    slots: seq<Id>, chats: map<Id, Entry>, q: Query, todo: set<Id>, scores: map<int, real>) {
    && (forall s | s in scores ::
          && 0 <= s < |slots| && slots[s] in chats && slots[s] !in todo && chats[slots[s]].slot == s
          && Best(q, chats[slots[s]].vectors) == Some(scores[s]))
    && (forall id | id in chats && id !in todo :: Best(q, chats[id].vectors).Some? ==> chats[id].slot in scores)
  }

  method SemanticScores(ix: Index, q: Query) returns (scores: map<int, real>)
    requires ix.Valid()
    ensures q.width == 0 ==> scores == map[]
    ensures q.width > 0 ==> SimilaritiesAre(ix.slots, ix.chats, q, {}, scores)
  {
    scores := map[];
    if q.width == 0 {
      return;
    }
    var todo := ix.chats.Keys;
    while todo != {}
      invariant todo <= ix.chats.Keys
      invariant SimilaritiesAre(ix.slots, ix.chats, q, todo, scores)
      decreases todo
    {
      SomeMember(todo);
      var id :| id in todo;
      var e := ix.chats[id];
      var best := BestSimilarity(q, e.vectors);
      if best.Some? {
        scores := scores[e.slot := best.value];
      }
      todo := todo - {id};
    }
  }

  lemma SemHitsAre(t: Table, q: Query, scores: map<int, real>)
    requires SlotsOK(t.slots, t.chats) && q.width > 0 && SimilaritiesAre(t.slots, t.chats, q, {}, scores)
    ensures HitsOf(KeyOf(scores, t.slots)) == SemHits(Meta(t), q)
  {
    var key := KeyOf(scores, t.slots);
    forall h
      ensures h in HitsOf(key) <==> h in SemHits(Meta(t), q)
    {
      if h in HitsOf(key) {
        var s :| s in key && key[s] == h;
        assert h.id in Meta(t) && Meta(t)[h.id].vectors == t.chats[h.id].vectors;
      }
      if h in SemHits(Meta(t), q) {
        assert Meta(t)[h.id].vectors == t.chats[h.id].vectors;
        var s := t.chats[h.id].slot;
        assert s in scores && t.slots[s] == h.id;
        InHits(key, s);
      }
    }
  }

  /* ---------- fusion ---------- */

  /** What a slot's place in a ranked list contributes. */
  ghost function SlotShare(weight: real, ranked: seq<int>, s: int): real {
    if ranked == [] then 0.0
    else
      var k := |ranked| - 1;
      if ranked[k] == s then weight / (RRF_K + k + 1) as real else SlotShare(weight, ranked[..k], s)
  }

  lemma {:induction false} NotRanked(weight: real, ranked: seq<int>, s: int)
    requires s !in ranked
    ensures SlotShare(weight, ranked, s) == 0.0
  {
    if ranked != [] {
      var k := |ranked| - 1;
      assert ranked[k] in ranked && forall x | x in ranked[..k] :: x in ranked;
      NotRanked(weight, ranked[..k], s);
    }
  }

  ghost predicate NoRepeats(ranked: seq<int>) {
    forall i, j | 0 <= i < j < |ranked| :: ranked[i] != ranked[j]
  }

  method Fuse(fused: map<int, real>, ranked: seq<int>, weight: real) returns (out: map<int, real>)
    requires NoRepeats(ranked)
    ensures forall s :: s in out <==> s in fused || s in ranked
    ensures forall s :: At(out, s) == At(fused, s) + SlotShare(weight, ranked, s)
  {
    out := fused;
    var rank := 0;
    while rank < |ranked|
      invariant 0 <= rank <= |ranked|
      invariant forall s :: s in out <==> s in fused || s in ranked[..rank]
      invariant forall s :: At(out, s) == At(fused, s) + SlotShare(weight, ranked[..rank], s)
    {
      var s := ranked[rank];
      assert ranked[..rank + 1] == ranked[..rank] + [s];
      assert ranked[..rank + 1][..rank] == ranked[..rank];
      NotRanked(weight, ranked[..rank], s);
      out := out[s := At(out, s) + weight / (RRF_K + rank + 1) as real];
      rank := rank + 1;
    }
    assert ranked[..rank] == ranked;
  }

  /** A slot's share is its chat's share. */
  lemma {:induction false} ShareAgrees(weight: real, ranked: seq<int>, hits: seq<Hit>, slots: seq<Id>, s: nat)
    requires |hits| == |ranked| && s < |slots|
    requires forall i | 0 <= i < |ranked| :: 0 <= ranked[i] < |slots| && hits[i].id == slots[ranked[i]]
    requires forall i | 0 <= i < |ranked| :: slots[ranked[i]] == slots[s] ==> ranked[i] == s
    ensures SlotShare(weight, ranked, s) == Share(weight, hits, slots[s])
  {
    if ranked != [] {
      var k := |ranked| - 1;
      ShareAgrees(weight, ranked[..k], hits[..k], slots, s);
    }
  }

  /** `hits` are the chats at distinct live slots `ranked`, in order. */
  ghost predicate Names(slots: seq<Id>, ranked: seq<int>, hits: seq<Hit>) {
    && |hits| == |ranked| && NoRepeats(ranked)
    && forall i | 0 <= i < |ranked| :: 0 <= ranked[i] < |slots| && slots[ranked[i]] != TOMBSTONE &&
        hits[i].id == slots[ranked[i]]
  }

  /** No chat has two live slots. */
  ghost predicate Injective(slots: seq<Id>) {
    forall s, u | 0 <= s < |slots| && 0 <= u < |slots| && slots[s] == slots[u] && slots[s] != TOMBSTONE :: s == u
  }

  lemma NamedFrom(slots: seq<Id>, ranked: seq<int>, hits: seq<Hit>, id: Id) returns (s: nat)
    requires Names(slots, ranked, hits) && id in IdsOf(hits)
    ensures s < |slots| && slots[s] == id && id != TOMBSTONE && s in ranked
  {
    var i :| 0 <= i < |hits| && hits[i].id == id;
    s := ranked[i];
  }

  ghost predicate FusedFrom(fused: map<int, real>, lexRanked: seq<int>, semRanked: seq<int>) {
    && (forall s :: s in fused <==> s in lexRanked || s in semRanked)
    && (forall s :: At(fused, s) == SlotShare(LEXICAL_WEIGHT, lexRanked, s) + SlotShare(SEMANTIC_WEIGHT, semRanked, s))
  }

  ghost function FusedHit(lex: seq<Hit>, sem: seq<Hit>, id: Id): Hit {
    Hit(id in IdsOf(lex), Share(LEXICAL_WEIGHT, lex, id) + Share(SEMANTIC_WEIGHT, sem, id), id)
  }

  lemma FusedAt(
    slots: seq<Id>, lexRanked: seq<int>, lex: seq<Hit>, semRanked: seq<int>, sem: seq<Hit>, fused: map<int, real>,
    s: nat)
    requires Names(slots, lexRanked, lex) && Names(slots, semRanked, sem) && Injective(slots)
    requires FusedFrom(fused, lexRanked, semRanked)
    requires s < |slots| && slots[s] != TOMBSTONE
    ensures s in fused <==> slots[s] in IdsOf(lex) + IdsOf(sem)
    ensures s in fused ==> Hit(s in lexRanked, fused[s], slots[s]) == FusedHit(lex, sem, slots[s])
  {
    ShareAgrees(LEXICAL_WEIGHT, lexRanked, lex, slots, s);
    ShareAgrees(SEMANTIC_WEIGHT, semRanked, sem, slots, s);
    assert At(fused, s) == SlotShare(LEXICAL_WEIGHT, lexRanked, s) + SlotShare(SEMANTIC_WEIGHT, semRanked, s);
  }

  ghost predicate FusedKey(slots: seq<Id>, lexRanked: seq<int>, fused: map<int, real>, key: map<int, Hit>) {
    && key.Keys == fused.Keys
    && forall s | s in key :: 0 <= s < |slots| && slots[s] != TOMBSTONE &&
        key[s] == Hit(s in lexRanked, fused[s], slots[s])
  }

  lemma FusedHitFrom(
    slots: seq<Id>, lexRanked: seq<int>, lex: seq<Hit>, semRanked: seq<int>, sem: seq<Hit>, fused: map<int, real>,
    key: map<int, Hit>, h: Hit)
    requires Names(slots, lexRanked, lex) && Names(slots, semRanked, sem) && Injective(slots)
    requires FusedFrom(fused, lexRanked, semRanked) && FusedKey(slots, lexRanked, fused, key)
    requires h in HitsOf(key)
    ensures h in FusedHits(lex, sem)
  {
    var s :| s in key && key[s] == h;
    FusedAt(slots, lexRanked, lex, semRanked, sem, fused, s);
  }

  lemma FusedHitIn(
    slots: seq<Id>, lexRanked: seq<int>, lex: seq<Hit>, semRanked: seq<int>, sem: seq<Hit>, fused: map<int, real>,
    key: map<int, Hit>, h: Hit)
    requires Names(slots, lexRanked, lex) && Names(slots, semRanked, sem) && Injective(slots)
    requires FusedFrom(fused, lexRanked, semRanked) && FusedKey(slots, lexRanked, fused, key)
    requires h in FusedHits(lex, sem)
    ensures h in HitsOf(key)
  {
    var s: nat;
    if h.id in IdsOf(lex) {
      s := NamedFrom(slots, lexRanked, lex, h.id);
    } else {
      s := NamedFrom(slots, semRanked, sem, h.id);
    }
    FusedAt(slots, lexRanked, lex, semRanked, sem, fused, s);
    InHits(key, s);
  }

  lemma FusedHitsAre(
    slots: seq<Id>, lexRanked: seq<int>, lex: seq<Hit>, semRanked: seq<int>, sem: seq<Hit>, fused: map<int, real>,
    key: map<int, Hit>)
    requires Names(slots, lexRanked, lex) && Names(slots, semRanked, sem) && Injective(slots)
    requires FusedFrom(fused, lexRanked, semRanked) && FusedKey(slots, lexRanked, fused, key)
    ensures HitsOf(key) == FusedHits(lex, sem) && Keyed(key)
  {
    forall h
      ensures h in HitsOf(key) <==> h in FusedHits(lex, sem)
    {
      if h in HitsOf(key) {
        FusedHitFrom(slots, lexRanked, lex, semRanked, sem, fused, key, h);
      }
      if h in FusedHits(lex, sem) {
        FusedHitIn(slots, lexRanked, lex, semRanked, sem, fused, key, h);
      }
    }
  }

  method LexicalRanked(ix: Index, q: Query) returns (ranked: seq<int>, ghost hits: seq<Hit>)
    requires ix.Valid()
    ensures Names(ix.slots, ranked, hits) && IsTop(LexHits(Docs(ix.View()), q, q.tokens), DEPTH, hits)
  {
    var scores := LexicalScores(ix, q);
    LexHitsAre(ix.View(), q, scores);
    ranked := RankSlots(scores, ix.slots);
    hits := Mapped(ranked, KeyOf(scores, ix.slots));
  }

  method SemanticRanked(ix: Index, q: Query) returns (ranked: seq<int>, ghost hits: seq<Hit>)
    requires ix.Valid()
    ensures Names(ix.slots, ranked, hits) && IsTop(SemHits(Meta(ix.View()), q), DEPTH, hits)
  {
    var scores := SemanticScores(ix, q);
    if q.width > 0 {
      SemHitsAre(ix.View(), q, scores);
    } else {
      assert SemHits(Meta(ix.View()), q) == {};
      assert HitsOf(KeyOf(scores, ix.slots)) == {};
    }
    ranked := RankSlots(scores, ix.slots);
    hits := Mapped(ranked, KeyOf(scores, ix.slots));
  }

  /** Search: whatever order maps are walked in, the one answer the plain store gives. */
  method Search(ix: Index, q: Query, limit: int) returns (results: seq<Hit>)
    requires ix.Valid()
    ensures IsAnswer(Meaning(ix.View()), q, limit, results)
  {
    assert |Docs(ix.View())| == |ix.chats| by {
      assert Docs(ix.View()).Keys == ix.chats.Keys && |Docs(ix.View()).Keys| == |Docs(ix.View())| &&
          |ix.chats.Keys| == |ix.chats|;
    }
    if limit <= 0 || |ix.chats| == 0 {
      return [];
    }
    var lexRanked, lex := LexicalRanked(ix, q);
    var semRanked, sem := SemanticRanked(ix, q);
    results := FuseAndSort(ix.slots, lexRanked, lex, semRanked, sem, limit, ix.chats);
  }

  method FuseAndSort(
    slots: seq<Id>, lexRanked: seq<int>, ghost lex: seq<Hit>, semRanked: seq<int>, ghost sem: seq<Hit>, limit: nat,
    ghost chats: map<Id, Entry>)
    returns (results: seq<Hit>)
    requires SlotsOK(slots, chats) && Names(slots, lexRanked, lex) && Names(slots, semRanked, sem)
    ensures IsTop(FusedHits(lex, sem), limit, results)
  {
    var fused := Fuse(map[], lexRanked, LEXICAL_WEIGHT);
    fused := Fuse(fused, semRanked, SEMANTIC_WEIGHT);
    assert forall s | s in fused ::
      0 <= s < |slots| && slots[s] != TOMBSTONE;
    var key := map s | s in fused :: Hit(s in lexRanked, fused[s], slots[s]);
    FusedHitsAre(slots, lexRanked, lex, semRanked, sem, fused, key);
    results := SortAndCut(key, limit);
  }

  method SortAndCut(key: map<int, Hit>, limit: nat) returns (results: seq<Hit>)
    requires Keyed(key)
    ensures IsTop(HitsOf(key), limit, results)
  {
    var order := SortKeys(key);
    CutIsTop(key, order, limit);
    var cut := if |order| > limit then order[..limit] else order;
    results := seq(|cut|, i requires 0 <= i < |cut| => key[cut[i]]);
    assert results == Mapped(cut, key);
  }

  /** Compaction changes no search result. */
  lemma CompactionKeepsAnswers(t: Table, q: Query, limit: int, r: seq<Hit>, r': seq<Hit>)
    requires Core(t) && IsAnswer(Meaning(t), q, limit, r) && IsAnswer(Meaning(Compacted(t)), q, limit, r')
    ensures r == r'
  {
    CompactionIsInvisible(t);
    AnswerIsUnique(Meaning(t), q, limit, r, r');
  }
}
