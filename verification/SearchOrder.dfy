/** What order an answer comes in, in terms of places, scores and documents only. Each result is
    stated about any answer of a plain store, so about every answer search gives. */
module SearchOrder {
  import opened Prelude
  import opened InvertedIndex
  import opened SearchRanking

  /* ---------- places ---------- */

  /** `id` stands at place `i` of a ranked list. */
  predicate Stands(ranked: seq<Hit>, i: int, id: Id) {
    0 <= i < |ranked| && ranked[i].id == id
  }

  ghost predicate Absent(ranked: seq<Hit>, id: Id) {
    forall i | 0 <= i < |ranked| :: ranked[i].id != id
  }

  ghost predicate DistinctIds(ranked: seq<Hit>) {
    forall i, j | 0 <= i < j < |ranked| :: ranked[i].id != ranked[j].id
  }

  /** The two lists behind an answer. */
  ghost predicate Lists(p: Plain, q: Query, lex: seq<Hit>, sem: seq<Hit>) {
    IsTop(LexHits(p.docs, q, q.tokens), DEPTH, lex) && IsTop(SemHits(p.meta, q), DEPTH, sem)
  }

  lemma ListsAreDistinct(p: Plain, q: Query, lex: seq<Hit>, sem: seq<Hit>)
    requires Lists(p, q, lex, sem)
    ensures DistinctIds(lex) && DistinctIds(sem)
  {
    forall i, j | 0 <= i < j < |lex|
      ensures lex[i].id != lex[j].id
    {
      assert lex[i] in LexHits(p.docs, q, q.tokens) && lex[j] in LexHits(p.docs, q, q.tokens) && Before(lex[i], lex[j]);
    }
    forall i, j | 0 <= i < j < |sem|
      ensures sem[i].id != sem[j].id
    {
      assert sem[i] in SemHits(p.meta, q) && sem[j] in SemHits(p.meta, q) && Before(sem[i], sem[j]);
    }
  }

  lemma {:induction false} ShareAt(weight: real, ranked: seq<Hit>, i: nat)
    requires DistinctIds(ranked) && i < |ranked|
    ensures Share(weight, ranked, ranked[i].id) == weight / (61 + i) as real
  {
    var k := |ranked| - 1;
    if i < k {
      ShareAt(weight, ranked[..k], i);
    }
  }

  lemma {:induction false} NoShare(weight: real, ranked: seq<Hit>, id: Id)
    requires Absent(ranked, id)
    ensures Share(weight, ranked, id) == 0.0
  {
    if ranked != [] {
      NoShare(weight, ranked[..|ranked| - 1], id);
    }
  }

  /** An answer is the best of the fused hits of the two lists. */
  lemma AnswerFrom(p: Plain, q: Query, limit: int, r: seq<Hit>, lex: seq<Hit>, sem: seq<Hit>)
    requires IsAnswer(p, q, limit, r) && limit > 0 && |p.docs| != 0 && Lists(p, q, lex, sem)
    ensures IsTop(FusedHits(lex, sem), limit, r) && DistinctIds(lex) && DistinctIds(sem)
  {
    var lex', sem' :| IsTop(LexHits(p.docs, q, q.tokens), DEPTH, lex') && IsTop(SemHits(p.meta, q), DEPTH, sem')
      && IsTop(FusedHits(lex', sem'), limit, r);
    TopIsUnique(LexHits(p.docs, q, q.tokens), DEPTH, lex, lex');
    TopIsUnique(SemHits(p.meta, q), DEPTH, sem, sem');
    ListsAreDistinct(p, q, lex, sem);
  }

  /** The score of a result from its places, counted from 0. */
  lemma ScoreIsByPlace(
    p: Plain, q: Query, limit: int, r: seq<Hit>, lex: seq<Hit>, sem: seq<Hit>, m: nat, i: int, j: int)
    requires IsAnswer(p, q, limit, r) && limit > 0 && |p.docs| != 0 && Lists(p, q, lex, sem) && m < |r|
    ensures Stands(lex, i, r[m].id) && Stands(sem, j, r[m].id) ==>
              r[m].score == 1.0 / (61 + i) as real + 1.0 / (2 * (61 + j)) as real
    ensures Stands(lex, i, r[m].id) && Absent(sem, r[m].id) ==> r[m].score == 1.0 / (61 + i) as real
    ensures Absent(lex, r[m].id) && Stands(sem, j, r[m].id) ==> r[m].score == 1.0 / (2 * (61 + j)) as real
    ensures !Absent(lex, r[m].id) || !Absent(sem, r[m].id)
  {
    AnswerFrom(p, q, limit, r, lex, sem);
    assert r[m] in FusedHits(lex, sem);
    FusedScore(lex, sem, r[m].id, i, j);
  }

  lemma FusedScore(lex: seq<Hit>, sem: seq<Hit>, id: Id, i: int, j: int)
    requires DistinctIds(lex) && DistinctIds(sem)
    ensures
      var score := FusedHit(lex, sem, id).score;
      && (Stands(lex, i, id) && Stands(sem, j, id) ==>
            score == 1.0 / (61 + i) as real + 1.0 / (2 * (61 + j)) as real)
      && (Stands(lex, i, id) && Absent(sem, id) ==> score == 1.0 / (61 + i) as real)
      && (Absent(lex, id) && Stands(sem, j, id) ==> score == 1.0 / (2 * (61 + j)) as real)
  {
    if Stands(lex, i, id) {
      ShareAt(LEXICAL_WEIGHT, lex, i);
    }
    if Stands(sem, j, id) {
      ShareAt(SEMANTIC_WEIGHT, sem, j);
      HalfShare(61 + j);
    }
    if Absent(sem, id) {
      NoShare(SEMANTIC_WEIGHT, sem, id);
    }
    if Absent(lex, id) {
      NoShare(LEXICAL_WEIGHT, lex, id);
    }
  }

  lemma HalfShare(n: nat)
    requires n > 0
    ensures 0.5 / n as real == 1.0 / (2 * n) as real
  {
    var x := n as real;
    assert (2 * n) as real == 2.0 * x;
    assert (0.5 / x) * (2.0 * x) == 1.0;
  }

  lemma SmallerShare(m: nat, n: nat)
    requires 0 < m < n
    ensures 1.0 / m as real > 1.0 / n as real
  {
    var x, y := m as real, n as real;
    assert 1.0 / x - 1.0 / y == (y - x) / (x * y) > 0.0;
  }

  /* ---------- agreement of both lists is respected ---------- */

  /** Place `b` never takes, in a list, before `a`. */
  ghost predicate NotAfter(ranked: seq<Hit>, a: Id, b: Id) {
    Absent(ranked, b) || exists i, j :: Stands(ranked, i, a) && Stands(ranked, j, b) && i < j
  }

  lemma AbsentOrStands(ranked: seq<Hit>, id: Id)
    ensures Absent(ranked, id) || exists i :: Stands(ranked, i, id)
  {
    if !Absent(ranked, id) {
      var i :| 0 <= i < |ranked| && ranked[i].id == id;
      assert Stands(ranked, i, id);
    }
  }

  lemma AheadScoresMore(lex: seq<Hit>, sem: seq<Hit>, a: Id, b: Id, i: int, j: int)
    requires DistinctIds(lex) && DistinctIds(sem) && Stands(lex, i, a) && Stands(lex, j, b) && i < j
    requires NotAfter(sem, a, b)
    ensures FusedHit(lex, sem, a).score > FusedHit(lex, sem, b).score
  {
    SmallerShare(61 + i, 61 + j);
    AbsentOrStands(sem, a);
    if Absent(sem, b) {
      FusedScore(lex, sem, b, j, 0);
      if Absent(sem, a) {
        FusedScore(lex, sem, a, i, 0);
      } else {
        var k :| Stands(sem, k, a);
        FusedScore(lex, sem, a, i, k);
        assert 1.0 / (2 * (61 + k)) as real > 0.0;
      }
    } else {
      var k, m :| Stands(sem, k, a) && Stands(sem, m, b) && k < m;
      FusedScore(lex, sem, a, i, k);
      FusedScore(lex, sem, b, j, m);
      SmallerShare(2 * (61 + k), 2 * (61 + m));
    }
  }

  /** A chat ahead of another in the keyword list and not behind it in the semantic list comes
      first in the answer, and is never left out while the other is in. */
  lemma AgreedOrderIsKept(
    p: Plain, q: Query, limit: int, r: seq<Hit>, lex: seq<Hit>, sem: seq<Hit>, a: Id, b: Id, i: int, j: int, m: nat)
    requires IsAnswer(p, q, limit, r) && limit > 0 && |p.docs| != 0 && Lists(p, q, lex, sem)
    requires Stands(lex, i, a) && Stands(lex, j, b) && i < j && NotAfter(sem, a, b)
    requires Stands(r, m, b)
    ensures exists k :: 0 <= k < m && Stands(r, k, a)
  {
    AnswerFrom(p, q, limit, r, lex, sem);
    AheadScoresMore(lex, sem, a, b, i, j);
    ListedIsFused(lex, sem, i);
    ListedIsFused(lex, sem, j);
    OnlyFused(lex, sem, r[m]);
    var h := FusedHit(lex, sem, a);
    AheadIsIn(FusedHits(lex, sem), limit, r, h, m);
    var k :| 0 <= k < m && r[k] == h;
    assert Stands(r, k, a);
  }

  lemma ListedIsFused(lex: seq<Hit>, sem: seq<Hit>, i: nat)
    requires i < |lex|
    ensures FusedHit(lex, sem, lex[i].id) in FusedHits(lex, sem) && FusedHit(lex, sem, lex[i].id).first
  {
    assert lex[i].id in IdsOf(lex);
  }

  lemma OnlyFused(lex: seq<Hit>, sem: seq<Hit>, h: Hit)
    requires h in FusedHits(lex, sem)
    ensures h == FusedHit(lex, sem, h.id)
  {
  }

  lemma AheadIsIn(hits: set<Hit>, limit: nat, r: seq<Hit>, h: Hit, m: nat)
    requires IsTop(hits, limit, r) && h in hits && m < |r| && Before(h, r[m]) && !Before(r[m], h) && h != r[m]
    ensures exists k :: 0 <= k < m && r[k] == h
  {
    assert h in r;
    var k :| 0 <= k < |r| && r[k] == h;
    assert k < m by {
      assert forall j | m < j < |r| :: Before(r[m], r[j]);
    }
  }

  /* ---------- keyword-only queries ---------- */

  /** Without a query vector the answer is the keyword list, cut to the limit. */
  lemma KeywordOnlyOrder(p: Plain, q: Query, limit: int, r: seq<Hit>, lex: seq<Hit>)
    requires IsAnswer(p, q, limit, r) && limit > 0 && |p.docs| != 0 && q.width == 0
    requires IsTop(LexHits(p.docs, q, q.tokens), DEPTH, lex)
    ensures |r| == if |lex| < limit then |lex| else limit
    ensures forall m | 0 <= m < |r| :: r[m].id == lex[m].id
  {
    assert SemHits(p.meta, q) == {};
    assert IsTop(SemHits(p.meta, q), DEPTH, []);
    AnswerFrom(p, q, limit, r, lex, []);
    AloneOrder(lex, limit, r);
  }

  lemma AloneOrder(lex: seq<Hit>, limit: nat, r: seq<Hit>)
    requires DistinctIds(lex) && IsTop(FusedHits(lex, []), limit, r)
    ensures |r| == if |lex| < limit then |lex| else limit
    ensures forall m | 0 <= m < |r| :: r[m].id == lex[m].id
  {
    var best := FirstPlaces(lex, if |lex| < limit then |lex| else limit);
    PlacesAreTop(lex, limit, best);
    TopIsUnique(FusedHits(lex, []), limit, r, best);
  }

  function FirstPlaces(lex: seq<Hit>, n: nat): (best: seq<Hit>)
    requires n <= |lex|
    ensures |best| == n && forall m | 0 <= m < n :: best[m] == Hit(true, 1.0 / (61 + m) as real, lex[m].id)
  {
    seq(n, m requires 0 <= m < n => Hit(true, 1.0 / (61 + m) as real, lex[m].id))
  }

  lemma FusedAlone(lex: seq<Hit>, m: nat)
    requires DistinctIds(lex) && m < |lex|
    ensures Hit(true, 1.0 / (61 + m) as real, lex[m].id) in FusedHits(lex, [])
  {
    FusedScore(lex, [], lex[m].id, m, 0);
    assert lex[m].id in IdsOf(lex);
    assert FusedHit(lex, [], lex[m].id) in FusedHits(lex, []);
  }

  lemma OnlyPlaces(lex: seq<Hit>, h: Hit) returns (m: nat)
    requires DistinctIds(lex) && h in FusedHits(lex, [])
    ensures m < |lex| && h == Hit(true, 1.0 / (61 + m) as real, lex[m].id)
  {
    m :| 0 <= m < |lex| && lex[m].id == h.id;
    FusedScore(lex, [], h.id, m, 0);
  }

  lemma {:induction false} PlacesCount(lex: seq<Hit>)
    requires DistinctIds(lex)
    ensures |IdsOf(lex)| == |lex|
  {
    if lex == [] {
      assert IdsOf(lex) == {};
    } else {
      var k := |lex| - 1;
      PlacesCount(lex[..k]);
      assert lex == lex[..k] + [lex[k]];
      assert IdsOf(lex) == IdsOf(lex[..k]) + {lex[k].id};
    }
  }

  lemma {:induction false} FusedCount(lex: seq<Hit>, ids: set<Id>)
    ensures |set id | id in ids :: FusedHit(lex, [], id)| == |ids|
  {
    var hits := set id | id in ids :: FusedHit(lex, [], id);
    if ids == {} {
      assert hits == {};
    } else {
      SomeMember(ids);
      var x :| x in ids;
      FusedCount(lex, ids - {x});
      assert hits == (set id | id in ids - {x} :: FusedHit(lex, [], id)) + {FusedHit(lex, [], x)};
    }
  }

  /** The hits of the first places of a keyword list, alone. */
  ghost predicate Places(lex: seq<Hit>, best: seq<Hit>) {
    |best| <= |lex| && forall m | 0 <= m < |best| :: best[m] == Hit(true, 1.0 / (61 + m) as real, lex[m].id)
  }

  lemma PlacesInOrder(lex: seq<Hit>, best: seq<Hit>, m: nat, n: nat)
    requires Places(lex, best) && m < n && m < |best| && n < |lex|
    ensures Before(best[m], Hit(true, 1.0 / (61 + n) as real, lex[n].id))
  {
    SmallerShare(61 + m, 61 + n);
  }

  lemma PlacesBeforeRest(lex: seq<Hit>, best: seq<Hit>, h: Hit, m: nat)
    requires DistinctIds(lex) && Places(lex, best) && h in FusedHits(lex, []) && h !in best && m < |best|
    ensures Before(best[m], h)
  {
    var n := OnlyPlaces(lex, h);
    assert |best| <= n;
    PlacesInOrder(lex, best, m, n);
  }

  lemma PlacesAreTop(lex: seq<Hit>, limit: nat, best: seq<Hit>)
    requires DistinctIds(lex) && |best| == (if |lex| < limit then |lex| else limit) && Places(lex, best)
    ensures IsTop(FusedHits(lex, []), limit, best)
  {
    PlacesCount(lex);
    FusedCount(lex, IdsOf(lex));
    assert FusedHits(lex, []) == set id | id in IdsOf(lex) :: FusedHit(lex, [], id);
    forall m | 0 <= m < |best|
      ensures best[m] in FusedHits(lex, [])
    {
      FusedAlone(lex, m);
    }
    forall m, n | 0 <= m < n < |best|
      ensures Before(best[m], best[n])
    {
      PlacesInOrder(lex, best, m, n);
    }
    forall h, m | h in FusedHits(lex, []) && h !in best && 0 <= m < |best|
      ensures Before(best[m], h)
    {
      PlacesBeforeRest(lex, best, h, m);
    }
  }

  /* ---------- the keyword list and the semantic list ---------- */

  /** The tokens of a query a chat holds. */
  ghost function Held(q: Query, doc: set<Token>): set<Token> {
    set tok | tok in q.tokens && tok in doc
  }

  ghost function WeightOf(docs: map<Id, set<Token>>, q: Query, held: set<Token>): real {
    if held == {} then 0.0
    else
      var tok :| tok in held;
      (q.idf)(|docs|, |Holders(docs, tok)|) + WeightOf(docs, q, held - {tok})
  }

  lemma {:induction false} WeightTakeAny(docs: map<Id, set<Token>>, q: Query, held: set<Token>, tok: Token)
    requires tok in held
    ensures WeightOf(docs, q, held) == (q.idf)(|docs|, |Holders(docs, tok)|) + WeightOf(docs, q, held - {tok})
    decreases held
  {
    var pick :| pick in held &&
      WeightOf(docs, q, held) == (q.idf)(|docs|, |Holders(docs, pick)|) + WeightOf(docs, q, held - {pick});
    if pick != tok {
      WeightTakeAny(docs, q, held - {pick}, tok);
      WeightTakeAny(docs, q, held - {tok}, pick);
      assert held - {pick} - {tok} == held - {tok} - {pick};
    }
  }

  /** A chat's keyword score is the summed weight of the set of query tokens it holds, however
      often and in whatever order the query names them. */
  lemma {:induction false} ScoreIsHeldWeight(docs: map<Id, set<Token>>, q: Query, tokens: seq<Token>, doc: set<Token>)
    ensures LexScore(docs, q, tokens, doc) == WeightOf(docs, q, set tok | tok in tokens && tok in doc)
  {
    var held := set tok | tok in tokens && tok in doc;
    if tokens == [] {
      assert held == {};
    } else {
      var k := |tokens| - 1;
      var before := set tok | tok in tokens[..k] && tok in doc;
      ScoreIsHeldWeight(docs, q, tokens[..k], doc);
      assert tokens == tokens[..k] + [tokens[k]];
      if tokens[k] in doc && tokens[k] !in tokens[..k] {
        assert held - {tokens[k]} == before;
        WeightTakeAny(docs, q, held, tokens[k]);
      } else {
        assert held == before;
      }
    }
  }

  /** `x` is the best similarity over the vectors of the query's width. */
  ghost predicate IsBest(q: Query, vectors: seq<Vector>, x: real) {
    && (exists v | v in vectors :: |v| == q.width && (q.cosine)(v) == x)
    && (forall v | v in vectors && |v| == q.width :: (q.cosine)(v) <= x)
  }

  /** `a` with score `x` belongs before `b` with score `y`. */
  predicate Precedes(x: real, a: Id, y: real, b: Id) {
    x > y || (x == y && a < b)
  }

  /** The keyword list holds chats with a query token, heaviest first and ties by id, and
      leaves out only chats that belong after all it holds, once it is full. */
  lemma KeywordListOrder(p: Plain, q: Query, lex: seq<Hit>)
    requires IsTop(LexHits(p.docs, q, q.tokens), DEPTH, lex)
    ensures forall i | 0 <= i < |lex| :: lex[i].id in p.docs && Held(q, p.docs[lex[i].id]) != {}
    ensures forall i | 0 <= i < |lex| :: lex[i].score == WeightOf(p.docs, q, Held(q, p.docs[lex[i].id]))
    ensures forall i, j | 0 <= i < j < |lex| :: Precedes(lex[i].score, lex[i].id, lex[j].score, lex[j].id)
    ensures forall id, i | id in p.docs && Held(q, p.docs[id]) != {} && Absent(lex, id) && 0 <= i < |lex| ::
        Precedes(lex[i].score, lex[i].id, WeightOf(p.docs, q, Held(q, p.docs[id])), id)
    ensures (exists id :: id in p.docs && Held(q, p.docs[id]) != {} && Absent(lex, id)) ==> |lex| == 128
  {
    var hits := LexHits(p.docs, q, q.tokens);
    forall id | id in p.docs
      ensures Matches(q.tokens, p.docs[id]) <==> Held(q, p.docs[id]) != {}
      ensures LexScore(p.docs, q, q.tokens, p.docs[id]) == WeightOf(p.docs, q, Held(q, p.docs[id]))
    {
      ScoreIsHeldWeight(p.docs, q, q.tokens, p.docs[id]);
      assert forall tok :: tok in Held(q, p.docs[id]) <==> tok in q.tokens && tok in p.docs[id];
    }
    assert forall i | 0 <= i < |lex| :: lex[i] in hits;
    assert forall i, j | 0 <= i < j < |lex| :: Before(lex[i], lex[j]);
    forall id | id in p.docs && Held(q, p.docs[id]) != {} && Absent(lex, id)
      ensures |lex| == 128
      ensures forall i | 0 <= i < |lex| ::
          Precedes(lex[i].score, lex[i].id, WeightOf(p.docs, q, Held(q, p.docs[id])), id)
    {
      var h := Hit(true, LexScore(p.docs, q, q.tokens, p.docs[id]), id);
      assert h in hits && h !in lex;
      LeftOutIsFull(hits, DEPTH, lex, h);
      assert forall i | 0 <= i < |lex| :: Before(lex[i], h);
    }
  }

  /** A ranking leaves something out only when it is full. */
  lemma {:induction false} LeftOutIsFull(hits: set<Hit>, k: nat, r: seq<Hit>, h: Hit)
    requires IsTop(hits, k, r) && h in hits && h !in r
    ensures |r| == k
    decreases |r|
  {
    if r != [] {
      TailIsTop(hits, k, r);
      LeftOutIsFull(hits - {r[0]}, k - 1, r[1..], h);
    }
  }

  /** The semantic list holds chats with a vector of the query's width, best similarity first
      and ties by id, and leaves out only chats that belong after all it holds, once it is
      full. */
  lemma SemanticListOrder(p: Plain, q: Query, sem: seq<Hit>)
    requires IsTop(SemHits(p.meta, q), DEPTH, sem) && q.width > 0
    ensures forall i | 0 <= i < |sem| :: sem[i].id in p.meta && IsBest(q, p.meta[sem[i].id].vectors, sem[i].score)
    ensures forall i, j | 0 <= i < j < |sem| :: Precedes(sem[i].score, sem[i].id, sem[j].score, sem[j].id)
    ensures forall id, x | id in p.meta && IsBest(q, p.meta[id].vectors, x) && Absent(sem, id) ::
        |sem| == 128 && forall i | 0 <= i < |sem| :: Precedes(sem[i].score, sem[i].id, x, id)
  {
    var hits := SemHits(p.meta, q);
    forall id | id in p.meta
      ensures Best(q, p.meta[id].vectors).Some? ==> IsBest(q, p.meta[id].vectors, Best(q, p.meta[id].vectors).value)
      ensures forall x | IsBest(q, p.meta[id].vectors, x) :: Best(q, p.meta[id].vectors) == Some(x)
    {
      BestIsMax(q, p.meta[id].vectors);
    }
    assert forall i | 0 <= i < |sem| :: sem[i] in hits;
    assert forall i, j | 0 <= i < j < |sem| :: Before(sem[i], sem[j]);
    forall id, x | id in p.meta && IsBest(q, p.meta[id].vectors, x) && Absent(sem, id)
      ensures |sem| == 128 && forall i | 0 <= i < |sem| :: Precedes(sem[i].score, sem[i].id, x, id)
    {
      var h := Hit(true, x, id);
      assert h in hits && h !in sem;
      LeftOutIsFull(hits, DEPTH, sem, h);
      assert forall i | 0 <= i < |sem| :: Before(sem[i], h);
    }
  }

  /** From `t` to `u` a chat got new vectors and waits no longer. */
  ghost predicate Repaired(t: Table, u: Table, id: Id, vectors: seq<Vector>) {
    && id in t.chats && id in u.chats && u.chats == t.chats[id := u.chats[id]]
    && u.chats[id].vectors == vectors && !u.chats[id].pending && u.chats[id].key.NoKey?
  }

  /** After a repair the chat stands in the semantic list with the best similarity over the
      given vectors, or the list is full of chats that belong before it. */
  lemma RepairedIsRanked(t: Table, u: Table, id: Id, vectors: seq<Vector>, q: Query, sem: seq<Hit>) returns (x: real)
    requires Repaired(t, u, id, vectors) && vectors != [] && q.width > 0
    requires forall v | v in vectors :: |v| == q.width
    requires IsTop(SemHits(Meta(u), q), DEPTH, sem)
    ensures IsBest(q, vectors, x)
    ensures
      || (exists i :: Stands(sem, i, id) && sem[i].score == x)
      || (Absent(sem, id) && |sem| == 128 && forall i | 0 <= i < |sem| :: Precedes(sem[i].score, sem[i].id, x, id))
  {
    BestIsMax(q, vectors);
    assert vectors[0] in vectors;
    x := Best(q, vectors).value;
    var p := Plain(map[], Meta(u), u.dims);
    assert p.meta[id].vectors == vectors;
    SemanticListOrder(p, q, sem);
    if !Absent(sem, id) {
      var i :| 0 <= i < |sem| && sem[i].id == id;
      assert IsBest(q, vectors, sem[i].score);
      assert Stands(sem, i, id) && sem[i].score == x;
    } else {
      assert IsBest(q, p.meta[id].vectors, x);
    }
  }
}
