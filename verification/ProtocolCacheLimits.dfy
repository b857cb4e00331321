/** Stamps rise in every run exactly where every page that edits its index goes on to
    publish; loads are faithful exactly where every repair does as well. One run for an
    abandoned page and one for an abandoned repair show what goes wrong otherwise. */
module ProtocolCacheLimits {
  import opened Prelude
  import opened Controlplane
  import opened Protocol
  import opened ProtocolInvariant
  import opened ProtocolTheorems
  import opened ProtocolCaches
  import opened ProtocolLimits

  /** One chat, last changed at revision 1, rebuilt at target 3. */
  const REBUILT := One(1, Entry(1, 3, 7))

  const READER := Writer(Repair, 0, 1, 1, Ready)

  /** The chat is live at etag 1 while the counter stands at 3, and its push has not yet
      reached the index. */
  ghost predicate Slow(w: World) {
    && w.src.chats == map[1 := Row(1, 7, Position(1, 1))] && w.src.Rev() == 3 && w.currentKey == NO_KEY &&
        w.locks == map[]
    && 0 in w.writers && w.writers[0] == Writer(Push(1, 7, 1, 1), 0, 1, 1, Ready)
  }

  ghost predicate RebuiltAt(w: World, cached: Index) {
    && w.pub == Publication(1, 0, 3, Some(0), 1, 1, false) && w.nextObj == 1
    && 0 in w.objs && w.objs[0] == Stored(REBUILT, 1, 1, 1) && 0 in w.bucket
    && 0 in w.caches && w.caches[0] == Cached(0, 1, cached)
  }

  lemma SlowPush(cfg: Config, r: iset<World>) returns (w: World)
    requires Closed(cfg, r) && INITIAL in r
    ensures w in r && Slow(w) && w.writers.Keys == {0} && w.pub == NEVER_PUBLISHED && w.nextObj == 0
    ensures w.caches == map[]
  {
    w := Take(cfg, r, INITIAL, ChatPush(0, 0, 1, 1, 1, 7, 1));
    w := CameAndWent(cfg, r, w);
  }

  /** Another chat is written and deleted, taking two revisions; neither write is indexed. */
  lemma CameAndWent(cfg: Config, r: iset<World>, w: World) returns (w': World)
    requires Closed(cfg, r) && w in r && 9 !in w.writers && 2 !in w.src.chats && w.locks == map[]
    ensures w' in r && w'.src.chats == w.src.chats && w'.src.Rev() == w.src.Rev() + 2
    ensures w' == w.(src := w'.src)
  {
    w' := Take(cfg, r, w, ChatPush(9, 0, 1, 1, 2, 8, 2));
    w' := Take(cfg, r, w', Quit(9));
    assert w'.writers == w.writers;
    w' := Take(cfg, r, w', ChatDelete(9, 0, 1, 1, 2));
    w' := Take(cfg, r, w', Quit(9));
    assert w'.src.chats == w.src.chats && w'.writers == w.writers;
  }

  lemma OnePage(s: Source)
    requires s.chats == map[1 := Row(1, 7, Position(1, 1))]
    ensures PageIds(s, None, None) == {1}
  {
  }

  /** A rebuild of the one chat, published as complete. */
  lemma FirstRebuild(cfg: Config, r: iset<World>, w: World) returns (w': World)
    requires cfg.rebuild && Closed(cfg, r) && w in r && Slow(w) && w.writers.Keys == {0}
    requires w.pub == NEVER_PUBLISHED && w.nextObj == 0 && w.caches == map[]
    ensures w' in r && Slow(w') && w'.writers.Keys == {0} && RebuiltAt(w', REBUILT)
  {
    OnePage(w.src);
    w' := StartJob(cfg, r, w, 1, None);
    w' := FetchOne(cfg, r, w', 1, 3, None, None, 1);
    var pull := Fetched(w.src, None, 1);
    assert Swept(EMPTY, 3, {}) == EMPTY;
    w' := OpenPage(cfg, r, w', 1, 3, None, pull, true, EMPTY, EMPTY);
    assert pull.items.Keys == {1};
    w' := FinishRebuild(cfg, r, w', pull);
    assert w'.writers.Keys == {0};
  }

  lemma FinishRebuild(cfg: Config, r: iset<World>, w: World, pull: Pull) returns (w': World)
    requires Closed(cfg, r) && w in r
    requires w.src.chats == map[1 := Row(1, 7, Position(1, 1))] && w.src.Rev() == 3 && w.currentKey == NO_KEY
    requires w.locks == map[0 := 1] && pull == Fetched(w.src, None, 1) && w.pub == NEVER_PUBLISHED && w.nextObj == 0
    requires 1 in w.writers && w.writers[1] == Job(3, None, pull, Paging(Snap(w.pub, 3), false, EMPTY, {1}, 0, EMPTY))
    ensures w' in r && w'.src == w.src && w'.currentKey == NO_KEY
    ensures w'.locks == map[] && w'.writers == w.writers - {1} && RebuiltAt(w', REBUILT)
  {
    w' := ClosePage(cfg, r, w, 1, 3, None, pull, 1, REBUILT);
    w' := Publish(cfg, r, w', 1);
    w' := Take(cfg, r, w', Clean(1, false));
    assert w'.locks == map[];
  }

  /** A second rebuild drops the old entries from its index and gives up. */
  lemma SecondRebuild(cfg: Config, r: iset<World>, w: World) returns (w': World)
    requires cfg.rebuild && !cfg.carried && Closed(cfg, r) && w in r && Slow(w) && w.writers.Keys == {0}
    requires RebuiltAt(w, REBUILT)
    ensures w' in r && Slow(w') && RebuiltAt(w', EMPTY)
  {
    OnePage(w.src);
    w' := StartJob(cfg, r, w, 2, None);
    w' := FetchOne(cfg, r, w', 2, 3, None, None, 1);
    assert Swept(REBUILT, 3, {}) == EMPTY;
    w' := OpenPage(cfg, r, w', 2, 3, None, Fetched(w.src, None, 1), true, REBUILT, EMPTY);
    w' := Take(cfg, r, w', Quit(2));
    assert w'.locks == map[];
  }

  lemma DirtyCache(cfg: Config, r: iset<World>) returns (w: World)
    requires cfg.rebuild && !cfg.carried && Closed(cfg, r) && INITIAL in r
    ensures w in r && Slow(w) && RebuiltAt(w, EMPTY)
  {
    w := SlowPush(cfg, r);
    w := FirstRebuild(cfg, r, w);
    w := SecondRebuild(cfg, r, w);
  }

  /** What a load hands out is what was stored. */
  ghost predicate Faithful(w: World) {
    forall reader: Writer, pub: Publication, readable: bool | MayLoad(w, reader.replica) &&
        LoadIndex(w, pub, reader, readable).Some? ::
      pub.obj.Some? && pub.obj.value in w.objs &&
          LoadIndex(w, pub, reader, readable).value.0 == w.objs[pub.obj.value].ix
  }

  lemma DirtyLoad(w: World)
    requires Slow(w) && RebuiltAt(w, EMPTY)
    ensures !Faithful(w)
  {
    assert MayLoad(w, READER.replica);
    var loaded := LoadIndex(w, w.pub, READER, true);
    assert loaded == Some((EMPTY, w.caches));
    assert 1 in w.objs[0].ix.chats && 1 !in loaded.value.0.chats;
  }

  /* ---------- an abandoned repair ---------- */

  /** An index of two chats that wait for their vectors, and the same with one repaired. */
  const PENDING := Index(
    map[1 := Entry(1, 1, 7), 2 := Entry(1, 2, 8)], map[1 := Waiting(NO_KEY), 2 := Waiting(NO_KEY)], false, None)

  const REPAIRED := PENDING.(embs := map[1 := Embedded(0), 2 := Waiting(NO_KEY)])

  /** The record, its object, and what the replica caches for it. */
  ghost predicate Serves(w: World, n: nat, ix: Index, cached: Index) {
    && w.pub == Publication(n + 1, 0, n + 1, Some(n), 1, 1, false) && w.locks == map[] && w.writers == map[]
    && w.src.Rev() == n + 1 && w.currentKey == NO_KEY && w.nextObj == n + 1
    && n in w.objs && w.objs[n] == Stored(ix, 1, 1, 0) && n in w.bucket
    && 0 in w.caches && w.caches[0] == Cached(n, 1, cached)
  }

  lemma PublishPending(cfg: Config, r: iset<World>, w: World) returns (w': World)
    requires Closed(cfg, r) && w in r && w.writers.Keys == {0} && w.locks == map[0 := 0] && w.currentKey == NO_KEY
    requires w.writers[0].replica == 0 && w.writers[0].key == 1 && w.writers[0].model == 1
    requires w.writers[0].kind.Push? && w.writers[0].phase.Loaded?
    requires
      var Loaded(snap, ok, ix) := w.writers[0].phase;
      var Push(id, text, etag, rev) := w.writers[0].kind;
      && id !in ix.chats && 0 < rev == snap.src == w.src.Rev() && CanAdvance(snap, ok, rev) && snap.pub == w.pub
      && w.pub.gen == w.nextObj == rev - 1 && w.pub.fence == 0
    ensures
      var ix := w.writers[0].phase.ix;
      var Push(id, text, etag, rev) := w.writers[0].kind;
      var done := Put(ix, id, Entry(etag, rev, text), Waiting(NO_KEY)).(incomplete := false);
      w' in r && w'.src == w.src && Serves(w', rev - 1, done, done)
  {
    w' := Take(cfg, r, w, Edit(0, false, Waiting(NO_KEY)));
    w' := Publish(cfg, r, w', 0);
    w' := Leave(cfg, r, w', 0);
    assert w'.locks == map[] && w'.writers == map[];
  }

  /** Two pushes index their chats while the embedder is down. */
  lemma PendingPushes(cfg: Config, r: iset<World>) returns (w: World)
    requires Closed(cfg, r) && INITIAL in r
    ensures w in r && Serves(w, 1, PENDING, PENDING)
  {
    var first := Index(map[1 := Entry(1, 1, 7)], map[1 := Waiting(NO_KEY)], false, None);
    w := StartPush(cfg, r, INITIAL, 0, 1, 7, 1, EMPTY);
    w := PublishPending(cfg, r, w);
    assert Serves(w, 0, first, first);
    w := SecondPush(cfg, r, w, first);
  }

  lemma SecondPush(cfg: Config, r: iset<World>, w: World, first: Index) returns (w': World)
    requires Closed(cfg, r) && w in r && Serves(w, 0, first, first) && 2 !in w.src.chats
    requires first == Index(map[1 := Entry(1, 1, 7)], map[1 := Waiting(NO_KEY)], false, None)
    ensures w' in r && Serves(w', 1, PENDING, PENDING)
  {
    w' := StartPush(cfg, r, w, 0, 2, 8, 2, first);
    w' := PublishPending(cfg, r, w');
    assert Put(first, 2, Entry(1, 2, 8), Waiting(NO_KEY)) == PENDING;
  }

  /** A repair mends one entry and then fails on the other: the mended entry stays in the
      cache under the old object's key. */
  lemma AbandonedRepair(cfg: Config, r: iset<World>, w: World) returns (w': World)
    requires !cfg.mended && Closed(cfg, r) && w in r && Serves(w, 1, PENDING, PENDING)
    ensures w' in r && Serves(w', 1, PENDING, REPAIRED)
  {
    w' := Take(cfg, r, w, StartRepair(1, 0, 1, 1));
    w' := Open(cfg, r, w', 1, true, PENDING);
    w' := GiveUpRepair(cfg, r, w');
    assert w'.locks == map[] && w'.writers == map[];
  }

  lemma GiveUpRepair(cfg: Config, r: iset<World>, w: World) returns (w': World)
    requires !cfg.mended && Closed(cfg, r) && w in r && 1 in w.writers && w.locks == map[0 := 1]
    requires w.writers[1] == Writer(Repair, 0, 1, 1, Loaded(Snap(w.pub, 2), true, PENDING)) && w.pub.obj == Some(1)
    requires 0 in w.caches && w.caches[0] == Cached(1, 1, PENDING)
    ensures w' in r
    ensures w' == w.(writers := w.writers - {1}, locks := map[], caches := w.caches[0 := Cached(1, 1, REPAIRED)])
  {
    w' := Take(cfg, r, w, Mend(1, 1, Embedded(0)));
    assert w'.writers[1].phase.ix == REPAIRED && REPAIRED.embs[2].Waiting?;
    w' := Take(cfg, r, w', Quit(1));
    assert w'.locks == map[];
  }

  lemma MendedLoad(w: World)
    requires Serves(w, 1, PENDING, REPAIRED)
    ensures !Faithful(w)
  {
    assert MayLoad(w, READER.replica);
    var loaded := LoadIndex(w, w.pub, READER, true);
    assert loaded == Some((REPAIRED, w.caches));
    assert w.objs[1].ix.embs[1] != loaded.value.0.embs[1];
  }

  /** Exactly which deployments hand out only what was stored: those where every page and
      every repair that edits its index goes on to publish. */
  lemma LoadsAreFaithfulExactly(cfg: Config)
    ensures (forall w | Reachable(cfg, w) :: Faithful(w)) <==> Tidy(cfg) && cfg.mended
  {
    if Tidy(cfg) && cfg.mended {
      forall w | Reachable(cfg, w)
        ensures Faithful(w)
      {
        forall reader: Writer, pub: Publication, readable: bool
          | MayLoad(w, reader.replica) && LoadIndex(w, pub, reader, readable).Some?
          ensures pub.obj.Some? && pub.obj.value in w.objs
          ensures LoadIndex(w, pub, reader, readable).value.0 == w.objs[pub.obj.value].ix
        {
          LoadsAreFaithful(cfg, w, reader, pub, readable);
        }
      }
    } else {
      ReachableIsClosed(cfg);
      var r := iset w | Reachable(cfg, w);
      if cfg.mended {
        var w := DirtyCache(cfg, r);
        DirtyLoad(w);
      } else {
        var w := PendingPushes(cfg, r);
        w := AbandonedRepair(cfg, r, w);
        MendedLoad(w);
      }
    }
  }

  /** No publication made next, on a readable predecessor, lowers a stamp. */
  ghost predicate Rising(cfg: Config, w: World) {
    forall wid, reply, w' | Publishes(cfg, w, wid, reply, w') && w.writers[wid].phase.ok ::
        Monotone(PublishedIndex(w), PublishedIndex(w'))
  }

  /** The slow push builds on the dirty cache and stamps the chat with its own revision. */
  lemma StampFalls(cfg: Config, r: iset<World>, w: World) returns (w': World)
    requires Closed(cfg, r) && w in r && Slow(w) && RebuiltAt(w, EMPTY)
    ensures w' in r && !Rising(cfg, w')
  {
    w' := Open(cfg, r, w, 0, true, EMPTY);
    w' := Take(cfg, r, w', Edit(0, false, DONE));
    w' := Take(cfg, r, w', Save(0, true, true));
    Lowered(cfg, w');
  }

  lemma Lowered(cfg: Config, w: World)
    requires w.pub == Publication(1, 0, 3, Some(0), 1, 1, false) && w.src.Rev() == 3 && w.currentKey == NO_KEY
    requires 0 in w.objs && w.objs[0].ix == REBUILT && 1 in w.objs
    requires w.objs[1].ix == One(1, Entry(1, 1, 7)).(incomplete := true)
    requires 0 in w.writers
    requires w.writers[0] == Writer(Push(1, 7, 1, 1), 0, 1, 1, Sending(Snap(w.pub, 3), true, w.objs[1].ix, 3, true, 1))
    ensures !Rising(cfg, w)
  {
    var w' := Step(cfg, w, Send(0, Answered)).value;
    assert Publishes(cfg, w, 0, Answered, w');
    assert PublishedIndex(w).chats[1].rev == 3 && PublishedIndex(w').chats[1].rev == 1;
  }

  /** Exactly which deployments never lower a stamp. */
  lemma StampsRiseExactlyWhenTidy(cfg: Config)
    ensures (forall w | Reachable(cfg, w) :: Rising(cfg, w)) <==> Tidy(cfg)
  {
    if Tidy(cfg) {
      forall w | Reachable(cfg, w)
        ensures Rising(cfg, w)
      {
        forall wid, reply, w' | Publishes(cfg, w, wid, reply, w') && w.writers[wid].phase.ok
          ensures Monotone(PublishedIndex(w), PublishedIndex(w'))
        {
          StampsNeverGoDown(cfg, w, wid, reply, w');
        }
      }
    } else {
      ReachableIsClosed(cfg);
      var r := iset w | Reachable(cfg, w);
      var w := DirtyCache(cfg, r);
      w := StampFalls(cfg, r, w);
    }
  }
}
