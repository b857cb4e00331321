/** Each hypothesis is needed: runs that publish an untrue completeness claim as soon as
    one of them is dropped. Together with the safety theorem this says exactly in which
    deployments a complete publication is always true. */
module ProtocolLimits {
  import opened Prelude
  import opened Controlplane
  import opened Protocol
  import opened ProtocolInvariant
  import opened ProtocolTheorems

  lemma {:induction false} RunThen(cfg: Config, w: World, acts: seq<Action>, a: Action)
    requires Run(cfg, w, acts).Some?
    ensures Run(cfg, w, acts + [a]) == Step(cfg, Run(cfg, w, acts).value, a)
    decreases |acts|
  {
    if acts == [] {
      assert acts + [a] == [a];
      assert [a][1..] == [];
    } else {
      assert (acts + [a])[0] == acts[0] && (acts + [a])[1..] == acts[1..] + [a];
      RunThen(cfg, Step(cfg, w, acts[0]).value, acts[1..], a);
    }
  }

  /** A set of worlds no step leaves. The runs below are walked inside an arbitrary one. */
  ghost predicate Closed(cfg: Config, r: iset<World>) {
    forall w, a | w in r && Step(cfg, w, a).Some? :: Step(cfg, w, a).value in r
  }

  lemma ReachableIsClosed(cfg: Config)
    ensures Closed(cfg, iset w | Reachable(cfg, w))
    ensures Reachable(cfg, INITIAL)
  {
    assert Run(cfg, INITIAL, []) == Some(INITIAL);
    forall w, a | Reachable(cfg, w) && Step(cfg, w, a).Some?
      ensures Reachable(cfg, Step(cfg, w, a).value)
    {
      var acts :| Run(cfg, INITIAL, acts) == Some(w);
      RunThen(cfg, INITIAL, acts, a);
    }
  }

  lemma Take(cfg: Config, r: iset<World>, w: World, a: Action) returns (w': World)
    requires Closed(cfg, r) && w in r && Step(cfg, w, a).Some?
    ensures w' in r && w' == Step(cfg, w, a).value
  {
    w' := Step(cfg, w, a).value;
  }

  /* ---------- stretches of a run ---------- */

  function WithWriter(w: World, wid: nat, wr: Writer): World {
    w.(writers := w.writers[wid := wr])
  }

  /** Lock, read the record, load. */
  lemma Open(cfg: Config, r: iset<World>, w: World, wid: nat, readable: bool, ix: Index) returns (w': World)
    requires Closed(cfg, r) && w in r && wid in w.writers && w.writers[wid].phase.Ready?
    requires w.writers[wid].replica !in w.locks
    requires !w.writers[wid].kind.Reset? && !w.writers[wid].kind.Delete?
    requires w.writers[wid].kind.Rebuild? ==> w.writers[wid].kind.pull.Pull? && w.writers[wid].kind.pull.waiting == {}
    requires
      var loaded := LoadIndex(w, w.pub, w.writers[wid], readable);
      ix == if loaded.Some? then loaded.value.0 else EMPTY
    ensures
      var wr := w.writers[wid];
      var loaded := LoadIndex(w, w.pub, wr, readable);
      && w' in r
      && w' == WithWriter(w, wid, wr.(phase := Loaded(Snap(w.pub, w.src.Rev()), loaded.Some?, ix)))
               .(locks := w.locks[wr.replica := wid], caches := if loaded.Some? then loaded.value.1 else w.caches)
  {
    var wr := w.writers[wid];
    w' := Take(cfg, r, w, Enter(wid));
    assert w' == WithWriter(w, wid, wr.(phase := Inside)).(locks := w.locks[wr.replica := wid]);
    assert LoadIndex(w', w.pub, wr.(phase := Inside), readable) == LoadIndex(w, w.pub, wr, readable);
    w' := Reopen(cfg, r, w', wid, readable, ix);
  }

  lemma Reopen(cfg: Config, r: iset<World>, w: World, wid: nat, readable: bool, ix: Index) returns (w': World)
    requires Closed(cfg, r) && w in r && wid in w.writers && w.writers[wid].phase.Inside?
    requires
      var loaded := LoadIndex(w, w.pub, w.writers[wid], readable);
      ix == if loaded.Some? then loaded.value.0 else EMPTY
    ensures
      var wr := w.writers[wid];
      var loaded := LoadIndex(w, w.pub, wr, readable);
      && w' in r
      && w' == WithWriter(w, wid, wr.(phase := Loaded(Snap(w.pub, w.src.Rev()), loaded.Some?, ix)))
               .(caches := if loaded.Some? then loaded.value.1 else w.caches)
  {
    w' := Take(cfg, r, w, ReadPub(wid));
    var wr := w'.writers[wid];
    assert LoadIndex(w', w.pub, wr, readable) == LoadIndex(w, w.pub, w.writers[wid], readable);
    w' := Take(cfg, r, w', Load(wid, readable));
  }

  /** Store the edited index and publish it. */
  lemma Publish(cfg: Config, r: iset<World>, w: World, wid: nat) returns (w': World)
    requires Closed(cfg, r) && w in r && wid in w.writers && w.writers[wid].phase.Prepared?
    requires
      var Prepared(snap, ok, ix, covered, incomplete) := w.writers[wid].phase;
      Accepts(w.pub, w.src.Rev(), w.currentKey, Request(w.writers[wid], snap, covered, incomplete, w.nextObj))
    ensures
      var wr := w.writers[wid];
      var Prepared(snap, ok, ix, covered, incomplete) := wr.phase;
      && w' in r
      && w' == WithWriter(w, wid, wr.(phase := Cleaning(snap.pub.obj, AfterPublish(wr.kind))))
               .(pub := Published(w.pub, Request(wr, snap, covered, incomplete, w.nextObj)),
                 objs := w.objs[w.nextObj := Stored(ix, wr.key, wr.model, wid)], bucket := w.bucket + {w.nextObj},
                 tried := w.tried + {w.nextObj}, nextObj := w.nextObj + 1,
                 caches := w.caches[wr.replica := Cached(w.nextObj, wr.key, ix)])
      && PublishedIndex(w') == ix
  {
    w' := Take(cfg, r, w, Save(wid, true, true));
    w' := Take(cfg, r, w', Send(wid, Answered));
  }

  /** Every entry written below is embedded. */
  const DONE: Emb := Embedded(0)

  /** A complete index of one chat. */
  function One(id: ChatId, e: Entry): Index {
    Index(map[id := e], map[id := DONE], false, None)
  }

  /** What a fresh load of the record's object gives the writers used below. */
  function Fresh(w: World): Option<(Index, map<nat, Cached>)> {
    LoadIndex(w, w.pub, Writer(Repair, 0, 1, 1, Ready), true)
  }

  /** A push that nothing has overtaken, up to the point where its index is loaded. */
  lemma StartPush(
    cfg: Config, r: iset<World>, w: World, wid: nat, id: ChatId, text: Text, ts: nat, ix: Index)
    returns (w': World)
    requires Closed(cfg, r) && w in r && wid !in w.writers && 0 !in w.locks
    requires ix == if Fresh(w).Some? then Fresh(w).value.0 else EMPTY
    ensures
      && w' in r
      && w' == WithWriter(w, wid, Writer(Push(id, text, NextETag(w.src, id), w.src.Rev() + 1), 0, 1, 1,
                                         Loaded(Snap(w.pub, w.src.Rev() + 1), Fresh(w).Some?, ix)))
               .(src := Pushed(w.src, id, text, ts), locks := w.locks[0 := wid],
                 caches := if Fresh(w).Some? then Fresh(w).value.1 else w.caches)
  {
    w' := Take(cfg, r, w, ChatPush(wid, 0, 1, 1, id, text, ts));
    assert LoadIndex(w', w'.pub, w'.writers[wid], true) == Fresh(w);
    w' := Open(cfg, r, w', wid, true, ix);
  }

  /** A push that nothing has overtaken, indexed and published at once. */
  lemma IndexPush(
    cfg: Config, r: iset<World>, w: World, wid: nat, id: ChatId, text: Text, ts: nat, ix: Index)
    returns (w': World)
    requires Closed(cfg, r) && w in r && wid !in w.writers && 0 !in w.locks && w.currentKey == NO_KEY
    requires !w.pub.incomplete && w.pub.covered == w.src.Rev() && (w.pub.obj.Some? ==> Fresh(w).Some?)
    requires ix == (if Fresh(w).Some? then Fresh(w).value.0 else EMPTY) && id !in ix.chats
    ensures w' in r && w'.locks == w.locks && w'.currentKey == NO_KEY && w'.writers == w.writers
    ensures w'.src == Pushed(w.src, id, text, ts)
    ensures
      var e := Entry(NextETag(w.src, id), w.src.Rev() + 1, text);
      Indexed(w, w', wid, Put(ix, id, e, DONE).(incomplete := false))
  {
    w' := StartPush(cfg, r, w, wid, id, text, ts, ix);
    w' := FinishPush(cfg, r, w', wid);
    assert w'.locks == w.locks && w'.writers == w.writers;
  }

  /** From `w` to `w'`, a push published `ix` as complete and left it in the cache. */
  ghost predicate Indexed(w: World, w': World, wid: nat, ix: Index) {
    && w'.pub == Publication(w.pub.gen + 1, w.pub.fence, w.src.Rev() + 1, Some(w.nextObj), 1, 1, false)
    && w'.objs == w.objs[w.nextObj := Stored(ix, 1, 1, wid)] && w.nextObj in w'.bucket && w'.nextObj == w.nextObj + 1
    && 0 in w'.caches && w'.caches[0] == Cached(w.nextObj, 1, ix)
  }

  lemma FinishPush(cfg: Config, r: iset<World>, w: World, wid: nat) returns (w': World)
    requires Closed(cfg, r) && w in r && wid in w.writers && w.writers[wid].phase.Loaded? && w.writers[wid].kind.Push?
    requires w.currentKey == NO_KEY && 0 in w.locks && w.locks[0] == wid
    requires w.writers[wid].replica == 0 && w.writers[wid].key == 1 && w.writers[wid].model == 1
    requires
      var Loaded(snap, ok, ix) := w.writers[wid].phase;
      var k := w.writers[wid].kind;
      && snap == Snap(w.pub, w.src.Rev()) && k.id !in ix.chats && k.rev == snap.src && 0 < k.rev &&
          CanAdvance(snap, ok, k.rev)
    ensures w' in r && w'.src == w.src && w'.currentKey == NO_KEY
    ensures w'.writers == w.writers - {wid} && w'.locks == w.locks - {0}
    ensures
      var Push(id, text, etag, rev) := w.writers[wid].kind;
      var ix := Put(w.writers[wid].phase.ix, id, Entry(etag, rev, text), DONE).(incomplete := false);
      && w'.pub == Publication(w.pub.gen + 1, w.pub.fence, rev, Some(w.nextObj), 1, 1, false)
      && w'.objs == w.objs[w.nextObj := Stored(ix, 1, 1, wid)] && w.nextObj in w'.bucket && w'.nextObj == w.nextObj + 1
      && 0 in w'.caches && w'.caches[0] == Cached(w.nextObj, 1, ix)
  {
    w' := MergePush(cfg, r, w, wid);
    w' := Publish(cfg, r, w', wid);
    w' := Leave(cfg, r, w', wid);
    assert w'.writers == w.writers - {wid};
  }

  lemma Leave(cfg: Config, r: iset<World>, w: World, wid: nat) returns (w': World)
    requires Closed(cfg, r) && w in r && wid in w.writers && w.writers[wid].phase.Cleaning?
    requires w.writers[wid].phase.next.Stop?
    requires w.writers[wid].replica in w.locks && w.locks[w.writers[wid].replica] == wid
    ensures w' in r && w' == w.(writers := w.writers - {wid}, locks := w.locks - {w.writers[wid].replica})
  {
    w' := Take(cfg, r, w, Clean(wid, false));
  }

  lemma MergePush(cfg: Config, r: iset<World>, w: World, wid: nat) returns (w': World)
    requires Closed(cfg, r) && w in r && wid in w.writers && w.writers[wid].phase.Loaded? && w.writers[wid].kind.Push?
    requires
      var Loaded(snap, ok, ix) := w.writers[wid].phase;
      var k := w.writers[wid].kind;
      k.id !in ix.chats && k.rev == snap.src && 0 < k.rev && CanAdvance(snap, ok, k.rev)
    ensures
      var wr := w.writers[wid];
      var Loaded(snap, ok, ix) := wr.phase;
      var Push(id, text, etag, rev) := wr.kind;
      var ix' := Put(ix, id, Entry(etag, rev, text), DONE).(incomplete := false);
      && w' in r
      && w' == WithWriter(w, wid, wr.(phase := Prepared(snap, ok, ix', rev, false)))
               .(caches := Aliased(w.caches, wr, snap.pub, ok, ix'))
  {
    w' := Take(cfg, r, w, Edit(wid, false, DONE));
  }

  /* ---------- stretches of a rebuild ---------- */

  function Job(target: nat, cursor: Option<Position>, pull: Pull, phase: Phase): Writer {
    Writer(Rebuild(target, 0, cursor, false, pull), 0, 1, 1, phase)
  }

  /** A new job, not resumed, that has listed its first page. */
  lemma StartJob(cfg: Config, r: iset<World>, w: World, wid: nat, next: Option<Position>) returns (w': World)
    requires cfg.rebuild && Closed(cfg, r) && w in r && wid !in w.writers && 0 !in w.locks && 0 < w.src.Rev()
    ensures w' in r
    ensures w' == WithWriter(w, wid, Job(w.src.Rev(), None, Pull(next, PageIds(w.src, None, next), map[], 0, 0), Ready))
  {
    w' := Take(cfg, r, w, StartRebuild(wid, 0, 1, 1, 0));
    w' := Take(cfg, r, w', Checkpoint(wid, false));
    w' := Take(cfg, r, w', List(wid, next));
  }

  lemma FetchOne(
    cfg: Config, r: iset<World>, w: World, wid: nat, target: nat, cursor: Option<Position>, next: Option<Position>,
    id: ChatId)
    returns (w': World)
    requires Closed(cfg, r) && w in r && wid in w.writers && id in w.src.chats
    requires w.writers[wid] == Job(target, cursor, Pull(next, {id}, map[], 0, 0), Ready)
    ensures w' in r
    ensures w' == WithWriter(w, wid, Job(target, cursor, Fetched(w.src, next, id), Ready))
  {
    w' := Take(cfg, r, w, Fetch(wid, id, true, false));
    assert {id} - {id} == {};
  }

  function Fetched(s: Source, next: Option<Position>, id: ChatId): Pull
    requires id in s.chats
  {
    Pull(next, {}, map[id := Item(s.chats[id].etag, s.chats[id].text)], 0, 0)
  }

  /** Open the index and start merging a page of one row. */
  lemma OpenPage(
    cfg: Config, r: iset<World>, w: World, wid: nat, target: nat, cursor: Option<Position>, pull: Pull,
    readable: bool, ix: Index, swept: Index)
    returns (w': World)
    requires Closed(cfg, r) && w in r && wid in w.writers && 0 !in w.locks
    requires pull.Pull? && pull.waiting == {} && pull.failed == 0 && w.writers[wid] == Job(target, cursor, pull, Ready)
    requires ix == if LoadIndex(w, w.pub, w.writers[wid], readable).Some?
        then LoadIndex(w, w.pub, w.writers[wid], readable).value.0 else EMPTY
    requires ix.progress == if cursor.Some? then Some(Progress(cursor.value, target, 0)) else None
    requires swept == if cursor.None? then Swept(ix, target, {}) else ix
    requires cfg.guarded ==>
               LoadIndex(w, w.pub, w.writers[wid], readable).Some? || w.pub.covered <= target || w.pub.incomplete
    ensures
      var loaded := LoadIndex(w, w.pub, w.writers[wid], readable);
      var snap := Snap(w.pub, w.src.Rev());
      && w' in r
      && w' == WithWriter(w, wid, Job(target, cursor, pull, Paging(snap, loaded.Some?, swept, pull.items.Keys, 0, ix)))
               .(locks := w.locks[0 := wid],
                 caches := Aliased(if loaded.Some? then loaded.value.1 else w.caches,
                                   w.writers[wid], w.pub, loaded.Some?, swept))
  {
    w' := Open(cfg, r, w, wid, readable, ix);
    w' := Take(cfg, r, w', Begin(wid, {}));
  }

  /** Merge the one fetched row and prepare the page for publication. */
  lemma ClosePage(
    cfg: Config, r: iset<World>, w: World, wid: nat, target: nat, cursor: Option<Position>, pull: Pull, id: ChatId,
    merged: Index)
    returns (w': World)
    requires Closed(cfg, r) && w in r && wid in w.writers && w.writers[wid].phase.Paging?
    requires pull.Pull? && pull.items.Keys == {id} && pull.bad == 0
    requires w.writers[wid] == Job(target, cursor, pull,
        Paging(w.writers[wid].phase.snap, w.writers[wid].phase.ok, w.writers[wid].phase.ix, {id}, 0,
               w.writers[wid].phase.start))
    requires MergeItem(w.src, w.writers[wid].phase.ix, id, pull.items[id], target, false, DONE) == (merged, 0)
    ensures
      var Paging(snap, ok, ix, _, _, _) := w.writers[wid].phase;
      var incomplete := pull.next.Some? || (!ok && cursor.Some?) || (snap.pub.covered > target && snap.pub.incomplete);
      var progress := if pull.next.Some? then Some(Progress(pull.next.value, target, 0)) else None;
      var covered := if snap.pub.covered > target then snap.pub.covered else target;
      && w' in r
      && w'.writers == w.writers[wid := Job(target, cursor, pull,
          Prepared(snap, ok, merged.(incomplete := incomplete, progress := progress), covered, incomplete))]
      && w' == w.(writers := w'.writers, caches := w'.caches)
      && w'.caches.Keys == w.caches.Keys
  {
    w' := Take(cfg, r, w, Merge(wid, id, false, DONE));
    w' := Take(cfg, r, w', End(wid));
  }

  /* ---------- one run per dropped hypothesis ---------- */

  ghost predicate Untrue(r: iset<World>) {
    exists w :: w in r && !Truthful(w)
  }

  /** A delete of an absent chat that answers the counter claims another chat's revision. */
  lemma MissedDeleteBreaks(cfg: Config, r: iset<World>)
    requires !cfg.missZero && Closed(cfg, r) && INITIAL in r
    ensures Untrue(r)
  {
    var w := Take(cfg, r, INITIAL, ChatPush(0, 0, 1, 1, 1, 7, 1));
    w := Take(cfg, r, w, ChatDelete(1, 0, 1, 1, 2));
    w := Take(cfg, r, w, Enter(1));
    CleanUpMissed(cfg, r, w);
  }

  lemma CleanUpMissed(cfg: Config, r: iset<World>, w: World)
    requires Closed(cfg, r) && w in r && w.pub == NEVER_PUBLISHED && w.currentKey == NO_KEY
    requires w.src.Rev() == 1 && Last(w.src, 1) == 1 && 1 in w.src.chats
    requires 1 in w.writers && w.writers[1] == Writer(Delete(2, 1, 1), 0, 1, 1, Inside)
    ensures Untrue(r)
  {
    var w' := Reopen(cfg, r, w, 1, true, EMPTY);
    w' := Take(cfg, r, w', Edit(1, false, DONE));
    w' := Publish(cfg, r, w', 1);
    assert !Truthful(w');
  }

  /** A row re-sealed between its fetch and its merge is skipped without being counted. */
  lemma RewrapRaceBreaks(cfg: Config, r: iset<World>)
    requires cfg.rebuild && !cfg.quiet && Closed(cfg, r) && INITIAL in r
    ensures Untrue(r)
  {
    var w := Take(cfg, r, INITIAL, ChatPush(0, 0, 1, 1, 1, 7, 1));
    var src := w.src;
    w := StartJob(cfg, r, w, 1, None);
    assert PageIds(src, None, None) == {1};
    w := FetchOne(cfg, r, w, 1, 1, None, None, 1);
    w := Take(cfg, r, w, RewrapRow(1));
    var pull := Fetched(src, None, 1);
    assert Swept(EMPTY, 1, {}) == EMPTY;
    w := OpenPage(cfg, r, w, 1, 1, None, pull, true, EMPTY, EMPTY);
    w := ClosePage(cfg, r, w, 1, 1, None, pull, 1, EMPTY);
    w := Publish(cfg, r, w, 1);
    assert Last(w.src, 1) == 1 && 1 in w.src.chats && w.pub.covered == 1;
    assert !Truthful(w);
  }

  /** A page that gives up after editing leaves its edits in the cache, where the next push
      finds them and publishes them as complete. */
  lemma AbandonedPageBreaks(cfg: Config, r: iset<World>)
    requires cfg.rebuild && !cfg.carried && Closed(cfg, r) && INITIAL in r
    ensures Untrue(r)
  {
    var w := IndexPush(cfg, r, INITIAL, 0, 1, 7, 1, EMPTY);
    w := StartJob(cfg, r, w, 1, None);
    assert PageIds(w.src, None, None) == {1};
    w := FetchOne(cfg, r, w, 1, 1, None, None, 1);
    AbandonPage(cfg, r, w);
  }

  lemma AbandonPage(cfg: Config, r: iset<World>, w: World)
    requires !cfg.carried && Closed(cfg, r) && w in r && w.locks == map[] && w.currentKey == NO_KEY
    requires 1 in w.src.chats && Last(w.src, 1) == 1 && w.src.Rev() == 1 && 2 !in w.src.chats
    requires w.writers == map[1 := Job(1, None, Fetched(w.src, None, 1), Ready)]
    requires w.pub == Publication(1, 0, 1, Some(0), 1, 1, false)
    requires 0 in w.objs && w.objs[0].key == 1 && w.objs[0].model == 1 && 0 in w.bucket && w.nextObj == 1
    requires 0 in w.caches && w.caches[0] == Cached(0, 1, One(1, Entry(1, 1, 7)))
    ensures Untrue(r)
  {
    var full := One(1, Entry(1, 1, 7));
    assert Swept(full, 1, {}) == EMPTY;
    var w' := OpenPage(cfg, r, w, 1, 1, None, Fetched(w.src, None, 1), true, full, EMPTY);
    w' := Take(cfg, r, w', Quit(1));
    assert w'.caches[0] == Cached(0, 1, EMPTY) && w'.locks == map[] && w'.pub == w.pub && w'.src == w.src;
    w' := IndexPush(cfg, r, w', 2, 2, 8, 2, EMPTY);
    assert Last(w'.src, 1) == 1 && 1 !in PublishedIndex(w').chats;
    assert !Truthful(w');
  }

  /** A first page that cannot read the object of a newer complete publication starts from
      nothing, yet keeps that publication's revision. */
  lemma UnreadableNewerBreaks(cfg: Config, r: iset<World>)
    requires cfg.rebuild && !cfg.guarded && Closed(cfg, r) && INITIAL in r
    ensures Untrue(r)
  {
    var w := IndexPush(cfg, r, INITIAL, 0, 1, 7, 1, EMPTY);
    w := StartJob(cfg, r, w, 1, None);
    var src := w.src;
    assert PageIds(src, None, None) == {1};
    w := FetchOne(cfg, r, w, 1, 1, None, None, 1);
    w := IndexPush(cfg, r, w, 2, 2, 8, 2, One(1, Entry(1, 1, 7)));
    MergeOverUnreadable(cfg, r, w, Fetched(src, None, 1));
  }

  lemma MergeOverUnreadable(cfg: Config, r: iset<World>, w: World, pull: Pull)
    requires !cfg.guarded && Closed(cfg, r) && w in r && w.locks == map[] && w.currentKey == NO_KEY
    requires w.src.Rev() == 2 && 2 in w.src.chats && Last(w.src, 2) == 2
    requires pull == Pull(None, {}, map[1 := Item(1, 7)], 0, 0) && 1 in w.src.chats && w.src.chats[1].etag == 1
    requires w.writers == map[1 := Job(1, None, pull, Ready)]
    requires w.pub.covered == 2 && !w.pub.incomplete
    ensures Untrue(r)
  {
    assert Swept(EMPTY, 1, {}) == EMPTY;
    var w' := OpenPage(cfg, r, w, 1, 1, None, pull, false, EMPTY, EMPTY);
    var merged := One(1, Entry(1, 1, 7));
    w' := ClosePage(cfg, r, w', 1, 1, None, pull, 1, merged);
    w' := Publish(cfg, r, w', 1);
    assert 2 !in PublishedIndex(w').chats;
    assert !Truthful(w');
  }

  const BREAK := Position(3, 1)

  const RACED := Source(map[1 := Row(1, 7, BREAK), 2 := Row(1, 8, Position(4, 2))], map[1 := 3, 2 := 4], [1, 1, 1, 2])

  function Deleter(phase: Phase): Writer {
    Writer(Delete(1, 2, 2), 1, 1, 1, phase)
  }

  /** A delete on another replica saw its row missing before it was written again; a page
      indexed the row meanwhile, and the delete takes it out between that page and the last. */
  lemma OtherReplicaBreaks(cfg: Config, r: iset<World>)
    requires cfg.rebuild && !cfg.oneReplica && Closed(cfg, r) && INITIAL in r
    ensures Untrue(r)
  {
    var w := Take(cfg, r, INITIAL, ChatPush(0, 0, 1, 1, 1, 7, 1));
    w := Take(cfg, r, w, ChatDelete(1, 1, 1, 1, 1));
    assert w.src == Source(map[], map[1 := 2], [1, 1]);
    w := Take(cfg, r, w, Enter(1));
    w := WrittenAgain(cfg, r, w);
    RacedFirstPage(cfg, r, w);
  }

  /** The deleted row is written again, and another after it. */
  lemma WrittenAgain(cfg: Config, r: iset<World>, w: World) returns (w': World)
    requires Closed(cfg, r) && w in r && w.src == Source(map[], map[1 := 2], [1, 1])
    requires w.writers.Keys == {0, 1}
    ensures w' in r && w' == w.(src := RACED, writers := w'.writers)
    ensures w'.writers.Keys == {0, 1, 2, 3} && w'.writers[1] == w.writers[1]
  {
    w' := Take(cfg, r, w, ChatPush(2, 0, 1, 1, 1, 7, 3));
    w' := Take(cfg, r, w', ChatPush(3, 0, 1, 1, 2, 8, 4));
    assert w'.src == RACED;
  }

  lemma RacedFirstPage(cfg: Config, r: iset<World>, w: World)
    requires cfg.rebuild && Closed(cfg, r) && w in r && w.src == RACED && w.pub == NEVER_PUBLISHED
    requires w.currentKey == NO_KEY
    requires w.locks == map[1 := 1] && w.nextObj == 0 && w.caches == map[] && w.objs == map[]
    requires 4 !in w.writers && 1 in w.writers && w.writers[1] == Deleter(Inside)
    ensures Untrue(r)
  {
    var w' := StartJob(cfg, r, w, 4, Some(BREAK));
    assert PageIds(RACED, None, Some(BREAK)) == {1};
    w' := FetchOne(cfg, r, w', 4, 4, None, Some(BREAK), 1);
    var pull := Fetched(RACED, Some(BREAK), 1);
    assert Swept(EMPTY, 4, {}) == EMPTY;
    w' := OpenPage(cfg, r, w', 4, 4, None, pull, true, EMPTY, EMPTY);
    w' := ClosePage(cfg, r, w', 4, 4, None, pull, 1, One(1, Entry(1, 4, 7)));
    w' := Publish(cfg, r, w', 4);
    RacedDelete(cfg, r, w', pull);
  }

  lemma RacedDelete(cfg: Config, r: iset<World>, w: World, pull: Pull)
    requires cfg.rebuild && Closed(cfg, r) && w in r && w.src == RACED && w.currentKey == NO_KEY
    requires w.pub == Publication(1, 0, 4, Some(0), 1, 1, true)
    requires w.locks == map[1 := 1, 0 := 4] && w.nextObj == 1 && 1 !in w.caches && 0 in w.bucket
    requires 0 in w.caches && w.caches[0].obj == 0
    requires 0 in w.objs
    requires
      var first := One(1, Entry(1, 4, 7)).(incomplete := true, progress := Some(Progress(BREAK, 4, 0)));
      w.objs[0] == Stored(first, 1, 1, 4)
    requires pull.Pull? && pull.next == Some(BREAK) && pull.bad == 0
    requires 1 in w.writers && w.writers[1] == Deleter(Inside)
    requires 4 in w.writers && w.writers[4] == Job(4, None, pull, Cleaning(None, Advance))
    ensures Untrue(r)
  {
    var w' := Take(cfg, r, w, Clean(4, false));
    assert w' == w.(writers := w.writers[4 := Job(4, Some(BREAK), NoPull, Ready)], locks := map[1 := 1]);
    var first := w.objs[0].ix;
    w' := Reopen(cfg, r, w', 1, true, first);
    var emptied := Index(map[], map[], true, first.progress);
    w' := RacedRemoval(cfg, r, w', first, emptied);
    RacedLastPage(cfg, r, w', emptied);
  }

  lemma RacedRemoval(cfg: Config, r: iset<World>, w: World, ix: Index, emptied: Index) returns (w': World)
    requires Closed(cfg, r) && w in r && w.src == RACED && w.currentKey == NO_KEY && w.nextObj == 1
    requires w.pub == Publication(1, 0, 4, Some(0), 1, 1, true)
    requires 1 in w.writers && w.writers[1] == Deleter(Loaded(Snap(w.pub, 4), true, ix))
    requires 1 in ix.chats && emptied == Without(ix, 1).(incomplete := true)
    ensures w' in r && w'.src == w.src && w'.currentKey == w.currentKey && w'.locks == w.locks
    ensures w'.pub == Publication(2, 0, 4, Some(1), 1, 1, true)
    ensures 1 in w'.objs && w'.objs[1] == Stored(emptied, 1, 1, 1) && 1 in w'.bucket
    ensures forall k | k in w.writers && k != 1 :: k in w'.writers && w'.writers[k] == w.writers[k]
    ensures forall k | k in w'.caches && k != 1 :: k in w.caches && w'.caches[k] == w.caches[k]
  {
    w' := Take(cfg, r, w, Edit(1, false, DONE));
    w' := Publish(cfg, r, w', 1);
  }

  lemma RacedLastPage(cfg: Config, r: iset<World>, w: World, ix: Index)
    requires Closed(cfg, r) && w in r && w.src == RACED && w.currentKey == NO_KEY && 0 !in w.locks
    requires w.pub == Publication(2, 0, 4, Some(1), 1, 1, true)
    requires ix == Index(map[], map[], true, Some(Progress(BREAK, 4, 0)))
    requires 1 in w.objs && w.objs[1] == Stored(ix, 1, 1, 1) && 1 in w.bucket
    requires (0 in w.caches ==> w.caches[0].obj != 1)
    requires 4 in w.writers && w.writers[4] == Job(4, Some(BREAK), NoPull, Ready)
    ensures Untrue(r)
  {
    var w' := Take(cfg, r, w, List(4, None));
    assert PageIds(RACED, Some(BREAK), None) == {2};
    w' := FetchOne(cfg, r, w', 4, 4, Some(BREAK), None, 2);
    var pull := Fetched(RACED, None, 2);
    w' := OpenPage(cfg, r, w', 4, 4, Some(BREAK), pull, true, ix, ix);
    w' := ClosePage(cfg, r, w', 4, 4, Some(BREAK), pull, 2, Put(ix, 2, Entry(1, 4, 8), DONE));
    w' := Publish(cfg, r, w', 4);
    assert Last(w'.src, 1) == 3 && 1 !in PublishedIndex(w').chats;
    assert !Truthful(w');
  }

  /** Exactly which deployments never publish an untrue completeness claim. */
  lemma CoverageHoldsExactlyWhenSound(cfg: Config)
    ensures (forall w | Reachable(cfg, w) :: Truthful(w)) <==> Sound(cfg)
  {
    if Sound(cfg) {
      forall w | Reachable(cfg, w)
        ensures Truthful(w)
      {
        CompletePublicationIsTrue(cfg, w);
      }
    } else {
      ReachableIsClosed(cfg);
      var r := iset w | Reachable(cfg, w);
      if !cfg.missZero {
        MissedDeleteBreaks(cfg, r);
      } else if !cfg.oneReplica {
        OtherReplicaBreaks(cfg, r);
      } else if !cfg.quiet {
        RewrapRaceBreaks(cfg, r);
      } else if !cfg.guarded {
        UnreadableNewerBreaks(cfg, r);
      } else {
        AbandonedPageBreaks(cfg, r);
      }
    }
  }
}
