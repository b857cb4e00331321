/** Every step of the protocol keeps the invariant. */
module ProtocolSteps {
  import opened Prelude
  import opened Controlplane
  import opened Protocol
  import opened ProtocolInvariant

  /* ---------- steps that change one writer ---------- */

  /** Writer `wid` moves to `wr` without editing its index or touching the lock. */
  lemma MoveKeeps(cfg: Config, w: World, wid: nat, wr: Writer)
    requires Inv(cfg, w) && wid in w.writers && WriterOK(cfg, View(w), wid, wr)
    requires wr.replica == w.writers[wid].replica && wr.kind.Reset? == w.writers[wid].kind.Reset?
    requires InLock(wr.phase) ==> InLock(w.writers[wid].phase) || wr.kind.Reset?
    requires !Editing(w.writers[wid].phase)
    ensures Inv(cfg, SetWriter(w, wid, wr))
  {
    var w' := SetWriter(w, wid, wr);
    assert View(w') == View(w);
    assert LocksOK(w'.locks, w'.writers);
    assert CachesOK(w'.objs, w'.caches, w'.locks, w'.writers);
  }

  lemma NewKeeps(cfg: Config, w: World, wid: nat, wr: Writer)
    requires Inv(cfg, w) && wid !in w.writers && WriterOK(cfg, View(w), wid, wr)
    requires !InLock(wr.phase)
    ensures Inv(cfg, SetWriter(w, wid, wr))
  {
  }

  lemma EnterKeeps(cfg: Config, w: World, wid: nat, wr: Writer)
    requires Inv(cfg, w) && wid in w.writers && WriterOK(cfg, View(w), wid, wr)
    requires wr.replica == w.writers[wid].replica && !wr.kind.Reset? && !w.writers[wid].kind.Reset?
    requires w.writers[wid].phase.Ready? && wr.replica !in w.locks
    ensures Inv(cfg, SetWriter(w, wid, wr).(locks := w.locks[wr.replica := wid]))
  {
    var w' := SetWriter(w, wid, wr).(locks := w.locks[wr.replica := wid]);
    assert LocksOK(w'.locks, w'.writers);
    assert CachesOK(w'.objs, w'.caches, w'.locks, w'.writers);
  }

  /** The writer's cached index, if any, is like what its object holds. */
  ghost predicate CacheClean(w: World, wid: nat)
    requires wid in w.writers
  {
    var r := w.writers[wid].replica;
    r in w.caches ==> w.caches[r].obj in w.objs && Like(w.caches[r].ix, w.objs[w.caches[r].obj].ix)
  }

  lemma CleanUnlessEditing(cfg: Config, w: World, wid: nat)
    requires Inv(cfg, w) && wid in w.writers && !w.writers[wid].kind.Reset?
    requires InLock(w.writers[wid].phase) || w.writers[wid].replica !in w.locks
    requires !Editing(w.writers[wid].phase)
    ensures CacheClean(w, wid)
  {
  }

  lemma FinishKeeps(cfg: Config, w: World, wid: nat)
    requires Inv(cfg, w) && wid in w.writers
    requires Editing(w.writers[wid].phase) ==> CacheClean(w, wid)
    ensures Inv(cfg, Finish(w, wid))
  {
    var w' := Finish(w, wid);
    assert View(w') == View(w);
    assert WritersOK(cfg, View(w'), w'.writers);
    LocksWithout(w.locks, w.writers, wid, w.writers[wid].replica);
    assert CachesOK(w'.objs, w'.caches, w'.locks, w'.writers);
  }

  lemma LocksWithout(locks: map<nat, nat>, writers: map<nat, Writer>, wid: nat, r: nat)
    requires LocksOK(locks, writers) && wid in writers && writers[wid].replica == r
    ensures LocksOK(if r in locks && locks[r] == wid then locks - {r} else locks, writers - {wid})
  {
  }

  /** Leaving the lock with the job still alive. */
  lemma NextPageKeeps(cfg: Config, w: World, wid: nat, kind: Kind)
    requires Inv(cfg, w) && wid in w.writers && !w.writers[wid].kind.Reset?
    requires kind.Rebuild? && KindOK(cfg, w.src, kind)
    requires !Editing(w.writers[wid].phase)
    ensures Inv(cfg, NextPage(w, wid, w.writers[wid], kind))
  {
    var w' := NextPage(w, wid, w.writers[wid], kind);
    assert View(w') == View(w);
    assert LocksOK(w'.locks, w'.writers);
    assert CachesOK(w'.objs, w'.caches, w'.locks, w'.writers);
  }

  /** The writer edits its index, in the cache as well. */
  lemma EditedKeeps(cfg: Config, w: World, wid: nat, wr: Writer, snap: Snap, ok: bool, ix: Index, phase: Phase)
    requires Inv(cfg, w) && wid in w.writers
    requires wr.replica == w.writers[wid].replica && wr.key == w.writers[wid].key && !wr.kind.Reset?
    requires !w.writers[wid].kind.Reset?
    requires w.writers[wid].phase.Loaded? || w.writers[wid].phase.Mending? || w.writers[wid].phase.Paging?
    requires w.writers[wid].phase.snap == snap && w.writers[wid].phase.ok == ok
    requires Editing(phase)
    requires phase.snap == snap && phase.ok == ok && phase.ix == ix
    requires WriterOK(cfg, View(w), wid, wr.(phase := phase))
    ensures Inv(cfg, Edited(w, wid, wr, snap.pub, ok, ix, phase))
  {
    var w' := Edited(w, wid, wr, snap.pub, ok, ix, phase);
    assert View(w') == View(w);
    StaysInLock(w.locks, w.writers, wid, wr.(phase := phase));
    AliasedOK(w.objs, w.caches, w.locks, w.writers, wid, wr, snap, ok, ix, phase);
  }

  /** A writer that moves on inside the lock still holds it, and nothing else. */
  lemma StaysInLock(locks: map<nat, nat>, writers: map<nat, Writer>, wid: nat, wr: Writer)
    requires LocksOK(locks, writers) && wid in writers && InLock(writers[wid].phase) && !writers[wid].kind.Reset?
    requires wr.replica == writers[wid].replica && !wr.kind.Reset?
    ensures LocksOK(locks, writers[wid := wr])
    ensures wr.replica in locks && locks[wr.replica] == wid
    ensures forall r | r in locks && locks[r] == wid :: r == wr.replica
  {
  }

  lemma AliasedOK(objs: map<ObjectKey, Stored>, caches: map<nat, Cached>, locks: map<nat, nat>,
                  writers: map<nat, Writer>,
                  wid: nat, wr: Writer, snap: Snap, ok: bool, ix: Index, phase: Phase)
    requires CachesOK(objs, caches, locks, writers)
    requires wid in writers && wr.replica in locks && locks[wr.replica] == wid
    requires writers[wid].phase.Loaded? || writers[wid].phase.Mending? || writers[wid].phase.Paging?
    requires writers[wid].phase.snap == snap && writers[wid].phase.ok == ok
    requires forall r | r in locks && locks[r] == wid :: r == wr.replica
    requires Editing(phase)
    requires phase.snap == snap && phase.ok == ok && phase.ix == ix
    requires ok && snap.pub.obj.Some? && snap.pub.obj.value in objs ==> objs[snap.pub.obj.value].key == wr.key
    ensures CachesOK(objs, Aliased(caches, wr, snap.pub, ok, ix), locks, writers[wid := wr.(phase := phase)])
  {
  }

  /* ---------- steps of the chat source ---------- */

  lemma StoreStays(cfg: Config, a: Shared, b: Shared, nextObj: nat)
    requires StoreOK(cfg, a, nextObj) && b == a.(src := b.src) && SourceOK(b.src) && Later(a.src, b.src)
    ensures StoreOK(cfg, b, nextObj)
    ensures forall i :: Evolves(a, b, i)
  {
    assert forall o | o in b.objs ::
      Good(cfg, b.src, b.objs[o].ix);
  }

  lemma SourceKeeps(cfg: Config, w: World, src: Source)
    requires Inv(cfg, w) && SourceOK(src) && Later(w.src, src)
    requires forall i | i in w.writers :: Untouched(w.src, src, w.writers[i].kind)
    ensures Inv(cfg, w.(src := src))
  {
    var w' := w.(src := src);
    StoreStays(cfg, View(w), View(w'), w.nextObj);
    forall i | i in w.writers
      ensures WriterOK(cfg, View(w'), i, w.writers[i])
    {
      assert WriterOK(cfg, View(w), i, w.writers[i]);
      WriterStays(cfg, View(w), View(w'), i, w.writers[i]);
    }
  }

  lemma PushedKeeps(cfg: Config, w: World, id: ChatId, text: Text, ts: nat)
    requires Inv(cfg, w)
    ensures Inv(cfg, w.(src := Pushed(w.src, id, text, ts)))
  {
    PushMovesForward(w.src, id, text, ts);
    SourceKeeps(cfg, w, Pushed(w.src, id, text, ts));
  }

  lemma DeletedKeeps(cfg: Config, w: World, id: ChatId)
    requires Inv(cfg, w)
    ensures Inv(cfg, w.(src := Deleted(w.src, id)))
  {
    DeleteMovesForward(w.src, id);
    SourceKeeps(cfg, w, Deleted(w.src, id));
  }

  lemma RewrappedKeeps(cfg: Config, w: World, id: ChatId)
    requires Sound(cfg) && Inv(cfg, w) && MayRewrap(cfg, w, id)
    ensures Inv(cfg, w.(src := Rewrapped(w.src, id)))
  {
    RewrapMovesForward(w.src, id);
    forall i | i in w.writers
      ensures Untouched(w.src, Rewrapped(w.src, id), w.writers[i].kind)
    {
      assert WriterOK(cfg, View(w), i, w.writers[i]);
      assert cfg.quiet ==> !PulledBy(w, i, id);
    }
    SourceKeeps(cfg, w, Rewrapped(w.src, id));
  }

  lemma ChatPushKeeps(cfg: Config, w: World, a: Action)
    requires Sound(cfg) && Inv(cfg, w) && a.ChatPush? && DoPush(cfg, w, a).Some?
    ensures Inv(cfg, DoPush(cfg, w, a).value)
  {
    PushedKeeps(cfg, w, a.id, a.text, a.ts);
    var w1 := w.(src := Pushed(w.src, a.id, a.text, a.ts));
    var w' := DoPush(cfg, w, a).value;
    NewKeeps(cfg, w1, a.wid, w'.writers[a.wid]);
  }

  lemma ChatDeleteKeeps(cfg: Config, w: World, a: Action)
    requires Sound(cfg) && Inv(cfg, w) && a.ChatDelete? && DoDelete(cfg, w, a).Some?
    ensures Inv(cfg, DoDelete(cfg, w, a).value)
  {
    var w' := DoDelete(cfg, w, a).value;
    if a.id in w.src.chats {
      DeletedKeeps(cfg, w, a.id);
      NewKeeps(cfg, w.(src := Deleted(w.src, a.id)), a.wid, w'.writers[a.wid]);
    } else {
      NewKeeps(cfg, w, a.wid, w'.writers[a.wid]);
    }
  }

  /** The page keeps its facts with one row fetched or given up. */
  lemma FetchedKeeps(cfg: Config, w: World, wid: nat, pull: Pull, id: ChatId)
    requires Inv(cfg, w) && wid in w.writers && w.writers[wid].phase.Ready? && w.writers[wid].kind.Rebuild?
    requires w.writers[wid].kind.pull.Pull? && pull.Pull?
    requires
      var k := w.writers[wid].kind;
      && pull.next == k.pull.next && pull.waiting == k.pull.waiting - {id}
      && (|| (pull.items == k.pull.items && pull.failed > 0)
          || (id in w.src.chats && pull.failed == k.pull.failed &&
              pull.items == k.pull.items[id := Item(w.src.chats[id].etag, w.src.chats[id].text)]))
    ensures Inv(cfg, SetWriter(w, wid, w.writers[wid].(kind := w.writers[wid].kind.(pull := pull))))
  {
    var wr := w.writers[wid];
    assert WriterOK(cfg, View(w), wid, wr);
    MoveKeeps(cfg, w, wid, wr.(kind := wr.kind.(pull := pull)));
  }

  lemma FetchKeeps(cfg: Config, w: World, a: Action)
    requires Sound(cfg) && Inv(cfg, w) && a.Fetch? && DoFetch(cfg, w, a).Some?
    ensures Inv(cfg, DoFetch(cfg, w, a).value)
  {
    var w' := DoFetch(cfg, w, a).value;
    var w1 := w.(src := w'.src);
    if a.ok && a.id in w.src.chats && a.rewrap {
      RewrappedKeeps(cfg, w, a.id);
    } else {
      assert w1 == w;
    }
    FetchedKeeps(cfg, w1, a.wid, w'.writers[a.wid].kind.pull, a.id);
  }

  /* ---------- looking things up ---------- */

  /** What a successful load hands out is like the stored object. */
  lemma LoadIsStored(cfg: Config, w: World, wid: nat, pub: Publication, readable: bool)
    requires Inv(cfg, w) && wid in w.writers && CacheClean(w, wid)
    requires LoadIndex(w, pub, w.writers[wid], readable).Some?
    ensures
      var (ix, caches) := LoadIndex(w, pub, w.writers[wid], readable).value;
      pub.obj.Some? && pub.key == w.writers[wid].key && Like(ix, IndexOf(w.objs, pub)) && Inv(cfg, w.(caches := caches))
  {
    var wr := w.writers[wid];
    var (ix, caches) := LoadIndex(w, pub, wr, readable).value;
    var w' := w.(caches := caches);
    assert View(w') == View(w);
    assert CachesOK(w'.objs, w'.caches, w'.locks, w'.writers);
  }

  lemma ResumedOK(cfg: Config, sh: Shared, wid: nat, wr: Writer, kind: Kind)
    requires WriterOK(cfg, sh, wid, wr) && wr.phase.Starting? && kind.Rebuild? && kind.pull.NoPull?
    requires 0 < kind.target <= sh.src.Rev()
    ensures WriterOK(cfg, sh, wid, wr.(kind := kind, phase := Ready))
  {
  }

  lemma CheckpointKeeps(cfg: Config, w: World, a: Action)
    requires Inv(cfg, w) && a.Checkpoint? && DoCheckpoint(w, a).Some?
    ensures Inv(cfg, DoCheckpoint(w, a).value)
  {
    var w' := DoCheckpoint(w, a).value;
    var wr := w.writers[a.wid];
    assert WriterOK(cfg, View(w), a.wid, wr);
    CleanUnlessEditing(cfg, w, a.wid);
    var pub := wr.phase.snap.pub;
    var loaded := if pub.incomplete then LoadIndex(w, pub, wr, a.readable) else None;
    if loaded.Some? {
      LoadIsStored(cfg, w, a.wid, pub, a.readable);
      assert Good(cfg, w.src, IndexOf(w.objs, pub));
    }
    ResumedOK(cfg, View(w), a.wid, wr, w'.writers[a.wid].kind);
    MoveKeeps(cfg, w.(caches := w'.caches), a.wid, w'.writers[a.wid]);
  }

  lemma LoadedOK(cfg: Config, sh: Shared, wid: nat, wr: Writer, ok: bool, ix: Index)
    requires WriterOK(cfg, sh, wid, wr) && wr.phase.Read?
    requires Opened(wr.phase.snap, ok, wr) && Like(ix, if ok then IndexOf(sh.objs, wr.phase.snap.pub) else EMPTY)
    ensures WriterOK(cfg, sh, wid, wr.(phase := Loaded(wr.phase.snap, ok, ix)))
  {
  }

  lemma LoadKeeps(cfg: Config, w: World, a: Action)
    requires Inv(cfg, w) && a.Load? && DoLoad(w, a).Some?
    ensures Inv(cfg, DoLoad(w, a).value)
  {
    var w' := DoLoad(w, a).value;
    var wr := w.writers[a.wid];
    assert WriterOK(cfg, View(w), a.wid, wr);
    CleanUnlessEditing(cfg, w, a.wid);
    var loaded := LoadIndex(w, wr.phase.snap.pub, wr, a.readable);
    if loaded.Some? {
      LoadIsStored(cfg, w, a.wid, wr.phase.snap.pub, a.readable);
    }
    LoadedOK(cfg, View(w), a.wid, wr, loaded.Some?, w'.writers[a.wid].phase.ix);
    MoveKeeps(cfg, w.(caches := w'.caches), a.wid, w'.writers[a.wid]);
  }

  lemma ReadPubKeeps(cfg: Config, w: World, a: Action)
    requires Inv(cfg, w) && a.ReadPub? && DoReadPub(w, a).Some?
    ensures Inv(cfg, DoReadPub(w, a).value)
  {
    var w' := DoReadPub(w, a).value;
    assert WriterOK(cfg, View(w), a.wid, w.writers[a.wid]);
    assert ProgressLe(IndexOf(w.objs, w.pub), w.src.Rev());
    MoveKeeps(cfg, w, a.wid, w'.writers[a.wid]);
  }

  /** A delete notes when it saw its row missing; others just step inside. */
  lemma InsideOK(cfg: Config, w: World, wid: nat, wr: Writer)
    requires Inv(cfg, w) && wid in w.writers && w.writers[wid].phase.Ready? && !w.writers[wid].kind.Reset?
    requires wr == w.writers[wid].(kind := wr.kind, phase := Inside)
    requires
      var k := w.writers[wid].kind;
      if k.Delete? then k.id !in w.src.chats && wr.kind == Delete(k.id, k.rev, w.src.Rev())
      else wr.kind == k && (k.Rebuild? ==> k.pull.Pull? && k.pull.waiting == {})
    ensures WriterOK(cfg, View(w), wid, wr)
  {
    assert WriterOK(cfg, View(w), wid, w.writers[wid]);
    assert ProgressLe(IndexOf(w.objs, w.pub), w.src.Rev());
  }

  lemma EnteringKeeps(cfg: Config, w: World, a: Action)
    requires Inv(cfg, w) && a.Enter? && DoEnter(w, a).Some?
    ensures Inv(cfg, DoEnter(w, a).value)
  {
    var w' := DoEnter(w, a).value;
    var wr := w.writers[a.wid];
    if wr.kind.Delete? && wr.kind.id in w.src.chats {
      FinishKeeps(cfg, w, a.wid);
    } else {
      InsideOK(cfg, w, a.wid, w'.writers[a.wid]);
      EnterKeeps(cfg, w, a.wid, w'.writers[a.wid]);
    }
  }

  lemma StartRebuildKeeps(cfg: Config, w: World, a: Action)
    requires Sound(cfg) && Inv(cfg, w) && a.StartRebuild? && DoStartRebuild(cfg, w, a).Some?
    ensures Inv(cfg, DoStartRebuild(cfg, w, a).value)
  {
    assert ProgressLe(IndexOf(w.objs, w.pub), w.src.Rev());
    NewKeeps(cfg, w, a.wid, DoStartRebuild(cfg, w, a).value.writers[a.wid]);
  }

  lemma ListKeeps(cfg: Config, w: World, a: Action)
    requires Inv(cfg, w) && a.List? && DoList(w, a).Some?
    ensures Inv(cfg, DoList(w, a).value)
  {
    assert WriterOK(cfg, View(w), a.wid, w.writers[a.wid]);
    MoveKeeps(cfg, w, a.wid, DoList(w, a).value.writers[a.wid]);
  }
}
