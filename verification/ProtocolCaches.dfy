/** Caches, completeness flags and stamps, in deployments beyond the sound ones. One
    invariant serves every deployment: a cached index has its object's flag and checkpoint;
    where pages that edit go on to publish (`Tidy`) it has its object's entries too; where
    repairs do as well (`cfg.mended`) it is its object. */
module ProtocolCaches {
  import opened Prelude
  import opened Controlplane
  import opened Protocol
  import opened ProtocolInvariant
  import opened ProtocolTheorems

  predicate Tidy(cfg: Config) {
    cfg.rebuild ==> cfg.carried
  }

  predicate SameHeader(a: Index, b: Index) {
    a.incomplete == b.incomplete && a.progress == b.progress
  }

  /** Unedited as far as the deployment promises. */
  predicate Same(cfg: Config, a: Index, b: Index) {
    SameHeader(a, b) && (Tidy(cfg) ==> a.chats == b.chats) && (Tidy(cfg) && cfg.mended ==> a.embs == b.embs)
  }

  predicate HeaderOK(ix: Index) {
    ix.progress.Some? ==> ix.incomplete && 0 < ix.progress.value.target
  }

  /** The object a record names was stored under that key and model, with that flag. */
  predicate Names(objs: map<ObjectKey, Stored>, pub: Publication) {
    pub.obj.Some? ==>
      && pub.obj.value in objs && objs[pub.obj.value].key == pub.key && objs[pub.obj.value].model == pub.model
      && objs[pub.obj.value].ix.incomplete == pub.incomplete
  }

  predicate Snapped(objs: map<ObjectKey, Stored>, now: Publication, pub: Publication) {
    Names(objs, pub) && pub.gen <= now.gen && (pub.gen == now.gen ==> pub == now)
  }

  /** No stamp went down, and what the page dropped and may still merge is older than its
      target. */
  ghost predicate PageMonotone(base: Index, ix: Index, todo: set<ChatId>, target: nat) {
    Monotone(base, ix) && forall x | x in todo && x in base.chats && x !in ix.chats :: base.chats[x].rev <= target
  }

  function Base(objs: map<ObjectKey, Stored>, pub: Publication, ok: bool): Index {
    if ok then IndexOf(objs, pub) else EMPTY
  }

  ghost predicate PhaseHeld(cfg: Config, objs: map<ObjectKey, Stored>, now: Publication, wid: nat, wr: Writer) {
    match wr.phase
    case Starting(snap) => Snapped(objs, now, snap.pub) && wr.kind.Rebuild?
    case Read(snap) => Snapped(objs, now, snap.pub)
    case Loaded(snap, ok, ix) =>
      Snapped(objs, now, snap.pub) && Opened(snap, ok, wr) && Same(cfg, ix, Base(objs, snap.pub, ok))
    case Mending(snap, ok, ix) =>
      && Snapped(objs, now, snap.pub) && Opened(snap, ok, wr) && wr.kind.Repair? && ok
      && SameHeader(ix, Base(objs, snap.pub, ok)) && (Tidy(cfg) ==> ix.chats == Base(objs, snap.pub, ok).chats)
    case Paging(snap, ok, ix, todo, bad, start) =>
      && Snapped(objs, now, snap.pub) && Opened(snap, ok, wr) && wr.kind.Rebuild?
      && SameHeader(ix, Base(objs, snap.pub, ok)) && Same(cfg, start, Base(objs, snap.pub, ok))
      && (Tidy(cfg) && ok ==> PageMonotone(IndexOf(objs, snap.pub), ix, todo, wr.kind.target))
    case Prepared(snap, ok, ix, covered, incomplete) =>
      && Snapped(objs, now, snap.pub) && Opened(snap, ok, wr) && ix.incomplete == incomplete && HeaderOK(ix)
      && (Tidy(cfg) && ok ==> Monotone(IndexOf(objs, snap.pub), ix))
    case Sending(snap, ok, ix, covered, incomplete, obj) =>
      && Snapped(objs, now, snap.pub) && ix.incomplete == incomplete && HeaderOK(ix)
      && (Tidy(cfg) && ok ==> Monotone(IndexOf(objs, snap.pub), ix))
      && obj in objs && objs[obj] == Stored(ix, wr.key, wr.model, wid)
    case _ => true
  }

  predicate KindHeld(cfg: Config, k: Kind) {
    (k.Rebuild? ==> cfg.rebuild && 0 < k.target) && (k.Push? ==> 0 < k.rev)
  }

  ghost predicate WriterHeld(cfg: Config, objs: map<ObjectKey, Stored>, now: Publication, wid: nat, wr: Writer) {
    && PhaseHeld(cfg, objs, now, wid, wr) && KindHeld(cfg, wr.kind)
    && (wr.kind.Reset? ==> wr.phase.Ready? || (wr.phase.Cleaning? && wr.phase.next.Stop?))
  }

  /** A cached index is like the object it is keyed by, unless the lock holder is editing it. */
  ghost predicate CachesHeld(
    cfg: Config, objs: map<ObjectKey, Stored>, caches: map<nat, Cached>, locks: map<nat, nat>,
    writers: map<nat, Writer>) {
    forall r | r in caches ::
      && caches[r].obj in objs && objs[caches[r].obj].key == caches[r].key
      && (Same(cfg, caches[r].ix, objs[caches[r].obj].ix) ||
          (r in locks && locks[r] in writers && Touching(writers[locks[r]].phase, caches[r])))
  }

  ghost predicate StoreHeld(objs: map<ObjectKey, Stored>, pub: Publication, nextObj: nat) {
    Names(objs, pub) && forall o | o in objs :: o < nextObj && HeaderOK(objs[o].ix)
  }

  ghost predicate WritersHeld(cfg: Config, objs: map<ObjectKey, Stored>, now: Publication, writers: map<nat, Writer>) {
    forall i | i in writers :: WriterHeld(cfg, objs, now, i, writers[i])
  }

  ghost predicate Held(cfg: Config, w: World) {
    && StoreHeld(w.objs, w.pub, w.nextObj)
    && WritersHeld(cfg, w.objs, w.pub, w.writers)
    && LocksOK(w.locks, w.writers)
    && CachesHeld(cfg, w.objs, w.caches, w.locks, w.writers)
  }

  /* ---------- steps of one writer ---------- */

  /** Writer `wid` moves on without editing its index or taking the lock. */
  lemma MoveHeld(cfg: Config, w: World, wid: nat, wr: Writer)
    requires Held(cfg, w) && wid in w.writers && WriterHeld(cfg, w.objs, w.pub, wid, wr)
    requires wr.replica == w.writers[wid].replica && wr.kind.Reset? == w.writers[wid].kind.Reset?
    requires InLock(wr.phase) ==> InLock(w.writers[wid].phase) || wr.kind.Reset?
    requires !Editing(w.writers[wid].phase)
    ensures Held(cfg, SetWriter(w, wid, wr))
  {
    var w' := SetWriter(w, wid, wr);
    assert LocksOK(w'.locks, w'.writers);
    assert CachesHeld(cfg, w'.objs, w'.caches, w'.locks, w'.writers);
  }

  lemma NewHeld(cfg: Config, w: World, wid: nat, wr: Writer)
    requires Held(cfg, w) && wid !in w.writers && WriterHeld(cfg, w.objs, w.pub, wid, wr) && !InLock(wr.phase)
    ensures Held(cfg, SetWriter(w, wid, wr))
  {
  }

  lemma EnterHeld(cfg: Config, w: World, wid: nat, wr: Writer)
    requires Held(cfg, w) && wid in w.writers && WriterHeld(cfg, w.objs, w.pub, wid, wr)
    requires wr.replica == w.writers[wid].replica && !wr.kind.Reset? && !w.writers[wid].kind.Reset?
    requires w.writers[wid].phase.Ready? && wr.replica !in w.locks
    ensures Held(cfg, SetWriter(w, wid, wr).(locks := w.locks[wr.replica := wid]))
  {
    var w' := SetWriter(w, wid, wr).(locks := w.locks[wr.replica := wid]);
    assert LocksOK(w'.locks, w'.writers);
    assert CachesHeld(cfg, w'.objs, w'.caches, w'.locks, w'.writers);
  }

  /** The writer's replica caches nothing but what its object holds. */
  ghost predicate Clean(cfg: Config, w: World, r: nat) {
    r in w.caches ==> w.caches[r].obj in w.objs && Same(cfg, w.caches[r].ix, w.objs[w.caches[r].obj].ix)
  }

  lemma FinishHeld(cfg: Config, w: World, wid: nat)
    requires Held(cfg, w) && wid in w.writers
    requires Editing(w.writers[wid].phase) ==> Clean(cfg, w, w.writers[wid].replica)
    ensures Held(cfg, Finish(w, wid))
  {
    var w' := Finish(w, wid);
    assert WritersHeld(cfg, w'.objs, w'.pub, w'.writers);
    assert LocksOK(w'.locks, w'.writers);
    assert CachesHeld(cfg, w'.objs, w'.caches, w'.locks, w'.writers);
  }

  lemma NextPageHeld(cfg: Config, w: World, wid: nat, kind: Kind)
    requires Held(cfg, w) && wid in w.writers && !w.writers[wid].kind.Reset? && kind.Rebuild? && KindHeld(cfg, kind)
    requires !Editing(w.writers[wid].phase)
    ensures Held(cfg, NextPage(w, wid, w.writers[wid], kind))
  {
    var w' := NextPage(w, wid, w.writers[wid], kind);
    assert LocksOK(w'.locks, w'.writers);
    assert CachesHeld(cfg, w'.objs, w'.caches, w'.locks, w'.writers);
  }

  /** The writer edits its index, in the cache as well. */
  lemma EditedHeld(cfg: Config, w: World, wid: nat, wr: Writer, snap: Snap, ok: bool, ix: Index, phase: Phase)
    requires Held(cfg, w) && wid in w.writers
    requires wr.replica == w.writers[wid].replica && wr.key == w.writers[wid].key && !wr.kind.Reset?
    requires !w.writers[wid].kind.Reset?
    requires w.writers[wid].phase.Loaded? || w.writers[wid].phase.Mending? || w.writers[wid].phase.Paging?
    requires w.writers[wid].phase.snap == snap && w.writers[wid].phase.ok == ok
    requires Editing(phase)
    requires phase.snap == snap && phase.ok == ok && phase.ix == ix
    requires WriterHeld(cfg, w.objs, w.pub, wid, wr.(phase := phase))
    ensures Held(cfg, Edited(w, wid, wr, snap.pub, ok, ix, phase))
  {
    var w' := Edited(w, wid, wr, snap.pub, ok, ix, phase);
    assert WriterHeld(cfg, w.objs, w.pub, wid, w.writers[wid]);
    assert LocksOK(w'.locks, w'.writers);
    AliasedHeld(cfg, w.objs, w.caches, w.locks, w.writers, wid, wr, snap, ok, ix, phase);
  }

  lemma AliasedHeld(cfg: Config, objs: map<ObjectKey, Stored>, caches: map<nat, Cached>, locks: map<nat, nat>,
                    writers: map<nat, Writer>,
                    wid: nat, wr: Writer, snap: Snap, ok: bool, ix: Index, phase: Phase)
    requires CachesHeld(cfg, objs, caches, locks, writers)
    requires wid in writers && wr.replica in locks && locks[wr.replica] == wid
    requires writers[wid].phase.Loaded? || writers[wid].phase.Mending? || writers[wid].phase.Paging?
    requires writers[wid].phase.snap == snap && writers[wid].phase.ok == ok
    requires forall r | r in locks && locks[r] == wid :: r == wr.replica
    requires Editing(phase)
    requires phase.snap == snap && phase.ok == ok && phase.ix == ix
    requires ok && snap.pub.obj.Some? && snap.pub.obj.value in objs ==> objs[snap.pub.obj.value].key == wr.key
    ensures CachesHeld(cfg, objs, Aliased(caches, wr, snap.pub, ok, ix), locks, writers[wid := wr.(phase := phase)])
  {
  }

  /* ---------- loading ---------- */

  lemma CleanUnlessEditing(cfg: Config, w: World, r: nat)
    requires Held(cfg, w)
    requires r !in w.locks || !Editing(w.writers[w.locks[r]].phase)
    ensures Clean(cfg, w, r)
  {
  }

  /** What a successful load hands out is like the stored object. */
  lemma LoadHeld(cfg: Config, w: World, reader: Writer, pub: Publication, readable: bool)
    requires Held(cfg, w) && Clean(cfg, w, reader.replica) && LoadIndex(w, pub, reader, readable).Some?
    ensures
      var (ix, caches) := LoadIndex(w, pub, reader, readable).value;
      && pub.obj.Some? && pub.obj.value in w.objs && pub.key == reader.key
      && Same(cfg, ix, w.objs[pub.obj.value].ix) && Held(cfg, w.(caches := caches))
      && w.objs[pub.obj.value].key == reader.key && w.objs[pub.obj.value].model == reader.model
  {
    var (ix, caches) := LoadIndex(w, pub, reader, readable).value;
    var w' := w.(caches := caches);
    assert CachesHeld(cfg, w'.objs, w'.caches, w'.locks, w'.writers);
  }

  lemma LoadStepHeld(cfg: Config, w: World, a: Action)
    requires Held(cfg, w) && a.Load? && DoLoad(w, a).Some?
    ensures Held(cfg, DoLoad(w, a).value)
  {
    var w' := DoLoad(w, a).value;
    var wr := w.writers[a.wid];
    assert WriterHeld(cfg, w.objs, w.pub, a.wid, wr);
    CleanUnlessEditing(cfg, w, wr.replica);
    if LoadIndex(w, wr.phase.snap.pub, wr, a.readable).Some? {
      LoadHeld(cfg, w, wr, wr.phase.snap.pub, a.readable);
    }
    MoveHeld(cfg, w.(caches := w'.caches), a.wid, w'.writers[a.wid]);
  }

  lemma CheckpointHeld(cfg: Config, w: World, a: Action)
    requires Held(cfg, w) && a.Checkpoint? && DoCheckpoint(w, a).Some?
    ensures Held(cfg, DoCheckpoint(w, a).value)
  {
    var w' := DoCheckpoint(w, a).value;
    var wr := w.writers[a.wid];
    assert WriterHeld(cfg, w.objs, w.pub, a.wid, wr);
    var pub := wr.phase.snap.pub;
    CleanUnlessEditing(cfg, w, wr.replica);
    if pub.incomplete && LoadIndex(w, pub, wr, a.readable).Some? {
      LoadHeld(cfg, w, wr, pub, a.readable);
      assert HeaderOK(w.objs[pub.obj.value].ix);
    }
    ResumedHeld(cfg, w.(caches := w'.caches), a.wid, w'.writers[a.wid]);
  }

  /** A job starts anew or from a checkpoint. */
  lemma ResumedHeld(cfg: Config, w: World, wid: nat, wr: Writer)
    requires Held(cfg, w) && wid in w.writers && w.writers[wid].phase.Starting?
    requires wr == w.writers[wid].(kind := wr.kind, phase := Ready) && wr.kind.Rebuild? && 0 < wr.kind.target
    ensures Held(cfg, SetWriter(w, wid, wr))
  {
    assert WriterHeld(cfg, w.objs, w.pub, wid, w.writers[wid]);
    MoveHeld(cfg, w, wid, wr);
  }

  /* ---------- editing ---------- */

  lemma PrepareHeld(cfg: Config, w: World, wid: nat, ix: Index, covered: nat, incomplete: bool)
    requires Held(cfg, w) && wid in w.writers && !w.writers[wid].kind.Reset?
    requires w.writers[wid].phase.Loaded? || w.writers[wid].phase.Mending?
    requires ix.incomplete == incomplete && HeaderOK(ix)
    requires Tidy(cfg) && w.writers[wid].phase.ok ==> Monotone(IndexOf(w.objs, w.writers[wid].phase.snap.pub), ix)
    ensures
      var wr := w.writers[wid];
      Held(cfg, Prepare(w, wid, wr, wr.phase.snap, wr.phase.ok, ix, covered, incomplete))
  {
    var wr := w.writers[wid];
    assert WriterHeld(cfg, w.objs, w.pub, wid, wr);
    EditedHeld(cfg, w, wid, wr, wr.phase.snap, wr.phase.ok, ix,
        Prepared(wr.phase.snap, wr.phase.ok, ix, covered, incomplete));
  }

  lemma EditPushHeld(cfg: Config, w: World, wid: nat, fails: bool, emb: Emb)
    requires Held(cfg, w) && wid in w.writers && w.writers[wid].phase.Loaded? && w.writers[wid].kind.Push?
    ensures
      var wr := w.writers[wid];
      Held(cfg, EditPush(w, wid, wr, wr.phase.snap, wr.phase.ok, wr.phase.ix, fails, emb))
  {
    var wr := w.writers[wid];
    var Loaded(snap, ok, ix) := wr.phase;
    var Push(id, text, etag, rev) := wr.kind;
    if EditPush(w, wid, wr, snap, ok, ix, fails, emb) == Finish(w, wid) {
      FinishHeld(cfg, w, wid);
    } else if !(rev > 0 && snap.src == rev) && id !in w.src.chats {
      PrepareHeld(cfg, w, wid, Without(ix, id).(incomplete := true), snap.pub.covered, true);
    } else {
      PutEntryHeld(cfg, w, wid, emb);
    }
  }

  /** The push's entry goes in over an older one. */
  lemma PutEntryHeld(cfg: Config, w: World, wid: nat, emb: Emb)
    requires Held(cfg, w) && wid in w.writers && w.writers[wid].phase.Loaded? && w.writers[wid].kind.Push?
    requires
      var Push(id, text, etag, rev) := w.writers[wid].kind;
      var ix := w.writers[wid].phase.ix;
      id in ix.chats ==> !Supersedes(ix.chats[id], etag, rev)
    ensures
      var wr := w.writers[wid];
      var Loaded(snap, ok, ix) := wr.phase;
      var Push(id, text, etag, rev) := wr.kind;
      var advance := CanAdvance(snap, ok, rev);
      Held(cfg, Prepare(w, wid, wr, snap, ok, Put(ix, id, Entry(etag, rev, text), emb).(incomplete := !advance),
                        if advance then rev else snap.pub.covered, !advance))
  {
    var Loaded(snap, ok, ix) := w.writers[wid].phase;
    var Push(id, text, etag, rev) := w.writers[wid].kind;
    var advance := CanAdvance(snap, ok, rev);
    PrepareHeld(cfg, w, wid, Put(ix, id, Entry(etag, rev, text), emb).(incomplete := !advance),
                if advance then rev else snap.pub.covered, !advance);
  }

  lemma EditHeld(cfg: Config, w: World, a: Action)
    requires Held(cfg, w) && a.Edit? && DoEdit(w, a).Some?
    ensures Held(cfg, DoEdit(w, a).value)
  {
    var wr := w.writers[a.wid];
    var snap, ok, ix := wr.phase.snap, wr.phase.ok, wr.phase.ix;
    if wr.kind.Push? {
      EditPushHeld(cfg, w, a.wid, a.fails, a.emb);
    } else if DoEdit(w, a).value == Finish(w, a.wid) {
      FinishHeld(cfg, w, a.wid);
    } else if wr.kind.Delete? {
      var advance := CanAdvance(snap, ok, wr.kind.rev);
      PrepareHeld(cfg, w, a.wid, Without(ix, wr.kind.id).(incomplete := !advance),
                  if advance then wr.kind.rev else snap.pub.covered, !advance);
    } else {
      PrepareHeld(cfg, w, a.wid, ix, snap.pub.covered, snap.pub.incomplete || ix.incomplete);
    }
  }

  lemma MendHeld(cfg: Config, w: World, a: Action)
    requires Held(cfg, w) && a.Mend? && DoMend(w, a).Some?
    ensures Held(cfg, DoMend(w, a).value)
  {
    var wr := w.writers[a.wid];
    assert WriterHeld(cfg, w.objs, w.pub, a.wid, wr);
    var phase := DoMend(w, a).value.writers[a.wid].phase;
    EditedHeld(cfg, w, a.wid, wr, wr.phase.snap, wr.phase.ok, phase.ix, phase);
  }

  /* ---------- pages ---------- */

  lemma BeginHeld(cfg: Config, w: World, a: Action)
    requires Held(cfg, w) && a.Begin? && DoBegin(cfg, w, a).Some?
    ensures Held(cfg, DoBegin(cfg, w, a).value)
  {
    var w' := DoBegin(cfg, w, a).value;
    var wr := w.writers[a.wid];
    assert WriterHeld(cfg, w.objs, w.pub, a.wid, wr);
    var Loaded(snap, ok, ix) := wr.phase;
    if a.wid !in w'.writers {
      FinishHeld(cfg, w, a.wid);
    } else if w'.writers[a.wid].phase.Ready? {
      NextPageHeld(cfg, w, a.wid, w'.writers[a.wid].kind);
    } else {
      EditedHeld(cfg, w, a.wid, wr, snap, ok, w'.writers[a.wid].phase.ix, w'.writers[a.wid].phase);
    }
  }

  lemma MergeHeld(cfg: Config, w: World, a: Action)
    requires Held(cfg, w) && a.Merge? && DoMerge(w, a).Some?
    ensures Held(cfg, DoMerge(w, a).value)
  {
    var w' := DoMerge(w, a).value;
    var wr := w.writers[a.wid];
    assert WriterHeld(cfg, w.objs, w.pub, a.wid, wr);
    var Paging(snap, ok, ix, _, _, _) := wr.phase;
    EditedHeld(cfg, w, a.wid, wr, snap, ok, w'.writers[a.wid].phase.ix, w'.writers[a.wid].phase);
  }

  lemma EndHeld(cfg: Config, w: World, a: Action)
    requires Held(cfg, w) && a.End? && DoEnd(w, a).Some?
    ensures Held(cfg, DoEnd(w, a).value)
  {
    var w' := DoEnd(w, a).value;
    var wr := w.writers[a.wid];
    assert WriterHeld(cfg, w.objs, w.pub, a.wid, wr);
    var Paging(snap, ok, ix, _, bad, _) := wr.phase;
    var wr' := wr.(kind := wr.kind.(pull := wr.kind.pull.(bad := bad)));
    EditedHeld(cfg, w, a.wid, wr', snap, ok, w'.writers[a.wid].phase.ix, w'.writers[a.wid].phase);
  }

  lemma QuitHeld(cfg: Config, w: World, a: Action)
    requires Held(cfg, w) && a.Quit? && DoQuit(cfg, w, a).Some?
    ensures Held(cfg, DoQuit(cfg, w, a).value)
  {
    var wr := w.writers[a.wid];
    assert WriterHeld(cfg, w.objs, w.pub, a.wid, wr);
    if wr.phase.Paging? || wr.phase.Mending? {
      assert Clean(cfg, w, wr.replica);
    }
    FinishHeld(cfg, w, a.wid);
  }

  /* ---------- the store and the record ---------- */

  lemma WriterStays(
    cfg: Config, objs: map<ObjectKey, Stored>, now: Publication, objs': map<ObjectKey, Stored>, now': Publication,
    wid: nat, wr: Writer)
    requires WriterHeld(cfg, objs, now, wid, wr)
    requires forall o | o in objs :: o in objs' && objs'[o] == objs[o]
    requires now' == now || now.gen < now'.gen
    ensures WriterHeld(cfg, objs', now', wid, wr)
  {
  }

  lemma WritersStay(cfg: Config, w: World, objs': map<ObjectKey, Stored>, now': Publication)
    requires WritersHeld(cfg, w.objs, w.pub, w.writers)
    requires forall o | o in w.objs :: o in objs' && objs'[o] == w.objs[o]
    requires now' == w.pub || w.pub.gen < now'.gen
    ensures WritersHeld(cfg, objs', now', w.writers)
  {
    forall i | i in w.writers
      ensures WriterHeld(cfg, objs', now', i, w.writers[i])
    {
      WriterStays(cfg, w.objs, w.pub, objs', now', i, w.writers[i]);
    }
  }

  lemma PutHeld(cfg: Config, w: World, st: Stored)
    requires Held(cfg, w) && HeaderOK(st.ix)
    ensures Held(cfg, w.(nextObj := w.nextObj + 1, objs := w.objs[w.nextObj := st], bucket := w.bucket + {w.nextObj}))
  {
    var w' := w.(nextObj := w.nextObj + 1, objs := w.objs[w.nextObj := st], bucket := w.bucket + {w.nextObj});
    assert w.nextObj !in w.objs;
    WritersStay(cfg, w, w'.objs, w.pub);
    assert CachesHeld(cfg, w'.objs, w'.caches, w'.locks, w'.writers);
  }

  lemma LostHeld(cfg: Config, w: World, wid: nat)
    requires Held(cfg, w) && wid in w.writers
    ensures Held(cfg, Finish(DropCache(w, w.writers[wid].replica), wid))
  {
    FinishHeld(cfg, DropCache(w, w.writers[wid].replica), wid);
  }

  lemma SavedHeld(cfg: Config, w: World, wid: nat, wr: Writer, c: Cached)
    requires Held(cfg, w) && wid in w.writers && w.writers[wid].phase.Prepared?
    requires WriterHeld(cfg, w.objs, w.pub, wid, wr)
    requires wr.replica == w.writers[wid].replica && wr.phase.Sending? && !wr.kind.Reset? && !w.writers[wid].kind.Reset?
    requires c.obj in w.objs && w.objs[c.obj].key == c.key && w.objs[c.obj].ix == c.ix
    ensures Held(cfg, SetWriter(w, wid, wr).(caches := w.caches[wr.replica := c]))
  {
    var w' := SetWriter(w, wid, wr).(caches := w.caches[wr.replica := c]);
    assert LocksOK(w'.locks, w'.writers);
    assert CachesHeld(cfg, w'.objs, w'.caches, w'.locks, w'.writers);
  }

  lemma SaveHeld(cfg: Config, w: World, a: Action)
    requires Held(cfg, w) && a.Save? && DoSave(w, a).Some?
    ensures Held(cfg, DoSave(w, a).value)
  {
    var wr := w.writers[a.wid];
    assert WriterHeld(cfg, w.objs, w.pub, a.wid, wr);
    var st := Stored(wr.phase.ix, wr.key, wr.model, a.wid);
    var put := w.(nextObj := w.nextObj + 1, objs := w.objs[w.nextObj := st], bucket := w.bucket + {w.nextObj});
    PutHeld(cfg, w, st);
    if a.stored {
      assert WriterHeld(cfg, put.objs, put.pub, a.wid, wr);
      SavedHeld(cfg, put, a.wid, DoSave(w, a).value.writers[a.wid], Cached(w.nextObj, wr.key, wr.phase.ix));
    } else if a.landed {
      LostHeld(cfg, put, a.wid);
    } else {
      LostHeld(cfg, w.(nextObj := w.nextObj + 1), a.wid);
    }
  }

  /** The record changes only by a decided publish call or a fence. */
  lemma RecordHeld(
    cfg: Config, w: World, wid: nat, wr: Writer, pub: Publication, tried: set<ObjectKey>, caches: map<nat, Cached>)
    requires Held(cfg, w) && wid in w.writers && !Editing(w.writers[wid].phase)
    requires wr == w.writers[wid].(phase := wr.phase)
    requires InLock(wr.phase) ==> InLock(w.writers[wid].phase) || wr.kind.Reset?
    requires wr.phase.Unsure? || wr.phase.Cleaning?
    requires wr.kind.Reset? ==> wr.phase.Cleaning? && wr.phase.next.Stop?
    requires Names(w.objs, pub) && (pub == w.pub || w.pub.gen < pub.gen)
    requires caches == w.caches || caches == w.caches - {wr.replica}
    ensures Held(cfg, SetWriter(w, wid, wr).(pub := pub, tried := tried, caches := caches))
  {
    assert WriterHeld(cfg, w.objs, w.pub, wid, w.writers[wid]);
    MoveHeld(cfg, w, wid, wr);
  }

  lemma SendHeld(cfg: Config, w: World, a: Action)
    requires Held(cfg, w) && a.Send? && DoSend(w, a).Some?
    ensures Held(cfg, DoSend(w, a).value)
  {
    var w' := DoSend(w, a).value;
    assert WriterHeld(cfg, w.objs, w.pub, a.wid, w.writers[a.wid]);
    RecordHeld(cfg, w, a.wid, w'.writers[a.wid], w'.pub, w'.tried, w'.caches);
  }

  lemma FenceHeld(cfg: Config, w: World, a: Action)
    requires Held(cfg, w) && a.Fence? && DoFence(w, a).Some?
    ensures Held(cfg, DoFence(w, a).value)
  {
    var w' := DoFence(w, a).value;
    RecordHeld(cfg, w, a.wid, w'.writers[a.wid], w'.pub, w.tried, w.caches);
  }

  lemma CleanHeld(cfg: Config, w: World, a: Action)
    requires Held(cfg, w) && a.Clean? && DoClean(w, a).Some?
    ensures Held(cfg, DoClean(w, a).value)
  {
    var wr := w.writers[a.wid];
    assert WriterHeld(cfg, w.objs, w.pub, a.wid, wr);
    var Cleaning(orphan, next) := wr.phase;
    var swept := if orphan.Some? && a.ok then w.(bucket := w.bucket - {orphan.value}) else w;
    if next.Again? {
      MoveHeld(cfg, swept, a.wid, wr.(phase := Inside));
    } else if next.Advance? && wr.kind.Rebuild? && wr.kind.pull.Pull? && wr.kind.pull.next.Some? {
      NextPageHeld(cfg, swept, a.wid, DoClean(w, a).value.writers[a.wid].kind);
    } else {
      FinishHeld(cfg, swept, a.wid);
    }
  }

  /* ---------- the remaining steps ---------- */

  lemma CrashHeld(cfg: Config, w: World, replica: nat)
    requires Held(cfg, w)
    ensures Held(cfg, Crashed(w, replica))
  {
    var w' := Crashed(w, replica);
    assert LocksOK(w'.locks, w'.writers);
    assert CachesHeld(cfg, w'.objs, w'.caches, w'.locks, w'.writers);
  }

  lemma NewStepHeld(cfg: Config, w: World, a: Action)
    requires Held(cfg, w) && Step(cfg, w, a).Some?
    requires a.ChatPush? || a.ChatDelete? || a.StartReset? || a.StartRebuild? || a.StartRepair?
    ensures Held(cfg, Step(cfg, w, a).value)
  {
    var w' := Step(cfg, w, a).value;
    NewHeld(cfg, w, a.wid, w'.writers[a.wid]);
  }

  lemma PullStepHeld(cfg: Config, w: World, a: Action)
    requires Held(cfg, w) && Step(cfg, w, a).Some? && (a.List? || a.Fetch?)
    ensures Held(cfg, Step(cfg, w, a).value)
  {
    var w' := Step(cfg, w, a).value;
    assert WriterHeld(cfg, w.objs, w.pub, a.wid, w.writers[a.wid]);
    MoveHeld(cfg, w, a.wid, w'.writers[a.wid]);
    assert w' == SetWriter(w, a.wid, w'.writers[a.wid]).(src := w'.src);
  }

  lemma RecordStepHeld(cfg: Config, w: World, a: Action)
    requires Held(cfg, w) && Step(cfg, w, a).Some? && (a.ReadPub? || a.Reconcile?)
    ensures Held(cfg, Step(cfg, w, a).value)
  {
    assert WriterHeld(cfg, w.objs, w.pub, a.wid, w.writers[a.wid]);
    MoveHeld(cfg, w, a.wid, Step(cfg, w, a).value.writers[a.wid]);
  }

  lemma EnterStepHeld(cfg: Config, w: World, a: Action)
    requires Held(cfg, w) && a.Enter? && DoEnter(w, a).Some?
    ensures Held(cfg, DoEnter(w, a).value)
  {
    var wr := w.writers[a.wid];
    assert WriterHeld(cfg, w.objs, w.pub, a.wid, wr);
    if wr.kind.Delete? && wr.kind.id in w.src.chats {
      FinishHeld(cfg, w, a.wid);
    } else {
      EnterHeld(cfg, w, a.wid, DoEnter(w, a).value.writers[a.wid]);
    }
  }

  lemma LockedStepHeld(cfg: Config, w: World, a: Action)
    requires Held(cfg, w) && Step(cfg, w, a).Some?
    requires a.Load? || a.Checkpoint? || a.Quit? || a.Enter?
    ensures Held(cfg, Step(cfg, w, a).value)
  {
    match a {
      case Load(_, _) => LoadStepHeld(cfg, w, a);
      case Checkpoint(_, _) => CheckpointHeld(cfg, w, a);
      case Quit(_) => QuitHeld(cfg, w, a);
      case Enter(_) => EnterStepHeld(cfg, w, a);
    }
  }

  lemma EditStepHeld(cfg: Config, w: World, a: Action)
    requires Held(cfg, w) && Step(cfg, w, a).Some?
    requires a.Mend? || a.Edit? || a.Begin? || a.Merge? || a.End?
    ensures Held(cfg, Step(cfg, w, a).value)
  {
    match a {
      case Mend(_, _, _) => MendHeld(cfg, w, a);
      case Edit(_, _, _) => EditHeld(cfg, w, a);
      case Begin(_, _) => BeginHeld(cfg, w, a);
      case Merge(_, _, _, _) => MergeHeld(cfg, w, a);
      case End(_) => EndHeld(cfg, w, a);
    }
  }

  lemma StoreStepHeld(cfg: Config, w: World, a: Action)
    requires Held(cfg, w) && Step(cfg, w, a).Some? && (a.Save? || a.Send? || a.Fence? || a.Clean? || a.Crash?)
    ensures Held(cfg, Step(cfg, w, a).value)
  {
    match a {
      case Save(_, _, _) => SaveHeld(cfg, w, a);
      case Send(_, _) => SendHeld(cfg, w, a);
      case Fence(_, _) => FenceHeld(cfg, w, a);
      case Clean(_, _) => CleanHeld(cfg, w, a);
      case Crash(replica) => CrashHeld(cfg, w, replica);
    }
  }

  lemma StepHeld(cfg: Config, w: World, a: Action)
    requires Held(cfg, w) && Step(cfg, w, a).Some?
    ensures Held(cfg, Step(cfg, w, a).value)
  {
    if a.ChatPush? || a.ChatDelete? || a.StartReset? || a.StartRebuild? || a.StartRepair? {
      NewStepHeld(cfg, w, a);
    } else if a.List? || a.Fetch? {
      PullStepHeld(cfg, w, a);
    } else if a.ReadPub? || a.Reconcile? {
      RecordStepHeld(cfg, w, a);
    } else if a.Save? || a.Send? || a.Fence? || a.Clean? || a.Crash? {
      StoreStepHeld(cfg, w, a);
    } else if a.Load? || a.Checkpoint? || a.Quit? || a.Enter? {
      LockedStepHeld(cfg, w, a);
    } else if a.Mend? || a.Edit? || a.Begin? || a.Merge? || a.End? {
      EditStepHeld(cfg, w, a);
    }
  }

  lemma {:induction false} RunHeld(cfg: Config, w: World, acts: seq<Action>)
    requires Held(cfg, w) && Run(cfg, w, acts).Some?
    ensures Held(cfg, Run(cfg, w, acts).value)
    decreases |acts|
  {
    if acts != [] {
      StepHeld(cfg, w, acts[0]);
      RunHeld(cfg, Step(cfg, w, acts[0]).value, acts[1..]);
    }
  }

  lemma ReachableHeld(cfg: Config, w: World)
    requires Reachable(cfg, w)
    ensures Held(cfg, w)
  {
    var acts :| Run(cfg, INITIAL, acts) == Some(w);
    RunHeld(cfg, INITIAL, acts);
  }

  /* ---------- what it comes to ---------- */

  /** In every run of every deployment the published object and the record agree on
      completeness, and no stored object that carries a rebuild checkpoint is complete. */
  lemma FlagsAgree(cfg: Config, w: World)
    requires Reachable(cfg, w)
    ensures w.pub.obj.Some? ==> w.pub.obj.value in w.objs && w.objs[w.pub.obj.value].ix.incomplete == w.pub.incomplete
    ensures forall o | o in w.objs && w.objs[o].ix.progress.Some? :: w.objs[o].ix.incomplete
  {
    ReachableHeld(cfg, w);
    assert forall o | o in w.objs :: HeaderOK(w.objs[o].ix);
  }

  lemma PublishedFrom(cfg: Config, w: World, wid: nat, reply: Reply, w': World)
    requires Held(cfg, w) && Publishes(cfg, w, wid, reply, w')
    ensures PublishedIndex(w') == w.writers[wid].phase.ix && w.writers[wid].phase.snap.pub == w.pub
    ensures Tidy(cfg) && w.writers[wid].phase.ok ==> Monotone(PublishedIndex(w), PublishedIndex(w'))
  {
    assert WriterHeld(cfg, w.objs, w.pub, wid, w.writers[wid]);
  }

  /** Where every page that edits its index goes on to publish, no chat's stamp goes down across a
      publication built on a readable predecessor, whichever writer makes it. */
  lemma StampsNeverGoDown(cfg: Config, w: World, wid: nat, reply: Reply, w': World)
    requires Tidy(cfg) && Reachable(cfg, w) && Publishes(cfg, w, wid, reply, w') && w.writers[wid].phase.ok
    ensures Monotone(PublishedIndex(w), PublishedIndex(w'))
  {
    ReachableHeld(cfg, w);
    PublishedFrom(cfg, w, wid, reply, w');
  }

  /** A load that may run now: nobody holds the lock, or its holder is about to load. */
  predicate MayLoad(w: World, r: nat) {
    r !in w.locks || (w.locks[r] in w.writers && w.writers[w.locks[r]].phase.Read?)
  }

  /** Where pages and repairs that edit their index go on to publish, whatever a successful
      load hands out is the object stored under the key it asked for, whatever failed. */
  lemma LoadsAreFaithful(cfg: Config, w: World, reader: Writer, pub: Publication, readable: bool)
    requires Tidy(cfg) && cfg.mended && Reachable(cfg, w) && MayLoad(w, reader.replica)
    requires LoadIndex(w, pub, reader, readable).Some?
    ensures pub.obj.Some? && pub.obj.value in w.objs
    ensures LoadIndex(w, pub, reader, readable).value.0 == w.objs[pub.obj.value].ix
    ensures w.objs[pub.obj.value].key == reader.key && w.objs[pub.obj.value].model == reader.model
  {
    ReachableHeld(cfg, w);
    CleanUnlessEditing(cfg, w, reader.replica);
    LoadHeld(cfg, w, reader, pub, readable);
  }
}
