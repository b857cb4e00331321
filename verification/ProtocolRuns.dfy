/** Publishing steps, and what holds in every run. */
module ProtocolRuns {
  import opened Prelude
  import opened Controlplane
  import opened Protocol
  import opened ProtocolInvariant
  import opened ProtocolSteps
  import opened ProtocolEdits

  /* ---------- editing steps ---------- */

  lemma PrepareKeeps(cfg: Config, w: World, wid: nat, ix: Index, covered: nat, incomplete: bool)
    requires Inv(cfg, w) && wid in w.writers && (w.writers[wid].phase.Loaded? || w.writers[wid].phase.Mending?)
    requires !w.writers[wid].kind.Reset? && !w.writers[wid].kind.Rebuild?
    requires EditOK(cfg, View(w), w.writers[wid].phase.snap, w.writers[wid].phase.ok, ix, covered, incomplete)
    requires w.writers[wid].kind.Delete? ==> ProgressLe(ix, w.writers[wid].kind.checkedAt)
    ensures
      var wr := w.writers[wid];
      Inv(cfg, Prepare(w, wid, wr, wr.phase.snap, wr.phase.ok, ix, covered, incomplete))
  {
    var wr := w.writers[wid];
    assert WriterOK(cfg, View(w), wid, wr);
    EditedKeeps(cfg, w, wid, wr, wr.phase.snap, wr.phase.ok, ix,
        Prepared(wr.phase.snap, wr.phase.ok, ix, covered, incomplete));
  }

  lemma LoadedIsBase(cfg: Config, w: World, wid: nat)
    requires Inv(cfg, w) && wid in w.writers && (w.writers[wid].phase.Loaded? || w.writers[wid].phase.Mending?)
    ensures Base(cfg, View(w), w.writers[wid].phase.snap, w.writers[wid].phase.ok, w.writers[wid].phase.ix)
    ensures WriterOK(cfg, View(w), wid, w.writers[wid]) && !w.writers[wid].kind.Reset?
  {
    assert WriterOK(cfg, View(w), wid, w.writers[wid]);
  }

  lemma EditPushKeeps(cfg: Config, w: World, wid: nat, fails: bool, emb: Emb)
    requires Inv(cfg, w) && wid in w.writers && w.writers[wid].phase.Loaded? && w.writers[wid].kind.Push?
    ensures
      var wr := w.writers[wid];
      Inv(cfg, EditPush(w, wid, wr, wr.phase.snap, wr.phase.ok, wr.phase.ix, fails, emb))
  {
    LoadedIsBase(cfg, w, wid);
    var wr := w.writers[wid];
    var Loaded(snap, ok, ix) := wr.phase;
    var Push(id, text, etag, rev) := wr.kind;
    var w' := EditPush(w, wid, wr, snap, ok, ix, fails, emb);
    if w' == Finish(w, wid) {
      FinishKeeps(cfg, w, wid);
    } else if !(rev > 0 && snap.src == rev) && id !in w.src.chats {
      HookEditOK(cfg, View(w), snap, ok, ix, id);
      PrepareKeeps(cfg, w, wid, Without(ix, id).(incomplete := true), snap.pub.covered, true);
    } else {
      var advance := CanAdvance(snap, ok, rev);
      PushEditOK(cfg, View(w), snap, ok, ix, id, text, etag, rev, emb);
      PrepareKeeps(cfg, w, wid, Put(ix, id, Entry(etag, rev, text), emb).(incomplete := !advance),
                   if advance then rev else snap.pub.covered, !advance);
    }
  }

  lemma EditDeleteKeeps(cfg: Config, w: World, wid: nat)
    requires Inv(cfg, w) && wid in w.writers && w.writers[wid].phase.Loaded? && w.writers[wid].kind.Delete?
    ensures
      var wr := w.writers[wid];
      Inv(cfg, EditDelete(w, wid, wr, wr.phase.snap, wr.phase.ok, wr.phase.ix))
  {
    LoadedIsBase(cfg, w, wid);
    var wr := w.writers[wid];
    var Loaded(snap, ok, ix) := wr.phase;
    var Delete(id, rev, checkedAt) := wr.kind;
    var w' := EditDelete(w, wid, wr, snap, ok, ix);
    if w' == Finish(w, wid) {
      FinishKeeps(cfg, w, wid);
    } else {
      var advance := CanAdvance(snap, ok, rev);
      DeleteEditOK(cfg, View(w), snap, ok, ix, id, rev, checkedAt);
      PrepareKeeps(cfg, w, wid, Without(ix, id).(incomplete := !advance),
                   if advance then rev else snap.pub.covered, !advance);
    }
  }

  lemma EditRepairKeeps(cfg: Config, w: World, wid: nat)
    requires Inv(cfg, w) && wid in w.writers && w.writers[wid].phase.Mending?
    ensures
      var wr := w.writers[wid];
      Inv(cfg, EditRepair(w, wid, wr, wr.phase.snap, wr.phase.ok, wr.phase.ix))
  {
    LoadedIsBase(cfg, w, wid);
    var Mending(snap, ok, ix) := w.writers[wid].phase;
    RepairEditOK(cfg, View(w), snap, ix);
    PrepareKeeps(cfg, w, wid, ix, snap.pub.covered, snap.pub.incomplete || ix.incomplete);
  }

  /** A repair's edit of one entry stays like what was loaded. */
  lemma MendKeeps(cfg: Config, w: World, a: Action)
    requires Inv(cfg, w) && a.Mend? && DoMend(w, a).Some?
    ensures Inv(cfg, DoMend(w, a).value)
  {
    LoadedIsBase(cfg, w, a.wid);
    var wr := w.writers[a.wid];
    var phase := DoMend(w, a).value.writers[a.wid].phase;
    EditedKeeps(cfg, w, a.wid, wr, wr.phase.snap, wr.phase.ok, phase.ix, phase);
  }

  lemma EditKeeps(cfg: Config, w: World, a: Action)
    requires Inv(cfg, w) && a.Edit? && DoEdit(w, a).Some?
    ensures Inv(cfg, DoEdit(w, a).value)
  {
    match w.writers[a.wid].kind {
      case Push(_, _, _, _) => EditPushKeeps(cfg, w, a.wid, a.fails, a.emb);
      case Delete(_, _, _) => EditDeleteKeeps(cfg, w, a.wid);
      case Repair =>
        if w.writers[a.wid].phase.Mending? {
          EditRepairKeeps(cfg, w, a.wid);
        } else {
          FinishKeeps(cfg, w, a.wid);
        }
      case _ =>
    }
  }

  /** The page starts merging, from the swept or the resumed index. */
  lemma BeginPageKeeps(cfg: Config, w: World, a: Action, swept: Index)
    requires Sound(cfg) && Inv(cfg, w) && a.Begin? && a.wid in w.writers && w.writers[a.wid].phase.Loaded?
    requires w.writers[a.wid].kind.Rebuild? && w.writers[a.wid].kind.pull.Pull?
    requires
      var Loaded(snap, ok, ix) := w.writers[a.wid].phase;
      var k := w.writers[a.wid].kind;
      && swept == (if k.cursor.None? then Swept(ix, k.target, a.undated) else ix)
      && (k.cursor.Some? ==> ix.progress == Some(Progress(k.cursor.value, k.target, k.startedAt)))
      && (cfg.guarded && !ok && snap.pub.covered > k.target ==> snap.pub.incomplete)
    ensures
      var wr := w.writers[a.wid];
      var Loaded(snap, ok, ix) := wr.phase;
      Inv(cfg, Edited(w, a.wid, wr, snap.pub, ok, swept,
          Paging(snap, ok, swept, wr.kind.pull.items.Keys, wr.kind.pull.failed, ix)))
  {
    LoadedIsBase(cfg, w, a.wid);
    var wr := w.writers[a.wid];
    var Loaded(snap, ok, ix) := wr.phase;
    var k := wr.kind;
    BaseFacts(cfg, View(w), snap, ok, ix);
    if k.cursor.None? {
      FirstPageOK(cfg, View(w), k, snap, ok, ix, a.undated);
    } else {
      ResumedPageOK(cfg, View(w), k, snap, ok, ix);
    }
    EditedKeeps(cfg, w, a.wid, wr, snap, ok, swept, Paging(snap, ok, swept, k.pull.items.Keys, k.pull.failed, ix));
  }

  lemma BeginKeeps(cfg: Config, w: World, a: Action)
    requires Sound(cfg) && Inv(cfg, w) && a.Begin? && DoBegin(cfg, w, a).Some?
    ensures Inv(cfg, DoBegin(cfg, w, a).value)
  {
    LoadedIsBase(cfg, w, a.wid);
    var w' := DoBegin(cfg, w, a).value;
    var Loaded(snap, ok, ix) := w.writers[a.wid].phase;
    if a.wid !in w'.writers {
      FinishKeeps(cfg, w, a.wid);
    } else if w'.writers[a.wid].phase.Ready? {
      BaseFacts(cfg, View(w), snap, ok, ix);
      NextPageKeeps(cfg, w, a.wid, w'.writers[a.wid].kind);
    } else {
      BeginPageKeeps(cfg, w, a, w'.writers[a.wid].phase.ix);
    }
  }

  lemma MergeKeeps(cfg: Config, w: World, a: Action)
    requires Inv(cfg, w) && a.Merge? && DoMerge(w, a).Some?
    ensures Inv(cfg, DoMerge(w, a).value)
  {
    var w' := DoMerge(w, a).value;
    var wr := w.writers[a.wid];
    assert WriterOK(cfg, View(w), a.wid, wr);
    var Paging(snap, ok, ix, todo, bad, _) := wr.phase;
    var (merged, _) := MergeItem(w.src, ix, a.id, wr.kind.pull.items[a.id], wr.kind.target, a.fails, a.emb);
    MergeOK(cfg, View(w), wr.kind, snap, ok, ix, todo, bad, a.id, a.fails, a.emb);
    EditedKeeps(cfg, w, a.wid, wr, snap, ok, merged, w'.writers[a.wid].phase);
  }

  lemma EndKeeps(cfg: Config, w: World, a: Action)
    requires Sound(cfg) && Inv(cfg, w) && a.End? && DoEnd(w, a).Some?
    ensures Inv(cfg, DoEnd(w, a).value)
  {
    var w' := DoEnd(w, a).value;
    var wr := w.writers[a.wid];
    assert WriterOK(cfg, View(w), a.wid, wr);
    var Paging(snap, ok, ix, _, bad, _) := wr.phase;
    var Prepared(_, _, ix', _, _) := w'.writers[a.wid].phase;
    EndOK(cfg, View(w), wr.kind, snap, ok, ix, bad);
    var wr' := wr.(kind := wr.kind.(pull := wr.kind.pull.(bad := bad)));
    CountedOK(cfg, View(w), a.wid, wr, bad);
    EditedKeeps(cfg, w, a.wid, wr', snap, ok, ix', w'.writers[a.wid].phase);
  }

  lemma CountedOK(cfg: Config, sh: Shared, wid: nat, wr: Writer, bad: nat)
    requires WriterOK(cfg, sh, wid, wr) && wr.phase.Paging?
    ensures WriterOK(cfg, sh, wid, wr.(kind := wr.kind.(pull := wr.kind.pull.(bad := bad))))
  {
    var k := wr.kind.(pull := wr.kind.pull.(bad := bad));
    var Paging(snap, ok, ix, todo, b, _) := wr.phase;
    assert KindOK(cfg, sh.src, k);
    assert PageOK(cfg, sh, k, snap, ok, ix, todo, b);
  }

  /* ---------- the store and the record ---------- */

  /** The store moves on; every writer but `wid` keeps its facts. */
  lemma OthersStay(cfg: Config, w: World, b: Shared, wid: nat)
    requires Inv(cfg, w)
    requires forall i | i in w.writers && i != wid :: Evolves(View(w), b, i)
    requires b.src == w.src
    requires forall i | i in w.writers && i != wid && w.writers[i].kind.Delete? && InLock(w.writers[i].phase) ::
               ProgressLe(IndexOf(b.objs, b.pub), w.writers[i].kind.checkedAt)
    ensures forall i | i in w.writers && i != wid :: WriterOK(cfg, b, i, w.writers[i])
  {
    forall i | i in w.writers && i != wid
      ensures WriterOK(cfg, b, i, w.writers[i])
    {
      assert WriterOK(cfg, View(w), i, w.writers[i]);
      WriterStays(cfg, View(w), b, i, w.writers[i]);
    }
  }

  lemma PutWriters(cfg: Config, a: Shared, b: Shared, writers: map<nat, Writer>)
    requires WritersOK(cfg, a, writers) && b == a.(objs := b.objs, bucket := b.bucket) && PubOK(a, a.pub)
    requires forall i :: Evolves(a, b, i)
    ensures WritersOK(cfg, b, writers)
  {
    forall i | i in writers
      ensures WriterOK(cfg, b, i, writers[i])
    {
      assert WriterOK(cfg, a, i, writers[i]);
      WriterStays(cfg, a, b, i, writers[i]);
    }
  }

  /** Storing an object under a key never used before. */
  lemma PutKeeps(cfg: Config, w: World, st: Stored)
    requires Inv(cfg, w) && Good(cfg, w.src, st.ix)
    ensures Inv(cfg, PutObject(w, st))
  {
    PutWriters(cfg, View(w), View(PutObject(w, st)), w.writers);
  }

  lemma SendingOK(cfg: Config, sh: Shared, wid: nat, wr: Writer, obj: ObjectKey)
    requires WriterOK(cfg, sh, wid, wr) && wr.phase.Prepared?
    requires obj in sh.objs && sh.objs[obj] == Stored(wr.phase.ix, wr.key, wr.model, wid) && obj in sh.bucket
    requires obj !in sh.tried
    ensures
      var Prepared(snap, ok, ix, covered, incomplete) := wr.phase;
      WriterOK(cfg, sh, wid, wr.(phase := Sending(snap, ok, ix, covered, incomplete, obj)))
  {
  }

  function PutObject(w: World, st: Stored): World {
    w.(nextObj := w.nextObj + 1, objs := w.objs[w.nextObj := st], bucket := w.bucket + {w.nextObj})
  }

  /** The store succeeded: the writer sends, and its replica caches the new object. */
  lemma StoredKeeps(cfg: Config, w: World, wid: nat)
    requires Inv(cfg, w) && wid in w.writers && w.writers[wid].phase.Prepared?
    ensures
      var wr := w.writers[wid];
      var Prepared(snap, ok, ix, covered, incomplete) := wr.phase;
      var put := PutObject(w, Stored(ix, wr.key, wr.model, wid));
      Inv(cfg, SetWriter(put, wid, wr.(phase := Sending(snap, ok, ix, covered, incomplete, w.nextObj)))
               .(caches := w.caches[wr.replica := Cached(w.nextObj, wr.key, ix)]))
  {
    var wr := w.writers[wid];
    var Prepared(snap, ok, ix, covered, incomplete) := wr.phase;
    assert WriterOK(cfg, View(w), wid, wr);
    var put := PutObject(w, Stored(ix, wr.key, wr.model, wid));
    PutKeeps(cfg, w, Stored(ix, wr.key, wr.model, wid));
    assert WriterOK(cfg, View(put), wid, wr);
    SendingOK(cfg, View(put), wid, wr, w.nextObj);
    SavedKeeps(cfg, put, wid, wr.(phase := Sending(snap, ok, ix, covered, incomplete, w.nextObj)),
        Cached(w.nextObj, wr.key, ix));
  }

  /** The store failed but had landed. */
  lemma LandedKeeps(cfg: Config, w: World, wid: nat)
    requires Inv(cfg, w) && wid in w.writers && w.writers[wid].phase.Prepared?
    ensures
      var wr := w.writers[wid];
      Inv(cfg, Finish(DropCache(PutObject(w, Stored(wr.phase.ix, wr.key, wr.model, wid)), wr.replica), wid))
  {
    var wr := w.writers[wid];
    assert WriterOK(cfg, View(w), wid, wr);
    PutKeeps(cfg, w, Stored(wr.phase.ix, wr.key, wr.model, wid));
    LostKeeps(cfg, PutObject(w, Stored(wr.phase.ix, wr.key, wr.model, wid)), wid);
  }

  /** The store failed outright: only the key is used up. */
  lemma UnstoredKeeps(cfg: Config, w: World, wid: nat)
    requires Inv(cfg, w) && wid in w.writers
    ensures Inv(cfg, Finish(DropCache(w.(nextObj := w.nextObj + 1), w.writers[wid].replica), wid))
  {
    var w1 := w.(nextObj := w.nextObj + 1);
    assert View(w1) == View(w);
    LostKeeps(cfg, w1, wid);
  }

  lemma SaveKeeps(cfg: Config, w: World, a: Action)
    requires Inv(cfg, w) && a.Save? && DoSave(w, a).Some?
    ensures Inv(cfg, DoSave(w, a).value)
  {
    if a.stored {
      StoredKeeps(cfg, w, a.wid);
    } else if a.landed {
      LandedKeeps(cfg, w, a.wid);
    } else {
      UnstoredKeeps(cfg, w, a.wid);
    }
  }

  lemma LostKeeps(cfg: Config, w: World, wid: nat)
    requires Inv(cfg, w) && wid in w.writers
    ensures Inv(cfg, Finish(DropCache(w, w.writers[wid].replica), wid))
  {
    FinishKeeps(cfg, DropCache(w, w.writers[wid].replica), wid);
  }

  lemma SavedKeeps(cfg: Config, w: World, wid: nat, wr: Writer, c: Cached)
    requires Inv(cfg, w) && wid in w.writers && w.writers[wid].phase.Prepared? && WriterOK(cfg, View(w), wid, wr)
    requires wr.replica == w.writers[wid].replica && wr.phase.Sending? && !wr.kind.Reset? && !w.writers[wid].kind.Reset?
    requires c.obj in w.objs && w.objs[c.obj].key == c.key && w.objs[c.obj].ix == c.ix
    ensures Inv(cfg, SetWriter(w, wid, wr).(caches := w.caches[wr.replica := c]))
  {
    var w' := SetWriter(w, wid, wr).(caches := w.caches[wr.replica := c]);
    assert View(w') == View(w);
    StaysInLock(w.locks, w.writers, wid, wr);
  }

  /** A record that changes only through a decided publish call or a fence. */
  lemma RecordKeeps(
    cfg: Config, w: World, wid: nat, wr: Writer, pub: Publication, tried: set<ObjectKey>, caches: map<nat, Cached>)
    requires Inv(cfg, w) && wid in w.writers
    requires !Editing(w.writers[wid].phase)
    requires wr.replica == w.writers[wid].replica && wr.kind.Reset? == w.writers[wid].kind.Reset?
    requires InLock(wr.phase) ==> InLock(w.writers[wid].phase) || wr.kind.Reset?
    requires
      var b := View(w).(pub := pub, tried := tried);
      && StoreOK(cfg, b, w.nextObj)
      && WriterOK(cfg, b, wid, wr)
      && (forall i | i in w.writers && i != wid :: WriterOK(cfg, b, i, w.writers[i]))
    requires caches == w.caches || caches == w.caches - {wr.replica}
    ensures Inv(cfg, SetWriter(w, wid, wr).(pub := pub, tried := tried, caches := caches))
  {
    var w' := SetWriter(w, wid, wr).(pub := pub, tried := tried, caches := caches);
    assert View(w') == View(w).(pub := pub, tried := tried);
    assert LocksOK(w'.locks, w'.writers);
    assert CachesOK(w'.objs, w'.caches, w'.locks, w'.writers);
  }

  /** An object that no publish call has tried may be published without anyone noticing. */
  lemma CallEvolves(cfg: Config, sh: Shared, b: Shared, wid: nat, wr: Writer)
    requires WriterOK(cfg, sh, wid, wr) && wr.phase.Sending? && sh.tried <= sh.objs.Keys
    requires
      var Sending(snap, ok, ix, covered, incomplete, obj) := wr.phase;
      b == sh.(pub := b.pub, tried := sh.tried + {obj}) &&
      (b.pub == sh.pub || b.pub == Published(sh.pub, Request(wr, snap, covered, incomplete, obj)))
    ensures forall i | i != wid :: Evolves(sh, b, i)
  {
  }

  lemma OthersSurvivePublish(cfg: Config, w: World, b: Shared, wid: nat)
    requires Sound(cfg) && Inv(cfg, w) && wid in w.writers && w.writers[wid].phase.Sending?
    requires
      var wr := w.writers[wid];
      var Sending(snap, ok, ix, covered, incomplete, obj) := wr.phase;
      b == View(w).(pub := b.pub, tried := w.tried + {obj}) &&
      (b.pub == w.pub || b.pub == Published(w.pub, Request(wr, snap, covered, incomplete, obj)))
    ensures forall i | i in w.writers && i != wid :: WriterOK(cfg, b, i, w.writers[i])
  {
    assert WriterOK(cfg, View(w), wid, w.writers[wid]);
    CallEvolves(cfg, View(w), b, wid, w.writers[wid]);
    assert forall i | i in w.writers && i != wid && w.writers[i].kind.Delete? && InLock(w.writers[i].phase) ::
      ProgressLe(IndexOf(b.objs, b.pub), w.writers[i].kind.checkedAt);
    OthersStay(cfg, w, b, wid);
  }

  /** The record after the call, decided for or against the writer. */
  predicate Decided(w: World, wr: Writer, pub: Publication)
    requires wr.phase.Sending?
  {
    var Sending(snap, ok, ix, covered, incomplete, obj) := wr.phase;
    pub == w.pub || pub == Published(w.pub, Request(wr, snap, covered, incomplete, obj))
  }

  /** Where the writer may be after the call. */
  predicate Answer(w: World, wr: Writer, pub: Publication, phase: Phase)
    requires wr.phase.Sending?
  {
    var Sending(snap, ok, ix, covered, incomplete, obj) := wr.phase;
    || phase == Unsure(snap, obj)
    || (pub.obj == Some(obj) && phase == Cleaning(snap.pub.obj, AfterPublish(wr.kind)))
    || (pub == w.pub && phase == Cleaning(Some(obj), Again))
  }

  /** What everyone may rely on after a publish call, however it was decided. */
  lemma CallFacts(cfg: Config, w: World, wid: nat, pub: Publication, phase: Phase)
    requires Sound(cfg) && Inv(cfg, w) && wid in w.writers && w.writers[wid].phase.Sending?
    requires Decided(w, w.writers[wid], pub) && Answer(w, w.writers[wid], pub, phase)
    ensures
      var wr := w.writers[wid];
      var b := View(w).(pub := pub, tried := w.tried + {wr.phase.obj});
      && StoreOK(cfg, b, w.nextObj) && WriterOK(cfg, b, wid, wr.(phase := phase)) && !wr.kind.Reset?
      && forall i | i in w.writers && i != wid :: WriterOK(cfg, b, i, w.writers[i])
  {
    var wr := w.writers[wid];
    assert WriterOK(cfg, View(w), wid, wr);
    var b := View(w).(pub := pub, tried := w.tried + {wr.phase.obj});
    OthersSurvivePublish(cfg, w, b, wid);
    PublishedOK(cfg, View(w), b, w.nextObj, wid, wr);
    SentOK(cfg, View(w), b, wid, wr, phase);
  }

  /** A publish call, however it was decided and answered. */
  lemma CallKeeps(cfg: Config, w: World, wid: nat, pub: Publication, phase: Phase, caches: map<nat, Cached>)
    requires Sound(cfg) && Inv(cfg, w) && wid in w.writers && w.writers[wid].phase.Sending?
    requires Decided(w, w.writers[wid], pub) && Answer(w, w.writers[wid], pub, phase)
    requires caches == w.caches || caches == w.caches - {w.writers[wid].replica}
    ensures
      var wr := w.writers[wid];
      Inv(cfg, SetWriter(w, wid, wr.(phase := phase)).(pub := pub, tried := w.tried + {wr.phase.obj}, caches := caches))
  {
    CallFacts(cfg, w, wid, pub, phase);
    var wr := w.writers[wid];
    RecordKeeps(cfg, w, wid, wr.(phase := phase), pub, w.tried + {wr.phase.obj}, caches);
  }

  lemma SendKeeps(cfg: Config, w: World, a: Action)
    requires Sound(cfg) && Inv(cfg, w) && a.Send? && DoSend(w, a).Some?
    ensures Inv(cfg, DoSend(w, a).value)
  {
    var w' := DoSend(w, a).value;
    CallKeeps(cfg, w, a.wid, w'.pub, w'.writers[a.wid].phase, w'.caches);
  }

  lemma PublishedOK(cfg: Config, a: Shared, b: Shared, nextObj: nat, wid: nat, wr: Writer)
    requires StoreOK(cfg, a, nextObj) && WriterOK(cfg, a, wid, wr) && wr.phase.Sending?
    requires
      var Sending(snap, ok, ix, covered, incomplete, obj) := wr.phase;
      b == a.(pub := b.pub, tried := a.tried + {obj}) &&
      (b.pub == a.pub || b.pub == Published(a.pub, Request(wr, snap, covered, incomplete, obj)))
    ensures StoreOK(cfg, b, nextObj)
  {
  }

  lemma SentOK(cfg: Config, a: Shared, b: Shared, wid: nat, wr: Writer, phase: Phase)
    requires PubOK(a, a.pub) && WriterOK(cfg, a, wid, wr) && wr.phase.Sending? && !wr.kind.Reset?
    requires
      var Sending(snap, ok, ix, covered, incomplete, obj) := wr.phase;
      && b == a.(pub := b.pub, tried := a.tried + {obj})
      && (b.pub == a.pub || b.pub == Published(a.pub, Request(wr, snap, covered, incomplete, obj)))
      && (phase == Unsure(snap, obj) ||
          (b.pub.obj == Some(obj) && phase == Cleaning(snap.pub.obj, AfterPublish(wr.kind))) ||
          (b.pub == a.pub && phase == Cleaning(Some(obj), Again)))
    ensures WriterOK(cfg, b, wid, wr.(phase := phase))
  {
  }

  lemma ReconcileKeeps(cfg: Config, w: World, a: Action)
    requires Inv(cfg, w) && a.Reconcile? && DoReconcile(w, a).Some?
    ensures Inv(cfg, DoReconcile(w, a).value)
  {
    assert WriterOK(cfg, View(w), a.wid, w.writers[a.wid]);
    MoveKeeps(cfg, w, a.wid, DoReconcile(w, a).value.writers[a.wid]);
  }

  lemma FenceKeeps(cfg: Config, w: World, a: Action)
    requires Inv(cfg, w) && a.Fence? && DoFence(w, a).Some?
    ensures Inv(cfg, DoFence(w, a).value)
  {
    var w' := DoFence(w, a).value;
    assert WriterOK(cfg, View(w), a.wid, w.writers[a.wid]);
    var b := View(w).(pub := w'.pub);
    assert forall i :: Evolves(View(w), b, i);
    OthersStay(cfg, w, b, a.wid);
    RecordKeeps(cfg, w, a.wid, w'.writers[a.wid], w'.pub, w.tried, w.caches);
  }

  /** Cleanup deletes only objects that are not, and never again will be, published. */
  lemma SweepKeeps(cfg: Config, w: World, o: ObjectKey)
    requires Inv(cfg, w) && o in w.tried && w.pub.obj != Some(o)
    ensures Inv(cfg, w.(bucket := w.bucket - {o}))
  {
    var b := View(w).(bucket := w.bucket - {o});
    assert forall i :: Evolves(View(w), b, i);
    forall i | i in w.writers
      ensures WriterOK(cfg, b, i, w.writers[i])
    {
      assert WriterOK(cfg, View(w), i, w.writers[i]);
      WriterStays(cfg, View(w), b, i, w.writers[i]);
    }
    assert View(w.(bucket := w.bucket - {o})) == b;
  }

  function Tidied(w: World, a: Action): World
    requires a.Clean? && a.wid in w.writers && w.writers[a.wid].phase.Cleaning?
  {
    var orphan := w.writers[a.wid].phase.orphan;
    if orphan.Some? && a.ok then w.(bucket := w.bucket - {orphan.value}) else w
  }

  lemma TidiedKeeps(cfg: Config, w: World, a: Action)
    requires Inv(cfg, w) && a.Clean? && a.wid in w.writers && w.writers[a.wid].phase.Cleaning?
    ensures Inv(cfg, Tidied(w, a))
  {
    assert WriterOK(cfg, View(w), a.wid, w.writers[a.wid]);
    var orphan := w.writers[a.wid].phase.orphan;
    if orphan.Some? && a.ok {
      SweepKeeps(cfg, w, orphan.value);
    }
  }

  lemma InsideAgainKeeps(cfg: Config, w: World, wid: nat)
    requires Inv(cfg, w) && wid in w.writers && w.writers[wid].phase.Cleaning? && w.writers[wid].phase.next.Again?
    ensures Inv(cfg, SetWriter(w, wid, w.writers[wid].(phase := Inside)))
  {
    assert WriterOK(cfg, View(w), wid, w.writers[wid]);
    MoveKeeps(cfg, w, wid, w.writers[wid].(phase := Inside));
  }

  lemma AgainKeeps(cfg: Config, w: World, a: Action)
    requires Inv(cfg, w) && a.Clean? && DoClean(w, a).Some? && w.writers[a.wid].phase.next.Again?
    ensures Inv(cfg, DoClean(w, a).value)
  {
    TidiedKeeps(cfg, w, a);
    InsideAgainKeeps(cfg, Tidied(w, a), a.wid);
  }

  predicate GoesOn(wr: Writer) {
    wr.kind.Rebuild? && wr.kind.pull.Pull? && wr.kind.pull.next.Some?
  }

  lemma AdvanceKeeps(cfg: Config, w: World, a: Action)
    requires Inv(cfg, w) && a.Clean? && DoClean(w, a).Some?
    requires w.writers[a.wid].phase.next.Advance? && GoesOn(w.writers[a.wid])
    ensures Inv(cfg, DoClean(w, a).value)
  {
    TidiedKeeps(cfg, w, a);
    var swept := Tidied(w, a);
    assert WriterOK(cfg, View(swept), a.wid, w.writers[a.wid]);
    NextPageKeeps(cfg, swept, a.wid, DoClean(w, a).value.writers[a.wid].kind);
  }

  lemma LeaveKeeps(cfg: Config, w: World, a: Action)
    requires Inv(cfg, w) && a.Clean? && DoClean(w, a).Some? && !w.writers[a.wid].phase.next.Again?
    requires !(w.writers[a.wid].phase.next.Advance? && GoesOn(w.writers[a.wid]))
    ensures Inv(cfg, DoClean(w, a).value)
  {
    TidiedKeeps(cfg, w, a);
    FinishKeeps(cfg, Tidied(w, a), a.wid);
  }

  lemma CleanKeeps(cfg: Config, w: World, a: Action)
    requires Inv(cfg, w) && a.Clean? && DoClean(w, a).Some?
    ensures Inv(cfg, DoClean(w, a).value)
  {
    if w.writers[a.wid].phase.next.Again? {
      AgainKeeps(cfg, w, a);
    } else if w.writers[a.wid].phase.next.Advance? && GoesOn(w.writers[a.wid]) {
      AdvanceKeeps(cfg, w, a);
    } else {
      LeaveKeeps(cfg, w, a);
    }
  }

  lemma QuitKeeps(cfg: Config, w: World, a: Action)
    requires Sound(cfg) && Inv(cfg, w) && a.Quit? && DoQuit(cfg, w, a).Some?
    ensures Inv(cfg, DoQuit(cfg, w, a).value)
  {
    var wr := w.writers[a.wid];
    assert WriterOK(cfg, View(w), a.wid, wr);
    if wr.phase.Paging? || wr.phase.Mending? {
      assert CacheClean(w, a.wid);
    }
    FinishKeeps(cfg, w, a.wid);
  }
}
