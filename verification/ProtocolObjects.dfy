/** The published object is never deleted, in every deployment: no hypothesis of the
    coverage theorem is needed, only fresh keys and publish calls that are decided when
    they return. */
module ProtocolObjects {
  import opened Prelude
  import opened Controlplane
  import opened Protocol
  import opened ProtocolInvariant
  import opened ProtocolTheorems

  ghost predicate Old(tried: set<ObjectKey>, obj: Option<ObjectKey>) {
    obj.Some? ==> obj.value in tried
  }

  ghost predicate SafeWriter(sh: Shared, wid: nat, wr: Writer) {
    && (wr.kind.Reset? ==> Old(sh.tried, wr.kind.previous))
    && (match wr.phase
        case Ready => true
        case Inside => true
        case Starting(snap) => Old(sh.tried, snap.pub.obj)
        case Read(snap) => Old(sh.tried, snap.pub.obj)
        case Loaded(snap, _, _) => Old(sh.tried, snap.pub.obj)
        case Mending(snap, _, _) => Old(sh.tried, snap.pub.obj)
        case Paging(snap, _, _, _, _, _) => Old(sh.tried, snap.pub.obj)
        case Prepared(snap, _, _, _, _) => Old(sh.tried, snap.pub.obj)
        case Sending(snap, _, _, _, _, obj) =>
          Old(sh.tried, snap.pub.obj) && obj in sh.bucket && obj !in sh.tried && obj in sh.objs &&
              sh.objs[obj].owner == wid
        case Unsure(snap, obj) => Old(sh.tried, snap.pub.obj) && obj in sh.tried && snap.pub.obj != Some(obj)
        case Cleaning(orphan, _) => Old(sh.tried, orphan) && (orphan.Some? ==> sh.pub.obj != orphan))
  }

  ghost predicate Kept(w: World) {
    && (w.pub.obj.Some? ==> w.pub.obj.value in w.bucket && w.pub.obj.value in w.tried)
    && (forall o | o in w.bucket || o in w.tried || o in w.objs :: o < w.nextObj)
    && (forall i | i in w.writers :: SafeWriter(View(w), i, w.writers[i]))
  }

  /** Steps that leave the store and the record alone and move at most writer `wid`. */
  lemma MovedKeeps(w: World, w': World, wid: nat)
    requires Kept(w)
    requires w'.pub == w.pub && w'.objs == w.objs && w'.bucket == w.bucket && w'.tried == w.tried
    requires w'.nextObj == w.nextObj
    requires forall i | i in w'.writers && i != wid :: i in w.writers && w'.writers[i] == w.writers[i]
    requires wid in w'.writers ==> SafeWriter(View(w), wid, w'.writers[wid])
    ensures Kept(w')
  {
    forall i | i in w'.writers
      ensures SafeWriter(View(w'), i, w'.writers[i])
    {
      assert i != wid ==> SafeWriter(View(w), i, w.writers[i]);
    }
  }

  lemma FinishKept(w: World, wid: nat)
    requires Kept(w)
    ensures Kept(Finish(w, wid))
  {
    MovedKeeps(w, Finish(w, wid), wid);
  }

  lemma StoredKept(w: World, a: Action)
    requires Kept(w) && a.Save? && DoSave(w, a).Some? && a.stored
    ensures Kept(DoSave(w, a).value)
  {
    var wr := w.writers[a.wid];
    assert SafeWriter(View(w), a.wid, wr);
    var st := Stored(wr.phase.ix, wr.key, wr.model, a.wid);
    var put := w.(nextObj := w.nextObj + 1, objs := w.objs[w.nextObj := st], bucket := w.bucket + {w.nextObj});
    MovedKeeps(put, DoSave(w, a).value, a.wid);
  }

  lemma UnstoredKept(w: World, a: Action)
    requires Kept(w) && a.Save? && DoSave(w, a).Some? && !a.stored
    ensures Kept(DoSave(w, a).value)
  {
    var wr := w.writers[a.wid];
    var st := Stored(wr.phase.ix, wr.key, wr.model, a.wid);
    var put := w.(nextObj := w.nextObj + 1, objs := w.objs[w.nextObj := st], bucket := w.bucket + {w.nextObj});
    var w1 := if a.landed then put else w.(nextObj := w.nextObj + 1);
    FinishKept(DropCache(w1, wr.replica), a.wid);
  }

  lemma SendKept(w: World, a: Action)
    requires Kept(w) && a.Send? && DoSend(w, a).Some?
    ensures Kept(DoSend(w, a).value)
  {
    var w' := DoSend(w, a).value;
    assert SafeWriter(View(w), a.wid, w.writers[a.wid]);
    forall i | i in w'.writers
      ensures SafeWriter(View(w'), i, w'.writers[i])
    {
      assert SafeWriter(View(w), i, w.writers[i]);
    }
  }

  /** Cleanup deletes an object that was tried and is not the published one. */
  lemma TidiedKept(w: World, wid: nat, ok: bool)
    requires Kept(w) && wid in w.writers && w.writers[wid].phase.Cleaning?
    ensures
      var orphan := w.writers[wid].phase.orphan;
      Kept(if orphan.Some? && ok then w.(bucket := w.bucket - {orphan.value}) else w)
  {
    assert SafeWriter(View(w), wid, w.writers[wid]);
  }

  lemma CleanKept(w: World, a: Action)
    requires Kept(w) && a.Clean? && DoClean(w, a).Some?
    ensures Kept(DoClean(w, a).value)
  {
    TidiedKept(w, a.wid, a.ok);
    var w' := DoClean(w, a).value;
    var orphan := w.writers[a.wid].phase.orphan;
    var swept := if orphan.Some? && a.ok then w.(bucket := w.bucket - {orphan.value}) else w;
    if a.wid in w'.writers {
      assert SafeWriter(View(swept), a.wid, w'.writers[a.wid]);
      MovedKeeps(swept, w', a.wid);
    } else {
      FinishKept(swept, a.wid);
    }
  }

  lemma PullStepKept(cfg: Config, w: World, a: Action)
    requires Kept(w) && Step(cfg, w, a).Some?
    requires a.List? || a.Fetch? || a.ReadPub? || a.Reconcile?
    ensures Kept(Step(cfg, w, a).value)
  {
    assert SafeWriter(View(w), a.wid, w.writers[a.wid]);
    MovedKeeps(w, Step(cfg, w, a).value, a.wid);
  }

  lemma CheckpointKept(w: World, a: Action)
    requires Kept(w) && a.Checkpoint? && DoCheckpoint(w, a).Some?
    ensures Kept(DoCheckpoint(w, a).value)
  {
    assert SafeWriter(View(w), a.wid, w.writers[a.wid]);
    MovedKeeps(w, DoCheckpoint(w, a).value, a.wid);
  }

  lemma LoadKept(w: World, a: Action)
    requires Kept(w) && a.Load? && DoLoad(w, a).Some?
    ensures Kept(DoLoad(w, a).value)
  {
    assert SafeWriter(View(w), a.wid, w.writers[a.wid]);
    MovedKeeps(w, DoLoad(w, a).value, a.wid);
  }

  lemma EnterKept(w: World, a: Action)
    requires Kept(w) && a.Enter? && DoEnter(w, a).Some?
    ensures Kept(DoEnter(w, a).value)
  {
    var w' := DoEnter(w, a).value;
    FinishKept(w, a.wid);
    if a.wid in w'.writers {
      assert SafeWriter(View(w), a.wid, w.writers[a.wid]);
      MovedKeeps(w, w', a.wid);
    }
  }

  /** Every edit either gives up or prepares a publication on the record it read. */
  lemma EditOutcome(w: World, a: Action) returns (ix: Index, covered: nat, incomplete: bool)
    requires a.Edit? && DoEdit(w, a).Some?
    ensures
      var wr := w.writers[a.wid];
      || DoEdit(w, a).value == Finish(w, a.wid)
      || DoEdit(w, a).value == Prepare(w, a.wid, wr, wr.phase.snap, wr.phase.ok, ix, covered, incomplete)
  {
    var wr := w.writers[a.wid];
    var snap, ok, loaded := wr.phase.snap, wr.phase.ok, wr.phase.ix;
    ix, covered, incomplete := loaded, snap.pub.covered, snap.pub.incomplete || loaded.incomplete;
    match wr.kind {
      case Push(id, text, etag, rev) =>
        if !(rev > 0 && snap.src == rev) && id !in w.src.chats {
          ix, incomplete := Without(loaded, id).(incomplete := true), true;
        } else {
          incomplete := !CanAdvance(snap, ok, rev);
          covered := if incomplete then snap.pub.covered else rev;
          ix := Put(loaded, id, Entry(etag, rev, text), a.emb).(incomplete := incomplete);
        }
      case Delete(id, rev, _) =>
        incomplete := !CanAdvance(snap, ok, rev);
        covered := if incomplete then snap.pub.covered else rev;
        ix := Without(loaded, id).(incomplete := incomplete);
      case _ =>
    }
  }

  lemma EditKept(w: World, a: Action)
    requires Kept(w) && a.Edit? && DoEdit(w, a).Some?
    ensures Kept(DoEdit(w, a).value)
  {
    FinishKept(w, a.wid);
    var _, _, _ := EditOutcome(w, a);
  }

  lemma BeginKept(cfg: Config, w: World, a: Action)
    requires Kept(w) && a.Begin? && DoBegin(cfg, w, a).Some?
    ensures Kept(DoBegin(cfg, w, a).value)
  {
    var w' := DoBegin(cfg, w, a).value;
    FinishKept(w, a.wid);
    if a.wid in w'.writers {
      SafeMoves(View(w), a.wid, w.writers[a.wid], w'.writers[a.wid]);
      MovedKeeps(w, w', a.wid);
    }
  }

  /** Between pages, or on the record it already read, a writer that was safe still is. */
  lemma SafeMoves(sh: Shared, wid: nat, wr: Writer, moved: Writer)
    requires SafeWriter(sh, wid, wr) && wr.phase.Loaded? && !moved.kind.Reset?
    requires moved.phase.Ready? || (moved.phase.Paging? && moved.phase.snap == wr.phase.snap)
    ensures SafeWriter(sh, wid, moved)
  {
  }

  lemma PageStepKept(cfg: Config, w: World, a: Action)
    requires Kept(w) && Step(cfg, w, a).Some? && (a.Merge? || a.End? || a.Mend?)
    ensures Kept(Step(cfg, w, a).value)
  {
    assert SafeWriter(View(w), a.wid, w.writers[a.wid]);
    MovedKeeps(w, Step(cfg, w, a).value, a.wid);
  }

  lemma NewStepKept(cfg: Config, w: World, a: Action)
    requires Kept(w) && Step(cfg, w, a).Some?
    requires a.ChatPush? || a.ChatDelete? || a.StartReset? || a.StartRebuild? || a.StartRepair?
    ensures Kept(Step(cfg, w, a).value)
  {
    MovedKeeps(w, Step(cfg, w, a).value, a.wid);
  }

  lemma StepKept(cfg: Config, w: World, a: Action)
    requires Kept(w) && Step(cfg, w, a).Some?
    ensures Kept(Step(cfg, w, a).value)
  {
    if a.Save? && a.stored {
      StoredKept(w, a);
    } else if a.Save? {
      UnstoredKept(w, a);
    } else if a.Send? {
      SendKept(w, a);
    } else if a.Clean? {
      CleanKept(w, a);
    } else if a.ChatPush? || a.ChatDelete? || a.StartReset? || a.StartRebuild? || a.StartRepair? {
      NewStepKept(cfg, w, a);
    } else if a.Edit? {
      EditKept(w, a);
    } else if a.Begin? {
      BeginKept(cfg, w, a);
    } else if a.Merge? || a.End? || a.Mend? {
      PageStepKept(cfg, w, a);
    } else if a.Load? {
      LoadKept(w, a);
    } else if a.Checkpoint? {
      CheckpointKept(w, a);
    } else if a.Enter? {
      EnterKept(w, a);
    } else if a.Quit? {
      FinishKept(w, a.wid);
    } else if a.Wipe? || a.RewrapRow? || a.RegisterFirst? || a.Crash? || a.Evict? {
      var w' := Step(cfg, w, a).value;
      forall i | i in w'.writers
        ensures SafeWriter(View(w'), i, w'.writers[i])
      {
        assert SafeWriter(View(w), i, w.writers[i]);
      }
    } else if !a.Fence? {
      PullStepKept(cfg, w, a);
    }
  }

  lemma {:induction false} RunKept(cfg: Config, w: World, acts: seq<Action>)
    requires Kept(w) && Run(cfg, w, acts).Some?
    ensures Kept(Run(cfg, w, acts).value)
    decreases |acts|
  {
    if acts != [] {
      StepKept(cfg, w, acts[0]);
      RunKept(cfg, Step(cfg, w, acts[0]).value, acts[1..]);
    }
  }

  /** In every run the object the record names is in the bucket, and no pending cleanup
      will delete it. */
  lemma PublishedObjectExists(cfg: Config, w: World)
    requires Reachable(cfg, w)
    ensures w.pub.obj.Some? ==> w.pub.obj.value in w.bucket
    ensures forall i | i in w.writers && w.writers[i].phase.Cleaning? && w.pub.obj.Some? ::
        w.writers[i].phase.orphan != w.pub.obj
  {
    var acts :| Run(cfg, INITIAL, acts) == Some(w);
    RunKept(cfg, INITIAL, acts);
    forall i | i in w.writers && w.writers[i].phase.Cleaning? && w.pub.obj.Some?
      ensures w.writers[i].phase.orphan != w.pub.obj
    {
      assert SafeWriter(View(w), i, w.writers[i]);
    }
  }
}
