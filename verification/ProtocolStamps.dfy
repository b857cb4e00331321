/** In every deployment all stamps are revisions that were issued: positive and at most the
    source revision, in every index stored, cached or edited. So is the covered revision. */
module ProtocolStamps {
  import opened Prelude
  import opened Controlplane
  import opened Protocol
  import opened ProtocolTheorems

  ghost predicate Issued(ix: Index, rev: nat) {
    && (forall x | x in ix.chats :: 0 < ix.chats[x].rev <= rev)
    && (ix.progress.Some? ==> 0 < ix.progress.value.target <= rev)
  }

  ghost predicate PhaseIssued(phase: Phase, rev: nat) {
    match phase
    case Loaded(_, _, ix) => Issued(ix, rev)
    case Mending(_, _, ix) => Issued(ix, rev)
    case Paging(_, _, ix, _, _, start) => Issued(ix, rev)
    case Prepared(_, _, ix, _, _) => Issued(ix, rev)
    case Sending(_, _, ix, _, _, _) => Issued(ix, rev)
    case _ => true
  }

  predicate KindIssued(k: Kind, rev: nat) {
    (k.Push? ==> 0 < k.rev <= rev) && (k.Rebuild? ==> 0 < k.target <= rev)
  }

  ghost predicate WriterIssued(wr: Writer, rev: nat) {
    KindIssued(wr.kind, rev) && PhaseIssued(wr.phase, rev)
  }

  ghost predicate AllIssued(w: World) {
    && w.pub.covered <= w.src.Rev()
    && (forall o | o in w.objs :: Issued(w.objs[o].ix, w.src.Rev()))
    && (forall r | r in w.caches :: Issued(w.caches[r].ix, w.src.Rev()))
    && (forall i | i in w.writers :: WriterIssued(w.writers[i], w.src.Rev()))
  }

  /** The source moves on, and at most writer `wid` moves, with what it may cache. */
  lemma MoveIssued(w: World, w': World, wid: nat)
    requires AllIssued(w) && w'.pub.covered <= w.src.Rev() <= w'.src.Rev() && w'.objs == w.objs
    requires forall r | r in w'.caches :: Issued(w'.caches[r].ix, w.src.Rev())
    requires forall i | i in w'.writers && i != wid :: i in w.writers && w'.writers[i] == w.writers[i]
    requires wid in w'.writers ==> WriterIssued(w'.writers[wid], w'.src.Rev())
    ensures AllIssued(w')
  {
  }

  lemma LoadIssued(w: World, pub: Publication, wr: Writer, readable: bool)
    requires AllIssued(w) && LoadIndex(w, pub, wr, readable).Some?
    ensures Issued(LoadIndex(w, pub, wr, readable).value.0, w.src.Rev())
    ensures forall r | r in LoadIndex(w, pub, wr, readable).value.1 ::
        Issued(LoadIndex(w, pub, wr, readable).value.1[r].ix, w.src.Rev())
  {
  }

  lemma LoadStepIssued(w: World, a: Action)
    requires AllIssued(w) && a.Load? && DoLoad(w, a).Some?
    ensures AllIssued(DoLoad(w, a).value)
  {
    var wr := w.writers[a.wid];
    if LoadIndex(w, wr.phase.snap.pub, wr, a.readable).Some? {
      LoadIssued(w, wr.phase.snap.pub, wr, a.readable);
    }
    assert WriterIssued(wr, w.src.Rev());
    MoveIssued(w, DoLoad(w, a).value, a.wid);
  }

  lemma CheckpointIssued(w: World, a: Action)
    requires AllIssued(w) && a.Checkpoint? && DoCheckpoint(w, a).Some?
    ensures AllIssued(DoCheckpoint(w, a).value)
  {
    var wr := w.writers[a.wid];
    var w' := DoCheckpoint(w, a).value;
    assert WriterIssued(wr, w.src.Rev());
    if LoadIndex(w, wr.phase.snap.pub, wr, a.readable).Some? {
      LoadIssued(w, wr.phase.snap.pub, wr, a.readable);
    }
    ReadyIssued(w, w', a.wid);
  }

  /** Writer `wid` starts its job, over caches like these. */
  lemma ReadyIssued(w: World, w': World, wid: nat)
    requires AllIssued(w) && wid in w'.writers && w'.writers[wid].phase.Ready?
    requires KindIssued(w'.writers[wid].kind, w.src.Rev())
    requires w' == w.(writers := w.writers[wid := w'.writers[wid]], caches := w'.caches)
    requires forall r | r in w'.caches :: Issued(w'.caches[r].ix, w.src.Rev())
    ensures AllIssued(w')
  {
    MoveIssued(w, w', wid);
  }

  /** An edit of issued stamps under issued revisions leaves issued stamps. */
  lemma EditIssued(w: World, wid: nat, wr: Writer, pub: Publication, ok: bool, ix: Index, phase: Phase)
    requires AllIssued(w) && wid in w.writers && KindIssued(wr.kind, w.src.Rev())
    requires Issued(ix, w.src.Rev()) && PhaseIssued(phase, w.src.Rev())
    ensures AllIssued(Edited(w, wid, wr, pub, ok, ix, phase))
  {
    MoveIssued(w, Edited(w, wid, wr, pub, ok, ix, phase), wid);
  }

  lemma FinishIssued(w: World, wid: nat)
    requires AllIssued(w)
    ensures AllIssued(Finish(w, wid))
  {
    MoveIssued(w, Finish(w, wid), wid);
  }

  lemma PrepareIssued(w: World, wid: nat, snap: Snap, ok: bool, ix: Index, covered: nat, incomplete: bool)
    requires AllIssued(w) && wid in w.writers && Issued(ix, w.src.Rev())
    ensures AllIssued(Prepare(w, wid, w.writers[wid], snap, ok, ix, covered, incomplete))
  {
    assert WriterIssued(w.writers[wid], w.src.Rev());
    EditIssued(w, wid, w.writers[wid], snap.pub, ok, ix, Prepared(snap, ok, ix, covered, incomplete));
  }

  lemma EditStepIssued(w: World, a: Action)
    requires AllIssued(w) && a.Edit? && DoEdit(w, a).Some?
    ensures AllIssued(DoEdit(w, a).value)
  {
    var wr := w.writers[a.wid];
    var snap, ok, ix := wr.phase.snap, wr.phase.ok, wr.phase.ix;
    assert WriterIssued(wr, w.src.Rev());
    FinishIssued(w, a.wid);
    match wr.kind {
      case Push(id, text, etag, rev) =>
        var advance := CanAdvance(snap, ok, rev);
        PrepareIssued(w, a.wid, snap, ok, Without(ix, id).(incomplete := true), snap.pub.covered, true);
        PrepareIssued(w, a.wid, snap, ok, Put(ix, id, Entry(etag, rev, text), a.emb).(incomplete := !advance),
                      if advance then rev else snap.pub.covered, !advance);
      case Delete(id, rev, _) =>
        var advance := CanAdvance(snap, ok, rev);
        PrepareIssued(w, a.wid, snap, ok, Without(ix, id).(incomplete := !advance),
                      if advance then rev else snap.pub.covered, !advance);
      case Repair =>
        PrepareIssued(w, a.wid, snap, ok, ix, snap.pub.covered, snap.pub.incomplete || ix.incomplete);
      case _ =>
    }
  }

  lemma NextPageIssued(w: World, wid: nat, kind: Kind)
    requires AllIssued(w) && wid in w.writers && KindIssued(kind, w.src.Rev())
    ensures AllIssued(NextPage(w, wid, w.writers[wid], kind))
  {
    MoveIssued(w, NextPage(w, wid, w.writers[wid], kind), wid);
  }

  lemma BeginIssued(cfg: Config, w: World, a: Action)
    requires AllIssued(w) && a.Begin? && DoBegin(cfg, w, a).Some?
    ensures AllIssued(DoBegin(cfg, w, a).value)
  {
    var wr := w.writers[a.wid];
    assert WriterIssued(wr, w.src.Rev());
    var Loaded(snap, ok, ix) := wr.phase;
    var Rebuild(target, startedAt, cursor, failure, pull) := wr.kind;
    var mine := if cursor.Some? then Some(Progress(cursor.value, target, startedAt)) else None;
    if ix.progress.Some? && ix.progress != mine {
      var p := ix.progress.value;
      NextPageIssued(w, a.wid, Rebuild(p.target, p.startedAt, Some(p.cursor), failure, NoPull));
    } else if ix.progress.None? && cursor.Some? {
      FinishIssued(w, a.wid);
    } else {
      var swept := if cursor.None? then Swept(ix, target, a.undated) else ix;
      EditIssued(w, a.wid, wr, snap.pub, ok, swept, Paging(snap, ok, swept, pull.items.Keys, pull.failed, ix));
    }
  }

  lemma MergeIssued(w: World, a: Action)
    requires AllIssued(w) && a.Merge? && DoMerge(w, a).Some?
    ensures AllIssued(DoMerge(w, a).value)
  {
    assert WriterIssued(w.writers[a.wid], w.src.Rev());
    MoveIssued(w, DoMerge(w, a).value, a.wid);
  }

  lemma EndIssued(w: World, a: Action)
    requires AllIssued(w) && a.End? && DoEnd(w, a).Some?
    ensures AllIssued(DoEnd(w, a).value)
  {
    assert WriterIssued(w.writers[a.wid], w.src.Rev());
    MoveIssued(w, DoEnd(w, a).value, a.wid);
  }

  lemma MendIssued(w: World, a: Action)
    requires AllIssued(w) && a.Mend? && DoMend(w, a).Some?
    ensures AllIssued(DoMend(w, a).value)
  {
    assert WriterIssued(w.writers[a.wid], w.src.Rev());
    MoveIssued(w, DoMend(w, a).value, a.wid);
  }

  lemma SaveIssued(w: World, a: Action)
    requires AllIssued(w) && a.Save? && DoSave(w, a).Some?
    ensures AllIssued(DoSave(w, a).value)
  {
    var wr := w.writers[a.wid];
    assert WriterIssued(wr, w.src.Rev());
    var stored := Stored(wr.phase.ix, wr.key, wr.model, a.wid);
    var put := w.(nextObj := w.nextObj + 1, objs := w.objs[w.nextObj := stored], bucket := w.bucket + {w.nextObj});
    assert AllIssued(put);
    MoveIssued(if a.stored || a.landed then put else w, DoSave(w, a).value, a.wid);
  }

  lemma StartIssued(cfg: Config, w: World, a: Action)
    requires AllIssued(w) && Step(cfg, w, a).Some?
    requires a.StartReset? || a.Fence? || a.StartRebuild? || a.StartRepair?
    ensures AllIssued(Step(cfg, w, a).value)
  {
    assert a.wid in w.writers ==> WriterIssued(w.writers[a.wid], w.src.Rev());
    MoveIssued(w, Step(cfg, w, a).value, a.wid);
  }

  lemma ListIssued(w: World, a: Action)
    requires AllIssued(w) && a.List? && DoList(w, a).Some?
    ensures AllIssued(DoList(w, a).value)
  {
    assert WriterIssued(w.writers[a.wid], w.src.Rev());
    MoveIssued(w, DoList(w, a).value, a.wid);
  }

  lemma FetchIssued(cfg: Config, w: World, a: Action)
    requires AllIssued(w) && a.Fetch? && DoFetch(cfg, w, a).Some?
    ensures AllIssued(DoFetch(cfg, w, a).value)
  {
    assert WriterIssued(w.writers[a.wid], w.src.Rev());
    MoveIssued(w, DoFetch(cfg, w, a).value, a.wid);
  }

  lemma EnterIssued(w: World, a: Action)
    requires AllIssued(w) && a.Enter? && DoEnter(w, a).Some?
    ensures AllIssued(DoEnter(w, a).value)
  {
    var w' := DoEnter(w, a).value;
    assert WriterIssued(w.writers[a.wid], w.src.Rev());
    if a.wid in w'.writers {
      MoveIssued(w, w', a.wid);
    } else {
      FinishIssued(w, a.wid);
    }
  }

  lemma ReadPubIssued(w: World, a: Action)
    requires AllIssued(w) && a.ReadPub? && DoReadPub(w, a).Some?
    ensures AllIssued(DoReadPub(w, a).value)
  {
    assert WriterIssued(w.writers[a.wid], w.src.Rev());
    MoveIssued(w, DoReadPub(w, a).value, a.wid);
  }

  lemma SendIssued(w: World, a: Action)
    requires AllIssued(w) && a.Send? && DoSend(w, a).Some?
    ensures AllIssued(DoSend(w, a).value)
  {
    assert WriterIssued(w.writers[a.wid], w.src.Rev());
    MoveIssued(w, DoSend(w, a).value, a.wid);
  }

  lemma ReconcileIssued(w: World, a: Action)
    requires AllIssued(w) && a.Reconcile? && DoReconcile(w, a).Some?
    ensures AllIssued(DoReconcile(w, a).value)
  {
    assert WriterIssued(w.writers[a.wid], w.src.Rev());
    MoveIssued(w, DoReconcile(w, a).value, a.wid);
  }

  lemma CleanIssued(w: World, a: Action)
    requires AllIssued(w) && a.Clean? && DoClean(w, a).Some?
    ensures AllIssued(DoClean(w, a).value)
  {
    var w' := DoClean(w, a).value;
    assert WriterIssued(w.writers[a.wid], w.src.Rev());
    if a.wid in w'.writers {
      BackIssued(w.(bucket := w'.bucket), w', a.wid);
    } else {
      FinishIssued(w.(bucket := w'.bucket), a.wid);
    }
  }

  /** Writer `wid` holds no index any more. */
  lemma BackIssued(w: World, w': World, wid: nat)
    requires AllIssued(w) && wid in w'.writers && (w'.writers[wid].phase.Ready? || w'.writers[wid].phase.Inside?)
    requires KindIssued(w'.writers[wid].kind, w.src.Rev())
    requires w' == w.(writers := w.writers[wid := w'.writers[wid]], locks := w'.locks)
    ensures AllIssued(w')
  {
    MoveIssued(w, w', wid);
  }

  lemma ChatIssued(cfg: Config, w: World, a: Action)
    requires AllIssued(w) && Step(cfg, w, a).Some?
    requires a.ChatPush? || a.ChatDelete?
    ensures AllIssued(Step(cfg, w, a).value)
  {
    MoveIssued(w, Step(cfg, w, a).value, a.wid);
  }

  lemma StepIssued(cfg: Config, w: World, a: Action)
    requires AllIssued(w) && Step(cfg, w, a).Some?
    ensures AllIssued(Step(cfg, w, a).value)
  {
    if a.ChatPush? || a.ChatDelete? {
      ChatIssued(cfg, w, a);
    } else if a.Load? {
      LoadStepIssued(w, a);
    } else if a.Checkpoint? {
      CheckpointIssued(w, a);
    } else if a.Edit? {
      EditStepIssued(w, a);
    } else if a.Begin? {
      BeginIssued(cfg, w, a);
    } else if a.Merge? {
      MergeIssued(w, a);
    } else if a.End? {
      EndIssued(w, a);
    } else if a.Mend? {
      MendIssued(w, a);
    } else if a.Save? {
      SaveIssued(w, a);
    } else if a.Wipe? || a.RewrapRow? || a.RegisterFirst? || a.Crash? || a.Evict? {
      QuietIssued(cfg, w, a);
    } else if a.Enter? {
      EnterIssued(w, a);
    } else if a.ReadPub? {
      ReadPubIssued(w, a);
    } else if a.Send? {
      SendIssued(w, a);
    } else if a.Reconcile? {
      ReconcileIssued(w, a);
    } else if a.Clean? {
      CleanIssued(w, a);
    } else if a.Quit? {
      FinishIssued(w, a.wid);
    } else if a.List? {
      ListIssued(w, a);
    } else if a.Fetch? {
      FetchIssued(cfg, w, a);
    } else {
      StartIssued(cfg, w, a);
    }
  }

  lemma QuietIssued(cfg: Config, w: World, a: Action)
    requires AllIssued(w) && Step(cfg, w, a).Some?
    requires a.Wipe? || a.RewrapRow? || a.RegisterFirst? || a.Crash? || a.Evict?
    ensures AllIssued(Step(cfg, w, a).value)
  {
    var w' := Step(cfg, w, a).value;
    forall i | i in w'.writers
      ensures WriterIssued(w'.writers[i], w'.src.Rev())
    {
      assert WriterIssued(w.writers[i], w.src.Rev());
    }
  }

  lemma {:induction false} RunIssued(cfg: Config, w: World, acts: seq<Action>)
    requires AllIssued(w) && Run(cfg, w, acts).Some?
    ensures AllIssued(Run(cfg, w, acts).value)
    decreases |acts|
  {
    if acts != [] {
      StepIssued(cfg, w, acts[0]);
      RunIssued(cfg, Step(cfg, w, acts[0]).value, acts[1..]);
    }
  }

  lemma ReachableIssued(cfg: Config, w: World)
    requires Reachable(cfg, w)
    ensures AllIssued(w)
  {
    var acts :| Run(cfg, INITIAL, acts) == Some(w);
    RunIssued(cfg, INITIAL, acts);
  }
}
