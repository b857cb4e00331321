/** The main results about the publication protocol, for every run. */
module ProtocolTheorems {
  import opened Prelude
  import opened Controlplane
  import opened Protocol
  import opened ProtocolInvariant
  import opened ProtocolSteps
  import opened ProtocolRuns

  lemma ChatStepKeeps(cfg: Config, w: World, a: Action)
    requires Sound(cfg) && Inv(cfg, w) && Step(cfg, w, a).Some? && (a.ChatPush? || a.ChatDelete? || a.Wipe?)
    ensures Inv(cfg, Step(cfg, w, a).value)
  {
    match a {
      case ChatPush(_, _, _, _, _, _, _) => ChatPushKeeps(cfg, w, a);
      case ChatDelete(_, _, _, _, _) => ChatDeleteKeeps(cfg, w, a);
      case Wipe(id) => DeletedKeeps(cfg, w, id);
    }
  }

  lemma RewrapStepKeeps(cfg: Config, w: World, a: Action)
    requires Sound(cfg) && Inv(cfg, w) && a.RewrapRow? && Step(cfg, w, a).Some?
    ensures Inv(cfg, Step(cfg, w, a).value)
  {
    RewrappedKeeps(cfg, w, a.id);
  }

  lemma KeyStepKeeps(cfg: Config, w: World, a: Action)
    requires Sound(cfg) && Inv(cfg, w) && Step(cfg, w, a).Some?
    requires a.RegisterFirst? || a.StartReset? || a.Fence?
    ensures Inv(cfg, Step(cfg, w, a).value)
  {
    match a {
      case RegisterFirst(key) => assert View(w.(currentKey := key)) == View(w);
      case StartReset(wid) => NewKeeps(cfg, w, wid, Writer(Reset(w.pub.obj), 0, NO_KEY, NO_KEY, Ready));
      case Fence(_, _) => FenceKeeps(cfg, w, a);
    }
  }

  lemma JobStepKeeps(cfg: Config, w: World, a: Action)
    requires Sound(cfg) && Inv(cfg, w) && Step(cfg, w, a).Some?
    requires a.StartRebuild? || a.Checkpoint? || a.List? || a.Fetch?
    ensures Inv(cfg, Step(cfg, w, a).value)
  {
    match a {
      case StartRebuild(_, _, _, _, _) => StartRebuildKeeps(cfg, w, a);
      case Checkpoint(_, _) => CheckpointKeeps(cfg, w, a);
      case List(_, _) => ListKeeps(cfg, w, a);
      case Fetch(_, _, _, _) => FetchKeeps(cfg, w, a);
    }
  }

  lemma PageStepKeeps(cfg: Config, w: World, a: Action)
    requires Sound(cfg) && Inv(cfg, w) && Step(cfg, w, a).Some? && (a.Begin? || a.Merge? || a.End?)
    ensures Inv(cfg, Step(cfg, w, a).value)
  {
    match a {
      case Begin(_, _) => BeginKeeps(cfg, w, a);
      case Merge(_, _, _, _) => MergeKeeps(cfg, w, a);
      case End(_) => EndKeeps(cfg, w, a);
    }
  }

  lemma LockStepKeeps(cfg: Config, w: World, a: Action)
    requires Sound(cfg) && Inv(cfg, w) && Step(cfg, w, a).Some?
    requires a.StartRepair? || a.Enter? || a.ReadPub?
    ensures Inv(cfg, Step(cfg, w, a).value)
  {
    match a {
      case StartRepair(wid, replica, key, model) => NewKeeps(cfg, w, wid, Writer(Repair, replica, key, model, Ready));
      case Enter(_) => EnteringKeeps(cfg, w, a);
      case ReadPub(_) => ReadPubKeeps(cfg, w, a);
    }
  }

  lemma EditStepKeeps(cfg: Config, w: World, a: Action)
    requires Sound(cfg) && Inv(cfg, w) && Step(cfg, w, a).Some? && (a.Load? || a.Mend? || a.Edit?)
    ensures Inv(cfg, Step(cfg, w, a).value)
  {
    match a {
      case Load(_, _) => LoadKeeps(cfg, w, a);
      case Mend(_, _, _) => MendKeeps(cfg, w, a);
      case Edit(_, _, _) => EditKeeps(cfg, w, a);
    }
  }

  lemma PublishStepKeeps(cfg: Config, w: World, a: Action)
    requires Sound(cfg) && Inv(cfg, w) && Step(cfg, w, a).Some? && (a.Save? || a.Send? || a.Reconcile?)
    ensures Inv(cfg, Step(cfg, w, a).value)
  {
    match a {
      case Save(_, _, _) => SaveKeeps(cfg, w, a);
      case Send(_, _) => SendKeeps(cfg, w, a);
      case Reconcile(_) => ReconcileKeeps(cfg, w, a);
    }
  }

  lemma LeaveStepKeeps(cfg: Config, w: World, a: Action)
    requires Sound(cfg) && Inv(cfg, w) && Step(cfg, w, a).Some? && (a.Clean? || a.Quit?)
    ensures Inv(cfg, Step(cfg, w, a).value)
  {
    match a {
      case Clean(_, _) => CleanKeeps(cfg, w, a);
      case Quit(_) => QuitKeeps(cfg, w, a);
    }
  }

  lemma StepKeeps(cfg: Config, w: World, a: Action)
    requires Sound(cfg) && Inv(cfg, w) && Step(cfg, w, a).Some?
    ensures Inv(cfg, Step(cfg, w, a).value)
  {
    if a.RegisterFirst? || a.StartReset? || a.Fence? {
      KeyStepKeeps(cfg, w, a);
    } else if a.ChatPush? || a.ChatDelete? || a.Wipe? {
      ChatStepKeeps(cfg, w, a);
    } else if a.RewrapRow? {
      RewrapStepKeeps(cfg, w, a);
    } else if a.Save? || a.Send? || a.Reconcile? {
      PublishStepKeeps(cfg, w, a);
    } else if a.Clean? || a.Quit? {
      LeaveStepKeeps(cfg, w, a);
    } else if a.StartRepair? || a.Enter? || a.ReadPub? {
      LockStepKeeps(cfg, w, a);
    } else if a.Load? || a.Mend? || a.Edit? {
      EditStepKeeps(cfg, w, a);
    } else if a.Begin? || a.Merge? || a.End? {
      PageStepKeeps(cfg, w, a);
    } else if a.StartRebuild? || a.Checkpoint? || a.List? || a.Fetch? {
      JobStepKeeps(cfg, w, a);
    }
  }

  lemma {:induction false} RunKeeps(cfg: Config, w: World, acts: seq<Action>)
    requires Sound(cfg) && Inv(cfg, w) && Run(cfg, w, acts).Some?
    ensures Inv(cfg, Run(cfg, w, acts).value)
    decreases |acts|
  {
    if acts != [] {
      StepKeeps(cfg, w, acts[0]);
      RunKeeps(cfg, Step(cfg, w, acts[0]).value, acts[1..]);
    }
  }

  ghost predicate Reachable(cfg: Config, w: World) {
    exists acts :: Run(cfg, INITIAL, acts) == Some(w)
  }

  lemma ReachableHolds(cfg: Config, w: World)
    requires Sound(cfg) && Reachable(cfg, w)
    ensures Inv(cfg, w)
  {
    var acts :| Run(cfg, INITIAL, acts) == Some(w);
    RunKeeps(cfg, INITIAL, acts);
  }

  /* ---------- coverage ---------- */

  function PublishedIndex(w: World): Index {
    IndexOf(w.objs, w.pub)
  }

  /** A publication marked complete is true: each chat last changed at or before the
      published revision is indexed with its current text if it exists and absent if it
      was deleted. */
  ghost predicate Truthful(w: World) {
    !w.pub.incomplete ==> forall x | Last(w.src, x) <= w.pub.covered ::
      if x in w.src.chats
      then x in PublishedIndex(w).chats && PublishedIndex(w).chats[x].text == w.src.chats[x].text
      else x !in PublishedIndex(w).chats
  }

  lemma CompletePublicationIsTrue(cfg: Config, w: World)
    requires Sound(cfg) && Reachable(cfg, w)
    ensures Truthful(w)
  {
    ReachableHolds(cfg, w);
    if !w.pub.incomplete {
      var ix := PublishedIndex(w);
      assert Good(cfg, w.src, ix) && Covers(w.src, ix, w.pub.covered);
      forall x | Last(w.src, x) <= w.pub.covered
        ensures if x in w.src.chats
                then x in ix.chats && ix.chats[x].text == w.src.chats[x].text
                else x !in ix.chats
      {
        assert x in w.src.chats ==> Has(w.src, ix, x);
      }
    }
  }

  /** Complete and caught up with the source means exactly the live corpus. */
  lemma CurrentPublicationIsTheCorpus(cfg: Config, w: World)
    requires Sound(cfg) && Reachable(cfg, w)
    requires !w.pub.incomplete && w.pub.covered == w.src.Rev()
    ensures PublishedIndex(w).chats.Keys == w.src.chats.Keys
    ensures forall x | x in w.src.chats :: PublishedIndex(w).chats[x].text == w.src.chats[x].text
  {
    ReachableHolds(cfg, w);
    CompletePublicationIsTrue(cfg, w);
    forall x
      ensures x in PublishedIndex(w).chats <==> x in w.src.chats
    {
      assert Last(w.src, x) <= w.pub.covered;
    }
  }

  /** The writer `wid` publishes in the step from `w` to `w'`. */
  ghost predicate Publishes(cfg: Config, w: World, wid: nat, reply: Reply, w': World) {
    wid in w.writers && w.writers[wid].phase.Sending? && Step(cfg, w, Send(wid, reply)) == Some(w') && w'.pub != w.pub
  }

  lemma PublishOutcome(cfg: Config, w: World, wid: nat, reply: Reply, w': World)
    requires Inv(cfg, w) && Publishes(cfg, w, wid, reply, w')
    ensures
      var Sending(snap, ok, ix, covered, incomplete, obj) := w.writers[wid].phase;
      && w'.pub == Published(w.pub, Request(w.writers[wid], snap, covered, incomplete, obj))
      && w'.objs == w.objs && w'.src == w.src
      && snap.pub == w.pub && w.pub.covered <= covered
      && PublishedIndex(w') == ix
      && EditOK(cfg, View(w), snap, ok, ix, covered, incomplete)
      && AskOK(w.writers[wid])
  {
  }

  /** A rebuild page that publishes as complete covers the larger of its target and the
      revision already published, whatever pushes, deletes, repairs and crashes ran between
      its pages and wherever it was resumed. */
  lemma FinalPageCovers(cfg: Config, w: World, wid: nat, reply: Reply, w': World)
    requires Sound(cfg) && Reachable(cfg, w)
    requires Publishes(cfg, w, wid, reply, w') && w.writers[wid].kind.Rebuild? && !w'.pub.incomplete
    ensures w'.pub.covered == Larger(w.pub.covered, w.writers[wid].kind.target)
    ensures Covers(w'.src, PublishedIndex(w'), w'.pub.covered)
    ensures PublishedIndex(w').progress.None?
  {
    ReachableHolds(cfg, w);
    PublishOutcome(cfg, w, wid, reply, w');
  }
}
