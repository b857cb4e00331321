/** What the writers achieve when nothing disturbs them, in every deployment and from every
    reachable world: runs given action by action, and the publication they end with. */
module ProtocolProgress {
  import opened Prelude
  import opened Controlplane
  import opened Protocol
  import opened ProtocolInvariant
  import opened ProtocolTheorems
  import opened ProtocolCaches
  import opened ProtocolStamps
  import ProtocolObjects

  /* ---------- runs piece by piece ---------- */

  lemma OneStep(cfg: Config, w: World, a: Action)
    ensures Run(cfg, w, [a]) == Step(cfg, w, a)
  {
    if Step(cfg, w, a).Some? {
      assert [a][1..] == [];
      assert Run(cfg, Step(cfg, w, a).value, []) == Step(cfg, w, a);
    }
  }

  lemma {:induction false} Then(cfg: Config, w: World, acts: seq<Action>, more: seq<Action>)
    requires Run(cfg, w, acts).Some?
    ensures Run(cfg, w, acts + more) == Run(cfg, Run(cfg, w, acts).value, more)
    decreases |acts|
  {
    if acts == [] {
      assert acts + more == more;
    } else {
      assert (acts + more)[0] == acts[0] && (acts + more)[1..] == acts[1..] + more;
      Then(cfg, Step(cfg, w, acts[0]).value, acts[1..], more);
    }
  }

  lemma Joined(cfg: Config, w: World, acts: seq<Action>, w1: World, more: seq<Action>, w2: World, all: seq<Action>)
    requires Run(cfg, w, acts) == Some(w1) && Run(cfg, w1, more) == Some(w2) && all == acts + more
    ensures Run(cfg, w, all) == Some(w2)
  {
    Then(cfg, w, acts, more);
  }

  lemma ThenStep(cfg: Config, w: World, acts: seq<Action>, a: Action)
    requires Run(cfg, w, acts).Some?
    ensures Run(cfg, w, acts + [a]) == Step(cfg, Run(cfg, w, acts).value, a)
  {
    Then(cfg, w, acts, [a]);
    OneStep(cfg, Run(cfg, w, acts).value, a);
  }

  lemma Reassigned<T>(m: map<nat, T>, k: nat, a: T, b: T)
    ensures m[k := a][k := b] == m[k := b] && m[k := a] - {k} == m - {k}
  {
  }

  /* ---------- where a writer can work ---------- */

  /** Complete, and published up to the source's revision. */
  predicate Level(w: World) {
    !w.pub.incomplete && w.pub.covered == w.src.Rev()
  }

  /** There is no published object, or one under the writer's key and model. */
  predicate Usable(w: World, key: KeyId, model: Model) {
    w.pub.obj.Some? ==> w.pub.key == key && w.pub.model == model
  }

  /** A new writer can start on the replica and publish under its key. */
  predicate Room(cfg: Config, w: World, wid: nat, replica: nat, key: KeyId) {
    && wid !in w.writers && replica !in w.locks && key != NO_KEY && (cfg.oneReplica ==> replica == 0)
    && (w.currentKey == NO_KEY || w.currentKey == key)
  }

  /** What any reachable world offers a reader of the published object. */
  ghost predicate Fit(cfg: Config, w: World) {
    && Held(cfg, w) && AllIssued(w)
    && (w.pub.obj.Some? ==> w.pub.obj.value in w.bucket)
  }

  lemma ReachableFit(cfg: Config, w: World)
    requires Reachable(cfg, w)
    ensures Fit(cfg, w)
  {
    ReachableHeld(cfg, w);
    ReachableIssued(cfg, w);
    ProtocolObjects.PublishedObjectExists(cfg, w);
  }

  /** What a load at `w` hands the writer, and the caches it leaves; nothing when it fails. */
  function Taken(w: World, wr: Writer, readable: bool): (Index, map<nat, Cached>) {
    var loaded := LoadIndex(w, w.pub, wr, readable);
    if loaded.Some? then loaded.value else (EMPTY, w.caches)
  }

  function Opening(wid: nat, readable: bool): seq<Action> {
    [Enter(wid), ReadPub(wid), Load(wid, readable)]
  }

  /** What entering the lock adds to the writer's knowledge. */
  function Entering(w: World, kind: Kind): Kind {
    if kind.Delete? then kind.(checkedAt := w.src.Rev()) else kind
  }

  predicate MayEnter(w: World, wid: nat) {
    && wid in w.writers && w.writers[wid].phase.Ready? && w.writers[wid].replica !in w.locks
    && !w.writers[wid].kind.Reset? && (w.writers[wid].kind.Delete? ==> w.writers[wid].kind.id !in w.src.chats)
    && (w.writers[wid].kind.Rebuild? ==> w.writers[wid].kind.pull.Pull? && w.writers[wid].kind.pull.waiting == {})
  }

  /** The writer inside the lock with its index loaded. */
  function LoadedAt(w: World, wid: nat, readable: bool): World
    requires wid in w.writers
  {
    var wr := w.writers[wid];
    var (ix, caches) := Taken(w, wr, readable);
    var ok := LoadIndex(w, w.pub, wr, readable).Some?;
    w.(writers := w.writers[wid :=
           wr.(kind := Entering(w, wr.kind), phase := Loaded(Snap(w.pub, w.src.Rev()), ok, ix))],
       locks := w.locks[wr.replica := wid], caches := caches)
  }

  /** Inside the lock with the record read. */
  function Inspected(w: World, wid: nat): World
    requires wid in w.writers
  {
    var wr := w.writers[wid];
    var reading := wr.(kind := Entering(w, wr.kind), phase := Read(Snap(w.pub, w.src.Rev())));
    w.(writers := w.writers[wid := reading], locks := w.locks[wr.replica := wid])
  }

  lemma InspectionRuns(cfg: Config, w: World, wid: nat)
    requires MayEnter(w, wid)
    ensures Step(cfg, w, Enter(wid)).Some?
    ensures Step(cfg, Step(cfg, w, Enter(wid)).value, ReadPub(wid)) == Some(Inspected(w, wid))
  {
    var wr := w.writers[wid];
    var inside := wr.(kind := Entering(w, wr.kind), phase := Inside);
    var w1 := w.(writers := w.writers[wid := inside], locks := w.locks[wr.replica := wid]);
    assert Step(cfg, w, Enter(wid)) == Some(w1);
    Reassigned(w.writers, wid, inside, Inspected(w, wid).writers[wid]);
  }

  lemma LoadRuns(cfg: Config, w: World, wid: nat, readable: bool)
    requires wid in w.writers
    ensures Step(cfg, Inspected(w, wid), Load(wid, readable)) == Some(LoadedAt(w, wid, readable))
  {
    var w2 := Inspected(w, wid);
    assert LoadIndex(w2, w.pub, w2.writers[wid], readable) == LoadIndex(w, w.pub, w.writers[wid], readable);
    Reassigned(w.writers, wid, w2.writers[wid], LoadedAt(w, wid, readable).writers[wid]);
  }

  lemma OpeningRuns(cfg: Config, w: World, wid: nat, readable: bool)
    requires MayEnter(w, wid)
    ensures Run(cfg, w, Opening(wid, readable)) == Some(LoadedAt(w, wid, readable))
  {
    InspectionRuns(cfg, w, wid);
    LoadRuns(cfg, w, wid, readable);
    ThreeSteps(cfg, w, Enter(wid), ReadPub(wid), Load(wid, readable));
  }

  function Publishing(wid: nat, ok: bool): seq<Action> {
    [Save(wid, true, true), Send(wid, Answered), Clean(wid, ok)]
  }

  /** The edited index is stored, published and cached; the superseded object may be gone. */
  function Sent(w: World, wid: nat, ok: bool): World
    requires wid in w.writers && w.writers[wid].phase.Prepared?
  {
    var wr := w.writers[wid];
    var Prepared(snap, _, ix, covered, incomplete) := wr.phase;
    var obj := w.nextObj;
    var bucket := w.bucket + {obj};
    w.(pub := Published(w.pub, Request(wr, snap, covered, incomplete, obj)),
       objs := w.objs[obj := Stored(ix, wr.key, wr.model, wid)],
       bucket := if ok && snap.pub.obj.Some? then bucket - {snap.pub.obj.value} else bucket,
       tried := w.tried + {obj}, nextObj := obj + 1, caches := w.caches[wr.replica := Cached(obj, wr.key, ix)])
  }

  predicate MaySend(w: World, wid: nat) {
    && wid in w.writers && w.writers[wid].phase.Prepared?
    && w.writers[wid].replica in w.locks && w.locks[w.writers[wid].replica] == wid
    && Accepts(w.pub, w.src.Rev(), w.currentKey,
        Request(w.writers[wid], w.writers[wid].phase.snap, w.writers[wid].phase.covered,
                w.writers[wid].phase.incomplete,
                w.nextObj))
  }

  /** Between pages a rebuild keeps its place; every other publication ends its writer. */
  function Leaving(w: World, wid: nat): World
    requires wid in w.writers
  {
    var wr := w.writers[wid];
    if wr.kind.Rebuild? && wr.kind.pull.Pull? && wr.kind.pull.next.Some? then
      w.(writers := w.writers[wid := wr.(phase := Ready, kind := wr.kind.(cursor := wr.kind.pull.next, pull := NoPull,
                                         failure := wr.kind.failure || wr.kind.pull.bad > 0))],
         locks := w.locks - {wr.replica})
    else w.(writers := w.writers - {wid}, locks := w.locks - {wr.replica})
  }

  /** The index stored, the call not yet made. */
  function Stocked(w: World, wid: nat): World
    requires wid in w.writers && w.writers[wid].phase.Prepared?
  {
    var wr := w.writers[wid];
    var Prepared(snap, ok, ix, covered, incomplete) := wr.phase;
    var obj := w.nextObj;
    w.(writers := w.writers[wid := wr.(phase := Sending(snap, ok, ix, covered, incomplete, obj))],
       nextObj := obj + 1, objs := w.objs[obj := Stored(ix, wr.key, wr.model, wid)],
       bucket := w.bucket + {obj}, caches := w.caches[wr.replica := Cached(obj, wr.key, ix)])
  }

  lemma SaveRuns(cfg: Config, w: World, wid: nat)
    requires MaySend(w, wid)
    ensures Step(cfg, w, Save(wid, true, true)) == Some(Stocked(w, wid))
  {
  }

  /** The call accepted, the old object not yet removed. */
  function Accepted(w: World, wid: nat): World
    requires wid in w.writers && w.writers[wid].phase.Prepared?
  {
    var wr := w.writers[wid];
    Sent(w, wid, false).(
      writers := w.writers[wid := wr.(phase := Cleaning(wr.phase.snap.pub.obj, AfterPublish(wr.kind)))])
  }

  lemma SendRuns(cfg: Config, w: World, wid: nat)
    requires MaySend(w, wid)
    ensures Step(cfg, Stocked(w, wid), Send(wid, Answered)) == Some(Accepted(w, wid))
  {
    Reassigned(w.writers, wid, Stocked(w, wid).writers[wid], Accepted(w, wid).writers[wid]);
  }

  lemma CleanRuns(cfg: Config, w: World, wid: nat, ok: bool)
    requires MaySend(w, wid)
    ensures Step(cfg, Accepted(w, wid), Clean(wid, ok)) == Some(Leaving(Sent(w, wid, ok), wid))
  {
    var left := Leaving(Sent(w, wid, ok), wid);
    Reassigned(w.writers, wid, Accepted(w, wid).writers[wid],
               if wid in left.writers then left.writers[wid] else w.writers[wid]);
  }

  lemma PublishingRuns(cfg: Config, w: World, wid: nat, ok: bool)
    requires MaySend(w, wid)
    ensures Run(cfg, w, Publishing(wid, ok)) == Some(Leaving(Sent(w, wid, ok), wid))
  {
    SaveRuns(cfg, w, wid);
    SendRuns(cfg, w, wid);
    CleanRuns(cfg, w, wid, ok);
    ThreeSteps(cfg, w, Save(wid, true, true), Send(wid, Answered), Clean(wid, ok));
  }

  lemma ThreeSteps(cfg: Config, w: World, a: Action, b: Action, c: Action)
    requires Step(cfg, w, a).Some? && Step(cfg, Step(cfg, w, a).value, b).Some?
    ensures Run(cfg, w, [a, b, c]) == Step(cfg, Step(cfg, Step(cfg, w, a).value, b).value, c)
  {
    OneStep(cfg, w, a);
    ThenStep(cfg, w, [a], b);
    ThenStep(cfg, w, [a] + [b], c);
    assert [a] + [b] + [c] == [a, b, c];
  }

  /** A writer that may use the published object gets it, as far as its replica's cache is
      faithful; with nothing published it starts from nothing. */
  lemma LoadFits(cfg: Config, w: World, wr: Writer)
    requires Fit(cfg, w) && Usable(w, wr.key, wr.model) && wr.replica !in w.locks
    ensures w.pub.obj.Some? ==> LoadIndex(w, w.pub, wr, true).Some?
    ensures Issued(Taken(w, wr, true).0, w.src.Rev())
    ensures SameHeader(Taken(w, wr, true).0, PublishedIndex(w))
    ensures Tidy(cfg) ==> Taken(w, wr, true).0.chats == PublishedIndex(w).chats
    ensures Tidy(cfg) && cfg.mended ==> Taken(w, wr, true).0.embs == PublishedIndex(w).embs
  {
    if w.pub.obj.Some? {
      CleanUnlessEditing(cfg, w, wr.replica);
      assert Same(cfg, Taken(w, wr, true).0, PublishedIndex(w));
      LoadIssued(w, w.pub, wr, true);
    }
  }

  /** The writer `wid` prepares `ix` for publication. */
  function Readied(w: World, wid: nat, ix: Index, covered: nat, incomplete: bool): World
    requires wid in w.writers && w.writers[wid].phase.Loaded?
  {
    var wr := w.writers[wid];
    Prepare(w, wid, wr, wr.phase.snap, wr.phase.ok, ix, covered, incomplete)
  }

  /** Publishing what was prepared on the record as it stands. */
  lemma ReadiedRuns(cfg: Config, w: World, wid: nat, ix: Index, covered: nat, incomplete: bool, ok: bool)
    requires wid in w.writers && w.writers[wid].phase.Loaded? && !w.writers[wid].kind.Rebuild?
    requires w.writers[wid].phase.snap.pub == w.pub && w.pub.covered <= covered <= w.src.Rev()
    requires w.writers[wid].replica in w.locks && w.locks[w.writers[wid].replica] == wid
    requires w.currentKey == NO_KEY || w.currentKey == w.writers[wid].key
    ensures
      var wr := w.writers[wid];
      var run := Run(cfg, Readied(w, wid, ix, covered, incomplete), Publishing(wid, ok));
      && run.Some? && PublishedIndex(run.value) == ix && run.value.src == w.src
      && run.value.pub ==
         Publication(w.pub.gen + 1, w.pub.fence, covered, Some(w.nextObj), wr.key, wr.model, incomplete)
      && run.value.writers == w.writers - {wid} && run.value.locks == w.locks - {wr.replica}
      && run.value.currentKey == w.currentKey
  {
    var w1 := Readied(w, wid, ix, covered, incomplete);
    PublishingRuns(cfg, w1, wid, ok);
    Reassigned(w.writers, wid, w1.writers[wid], w1.writers[wid]);
  }

  /** An edit that prepares `ix`, published. */
  lemma EditRuns(
    cfg: Config, w: World, wid: nat, fails: bool, emb: Emb, ix: Index, covered: nat, incomplete: bool, ok: bool)
    returns (w': World)
    requires wid in w.writers && w.writers[wid].phase.Loaded? && !w.writers[wid].kind.Rebuild?
    requires Step(cfg, w, Edit(wid, fails, emb)) == Some(Readied(w, wid, ix, covered, incomplete))
    requires w.writers[wid].phase.snap.pub == w.pub && w.pub.covered <= covered <= w.src.Rev()
    requires w.writers[wid].replica in w.locks && w.locks[w.writers[wid].replica] == wid
    requires w.currentKey == NO_KEY || w.currentKey == w.writers[wid].key
    ensures Run(cfg, w, [Edit(wid, fails, emb)] + Publishing(wid, ok)) == Some(w')
    ensures
      var wr := w.writers[wid];
      && PublishedIndex(w') == ix && w'.src == w.src && w'.currentKey == w.currentKey
      && w'.pub == Publication(w.pub.gen + 1, w.pub.fence, covered, Some(w.nextObj), wr.key, wr.model, incomplete)
      && w'.writers == w.writers - {wid} && w'.locks == w.locks - {wr.replica}
  {
    var w1 := Readied(w, wid, ix, covered, incomplete);
    OneStep(cfg, w, Edit(wid, fails, emb));
    ReadiedRuns(cfg, w, wid, ix, covered, incomplete, ok);
    w' := Run(cfg, w1, Publishing(wid, ok)).value;
    Joined(cfg, w, [Edit(wid, fails, emb)], w1, Publishing(wid, ok), w', [Edit(wid, fails, emb)] + Publishing(wid, ok));
  }

  /* ---------- pushes ---------- */

  /** A chat push and its indexing, with nothing in between. */
  function PushRun(
    wid: nat, replica: nat, key: KeyId, model: Model, id: ChatId, text: Text, ts: nat, emb: Emb, ok: bool): seq<Action>
  {
    [ChatPush(wid, replica, key, model, id, text, ts)] + Opening(wid, true)
    + ([Edit(wid, false, emb)] + Publishing(wid, ok))
  }

  /** A new writer of kind `kind` inside the lock at `w`, over the index it loaded. */
  ghost predicate Begun(
    cfg: Config, w: World, w1: World, wid: nat, replica: nat, key: KeyId, model: Model, kind: Kind, src: Source) {
    && wid in w1.writers && w1.writers == w.writers[wid := w1.writers[wid]]
    && w1.locks == w.locks[replica := wid] && w1.pub == w.pub && w1.src == src && w1.currentKey == w.currentKey
    && w1.nextObj == w.nextObj
    && var wr := w1.writers[wid];
       && wr.kind == kind && wr.replica == replica && wr.key == key && wr.model == model
       && wr.phase.Loaded? && wr.phase.snap == Snap(w.pub, src.Rev()) && (w.pub.obj.Some? ==> wr.phase.ok)
       && Issued(wr.phase.ix, w.src.Rev()) && SameHeader(wr.phase.ix, PublishedIndex(w))
       && (Tidy(cfg) ==> wr.phase.ix.chats == PublishedIndex(w).chats)
       && (Tidy(cfg) && cfg.mended ==> wr.phase.ix.embs == PublishedIndex(w).embs)
  }

  /** From the step that starts a writer to its loaded index. */
  lemma Begins(
    cfg: Config, w: World, a: Action, src: Source, wid: nat, replica: nat, key: KeyId, model: Model, kind: Kind)
    returns (w1: World)
    requires Fit(cfg, w) && Room(cfg, w, wid, replica, key) && Usable(w, key, model)
    requires !kind.Reset? && !kind.Rebuild? && (kind.Delete? ==> kind.id !in src.chats)
    requires Step(cfg, w, a) ==
             Some(w.(src := src, writers := w.writers[wid := Writer(kind, replica, key, model, Ready)]))
    ensures Run(cfg, w, [a] + Opening(wid, true)) == Some(w1)
    ensures Begun(cfg, w, w1, wid, replica, key, model,
                  if kind.Delete? then kind.(checkedAt := src.Rev()) else kind, src)
  {
    var wr := Writer(kind, replica, key, model, Ready);
    var w0 := Step(cfg, w, a).value;
    OneStep(cfg, w, a);
    OpeningRuns(cfg, w0, wid, true);
    Then(cfg, w, [a], Opening(wid, true));
    w1 := LoadedAt(w0, wid, true);
    assert LoadIndex(w0, w0.pub, wr, true) == LoadIndex(w, w.pub, wr, true);
    LoadFits(cfg, w, wr);
    Reassigned(w.writers, wid, wr, w1.writers[wid]);
  }

  /** The edit of a push that is next in line. */
  lemma PushEdits(cfg: Config, w: World, wid: nat, emb: Emb)
    requires wid in w.writers && w.writers[wid].kind.Push? && w.writers[wid].phase.Loaded?
    requires
      var Push(id, text, etag, rev) := w.writers[wid].kind;
      var Loaded(snap, got, ix) := w.writers[wid].phase;
      && snap.src == rev == snap.pub.covered + 1 && !snap.pub.incomplete && (snap.pub.obj.Some? ==> got)
      && Issued(ix, rev - 1)
    ensures
      var Push(id, text, etag, rev) := w.writers[wid].kind;
      Step(cfg, w, Edit(wid, false, emb)) ==
      Some(Readied(w, wid, Put(w.writers[wid].phase.ix, id, Entry(etag, rev, text), emb).(incomplete := false), rev,
                   false))
  {
  }

  lemma PushEnds(cfg: Config, w: World, wid: nat, emb: Emb, ok: bool) returns (w': World)
    requires wid in w.writers && w.writers[wid].kind.Push? && w.writers[wid].phase.Loaded?
    requires w.writers[wid].replica in w.locks && w.locks[w.writers[wid].replica] == wid
    requires w.currentKey == NO_KEY || w.currentKey == w.writers[wid].key
    requires
      var rev := w.writers[wid].kind.rev;
      var Loaded(snap, got, ix) := w.writers[wid].phase;
      && snap == Snap(w.pub, w.src.Rev()) && rev == w.src.Rev() == w.pub.covered + 1 && !w.pub.incomplete
      && (w.pub.obj.Some? ==> got) && Issued(ix, rev - 1)
    ensures Run(cfg, w, [Edit(wid, false, emb)] + Publishing(wid, ok)) == Some(w')
    ensures
      var Push(id, text, etag, rev) := w.writers[wid].kind;
      var wr := w.writers[wid];
      && w'.src == w.src && w'.currentKey == w.currentKey
      && PublishedIndex(w') == Put(wr.phase.ix, id, Entry(etag, rev, text), emb).(incomplete := false)
      && w'.pub == Publication(w.pub.gen + 1, w.pub.fence, rev, Some(w.nextObj), wr.key, wr.model, false)
      && w'.writers == w.writers - {wid} && w'.locks == w.locks - {wr.replica}
  {
    var Push(id, text, etag, rev) := w.writers[wid].kind;
    var edited := Put(w.writers[wid].phase.ix, id, Entry(etag, rev, text), emb).(incomplete := false);
    PushEdits(cfg, w, wid, emb);
    w' := EditRuns(cfg, w, wid, false, emb, edited, rev, false, ok);
  }

  /** On a complete and level publication the push publishes its chat, and nothing else changes. */
  ghost predicate PushDone(
    cfg: Config, w: World, w': World, id: ChatId, text: Text, ts: nat, emb: Emb, key: KeyId, model: Model)
  {
    var e := Entry(NextETag(w.src, id), w.src.Rev() + 1, text);
    && w'.src == Pushed(w.src, id, text, ts) && Level(w') && w'.pub.key == key && w'.pub.model == model
    && id in PublishedIndex(w').chats && PublishedIndex(w').chats[id] == e
    && id in PublishedIndex(w').embs && PublishedIndex(w').embs[id] == emb
    && (Tidy(cfg) ==> PublishedIndex(w').chats == PublishedIndex(w).chats[id := e])
    && w'.writers == w.writers && w'.locks == w.locks && w'.currentKey == w.currentKey
  }

  lemma PushStarts(
    cfg: Config, w: World, wid: nat, replica: nat, key: KeyId, model: Model, id: ChatId, text: Text, ts: nat)
    returns (w1: World)
    requires Fit(cfg, w) && Usable(w, key, model) && Room(cfg, w, wid, replica, key)
    ensures Run(cfg, w, [ChatPush(wid, replica, key, model, id, text, ts)] + Opening(wid, true)) == Some(w1)
    ensures Begun(cfg, w, w1, wid, replica, key, model, Push(id, text, NextETag(w.src, id), w.src.Rev() + 1),
                  Pushed(w.src, id, text, ts))
  {
    var kind := Push(id, text, NextETag(w.src, id), w.src.Rev() + 1);
    w1 := Begins(
      cfg, w, ChatPush(wid, replica, key, model, id, text, ts), Pushed(w.src, id, text, ts), wid, replica, key,
                 model, kind);
  }

  lemma PushFinishes(
    cfg: Config, w: World, w1: World, wid: nat, replica: nat, key: KeyId, model: Model, id: ChatId, text: Text, ts: nat,
    emb: Emb, ok: bool)
    returns (w': World)
    requires Level(w) && Room(cfg, w, wid, replica, key)
    requires Begun(cfg, w, w1, wid, replica, key, model, Push(id, text, NextETag(w.src, id), w.src.Rev() + 1),
                   Pushed(w.src, id, text, ts))
    ensures Run(cfg, w1, [Edit(wid, false, emb)] + Publishing(wid, ok)) == Some(w')
    ensures PushDone(cfg, w, w', id, text, ts, emb, key, model)
  {
    w' := PushEnds(cfg, w1, wid, emb, ok);
    assert w'.writers == w.writers && w'.locks == w.locks;
  }

  /** A push that nothing disturbs on a complete and level publication ends complete and level,
      whether or not its chat was indexed before: the published entry has the pushed text,
      etag and revision, and every other entry is kept. */
  lemma PushPublishes(
    cfg: Config, w: World, wid: nat, replica: nat, key: KeyId, model: Model, id: ChatId, text: Text, ts: nat, emb: Emb,
    ok: bool)
    returns (w': World)
    requires Reachable(cfg, w) && Level(w) && Usable(w, key, model) && Room(cfg, w, wid, replica, key)
    ensures Run(cfg, w, PushRun(wid, replica, key, model, id, text, ts, emb, ok)) == Some(w')
    ensures PushDone(cfg, w, w', id, text, ts, emb, key, model)
  {
    ReachableFit(cfg, w);
    var w1 := PushStarts(cfg, w, wid, replica, key, model, id, text, ts);
    w' := PushFinishes(cfg, w, w1, wid, replica, key, model, id, text, ts, emb, ok);
    Joined(cfg, w, [ChatPush(wid, replica, key, model, id, text, ts)] + Opening(wid, true), w1,
           [Edit(wid, false, emb)] + Publishing(wid, ok), w', PushRun(wid, replica, key, model, id, text, ts, emb, ok));
  }

  /** What a push finds: whether its chat is gone, was written or re-sealed since, or is indexed
      under a newer or the same generation. With the source still at the push's revision when
      the record was read, its chat is taken to be as pushed. */
  datatype Found = Found(gone: bool, rewritten: bool, newer: bool, same: bool)

  function Finds(src: Source, kind: Kind, snap: Snap, ix: Index): Found
    requires kind.Push?
  {
    var Push(id, text, etag, rev) := kind;
    Found(snap.src != rev && id !in src.chats,
          snap.src != rev && id in src.chats && src.chats[id].etag != etag,
          id in ix.chats && ix.chats[id].rev > rev,
          id in ix.chats && ix.chats[id].rev == rev && ix.chats[id].etag == etag)
  }

  /** The writer is gone, and nothing but its lock changed. */
  predicate Left(w: World, w': World, wid: nat)
    requires wid in w.writers
  {
    var r := w.writers[wid].replica;
    w' == w.(writers := w.writers - {wid},
             locks := if r in w.locks && w.locks[r] == wid then w.locks - {r} else w.locks)
  }

  /** The writer is about to publish these entries, on the record it read. */
  predicate Prepares(
    w: World, w': World, wid: nat, chats: map<ChatId, Entry>, embs: map<ChatId, Emb>, covered: nat, incomplete: bool)
    requires wid in w.writers && (w.writers[wid].phase.Loaded? || w.writers[wid].phase.Mending?)
  {
    && wid in w'.writers && w'.writers[wid].phase.Prepared?
    && w'.writers == w.writers[wid := w.writers[wid].(phase := w'.writers[wid].phase)]
    && w' == w.(writers := w'.writers, caches := w'.caches)
    && var p := w'.writers[wid].phase;
       && p.snap == w.writers[wid].phase.snap && p.ok == w.writers[wid].phase.ok
       && p.ix == Index(chats, embs, incomplete, w.writers[wid].phase.ix.progress)
       && p.covered == covered && p.incomplete == incomplete
  }

  /** The revision follows the covered one of a complete record that the writer could read. */
  predicate NextInLine(snap: Snap, ok: bool, rev: nat) {
    rev == snap.pub.covered + 1 && !snap.pub.incomplete && (snap.pub.obj.Some? ==> ok)
  }

  ghost predicate PushOutcome(w: World, w': World, wid: nat, fails: bool, emb: Emb)
    requires wid in w.writers && w.writers[wid].kind.Push? && w.writers[wid].phase.Loaded?
  {
    var Loaded(snap, ok, ix) := w.writers[wid].phase;
    var Push(id, text, etag, rev) := w.writers[wid].kind;
    var found := Finds(w.src, w.writers[wid].kind, snap, ix);
    var next := NextInLine(snap, ok, rev);
    if if found.gone then id !in ix.chats else fails || found.rewritten || found.newer || found.same
    then Left(w, w', wid)
    else if found.gone
    then Prepares(w, w', wid, ix.chats - {id}, ix.embs - {id}, snap.pub.covered, true)
    else Prepares(w, w', wid, ix.chats[id := Entry(etag, rev, text)], ix.embs[id := emb],
                  if next then rev else snap.pub.covered, !next)
  }

  lemma PushEditIs(cfg: Config, w: World, wid: nat, fails: bool, emb: Emb)
    requires wid in w.writers && w.writers[wid].kind.Push? && w.writers[wid].phase.Loaded?
    ensures
      var Loaded(snap, ok, ix) := w.writers[wid].phase;
      Step(cfg, w, Edit(wid, fails, emb)) == Some(EditPush(w, wid, w.writers[wid], snap, ok, ix, fails, emb))
  {
  }

  lemma PushSettles(w: World, wid: nat, fails: bool, emb: Emb)
    requires wid in w.writers && w.writers[wid].kind.Push? && w.writers[wid].phase.Loaded?
    requires WriterIssued(w.writers[wid], w.src.Rev())
    ensures
      var Loaded(snap, ok, ix) := w.writers[wid].phase;
      PushOutcome(w, EditPush(w, wid, w.writers[wid], snap, ok, ix, fails, emb), wid, fails, emb)
  {
  }

  lemma PushDecides(cfg: Config, w: World, wid: nat, fails: bool, emb: Emb)
    requires AllIssued(w) && wid in w.writers && w.writers[wid].kind.Push? && w.writers[wid].phase.Loaded?
    ensures Step(cfg, w, Edit(wid, fails, emb)).Some?
    ensures PushOutcome(w, Step(cfg, w, Edit(wid, fails, emb)).value, wid, fails, emb)
  {
    PushEditIs(cfg, w, wid, fails, emb);
    PushSettles(w, wid, fails, emb);
  }

  /** In any run a push leaves without publishing exactly when its chat is gone from the source
      and the index, or its update fails, or its row has another etag by now, or the index
      holds a newer or the same generation of it. Otherwise it publishes the chat as pushed,
      as complete exactly when it is next in line; or, if the chat is gone, without it. */
  lemma PushLeavesExactly(cfg: Config, w: World, wid: nat, fails: bool, emb: Emb)
    requires Reachable(cfg, w) && wid in w.writers && w.writers[wid].kind.Push? && w.writers[wid].phase.Loaded?
    ensures Step(cfg, w, Edit(wid, fails, emb)).Some?
    ensures PushOutcome(w, Step(cfg, w, Edit(wid, fails, emb)).value, wid, fails, emb)
  {
    ReachableIssued(cfg, w);
    PushDecides(cfg, w, wid, fails, emb);
  }

  /** Where complete publications are true, a push that leaves without a failure leaves nothing
      behind: a later write has the chat, or its row was re-sealed, or the index holds it. */
  lemma SkippedPushIsHarmless(cfg: Config, w: World, wid: nat)
    requires Sound(cfg) && Inv(cfg, w) && AllIssued(w)
    requires wid in w.writers && w.writers[wid].kind.Push? && w.writers[wid].phase.Loaded?
    requires
      var found := Finds(w.src, w.writers[wid].kind, w.writers[wid].phase.snap, w.writers[wid].phase.ix);
      found.gone || found.rewritten || found.newer || found.same
    ensures
      var Push(id, text, etag, rev) := w.writers[wid].kind;
      var ix := w.writers[wid].phase.ix;
      || Last(w.src, id) > rev
      || (id in w.src.chats && w.src.chats[id].etag != etag)
      || (id in w.src.chats && id in ix.chats && ix.chats[id].text == w.src.chats[id].text == text)
  {
    var wr := w.writers[wid];
    assert WriterOK(cfg, View(w), wid, wr);
    var ix := wr.phase.ix;
    assert Honest(w.src, ix) by {
      var base := if wr.phase.ok then IndexOf(w.objs, wr.phase.snap.pub) else EMPTY;
      assert Honest(w.src, base) && base.chats == ix.chats;
      assert forall x :: Has(w.src, ix, x) == Has(w.src, base, x);
    }
    if Last(w.src, wr.kind.id) <= wr.kind.rev && wr.kind.id in ix.chats {
      assert Has(w.src, ix, wr.kind.id) || ix.chats[wr.kind.id].rev < wr.kind.rev;
    }
  }

  /* ---------- deletes ---------- */

  function DeleteRun(wid: nat, replica: nat, key: KeyId, model: Model, id: ChatId, ok: bool): seq<Action> {
    [ChatDelete(wid, replica, key, model, id)] + Opening(wid, true)
    + ([Edit(wid, false, Embedded(0))] + Publishing(wid, ok))
  }

  ghost predicate DeleteOutcome(w: World, w': World, wid: nat)
    requires wid in w.writers && w.writers[wid].kind.Delete? && w.writers[wid].phase.Loaded?
  {
    var Loaded(snap, ok, ix) := w.writers[wid].phase;
    var Delete(id, rev, _) := w.writers[wid].kind;
    var next := NextInLine(snap, ok, rev);
    if ok && id !in ix.chats then Left(w, w', wid)
    else Prepares(w, w', wid, ix.chats - {id}, ix.embs - {id}, if next then rev else snap.pub.covered, !next)
  }

  /** A delete leaves without publishing exactly when it could read the index and its chat is
      not in it. Otherwise it publishes the index without the chat, as complete exactly when
      it is next in line. */
  lemma DeleteLeavesExactly(cfg: Config, w: World, wid: nat, fails: bool, emb: Emb)
    requires wid in w.writers && w.writers[wid].kind.Delete? && w.writers[wid].phase.Loaded?
    ensures Step(cfg, w, Edit(wid, fails, emb)).Some?
    ensures DeleteOutcome(w, Step(cfg, w, Edit(wid, fails, emb)).value, wid)
  {
  }

  ghost predicate DeleteDone(w: World, w': World, id: ChatId, key: KeyId, model: Model) {
    && w'.src == Deleted(w.src, id) && Level(w') && w'.pub.key == key && w'.pub.model == model
    && PublishedIndex(w').chats == PublishedIndex(w).chats - {id}
    && w'.writers == w.writers && w'.locks == w.locks && w'.currentKey == w.currentKey
  }

  lemma DeleteStarts(cfg: Config, w: World, wid: nat, replica: nat, key: KeyId, model: Model, id: ChatId)
    returns (w1: World)
    requires Fit(cfg, w) && Usable(w, key, model) && Room(cfg, w, wid, replica, key) && id in w.src.chats
    ensures Run(cfg, w, [ChatDelete(wid, replica, key, model, id)] + Opening(wid, true)) == Some(w1)
    ensures Begun(cfg, w, w1, wid, replica, key, model, Delete(id, w.src.Rev() + 1, w.src.Rev() + 1),
                  Deleted(w.src, id))
  {
    w1 := Begins(cfg, w, ChatDelete(wid, replica, key, model, id), Deleted(w.src, id), wid, replica, key, model,
                 Delete(id, w.src.Rev() + 1, 0));
  }

  lemma DeleteFinishes(
    cfg: Config, w: World, w1: World, wid: nat, replica: nat, key: KeyId, model: Model, id: ChatId, ok: bool)
    returns (w': World)
    requires Level(w) && Room(cfg, w, wid, replica, key) && Tidy(cfg) && id in PublishedIndex(w).chats
    requires Begun(cfg, w, w1, wid, replica, key, model, Delete(id, w.src.Rev() + 1, w.src.Rev() + 1),
                   Deleted(w.src, id))
    ensures Run(cfg, w1, [Edit(wid, false, Embedded(0))] + Publishing(wid, ok)) == Some(w')
    ensures DeleteDone(w, w', id, key, model)
  {
    var edited := Without(w1.writers[wid].phase.ix, id).(incomplete := false);
    w' := EditRuns(cfg, w1, wid, false, Embedded(0), edited, w.src.Rev() + 1, false, ok);
    assert w'.writers == w.writers && w'.locks == w.locks;
  }

  /** A delete of an indexed chat that nothing disturbs on a complete and level publication
      ends complete and level, without that chat and with every other entry. */
  lemma DeletePublishes(
    cfg: Config, w: World, wid: nat, replica: nat, key: KeyId, model: Model, id: ChatId, ok: bool) returns (w': World)
    requires Reachable(cfg, w) && Level(w) && Usable(w, key, model) && Room(cfg, w, wid, replica, key) && Tidy(cfg)
    requires id in w.src.chats && id in PublishedIndex(w).chats
    ensures Run(cfg, w, DeleteRun(wid, replica, key, model, id, ok)) == Some(w')
    ensures DeleteDone(w, w', id, key, model)
  {
    ReachableFit(cfg, w);
    var w1 := DeleteStarts(cfg, w, wid, replica, key, model, id);
    w' := DeleteFinishes(cfg, w, w1, wid, replica, key, model, id, ok);
    Joined(cfg, w, [ChatDelete(wid, replica, key, model, id)] + Opening(wid, true), w1,
           [Edit(wid, false, Embedded(0))] + Publishing(wid, ok), w', DeleteRun(wid, replica, key, model, id, ok));
  }

  /* ---------- repairs ---------- */

  function RepairRun(wid: nat, replica: nat, key: KeyId, model: Model, id: ChatId, emb: Emb, ok: bool): seq<Action> {
    [StartRepair(wid, replica, key, model)] + Opening(wid, true)
    + ([Mend(wid, id, emb), Edit(wid, false, emb)] + Publishing(wid, ok))
  }

  /** The repaired chat's semantic side is the new one; nothing else of the publication moved. */
  ghost predicate RepairDone(w: World, w': World, id: ChatId, emb: Emb) {
    && w'.src == w.src && w'.pub.covered == w.pub.covered && w'.pub.incomplete == w.pub.incomplete
    && PublishedIndex(w').chats == PublishedIndex(w).chats
    && PublishedIndex(w').embs == PublishedIndex(w).embs[id := emb]
    && PublishedIndex(w').progress == PublishedIndex(w).progress
    && w'.writers == w.writers && w'.locks == w.locks && w'.currentKey == w.currentKey
  }

  lemma RepairStarts(cfg: Config, w: World, wid: nat, replica: nat, key: KeyId, model: Model)
    returns (w1: World)
    requires Fit(cfg, w) && Usable(w, key, model) && Room(cfg, w, wid, replica, key)
    ensures Run(cfg, w, [StartRepair(wid, replica, key, model)] + Opening(wid, true)) == Some(w1)
    ensures Begun(cfg, w, w1, wid, replica, key, model, Repair, w.src)
  {
    w1 := Begins(cfg, w, StartRepair(wid, replica, key, model), w.src, wid, replica, key, model, Repair);
  }

  /** The index with one entry mended, in the writer's hands and in the cache. */
  function Mended(w: World, wid: nat, id: ChatId, emb: Emb): World
    requires wid in w.writers && w.writers[wid].phase.Loaded?
  {
    var wr := w.writers[wid];
    var mended := wr.phase.ix.(embs := wr.phase.ix.embs[id := emb]);
    Edited(w, wid, wr, wr.phase.snap.pub, wr.phase.ok, mended, Mending(wr.phase.snap, wr.phase.ok, mended))
  }

  lemma MendRuns(cfg: Config, w: World, wid: nat, id: ChatId, emb: Emb) returns (w': World)
    requires wid in w.writers && w.writers[wid].kind.Repair? && w.writers[wid].phase.Loaded?
    requires
      var Loaded(_, got, ix) := w.writers[wid].phase;
      && got && id in ix.chats && id in ix.embs && ix.embs[id].Waiting? && emb != ix.embs[id] && emb != Waiting(NO_KEY)
    ensures Run(cfg, w, [Mend(wid, id, emb), Edit(wid, false, emb)]) == Some(w')
    ensures
      var Loaded(snap, got, ix) := w.writers[wid].phase;
      && wid in w'.writers && w'.writers == w.writers[wid := w'.writers[wid]]
      && w'.writers[wid] == w.writers[wid].(phase := Prepared(snap, true, ix.(embs := ix.embs[id := emb]),
                                                              snap.pub.covered, snap.pub.incomplete || ix.incomplete))
      && w' == w.(writers := w'.writers, caches := w'.caches)
  {
    var w1 := Mended(w, wid, id, emb);
    assert Step(cfg, w, Mend(wid, id, emb)) == Some(w1);
    OneStep(cfg, w, Mend(wid, id, emb));
    ThenStep(cfg, w, [Mend(wid, id, emb)], Edit(wid, false, emb));
    assert [Mend(wid, id, emb)] + [Edit(wid, false, emb)] == [Mend(wid, id, emb), Edit(wid, false, emb)];
    w' := Step(cfg, w1, Edit(wid, false, emb)).value;
    Reassigned(w.writers, wid, w1.writers[wid], w'.writers[wid]);
  }

  /** Publishing what is prepared on the record as it stands. */
  lemma PreparedRuns(cfg: Config, w: World, wid: nat, ok: bool) returns (w': World)
    requires MaySend(w, wid) && !w.writers[wid].kind.Rebuild? && w.writers[wid].phase.snap.pub == w.pub
    ensures Run(cfg, w, Publishing(wid, ok)) == Some(w')
    ensures
      var wr := w.writers[wid];
      && PublishedIndex(w') == wr.phase.ix && w'.src == w.src && w'.currentKey == w.currentKey
      && w'.pub == Publication(w.pub.gen + 1, w.pub.fence, wr.phase.covered, Some(w.nextObj), wr.key, wr.model,
                               wr.phase.incomplete)
      && w'.writers == w.writers - {wid} && w'.locks == w.locks - {wr.replica}
  {
    PublishingRuns(cfg, w, wid, ok);
    w' := Leaving(Sent(w, wid, ok), wid);
  }

  lemma RepairFinishes(
    cfg: Config, w: World, w1: World, wid: nat, replica: nat, key: KeyId, model: Model, id: ChatId, emb: Emb, ok: bool)
    returns (w': World)
    requires Room(cfg, w, wid, replica, key) && Tidy(cfg) && cfg.mended && w.pub.obj.Some?
    requires w.pub.covered <= w.src.Rev() && PublishedIndex(w).incomplete == w.pub.incomplete
    requires Begun(cfg, w, w1, wid, replica, key, model, Repair, w.src)
    requires id in PublishedIndex(w).chats && id in PublishedIndex(w).embs && PublishedIndex(w).embs[id].Waiting?
    requires emb != PublishedIndex(w).embs[id] && emb != Waiting(NO_KEY)
    ensures Run(cfg, w1, [Mend(wid, id, emb), Edit(wid, false, emb)] + Publishing(wid, ok)) == Some(w')
    ensures RepairDone(w, w', id, emb)
  {
    var w2 := MendRuns(cfg, w1, wid, id, emb);
    w' := PreparedRuns(cfg, w2, wid, ok);
    Joined(cfg, w1, [Mend(wid, id, emb), Edit(wid, false, emb)], w2, Publishing(wid, ok), w',
           [Mend(wid, id, emb), Edit(wid, false, emb)] + Publishing(wid, ok));
    assert w'.writers == w.writers && w'.locks == w.locks;
  }

  /** A repair of a waiting entry that nothing disturbs publishes the new semantic side, with the
      same entries under the same coverage and flag. */
  lemma RepairPublishes(
    cfg: Config, w: World, wid: nat, replica: nat, key: KeyId, model: Model, id: ChatId, emb: Emb, ok: bool)
    returns (w': World)
    requires Reachable(cfg, w) && Usable(w, key, model) && Room(cfg, w, wid, replica, key) && Tidy(cfg) && cfg.mended
    requires w.pub.obj.Some?
    requires id in PublishedIndex(w).chats && id in PublishedIndex(w).embs && PublishedIndex(w).embs[id].Waiting?
    requires emb != PublishedIndex(w).embs[id] && emb != Waiting(NO_KEY)
    ensures Run(cfg, w, RepairRun(wid, replica, key, model, id, emb, ok)) == Some(w')
    ensures RepairDone(w, w', id, emb)
  {
    ReachableFit(cfg, w);
    var w1 := RepairStarts(cfg, w, wid, replica, key, model);
    w' := RepairFinishes(cfg, w, w1, wid, replica, key, model, id, emb, ok);
    Joined(cfg, w, [StartRepair(wid, replica, key, model)] + Opening(wid, true), w1,
           [Mend(wid, id, emb), Edit(wid, false, emb)] + Publishing(wid, ok), w',
           RepairRun(wid, replica, key, model, id, emb, ok));
  }

  /* ---------- resets, refused and unanswered calls ---------- */

  lemma ResetGoes(cfg: Config, w: World, wid: nat, key: KeyId) returns (w': World)
    requires wid !in w.writers && key != NO_KEY && (0 in w.locks ==> w.locks[0] != wid)
    ensures Run(cfg, w, [StartReset(wid), Fence(wid, key), Clean(wid, true)]) == Some(w')
    ensures w'.pub == Publication(w.pub.gen + 1, w.pub.fence + 1, 0, None, NO_KEY, NO_KEY, true)
    ensures w' == w.(pub := w'.pub, currentKey := key,
                     bucket := if w.pub.obj.Some? then w.bucket - {w.pub.obj.value} else w.bucket)
  {
    var wr := Writer(Reset(w.pub.obj), 0, NO_KEY, NO_KEY, Ready);
    var w1 := w.(writers := w.writers[wid := wr]);
    assert Step(cfg, w, StartReset(wid)) == Some(w1);
    var w2 := w.(pub := Fenced(w.pub), currentKey := key,
                 writers := w.writers[wid := wr.(phase := Cleaning(w.pub.obj, Stop))]);
    Reassigned(w.writers, wid, wr, w2.writers[wid]);
    assert Step(cfg, w1, Fence(wid, key)) == Some(w2);
    ThreeSteps(cfg, w, StartReset(wid), Fence(wid, key), Clean(wid, true));
    w' := Step(cfg, w2, Clean(wid, true)).value;
    assert w.writers[wid := w2.writers[wid]] - {wid} == w.writers;
  }

  /** A key change that nothing disturbs leaves no publication: no object, nothing covered,
      incomplete, under a new fence; the old object is gone from the bucket. */
  lemma ResetClears(cfg: Config, w: World, wid: nat, key: KeyId) returns (w': World)
    requires Reachable(cfg, w) && wid !in w.writers && key != NO_KEY
    ensures Run(cfg, w, [StartReset(wid), Fence(wid, key), Clean(wid, true)]) == Some(w')
    ensures w'.pub == Publication(w.pub.gen + 1, w.pub.fence + 1, 0, None, NO_KEY, NO_KEY, true)
    ensures w' == w.(pub := w'.pub, currentKey := key,
                     bucket := if w.pub.obj.Some? then w.bucket - {w.pub.obj.value} else w.bucket)
  {
    ReachableHeld(cfg, w);
    w' := ResetGoes(cfg, w, wid, key);
  }

  /** A publish call the controlplane would accept: nothing was published or fenced since the
      record was read, coverage does not go down, nothing not yet written is claimed, and the
      key is current. */
  predicate InTime(w: World, wid: nat)
    requires wid in w.writers && w.writers[wid].phase.Sending?
  {
    var Sending(snap, ok, ix, covered, incomplete, obj) := w.writers[wid].phase;
    && w.pub.gen == snap.pub.gen && w.pub.fence == snap.pub.fence && w.pub.covered <= covered <= w.src.Rev()
    && (w.currentKey == NO_KEY || w.currentKey == w.writers[wid].key)
  }

  /** A refused call removes the object it stored and its replica's cache, and the writer reads
      the record again under its lock. */
  lemma RefusedTriesAgain(cfg: Config, w: World, wid: nat)
    requires wid in w.writers && w.writers[wid].phase.Sending? && !InTime(w, wid)
    ensures
      var wr := w.writers[wid];
      Run(cfg, w, [Send(wid, Answered), Clean(wid, true)]) ==
      Some(w.(writers := w.writers[wid := wr.(phase := Inside)], bucket := w.bucket - {wr.phase.obj},
              tried := w.tried + {wr.phase.obj}, caches := w.caches - {wr.replica}))
  {
    var wr := w.writers[wid];
    var w1 := w.(writers := w.writers[wid := wr.(phase := Cleaning(Some(wr.phase.obj), Again))],
                 tried := w.tried + {wr.phase.obj}, caches := w.caches - {wr.replica});
    assert Step(cfg, w, Send(wid, Answered)) == Some(w1);
    OneStep(cfg, w, Send(wid, Answered));
    ThenStep(cfg, w, [Send(wid, Answered)], Clean(wid, true));
    assert [Send(wid, Answered)] + [Clean(wid, true)] == [Send(wid, Answered), Clean(wid, true)];
    Reassigned(w.writers, wid, w1.writers[wid], wr.(phase := Inside));
  }

  /** After a lost answer: the publication stands exactly when the call arrived in time. Then the
      superseded object goes and the writer moves on as if answered; else its own object goes
      and it gives up. */
  lemma UnansweredSettles(cfg: Config, w: World, wid: nat, reply: Reply) returns (w': World)
    requires wid in w.writers && w.writers[wid].phase.Sending? && !reply.Answered?
    requires w.pub.obj != Some(w.writers[wid].phase.obj)
    ensures Run(cfg, w, [Send(wid, reply), Reconcile(wid)]) == Some(w')
    ensures
      var wr := w.writers[wid];
      var Sending(snap, ok, ix, covered, incomplete, obj) := wr.phase;
      var stands := reply.Lost? && InTime(w, wid);
      && w'.pub == (if stands
                    then Publication(w.pub.gen + 1, w.pub.fence, covered, Some(obj), wr.key, wr.model, incomplete)
                    else w.pub)
      && w'.writers == w.writers[wid := wr.(phase :=
          if stands then Cleaning(snap.pub.obj, if wr.kind.Rebuild? then Advance else Stop)
          else Cleaning(Some(obj), Stop))]
      && w'.bucket == w.bucket && w'.objs == w.objs && w'.src == w.src && w'.caches == w.caches - {wr.replica}
  {
    var wr := w.writers[wid];
    var w1 := Step(cfg, w, Send(wid, reply)).value;
    OneStep(cfg, w, Send(wid, reply));
    ThenStep(cfg, w, [Send(wid, reply)], Reconcile(wid));
    assert [Send(wid, reply)] + [Reconcile(wid)] == [Send(wid, reply), Reconcile(wid)];
    w' := Step(cfg, w1, Reconcile(wid)).value;
    Reassigned(w.writers, wid, w1.writers[wid], w'.writers[wid]);
  }
}
