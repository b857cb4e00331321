/** The search-index publication protocol for one user, as steps over the chat source,
    the publication record, the bucket of immutable index objects, each replica's cache
    and lock, and the program counters of any number of writers.

    A writer is one execution of an inline push, a delete cleanup, a rebuild job, an
    embedding repair or a key-change reset. Every remote call is a step of its own, so
    chat writes and other writers run between any two of them. Nondeterminism (lost
    answers, failed reads, page sizes) is carried by the action that takes the step. */
module Protocol {
  import opened Prelude
  import opened Controlplane

  /** An index entry: which version of the chat it was built from. Its tokens are determined
      by `text`. */
  datatype Entry = Entry(etag: nat, rev: nat, text: Text)

  /** An entry's semantic side: embedded, or waiting for the key that can repair it. */
  datatype Emb = Embedded(vectors: int) | Waiting(key: KeyId)

  datatype Progress = Progress(cursor: Position, target: nat, startedAt: int)

  /** `embs` holds the semantic side of the entries of `chats`; repairs edit only it. */
  datatype Index = Index(chats: map<ChatId, Entry>, embs: map<ChatId, Emb>, incomplete: bool,
      progress: Option<Progress>)

  const EMPTY := Index(map[], map[], false, None)

  function Put(ix: Index, id: ChatId, e: Entry, emb: Emb): Index {
    ix.(chats := ix.chats[id := e], embs := ix.embs[id := emb])
  }

  function Without(ix: Index, id: ChatId): Index {
    ix.(chats := ix.chats - {id}, embs := ix.embs - {id})
  }

  datatype Stored = Stored(ix: Index, key: KeyId, model: Model, owner: nat)

  datatype Cached = Cached(obj: ObjectKey, key: KeyId, ix: Index)

  /** Whether an existing entry is a strictly newer generation than a candidate. */
  predicate Supersedes(existing: Entry, etag: nat, rev: nat) {
    if existing.rev > 0 && rev > 0 then existing.rev > rev else existing.etag > etag
  }

  datatype Item = Item(etag: nat, text: Text)

  /** One page of a rebuild: the listed ids not yet fetched, what was fetched, the fetches
      that failed, and the failures of the last attempt to merge it. */
  datatype Pull = NoPull | Pull(next: Option<Position>, waiting: set<ChatId>, items: map<ChatId, Item>,
      failed: nat, bad: nat)

  datatype Kind =
    | Push(id: ChatId, text: Text, etag: nat, rev: nat)
    | Delete(id: ChatId, rev: nat, checkedAt: nat)
    | Rebuild(target: nat, startedAt: int, cursor: Option<Position>, failure: bool, pull: Pull)
    | Repair
    | Reset(previous: Option<ObjectKey>)

  /** The publication state as one read of the controlplane returned it. */
  datatype Snap = Snap(pub: Publication, src: nat)

  datatype Then = Again | Stop | Advance

  datatype Phase =
    | Ready
    | Starting(snap: Snap)
    | Inside
    | Read(snap: Snap)
    | Loaded(snap: Snap, ok: bool, ix: Index)
    | Mending(snap: Snap, ok: bool, ix: Index)
    | Paging(snap: Snap, ok: bool, ix: Index, todo: set<ChatId>, bad: nat, start: Index)
    | Prepared(snap: Snap, ok: bool, ix: Index, covered: nat, incomplete: bool)
    | Sending(snap: Snap, ok: bool, ix: Index, covered: nat, incomplete: bool, obj: ObjectKey)
    | Unsure(snap: Snap, obj: ObjectKey)
    | Cleaning(orphan: Option<ObjectKey>, next: Then)

  datatype Writer = Writer(kind: Kind, replica: nat, key: KeyId, model: Model, phase: Phase)

  datatype World = World(
    src: Source, pub: Publication, currentKey: KeyId,
    objs: map<ObjectKey, Stored>,   // every object ever stored
    bucket: set<ObjectKey>,         // those the bucket still holds
    tried: set<ObjectKey>,          // those whose publish call has been decided
    nextObj: ObjectKey,
    caches: map<nat, Cached>, locks: map<nat, nat>, writers: map<nat, Writer>)

  const INITIAL := World(EMPTY_SOURCE, NEVER_PUBLISHED, NO_KEY, map[], {}, {}, 0, map[], map[], map[])

  /** What a deployment rules out. `missZero`: deleting an absent chat answers revision 0.
      `rebuild`: rebuild jobs run. `oneReplica`: all writers share one per-user lock.
      `quiet`: no re-seal of a row between a page's fetch and its merge. `guarded`: no
      first page merges over an unreadable object that a complete publication newer than
      the page's target names. `carried`: a page that edited its index goes on to publish.
      `mended`: a repair that edited its index goes on to publish. */
  datatype Config =
    Config(missZero: bool, rebuild: bool, oneReplica: bool, quiet: bool, guarded: bool, carried: bool, mended: bool)

  datatype Reply = Answered | Lost | NotSent

  datatype Action =
    | ChatPush(wid: nat, replica: nat, key: KeyId, model: Model, id: ChatId, text: Text, ts: nat)
    | ChatDelete(wid: nat, replica: nat, key: KeyId, model: Model, id: ChatId)
    | Wipe(id: ChatId)
    | RewrapRow(id: ChatId)
    | RegisterFirst(key: KeyId)
    | StartReset(wid: nat)
    | Fence(wid: nat, key: KeyId)
    | StartRebuild(wid: nat, replica: nat, key: KeyId, model: Model, startedAt: int)
    | Checkpoint(wid: nat, readable: bool)
    | StartRepair(wid: nat, replica: nat, key: KeyId, model: Model)
    | List(wid: nat, next: Option<Position>)
    | Fetch(wid: nat, id: ChatId, ok: bool, rewrap: bool)
    | Enter(wid: nat)
    | ReadPub(wid: nat)
    | Load(wid: nat, readable: bool)
    | Mend(wid: nat, id: ChatId, emb: Emb)
    | Edit(wid: nat, fails: bool, emb: Emb)
    | Begin(wid: nat, undated: set<ChatId>)
    | Merge(wid: nat, id: ChatId, fails: bool, emb: Emb)
    | End(wid: nat)
    | Save(wid: nat, stored: bool, landed: bool)
    | Send(wid: nat, reply: Reply)
    | Reconcile(wid: nat)
    | Clean(wid: nat, ok: bool)
    | Quit(wid: nat)
    | Crash(replica: nat)
    | Evict(replica: nat)

  /* ---------- building blocks ---------- */

  function IndexOf(objs: map<ObjectKey, Stored>, pub: Publication): Index {
    if pub.obj.Some? && pub.obj.value in objs then objs[pub.obj.value].ix else EMPTY
  }

  function SetWriter(w: World, wid: nat, wr: Writer): World {
    w.(writers := w.writers[wid := wr])
  }

  function Unlock(w: World, replica: nat, wid: nat): World {
    if replica in w.locks && w.locks[replica] == wid then w.(locks := w.locks - {replica}) else w
  }

  function Finish(w: World, wid: nat): World {
    if wid in w.writers then
      Unlock(w, w.writers[wid].replica, wid).(writers := w.writers - {wid})
    else w
  }

  function DropCache(w: World, replica: nat): World {
    w.(caches := w.caches - {replica})
  }

  /** The writer's loaded index is the one its replica caches. */
  predicate Shares(caches: map<nat, Cached>, wr: Writer, pub: Publication, ok: bool) {
    ok && wr.replica in caches && pub.obj == Some(caches[wr.replica].obj) && caches[wr.replica].key == wr.key
  }

  /** Edits of a loaded index reach the cache too: the cache hands out the object that
      writers change. */
  function Aliased(caches: map<nat, Cached>, wr: Writer, pub: Publication, ok: bool, ix: Index): map<nat, Cached> {
    if Shares(caches, wr, pub, ok)
    then caches[wr.replica := caches[wr.replica].(ix := ix)]
    else caches
  }

  /** Writer `wid` has edited its index to `ix` and moves to `phase`. */
  function Edited(w: World, wid: nat, wr: Writer, pub: Publication, ok: bool, ix: Index, phase: Phase): World {
    SetWriter(w, wid, wr.(phase := phase)).(caches := Aliased(w.caches, wr, pub, ok, ix))
  }

  predicate MayStart(cfg: Config, w: World, wid: nat, replica: nat, key: KeyId) {
    wid !in w.writers && key != NO_KEY && (cfg.oneReplica ==> replica == 0)
  }

  /** A rebuild has fetched `id` and not yet moved on from that page. */
  predicate PulledBy(w: World, wid: nat, id: ChatId) {
    wid in w.writers && w.writers[wid].kind.Rebuild? && w.writers[wid].kind.pull.Pull? &&
        id in w.writers[wid].kind.pull.items
  }

  predicate MayRewrap(cfg: Config, w: World, id: ChatId) {
    id in w.src.chats && (cfg.quiet ==> forall wid | wid in w.writers :: !PulledBy(w, wid, id))
  }

  /* ---------- loading ---------- */

  /** The object a writer may read: the published one, if it is sealed under the writer's
      key and built for its model. */
  function Wanted(pub: Publication, wr: Writer): Option<ObjectKey> {
    if pub.obj.Some? && pub.key == wr.key && pub.model == wr.model then pub.obj else None
  }

  predicate Hit(w: World, wr: Writer, obj: ObjectKey) {
    wr.replica in w.caches && w.caches[wr.replica].obj == obj && w.caches[wr.replica].key == wr.key
  }

  /** None when the object cannot be used; the index and the refreshed caches otherwise. */
  function LoadIndex(w: World, pub: Publication, wr: Writer, readable: bool): Option<(Index, map<nat, Cached>)> {
    var want := Wanted(pub, wr);
    if want.None? || want.value !in w.objs || !readable then None
    else
      var stored := w.objs[want.value];
      if stored.key != wr.key || stored.model != wr.model then None
      else if Hit(w, wr, want.value) then Some((w.caches[wr.replica].ix, w.caches))
      else if want.value in w.bucket
      then Some((stored.ix, w.caches[wr.replica := Cached(want.value, wr.key, stored.ix)]))
      else None
  }

  /* ---------- the chat side ---------- */

  function DoPush(cfg: Config, w: World, a: Action): Option<World>
    requires a.ChatPush?
  {
    if !MayStart(cfg, w, a.wid, a.replica, a.key) then None else
    var src := Pushed(w.src, a.id, a.text, a.ts);
    Some(SetWriter(w.(src := src), a.wid,
                   Writer(Push(a.id, a.text, NextETag(w.src, a.id), src.Rev()), a.replica, a.key, a.model, Ready)))
  }

  function DoDelete(cfg: Config, w: World, a: Action): Option<World>
    requires a.ChatDelete?
  {
    if !MayStart(cfg, w, a.wid, a.replica, a.key) then None else
    var src := if a.id in w.src.chats then Deleted(w.src, a.id) else w.src;
    var rev := if a.id !in w.src.chats && cfg.missZero then 0 else src.Rev();
    Some(SetWriter(w.(src := src), a.wid, Writer(Delete(a.id, rev, 0), a.replica, a.key, a.model, Ready)))
  }

  function DoFence(w: World, a: Action): Option<World>
    requires a.Fence?
  {
    if a.wid !in w.writers || !w.writers[a.wid].kind.Reset? || !w.writers[a.wid].phase.Ready? ||
       a.key == NO_KEY then None else
    var wr := w.writers[a.wid];
    Some(SetWriter(w.(pub := Fenced(w.pub), currentKey := a.key), a.wid,
        wr.(phase := Cleaning(wr.kind.previous, Stop))))
  }

  /* ---------- rebuild jobs, outside the lock ---------- */

  function DoStartRebuild(cfg: Config, w: World, a: Action): Option<World>
    requires a.StartRebuild?
  {
    if !cfg.rebuild || !MayStart(cfg, w, a.wid, a.replica, a.key) || w.src.Rev() == 0 then None else
    Some(SetWriter(w, a.wid, Writer(Rebuild(w.src.Rev(), a.startedAt, None, false, NoPull), a.replica, a.key, a.model,
                                    Starting(Snap(w.pub, w.src.Rev())))))
  }

  /** Resume from the checkpoint of a partial index, if the published object carries one
      for the covered revision. */
  function DoCheckpoint(w: World, a: Action): Option<World>
    requires a.Checkpoint?
  {
    if a.wid !in w.writers || !w.writers[a.wid].phase.Starting? || w.writers[a.wid].replica in w.locks then None else
    var wr := w.writers[a.wid];
    if !wr.kind.Rebuild? then None else
    var pub := wr.phase.snap.pub;
    var loaded := if pub.incomplete then LoadIndex(w, pub, wr, a.readable) else None;
    var anew := SetWriter(w, a.wid, wr.(phase := Ready));
    if loaded.None? then Some(anew) else
    var (ix, caches) := loaded.value;
    if ix.progress.None? || !ix.incomplete || pub.covered != ix.progress.value.target then
      Some(anew.(caches := caches)) else
    var p := ix.progress.value;
    var kind := wr.kind.(target := p.target, startedAt := p.startedAt, cursor := Some(p.cursor));
    Some(SetWriter(w, a.wid, wr.(kind := kind, phase := Ready))
         .(caches := caches))
  }

  ghost function DoList(w: World, a: Action): Option<World>
    requires a.List?
  {
    if a.wid !in w.writers || !w.writers[a.wid].phase.Ready? || !w.writers[a.wid].kind.Rebuild? ||
       !w.writers[a.wid].kind.pull.NoPull? then None else
    var wr := w.writers[a.wid];
    var pull := Pull(a.next, PageIds(w.src, wr.kind.cursor, a.next), map[], 0, 0);
    Some(SetWriter(w, a.wid, wr.(kind := wr.kind.(pull := pull))))
  }

  /** Fetch one listed row; a legacy row may be re-sealed on the way. */
  function DoFetch(cfg: Config, w: World, a: Action): Option<World>
    requires a.Fetch?
  {
    if a.wid !in w.writers || !w.writers[a.wid].phase.Ready? || !w.writers[a.wid].kind.Rebuild? ||
       !w.writers[a.wid].kind.pull.Pull? || a.id !in w.writers[a.wid].kind.pull.waiting then None else
    var wr := w.writers[a.wid];
    var pull := wr.kind.pull.(waiting := wr.kind.pull.waiting - {a.id});
    if !a.ok || a.id !in w.src.chats then
      Some(SetWriter(w, a.wid, wr.(kind := wr.kind.(pull := pull.(failed := pull.failed + 1)))))
    else if a.rewrap && !MayRewrap(cfg, w, a.id) then None
    else
      var src := if a.rewrap then Rewrapped(w.src, a.id) else w.src;
      var item := Item(src.chats[a.id].etag, src.chats[a.id].text);
      Some(SetWriter(w.(src := src), a.wid, wr.(kind := wr.kind.(pull := pull.(items := pull.items[a.id := item])))))
  }

  /* ---------- under the lock ---------- */

  /** Take the per-user lock. A delete first looks for the row and leaves if it is back. */
  function DoEnter(w: World, a: Action): Option<World>
    requires a.Enter?
  {
    if a.wid !in w.writers || !w.writers[a.wid].phase.Ready? || w.writers[a.wid].replica in w.locks then None else
    var wr := w.writers[a.wid];
    var inside := wr.(phase := Inside);
    match wr.kind
    case Reset(_) => None
    case Delete(id, rev, _) =>
      if id in w.src.chats then Some(Finish(w, a.wid))
      else
        Some(SetWriter(w, a.wid, inside.(kind := Delete(id, rev, w.src.Rev())))
             .(locks := w.locks[wr.replica := a.wid]))
    case Rebuild(_, _, _, _, pull) =>
      if pull.Pull? && pull.waiting == {}
      then Some(SetWriter(w, a.wid, inside).(locks := w.locks[wr.replica := a.wid]))
      else None
    case _ => Some(SetWriter(w, a.wid, inside).(locks := w.locks[wr.replica := a.wid]))
  }

  function DoReadPub(w: World, a: Action): Option<World>
    requires a.ReadPub?
  {
    if a.wid !in w.writers || !w.writers[a.wid].phase.Inside? then None else
    Some(SetWriter(w, a.wid, w.writers[a.wid].(phase := Read(Snap(w.pub, w.src.Rev())))))
  }

  function DoLoad(w: World, a: Action): Option<World>
    requires a.Load?
  {
    if a.wid !in w.writers || !w.writers[a.wid].phase.Read? then None else
    var wr := w.writers[a.wid];
    var snap := wr.phase.snap;
    var loaded := LoadIndex(w, snap.pub, wr, a.readable);
    if loaded.None? then Some(SetWriter(w, a.wid, wr.(phase := Loaded(snap, false, EMPTY)))) else
    var (ix, caches) := loaded.value;
    Some(SetWriter(w, a.wid, wr.(phase := Loaded(snap, true, ix))).(caches := caches))
  }

  predicate CanAdvance(snap: Snap, ok: bool, rev: nat) {
    rev == snap.pub.covered + 1 && !snap.pub.incomplete && (snap.pub.obj.None? || ok)
  }

  function Prepare(
    w: World, wid: nat, wr: Writer, snap: Snap, ok: bool, ix: Index, covered: nat, incomplete: bool): World {
    Edited(w, wid, wr, snap.pub, ok, ix, Prepared(snap, ok, ix, covered, incomplete))
  }

  /** The pushed chat may be gone or newer by now, unless nothing was written since. */
  predicate NoLaterWrite(snap: Snap, rev: nat) {
    rev > 0 && snap.src == rev
  }

  /** The push has nothing to publish: its chat is gone from the index too, was written
      again, or is indexed as new already; or the update fails. */
  predicate PushSkips(w: World, wr: Writer, snap: Snap, ix: Index, fails: bool)
    requires wr.kind.Push?
  {
    var Push(id, text, etag, rev) := wr.kind;
    if !NoLaterWrite(snap, rev) && id !in w.src.chats then id !in ix.chats
    else
      || (!NoLaterWrite(snap, rev) && w.src.chats[id].etag != etag)
      || (id in ix.chats && Supersedes(ix.chats[id], etag, rev))
      || (id in ix.chats && ix.chats[id].rev == rev && ix.chats[id].etag == etag)
      || fails
  }

  /** The push hook, then the merge of the pushed chat. */
  function EditPush(w: World, wid: nat, wr: Writer, snap: Snap, ok: bool, ix: Index, fails: bool, emb: Emb): World
    requires wr.kind.Push?
  {
    var Push(id, text, etag, rev) := wr.kind;
    if PushSkips(w, wr, snap, ix, fails) then Finish(w, wid)
    else if !NoLaterWrite(snap, rev) && id !in w.src.chats then
      Prepare(w, wid, wr, snap, ok, Without(ix, id).(incomplete := true), snap.pub.covered, true)
    else
      var advance := CanAdvance(snap, ok, rev);
      Prepare(w, wid, wr, snap, ok, Put(ix, id, Entry(etag, rev, text), emb).(incomplete := !advance),
              if advance then rev else snap.pub.covered, !advance)
  }

  function EditDelete(w: World, wid: nat, wr: Writer, snap: Snap, ok: bool, ix: Index): World
    requires wr.kind.Delete?
  {
    var Delete(id, rev, _) := wr.kind;
    if id !in ix.chats && ok then Finish(w, wid)
    else
      var advance := CanAdvance(snap, ok, rev);
      Prepare(w, wid, wr, snap, ok, Without(ix, id).(incomplete := !advance),
              if advance then rev else snap.pub.covered, !advance)
  }

  /** A repair replaces the semantic side of one waiting entry, in the loaded index itself:
      with vectors, or with the other key it turns out to wait for. */
  function DoMend(w: World, a: Action): Option<World>
    requires a.Mend?
  {
    if a.wid !in w.writers || !w.writers[a.wid].kind.Repair? ||
       !(w.writers[a.wid].phase.Loaded? || w.writers[a.wid].phase.Mending?) then None else
    var wr := w.writers[a.wid];
    var snap, ok, ix := wr.phase.snap, wr.phase.ok, wr.phase.ix;
    if !ok || a.id !in ix.chats || a.id !in ix.embs || !ix.embs[a.id].Waiting? ||
       a.emb == ix.embs[a.id] || a.emb == Waiting(NO_KEY) then None else
    var mended := ix.(embs := ix.embs[a.id := a.emb]);
    Some(Edited(w, a.wid, wr, snap.pub, ok, mended, Mending(snap, ok, mended)))
  }

  /** A repair that mended something publishes the same entries under the same coverage. */
  function EditRepair(w: World, wid: nat, wr: Writer, snap: Snap, ok: bool, ix: Index): World {
    Prepare(w, wid, wr, snap, ok, ix, snap.pub.covered, snap.pub.incomplete || ix.incomplete)
  }

  function DoEdit(w: World, a: Action): Option<World>
    requires a.Edit?
  {
    if a.wid !in w.writers || !(w.writers[a.wid].phase.Loaded? || w.writers[a.wid].phase.Mending?) then None else
    var wr := w.writers[a.wid];
    var snap, ok, ix := wr.phase.snap, wr.phase.ok, wr.phase.ix;
    match wr.kind
    case Push(_, _, _, _) =>
      if wr.phase.Loaded? then Some(EditPush(w, a.wid, wr, snap, ok, ix, a.fails, a.emb)) else None
    case Delete(_, _, _) => if wr.phase.Loaded? then Some(EditDelete(w, a.wid, wr, snap, ok, ix)) else None
    case Repair => if wr.phase.Loaded? then Some(Finish(w, a.wid)) else Some(EditRepair(w, a.wid, wr, snap, ok, ix))
    case _ => None
  }

  /* ---------- merging one rebuild page ---------- */

  /** The first page drops what the rebuild will replace: entries stamped at or before the
      target. Unstamped entries go by their timestamp, so any of them may go. */
  function Swept(ix: Index, target: nat, undated: set<ChatId>): Index {
    var stale := set x | x in ix.chats && (0 < ix.chats[x].rev <= target || (ix.chats[x].rev == 0 && x in undated));
    ix.(chats := ix.chats - stale, embs := ix.embs - stale)
  }

  /** The job continues outside the lock, from `cursor`. */
  function NextPage(w: World, wid: nat, wr: Writer, kind: Kind): World {
    SetWriter(Unlock(w, wr.replica, wid), wid, wr.(kind := kind, phase := Ready))
  }

  function DoBegin(cfg: Config, w: World, a: Action): Option<World>
    requires a.Begin?
  {
    if a.wid !in w.writers || !w.writers[a.wid].phase.Loaded? || !w.writers[a.wid].kind.Rebuild? ||
       !w.writers[a.wid].kind.pull.Pull? then None else
    var wr := w.writers[a.wid];
    var Loaded(snap, ok, ix) := wr.phase;
    var Rebuild(target, startedAt, cursor, failure, pull) := wr.kind;
    var mine := if cursor.Some? then Some(Progress(cursor.value, target, startedAt)) else None;
    if ix.progress.Some? && ix.progress != mine then
      var p := ix.progress.value;
      Some(NextPage(w, a.wid, wr, Rebuild(p.target, p.startedAt, Some(p.cursor), failure, NoPull)))
    else if ix.progress.None? && cursor.Some? then Some(Finish(w, a.wid))
    else if cfg.guarded && !ok && snap.pub.covered > target && !snap.pub.incomplete then None
    else
      var swept := if cursor.None? then Swept(ix, target, a.undated) else ix;
      Some(Edited(w, a.wid, wr, snap.pub, ok, swept, Paging(snap, ok, swept, pull.items.Keys, pull.failed, ix)))
  }

  /** One fetched row: check that it is still what was fetched, then merge it. */
  function MergeItem(src: Source, ix: Index, id: ChatId, item: Item, target: nat, fails: bool, emb: Emb): (Index, nat) {
    if id !in src.chats then (Without(ix, id), 0)
    else if src.chats[id].etag != item.etag then (ix, 0)
    else if id in ix.chats && Supersedes(ix.chats[id], item.etag, target) then (ix, 0)
    else if fails then (ix, 1)
    else (Put(ix, id, Entry(item.etag, target, item.text), emb), 0)
  }

  function DoMerge(w: World, a: Action): Option<World>
    requires a.Merge?
  {
    if a.wid !in w.writers || !w.writers[a.wid].phase.Paging? || !w.writers[a.wid].kind.Rebuild? ||
       !w.writers[a.wid].kind.pull.Pull? || a.id !in w.writers[a.wid].phase.todo ||
       a.id !in w.writers[a.wid].kind.pull.items then None else
    var wr := w.writers[a.wid];
    var Paging(snap, ok, ix, todo, bad, start) := wr.phase;
    var (merged, failed) := MergeItem(w.src, ix, a.id, wr.kind.pull.items[a.id], wr.kind.target, a.fails, a.emb);
    Some(Edited(w, a.wid, wr, snap.pub, ok, merged, Paging(snap, ok, merged, todo - {a.id}, bad + failed, start)))
  }

  predicate PageIncomplete(snap: Snap, ok: bool, kind: Kind, bad: nat)
    requires kind.Rebuild? && kind.pull.Pull?
  {
    || kind.pull.next.Some? || kind.failure || bad > 0
    || (!ok && kind.cursor.Some?)
    || (snap.pub.covered > kind.target && snap.pub.incomplete)
  }

  function DoEnd(w: World, a: Action): Option<World>
    requires a.End?
  {
    if a.wid !in w.writers || !w.writers[a.wid].phase.Paging? || !w.writers[a.wid].kind.Rebuild? ||
       !w.writers[a.wid].kind.pull.Pull? || w.writers[a.wid].phase.todo != {} then None else
    var wr := w.writers[a.wid];
    var Paging(snap, ok, ix, _, bad, _) := wr.phase;
    var kind := wr.kind;
    var incomplete := PageIncomplete(snap, ok, kind, bad);
    var covered := if snap.pub.covered > kind.target then snap.pub.covered else kind.target;
    var progress := if incomplete && !kind.failure && bad == 0 && kind.pull.next.Some?
                    then Some(Progress(kind.pull.next.value, kind.target, kind.startedAt)) else None;
    var done := ix.(incomplete := incomplete, progress := progress);
    Some(Prepare(w, a.wid, wr.(kind := kind.(pull := kind.pull.(bad := bad))), snap, ok, done, covered, incomplete))
  }

  /* ---------- publishing ---------- */

  function Request(wr: Writer, snap: Snap, covered: nat, incomplete: bool, obj: ObjectKey): PublishRequest {
    PublishRequest(snap.pub.gen, snap.pub.fence, covered, obj, wr.key, wr.model, incomplete)
  }

  function AfterPublish(kind: Kind): Then {
    if kind.Rebuild? then Advance else Stop
  }

  /** Store the edited index under a fresh key. A failed store may still have landed. */
  function DoSave(w: World, a: Action): Option<World>
    requires a.Save?
  {
    if a.wid !in w.writers || !w.writers[a.wid].phase.Prepared? then None else
    var wr := w.writers[a.wid];
    var Prepared(snap, ok, ix, covered, incomplete) := wr.phase;
    var obj := w.nextObj;
    var put := w.(nextObj := obj + 1, objs := w.objs[obj := Stored(ix, wr.key, wr.model, a.wid)],
        bucket := w.bucket + {obj});
    if a.stored then
      Some(SetWriter(put, a.wid, wr.(phase := Sending(snap, ok, ix, covered, incomplete, obj)))
           .(caches := w.caches[wr.replica := Cached(obj, wr.key, ix)]))
    else if a.landed then Some(Finish(DropCache(put, wr.replica), a.wid))
    else Some(Finish(DropCache(w.(nextObj := obj + 1), wr.replica), a.wid))
  }

  /** The publish call. It is decided at one instant or never arrives; the answer may be
      lost either way. */
  function DoSend(w: World, a: Action): Option<World>
    requires a.Send?
  {
    if a.wid !in w.writers || !w.writers[a.wid].phase.Sending? then None else
    var wr := w.writers[a.wid];
    var Sending(snap, ok, ix, covered, incomplete, obj) := wr.phase;
    var req := Request(wr, snap, covered, incomplete, obj);
    var accepted := a.reply != NotSent && Accepts(w.pub, w.src.Rev(), w.currentKey, req);
    var pub := if accepted then Published(w.pub, req) else w.pub;
    var caches := if accepted && a.reply.Answered? then w.caches else w.caches - {wr.replica};
    var phase := if !a.reply.Answered? then Unsure(snap, obj)
                 else if accepted then Cleaning(snap.pub.obj, AfterPublish(wr.kind))
                 else Cleaning(Some(obj), Again);
    Some(SetWriter(w, a.wid, wr.(phase := phase)).(pub := pub, tried := w.tried + {obj}, caches := caches))
  }

  /** After a lost answer: read the record and see whether the call took effect. */
  function DoReconcile(w: World, a: Action): Option<World>
    requires a.Reconcile?
  {
    if a.wid !in w.writers || !w.writers[a.wid].phase.Unsure? then None else
    var wr := w.writers[a.wid];
    var Unsure(snap, obj) := wr.phase;
    Some(SetWriter(w, a.wid, wr.(phase := if w.pub.obj == Some(obj) then Cleaning(snap.pub.obj, AfterPublish(wr.kind))
                                          else Cleaning(Some(obj), Stop))))
  }

  /** Best-effort deletion of a superseded or orphaned object. */
  function DoClean(w: World, a: Action): Option<World>
    requires a.Clean?
  {
    if a.wid !in w.writers || !w.writers[a.wid].phase.Cleaning? then None else
    var wr := w.writers[a.wid];
    var Cleaning(obj, next) := wr.phase;
    var swept := if obj.Some? && a.ok then w.(bucket := w.bucket - {obj.value}) else w;
    if next.Again? then Some(SetWriter(swept, a.wid, wr.(phase := Inside)))
    else if next.Advance? && wr.kind.Rebuild? && wr.kind.pull.Pull? && wr.kind.pull.next.Some? then
      Some(NextPage(swept, a.wid, wr,
                    wr.kind.(cursor := wr.kind.pull.next, pull := NoPull,
                             failure := wr.kind.failure || wr.kind.pull.bad > 0)))
    else Some(Finish(swept, a.wid))
  }

  predicate StillWaiting(ix: Index) {
    exists x | x in ix.embs :: ix.embs[x].Waiting?
  }

  /** Giving up on an error; a repair does when vectors do not fit one of the entries still
      waiting. Once a page or a repair has edited its index this leaves the
      edits in the cache, which `carried` and `mended` rule out. */
  function DoQuit(cfg: Config, w: World, a: Action): Option<World>
    requires a.Quit?
  {
    if a.wid !in w.writers then None else
    var wr := w.writers[a.wid];
    match wr.phase
    case Prepared(_, _, _, _, _) => None
    case Sending(_, _, _, _, _, _) => None
    case Paging(_, ok, ix, _, _, start) => if cfg.carried && ok && ix != start then None else Some(Finish(w, a.wid))
    case Mending(_, _, ix) => if cfg.mended || !StillWaiting(ix) then None else Some(Finish(w, a.wid))
    case _ => Some(Finish(w, a.wid))
  }

  /** A replica goes down with its writers, its lock and its cache. */
  function Crashed(w: World, replica: nat): World {
    w.(caches := w.caches - {replica}, locks := w.locks - {replica},
       writers := map i | i in w.writers && w.writers[i].replica != replica :: w.writers[i])
  }

  ghost function Step(cfg: Config, w: World, a: Action): Option<World> {
    match a
    case ChatPush(_, _, _, _, _, _, _) => DoPush(cfg, w, a)
    case ChatDelete(_, _, _, _, _) => DoDelete(cfg, w, a)
    case Wipe(id) => if id in w.src.chats then Some(w.(src := Deleted(w.src, id))) else None
    case RewrapRow(id) => if MayRewrap(cfg, w, id) then Some(w.(src := Rewrapped(w.src, id))) else None
    case RegisterFirst(key) => if w.currentKey == NO_KEY && key != NO_KEY then Some(w.(currentKey := key)) else None
    case StartReset(wid) =>
      if wid in w.writers then None
      else Some(SetWriter(w, wid, Writer(Reset(w.pub.obj), 0, NO_KEY, NO_KEY, Ready)))
    case Fence(_, _) => DoFence(w, a)
    case StartRebuild(_, _, _, _, _) => DoStartRebuild(cfg, w, a)
    case Checkpoint(_, _) => DoCheckpoint(w, a)
    case StartRepair(wid, replica, key, model) =>
      if MayStart(cfg, w, wid, replica, key)
      then Some(SetWriter(w, wid, Writer(Repair, replica, key, model, Ready)))
      else None
    case List(_, _) => DoList(w, a)
    case Fetch(_, _, _, _) => DoFetch(cfg, w, a)
    case Enter(_) => DoEnter(w, a)
    case ReadPub(_) => DoReadPub(w, a)
    case Load(_, _) => DoLoad(w, a)
    case Mend(_, _, _) => DoMend(w, a)
    case Edit(_, _, _) => DoEdit(w, a)
    case Begin(_, _) => DoBegin(cfg, w, a)
    case Merge(_, _, _, _) => DoMerge(w, a)
    case End(_) => DoEnd(w, a)
    case Save(_, _, _) => DoSave(w, a)
    case Send(_, _) => DoSend(w, a)
    case Reconcile(_) => DoReconcile(w, a)
    case Clean(_, _) => DoClean(w, a)
    case Quit(_) => DoQuit(cfg, w, a)
    case Crash(replica) => Some(Crashed(w, replica))
    case Evict(replica) => Some(DropCache(w, replica))
  }

  /** The world after a run, or None if some action was not possible where it was taken. */
  ghost function Run(cfg: Config, w: World, acts: seq<Action>): Option<World>
    decreases |acts|
  {
    if acts == [] then Some(w)
    else match Step(cfg, w, acts[0])
         case None => None
         case Some(w') => Run(cfg, w', acts[1..])
  }
}
