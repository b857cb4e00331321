/** A rebuild that nothing disturbs, page by page: whatever was published before, and in
    whatever order rows are fetched and merged, it ends complete and level with exactly the
    live chats. */
module ProtocolRebuilds {
  import opened Prelude
  import opened Controlplane
  import opened Protocol
  import opened ProtocolInvariant
  import opened ProtocolTheorems
  import opened ProtocolCaches
  import opened ProtocolStamps
  import opened ProtocolProgress

  /** One page: where it stops, the orders in which its rows are fetched and merged, and
      whether the published object can be read. */
  datatype Page = Page(next: Option<Position>, fetch: seq<ChatId>, merge: seq<ChatId>, readable: bool,
      undated: set<ChatId>, tidied: bool)

  ghost predicate Orders(ids: seq<ChatId>, all: set<ChatId>) {
    && (forall x :: x in ids <==> x in all)
    && forall i, j | 0 <= i < j < |ids| :: ids[i] != ids[j]
  }

  lemma OrderRest(ids: seq<ChatId>, all: set<ChatId>)
    requires Orders(ids, all) && ids != []
    ensures ids[0] in all && Orders(ids[1..], all - {ids[0]})
  {
    assert ids[0] in ids;
    forall x
      ensures x in ids[1..] <==> x in all - {ids[0]}
    {
      assert x in ids <==> x == ids[0] || x in ids[1..];
    }
  }

  lemma OrderNone(all: set<ChatId>)
    requires Orders([], all)
    ensures all == {}
  {
    SomeMember(all);
  }

  /* ---------- fetching a page ---------- */

  function Fetches(wid: nat, ids: seq<ChatId>): seq<Action> {
    if ids == [] then [] else [Fetch(wid, ids[0], true, false)] + Fetches(wid, ids[1..])
  }

  function Items(src: Source, ids: set<ChatId>): map<ChatId, Item> {
    map x | x in ids && x in src.chats :: Item(src.chats[x].etag, src.chats[x].text)
  }

  /** The job `wid` between pages or fetching, with `pull`. */
  function Fetching(w: World, wid: nat, pull: Pull): World
    requires wid in w.writers && w.writers[wid].kind.Rebuild?
  {
    var wr := w.writers[wid];
    w.(writers := w.writers[wid := wr.(kind := wr.kind.(pull := pull))])
  }

  lemma FetchOne(cfg: Config, w: World, wid: nat, id: ChatId, pull: Pull)
    requires wid in w.writers && w.writers[wid].kind.Rebuild? && w.writers[wid].phase.Ready?
    requires pull.Pull? && id in pull.waiting && id in w.src.chats
    ensures
      Step(cfg, Fetching(w, wid, pull), Fetch(wid, id, true, false)) ==
      Some(Fetching(w, wid, pull.(waiting := pull.waiting - {id},
          items := pull.items[id := Item(w.src.chats[id].etag, w.src.chats[id].text)])))
  {
    var w1 := Fetching(w, wid, pull);
    var after := pull.(waiting := pull.waiting - {id},
        items := pull.items[id := Item(w.src.chats[id].etag, w.src.chats[id].text)]);
    Reassigned(w.writers, wid, w1.writers[wid], Fetching(w, wid, after).writers[wid]);
  }

  lemma {:induction false} FetchesRun(cfg: Config, w: World, wid: nat, ids: seq<ChatId>, pull: Pull)
    requires wid in w.writers && w.writers[wid].kind.Rebuild? && w.writers[wid].phase.Ready?
    requires pull.Pull? && Orders(ids, pull.waiting) && pull.waiting <= w.src.chats.Keys
    ensures
      Run(cfg, Fetching(w, wid, pull), Fetches(wid, ids)) ==
      Some(Fetching(w, wid, pull.(waiting := {}, items := pull.items + Items(w.src, pull.waiting))))
    decreases |ids|
  {
    if ids == [] {
      OrderNone(pull.waiting);
      assert pull.items + Items(w.src, {}) == pull.items;
    } else {
      OrderRest(ids, pull.waiting);
      var item := Item(w.src.chats[ids[0]].etag, w.src.chats[ids[0]].text);
      var after := pull.(waiting := pull.waiting - {ids[0]}, items := pull.items[ids[0] := item]);
      FetchOne(cfg, w, wid, ids[0], pull);
      OneStep(cfg, Fetching(w, wid, pull), Fetch(wid, ids[0], true, false));
      FetchesRun(cfg, w, wid, ids[1..], after);
      assert after.items + Items(w.src, after.waiting) == pull.items + Items(w.src, pull.waiting);
      Joined(cfg, Fetching(w, wid, pull), [Fetch(wid, ids[0], true, false)], Fetching(w, wid, after),
             Fetches(wid, ids[1..]),
             Fetching(w, wid, after.(waiting := {}, items := pull.items + Items(w.src, pull.waiting))),
             Fetches(wid, ids));
    }
  }

  /* ---------- merging a page ---------- */

  function Merges(wid: nat, ids: seq<ChatId>, emb: ChatId -> Emb): seq<Action> {
    if ids == [] then [] else [Merge(wid, ids[0], false, emb(ids[0]))] + Merges(wid, ids[1..], emb)
  }

  /** The job merging a page: `ix` so far, `todo` to go. */
  ghost predicate Merging(w: World, wid: nat, snap: Snap, ok: bool, ix: Index, todo: set<ChatId>, start: Index) {
    && wid in w.writers && w.writers[wid].kind.Rebuild? && w.writers[wid].kind.pull.Pull?
    && w.writers[wid].phase == Paging(snap, ok, ix, todo, 0, start)
    && forall x | x in todo :: x in w.src.chats && x in w.writers[wid].kind.pull.items &&
         w.writers[wid].kind.pull.items[x] == Item(w.src.chats[x].etag, w.src.chats[x].text) && x !in ix.chats
  }

  /** Every row of `rows` is in `ix` as the rebuild found it. */
  ghost predicate Rebuilt(src: Source, ix: Index, rows: set<ChatId>, target: nat, emb: ChatId -> Emb) {
    forall x | x in rows :: x in src.chats && x in ix.chats && x in ix.embs &&
        ix.chats[x] == Entry(src.chats[x].etag, target, src.chats[x].text) && ix.embs[x] == emb(x)
  }

  /** Only the writer `wid` and caches moved. */
  predicate Moved(w: World, w': World, wid: nat) {
    wid in w'.writers && w'.writers == w.writers[wid := w'.writers[wid]]
    && w' == w.(writers := w'.writers, caches := w'.caches)
  }

  lemma MergeOne(
    cfg: Config, w: World, wid: nat, snap: Snap, ok: bool, ix: Index, todo: set<ChatId>, start: Index, id: ChatId,
    emb: Emb)
    returns (w': World)
    requires Merging(w, wid, snap, ok, ix, todo, start) && id in todo
    ensures Step(cfg, w, Merge(wid, id, false, emb)) == Some(w') && Moved(w, w', wid)
    ensures w'.writers[wid].kind == w.writers[wid].kind
    ensures w'.writers[wid] == w.writers[wid].(phase := w'.writers[wid].phase)
    ensures
      var e := Entry(w.src.chats[id].etag, w.writers[wid].kind.target, w.src.chats[id].text);
      Merging(w', wid, snap, ok, ix.(chats := ix.chats[id := e], embs := ix.embs[id := emb]), todo - {id}, start)
  {
    w' := Step(cfg, w, Merge(wid, id, false, emb)).value;
  }

  lemma MovedTwice(w: World, w1: World, w2: World, wid: nat)
    requires Moved(w, w1, wid) && Moved(w1, w2, wid)
    ensures Moved(w, w2, wid)
  {
  }

  /** `done` is `ix` with every row of `todo` merged. */
  ghost predicate AllMerged(src: Source, ix: Index, done: Index, todo: set<ChatId>, target: nat, emb: ChatId -> Emb) {
    && done.chats.Keys == ix.chats.Keys + todo && done.incomplete == ix.incomplete && done.progress == ix.progress
    && Rebuilt(src, done, todo, target, emb)
    && (forall x | x in ix.chats && x !in todo :: done.chats[x] == ix.chats[x])
    && (forall x | x in ix.embs && x !in todo :: x in done.embs && done.embs[x] == ix.embs[x])
  }

  lemma OneMoreMerged(
    src: Source, ix: Index, done: Index, todo: set<ChatId>, target: nat, emb: ChatId -> Emb, id: ChatId, e: Entry)
    requires id in todo && id in src.chats && e == Entry(src.chats[id].etag, target, src.chats[id].text)
    requires AllMerged(
               src, ix.(chats := ix.chats[id := e], embs := ix.embs[id := emb(id)]), done, todo - {id}, target, emb)
    ensures AllMerged(src, ix, done, todo, target, emb)
  {
    var more := ix.(chats := ix.chats[id := e], embs := ix.embs[id := emb(id)]);
    assert id in more.chats && id in more.embs;
    assert done.chats[id] == e && id in done.embs && done.embs[id] == emb(id);
  }

  lemma {:induction false} MergesRun(
    cfg: Config, w: World, wid: nat, snap: Snap, ok: bool, ix: Index, todo: set<ChatId>, start: Index,
    ids: seq<ChatId>, emb: ChatId -> Emb)
    returns (w': World, done: Index)
    requires Merging(w, wid, snap, ok, ix, todo, start) && Orders(ids, todo)
    ensures Run(cfg, w, Merges(wid, ids, emb)) == Some(w') && Moved(w, w', wid)
    ensures w'.writers[wid].kind == w.writers[wid].kind
    ensures w'.writers[wid] == w.writers[wid].(phase := w'.writers[wid].phase)
    ensures Merging(w', wid, snap, ok, done, {}, start)
    ensures AllMerged(w.src, ix, done, todo, w.writers[wid].kind.target, emb)
    decreases |ids|
  {
    if ids == [] {
      OrderNone(todo);
      w', done := w, ix;
    } else {
      var id := ids[0];
      OrderRest(ids, todo);
      var e := Entry(w.src.chats[id].etag, w.writers[wid].kind.target, w.src.chats[id].text);
      var w1 := MergeOne(cfg, w, wid, snap, ok, ix, todo, start, id, emb(id));
      OneStep(cfg, w, Merge(wid, id, false, emb(id)));
      var more := ix.(chats := ix.chats[id := e], embs := ix.embs[id := emb(id)]);
      w', done := MergesRun(cfg, w1, wid, snap, ok, more, todo - {id}, start, ids[1..], emb);
      Joined(cfg, w, [Merge(wid, id, false, emb(id))], w1, Merges(wid, ids[1..], emb), w', Merges(wid, ids, emb));
      MovedTwice(w, w1, w', wid);
      OneMoreMerged(w.src, ix, done, todo, w.writers[wid].kind.target, emb, id, e);
    }
  }

  /* ---------- one page ---------- */

  /** The index a page starts from, and whether it could be read. */
  function PageIndex(w: World, wid: nat, readable: bool): (Index, bool)
    requires wid in w.writers
  {
    (Taken(w, w.writers[wid], readable).0, LoadIndex(w, w.pub, w.writers[wid], readable).Some?)
  }

  /** Everything is fetched, and the page fits the index it will load. */
  ghost predicate PageReady(w: World, wid: nat, p: Page) {
    && MayEnter(w, wid) && w.writers[wid].kind.Rebuild?
    && var kind := w.writers[wid].kind;
       var (ix, ok) := PageIndex(w, wid, p.readable);
       && kind.pull == Pull(p.next, {}, kind.pull.items, 0, 0) && !kind.failure
       && w.pub.covered <= kind.target <= w.src.Rev()
       && ix.progress ==
          (if kind.cursor.Some? then Some(Progress(kind.cursor.value, kind.target, kind.startedAt)) else None)
       && (kind.cursor.Some? ==> ok)
  }

  /** The page opened: its index swept if it is the first, its rows to be merged. */
  ghost predicate PageOpen(w: World, w': World, wid: nat, p: Page, swept: Index)
    requires PageReady(w, wid, p)
  {
    var wr := w.writers[wid];
    var (ix, ok) := PageIndex(w, wid, p.readable);
    var phase := Paging(Snap(w.pub, w.src.Rev()), ok, swept, wr.kind.pull.items.Keys, 0, ix);
    && swept == (if wr.kind.cursor.None? then Swept(ix, wr.kind.target, p.undated) else ix)
    && w' == w.(writers := w.writers[wid := wr.(phase := phase)], locks := w.locks[wr.replica := wid],
                caches := w'.caches)
  }

  lemma BeginIs(cfg: Config, w: World, wid: nat, p: Page)
    requires PageReady(w, wid, p)
    ensures
      var wr := w.writers[wid];
      var (ix, ok) := PageIndex(w, wid, p.readable);
      var swept := if wr.kind.cursor.None? then Swept(ix, wr.kind.target, p.undated) else ix;
      var w1 := LoadedAt(w, wid, p.readable);
      Step(cfg, w1, Begin(wid, p.undated)) == Some(Edited(
        w1, wid, w1.writers[wid], w.pub, ok, swept,
        Paging(w1.writers[wid].phase.snap, ok, swept, wr.kind.pull.items.Keys, wr.kind.pull.failed, ix)))
  {
  }

  lemma PageOpens(cfg: Config, w: World, wid: nat, p: Page) returns (w': World, swept: Index)
    requires PageReady(w, wid, p)
    ensures Run(cfg, w, Opening(wid, p.readable) + [Begin(wid, p.undated)]) == Some(w')
    ensures PageOpen(w, w', wid, p, swept)
  {
    var w1 := LoadedAt(w, wid, p.readable);
    var (ix, ok) := PageIndex(w, wid, p.readable);
    swept := if w.writers[wid].kind.cursor.None? then Swept(ix, w.writers[wid].kind.target, p.undated) else ix;
    OpeningRuns(cfg, w, wid, p.readable);
    BeginIs(cfg, w, wid, p);
    ThenStep(cfg, w, Opening(wid, p.readable), Begin(wid, p.undated));
    w' := Step(cfg, w1, Begin(wid, p.undated)).value;
    Reassigned(w.writers, wid, w1.writers[wid], w'.writers[wid]);
  }

  /** What the finished page publishes. */
  function Finished(kind: Kind, ix: Index): Index
    requires kind.Rebuild? && kind.pull.Pull?
  {
    var next := kind.pull.next;
    ix.(incomplete := next.Some?,
        progress := if next.Some? then Some(Progress(next.value, kind.target, kind.startedAt)) else None)
  }

  lemma PageEnds(cfg: Config, w: World, wid: nat, snap: Snap, ok: bool, ix: Index, start: Index) returns (w': World)
    requires Merging(w, wid, snap, ok, ix, {}, start)
    requires
      var kind := w.writers[wid].kind;
      && kind.pull.bad == 0 && !kind.failure && (kind.cursor.Some? ==> ok) && snap.pub.covered <= kind.target
    ensures Step(cfg, w, End(wid)) == Some(w') && Moved(w, w', wid)
    ensures
      var kind := w.writers[wid].kind;
      w'.writers[wid] == w.writers[wid].(phase :=
          Prepared(snap, ok, Finished(kind, ix), kind.target, kind.pull.next.Some?))
  {
    w' := Step(cfg, w, End(wid)).value;
  }

  /** From the opened page to the publication it makes. */
  function Closing(wid: nat, p: Page, emb: ChatId -> Emb): seq<Action> {
    Merges(wid, p.merge, emb) + ([End(wid)] + Publishing(wid, p.tidied))
  }

  /** The rows of the page, by what was fetched. */
  ghost predicate Fetched(w: World, wid: nat, p: Page, swept: Index)
    requires wid in w.writers && w.writers[wid].kind.Rebuild? && w.writers[wid].kind.pull.Pull?
  {
    var items := w.writers[wid].kind.pull.items;
    && Orders(p.merge, items.Keys)
    && forall x | x in items :: x in w.src.chats && x !in swept.chats &&
         items[x] == Item(w.src.chats[x].etag, w.src.chats[x].text)
  }

  /** The page is published: its index is `done`, cached on its replica. */
  ghost predicate PageSent(w: World, w': World, wid: nat, done: Index)
    requires wid in w.writers && w.writers[wid].kind.Rebuild? && w.writers[wid].kind.pull.Pull?
  {
    var wr := w.writers[wid];
    var kind := wr.kind;
    && w'.src == w.src && w'.currentKey == w.currentKey && w'.locks == w.locks - {wr.replica}
    && w'.pub == Publication(w.pub.gen + 1, w.pub.fence, kind.target, Some(w.nextObj), wr.key, wr.model,
                             kind.pull.next.Some?)
    && w'.nextObj == w.nextObj + 1 && w.nextObj in w'.objs
    && w'.objs[w.nextObj] == Stored(Finished(kind, done), wr.key, wr.model, wid)
    && wr.replica in w'.caches && w'.caches[wr.replica] == Cached(w.nextObj, wr.key, Finished(kind, done))
    && w'.writers == if kind.pull.next.None? then w.writers - {wid}
                     else w.writers[wid := wr.(phase := Ready, kind := kind.(cursor := kind.pull.next, pull := NoPull))]
  }

  lemma PageSends(cfg: Config, w: World, wid: nat, done: Index, ok: bool) returns (w': World)
    requires wid in w.writers && w.writers[wid].phase.Prepared? && w.writers[wid].kind.Rebuild?
    requires w.writers[wid].replica in w.locks && w.locks[w.writers[wid].replica] == wid
    requires w.currentKey == NO_KEY || w.currentKey == w.writers[wid].key
    requires
      var wr := w.writers[wid];
      && wr.kind.pull.Pull? && wr.kind.pull.bad == 0 && !wr.kind.failure
      && w.pub.covered <= wr.kind.target <= w.src.Rev()
      && wr.phase.snap.pub == w.pub && wr.phase.ix == Finished(wr.kind, done) && wr.phase.covered == wr.kind.target
      && wr.phase.incomplete == wr.kind.pull.next.Some?
    ensures Run(cfg, w, Publishing(wid, ok)) == Some(w')
    ensures PageSent(w, w', wid, done)
  {
    PublishingRuns(cfg, w, wid, ok);
    w' := Leaving(Sent(w, wid, ok), wid);
  }

  /** The page merged, up to its publication. */
  lemma PageFinishes(
    cfg: Config, w: World, wid: nat, snap: Snap, got: bool, done: Index, start: Index, ok: bool)
    returns (w3: World, w': World)
    requires Merging(w, wid, snap, got, done, {}, start) && snap.pub == w.pub
    requires w.writers[wid].replica in w.locks && w.locks[w.writers[wid].replica] == wid
    requires w.currentKey == NO_KEY || w.currentKey == w.writers[wid].key
    requires
      var kind := w.writers[wid].kind;
      && kind.pull.bad == 0 && !kind.failure && (kind.cursor.Some? ==> got)
      && w.pub.covered <= kind.target <= w.src.Rev()
    ensures Run(cfg, w, [End(wid)] + Publishing(wid, ok)) == Some(w')
    ensures Moved(w, w3, wid) && w3.writers[wid] == w.writers[wid].(phase := w3.writers[wid].phase)
    ensures PageSent(w3, w', wid, done)
  {
    w3 := PageEnds(cfg, w, wid, snap, got, done, start);
    w' := PageSends(cfg, w3, wid, done, ok);
    OneStep(cfg, w, End(wid));
    Joined(cfg, w, [End(wid)], w3, Publishing(wid, ok), w', [End(wid)] + Publishing(wid, ok));
  }

  lemma PageCloses(cfg: Config, w: World, w1: World, wid: nat, p: Page, swept: Index, emb: ChatId -> Emb)
    returns (w': World, done: Index)
    requires PageReady(w, wid, p) && PageOpen(w, w1, wid, p, swept) && Fetched(w, wid, p, swept)
    requires w.currentKey == NO_KEY || w.currentKey == w.writers[wid].key
    ensures Run(cfg, w1, Closing(wid, p, emb)) == Some(w')
    ensures PageSent(w, w', wid, done)
    ensures AllMerged(w.src, swept, done, w.writers[wid].kind.pull.items.Keys, w.writers[wid].kind.target, emb)
  {
    var (ix, got) := PageIndex(w, wid, p.readable);
    var snap := Snap(w.pub, w.src.Rev());
    var w2, w3;
    w2, done := MergesRun(cfg, w1, wid, snap, got, swept, w.writers[wid].kind.pull.items.Keys, ix, p.merge, emb);
    w3, w' := PageFinishes(cfg, w2, wid, snap, got, done, ix, p.tidied);
    Joined(cfg, w1, Merges(wid, p.merge, emb), w2, [End(wid)] + Publishing(wid, p.tidied), w', Closing(wid, p, emb));
    MovedTwice(w1, w2, w3, wid);
    FromOpen(w, w1, w3, wid, p, swept);
    SentFrom(w, w3, w', wid, done);
  }

  lemma FromOpen(w: World, w1: World, w3: World, wid: nat, p: Page, swept: Index)
    requires PageReady(w, wid, p) && PageOpen(w, w1, wid, p, swept) && Moved(w1, w3, wid)
    requires w3.writers[wid] == w1.writers[wid].(phase := w3.writers[wid].phase)
    ensures w3.writers[wid] == w.writers[wid].(phase := w3.writers[wid].phase)
    ensures w3 == w.(writers := w.writers[wid := w3.writers[wid]], locks := w.locks[w.writers[wid].replica := wid],
                     caches := w3.caches)
  {
    Reassigned(w.writers, wid, w1.writers[wid], w3.writers[wid]);
  }

  /** What a page sends does not depend on how its caches moved. */
  lemma SentFrom(w: World, w3: World, w': World, wid: nat, done: Index)
    requires wid in w.writers && w.writers[wid].kind.Rebuild? && w.writers[wid].kind.pull.Pull?
    requires wid in w3.writers && w3.writers[wid] == w.writers[wid].(phase := w3.writers[wid].phase)
    requires w3 == w.(writers := w.writers[wid := w3.writers[wid]], locks := w.locks[w.writers[wid].replica := wid],
                      caches := w3.caches)
    requires PageSent(w3, w', wid, done)
    ensures PageSent(w, w', wid, done)
  {
    var wr := w.writers[wid];
    Reassigned(w.writers, wid, w3.writers[wid], if wid in w'.writers then w'.writers[wid] else wr);
    Reassigned(w.locks, wr.replica, wid, wid);
  }

  /* ---------- the walk ---------- */

  /** The rows a walk has passed. */
  ghost function Behind(src: Source, cursor: Option<Position>): set<ChatId> {
    set x | x in src.chats && cursor.Some? && !After(cursor, src.chats[x].pos)
  }

  /** A job about to list the page after `cursor`, the source as it was when it started; what it
      has passed is published, with its checkpoint, and cached. */
  ghost predicate AtPage(w: World, wid: nat, cursor: Option<Position>, startedAt: int, emb: ChatId -> Emb) {
    && wid in w.writers
    && var wr := w.writers[wid];
       && wr.kind == Rebuild(w.src.Rev(), startedAt, cursor, false, NoPull) && wr.phase.Ready?
       && wr.replica !in w.locks && (w.currentKey == NO_KEY || w.currentKey == wr.key)
       && w.pub.covered <= w.src.Rev() && 0 < w.src.Rev()
       && (cursor.Some? ==>
             && w.pub.obj.Some? && w.pub.key == wr.key && w.pub.model == wr.model
             && wr.replica in w.caches && w.caches[wr.replica] == Cached(w.pub.obj.value, wr.key, PublishedIndex(w))
             && w.pub.obj.value in w.objs && w.objs[w.pub.obj.value].key == wr.key
             && w.objs[w.pub.obj.value].model == wr.model
             && w.pub.incomplete && w.pub.covered == w.src.Rev() && PublishedIndex(w).incomplete
             && PublishedIndex(w).progress == Some(Progress(cursor.value, w.src.Rev(), startedAt))
             && PublishedIndex(w).chats.Keys == Behind(w.src, cursor)
             && Rebuilt(w.src, PublishedIndex(w), Behind(w.src, cursor), w.src.Rev(), emb))
  }

  /** The pages of a walk after `cursor`: each stops later than the last, none but the last at
      the end; pages after the first read what the one before published. */
  ghost predicate Walks(src: Source, cursor: Option<Position>, pages: seq<Page>)
    decreases |pages|
  {
    && pages != []
    && Orders(pages[0].fetch, PageIds(src, cursor, pages[0].next))
    && Orders(pages[0].merge, PageIds(src, cursor, pages[0].next))
    && (pages[0].next.None? ==> |pages| == 1)
    && (pages[0].next.Some? ==> After(cursor, pages[0].next.value))
    && (|pages| > 1 ==> pages[1].readable && Walks(src, pages[0].next, pages[1..]))
  }

  /** Where the last page of a walk stops. */
  function Reaches(pages: seq<Page>): Option<Position>
    requires pages != []
  {
    pages[|pages| - 1].next
  }

  function PageRun(wid: nat, p: Page, emb: ChatId -> Emb): seq<Action> {
    [List(wid, p.next)] + Fetches(wid, p.fetch) +
    (Opening(wid, p.readable) + [Begin(wid, p.undated)] + Closing(wid, p, emb))
  }

  function WalkRun(wid: nat, pages: seq<Page>, emb: ChatId -> Emb): seq<Action> {
    if pages == [] then [] else PageRun(wid, pages[0], emb) + WalkRun(wid, pages[1..], emb)
  }

  /** The page listed and fetched. */
  function Pulled(w: World, wid: nat, next: Option<Position>, rows: set<ChatId>): World
    requires wid in w.writers && w.writers[wid].kind.Rebuild?
  {
    Fetching(w, wid, Pull(next, {}, Items(w.src, rows), 0, 0))
  }

  lemma PulledRuns(cfg: Config, w: World, wid: nat, p: Page)
    requires wid in w.writers && w.writers[wid].kind.Rebuild? && w.writers[wid].phase.Ready?
    requires w.writers[wid].kind.pull.NoPull? && Orders(p.fetch, PageIds(w.src, w.writers[wid].kind.cursor, p.next))
    ensures
      Run(cfg, w, [List(wid, p.next)] + Fetches(wid, p.fetch)) ==
      Some(Pulled(w, wid, p.next, PageIds(w.src, w.writers[wid].kind.cursor, p.next)))
  {
    var rows := PageIds(w.src, w.writers[wid].kind.cursor, p.next);
    var pull := Pull(p.next, rows, map[], 0, 0);
    assert Step(cfg, w, List(wid, p.next)) == Some(Fetching(w, wid, pull));
    OneStep(cfg, w, List(wid, p.next));
    FetchesRun(cfg, w, wid, p.fetch, pull);
    assert map[] + Items(w.src, rows) == Items(w.src, rows);
    Joined(cfg, w, [List(wid, p.next)], Fetching(w, wid, pull), Fetches(wid, p.fetch), Pulled(w, wid, p.next, rows),
           [List(wid, p.next)] + Fetches(wid, p.fetch));
  }

  /** The index the first page may read is not a partial one, and holds only issued stamps. */
  ghost predicate StartFits(w: World, wid: nat, readable: bool)
    requires wid in w.writers
  {
    var ix := Taken(w, w.writers[wid], readable).0;
    Issued(ix, w.src.Rev()) && ix.progress.None?
  }

  /** After a page that is not the last the job is at the next one; after the last it is done. */
  ghost predicate WalkDone(w: World, w': World, wid: nat, emb: ChatId -> Emb)
    requires wid in w.writers
  {
    && w'.src == w.src && Level(w') && w'.pub.key == w.writers[wid].key && w'.pub.model == w.writers[wid].model
    && PublishedIndex(w').chats.Keys == w.src.chats.Keys && PublishedIndex(w').progress.None?
    && Rebuilt(w.src, PublishedIndex(w'), w.src.chats.Keys, w.src.Rev(), emb)
    && w'.writers == w.writers - {wid} && w'.locks == w.locks && w'.currentKey == w.currentKey
  }

  /** Before its rows are merged a page's index holds just the rows it has passed. */
  lemma SweptIsBehind(w: World, wid: nat, cursor: Option<Position>, startedAt: int, emb: ChatId -> Emb, p: Page)
    returns (swept: Index)
    requires AtPage(w, wid, cursor, startedAt, emb)
    requires if cursor.None? then StartFits(w, wid, p.readable) else p.readable
    ensures
      var (ix, ok) := PageIndex(w, wid, p.readable);
      && swept == (if cursor.None? then Swept(ix, w.src.Rev(), p.undated) else ix)
      && swept.chats.Keys == Behind(w.src, cursor) && (cursor.Some? ==> ok && ix == PublishedIndex(w))
      && ix.progress == (if cursor.Some? then Some(Progress(cursor.value, w.src.Rev(), startedAt)) else None)
      && Rebuilt(w.src, swept, Behind(w.src, cursor), w.src.Rev(), emb)
  {
    var (ix, ok) := PageIndex(w, wid, p.readable);
    swept := if cursor.None? then Swept(ix, w.src.Rev(), p.undated) else ix;
    if cursor.None? {
      assert forall x | x in ix.chats :: 0 < ix.chats[x].rev <= w.src.Rev();
      assert forall x :: x !in swept.chats;
    }
  }

  /** One page of the walk. */
  lemma PageGoes(
    cfg: Config, w: World, wid: nat, cursor: Option<Position>, startedAt: int, emb: ChatId -> Emb, p: Page)
    returns (w': World, done: Index)
    requires AtPage(w, wid, cursor, startedAt, emb)
    requires if cursor.None? then StartFits(w, wid, p.readable) else p.readable
    requires Orders(p.fetch, PageIds(w.src, cursor, p.next)) && Orders(p.merge, PageIds(w.src, cursor, p.next))
    ensures Run(cfg, w, PageRun(wid, p, emb)) == Some(w')
    ensures PageSent(Pulled(w, wid, p.next, PageIds(w.src, cursor, p.next)), w', wid, done)
    ensures done.chats.Keys == Behind(w.src, cursor) + PageIds(w.src, cursor, p.next)
    ensures Rebuilt(w.src, done, done.chats.Keys, w.src.Rev(), emb)
  {
    var rows := PageIds(w.src, cursor, p.next);
    var w0 := Pulled(w, wid, p.next, rows);
    PulledRuns(cfg, w, wid, p);
    var swept := SweptIsBehind(w, wid, cursor, startedAt, emb, p);
    assert LoadIndex(w0, w0.pub, w0.writers[wid], p.readable) == LoadIndex(w, w.pub, w.writers[wid], p.readable);
    assert Items(w.src, rows).Keys == rows;
    var w1, first := PageOpens(cfg, w0, wid, p);
    assert first == swept;
    w', done := PageCloses(cfg, w0, w1, wid, p, swept, emb);
    Joined(cfg, w0, Opening(wid, p.readable) + [Begin(wid, p.undated)], w1, Closing(wid, p, emb), w',
           Opening(wid, p.readable) + [Begin(wid, p.undated)] + Closing(wid, p, emb));
    Joined(cfg, w, [List(wid, p.next)] + Fetches(wid, p.fetch), w0,
           Opening(wid, p.readable) + [Begin(wid, p.undated)] + Closing(wid, p, emb), w', PageRun(wid, p, emb));
  }

  lemma BehindMore(src: Source, cursor: Option<Position>, next: Option<Position>)
    requires next.Some? ==> After(cursor, next.value)
    ensures Behind(src, cursor) + PageIds(src, cursor, next) == if next.Some? then Behind(src, next) else src.chats.Keys
  {
    var all := if next.Some? then Behind(src, next) else src.chats.Keys;
    forall x
      ensures x in Behind(src, cursor) + PageIds(src, cursor, next) <==> x in all
    {
      if x in src.chats && next.Some? && cursor.Some? && !After(cursor, src.chats[x].pos) {
        assert !After(next, src.chats[x].pos);
      }
    }
  }

  /** The job of `w` has moved on to the page after `cursor`, and nothing else has moved but what
      it published. */
  ghost predicate WalkedTo(
    w: World, w': World, wid: nat, cursor: Option<Position>, startedAt: int, emb: ChatId -> Emb)
    requires wid in w.writers
  {
    && AtPage(w', wid, cursor, startedAt, emb) && w'.src == w.src && w'.locks == w.locks
    && w'.writers - {wid} == w.writers - {wid} && w'.currentKey == w.currentKey
    && w'.writers[wid].key == w.writers[wid].key && w'.writers[wid].model == w.writers[wid].model
    && w'.writers[wid].replica == w.writers[wid].replica
  }

  lemma NextPageFits(
    w: World, w': World, wid: nat, cursor: Option<Position>, startedAt: int, emb: ChatId -> Emb, p: Page, done: Index)
    requires AtPage(w, wid, cursor, startedAt, emb) && p.next.Some? && After(cursor, p.next.value)
    requires PageSent(Pulled(w, wid, p.next, PageIds(w.src, cursor, p.next)), w', wid, done)
    requires done.chats.Keys == Behind(w.src, cursor) + PageIds(w.src, cursor, p.next)
    requires Rebuilt(w.src, done, done.chats.Keys, w.src.Rev(), emb)
    ensures WalkedTo(w, w', wid, p.next, startedAt, emb)
  {
    BehindMore(w.src, cursor, p.next);
  }

  lemma LastPageFits(
    w: World, w': World, wid: nat, cursor: Option<Position>, startedAt: int, emb: ChatId -> Emb, p: Page, done: Index)
    requires AtPage(w, wid, cursor, startedAt, emb) && p.next.None?
    requires PageSent(Pulled(w, wid, p.next, PageIds(w.src, cursor, p.next)), w', wid, done)
    requires done.chats.Keys == Behind(w.src, cursor) + PageIds(w.src, cursor, p.next)
    requires Rebuilt(w.src, done, done.chats.Keys, w.src.Rev(), emb)
    ensures WalkDone(w, w', wid, emb)
  {
    BehindMore(w.src, cursor, None);
  }

  /** One page of a walk: it is done, or goes on from the next cursor. */
  lemma PageWalks(
    cfg: Config, w: World, wid: nat, cursor: Option<Position>, startedAt: int, emb: ChatId -> Emb, p: Page)
    returns (w': World)
    requires AtPage(w, wid, cursor, startedAt, emb)
    requires if cursor.None? then StartFits(w, wid, p.readable) else p.readable
    requires Orders(p.fetch, PageIds(w.src, cursor, p.next)) && Orders(p.merge, PageIds(w.src, cursor, p.next))
    requires p.next.Some? ==> After(cursor, p.next.value)
    ensures Run(cfg, w, PageRun(wid, p, emb)) == Some(w')
    ensures if p.next.None? then WalkDone(w, w', wid, emb) else WalkedTo(w, w', wid, p.next, startedAt, emb)
  {
    var done;
    w', done := PageGoes(cfg, w, wid, cursor, startedAt, emb, p);
    if p.next.None? {
      LastPageFits(w, w', wid, cursor, startedAt, emb, p, done);
    } else {
      NextPageFits(w, w', wid, cursor, startedAt, emb, p, done);
    }
  }

  lemma WalkJoins(
    w: World, w1: World, w': World, wid: nat, next: Option<Position>, reached: Option<Position>, startedAt: int,
    emb: ChatId -> Emb)
    requires wid in w.writers && WalkedTo(w, w1, wid, next, startedAt, emb)
    requires if reached.None? then WalkDone(w1, w', wid, emb) else WalkedTo(w1, w', wid, reached, startedAt, emb)
    ensures if reached.None? then WalkDone(w, w', wid, emb) else WalkedTo(w, w', wid, reached, startedAt, emb)
  {
  }

  /** A walk goes through, page by page. */
  lemma {:induction false} WalkGoes(
    cfg: Config, w: World, wid: nat, cursor: Option<Position>, startedAt: int, emb: ChatId -> Emb, pages: seq<Page>)
    returns (w': World)
    requires AtPage(w, wid, cursor, startedAt, emb) && Walks(w.src, cursor, pages)
    requires if cursor.None? then StartFits(w, wid, pages[0].readable) else pages[0].readable
    ensures Run(cfg, w, WalkRun(wid, pages, emb)) == Some(w')
    ensures if Reaches(pages).None? then WalkDone(w, w', wid, emb)
            else WalkedTo(w, w', wid, Reaches(pages), startedAt, emb)
    decreases |pages|
  {
    var p := pages[0];
    var w1 := PageWalks(cfg, w, wid, cursor, startedAt, emb, p);
    if |pages| == 1 {
      w' := w1;
      assert WalkRun(wid, pages[1..], emb) == [];
      assert PageRun(wid, p, emb) + [] == PageRun(wid, p, emb);
    } else {
      w' := WalkGoes(cfg, w1, wid, p.next, startedAt, emb, pages[1..]);
      WalkJoins(w, w1, w', wid, p.next, Reaches(pages[1..]), startedAt, emb);
      Joined(cfg, w, PageRun(wid, p, emb), w1, WalkRun(wid, pages[1..], emb), w', WalkRun(wid, pages, emb));
    }
  }

  /* ---------- whole rebuilds ---------- */

  function RebuildRun(
    wid: nat, replica: nat, key: KeyId, model: Model, startedAt: int, pages: seq<Page>, emb: ChatId -> Emb): seq<Action>
  {
    [StartRebuild(wid, replica, key, model, startedAt), Checkpoint(wid, false)] + WalkRun(wid, pages, emb)
  }

  lemma RebuildStarts(
    cfg: Config, w: World, wid: nat, replica: nat, key: KeyId, model: Model, startedAt: int, emb: ChatId -> Emb)
    returns (w1: World)
    requires AllIssued(w) && Room(cfg, w, wid, replica, key) && cfg.rebuild && 0 < w.src.Rev()
    ensures Run(cfg, w, [StartRebuild(wid, replica, key, model, startedAt), Checkpoint(wid, false)]) == Some(w1)
    ensures AtPage(w1, wid, None, startedAt, emb) && w1 == w.(writers := w1.writers) && w1.writers - {wid} == w.writers
    ensures w1.writers[wid].key == key && w1.writers[wid].model == model && w1.writers[wid].replica == replica
  {
    var a := StartRebuild(wid, replica, key, model, startedAt);
    OneStep(cfg, w, a);
    ThenStep(cfg, w, [a], Checkpoint(wid, false));
    assert [a] + [Checkpoint(wid, false)] == [a, Checkpoint(wid, false)];
    w1 := Step(cfg, Step(cfg, w, a).value, Checkpoint(wid, false)).value;
    assert w1.writers - {wid} == w.writers;
  }

  /** The publication holds exactly the live chats as they are, complete and level. */
  ghost predicate RebuildDone(w: World, w': World, key: KeyId, model: Model, emb: ChatId -> Emb) {
    && w'.src == w.src && Level(w') && w'.pub.key == key && w'.pub.model == model
    && PublishedIndex(w').chats.Keys == w.src.chats.Keys && PublishedIndex(w').progress.None?
    && Rebuilt(w.src, PublishedIndex(w'), w.src.chats.Keys, w.src.Rev(), emb)
    && w'.writers == w.writers && w'.locks == w.locks && w'.currentKey == w.currentKey
  }

  /** A job runs some pages from the start. */
  lemma RebuildWalks(
    cfg: Config, w: World, wid: nat, replica: nat, key: KeyId, model: Model, startedAt: int, pages: seq<Page>,
    emb: ChatId -> Emb)
    returns (w1: World, w': World)
    requires Fit(cfg, w) && Room(cfg, w, wid, replica, key) && cfg.rebuild && 0 < w.src.Rev()
    requires Walks(w.src, None, pages) && (pages[0].readable ==> PublishedIndex(w).progress.None?)
    ensures Run(cfg, w, RebuildRun(wid, replica, key, model, startedAt, pages, emb)) == Some(w')
    ensures w1 == w.(writers := w1.writers) && wid in w1.writers && w1.writers - {wid} == w.writers
    ensures w1.writers[wid].key == key && w1.writers[wid].model == model && w1.writers[wid].replica == replica
    ensures if Reaches(pages).None? then WalkDone(w1, w', wid, emb)
            else WalkedTo(w1, w', wid, Reaches(pages), startedAt, emb)
  {
    w1 := RebuildStarts(cfg, w, wid, replica, key, model, startedAt, emb);
    FreshStart(cfg, w, w1, wid, pages[0].readable);
    w' := WalkGoes(cfg, w1, wid, None, startedAt, emb, pages);
    Joined(cfg, w, [StartRebuild(wid, replica, key, model, startedAt), Checkpoint(wid, false)], w1,
           WalkRun(wid, pages, emb), w', RebuildRun(wid, replica, key, model, startedAt, pages, emb));
  }

  lemma FreshStart(cfg: Config, w: World, w1: World, wid: nat, readable: bool)
    requires Fit(cfg, w) && wid in w1.writers && w1 == w.(writers := w1.writers) && w1.writers[wid].replica !in w.locks
    requires readable ==> PublishedIndex(w).progress.None?
    ensures StartFits(w1, wid, readable)
  {
    var wr := w1.writers[wid];
    var loaded := LoadIndex(w, w.pub, wr, readable);
    assert LoadIndex(w1, w1.pub, wr, readable) == loaded;
    if loaded.Some? {
      LoadIssued(w, w.pub, wr, readable);
      CleanUnlessEditing(cfg, w, wr.replica);
      LoadHeld(cfg, w, wr, w.pub, readable);
    }
  }

  /** From every reachable world, whatever was published, a rebuild that nothing disturbs ends
      complete and level: over one page or many, in whatever order rows are fetched and
      merged, the publication holds exactly the live chats with their texts and etags. */
  lemma RebuildPublishes(
    cfg: Config, w: World, wid: nat, replica: nat, key: KeyId, model: Model, startedAt: int, pages: seq<Page>,
    emb: ChatId -> Emb)
    returns (w': World)
    requires Reachable(cfg, w) && Room(cfg, w, wid, replica, key) && cfg.rebuild && 0 < w.src.Rev()
    requires Walks(w.src, None, pages) && Reaches(pages).None?
    requires pages[0].readable ==> PublishedIndex(w).progress.None?
    ensures Run(cfg, w, RebuildRun(wid, replica, key, model, startedAt, pages, emb)) == Some(w')
    ensures RebuildDone(w, w', key, model, emb)
  {
    ReachableFit(cfg, w);
    var w1;
    w1, w' := RebuildWalks(cfg, w, wid, replica, key, model, startedAt, pages, emb);
  }

  /* ---------- resumed rebuilds ---------- */

  function Resuming(wid: nat, heir: nat, wr: Writer, now: int): seq<Action> {
    [Quit(wid), StartRebuild(heir, wr.replica, wr.key, wr.model, now), Checkpoint(heir, true)]
  }

  /** A job that stops between pages is taken up by the next job at the published checkpoint. */
  lemma JobResumes(
    cfg: Config, w: World, wid: nat, cursor: Position, startedAt: int, emb: ChatId -> Emb, heir: nat, now: int)
    returns (w': World)
    requires AtPage(w, wid, Some(cursor), startedAt, emb) && heir !in w.writers && cfg.rebuild
    requires w.writers[wid].key != NO_KEY && (cfg.oneReplica ==> w.writers[wid].replica == 0)
    ensures Run(cfg, w, Resuming(wid, heir, w.writers[wid], now)) == Some(w')
    ensures AtPage(w', heir, Some(cursor), startedAt, emb)
    ensures w' == w.(writers := w'.writers) && w'.writers == (w.writers - {wid})[heir := w'.writers[heir]]
    ensures w'.writers[heir].key == w.writers[wid].key && w'.writers[heir].model == w.writers[wid].model
  {
    var wr := w.writers[wid];
    var w1 := w.(writers := w.writers - {wid});
    assert Step(cfg, w, Quit(wid)) == Some(w1);
    var starting := Writer(Rebuild(w.src.Rev(), now, None, false, NoPull), wr.replica, wr.key, wr.model,
                           Starting(Snap(w.pub, w.src.Rev())));
    var w2 := w1.(writers := w1.writers[heir := starting]);
    assert Step(cfg, w1, StartRebuild(heir, wr.replica, wr.key, wr.model, now)) == Some(w2);
    assert LoadIndex(w2, w2.pub, starting, true) == Some((PublishedIndex(w), w.caches));
    ThreeSteps(cfg, w, Quit(wid), StartRebuild(heir, wr.replica, wr.key, wr.model, now), Checkpoint(heir, true));
    w' := Step(cfg, w2, Checkpoint(heir, true)).value;
    Reassigned(w1.writers, heir, starting, w'.writers[heir]);
  }

  lemma ResumedGoes(
    cfg: Config, w: World, wid: nat, cursor: Position, startedAt: int, emb: ChatId -> Emb, heir: nat, now: int,
    pages: seq<Page>)
    returns (w': World)
    requires AtPage(w, wid, Some(cursor), startedAt, emb) && heir !in w.writers && cfg.rebuild
    requires w.writers[wid].key != NO_KEY && (cfg.oneReplica ==> w.writers[wid].replica == 0)
    requires Walks(w.src, Some(cursor), pages) && Reaches(pages).None? && pages[0].readable
    ensures Run(cfg, w, Resuming(wid, heir, w.writers[wid], now) + WalkRun(heir, pages, emb)) == Some(w')
    ensures WalkDone(w, w', wid, emb)
  {
    var w1 := JobResumes(cfg, w, wid, cursor, startedAt, emb, heir, now);
    w' := WalkGoes(cfg, w1, heir, Some(cursor), startedAt, emb, pages);
    Joined(cfg, w, Resuming(wid, heir, w.writers[wid], now), w1, WalkRun(heir, pages, emb), w',
           Resuming(wid, heir, w.writers[wid], now) + WalkRun(heir, pages, emb));
    assert w1.writers - {heir} == w.writers - {wid};
  }

  /** A job runs the pages `first` and stops; the next job resumes and runs the pages `rest`. */
  function ResumedRun(
    wid: nat, heir: nat, replica: nat, key: KeyId, model: Model, startedAt: int, now: int, first: seq<Page>,
    rest: seq<Page>, emb: ChatId -> Emb): seq<Action>
  {
    RebuildRun(wid, replica, key, model, startedAt, first, emb)
    + ([Quit(wid), StartRebuild(heir, replica, key, model, now), Checkpoint(heir, true)] + WalkRun(heir, rest, emb))
  }

  /** A rebuild that stops between any two pages is finished by the job that resumes it at the
      published checkpoint, and ends just as it would have. */
  lemma ResumedRebuildPublishes(
    cfg: Config, w: World, wid: nat, heir: nat, replica: nat, key: KeyId, model: Model, startedAt: int, now: int,
    first: seq<Page>, rest: seq<Page>, emb: ChatId -> Emb)
    returns (w': World)
    requires Reachable(cfg, w) && Room(cfg, w, wid, replica, key) && cfg.rebuild && 0 < w.src.Rev()
    requires heir !in w.writers && heir != wid
    requires Walks(w.src, None, first) && (first[0].readable ==> PublishedIndex(w).progress.None?)
    requires Reaches(first).Some? && Walks(w.src, Reaches(first), rest) && Reaches(rest).None? && rest[0].readable
    ensures Run(cfg, w, ResumedRun(wid, heir, replica, key, model, startedAt, now, first, rest, emb)) == Some(w')
    ensures RebuildDone(w, w', key, model, emb)
  {
    ReachableFit(cfg, w);
    w' := ResumedFrom(cfg, w, wid, heir, replica, key, model, startedAt, now, first, rest, emb);
  }

  lemma ResumedFrom(
    cfg: Config, w: World, wid: nat, heir: nat, replica: nat, key: KeyId, model: Model, startedAt: int, now: int,
    first: seq<Page>, rest: seq<Page>, emb: ChatId -> Emb)
    returns (w': World)
    requires Fit(cfg, w) && Room(cfg, w, wid, replica, key) && cfg.rebuild && 0 < w.src.Rev()
    requires heir !in w.writers && heir != wid
    requires Walks(w.src, None, first) && (first[0].readable ==> PublishedIndex(w).progress.None?)
    requires Reaches(first).Some? && Walks(w.src, Reaches(first), rest) && Reaches(rest).None? && rest[0].readable
    ensures Run(cfg, w, ResumedRun(wid, heir, replica, key, model, startedAt, now, first, rest, emb)) == Some(w')
    ensures RebuildDone(w, w', key, model, emb)
  {
    var w1, w2 := RebuildWalks(cfg, w, wid, replica, key, model, startedAt, first, emb);
    assert heir !in w2.writers by {
      assert heir !in w1.writers - {wid} && heir !in w2.writers - {wid};
    }
    w' := ResumedGoes(cfg, w2, wid, Reaches(first).value, startedAt, emb, heir, now, rest);
    Joined(cfg, w, RebuildRun(wid, replica, key, model, startedAt, first, emb), w2,
           [Quit(wid), StartRebuild(heir, replica, key, model, now), Checkpoint(heir, true)] + WalkRun(heir, rest, emb),
           w', ResumedRun(wid, heir, replica, key, model, startedAt, now, first, rest, emb));
  }

  /** A page that finds another job's checkpoint goes on from there instead. */
  lemma PageDefersToCheckpoint(cfg: Config, w: World, wid: nat, undated: set<ChatId>)
    requires wid in w.writers && w.writers[wid].kind.Rebuild? && w.writers[wid].phase.Loaded?
    requires w.writers[wid].kind.pull.Pull? && w.writers[wid].phase.ix.progress.Some?
    requires
      var kind := w.writers[wid].kind;
      var p := w.writers[wid].phase.ix.progress.value;
      kind.cursor != Some(p.cursor) || kind.target != p.target || kind.startedAt != p.startedAt
    ensures
      var wr := w.writers[wid];
      var p := wr.phase.ix.progress.value;
      var step := Step(cfg, w, Begin(wid, undated));
      && step.Some? && step.value.caches == w.caches && step.value.pub == w.pub
      && step.value.writers == w.writers[wid := wr.(phase := Ready,
          kind := Rebuild(p.target, p.startedAt, Some(p.cursor), wr.kind.failure, NoPull))]
  {
  }
}
