/** The single steps of a rebuild and a repair, each by what it changes and what it leaves:
    resuming, sweeping, merging one row, mending one entry. They hold in every world, legacy
    entries without a stamp included. */
module ProtocolPages {
  import opened Prelude
  import opened Controlplane
  import opened Protocol
  import opened ProtocolProgress
  import opened ProtocolRebuilds

  /* ---------- merging ---------- */

  /** The row is still there, as it was fetched. */
  predicate StillAs(src: Source, id: ChatId, item: Item) {
    id in src.chats && src.chats[id].etag == item.etag
  }

  /** The index already holds a newer generation of the row: by revision, and by etag where
      the entry carries no revision. */
  predicate HoldsNewer(ix: Index, id: ChatId, etag: nat, target: nat) {
    id in ix.chats &&
    if ix.chats[id].rev > 0 && target > 0 then target < ix.chats[id].rev else etag < ix.chats[id].etag
  }

  /** The fetched row is to be written. */
  predicate Due(src: Source, ix: Index, id: ChatId, item: Item, target: nat) {
    StillAs(src, id, item) && !HoldsNewer(ix, id, item.etag, target)
  }

  ghost predicate SameAt(ix: Index, ix': Index, id: ChatId) {
    && (id in ix'.chats <==> id in ix.chats) && (id in ix.chats ==> ix'.chats[id] == ix.chats[id])
    && (id in ix'.embs <==> id in ix.embs) && (id in ix.embs ==> ix'.embs[id] == ix.embs[id])
  }

  /** From `ix` to `ix'` the row of `id` went if it was deleted since, was written if it is due
      and its vectors could be computed, and was left alone otherwise. */
  ghost predicate RowMerged(
    src: Source, ix: Index, ix': Index, id: ChatId, item: Item, target: nat, fails: bool, emb: Emb) {
    if id !in src.chats then id !in ix'.chats
    else if Due(src, ix, id, item, target) && !fails then
      id in ix'.chats && id in ix'.embs && ix'.embs[id] == emb &&
      ix'.chats[id] == Entry(item.etag, target, item.text)
    else SameAt(ix, ix', id)
  }

  /** The job `wid` is merging a page: all it still has to merge was fetched. */
  ghost predicate OnPage(w: World, wid: nat) {
    && wid in w.writers && w.writers[wid].kind.Rebuild? && w.writers[wid].kind.pull.Pull?
    && w.writers[wid].phase.Paging? && w.writers[wid].phase.todo <= w.writers[wid].kind.pull.items.Keys
  }

  /** Only the page and the cached index behind it moved on. */
  ghost predicate PageMoved(w: World, w': World, wid: nat)
    requires OnPage(w, wid)
  {
    && OnPage(w', wid) && w'.src == w.src && w'.pub == w.pub && w'.writers[wid].kind == w.writers[wid].kind
    && w'.writers[wid].phase.ix.incomplete == w.writers[wid].phase.ix.incomplete
    && w'.writers[wid].phase.ix.progress == w.writers[wid].phase.ix.progress
  }

  /** Merging one row touches nothing else, and counts against the page exactly when the row
      should have been written and could not be. */
  lemma MergesExactly(cfg: Config, w: World, wid: nat, id: ChatId, fails: bool, emb: Emb)
    requires OnPage(w, wid) && id in w.writers[wid].phase.todo
    ensures
      var wr := w.writers[wid];
      var item := wr.kind.pull.items[id];
      var after := Step(cfg, w, Merge(wid, id, fails, emb));
      && after.Some? && PageMoved(w, after.value, wid)
      && var at := after.value.writers[wid].phase;
         && at.todo == wr.phase.todo - {id} && (forall x | x != id :: SameAt(wr.phase.ix, at.ix, x))
         && RowMerged(w.src, wr.phase.ix, at.ix, id, item, wr.kind.target, fails, emb)
         && at.bad == wr.phase.bad + if fails && Due(w.src, wr.phase.ix, id, item, wr.kind.target) then 1 else 0
  {
  }

  function MergeAll(wid: nat, ids: seq<ChatId>, fails: ChatId -> bool, emb: ChatId -> Emb): seq<Action> {
    if ids == [] then [] else [Merge(wid, ids[0], fails(ids[0]), emb(ids[0]))] + MergeAll(wid, ids[1..], fails, emb)
  }

  /** The rows of `todo` that should be written and cannot be. */
  ghost function Failing(
    src: Source, ix: Index, kind: Kind, todo: set<ChatId>, fails: ChatId -> bool): set<ChatId>
    requires kind.Rebuild? && kind.pull.Pull? && todo <= kind.pull.items.Keys
  {
    set x | x in todo && fails(x) && Due(src, ix, x, kind.pull.items[x], kind.target)
  }

  lemma FailingRest(
    src: Source, ix: Index, ix': Index, kind: Kind, todo: set<ChatId>, fails: ChatId -> bool, id: ChatId)
    requires kind.Rebuild? && kind.pull.Pull? && todo <= kind.pull.items.Keys && id in todo
    requires forall x | x != id :: SameAt(ix, ix', x)
    ensures |Failing(src, ix, kind, todo, fails)| == |Failing(src, ix', kind, todo - {id}, fails)| +
            if fails(id) && Due(src, ix, id, kind.pull.items[id], kind.target) then 1 else 0
  {
    var all, rest := Failing(src, ix, kind, todo, fails), Failing(src, ix', kind, todo - {id}, fails);
    forall x
      ensures x in rest <==> x in all && x != id
    {
      assert x != id ==> SameAt(ix, ix', x);
    }
    assert rest == all - {id};
  }

  /** A page's rows, merged in any order, whatever became of them since they were fetched: each
      goes, is written or is left alone by its own state, no other entry changes, and the page
      counts exactly the rows that should have been written and could not be. */
  lemma {:induction false} PageMergesExactly(
    cfg: Config, w: World, wid: nat, ids: seq<ChatId>, fails: ChatId -> bool, emb: ChatId -> Emb)
    returns (w': World)
    requires OnPage(w, wid) && Orders(ids, w.writers[wid].phase.todo)
    ensures Run(cfg, w, MergeAll(wid, ids, fails, emb)) == Some(w') && PageMoved(w, w', wid)
    ensures
      var wr, at := w.writers[wid], w'.writers[wid].phase;
      && at.todo == {}
      && (forall x | x !in wr.phase.todo :: SameAt(wr.phase.ix, at.ix, x))
      && (forall x | x in wr.phase.todo :: RowMerged(
            w.src, wr.phase.ix, at.ix, x, wr.kind.pull.items[x], wr.kind.target, fails(x), emb(x)))
      && at.bad == wr.phase.bad + |Failing(w.src, wr.phase.ix, wr.kind, wr.phase.todo, fails)|
    decreases |ids|
  {
    var wr := w.writers[wid];
    if ids == [] {
      OrderNone(wr.phase.todo);
      assert Failing(w.src, wr.phase.ix, wr.kind, {}, fails) == {};
      w' := w;
    } else {
      var id := ids[0];
      OrderRest(ids, wr.phase.todo);
      MergesExactly(cfg, w, wid, id, fails(id), emb(id));
      var w1 := Step(cfg, w, Merge(wid, id, fails(id), emb(id))).value;
      var ix1 := w1.writers[wid].phase.ix;
      w' := PageMergesExactly(cfg, w1, wid, ids[1..], fails, emb);
      OneStep(cfg, w, Merge(wid, id, fails(id), emb(id)));
      Joined(cfg, w, [Merge(wid, id, fails(id), emb(id))], w1, MergeAll(wid, ids[1..], fails, emb), w',
             MergeAll(wid, ids, fails, emb));
      FailingRest(w.src, wr.phase.ix, ix1, wr.kind, wr.phase.todo, fails, id);
      RowsJoin(w.src, wr, ix1, w'.writers[wid].phase.ix, id, fails, emb);
    }
  }

  /** One row merged, then the rest. */
  lemma RowsJoin(
    src: Source, wr: Writer, ix1: Index, ix': Index, id: ChatId, fails: ChatId -> bool, emb: ChatId -> Emb)
    requires wr.kind.Rebuild? && wr.kind.pull.Pull? && wr.phase.Paging?
    requires wr.phase.todo <= wr.kind.pull.items.Keys && id in wr.phase.todo
    requires forall x | x != id :: SameAt(wr.phase.ix, ix1, x)
    requires RowMerged(src, wr.phase.ix, ix1, id, wr.kind.pull.items[id], wr.kind.target, fails(id), emb(id))
    requires forall x | x !in wr.phase.todo - {id} :: SameAt(ix1, ix', x)
    requires forall x | x in wr.phase.todo - {id} :: RowMerged(
                 src, ix1, ix', x, wr.kind.pull.items[x], wr.kind.target, fails(x), emb(x))
    ensures forall x | x !in wr.phase.todo :: SameAt(wr.phase.ix, ix', x)
    ensures forall x | x in wr.phase.todo :: RowMerged(
                src, wr.phase.ix, ix', x, wr.kind.pull.items[x], wr.kind.target, fails(x), emb(x))
  {
    forall x | x in wr.phase.todo
      ensures RowMerged(src, wr.phase.ix, ix', x, wr.kind.pull.items[x], wr.kind.target, fails(x), emb(x))
    {
      if x == id {
        assert SameAt(ix1, ix', id);
      } else {
        assert SameAt(wr.phase.ix, ix1, x);
      }
    }
    forall x | x !in wr.phase.todo
      ensures SameAt(wr.phase.ix, ix', x)
    {
      assert SameAt(wr.phase.ix, ix1, x) && SameAt(ix1, ix', x);
    }
  }

  /* ---------- opening a page, resuming, mending ---------- */

  /** The job `wid` has loaded the index for a page. */
  ghost predicate AtLoaded(w: World, wid: nat) {
    && wid in w.writers && w.writers[wid].kind.Rebuild? && w.writers[wid].kind.pull.Pull?
    && w.writers[wid].phase.Loaded?
  }

  /** The first page of a rebuild over an index that carries no checkpoint drops exactly the
      entries stamped at or before the target and, of those without a stamp, the ones that are
      too old; a later page that continues its own checkpoint drops nothing. */
  lemma SweepsExactly(cfg: Config, w: World, wid: nat, undated: set<ChatId>)
    requires AtLoaded(w, wid) && Step(cfg, w, Begin(wid, undated)).Some?
    ensures
      var wr := w.writers[wid];
      var ix := wr.phase.ix;
      var w' := Step(cfg, w, Begin(wid, undated)).value;
      wid in w'.writers && w'.writers[wid].phase.Paging? ==>
        var at := w'.writers[wid].phase;
        && (forall x | x in at.ix.chats :: x in ix.chats && at.ix.chats[x] == ix.chats[x])
        && (forall x | x in ix.chats :: x in at.ix.chats <==>
              || wr.kind.cursor.Some?
              || wr.kind.target < ix.chats[x].rev
              || (ix.chats[x].rev == 0 && x !in undated))
        && at.todo == wr.kind.pull.items.Keys && at.bad == wr.kind.pull.failed
        && (wr.kind.cursor.Some? ==> ix.progress == Some(
              Progress(wr.kind.cursor.value, wr.kind.target, wr.kind.startedAt)))
  {
  }

  /** A starting job continues an earlier one exactly when the published index is partial, can
      be loaded, and carries a checkpoint whose target is the revision the record covers; then
      it takes over cursor, target and start time, and otherwise it keeps its own. */
  lemma ResumesExactly(cfg: Config, w: World, wid: nat, readable: bool)
    requires wid in w.writers && w.writers[wid].kind.Rebuild? && w.writers[wid].phase.Starting?
    requires w.writers[wid].replica !in w.locks
    ensures
      var wr := w.writers[wid];
      var pub := wr.phase.snap.pub;
      var loaded := LoadIndex(w, pub, wr, readable);
      var after := Step(cfg, w, Checkpoint(wid, readable));
      && after.Some? && wid in after.value.writers && after.value.writers[wid].phase.Ready?
      && var kind := after.value.writers[wid].kind;
         if pub.incomplete && loaded.Some? && loaded.value.0.incomplete && loaded.value.0.progress.Some? &&
            loaded.value.0.progress.value.target == pub.covered
         then
           var p := loaded.value.0.progress.value;
           kind == Rebuild(pub.covered, p.startedAt, Some(p.cursor), wr.kind.failure, wr.kind.pull)
         else kind == wr.kind
  {
  }

  /** A repair edits exactly the entries that wait for vectors, and nothing of an entry but
      what it waits for. */
  lemma MendsExactly(cfg: Config, w: World, wid: nat, id: ChatId, emb: Emb)
    requires wid in w.writers && w.writers[wid].kind.Repair?
    requires w.writers[wid].phase.Loaded? || w.writers[wid].phase.Mending?
    ensures
      var at := w.writers[wid].phase;
      var after := Step(cfg, w, Mend(wid, id, emb));
      && (after.Some? <==>
            && at.ok && id in at.ix.chats && id in at.ix.embs && at.ix.embs[id].Waiting?
            && emb != at.ix.embs[id] && emb != Waiting(NO_KEY))
      && (after.Some? ==>
            && wid in after.value.writers && after.value.writers[wid].phase.Mending?
            && var ix := after.value.writers[wid].phase.ix;
               && ix.chats == at.ix.chats && ix.embs == at.ix.embs[id := emb]
               && ix.incomplete == at.ix.incomplete && ix.progress == at.ix.progress)
  {
  }

  /** A load hands out an index exactly when the record names an object sealed under the
      writer's key and built for its model, the object says the same, and it can be read: from
      the replica's cache under that key, or from the bucket. */
  lemma LoadsExactly(cfg: Config, w: World, wid: nat, readable: bool)
    requires wid in w.writers && w.writers[wid].phase.Read?
    ensures
      var wr := w.writers[wid];
      var pub := wr.phase.snap.pub;
      var after := Step(cfg, w, Load(wid, readable));
      && after.Some? && wid in after.value.writers && after.value.writers[wid].phase.Loaded?
      && after.value.writers[wid].phase.snap == wr.phase.snap
      && (after.value.writers[wid].phase.ok <==>
            && readable && pub.obj.Some? && pub.key == wr.key && pub.model == wr.model
            && pub.obj.value in w.objs
            && w.objs[pub.obj.value].key == wr.key && w.objs[pub.obj.value].model == wr.model
            && (|| pub.obj.value in w.bucket
                || (wr.replica in w.caches && w.caches[wr.replica].obj == pub.obj.value &&
                    w.caches[wr.replica].key == wr.key)))
      && (!after.value.writers[wid].phase.ok ==>
            && after.value.writers[wid].phase.ix.chats == map[] && after.value.caches == w.caches)
  {
  }
}
