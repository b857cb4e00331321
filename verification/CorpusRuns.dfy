/** The protocol with the tables its indices stand for. Every index a run handles, in memory,
    cached or stored, comes with the mutations and reloads that built its table; what a query
    loads is then a table the mutators reach, and it answers over the live corpus. */
module CorpusRuns {
  import opened Prelude
  import opened Controlplane
  import opened Protocol
  import opened CorpusSearch
  import InvertedIndex
  import IndexCodec
  import ProtocolInvariant
  import ProtocolTheorems
  import SearchRanking

  type Op = InvertedIndex.Op
  type Plain = InvertedIndex.Plain

  /* ---------- how a table came about ---------- */

  datatype Event = Mutated(op: Op) | Reloaded

  /** What was done to a table since it was empty. */
  type History = seq<Event>

  /** A decoded index takes entries with postings and no vectors for pending. */
  ghost function Settled(p: Plain): Plain {
    p.(meta := map x | x in p.meta ::
         p.meta[x].(pending := p.meta[x].pending ||
                      (p.meta[x].vectors == [] && x in p.docs && p.docs[x] != {})))
  }

  ghost function After(p: Plain, e: Event): Plain {
    match e
    case Mutated(op) => InvertedIndex.Play(p, op)
    case Reloaded => Settled(p)
  }

  ghost function Final(h: History): Plain {
    if h == [] then InvertedIndex.Meaning(InvertedIndex.EMPTY_TABLE) else After(Final(h[..|h| - 1]), h[|h| - 1])
  }

  lemma FinalStep(h: History, e: Event)
    ensures Final(h + [e]) == After(Final(h), e)
  {
    assert (h + [e])[..|h|] == h;
  }

  lemma ReloadedMeans(t: InvertedIndex.Table)
    requires InvertedIndex.TableOK(t)
    ensures InvertedIndex.TableOK(IndexCodec.Loaded(t))
    ensures InvertedIndex.Meaning(IndexCodec.Loaded(t)) == Settled(InvertedIndex.Meaning(t))
  {
    IndexCodec.StoreThenLoad(t);
    SettledMeta(InvertedIndex.Meta(IndexCodec.Loaded(t)), InvertedIndex.Meaning(t), t.chats);
  }

  lemma SettledMeta(
    meta: map<ChatId, InvertedIndex.Entry>, p: Plain, chats: map<ChatId, InvertedIndex.Entry>)
    requires meta.Keys == chats.Keys && p.meta.Keys == chats.Keys && p.docs.Keys == chats.Keys
    requires forall x | x in chats ::
               var missing := chats[x].vectors == [] && p.docs[x] != {};
               meta[x] == p.meta[x].(pending := chats[x].pending || missing)
    requires forall x | x in chats :: p.meta[x].vectors == chats[x].vectors && p.meta[x].pending == chats[x].pending
    ensures meta == Settled(p).meta
  {
    assert forall x | x in meta ::
      meta[x] == Settled(p).meta[x];
    assert meta.Keys == Settled(p).meta.Keys;
  }

  lemma DecodesLoaded(t: InvertedIndex.Table, header: IndexCodec.Header)
    requires InvertedIndex.TableOK(t) && header.reindex.None?
    ensures
      var r := IndexCodec.Encoded(t, header);
      && IndexCodec.Accepts(r) && !IndexCodec.Stray(r)
      && IndexCodec.Inferred(r) == IndexCodec.Encoded(IndexCodec.Loaded(t), header)
      && |t.slots| - |InvertedIndex.Live(t.slots)| == t.dead
  {
    IndexCodec.ReachableIsAccepted(t, header);
    InvertedIndex.CompactedSlotsOK(t.slots, t.chats);
  }

  /** Store a table and decode it again. */
  method StoredAndLoaded(t: InvertedIndex.Table) returns (u: InvertedIndex.Table)
    requires InvertedIndex.TableOK(t)
    ensures u == IndexCodec.Loaded(t)
  {
    var header := IndexCodec.Header(false, None);
    DecodesLoaded(t, header);
    var o := IndexCodec.Decode(IndexCodec.Encoded(t, header));
    u := InvertedIndex.Table(o.raw.slots, o.raw.chats, o.raw.postings, t.dims, o.dead);
  }

  method Reload(ix: InvertedIndex.Index) returns (again: InvertedIndex.Index)
    requires ix.Valid()
    ensures fresh(again) && again.Valid()
    ensures InvertedIndex.Meaning(again.View()) == Settled(InvertedIndex.Meaning(ix.View()))
  {
    ReloadedMeans(ix.View());
    var t := StoredAndLoaded(InvertedIndex.Table(ix.slots, ix.chats, ix.postings, ix.dims, ix.dead));
    again := new InvertedIndex.Index.Restored(t);
  }

  /** Every history is that of a table the mutators and the decoder reach. */
  method Rebuilt(h: History) returns (ix: InvertedIndex.Index)
    ensures fresh(ix) && ix.Valid() && InvertedIndex.Meaning(ix.View()) == Final(h)
  {
    ix := new InvertedIndex.Index();
    var i := 0;
    while i < |h|
      invariant 0 <= i <= |h|
      invariant fresh(ix) && ix.Valid() && InvertedIndex.Meaning(ix.View()) == Final(h[..i])
    {
      FinalStep(h[..i], h[i]);
      assert h[..i] + [h[i]] == h[..i + 1];
      match h[i] {
        case Mutated(op) => ix.Do(op);
        case Reloaded => ix := Reload(ix);
      }
      i := i + 1;
    }
    assert h[..i] == h;
  }

  /* ---------- histories of every index in a run ---------- */

  datatype Books = Books(objs: map<ObjectKey, History>, caches: map<nat, History>, held: map<nat, History>)

  const NO_BOOKS := Books(map[], map[], map[])

  function Of(m: map<nat, History>, k: nat): History {
    if k in m then m[k] else []
  }

  /** What the protocol leaves open about a step: the entry an update stores, the mutation of
      a repair, and the order of a sweep. */
  datatype Choice = Choice(entry: InvertedIndex.Entry, mend: Op, order: seq<ChatId>)

  function Noted(h: History, ops: seq<Op>): History {
    if ops == [] then h else Noted(h, ops[..|ops| - 1]) + [Mutated(ops[|ops| - 1])]
  }

  function Removals(order: seq<ChatId>): seq<Op> {
    if order == [] then [] else Removals(order[..|order| - 1]) + [InvertedIndex.DoRemove(order[|order| - 1])]
  }

  /** The mutations by which a writer that goes on edits its index. */
  function Ops(w: World, wr: Writer, a: Action, c: Choice, tokensOf: Tokenizer): seq<Op> {
    match a
    case Mend(_, _, _) => [c.mend]
    case Edit(_, _, _) =>
      if wr.kind.Push? && wr.phase.Loaded? then
        var Push(id, text, _, rev) := wr.kind;
        if id in w.src.chats || NoLaterWrite(wr.phase.snap, rev)
        then [InvertedIndex.DoUpsert(id, c.entry, tokensOf(text))]
        else [InvertedIndex.DoRemove(id)]
      else if wr.kind.Delete? then [InvertedIndex.DoRemove(wr.kind.id)]
      else []
    case Begin(_, _) => if wr.kind.Rebuild? && wr.kind.cursor.None? then Removals(c.order) else []
    case Merge(_, id, fails, _) =>
      if !(wr.kind.Rebuild? && wr.kind.pull.Pull? && id in wr.kind.pull.items && wr.phase.Paging?) then [] else
      var item := wr.kind.pull.items[id];
      var ix := wr.phase.ix;
      if id !in w.src.chats then [InvertedIndex.DoRemove(id)]
      else if w.src.chats[id].etag != item.etag || fails ||
              (id in ix.chats && Supersedes(ix.chats[id], item.etag, wr.kind.target)) then []
      else [InvertedIndex.DoUpsert(id, c.entry, tokensOf(item.text))]
    case _ => []
  }

  predicate Edits(a: Action) {
    a.Mend? || a.Edit? || a.Begin? || a.Merge? || a.End?
  }

  /** The writer is at work on its index after the step. */
  predicate GoesOn(a: Action, w': World) {
    Edits(a) && a.wid in w'.writers && ProtocolInvariant.Editing(w'.writers[a.wid].phase)
  }

  /** An update is accepted by the index and stores the stamp and etag of the step; a repair
      is of the entry it names; a sweep removes what it drops. */
  ghost predicate Fits(w: World, b: Books, a: Action, c: Choice, w': World, tokensOf: Tokenizer) {
    GoesOn(a, w') && a.wid in w.writers && Holds(w.writers[a.wid].phase) ==>
      var before, ix := IndexHeld(w.writers[a.wid].phase), w'.writers[a.wid].phase.ix;
      var p := Final(Of(b.held, a.wid));
      && (a.Mend? ==> (c.mend.DoRepair? || c.mend.DoMark?) && c.mend.id == a.id)
      && (a.Begin? ==> Ids(c.order) == before.chats.Keys - ix.chats.Keys)
      && forall op | op in Ops(w, w.writers[a.wid], a, c, tokensOf) && op.DoUpsert? :: Stores(p, op, ix)
  }

  predicate Stores(p: Plain, op: Op, ix: Index)
    requires op.DoUpsert?
  {
    && InvertedIndex.Acceptable(p.meta, p.dims, op.id, op.e) && op.id in ix.chats
    && op.e.rev == ix.chats[op.id].rev && op.e.etag == ix.chats[op.id].etag
  }

  function Holds(phase: Phase): bool {
    phase.Loaded? || phase.Mending? || phase.Paging? || phase.Prepared? || phase.Sending?
  }

  function IndexHeld(phase: Phase): Index
    requires Holds(phase)
  {
    phase.ix
  }

  /** A load hands out the cached table itself, or decodes the stored one. */
  function LoadBooks(
    w: World, b: Books, pub: Publication, wr: Writer, readable: bool): (History, map<nat, History>) {
    if LoadIndex(w, pub, wr, readable).None? then ([], b.caches)
    else if Hit(w, wr, Wanted(pub, wr).value) then (Of(b.caches, wr.replica), b.caches)
    else
      var h := Of(b.objs, Wanted(pub, wr).value) + [Reloaded];
      (h, b.caches[wr.replica := h])
  }

  /** The writer's edits reach the cached table too. */
  function Worked(w: World, b: Books, wid: nat, wr: Writer, ops: seq<Op>): Books
    requires Holds(wr.phase)
  {
    var h := Noted(Of(b.held, wid), ops);
    var shared := Shares(w.caches, wr, wr.phase.snap.pub, wr.phase.ok);
    b.(held := b.held[wid := h], caches := if shared then b.caches[wr.replica := h] else b.caches)
  }

  function LoadNext(w: World, b: Books, a: Action): Books
    requires a.Load? && a.wid in w.writers && w.writers[a.wid].phase.Read?
  {
    var wr := w.writers[a.wid];
    var (h, caches) := LoadBooks(w, b, wr.phase.snap.pub, wr, a.readable);
    b.(held := b.held[a.wid := h], caches := caches)
  }

  function CheckpointNext(w: World, b: Books, a: Action): Books
    requires a.Checkpoint? && a.wid in w.writers && w.writers[a.wid].phase.Starting?
  {
    var wr := w.writers[a.wid];
    if wr.phase.snap.pub.incomplete
    then b.(caches := LoadBooks(w, b, wr.phase.snap.pub, wr, a.readable).1) else b
  }

  function SaveNext(w: World, b: Books, a: Action): Books
    requires a.Save? && a.wid in w.writers
  {
    var h := Of(b.held, a.wid);
    var noted := b.(objs := b.objs[w.nextObj := h]);
    if a.stored then noted.(caches := b.caches[w.writers[a.wid].replica := h]) else if a.landed then noted else b
  }

  function NextBooks(w: World, b: Books, a: Action, c: Choice, w': World, tokensOf: Tokenizer): Books {
    if a.Load? && a.wid in w.writers && w.writers[a.wid].phase.Read? then LoadNext(w, b, a)
    else if a.Checkpoint? && a.wid in w.writers && w.writers[a.wid].phase.Starting? then CheckpointNext(w, b, a)
    else if a.Save? && a.wid in w.writers then SaveNext(w, b, a)
    else if GoesOn(a, w') && a.wid in w.writers && Holds(w.writers[a.wid].phase)
    then Worked(w, b, a.wid, w.writers[a.wid], Ops(w, w.writers[a.wid], a, c, tokensOf))
    else b
  }

  /** Every index stands for the table its history builds. */
  ghost predicate Matched(w: World, b: Books, tokensOf: Tokenizer) {
    && (forall o | o in w.objs :: o in b.objs && Realises(Final(b.objs[o]), w.objs[o].ix, tokensOf))
    && (forall r | r in w.caches :: r in b.caches && Realises(Final(b.caches[r]), w.caches[r].ix, tokensOf))
    && (forall i | i in w.writers && Holds(w.writers[i].phase) ::
          i in b.held && Realises(Final(b.held[i]), IndexHeld(w.writers[i].phase), tokensOf))
  }

  /* ---------- what each step does to the histories ---------- */

  lemma {:induction false} NotedIs(h: History, ops: seq<Op>)
    ensures Final(Noted(h, ops)) == InvertedIndex.PlayAll(Final(h), ops)
  {
    if ops != [] {
      NotedIs(h, ops[..|ops| - 1]);
      FinalStep(Noted(h, ops[..|ops| - 1]), Mutated(ops[|ops| - 1]));
    }
  }

  function Ids(order: seq<ChatId>): set<ChatId> {
    set x | x in order
  }

  lemma IdsStep(order: seq<ChatId>)
    requires order != []
    ensures Ids(order) == Ids(order[..|order| - 1]) + {order[|order| - 1]}
  {
    assert order == order[..|order| - 1] + [order[|order| - 1]];
  }

  /** A sweep in any order removes exactly the swept entries. */
  lemma {:induction false} SweepRealised(p: Plain, ix: Index, order: seq<ChatId>, tokensOf: Tokenizer)
    requires Realises(p, ix, tokensOf)
    ensures Realises(InvertedIndex.PlayAll(p, Removals(order)), ix.(chats := ix.chats - Ids(order)), tokensOf)
  {
    if order == [] {
      assert ix.chats - Ids(order) == ix.chats;
    } else {
      var front := order[..|order| - 1];
      SweepRealised(p, ix, front, tokensOf);
      assert Removals(order)[..|Removals(order)| - 1] == Removals(front);
      IdsStep(order);
    }
  }

  lemma SameEntries(p: Plain, ix: Index, other: Index, tokensOf: Tokenizer)
    requires Realises(p, ix, tokensOf) && other.chats == ix.chats
    ensures Realises(p, other, tokensOf)
  {
    assert IndexDocs(other, tokensOf) == IndexDocs(ix, tokensOf);
  }

  /** An accepted update puts the entry the protocol puts. */
  lemma StoreRealised(p: Plain, ix: Index, op: Op, e: Entry, emb: Emb, after: Index, tokensOf: Tokenizer)
    requires Realises(p, ix, tokensOf) && op.DoUpsert? && op.tokens == tokensOf(e.text)
    requires Stores(p, op, after) && after.chats == Put(ix, op.id, e, emb).chats
    ensures Realises(InvertedIndex.Play(p, op), after, tokensOf)
  {
    PutRealised(p, ix, op.id, e, emb, op.e, tokensOf);
    SameEntries(InvertedIndex.Play(p, op), Put(ix, op.id, e, emb), after, tokensOf);
  }

  lemma RemovalRealised(p: Plain, ix: Index, id: ChatId, after: Index, tokensOf: Tokenizer)
    requires Realises(p, ix, tokensOf) && after.chats == Without(ix, id).chats
    ensures Realises(InvertedIndex.Play(p, InvertedIndex.DoRemove(id)), after, tokensOf)
  {
    WithoutRealised(p, ix, id, tokensOf);
    SameEntries(InvertedIndex.Play(p, InvertedIndex.DoRemove(id)), Without(ix, id), after, tokensOf);
  }

  /** The writer's mutations take the table of its index to the table of the edited one. */
  ghost predicate OpsRealise(w: World, b: Books, a: Action, c: Choice, w': World, tokensOf: Tokenizer)
    requires Edits(a) && a.wid in w.writers && GoesOn(a, w')
  {
    Realises(Final(Noted(Of(b.held, a.wid), Ops(w, w.writers[a.wid], a, c, tokensOf))),
             w'.writers[a.wid].phase.ix, tokensOf)
  }

  ghost predicate HeldRealised(w: World, b: Books, a: Action, tokensOf: Tokenizer) {
    Edits(a) && a.wid in w.writers && Holds(w.writers[a.wid].phase) ==>
      Realises(Final(Of(b.held, a.wid)), IndexHeld(w.writers[a.wid].phase), tokensOf)
  }

  lemma OneOpRealises(w: World, b: Books, a: Action, c: Choice, w': World, op: Op, tokensOf: Tokenizer)
    requires Edits(a) && a.wid in w.writers && GoesOn(a, w')
    requires Ops(w, w.writers[a.wid], a, c, tokensOf) == [op]
    requires Realises(InvertedIndex.Play(Final(Of(b.held, a.wid)), op), w'.writers[a.wid].phase.ix, tokensOf)
    ensures OpsRealise(w, b, a, c, w', tokensOf)
  {
    NotedIs(Of(b.held, a.wid), [op]);
  }

  lemma MendOps(w: World, b: Books, a: Action, c: Choice, w': World, tokensOf: Tokenizer)
    requires HeldRealised(w, b, a, tokensOf) && a.Mend? && DoMend(w, a) == Some(w') && Fits(w, b, a, c, w', tokensOf)
    ensures GoesOn(a, w') && OpsRealise(w, b, a, c, w', tokensOf)
  {
    var ix := w.writers[a.wid].phase.ix;
    var p := Final(Of(b.held, a.wid));
    MendRealised(p, ix, c.mend, ix.embs, tokensOf);
    SameEntries(InvertedIndex.Play(p, c.mend), ix, w'.writers[a.wid].phase.ix, tokensOf);
    OneOpRealises(w, b, a, c, w', c.mend, tokensOf);
  }

  lemma PushOps(w: World, b: Books, a: Action, c: Choice, w': World, tokensOf: Tokenizer)
    requires HeldRealised(w, b, a, tokensOf) && a.Edit? && DoEdit(w, a) == Some(w') && Fits(w, b, a, c, w', tokensOf)
    requires w.writers[a.wid].kind.Push? && GoesOn(a, w')
    ensures OpsRealise(w, b, a, c, w', tokensOf)
  {
    var wr := w.writers[a.wid];
    var Push(id, text, etag, rev) := wr.kind;
    var p := Final(Of(b.held, a.wid));
    var op := Ops(w, wr, a, c, tokensOf)[0];
    if op.DoUpsert? {
      StoreRealised(p, wr.phase.ix, op, Entry(etag, rev, text), a.emb, w'.writers[a.wid].phase.ix, tokensOf);
    } else {
      RemovalRealised(p, wr.phase.ix, id, w'.writers[a.wid].phase.ix, tokensOf);
    }
    OneOpRealises(w, b, a, c, w', op, tokensOf);
  }

  /** A push or a delete either leaves or prepares its edited index. */
  lemma PushLeaves(
    w: World, wid: nat, wr: Writer, snap: Snap, ok: bool, ix: Index, fails: bool, emb: Emb, w': World)
    requires wr.kind.Push? && w' == EditPush(w, wid, wr, snap, ok, ix, fails, emb)
    ensures
      if PushSkips(w, wr, snap, ix, fails) then w' == Finish(w, wid)
      else
        && wid in w'.writers && w'.writers[wid].phase.Prepared?
        && w'.writers[wid] == wr.(phase := w'.writers[wid].phase)
        && w' == Edited(w, wid, wr, snap.pub, ok, w'.writers[wid].phase.ix, w'.writers[wid].phase)
  {
  }

  lemma DeleteLeaves(w: World, wid: nat, wr: Writer, snap: Snap, ok: bool, ix: Index, w': World)
    requires wr.kind.Delete? && w' == EditDelete(w, wid, wr, snap, ok, ix)
    ensures
      || w' == Finish(w, wid)
      || (&& wid in w'.writers && w'.writers[wid].phase.Prepared?
          && w'.writers[wid].phase.ix.chats == Without(ix, wr.kind.id).chats
          && w'.writers[wid] == wr.(phase := w'.writers[wid].phase)
          && w' == Edited(w, wid, wr, snap.pub, ok, w'.writers[wid].phase.ix, w'.writers[wid].phase))
  {
  }

  lemma DeleteOps(w: World, b: Books, a: Action, c: Choice, w': World, tokensOf: Tokenizer)
    requires HeldRealised(w, b, a, tokensOf) && a.Edit? && DoEdit(w, a) == Some(w')
    requires w.writers[a.wid].kind.Delete? && GoesOn(a, w')
    ensures OpsRealise(w, b, a, c, w', tokensOf)
  {
    var wr := w.writers[a.wid];
    DeleteLeaves(w, a.wid, wr, wr.phase.snap, wr.phase.ok, wr.phase.ix, w');
    RemovalRealised(
      Final(Of(b.held, a.wid)), wr.phase.ix, wr.kind.id, w'.writers[a.wid].phase.ix, tokensOf);
    OneOpRealises(w, b, a, c, w', InvertedIndex.DoRemove(wr.kind.id), tokensOf);
  }

  lemma BeginSweeps(w: World, b: Books, a: Action, c: Choice, w': World, tokensOf: Tokenizer)
    requires HeldRealised(w, b, a, tokensOf) && a.Begin? && a.wid in w.writers && GoesOn(a, w')
    requires w.writers[a.wid].kind.Rebuild? && w.writers[a.wid].kind.cursor.None? && w.writers[a.wid].phase.Loaded?
    requires w'.writers[a.wid].phase.ix == Swept(w.writers[a.wid].phase.ix, w.writers[a.wid].kind.target, a.undated)
    requires Ids(c.order) == w.writers[a.wid].phase.ix.chats.Keys - w'.writers[a.wid].phase.ix.chats.Keys
    ensures OpsRealise(w, b, a, c, w', tokensOf)
  {
    var wr := w.writers[a.wid];
    var ix, swept := wr.phase.ix, w'.writers[a.wid].phase.ix;
    var p := Final(Of(b.held, a.wid));
    SweepRealised(p, ix, c.order, tokensOf);
    NotedIs(Of(b.held, a.wid), Removals(c.order));
    SameEntries(InvertedIndex.PlayAll(p, Removals(c.order)), ix.(chats := ix.chats - Ids(c.order)), swept, tokensOf);
  }

  lemma BeginOps(cfg: Config, w: World, b: Books, a: Action, c: Choice, w': World, tokensOf: Tokenizer)
    requires HeldRealised(w, b, a, tokensOf) && a.Begin? && DoBegin(cfg, w, a) == Some(w') && GoesOn(a, w')
    requires Fits(w, b, a, c, w', tokensOf)
    ensures OpsRealise(w, b, a, c, w', tokensOf)
  {
    if w.writers[a.wid].kind.cursor.None? {
      BeginSweeps(w, b, a, c, w', tokensOf);
    }
  }

  lemma MergeOps(w: World, b: Books, a: Action, c: Choice, w': World, tokensOf: Tokenizer)
    requires HeldRealised(w, b, a, tokensOf) && a.Merge? && DoMerge(w, a) == Some(w') && Fits(w, b, a, c, w', tokensOf)
    ensures GoesOn(a, w') && OpsRealise(w, b, a, c, w', tokensOf)
  {
    var wr := w.writers[a.wid];
    var item := wr.kind.pull.items[a.id];
    var p := Final(Of(b.held, a.wid));
    var ops := Ops(w, wr, a, c, tokensOf);
    if ops != [] {
      if ops[0].DoUpsert? {
        StoreRealised(p, wr.phase.ix, ops[0], Entry(item.etag, wr.kind.target, item.text), a.emb,
            w'.writers[a.wid].phase.ix, tokensOf);
      } else {
        RemovalRealised(p, wr.phase.ix, a.id, w'.writers[a.wid].phase.ix, tokensOf);
      }
      OneOpRealises(w, b, a, c, w', ops[0], tokensOf);
    }
  }

  /** An edited index and the cache that shares it stand for the edited table. */
  lemma WorkedMatched(
    w: World, b: Books, wid: nat, wr: Writer, ops: seq<Op>, ix: Index, phase: Phase, tokensOf: Tokenizer)
    requires Matched(w, b, tokensOf) && wid in w.writers && Holds(w.writers[wid].phase) && Holds(phase)
    requires wr.replica == w.writers[wid].replica && wr.key == w.writers[wid].key && phase.ix == ix
    requires Realises(Final(Noted(Of(b.held, wid), ops)), ix, tokensOf)
    ensures
      var old' := w.writers[wid].phase;
      Matched(Edited(w, wid, wr, old'.snap.pub, old'.ok, ix, phase), Worked(w, b, wid, w.writers[wid], ops), tokensOf)
  {
  }

  lemma StepOps(cfg: Config, w: World, b: Books, a: Action, c: Choice, w': World, tokensOf: Tokenizer)
    requires HeldRealised(w, b, a, tokensOf) && Step(cfg, w, a) == Some(w') && Fits(w, b, a, c, w', tokensOf)
    requires Edits(a) && GoesOn(a, w')
    ensures a.wid in w.writers && OpsRealise(w, b, a, c, w', tokensOf)
  {
    match a {
      case Mend(_, _, _) => MendOps(w, b, a, c, w', tokensOf);
      case Edit(_, _, _) =>
        if w.writers[a.wid].kind.Push? {
          PushOps(w, b, a, c, w', tokensOf);
        } else if w.writers[a.wid].kind.Delete? {
          DeleteOps(w, b, a, c, w', tokensOf);
        }
      case Begin(_, _) => BeginOps(cfg, w, b, a, c, w', tokensOf);
      case Merge(_, _, _, _) => MergeOps(w, b, a, c, w', tokensOf);
      case End(_) =>
    }
  }

  /** A writer at work has edited the index it held. */
  ghost predicate AtWork(w: World, wid: nat, w': World) {
    && wid in w.writers && wid in w'.writers && Holds(w.writers[wid].phase) && Holds(w'.writers[wid].phase)
    && var before, now := w.writers[wid].phase, w'.writers[wid];
       && w' == Edited(w, wid, now.(phase := before), before.snap.pub, before.ok, now.phase.ix, now.phase)
       && now.replica == w.writers[wid].replica && now.key == w.writers[wid].key
  }

  lemma EditWorks(w: World, a: Action, w': World)
    requires a.Edit? && DoEdit(w, a) == Some(w') && GoesOn(a, w')
    ensures AtWork(w, a.wid, w')
  {
    var wr := w.writers[a.wid];
    if wr.kind.Push? {
      PushLeaves(w, a.wid, wr, wr.phase.snap, wr.phase.ok, wr.phase.ix, a.fails, a.emb, w');
    } else if wr.kind.Delete? {
      DeleteLeaves(w, a.wid, wr, wr.phase.snap, wr.phase.ok, wr.phase.ix, w');
    }
    assert w'.writers[a.wid].(phase := wr.phase) == wr;
  }

  lemma StepWorks(cfg: Config, w: World, a: Action, w': World)
    requires Step(cfg, w, a) == Some(w') && Edits(a) && GoesOn(a, w')
    ensures AtWork(w, a.wid, w')
  {
    if a.Edit? {
      EditWorks(w, a, w');
    }
  }

  lemma EditStepMatched(cfg: Config, w: World, b: Books, a: Action, c: Choice, w': World, tokensOf: Tokenizer)
    requires Matched(w, b, tokensOf) && Step(cfg, w, a) == Some(w') && Fits(w, b, a, c, w', tokensOf)
    requires Edits(a) && GoesOn(a, w')
    ensures a.wid in w.writers && Holds(w.writers[a.wid].phase)
    ensures
      Matched(w', Worked(w, b, a.wid, w.writers[a.wid], Ops(w, w.writers[a.wid], a, c, tokensOf)), tokensOf)
  {
    assert HeldRealised(w, b, a, tokensOf);
    StepOps(cfg, w, b, a, c, w', tokensOf);
    StepWorks(cfg, w, a, w');
    var wr, now := w.writers[a.wid], w'.writers[a.wid];
    WorkedMatched(
      w, b, a.wid, now.(phase := wr.phase), Ops(w, wr, a, c, tokensOf), now.phase.ix, now.phase, tokensOf);
  }

  /** A load hands out a table that stands for the index the protocol loads. */
  lemma LoadRealises(w: World, b: Books, pub: Publication, wr: Writer, readable: bool, tokensOf: Tokenizer)
    requires Matched(w, b, tokensOf)
    ensures
      var loaded := LoadIndex(w, pub, wr, readable);
      var (h, caches) := LoadBooks(w, b, pub, wr, readable);
      && Realises(Final(h), if loaded.Some? then loaded.value.0 else EMPTY, tokensOf)
      && Matched(w.(caches := if loaded.Some? then loaded.value.1 else w.caches), b.(caches := caches), tokensOf)
  {
    if LoadIndex(w, pub, wr, readable).Some? && !Hit(w, wr, Wanted(pub, wr).value) {
      var obj := Wanted(pub, wr).value;
      FinalStep(b.objs[obj], Reloaded);
    }
  }

  /** The step made no index that was not there before. */
  ghost predicate NothingNew(w: World, w': World) {
    && w'.objs == w.objs
    && (forall r | r in w'.caches :: r in w.caches && w'.caches[r].ix == w.caches[r].ix)
    && (forall i | i in w'.writers && Holds(w'.writers[i].phase) ::
          && i in w.writers && Holds(w.writers[i].phase)
          && IndexHeld(w'.writers[i].phase) == IndexHeld(w.writers[i].phase))
  }

  lemma NothingNewMatched(w: World, b: Books, w': World, tokensOf: Tokenizer)
    requires Matched(w, b, tokensOf) && NothingNew(w, w')
    ensures Matched(w', b, tokensOf)
  {
  }

  lemma LetGo(w: World, w': World, wid: nat)
    requires w'.objs == w.objs && w'.caches == w.caches && wid in w'.writers && !Holds(w'.writers[wid].phase)
    requires w'.writers == w.writers[wid := w'.writers[wid]]
    ensures NothingNew(w, w')
  {
  }

  lemma Gone(w: World, w': World, wid: nat)
    requires w'.objs == w.objs && w'.writers == w.writers - {wid}
    requires forall r | r in w'.caches :: r in w.caches && w'.caches[r] == w.caches[r]
    ensures NothingNew(w, w')
  {
  }

  lemma TakesUp(w: World, b: Books, wid: nat, wr: Writer, h: History, tokensOf: Tokenizer)
    requires Matched(w, b, tokensOf) && Holds(wr.phase) && Realises(Final(h), IndexHeld(wr.phase), tokensOf)
    ensures Matched(SetWriter(w, wid, wr), b.(held := b.held[wid := h]), tokensOf)
  {
  }

  lemma LoadMatched(w: World, b: Books, a: Action, w': World, tokensOf: Tokenizer)
    requires Matched(w, b, tokensOf) && a.Load? && DoLoad(w, a) == Some(w')
    ensures Matched(w', LoadNext(w, b, a), tokensOf)
  {
    var wr := w.writers[a.wid];
    LoadRealises(w, b, wr.phase.snap.pub, wr, a.readable, tokensOf);
    var (h, caches) := LoadBooks(w, b, wr.phase.snap.pub, wr, a.readable);
    TakesUp(w.(caches := w'.caches), b.(caches := caches), a.wid, w'.writers[a.wid], h, tokensOf);
  }

  lemma CheckpointLoads(w: World, a: Action, w': World)
    requires a.Checkpoint? && DoCheckpoint(w, a) == Some(w')
    ensures a.wid in w.writers && w.writers[a.wid].phase.Starting?
    ensures
      var wr := w.writers[a.wid];
      var loaded := LoadIndex(w, wr.phase.snap.pub, wr, a.readable);
      && w'.caches == (if wr.phase.snap.pub.incomplete && loaded.Some? then loaded.value.1 else w.caches)
      && NothingNew(w.(caches := w'.caches), w')
  {
    LetGo(w.(caches := w'.caches), w', a.wid);
  }

  lemma CheckpointMatched(w: World, b: Books, a: Action, w': World, tokensOf: Tokenizer)
    requires Matched(w, b, tokensOf) && a.Checkpoint? && DoCheckpoint(w, a) == Some(w')
    ensures Matched(w', CheckpointNext(w, b, a), tokensOf)
  {
    CheckpointLoads(w, a, w');
    var wr := w.writers[a.wid];
    if wr.phase.snap.pub.incomplete {
      LoadRealises(w, b, wr.phase.snap.pub, wr, a.readable, tokensOf);
    }
    NothingNewMatched(w.(caches := w'.caches), CheckpointNext(w, b, a), w', tokensOf);
  }

  lemma LandedMatched(w: World, b: Books, a: Action, w': World, tokensOf: Tokenizer)
    requires Matched(w, b, tokensOf) && a.Save? && !a.stored && a.landed && DoSave(w, a) == Some(w')
    ensures Matched(w', SaveNext(w, b, a), tokensOf)
  {
    var h := Of(b.held, a.wid);
    var landed := w.(objs := w'.objs);
    Gone(landed, w', a.wid);
    NothingNewMatched(landed, b.(objs := b.objs[w.nextObj := h]), w', tokensOf);
  }

  lemma FailedMatched(w: World, b: Books, a: Action, w': World, tokensOf: Tokenizer)
    requires Matched(w, b, tokensOf) && a.Save? && !a.stored && !a.landed && DoSave(w, a) == Some(w')
    ensures Matched(w', b, tokensOf)
  {
    Gone(w, w', a.wid);
    NothingNewMatched(w, b, w', tokensOf);
  }

  lemma SavedMatched(w: World, b: Books, a: Action, w': World, tokensOf: Tokenizer)
    requires Matched(w, b, tokensOf) && a.Save? && a.stored && DoSave(w, a) == Some(w')
    ensures Matched(w', SaveNext(w, b, a), tokensOf)
  {
    var put := w.(objs := w'.objs);
    NothingNewMatched(put.(caches := w'.caches), SaveNext(w, b, a), w', tokensOf);
  }

  lemma JobNothingNew(cfg: Config, w: World, a: Action, w': World)
    requires Step(cfg, w, a) == Some(w') && (a.StartRebuild? || a.StartRepair? || a.List? || a.Fetch?)
    ensures NothingNew(w, w')
  {
    if !a.Fetch? {
      LetGo(w, w', a.wid);
    }
  }

  lemma EnterNothingNew(w: World, a: Action, w': World)
    requires a.Enter? && DoEnter(w, a) == Some(w')
    ensures NothingNew(w, w')
  {
    if a.wid in w'.writers {
      LetGo(w, w', a.wid);
    } else {
      Gone(w, w', a.wid);
    }
  }

  lemma CleanNothingNew(w: World, a: Action, w': World)
    requires a.Clean? && DoClean(w, a) == Some(w')
    ensures NothingNew(w, w')
  {
    if a.wid in w'.writers {
      LetGo(w, w', a.wid);
    } else {
      Gone(w, w', a.wid);
    }
  }

  lemma LockNothingNew(cfg: Config, w: World, a: Action, w': World)
    requires Step(cfg, w, a) == Some(w') && (a.Enter? || a.ReadPub? || a.Send? || a.Reconcile?)
    ensures NothingNew(w, w')
  {
    match a {
      case Enter(_) => EnterNothingNew(w, a, w');
      case ReadPub(_) => LetGo(w, w', a.wid);
      case Send(_, _) =>
      case Reconcile(_) => LetGo(w, w', a.wid);
    }
  }

  lemma LeaveNothingNew(cfg: Config, w: World, a: Action, w': World)
    requires Step(cfg, w, a) == Some(w') && (a.Clean? || a.Quit? || a.Crash? || a.Evict?)
    ensures NothingNew(w, w')
  {
    match a {
      case Clean(_, _) => CleanNothingNew(w, a, w');
      case Quit(_) =>
      case _ =>
    }
  }

  lemma LeftNothingNew(w: World, a: Action, w': World)
    requires a.Edit? && DoEdit(w, a) == Some(w') && !GoesOn(a, w')
    ensures NothingNew(w, w')
  {
    var wr := w.writers[a.wid];
    if wr.kind.Push? {
      PushLeaves(w, a.wid, wr, wr.phase.snap, wr.phase.ok, wr.phase.ix, a.fails, a.emb, w');
    } else if wr.kind.Delete? {
      DeleteLeaves(w, a.wid, wr, wr.phase.snap, wr.phase.ok, wr.phase.ix, w');
    }
    assert w' == Finish(w, a.wid);
    Gone(w, w', a.wid);
  }

  lemma SkippedNothingNew(cfg: Config, w: World, a: Action, w': World)
    requires a.Begin? && DoBegin(cfg, w, a) == Some(w') && !GoesOn(a, w')
    ensures NothingNew(w, w')
  {
    if a.wid in w'.writers {
      LetGo(w, w', a.wid);
    } else {
      Gone(w, w', a.wid);
    }
  }

  lemma EditNothingNew(cfg: Config, w: World, a: Action, w': World)
    requires Step(cfg, w, a) == Some(w') && Edits(a) && !GoesOn(a, w')
    ensures NothingNew(w, w')
  {
    if a.Edit? {
      LeftNothingNew(w, a, w');
    } else if a.Begin? {
      SkippedNothingNew(cfg, w, a, w');
    } else {
      assert false;
    }
  }

  lemma QuietStepMatched(cfg: Config, w: World, b: Books, a: Action, w': World, tokensOf: Tokenizer)
    requires Matched(w, b, tokensOf) && Step(cfg, w, a) == Some(w')
    requires !a.Load? && !a.Checkpoint? && !a.Save? && !GoesOn(a, w')
    ensures Matched(w', b, tokensOf)
  {
    if Edits(a) {
      EditNothingNew(cfg, w, a, w');
    } else if a.Enter? || a.ReadPub? || a.Send? || a.Reconcile? {
      LockNothingNew(cfg, w, a, w');
    } else if a.Clean? || a.Quit? || a.Crash? || a.Evict? {
      LeaveNothingNew(cfg, w, a, w');
    } else if a.StartRebuild? || a.StartRepair? || a.List? || a.Fetch? {
      JobNothingNew(cfg, w, a, w');
    }
    NothingNewMatched(w, b, w', tokensOf);
  }

  lemma StepMatched(cfg: Config, w: World, b: Books, a: Action, c: Choice, w': World, tokensOf: Tokenizer)
    requires Matched(w, b, tokensOf) && Step(cfg, w, a) == Some(w') && Fits(w, b, a, c, w', tokensOf)
    ensures Matched(w', NextBooks(w, b, a, c, w', tokensOf), tokensOf)
  {
    if a.Load? {
      LoadMatched(w, b, a, w', tokensOf);
    } else if a.Checkpoint? {
      CheckpointMatched(w, b, a, w', tokensOf);
    } else if a.Save? {
      if a.stored {
        SavedMatched(w, b, a, w', tokensOf);
      } else if a.landed {
        LandedMatched(w, b, a, w', tokensOf);
      } else {
        FailedMatched(w, b, a, w', tokensOf);
      }
    } else if GoesOn(a, w') {
      EditStepMatched(cfg, w, b, a, c, w', tokensOf);
    } else {
      QuietStepMatched(cfg, w, b, a, w', tokensOf);
    }
  }

  /* ---------- runs ---------- */

  /** A run of the protocol together with the histories of its tables. */
  ghost function RunBooks(cfg: Config, tokensOf: Tokenizer, w: World, b: Books, steps: seq<(Action, Choice)>):
    Option<(World, Books)>
    decreases |steps|
  {
    if steps == [] then Some((w, b)) else
    var (a, c) := steps[0];
    match Step(cfg, w, a)
    case None => None
    case Some(w') =>
      if Fits(w, b, a, c, w', tokensOf)
      then RunBooks(cfg, tokensOf, w', NextBooks(w, b, a, c, w', tokensOf), steps[1..]) else None
  }

  function Actions(steps: seq<(Action, Choice)>): seq<Action> {
    if steps == [] then [] else [steps[0].0] + Actions(steps[1..])
  }

  lemma {:induction false} RunMatched(
    cfg: Config, tokensOf: Tokenizer, w: World, b: Books, steps: seq<(Action, Choice)>)
    requires Matched(w, b, tokensOf) && RunBooks(cfg, tokensOf, w, b, steps).Some?
    ensures
      var (w', b') := RunBooks(cfg, tokensOf, w, b, steps).value;
      Matched(w', b', tokensOf) && Run(cfg, w, Actions(steps)) == Some(w')
    decreases |steps|
  {
    if steps != [] {
      var (a, c) := steps[0];
      var w' := Step(cfg, w, a).value;
      StepMatched(cfg, w, b, a, c, w', tokensOf);
      RunMatched(cfg, tokensOf, w', NextBooks(w, b, a, c, w', tokensOf), steps[1..]);
      assert Actions(steps)[1..] == Actions(steps[1..]);
    }
  }

  ghost predicate Recorded(cfg: Config, tokensOf: Tokenizer, w: World, b: Books) {
    exists steps :: RunBooks(cfg, tokensOf, INITIAL, NO_BOOKS, steps) == Some((w, b))
  }

  /** In every run every stored and every cached index stands for the table its history
      builds. */
  lemma EveryIndexIsRealised(cfg: Config, tokensOf: Tokenizer, w: World, b: Books)
    requires Recorded(cfg, tokensOf, w, b)
    ensures ProtocolTheorems.Reachable(cfg, w) && Matched(w, b, tokensOf)
  {
    var steps :| RunBooks(cfg, tokensOf, INITIAL, NO_BOOKS, steps) == Some((w, b));
    RunMatched(cfg, tokensOf, INITIAL, NO_BOOKS, steps);
  }

  /* ---------- what the tables leave possible ---------- */

  const ANY := Choice(InvertedIndex.Entry(0, 0, 0, [], false, InvertedIndex.NoKey), InvertedIndex.DoRemove(0), [])

  /** An update of the step would not store an empty id or a new chat in a full index. */
  predicate Room(w: World, a: Action, w': World, tokensOf: Tokenizer) {
    GoesOn(a, w') && a.wid in w.writers && Holds(w.writers[a.wid].phase) ==>
      forall op | op in Ops(w, w.writers[a.wid], a, ANY, tokensOf) && op.DoUpsert? ::
        var chats := IndexHeld(w.writers[a.wid].phase).chats;
        op.id != InvertedIndex.TOMBSTONE && (op.id in chats || |chats| < InvertedIndex.MAX_CHATS)
  }

  lemma {:induction false} Listed(ids: set<ChatId>) returns (order: seq<ChatId>)
    ensures Ids(order) == ids
  {
    if ids == {} {
      order := [];
    } else {
      SomeMember(ids);
      var x :| x in ids;
      var rest := Listed(ids - {x});
      order := rest + [x];
      IdsStep(order);
    }
  }

  /** Which chat the step updates does not depend on what the tables choose. */
  lemma SameUpserts(w: World, wr: Writer, a: Action, c: Choice, d: Choice, op: Op, tokensOf: Tokenizer)
    requires op in Ops(w, wr, a, c, tokensOf) && op.DoUpsert? && !a.Mend?
    ensures a.Merge? || (a.Edit? && wr.kind.Push?)
    ensures op.e == c.entry && op.(e := d.entry) in Ops(w, wr, a, d, tokensOf)
    ensures op.id == if a.Merge? then a.id else wr.kind.id
  {
    if a.Begin? {
      NoUpserts(c.order, op);
    }
  }

  lemma {:induction false} NoUpserts(order: seq<ChatId>, op: Op)
    requires op in Removals(order)
    ensures op.DoRemove?
  {
    if op in Removals(order[..|order| - 1]) {
      NoUpserts(order[..|order| - 1], op);
    }
  }

  /** A writer that updates its index has the updated entry in it. */
  lemma UpdatedIsIn(cfg: Config, w: World, a: Action, c: Choice, w': World, op: Op, tokensOf: Tokenizer)
    requires Step(cfg, w, a) == Some(w') && GoesOn(a, w') && a.wid in w.writers && !a.Mend?
    requires op in Ops(w, w.writers[a.wid], a, c, tokensOf) && op.DoUpsert?
    ensures op.id in w'.writers[a.wid].phase.ix.chats
  {
    if a.Begin? {
      NoUpserts(c.order, op);
    }
  }

  /** Something the tables can store for the step. */
  lemma RoomSuffices(cfg: Config, w: World, b: Books, a: Action, w': World, tokensOf: Tokenizer) returns (c: Choice)
    requires Matched(w, b, tokensOf) && Step(cfg, w, a) == Some(w') && Room(w, a, w', tokensOf)
    ensures Fits(w, b, a, c, w', tokensOf)
  {
    c := ANY;
    if a.Mend? {
      c := ANY.(mend := InvertedIndex.DoMark(a.id, InvertedIndex.NoKey));
    } else if GoesOn(a, w') && a.wid in w.writers && Holds(w.writers[a.wid].phase) {
      var wr, before, ix := w.writers[a.wid], IndexHeld(w.writers[a.wid].phase), w'.writers[a.wid].phase.ix;
      var order := Listed(before.chats.Keys - ix.chats.Keys);
      var id := if a.Merge? then a.id else if wr.kind.Push? then wr.kind.id else 0;
      var stamp := if id in ix.chats then ix.chats[id] else Entry(0, 0, 0);
      c := Choice(ANY.entry.(rev := stamp.rev, etag := stamp.etag), ANY.mend, order);
      forall op | op in Ops(w, wr, a, c, tokensOf) && op.DoUpsert?
        ensures Stores(Final(Of(b.held, a.wid)), op, ix)
      {
        SameUpserts(w, wr, a, c, ANY, op, tokensOf);
        UpdatedIsIn(cfg, w, a, c, w', op, tokensOf);
      }
    }
  }

  lemma RoomNeeded(w: World, b: Books, a: Action, c: Choice, w': World, tokensOf: Tokenizer)
    requires Matched(w, b, tokensOf) && Fits(w, b, a, c, w', tokensOf)
    ensures Room(w, a, w', tokensOf)
  {
    if GoesOn(a, w') && a.wid in w.writers && Holds(w.writers[a.wid].phase) && !a.Mend? {
      var wr, before := w.writers[a.wid], IndexHeld(w.writers[a.wid].phase);
      var p := Final(Of(b.held, a.wid));
      assert |p.meta| == |p.meta.Keys| && |before.chats| == |before.chats.Keys|;
      forall op | op in Ops(w, wr, a, ANY, tokensOf) && op.DoUpsert?
        ensures op.id != InvertedIndex.TOMBSTONE && (op.id in before.chats || |before.chats| < InvertedIndex.MAX_CHATS)
      {
        SameUpserts(w, wr, a, ANY, c, op, tokensOf);
        assert Stores(Final(Of(b.held, a.wid)), op.(e := c.entry), w'.writers[a.wid].phase.ix);
      }
    }
  }

  /** The tables can follow a step of the protocol if and only if it does not store an empty
      id or a new chat in a full index, which the index refuses. */
  lemma TablesFollowExactly(cfg: Config, w: World, b: Books, a: Action, w': World, tokensOf: Tokenizer)
    requires Matched(w, b, tokensOf) && Step(cfg, w, a) == Some(w')
    ensures (exists c :: Fits(w, b, a, c, w', tokensOf)) <==> Room(w, a, w', tokensOf)
  {
    if Room(w, a, w', tokensOf) {
      var c := RoomSuffices(cfg, w, b, a, w', tokensOf);
    }
    forall c | Fits(w, b, a, c, w', tokensOf)
      ensures Room(w, a, w', tokensOf)
    {
      RoomNeeded(w, b, a, c, w', tokensOf);
    }
  }

  /* ---------- searching what a load hands out ---------- */

  /** Outside the lock a load hands out the published entries. */
  lemma LoadedIsPublished(cfg: Config, w: World, reader: Writer, readable: bool)
    requires ProtocolInvariant.Sound(cfg) && ProtocolTheorems.Reachable(cfg, w) && reader.replica !in w.locks
    requires w.pub.obj.Some? ==> LoadIndex(w, w.pub, reader, readable).Some?
    ensures
      var loaded := LoadIndex(w, w.pub, reader, readable);
      (if loaded.Some? then loaded.value.0 else EMPTY).chats == ProtocolTheorems.PublishedIndex(w).chats
  {
    ProtocolTheorems.ReachableHolds(cfg, w);
  }

  lemma LoadedDocsAreCorpus(
    cfg: Config, tokensOf: Tokenizer, w: World, b: Books, history: History, reader: Writer, readable: bool)
    requires ProtocolInvariant.Sound(cfg) && Recorded(cfg, tokensOf, w, b) && reader.replica !in w.locks
    requires !w.pub.incomplete && w.pub.covered == w.src.Rev()
    requires w.pub.obj.Some? ==> LoadIndex(w, w.pub, reader, readable).Some?
    requires history == LoadBooks(w, b, w.pub, reader, readable).0
    ensures Final(history).docs == CorpusDocs(w.src, tokensOf)
  {
    EveryIndexIsRealised(cfg, tokensOf, w, b);
    LoadRealises(w, b, w.pub, reader, readable, tokensOf);
    LoadedIsPublished(cfg, w, reader, readable);
    var loaded := LoadIndex(w, w.pub, reader, readable);
    var ix := if loaded.Some? then loaded.value.0 else EMPTY;
    SameEntries(Final(history), ix, ProtocolTheorems.PublishedIndex(w), tokensOf);
    CurrentRealisesCorpus(cfg, w, Final(history), tokensOf);
  }

  /** When the publication is complete and level with the source, a query loads a table and
      is answered over the live chats' documents; a keyword query gets exactly the answer
      they determine. */
  method SearchCorpus(
    ghost cfg: Config, ghost w: World, ghost b: Books, history: History, ghost reader: Writer, ghost readable: bool,
    q: SearchRanking.Query, limit: int, ghost tokensOf: Tokenizer)
    returns (r: seq<SearchRanking.Hit>)
    requires ProtocolInvariant.Sound(cfg) && Recorded(cfg, tokensOf, w, b) && reader.replica !in w.locks
    requires !w.pub.incomplete && w.pub.covered == w.src.Rev()
    requires w.pub.obj.Some? ==> LoadIndex(w, w.pub, reader, readable).Some?
    requires history == LoadBooks(w, b, w.pub, reader, readable).0
    ensures SearchRanking.IsAnswer(Final(history).(docs := CorpusDocs(w.src, tokensOf)), q, limit, r)
    ensures
      q.width == 0 ==> forall meta, dims ::
          SearchRanking.IsAnswer(InvertedIndex.Plain(CorpusDocs(w.src, tokensOf), meta, dims), q, limit, r)
  {
    LoadedDocsAreCorpus(cfg, tokensOf, w, b, history, reader, readable);
    var index := Rebuilt(history);
    r := SearchRanking.Search(index, q, limit);
    if q.width == 0 {
      forall meta, dims
        ensures SearchRanking.IsAnswer(InvertedIndex.Plain(CorpusDocs(w.src, tokensOf), meta, dims), q, limit, r)
      {
        KeywordAnswer(Final(history), InvertedIndex.Plain(CorpusDocs(w.src, tokensOf), meta, dims), q, limit, r);
      }
    }
  }
}
