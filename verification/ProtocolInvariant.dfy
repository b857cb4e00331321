/** What every reachable world of the protocol satisfies, and that each step keeps it. */
module ProtocolInvariant {
  import opened Prelude
  import opened Controlplane
  import opened Protocol

  /** The deployments in which a complete publication is true. */
  predicate Sound(cfg: Config) {
    cfg.missZero && (cfg.rebuild ==> cfg.oneReplica && cfg.quiet && cfg.guarded && cfg.carried)
  }

  /* ---------- an index against the source ---------- */

  /** `x` is indexed at least as new as its last change. */
  ghost predicate Has(s: Source, ix: Index, x: ChatId) {
    x in ix.chats && Last(s, x) <= ix.chats[x].rev
  }

  /** Every stamp is honest: an entry stamped at or after its chat's last change holds the
      chat's current text. */
  ghost predicate Honest(s: Source, ix: Index) {
    forall x | x in ix.chats ::
      0 < ix.chats[x].rev <= s.Rev() && (Has(s, ix, x) ==> x in s.chats && s.chats[x].text == ix.chats[x].text)
  }

  /** Entries of deleted chats are excused only by a deletion after `p`. */
  ghost predicate NoGhosts(s: Source, ix: Index, p: nat) {
    forall x | x in ix.chats && x !in s.chats :: Last(s, x) > p
  }

  ghost predicate Covers(s: Source, ix: Index, p: nat) {
    && p <= s.Rev()
    && (forall x | x in s.chats && Last(s, x) <= p :: Has(s, ix, x))
    && NoGhosts(s, ix, p)
  }

  /** A checkpoint speaks the truth: rows at or before its cursor are covered at its target. */
  ghost predicate Walked(s: Source, ix: Index, p: Progress) {
    && 0 < p.target <= s.Rev()
    && (forall x | x in s.chats && Last(s, x) <= p.target && !After(Some(p.cursor), s.chats[x].pos) :: Has(s, ix, x))
    && NoGhosts(s, ix, p.target)
  }

  ghost predicate Good(cfg: Config, s: Source, ix: Index) {
    Honest(s, ix) && (ix.progress.Some? ==> cfg.rebuild && ix.incomplete && Walked(s, ix, ix.progress.value))
  }

  ghost predicate ProgressLe(ix: Index, n: nat) {
    ix.progress.Some? ==> ix.progress.value.target <= n
  }

  /** Stamps never go down from `a` to `b`. */
  ghost predicate Monotone(a: Index, b: Index) {
    forall x | x in a.chats && x in b.chats :: a.chats[x].rev <= b.chats[x].rev
  }

  /* ---------- what a writer may rely on ---------- */

  /** The parts of the world that facts about writers mention. */
  datatype Shared = Shared(src: Source, pub: Publication, objs: map<ObjectKey, Stored>, bucket: set<ObjectKey>,
      tried: set<ObjectKey>)

  function View(w: World): Shared {
    Shared(w.src, w.pub, w.objs, w.bucket, w.tried)
  }

  ghost predicate PubOK(sh: Shared, pub: Publication) {
    && pub.covered <= sh.src.Rev()
    && (pub.obj.Some? ==>
          && pub.obj.value in sh.objs && pub.obj.value in sh.tried
          && sh.objs[pub.obj.value].key == pub.key && sh.objs[pub.obj.value].model == pub.model
          && sh.objs[pub.obj.value].ix.incomplete == pub.incomplete)
    && (!pub.incomplete ==> Covers(sh.src, IndexOf(sh.objs, pub), pub.covered))
  }

  ghost predicate SnapOK(sh: Shared, snap: Snap) {
    && PubOK(sh, snap.pub)
    && snap.pub.covered <= snap.src <= sh.src.Rev()
    && ProgressLe(IndexOf(sh.objs, snap.pub), snap.src)
    && snap.pub.gen <= sh.pub.gen
    && (snap.pub.gen == sh.pub.gen ==> snap.pub == sh.pub)
  }

  ghost predicate PullOK(src: Source, k: Kind)
    requires k.Rebuild?
  {
    k.pull.Pull? ==>
      && (forall x | x in k.pull.items && Last(src, x) <= k.target ::
            x in src.chats && src.chats[x].text == k.pull.items[x].text && src.chats[x].etag == k.pull.items[x].etag)
      && (k.pull.failed == 0 ==>
            forall x | x in src.chats && Last(src, x) <= k.target && After(k.cursor, src.chats[x].pos) &&
                       (k.pull.next.Some? ==> !After(k.pull.next, src.chats[x].pos)) ::
              x in k.pull.waiting || x in k.pull.items)
  }

  ghost predicate KindOK(cfg: Config, src: Source, k: Kind) {
    match k
    case Push(id, text, etag, rev) =>
      && 0 < rev <= src.Rev() && src.log[rev - 1] == id && rev <= Last(src, id)
      && (Last(src, id) == rev ==> id in src.chats && src.chats[id].text == text)
    case Delete(id, rev, checkedAt) =>
      && rev <= src.Rev()
      && (0 < rev ==> src.log[rev - 1] == id && rev <= Last(src, id) && (Last(src, id) == rev ==> id !in src.chats))
    case Rebuild(target, _, _, _, _) => cfg.rebuild && 0 < target <= src.Rev() && PullOK(src, k)
    case Repair => true
    case Reset(_) => true
  }

  predicate InLock(phase: Phase) {
    !phase.Ready? && !phase.Starting?
  }

  /** A page half merged: everything the walk has passed and every row already merged is
      covered at the target, and what a newer complete publication covered still is. */
  ghost predicate PageOK(cfg: Config, sh: Shared, k: Kind, snap: Snap, ok: bool, ix: Index, todo: set<ChatId>, bad: nat)
    requires k.Rebuild? && k.pull.Pull?
  {
    var src := sh.src;
    var floor := Floor(snap, ok, k.target);
    && Honest(src, ix)
    && todo <= k.pull.items.Keys && k.pull.waiting == {}
    && k.pull.failed <= bad
    && (k.cursor.Some? ==> ok)
    && floor <= src.Rev()
    && NoGhosts(src, ix, floor)
    && (bad == 0 ==> forall x | x in src.chats && Last(src, x) <= k.target && Passed(k, src.chats[x].pos, x, todo) ::
        Has(src, ix, x))
    && (forall x | x in src.chats && k.target < Last(src, x) <= floor :: Has(src, ix, x))
    && (ok ==> Monotone(IndexOf(sh.objs, snap.pub), ix))
    && (ok ==> forall x | x in todo && x in IndexOf(sh.objs, snap.pub).chats && x !in ix.chats ::
          IndexOf(sh.objs, snap.pub).chats[x].rev <= k.target)
    && (cfg.guarded && !ok && snap.pub.covered > k.target ==> snap.pub.incomplete)
  }

  /** The revision a finished page may claim. */
  function Floor(snap: Snap, ok: bool, target: nat): nat {
    if ok && !snap.pub.incomplete && snap.pub.covered > target then snap.pub.covered else target
  }

  predicate Passed(k: Kind, pos: Position, x: ChatId, todo: set<ChatId>)
    requires k.Rebuild? && k.pull.Pull?
  {
    (k.cursor.Some? && !After(k.cursor, pos)) || (x in k.pull.items && x !in todo)
  }

  /** An edited index ready to publish with coverage `covered` and flag `incomplete`. */
  ghost predicate EditOK(cfg: Config, sh: Shared, snap: Snap, ok: bool, ix: Index, covered: nat, incomplete: bool) {
    && Good(cfg, sh.src, ix)
    && ix.incomplete == incomplete
    && covered <= sh.src.Rev()
    && (!incomplete ==> Covers(sh.src, ix, covered))
    && (ok ==> Monotone(IndexOf(sh.objs, snap.pub), ix))
  }

  /** The same but for the semantic side, which coverage does not depend on. */
  predicate Like(a: Index, b: Index) {
    a.chats == b.chats && a.incomplete == b.incomplete && a.progress == b.progress
  }

  predicate Opened(snap: Snap, ok: bool, wr: Writer) {
    ok ==> snap.pub.obj.Some? && snap.pub.key == wr.key
  }

  ghost predicate PhaseOK(cfg: Config, sh: Shared, wid: nat, wr: Writer) {
    match wr.phase
    case Ready => true
    case Starting(snap) => SnapOK(sh, snap) && wr.kind.Rebuild? && wr.kind.pull.NoPull?
    case Inside => true
    case Read(snap) => SnapOK(sh, snap)
    case Loaded(snap, ok, ix) =>
      SnapOK(sh, snap) && Opened(snap, ok, wr) && Like(ix, if ok then IndexOf(sh.objs, snap.pub) else EMPTY)
    case Mending(snap, ok, ix) =>
      SnapOK(sh, snap) && Opened(snap, ok, wr) && wr.kind.Repair? && ok && Like(ix, IndexOf(sh.objs, snap.pub))
    case Paging(snap, ok, ix, todo, bad, start) =>
      SnapOK(sh, snap) && Opened(snap, ok, wr) && wr.kind.Rebuild? && wr.kind.pull.Pull? &&
          PageOK(cfg, sh, wr.kind, snap, ok, ix, todo, bad) && (ok ==> Like(start, IndexOf(sh.objs, snap.pub)))
    case Prepared(snap, ok, ix, covered, incomplete) =>
      SnapOK(sh, snap) && Opened(snap, ok, wr) && EditOK(cfg, sh, snap, ok, ix, covered, incomplete)
    case Sending(snap, ok, ix, covered, incomplete, obj) =>
      && SnapOK(sh, snap) && EditOK(cfg, sh, snap, ok, ix, covered, incomplete)
      && obj in sh.objs && sh.objs[obj] == Stored(ix, wr.key, wr.model, wid)
      && obj in sh.bucket && obj !in sh.tried
    case Unsure(snap, obj) =>
      obj in sh.tried && (snap.pub.obj.Some? ==> snap.pub.obj.value in sh.tried && snap.pub.obj.value != obj)
    case Cleaning(orphan, next) =>
      orphan.Some? ==> orphan.value in sh.tried && sh.pub.obj != orphan
  }

  function SnapOf(phase: Phase): Option<Snap> {
    match phase
    case Read(snap) => Some(snap)
    case Loaded(snap, _, _) => Some(snap)
    case Mending(snap, _, _) => Some(snap)
    case Paging(snap, _, _, _, _, _) => Some(snap)
    case Prepared(snap, _, _, _, _) => Some(snap)
    case Sending(snap, _, _, _, _, _) => Some(snap)
    case _ => None
  }

  function IndexIn(phase: Phase): Index {
    match phase
    case Prepared(_, _, ix, _, _) => ix
    case Sending(_, _, ix, _, _, _) => ix
    case _ => EMPTY
  }

  /** A delete inside the lock saw its row missing at revision `checkedAt`, and no rebuild
      with a later target has published since. */
  ghost predicate CheckOK(sh: Shared, wr: Writer) {
    wr.kind.Delete? && InLock(wr.phase) ==>
      var c := wr.kind.checkedAt;
      && c <= sh.src.Rev()
      && (wr.kind.id in sh.src.chats ==> Last(sh.src, wr.kind.id) > c)
      && ProgressLe(IndexOf(sh.objs, sh.pub), c)
      && (SnapOf(wr.phase).Some? ==> ProgressLe(IndexOf(sh.objs, SnapOf(wr.phase).value.pub), c))
      && ProgressLe(IndexIn(wr.phase), c)
  }

  function Larger(a: nat, b: nat): nat {
    if a > b then a else b
  }

  /** A page asks for the larger of its target and the revision already published. */
  predicate AskOK(wr: Writer) {
    wr.kind.Rebuild? && (wr.phase.Prepared? || wr.phase.Sending?) ==>
      wr.phase.covered == Larger(wr.phase.snap.pub.covered, wr.kind.target)
  }

  ghost predicate WriterOK(cfg: Config, sh: Shared, wid: nat, wr: Writer) {
    && (if wr.kind.Reset?
        then
          && (wr.phase.Ready? || (wr.phase.Cleaning? && wr.phase.next.Stop?))
          && (wr.kind.previous.Some? ==> wr.kind.previous.value in sh.tried)
        else wr.key != NO_KEY)
    && (cfg.rebuild ==> wr.replica == 0)
    && (wr.kind.Rebuild? && InLock(wr.phase) ==> wr.kind.pull.Pull? && wr.kind.pull.waiting == {})
    && KindOK(cfg, sh.src, wr.kind)
    && PhaseOK(cfg, sh, wid, wr)
    && CheckOK(sh, wr)
    && AskOK(wr)
  }

  /* ---------- the whole world ---------- */

  ghost predicate StoreOK(cfg: Config, sh: Shared, nextObj: nat) {
    && SourceOK(sh.src)
    && PubOK(sh, sh.pub)
    && (sh.pub.obj.Some? ==> sh.pub.obj.value in sh.bucket)
    && (forall o | o in sh.objs :: o < nextObj && Good(cfg, sh.src, sh.objs[o].ix))
    && sh.bucket <= sh.objs.Keys
    && sh.tried <= sh.objs.Keys
  }

  ghost predicate WritersOK(cfg: Config, sh: Shared, writers: map<nat, Writer>) {
    forall i | i in writers :: WriterOK(cfg, sh, i, writers[i])
  }

  ghost predicate LocksOK(locks: map<nat, nat>, writers: map<nat, Writer>) {
    && (forall i | i in writers && InLock(writers[i].phase) && !writers[i].kind.Reset? ::
          writers[i].replica in locks && locks[writers[i].replica] == i)
    && (forall r | r in locks ::
          locks[r] in writers && writers[locks[r]].replica == r && !writers[locks[r]].kind.Reset?)
  }

  /** A cached index is like the object it is keyed by, unless the lock holder is editing it. */
  ghost predicate CachesOK(
    objs: map<ObjectKey, Stored>, caches: map<nat, Cached>, locks: map<nat, nat>, writers: map<nat, Writer>) {
    forall r | r in caches ::
      && caches[r].obj in objs && objs[caches[r].obj].key == caches[r].key
      && (Like(caches[r].ix, objs[caches[r].obj].ix) ||
          (r in locks && locks[r] in writers && Touching(writers[locks[r]].phase, caches[r])))
  }

  /** The writer holds a loaded index it may have edited. */
  predicate Editing(phase: Phase) {
    phase.Mending? || phase.Paging? || phase.Prepared?
  }

  predicate Touching(phase: Phase, c: Cached) {
    Editing(phase) && phase.ok && phase.snap.pub.obj == Some(c.obj) && phase.ix == c.ix
  }

  ghost predicate Inv(cfg: Config, w: World) {
    && StoreOK(cfg, View(w), w.nextObj)
    && WritersOK(cfg, View(w), w.writers)
    && LocksOK(w.locks, w.writers)
    && CachesOK(w.objs, w.caches, w.locks, w.writers)
  }

  /* ---------- facts survive the steps of others ---------- */

  /** The store moved on without touching what writer `wid` relies on. */
  ghost predicate Evolves(a: Shared, b: Shared, wid: nat) {
    && Later(a.src, b.src)
    && (forall o | o in a.objs :: o in b.objs && b.objs[o] == a.objs[o])
    && a.tried <= b.tried
    && (forall o | o in b.tried && o !in a.tried && o in a.objs :: a.objs[o].owner != wid)
    && (forall o | o in a.bucket && o !in a.tried :: o in b.bucket)
    && a.tried <= a.objs.Keys
    && (a.pub == b.pub || a.pub.gen < b.pub.gen)
    && (b.pub.obj == a.pub.obj || b.pub.obj.None? || b.pub.obj.value !in a.tried)
  }

  /** Rows a rebuild has fetched keep their etag unless they are written. */
  ghost predicate Untouched(a: Source, b: Source, k: Kind) {
    k.Rebuild? && k.pull.Pull? ==>
      forall x | x in k.pull.items && x in a.chats && Last(b, x) == Last(a, x) ::
          x in b.chats && a.chats[x].etag == b.chats[x].etag
  }

  lemma PageStays(
    cfg: Config, a: Shared, b: Shared, wid: nat, k: Kind, snap: Snap, ok: bool, ix: Index, todo: set<ChatId>,
    bad: nat)
    requires Evolves(a, b, wid) && k.Rebuild? && k.pull.Pull? && k.target <= a.src.Rev()
    requires SnapOK(a, snap) && PageOK(cfg, a, k, snap, ok, ix, todo, bad)
    ensures PageOK(cfg, b, k, snap, ok, ix, todo, bad)
  {
    assert Honest(b.src, ix) by {
      assert Honest(b.src, ix.(progress := None));
      assert forall x :: Has(b.src, ix, x) == Has(b.src, ix.(progress := None), x);
    }
    if bad == 0 {
      forall x | x in b.src.chats && Last(b.src, x) <= k.target && Passed(k, b.src.chats[x].pos, x, todo)
        ensures Has(b.src, ix, x)
      {
        assert Last(b.src, x) == Last(a.src, x);
      }
    }
    forall x | x in b.src.chats && k.target < Last(b.src, x) <= Floor(snap, ok, k.target)
      ensures Has(b.src, ix, x)
    {
      assert Last(b.src, x) == Last(a.src, x);
    }
  }

  lemma EditStays(
    cfg: Config, a: Shared, b: Shared, wid: nat, snap: Snap, ok: bool, ix: Index, covered: nat, incomplete: bool)
    requires Evolves(a, b, wid) && SnapOK(a, snap) && EditOK(cfg, a, snap, ok, ix, covered, incomplete)
    ensures SnapOK(b, snap) && EditOK(cfg, b, snap, ok, ix, covered, incomplete)
  {
  }

  lemma ReadingStays(cfg: Config, a: Shared, b: Shared, wid: nat, wr: Writer)
    requires Evolves(a, b, wid) && PhaseOK(cfg, a, wid, wr)
    requires wr.phase.Starting? || wr.phase.Read? || wr.phase.Loaded?
    ensures PhaseOK(cfg, b, wid, wr)
  {
  }

  lemma EditingStays(cfg: Config, a: Shared, b: Shared, wid: nat, wr: Writer)
    requires Evolves(a, b, wid) && KindOK(cfg, a.src, wr.kind) && PhaseOK(cfg, a, wid, wr)
    requires wr.phase.Paging? || wr.phase.Prepared? || wr.phase.Sending?
    ensures PhaseOK(cfg, b, wid, wr)
  {
    match wr.phase {
      case Paging(snap, ok, ix, todo, bad, _) =>
        PageStays(cfg, a, b, wid, wr.kind, snap, ok, ix, todo, bad);
      case Prepared(snap, ok, ix, covered, incomplete) =>
        EditStays(cfg, a, b, wid, snap, ok, ix, covered, incomplete);
      case Sending(snap, ok, ix, covered, incomplete, obj) =>
        EditStays(cfg, a, b, wid, snap, ok, ix, covered, incomplete);
    }
  }

  lemma PhaseStays(cfg: Config, a: Shared, b: Shared, wid: nat, wr: Writer)
    requires Evolves(a, b, wid) && KindOK(cfg, a.src, wr.kind) && PhaseOK(cfg, a, wid, wr)
    ensures PhaseOK(cfg, b, wid, wr)
  {
    if wr.phase.Starting? || wr.phase.Read? || wr.phase.Loaded? {
      ReadingStays(cfg, a, b, wid, wr);
    } else if wr.phase.Paging? || wr.phase.Prepared? || wr.phase.Sending? {
      EditingStays(cfg, a, b, wid, wr);
    }
  }

  lemma WriterStays(cfg: Config, a: Shared, b: Shared, wid: nat, wr: Writer)
    requires Evolves(a, b, wid) && WriterOK(cfg, a, wid, wr) && Untouched(a.src, b.src, wr.kind)
    requires wr.kind.Delete? && InLock(wr.phase) ==> ProgressLe(IndexOf(b.objs, b.pub), wr.kind.checkedAt)
    ensures WriterOK(cfg, b, wid, wr)
  {
    PhaseStays(cfg, a, b, wid, wr);
  }
}
