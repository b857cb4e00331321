/** The edits writers make to a loaded index, each shown to leave an index that may be
    published: the heart of the coverage argument. */
module ProtocolEdits {
  import opened Prelude
  import opened Controlplane
  import opened Protocol
  import opened ProtocolInvariant

  /** What an edit starts from: the published index, or an empty one. */
  ghost predicate Base(cfg: Config, sh: Shared, snap: Snap, ok: bool, ix: Index) {
    && SourceOK(sh.src)
    && SnapOK(sh, snap)
    && Good(cfg, sh.src, IndexOf(sh.objs, snap.pub))
    && (ok ==> snap.pub.obj.Some?)
    && Like(ix, if ok then IndexOf(sh.objs, snap.pub) else EMPTY)
  }

  lemma BaseFacts(cfg: Config, sh: Shared, snap: Snap, ok: bool, ix: Index)
    requires Base(cfg, sh, snap, ok, ix)
    ensures Good(cfg, sh.src, ix) && ProgressLe(ix, snap.src)
    ensures !snap.pub.incomplete && (snap.pub.obj.None? || ok) ==>
        Covers(sh.src, ix, snap.pub.covered) && ix.progress.None?
  {
  }

  ghost predicate PushFacts(s: Source, id: ChatId, text: Text, rev: nat) {
    && 0 < rev <= s.Rev() && s.log[rev - 1] == id && rev <= Last(s, id)
    && (Last(s, id) == rev ==> id in s.chats && s.chats[id].text == text)
  }

  lemma PushEditOK(
    cfg: Config, sh: Shared, snap: Snap, ok: bool, ix: Index, id: ChatId, text: Text, etag: nat, rev: nat, emb: Emb)
    requires Base(cfg, sh, snap, ok, ix) && PushFacts(sh.src, id, text, rev)
    requires id in ix.chats ==> !Supersedes(ix.chats[id], etag, rev)
    requires snap.src == rev || id in sh.src.chats
    ensures
      var advance := CanAdvance(snap, ok, rev);
      EditOK(cfg, sh, snap, ok, Put(ix, id, Entry(etag, rev, text), emb).(incomplete := !advance),
             if advance then rev else snap.pub.covered, !advance)
  {
    BaseFacts(cfg, sh, snap, ok, ix);
  }

  lemma HookEditOK(cfg: Config, sh: Shared, snap: Snap, ok: bool, ix: Index, id: ChatId)
    requires Base(cfg, sh, snap, ok, ix) && id !in sh.src.chats
    ensures EditOK(cfg, sh, snap, ok, Without(ix, id).(incomplete := true), snap.pub.covered, true)
  {
    BaseFacts(cfg, sh, snap, ok, ix);
  }

  lemma DeleteEditOK(cfg: Config, sh: Shared, snap: Snap, ok: bool, ix: Index, id: ChatId, rev: nat, checkedAt: nat)
    requires Base(cfg, sh, snap, ok, ix)
    requires rev <= sh.src.Rev()
    requires 0 < rev ==> sh.src.log[rev - 1] == id && rev <= Last(sh.src, id)
    requires 0 < rev == Last(sh.src, id) ==> id !in sh.src.chats
    requires id in sh.src.chats ==> Last(sh.src, id) > checkedAt
    requires ProgressLe(IndexOf(sh.objs, snap.pub), checkedAt)
    ensures
      var advance := CanAdvance(snap, ok, rev);
      EditOK(cfg, sh, snap, ok, Without(ix, id).(incomplete := !advance),
             if advance then rev else snap.pub.covered, !advance)
  {
    BaseFacts(cfg, sh, snap, ok, ix);
  }

  lemma RepairEditOK(cfg: Config, sh: Shared, snap: Snap, ix: Index)
    requires Base(cfg, sh, snap, true, ix)
    ensures EditOK(cfg, sh, snap, true, ix, snap.pub.covered, snap.pub.incomplete || ix.incomplete)
  {
    BaseFacts(cfg, sh, snap, true, ix);
  }

  /* ---------- rebuild pages ---------- */

  /** The first page: what is left after the sweep is stamped after the target, so nothing
      in it can be a chat deleted by then. */
  lemma FirstPageOK(cfg: Config, sh: Shared, k: Kind, snap: Snap, ok: bool, ix: Index, undated: set<ChatId>)
    requires Base(cfg, sh, snap, ok, ix) && k.Rebuild? && k.pull.Pull? && k.cursor.None? && k.pull.waiting == {}
    requires 0 < k.target <= sh.src.Rev()
    requires cfg.guarded && !ok && snap.pub.covered > k.target ==> snap.pub.incomplete
    ensures PageOK(cfg, sh, k, snap, ok, Swept(ix, k.target, undated), k.pull.items.Keys, k.pull.failed)
  {
    BaseFacts(cfg, sh, snap, ok, ix);
    var swept := Swept(ix, k.target, undated);
    assert forall x | x in swept.chats ::
        x in ix.chats && swept.chats[x] == ix.chats[x] && k.target < swept.chats[x].rev;
    assert forall x | x in swept.chats :: Has(sh.src, swept, x) == Has(sh.src, ix, x);
  }

  lemma ResumedPageOK(cfg: Config, sh: Shared, k: Kind, snap: Snap, ok: bool, ix: Index)
    requires Base(cfg, sh, snap, ok, ix) && k.Rebuild? && k.pull.Pull? && k.cursor.Some? && k.pull.waiting == {}
    requires ix.progress == Some(Progress(k.cursor.value, k.target, k.startedAt))
    ensures PageOK(cfg, sh, k, snap, ok, ix, k.pull.items.Keys, k.pull.failed)
  {
    BaseFacts(cfg, sh, snap, ok, ix);
    assert ok && snap.pub.incomplete;
  }

  lemma MergeOK(
    cfg: Config, sh: Shared, k: Kind, snap: Snap, ok: bool, ix: Index, todo: set<ChatId>, bad: nat, id: ChatId,
    fails: bool, emb: Emb)
    requires k.Rebuild? && k.pull.Pull? && id in todo && id in k.pull.items
    requires KindOK(cfg, sh.src, k) && PageOK(cfg, sh, k, snap, ok, ix, todo, bad)
    ensures
      var (merged, failed) := MergeItem(sh.src, ix, id, k.pull.items[id], k.target, fails, emb);
      PageOK(cfg, sh, k, snap, ok, merged, todo - {id}, bad + failed)
  {
    var item := k.pull.items[id];
    var (merged, failed) := MergeItem(sh.src, ix, id, item, k.target, fails, emb);
    assert forall x | x != id :: Has(sh.src, merged, x) <==> Has(sh.src, ix, x);
    assert forall x | x != id && x in sh.src.chats ::
        Passed(k, sh.src.chats[x].pos, x, todo - {id}) == Passed(k, sh.src.chats[x].pos, x, todo);
    if id in sh.src.chats && Last(sh.src, id) <= k.target && failed == 0 {
      assert Has(sh.src, merged, id);
    }
  }

  /** A finished page: an interior one leaves a truthful checkpoint, a final one covers the
      larger of its target and what was already covered. */
  lemma EndOK(cfg: Config, sh: Shared, k: Kind, snap: Snap, ok: bool, ix: Index, bad: nat)
    requires Sound(cfg) && cfg.rebuild && k.Rebuild? && k.pull.Pull?
    requires SnapOK(sh, snap) && KindOK(cfg, sh.src, k) && PageOK(cfg, sh, k, snap, ok, ix, {}, bad)
    ensures
      var incomplete := PageIncomplete(snap, ok, k, bad);
      var covered := if snap.pub.covered > k.target then snap.pub.covered else k.target;
      var progress := if incomplete && !k.failure && bad == 0 && k.pull.next.Some?
                      then Some(Progress(k.pull.next.value, k.target, k.startedAt)) else None;
      EditOK(cfg, sh, snap, ok, ix.(incomplete := incomplete, progress := progress), covered, incomplete)
  {
    var incomplete := PageIncomplete(snap, ok, k, bad);
    var progress := if incomplete && !k.failure && bad == 0 && k.pull.next.Some?
                    then Some(Progress(k.pull.next.value, k.target, k.startedAt)) else None;
    var done := ix.(incomplete := incomplete, progress := progress);
    assert forall x :: Has(sh.src, done, x) <==> Has(sh.src, ix, x);
    if bad == 0 {
      forall x | x in sh.src.chats && Last(sh.src, x) <= k.target &&
          (k.pull.next.Some? ==> !After(k.pull.next, sh.src.chats[x].pos))
        ensures Has(sh.src, done, x)
      {
        assert Passed(k, sh.src.chats[x].pos, x, {});
      }
    }
  }
}
