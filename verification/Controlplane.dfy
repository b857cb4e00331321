/** The controlplane's share of the search-index protocol: the chat rows with their
    revision counter, the publication record, and the handlers that change them.

    `Source` and `Publication` are the values the distributed protocol is stated over;
    the class at the end is the in-memory controlplane, whose handlers are proved to
    make exactly the value-level steps. */
module Controlplane {
  import opened Prelude

  /** Ids, texts, key ids and models are compared only for equality and, for ids, by the
      order that breaks ties in listings; integers stand for the strings. */
  type ChatId = int
  type Text = int
  type KeyId = int
  type Model = int
  type ObjectKey = nat

  /** The empty key id. */
  const NO_KEY: KeyId := 0

  /** Keyset position of a row in the oldest-first listing. */
  datatype Position = Position(ts: nat, id: ChatId)

  /** A stored chat. `text` stands for the searchable text of its plaintext, which a
      re-seal of the row (a rewrap) leaves alone. */
  datatype Row = Row(etag: nat, text: Text, pos: Position)

  /** Revision r was taken by the write or delete of `log[r - 1]`; `last` gives the
      revision that last wrote or deleted each id. */
  datatype Source = Source(chats: map<ChatId, Row>, last: map<ChatId, nat>, log: seq<ChatId>) {
    function Rev(): nat { |log| }
  }

  const EMPTY_SOURCE := Source(map[], map[], [])

  function Last(s: Source, x: ChatId): nat {
    if x in s.last then s.last[x] else 0
  }

  function NextETag(s: Source, id: ChatId): nat {
    if id in s.chats then s.chats[id].etag + 1 else 1
  }

  function Pushed(s: Source, id: ChatId, text: Text, ts: nat): Source {
    Source(s.chats[id := Row(NextETag(s, id), text, Position(ts, id))], s.last[id := s.Rev() + 1], s.log + [id])
  }

  function Deleted(s: Source, id: ChatId): Source {
    Source(s.chats - {id}, s.last[id := s.Rev() + 1], s.log + [id])
  }

  function Rewrapped(s: Source, id: ChatId): Source
    requires id in s.chats
  {
    s.(chats := s.chats[id := s.chats[id].(etag := s.chats[id].etag + 1)])
  }

  /** What every reachable source satisfies: each id's last revision is positive, at
      most the counter, and was taken by that id, so no two ids share one. */
  ghost predicate SourceOK(s: Source) {
    && (forall x | x in s.chats :: x in s.last && s.chats[x].pos.id == x)
    && (forall x | x in s.last :: 0 < s.last[x] <= s.Rev() && s.log[s.last[x] - 1] == x)
  }

  ghost predicate SameRow(s: Source, t: Source, x: ChatId) {
    && (x in s.chats <==> x in t.chats)
    && (x in s.chats ==> s.chats[x].text == t.chats[x].text && s.chats[x].pos == t.chats[x].pos)
  }

  /** `t` is a possible future of `s`: each chat is untouched or carries a revision
      issued after `s`. */
  ghost predicate Later(s: Source, t: Source) {
    s.log <= t.log && forall x {:trigger Last(t, x)} ::
        (Last(t, x) == Last(s, x) && SameRow(s, t, x)) || s.Rev() < Last(t, x)
  }

  lemma PushMovesForward(s: Source, id: ChatId, text: Text, ts: nat)
    requires SourceOK(s)
    ensures SourceOK(Pushed(s, id, text, ts)) && Later(s, Pushed(s, id, text, ts))
  {
  }

  lemma DeleteMovesForward(s: Source, id: ChatId)
    requires SourceOK(s)
    ensures SourceOK(Deleted(s, id)) && Later(s, Deleted(s, id))
  {
  }

  lemma RewrapMovesForward(s: Source, id: ChatId)
    requires SourceOK(s) && id in s.chats
    ensures SourceOK(Rewrapped(s, id)) && Later(s, Rewrapped(s, id))
  {
  }

  lemma LaterTransitive(s: Source, t: Source, u: Source)
    requires Later(s, t) && Later(t, u)
    ensures Later(s, u)
  {
    forall x
      ensures (Last(u, x) == Last(s, x) && SameRow(s, u, x)) || s.Rev() < Last(u, x)
    {
      assert (Last(t, x) == Last(s, x) && SameRow(s, t, x)) || s.Rev() < Last(t, x);
    }
  }

  datatype Publication = Publication(
    gen: nat, fence: nat, covered: nat, obj: Option<ObjectKey>, key: KeyId, model: Model, incomplete: bool)

  const NEVER_PUBLISHED := Publication(0, 0, 0, None, NO_KEY, NO_KEY, false)

  datatype PublishRequest = PublishRequest(
    gen: nat, fence: nat, covered: nat, obj: ObjectKey, key: KeyId, model: Model, incomplete: bool)

  predicate Accepts(pub: Publication, rev: nat, currentKey: KeyId, req: PublishRequest) {
    && req.gen == pub.gen
    && req.fence == pub.fence
    && pub.covered <= req.covered <= rev
    && (currentKey != NO_KEY ==> req.key == currentKey)
  }

  function Published(pub: Publication, req: PublishRequest): Publication {
    Publication(pub.gen + 1, pub.fence, req.covered, Some(req.obj), req.key, req.model, req.incomplete)
  }

  function Fenced(pub: Publication): Publication {
    Publication(pub.gen + 1, pub.fence + 1, 0, None, NO_KEY, NO_KEY, true)
  }

  /* ---------- oldest-first keyset listing ---------- */

  predicate PosLess(a: Position, b: Position) {
    a.ts < b.ts || (a.ts == b.ts && a.id < b.id)
  }

  /** Strictly after a cursor; no cursor is before everything. */
  predicate After(cursor: Option<Position>, p: Position) {
    cursor.None? || PosLess(cursor.value, p)
  }

  /** The live ids one page of the walk returns when it stops at `next`. */
  ghost function PageIds(s: Source, cursor: Option<Position>, next: Option<Position>): set<ChatId> {
    set x | x in s.chats && After(cursor, s.chats[x].pos) && (next.Some? ==> !After(next, s.chats[x].pos))
  }

  /** A row of the merged timeline: an update or a tombstone. */
  datatype Listed = Update(pos: Position) | Tombstone(pos: Position)

  ghost predicate Sorted(rows: seq<Listed>) {
    forall i, j | 0 <= i < j < |rows| :: PosLess(rows[i].pos, rows[j].pos)
  }

  /** `rows` is the whole timeline of `s`: its updates are the live rows. */
  ghost predicate Timeline(s: Source, rows: seq<Listed>) {
    && Sorted(rows)
    && (forall i | 0 <= i < |rows| && rows[i].Update? ::
        rows[i].pos.id in s.chats && s.chats[rows[i].pos.id].pos == rows[i].pos)
    && (forall x | x in s.chats :: s.chats[x].pos.id == x && Update(s.chats[x].pos) in rows)
  }

  /** One page of the sorted timeline: skip everything at or before the cursor, take
      `limit` rows, and hand out a cursor exactly when rows are left over. The ids of the
      page are precisely the live rows between the two cursors, so a row that keeps its
      position is returned by exactly one page of a walk. */
  method ListPage(ghost s: Source, rows: seq<Listed>, cursor: Option<Position>, limit: nat)
    returns (ids: seq<ChatId>, next: Option<Position>)
    requires 0 < limit
    requires Timeline(s, rows)
    ensures (set x | x in ids) == PageIds(s, cursor, next)
    ensures next.Some? ==> After(cursor, next.value)
    ensures |ids| <= limit
  {
    var start := 0;
    if cursor.Some? {
      while start < |rows| && (rows[start].pos == cursor.value || PosLess(rows[start].pos, cursor.value))
        invariant 0 <= start <= |rows|
        invariant forall i | 0 <= i < start :: !After(cursor, rows[i].pos)
      {
        start := start + 1;
      }
    }
    next := None;
    var stop := |rows|;
    if |rows| - start > limit {
      stop := start + limit;
      next := Some(rows[stop - 1].pos);
    }
    ids := UpdatesIn(rows, start, stop);
    assert forall i | start <= i < |rows| :: After(cursor, rows[i].pos);
    assert next.Some? ==> forall i | 0 <= i < |rows| :: !After(next, rows[i].pos) <==> i < stop;
    PageIs(s, rows, cursor, next, start, stop, ids);
  }

  /** The ids of the updates among some rows. */
  method UpdatesIn(rows: seq<Listed>, start: nat, stop: nat) returns (ids: seq<ChatId>)
    requires start <= stop <= |rows|
    ensures |ids| <= stop - start
    ensures forall x :: x in ids <==> exists k ::
        start <= k < stop && rows[k] == Update(rows[k].pos) && rows[k].pos.id == x
  {
    ids := [];
    var i := start;
    while i < stop
      invariant start <= i <= stop
      invariant |ids| <= i - start
      invariant forall x :: x in ids <==> exists k ::
          start <= k < i && rows[k] == Update(rows[k].pos) && rows[k].pos.id == x
    {
      if rows[i].Update? {
        ids := ids + [rows[i].pos.id];
      }
      i := i + 1;
    }
  }

  /** The updates after one cursor and up to the other are the page's ids. */
  lemma PageIs(
    s: Source, rows: seq<Listed>, cursor: Option<Position>, next: Option<Position>, start: nat, stop: nat,
    ids: seq<ChatId>)
    requires Timeline(s, rows) && start <= stop <= |rows|
    requires forall i | 0 <= i < |rows| :: After(cursor, rows[i].pos) <==> start <= i
    requires next.None? ==> stop == |rows|
    requires next.Some? ==> forall i | 0 <= i < |rows| :: !After(next, rows[i].pos) <==> i < stop
    requires forall x :: x in ids <==> exists k ::
        start <= k < stop && rows[k] == Update(rows[k].pos) && rows[k].pos.id == x
    ensures (set x | x in ids) == PageIds(s, cursor, next)
  {
    forall x
      ensures x in ids <==> x in PageIds(s, cursor, next)
    {
      if x in PageIds(s, cursor, next) {
        var k :| 0 <= k < |rows| && rows[k] == Update(s.chats[x].pos);
        assert start <= k < stop;
        assert rows[k].pos.id == x;
      }
    }
  }

  /* ---------- the in-memory controlplane ---------- */

  lemma NoRows(rows: map<ChatId, Row>)
    ensures |rows| == 0 || exists id :: id in rows
  {
    if forall id :: id !in rows {
      assert rows == map[];
    }
  }

  method AnyRow(rows: map<ChatId, Row>) returns (id: ChatId)
    requires |rows| > 0
    ensures id in rows
  {
    NoRows(rows);
    id :| id in rows;
  }

  /** Every row is sealed under this key or none. */
  predicate AllUnder(keys: map<int, KeyId>, key: KeyId) {
    forall id | id in keys :: keys[id] == NO_KEY || keys[id] == key
  }

  datatype IfMatch = Any | Exactly(etag: nat)

  /** Handlers run one at a time under a mutex, so each is one step of `Source` or
      `Publication`. */
  class StubControlplane {
    var blobs: map<ChatId, Row>
    var sealedUnder: map<ChatId, KeyId>
    var others: map<int, KeyId>   // rows of the other scopes, by the key they are sealed under
    var sourceRev: nat
    var search: Publication
    var currentKey: KeyId
    ghost var last: map<ChatId, nat>
    ghost var log: seq<ChatId>

    ghost function View(): Source
      reads this
    {
      Source(blobs, last, log)
    }

    ghost predicate Valid()
      reads this
    {
      SourceOK(View()) && sourceRev == |log| && search.covered <= sourceRev && sealedUnder.Keys == blobs.Keys
    }

    constructor ()
      ensures Valid() && View() == EMPTY_SOURCE && others == map[] && search == NEVER_PUBLISHED && currentKey == NO_KEY
    {
      blobs, sealedUnder, others, sourceRev, search, currentKey := map[], map[], map[], 0, NEVER_PUBLISHED, NO_KEY;
      last, log := map[], [];
    }

    /** An accepted write takes the next revision and answers with it; a refused one
        changes nothing and answers the current etag. */
    method PutBlob(
      id: ChatId, ifMatch: IfMatch, key: KeyId, text: Text, now: nat)
      returns (ok: bool, etag: nat, rev: nat)
      requires Valid()
      modifies this`blobs, this`sealedUnder, this`sourceRev, this`last, this`log
      ensures Valid()
      ensures ok <==> (id in old(blobs) && ifMatch.Exactly? ==> ifMatch.etag == old(blobs[id].etag))
      ensures ok ==> View() == Pushed(old(View()), id, text, now) && sealedUnder == old(sealedUnder)[id := key]
      ensures ok ==> etag == (if id in old(blobs) then old(blobs[id].etag) + 1 else 1) && rev == sourceRev
      ensures ok ==> blobs == old(blobs)[id := Row(etag, text, Position(now, id))] && sourceRev == old(sourceRev) + 1
      ensures !ok ==> View() == old(View()) && etag == blobs[id].etag
    {
      if id in blobs && ifMatch.Exactly? && ifMatch.etag != blobs[id].etag {
        return false, blobs[id].etag, sourceRev;
      }
      StoreRow(id, key, text, now);
      ok, etag, rev := true, blobs[id].etag, sourceRev;
    }

    method StoreRow(id: ChatId, key: KeyId, text: Text, now: nat)
      requires Valid()
      modifies this`blobs, this`sealedUnder, this`sourceRev, this`last, this`log
      ensures Valid() && View() == Pushed(old(View()), id, text, now) && sealedUnder == old(sealedUnder)[id := key]
    {
      PushMovesForward(View(), id, text, now);
      var etag := if id in blobs then blobs[id].etag + 1 else 1;
      WriteRow(id, key, Row(etag, text, Position(now, id)));
      assert View() == Pushed(old(View()), id, text, now);
    }

    /** The row goes in and takes the next revision. */
    method WriteRow(id: ChatId, key: KeyId, row: Row)
      requires sourceRev == |log|
      modifies this`blobs, this`sealedUnder, this`sourceRev, this`last, this`log
      ensures blobs == old(blobs)[id := row] && sealedUnder == old(sealedUnder)[id := key]
      ensures sourceRev == old(sourceRev) + 1 && last == old(last)[id := sourceRev] && log == old(log) + [id]
    {
      blobs, sealedUnder := blobs[id := row], sealedUnder[id := key];
      sourceRev := sourceRev + 1;
      last, log := last[id := sourceRev], log + [id];
    }

    method DropRow(id: ChatId)
      requires Valid() && id in blobs
      modifies this`blobs, this`sealedUnder, this`sourceRev, this`last, this`log
      ensures Valid() && View() == Deleted(old(View()), id)
      ensures blobs.Keys < old(blobs.Keys)
    {
      DeleteMovesForward(View(), id);
      ghost var dropped := Deleted(View(), id);
      blobs, sealedUnder := blobs - {id}, sealedUnder - {id};
      sourceRev := sourceRev + 1;
      last, log := last[id := sourceRev], log + [id];
      assert View() == dropped;
    }

    /** Deleting a present row takes a revision. Deleting an absent one leaves the
        counter alone, yet this controlplane still answers with it. */
    method DeleteBlob(id: ChatId, ifMatch: IfMatch) returns (ok: bool, rev: nat)
      requires Valid()
      modifies this`blobs, this`sealedUnder, this`sourceRev, this`last, this`log
      ensures Valid()
      ensures ok <==> (id in old(blobs) && ifMatch.Exactly? ==> ifMatch.etag == old(blobs[id].etag))
      ensures View() == if ok && id in old(blobs) then Deleted(old(View()), id) else old(View())
      ensures blobs == if ok then old(blobs) - {id} else old(blobs)
      ensures sourceRev == old(sourceRev) + if ok && id in old(blobs) then 1 else 0
      ensures rev == sourceRev
    {
      ok, rev := true, sourceRev;
      if id in blobs {
        if ifMatch.Exactly? && ifMatch.etag != blobs[id].etag {
          return false, sourceRev;
        }
        DropRow(id);
        rev := sourceRev;
      }
    }

    method Rewrap(id: ChatId, ifMatch: nat, key: KeyId) returns (ok: bool)
      requires Valid()
      modifies this`blobs, this`sealedUnder
      ensures Valid()
      ensures ok <==> id in old(blobs) && old(blobs[id].etag) == ifMatch
      ensures View() == if ok then Rewrapped(old(View()), id) else old(View())
      ensures ok ==> blobs == old(blobs)[id := old(blobs[id]).(etag := ifMatch + 1)]
      ensures ok ==> sealedUnder == old(sealedUnder)[id := key]
    {
      if id !in blobs || blobs[id].etag != ifMatch {
        return false;
      }
      blobs, sealedUnder := blobs[id := blobs[id].(etag := blobs[id].etag + 1)], sealedUnder[id := key];
      ok := true;
    }

    /** The compare-and-set on generation and fence. */
    method PublishSearchIndex(req: PublishRequest) returns (ok: bool)
      requires Valid()
      modifies this`search
      ensures Valid()
      ensures ok <==> Accepts(old(search), sourceRev, currentKey, req)
      ensures search == if ok then Published(old(search), req) else old(search)
      ensures ok ==> search.gen == old(search.gen) + 1 && search.fence == req.fence && search.covered == req.covered
      ensures ok ==> search.obj == Some(req.obj) && search.key == req.key && search.model == req.model
      ensures ok ==> search.incomplete == req.incomplete
    {
      if req.gen != search.gen || req.fence != search.fence || req.covered < search.covered ||
         req.covered > sourceRev || (currentKey != NO_KEY && req.key != currentKey) {
        return false;
      }
      search := Publication(search.gen + 1, search.fence, req.covered, Some(req.obj), req.key, req.model,
          req.incomplete);
      ok := true;
    }

    /** Drops every row, one revision each. */
    method WipeRows()
      requires Valid()
      modifies this`blobs, this`sealedUnder, this`sourceRev, this`last, this`log
      ensures Valid() && blobs == map[] && Later(old(View()), View())
    {
      while |blobs| > 0
        invariant Valid() && Later(old(View()), View())
        decreases blobs.Keys
      {
        var id := AnyRow(blobs);
        ghost var before := View();
        DropRow(id);
        DeleteMovesForward(before, id);
        LaterTransitive(old(View()), before, View());
      }
    }

    /** A row of another scope: no revision, but a key that counts at the next key change. */
    method PutOther(id: int, key: KeyId)
      requires Valid()
      modifies this`others
      ensures Valid() && others == old(others)[id := key]
    {
      others := others[id := key];
    }

    /** Registering a key against the current one (`None` matches any). Starting fresh
        wipes the rows of every scope first; otherwise a row of any scope sealed under another
        key blocks the change. Every change of key fences the search index. */
    method RegisterKey(key: KeyId, ifMatch: Option<KeyId>, startFresh: bool) returns (ok: bool, fenced: bool)
      requires Valid()
      modifies this
      ensures Valid()
      ensures ok <==> (ifMatch.Some? ==> ifMatch.value == old(currentKey)) &&
                      (startFresh || (AllUnder(old(sealedUnder), key) && AllUnder(old(others), key)))
      ensures fenced <==> ok && (startFresh || old(currentKey) !in {NO_KEY, key})
      ensures search == if fenced then Fenced(old(search)) else old(search)
      ensures currentKey == if ok then key else old(currentKey)
      ensures ok && startFresh ==> blobs == map[] && others == map[] && Later(old(View()), View())
      ensures !(ok && startFresh) ==> View() == old(View()) && others == old(others)
    {
      ok, fenced := false, false;
      if ifMatch.Some? && ifMatch.value != currentKey {
        return;
      }
      var previous := currentKey;
      if startFresh {
        WipeRows();
        others := map[];
      } else if !AllUnder(sealedUnder, key) || !AllUnder(others, key) {
        return;
      }
      currentKey := key;
      ok, fenced := true, startFresh || (previous != NO_KEY && previous != key);
      if fenced {
        search := Publication(search.gen + 1, search.fence + 1, 0, None, NO_KEY, NO_KEY, true);
      }
    }
  }

  /** One row of another scope is enough to block a change to another key that does not start
      fresh. */
  method OtherScopeBlocks(cp: StubControlplane, id: int, key: KeyId, next: KeyId, ifMatch: Option<KeyId>)
    returns (ok: bool)
    requires cp.Valid() && key != NO_KEY && next != key
    modifies cp
    ensures cp.Valid() && !ok
    ensures cp.View() == old(cp.View()) && cp.currentKey == old(cp.currentKey) && cp.search == old(cp.search)
  {
    cp.PutOther(id, key);
    assert id in cp.others;
    var fenced;
    ok, fenced := cp.RegisterKey(next, ifMatch, false);
  }

  /** An etag is good for one write: whoever else still holds it is refused, and what was written
      stays. */
  method SpentEtagIsRefused(
    cp: StubControlplane, id: ChatId, etag: nat, key: KeyId, text: Text, now: nat, key': KeyId, text': Text, now': nat)
    returns (first: bool, second: bool)
    requires cp.Valid() && id in cp.blobs
    modifies cp`blobs, cp`sealedUnder, cp`sourceRev, cp`last, cp`log
    ensures cp.Valid() && !second && (first <==> etag == old(cp.blobs[id].etag))
    ensures first ==> id in cp.blobs && cp.blobs[id].text == text && cp.sourceRev == old(cp.sourceRev) + 1
    ensures !first ==> cp.View() == old(cp.View())
  {
    var e, r;
    first, e, r := cp.PutBlob(id, Exactly(etag), key, text, now);
    second, e, r := cp.PutBlob(id, Exactly(etag), key', text', now');
  }
}
