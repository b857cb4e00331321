/** Chunk staging of an uploaded archive: concurrent uploaders, one job, a bucket of chunks.
    Once every chunk is received the bucket holds the whole archive until the run ends. */
module Staging {
  import opened Prelude

  const MAX_CHUNK_BYTES := 0x80_0000
  const MAX_ARCHIVE_BYTES := 0x2000_0000

  type Digest = int
  type Uploader = int

  /* ---------- creation and the chunk layout ---------- */

  datatype CreateRequest = CreateRequest(sourceKnown: bool, totalBytes: int, totalChunks: int, hashWellFormed: bool)

  predicate Accepts(r: CreateRequest) {
    && r.sourceKnown && 0 < r.totalBytes <= MAX_ARCHIVE_BYTES && 0 < r.totalChunks
    && r.totalChunks == (r.totalBytes + MAX_CHUNK_BYTES - 1) / MAX_CHUNK_BYTES
    && r.hashWellFormed
  }

  /** A request is accepted exactly when its count of chunks is the one that holds its bytes,
      none of them empty. */
  lemma AcceptedCount(r: CreateRequest)
    ensures Accepts(r) <==>
              && r.sourceKnown && r.hashWellFormed && 0 < r.totalBytes <= 512 * 1024 * 1024
              && (r.totalChunks - 1) * 8388608 < r.totalBytes <= r.totalChunks * 8388608
  {
  }

  /** What the reader expects at an index. */
  function ExpectedLen(totalBytes: int, index: int): int {
    var remaining := totalBytes - index * MAX_CHUNK_BYTES;
    if remaining < MAX_CHUNK_BYTES then remaining else MAX_CHUNK_BYTES
  }

  /** What an upload must bring at an index. */
  function UploadLen(totalBytes: int, totalChunks: int, index: int): int {
    if index == totalChunks - 1 then totalBytes - index * MAX_CHUNK_BYTES else MAX_CHUNK_BYTES
  }

  /** For an accepted job uploader and reader agree, every chunk is non-empty and fits, and
      the chunks together are exactly the archive. */
  lemma LayoutsAgree(r: CreateRequest, index: int)
    requires Accepts(r) && 0 <= index < r.totalChunks
    ensures UploadLen(r.totalBytes, r.totalChunks, index) == ExpectedLen(r.totalBytes, index)
    ensures 0 < ExpectedLen(r.totalBytes, index) <= MAX_CHUNK_BYTES
    ensures index * MAX_CHUNK_BYTES + ExpectedLen(r.totalBytes, index) ==
            if index == r.totalChunks - 1 then r.totalBytes else (index + 1) * MAX_CHUNK_BYTES
  {
  }

  /* ---------- the job ---------- */

  datatype Mark = Mark(digest: Digest, pending: bool)

  datatype Status = InStaging | InRun | Completed | Failed

  datatype UploadPhase = Putting | Stored | PutFailed

  datatype Upload = Upload(index: int, data: Bytes, phase: UploadPhase)

  /** `ready`: some request has seen every chunk received. `closed` counts how often the
      job's done channel was closed. */
  datatype State = State(
    request: CreateRequest, received: map<int, Mark>, status: Status, started: bool, updatedAt: int,
    closed: nat, ready: bool, bucket: map<int, Bytes>, uploads: map<Uploader, Upload>)

  datatype Action =
    | Begin(u: Uploader, index: int, data: Bytes, now: int)
    | PutOK(u: Uploader)
    | PutError(u: Uploader, landed: bool)
    | FinishUpload(u: Uploader, now: int)
    | ClearUpload(u: Uploader, now: int)
    | CheckAll
    | Start(now: int)
    | GoStale(retention: int, now: int)
    | End(ok: bool, now: int)
    | Cleanup(index: int)

  predicate Terminal(s: Status) {
    s.Completed? || s.Failed?
  }

  predicate RightSize(st: State, index: int, data: Bytes) {
    0 <= index < st.request.totalChunks && 0 < |data| <= MAX_CHUNK_BYTES
    && |data| == UploadLen(st.request.totalBytes, st.request.totalChunks, index)
  }

  predicate AllReceived(st: State) {
    |st.received| == st.request.totalChunks && forall i | i in st.received :: !st.received[i].pending
  }

  /** Reserve an index: refused once started or if the index is already marked. */
  function BeginStep(hash: Bytes -> Digest, st: State, u: Uploader, index: int, data: Bytes, now: int): State {
    if u in st.uploads || !RightSize(st, index, data) || st.started || index in st.received then st
    else st.(received := st.received[index := Mark(hash(data), true)],
        uploads := st.uploads[u := Upload(index, data, Putting)], updatedAt := now)
  }

  /** One atomic step. A failed put may or may not have landed. */
  function Apply(hash: Bytes -> Digest, st: State, a: Action): State {
    match a
    case Begin(u, index, data, now) => BeginStep(hash, st, u, index, data, now)
    case PutOK(u) =>
      if u !in st.uploads || !st.uploads[u].phase.Putting? then st
      else
        var up := st.uploads[u];
        st.(bucket := st.bucket[up.index := up.data], uploads := st.uploads[u := up.(phase := Stored)])
    case PutError(u, landed) =>
      if u !in st.uploads || !st.uploads[u].phase.Putting? then st
      else
        var up := st.uploads[u];
        st.(bucket := if landed then st.bucket[up.index := up.data] else st.bucket,
            uploads := st.uploads[u := up.(phase := PutFailed)])
    case FinishUpload(u, now) =>
      if u !in st.uploads || !st.uploads[u].phase.Stored? then st
      else MarkComplete(st.(uploads := st.uploads - {u}), st.uploads[u].index, hash(st.uploads[u].data), now)
    case ClearUpload(u, now) =>
      if u !in st.uploads || !st.uploads[u].phase.PutFailed? then st
      else ClearPending(st.(uploads := st.uploads - {u}), st.uploads[u].index, hash(st.uploads[u].data), now)
    case CheckAll => if AllReceived(st) then st.(ready := true) else st
    case Start(now) =>
      if st.ready && !st.started && st.status.InStaging?
      then st.(started := true, status := InRun, updatedAt := now)
      else st
    case GoStale(retention, now) =>
      if st.status.InStaging? && retention - (now - st.updatedAt) <= 0 then Ended(st, Failed, now) else st
    case End(ok, now) =>
      if st.started && !Terminal(st.status) then Ended(st, if ok then Completed else Failed, now) else st
    case Cleanup(index) => if Terminal(st.status) then st.(bucket := st.bucket - {index}) else st
  }

  function MarkComplete(st: State, index: int, digest: Digest, now: int): State {
    if index in st.received && st.received[index] == Mark(digest, true)
    then st.(received := st.received[index := Mark(digest, false)], updatedAt := now)
    else st
  }

  function ClearPending(st: State, index: int, digest: Digest, now: int): State {
    if index in st.received && st.received[index] == Mark(digest, true)
    then st.(received := st.received - {index}, updatedAt := now)
    else st
  }

  function Ended(st: State, status: Status, now: int): State {
    st.(status := status, updatedAt := now, closed := st.closed + 1)
  }

  /* ---------- the invariant ---------- */

  /** Every upload in flight holds its own index. */
  ghost predicate Reserved(hash: Bytes -> Digest, st: State) {
    && (forall u | u in st.uploads :: var up := st.uploads[u];
          RightSize(st, up.index, up.data) && up.index in st.received &&
              st.received[up.index] == Mark(hash(up.data), true))
    && (forall u, v | u in st.uploads && v in st.uploads && st.uploads[u].index == st.uploads[v].index :: u == v)
  }

  ghost predicate HoldsChunk(hash: Bytes -> Digest, st: State, i: int) {
    && i in st.bucket && |st.bucket[i]| == UploadLen(st.request.totalBytes, st.request.totalChunks, i)
    && i in st.received && hash(st.bucket[i]) == st.received[i].digest
  }

  /** Until the job ends, what is marked complete is in the bucket. */
  ghost predicate Backed(hash: Bytes -> Digest, st: State) {
    !Terminal(st.status) ==>
      && (forall i | i in st.received && !st.received[i].pending :: HoldsChunk(hash, st, i))
      && (forall u | u in st.uploads && st.uploads[u].phase.Stored? ::
          st.uploads[u].index in st.bucket && st.bucket[st.uploads[u].index] == st.uploads[u].data)
  }

  ghost predicate Lifecycle(st: State) {
    && (st.ready ==> AllReceived(st))
    && (st.started ==> st.ready) && (st.status.InRun? ==> st.started) && (st.status.InStaging? ==> !st.started)
    && st.closed == if Terminal(st.status) then 1 else 0
  }

  ghost predicate Inv(hash: Bytes -> Digest, st: State) {
    && Accepts(st.request)
    && (forall i | i in st.received :: 0 <= i < st.request.totalChunks)
    && Reserved(hash, st) && Backed(hash, st) && Lifecycle(st)
  }

  lemma BeginKeeps(hash: Bytes -> Digest, st: State, u: Uploader, index: int, data: Bytes, now: int)
    requires Inv(hash, st)
    ensures Inv(hash, BeginStep(hash, st, u, index, data, now))
  {
    if AllReceived(st) && 0 <= index < st.request.totalChunks {
      EveryIndex(st.received, st.request.totalChunks, index);
    }
  }

  /** By counting: as many marks as chunks means every index is marked. */
  lemma EveryIndex(received: map<int, Mark>, n: nat, index: int)
    requires (forall i | i in received :: 0 <= i < n) && |received| == n && 0 <= index < n
    ensures index in received
  {
    assert |received.Keys| == |received|;
    Pigeonhole(received.Keys, n);
  }

  lemma {:induction false} Pigeonhole(keys: set<int>, n: nat)
    requires forall k | k in keys :: 0 <= k < n
    ensures |keys| <= n && (|keys| == n ==> forall i | 0 <= i < n :: i in keys)
  {
    if n == 0 {
      SomeMember(keys);
    } else {
      Pigeonhole(keys - {n - 1}, n - 1);
      assert forall i | 0 <= i < n - 1 && i in keys - {n - 1} :: i in keys;
    }
  }

  lemma FinishKeeps(hash: Bytes -> Digest, st: State, u: Uploader, now: int)
    requires Inv(hash, st)
    ensures Inv(hash, Apply(hash, st, FinishUpload(u, now)))
  {
    assert st.ready ==> AllReceived(st);
  }

  /** Every step of every uploader and of the job keeps the invariant. */
  lemma StepKeeps(hash: Bytes -> Digest, st: State, a: Action)
    requires Inv(hash, st)
    ensures Inv(hash, Apply(hash, st, a))
  {
    match a
    case Begin(u, index, data, now) => BeginKeeps(hash, st, u, index, data, now);
    case PutOK(u) =>
    case PutError(u, landed) =>
    case FinishUpload(u, now) => FinishKeeps(hash, st, u, now);
    case ClearUpload(u, now) =>
    case _ =>
  }

  /* ---------- what it comes to ---------- */

  function Created(r: CreateRequest, now: int): State {
    State(r, map[], InStaging, false, now, 0, false, map[], map[])
  }

  function Run(hash: Bytes -> Digest, st: State, actions: seq<Action>): State {
    if actions == [] then st else Apply(hash, Run(hash, st, actions[..|actions| - 1]), actions[|actions| - 1])
  }

  lemma {:induction false} RunKeeps(hash: Bytes -> Digest, r: CreateRequest, now: int, actions: seq<Action>)
    requires Accepts(r)
    ensures Inv(hash, Run(hash, Created(r, now), actions))
  {
    if actions != [] {
      RunKeeps(hash, r, now, actions[..|actions| - 1]);
      StepKeeps(hash, Run(hash, Created(r, now), actions[..|actions| - 1]), actions[|actions| - 1]);
    }
  }

  /** The bucket holds a chunk of the reader's length at every index. */
  ghost predicate Whole(st: State) {
    forall i | 0 <= i < st.request.totalChunks ::
        i in st.bucket && |st.bucket[i]| == ExpectedLen(st.request.totalBytes, i) > 0
  }

  lemma ReceivedIsWhole(hash: Bytes -> Digest, st: State)
    requires Inv(hash, st) && AllReceived(st) && !Terminal(st.status)
    ensures Whole(st)
  {
    forall i | 0 <= i < st.request.totalChunks
      ensures i in st.bucket && |st.bucket[i]| == ExpectedLen(st.request.totalBytes, i) > 0
    {
      EveryIndex(st.received, st.request.totalChunks, i);
      assert HoldsChunk(hash, st, i);
      LayoutsAgree(st.request, i);
    }
  }

  /** Once every chunk is received, no step changes a mark, and none changes the bucket
      before the job ends. */
  lemma ReceivedStays(hash: Bytes -> Digest, st: State, a: Action)
    requires Inv(hash, st) && AllReceived(st)
    ensures Apply(hash, st, a).received == st.received && AllReceived(Apply(hash, st, a))
    ensures !Terminal(st.status) ==> Apply(hash, st, a).bucket == st.bucket
    ensures !Terminal(Apply(hash, st, a).status) ==> !Terminal(st.status)
  {
    if a.Begin? && RightSize(st, a.index, a.data) {
      EveryIndex(st.received, st.request.totalChunks, a.index);
    }
  }

  /** In every run of the staging machine: a running job reads a whole archive; all marks
      present means the bucket is whole until the job ends; the done channel is closed at
      most once, exactly when the job has ended. */
  lemma RunsAreWhole(hash: Bytes -> Digest, r: CreateRequest, now: int, actions: seq<Action>)
    requires Accepts(r)
    ensures
      var st := Run(hash, Created(r, now), actions);
      && (st.status.InRun? ==> Whole(st))
      && (AllReceived(st) && !Terminal(st.status) ==> Whole(st))
      && st.closed == (if Terminal(st.status) then 1 else 0)
  {
    var st := Run(hash, Created(r, now), actions);
    RunKeeps(hash, r, now, actions);
    if AllReceived(st) && !Terminal(st.status) {
      ReceivedIsWhole(hash, st);
    }
  }

  /** In any run an upload whose put succeeds ends with its index complete under its digest and
      its bytes in the bucket; one whose put fails frees its index for the next upload. */
  lemma UploadsSettle(
    hash: Bytes -> Digest, r: CreateRequest, begun: int, actions: seq<Action>, u: Uploader, landed: bool, now: int)
    requires Accepts(r) && u in Run(hash, Created(r, begun), actions).uploads
    requires Run(hash, Created(r, begun), actions).uploads[u].phase.Putting?
    ensures
      var st := Run(hash, Created(r, begun), actions);
      var up := st.uploads[u];
      var done := Apply(hash, Apply(hash, st, PutOK(u)), FinishUpload(u, now));
      var failed := Apply(hash, Apply(hash, st, PutError(u, landed)), ClearUpload(u, now));
      && done.received == st.received[up.index := Mark(hash(up.data), false)]
      && done.bucket == st.bucket[up.index := up.data] && done.uploads == st.uploads - {u}
      && failed.received == st.received - {up.index} && failed.uploads == st.uploads - {u}
      && done.updatedAt == now && failed.updatedAt == now
  {
    RunKeeps(hash, r, begun, actions);
    var st := Run(hash, Created(r, begun), actions);
    var up := st.uploads[u];
    assert st.received[up.index] == Mark(hash(up.data), true);
  }

  /* ---------- an undisturbed import ---------- */

  /** One chunk is uploaded. */
  function Uploaded(hash: Bytes -> Digest, st: State, u: Uploader, index: int, data: Bytes, now: int): State {
    Apply(hash, Apply(hash, Apply(hash, st, Begin(u, index, data, now)), PutOK(u)), FinishUpload(u, now))
  }

  function UploadedAll(
    hash: Bytes -> Digest, st: State, u: Uploader, order: seq<int>, pieces: map<int, Bytes>, now: int): State
    requires forall i | i in order :: i in pieces
  {
    if order == [] then st
    else
      var k := |order| - 1;
      Uploaded(hash, UploadedAll(hash, st, u, order[..k], pieces, now), u, order[k], pieces[order[k]], now)
  }

  /** Staged chunks are deleted one by one. */
  function CleanedAll(hash: Bytes -> Digest, st: State, order: seq<int>): State {
    if order == [] then st
    else Apply(hash, CleanedAll(hash, st, order[..|order| - 1]), Cleanup(order[|order| - 1]))
  }

  lemma OneUpload(hash: Bytes -> Digest, st: State, u: Uploader, index: int, data: Bytes, now: int)
    requires u !in st.uploads && RightSize(st, index, data) && !st.started && index !in st.received
    ensures Uploaded(hash, st, u, index, data, now) ==
            st.(received := st.received[index := Mark(hash(data), false)], bucket := st.bucket[index := data],
                updatedAt := now)
  {
    var begun := Apply(hash, st, Begin(u, index, data, now));
    var put := Apply(hash, begun, PutOK(u));
    assert put.uploads - {u} == st.uploads;
    assert put.received[index := Mark(hash(data), false)] == st.received[index := Mark(hash(data), false)];
  }

  ghost predicate Distinct(order: seq<int>) {
    forall i, j | 0 <= i < j < |order| :: order[i] != order[j]
  }

  /** From `st` to `after` exactly the chunks of `order` were received and staged. */
  ghost predicate StagedAs(hash: Bytes -> Digest, st: State, after: State, order: seq<int>, pieces: map<int, Bytes>) {
    && after == st.(received := after.received, bucket := after.bucket, updatedAt := after.updatedAt)
    && (forall i :: i in after.received <==> i in order)
    && (forall i | i in order :: i in pieces && after.received[i] == Mark(hash(pieces[i]), false))
    && (forall i :: i in after.bucket <==> i in order || i in st.bucket)
    && (forall i | i in order :: after.bucket[i] == pieces[i])
  }

  lemma OneMoreStaged(
    hash: Bytes -> Digest, st: State, before: State, after: State, order: seq<int>, index: int,
    pieces: map<int, Bytes>)
    requires StagedAs(hash, st, before, order, pieces) && index in pieces && index !in order
    requires after == before.(received := before.received[index := Mark(hash(pieces[index]), false)],
                              bucket := before.bucket[index := pieces[index]], updatedAt := after.updatedAt)
    ensures StagedAs(hash, st, after, order + [index], pieces)
  {
  }

  /** Chunks uploaded one after another are all received and staged. */
  lemma {:induction false} AllUploads(
    hash: Bytes -> Digest, st: State, u: Uploader, order: seq<int>, pieces: map<int, Bytes>, now: int)
    requires u !in st.uploads && !st.started && st.received == map[] && Distinct(order)
    requires forall i | i in order :: i in pieces && RightSize(st, i, pieces[i])
    ensures StagedAs(hash, st, UploadedAll(hash, st, u, order, pieces, now), order, pieces)
  {
    if order != [] {
      var k := |order| - 1;
      AllUploads(hash, st, u, order[..k], pieces, now);
      assert order == order[..k] + [order[k]];
      var before := UploadedAll(hash, st, u, order[..k], pieces, now);
      OneUpload(hash, before, u, order[k], pieces[order[k]], now);
      OneMoreStaged(hash, st, before, UploadedAll(hash, st, u, order, pieces, now), order[..k], order[k], pieces);
    }
  }

  lemma {:induction false} AllCleaned(hash: Bytes -> Digest, st: State, order: seq<int>)
    requires Terminal(st.status)
    ensures
      var after := CleanedAll(hash, st, order);
      after == st.(bucket := after.bucket) && forall i :: i in after.bucket <==> i in st.bucket && i !in order
  {
    if order != [] {
      AllCleaned(hash, st, order[..|order| - 1]);
      assert order == order[..|order| - 1] + [order[|order| - 1]];
    }
  }

  lemma {:induction false} Count(keys: set<int>, n: nat)
    requires forall k :: k in keys <==> 0 <= k < n
    ensures |keys| == n
  {
    if n == 0 {
      SomeMember(keys);
    } else {
      Count(keys - {n - 1}, n - 1);
    }
  }

  function Started(hash: Bytes -> Digest, st: State, now: int): State {
    Apply(hash, Apply(hash, st, CheckAll), Start(now))
  }

  lemma StartedIs(hash: Bytes -> Digest, st: State, now: int)
    requires AllReceived(st) && !st.started && st.status.InStaging?
    ensures Started(hash, st, now) == st.(ready := true, started := true, status := InRun, updatedAt := now)
  {
  }

  lemma AllThere(hash: Bytes -> Digest, st: State, order: seq<int>, pieces: map<int, Bytes>)
    requires (forall i :: i in order <==> 0 <= i < st.request.totalChunks) && st.request.totalChunks > 0
    requires forall i :: i in st.received <==> i in order
    requires forall i | i in order :: i in pieces && st.received[i] == Mark(hash(pieces[i]), false)
    ensures AllReceived(st)
  {
    assert |st.received.Keys| == |st.received|;
    Count(st.received.Keys, st.request.totalChunks);
  }

  /** An accepted job whose chunks are each uploaded once, in any order, starts running over
      exactly those chunks. */
  lemma UploadedJobRuns(
    hash: Bytes -> Digest, r: CreateRequest, begun: int, u: Uploader, order: seq<int>, pieces: map<int, Bytes>,
    now: int)
    requires Accepts(r) && Distinct(order) && forall i :: i in order <==> 0 <= i < r.totalChunks
    requires forall i | i in order :: i in pieces && RightSize(Created(r, begun), i, pieces[i])
    ensures
      var running := Started(hash, UploadedAll(hash, Created(r, begun), u, order, pieces, now), now);
      && running.status.InRun? && running.started
      && (forall i :: i in running.bucket <==> 0 <= i < r.totalChunks)
      && (forall i | 0 <= i < r.totalChunks :: running.bucket[i] == pieces[i])
  {
    AllUploads(hash, Created(r, begun), u, order, pieces, now);
    var staged := UploadedAll(hash, Created(r, begun), u, order, pieces, now);
    AllThere(hash, staged, order, pieces);
    StartedIs(hash, staged, now);
  }

  /** A running job ends with the outcome it is given, and cleaning up its chunks in any order
      leaves none of them behind and touches nothing else. */
  lemma EndedJobIsCleaned(hash: Bytes -> Digest, st: State, ok: bool, now: int, order: seq<int>)
    requires st.started && !Terminal(st.status)
    ensures
      var over := CleanedAll(hash, Apply(hash, st, End(ok, now)), order);
      && over.status == (if ok then Completed else Failed)
      && (forall i :: i in over.bucket <==> i in st.bucket && i !in order)
  {
    AllCleaned(hash, Apply(hash, st, End(ok, now)), order);
  }

  /* ---------- the job object ---------- */

  datatype BeginResult = Reservation | AlreadyHave | JobStarted | HashConflict | InProgress

  class ImportJob {
    const request: CreateRequest
    var received: map<int, Mark>
    var status: Status
    var startedRun: bool
    var updatedAt: int
    var closed: nat

    ghost predicate Is(st: State)
      reads this
    {
      && st.request == request && st.received == received && st.status == status
      && st.started == startedRun && st.updatedAt == updatedAt && st.closed == closed
    }

    constructor (request: CreateRequest, now: int)
      ensures Is(Created(request, now)) && this.request == request
    {
      this.request := request;
      received, status, startedRun, updatedAt, closed := map[], InStaging, false, now, 0;
    }

    /** Reserve an index for one uploader. A replay of a stored chunk is reported as already
        there; a different digest, or one still uploading, is refused. */
    method BeginChunk(index: int, digest: Digest, now: int) returns (r: BeginResult)
      modifies this`received, this`updatedAt
      ensures r.Reservation? <==> !startedRun && index !in old(received)
      ensures r.AlreadyHave? <==> !startedRun && index in old(received) && old(received)[index] == Mark(digest, false)
      ensures r.InProgress? <==> !startedRun && index in old(received) && old(received)[index] == Mark(digest, true)
      ensures r.JobStarted? <==> startedRun
      ensures received == if r.Reservation? then old(received)[index := Mark(digest, true)] else old(received)
      ensures updatedAt == if r.Reservation? then now else old(updatedAt)
    {
      if startedRun {
        return JobStarted;
      }
      if index in received {
        var prev := received[index];
        if prev.digest != digest {
          return HashConflict;
        }
        return if prev.pending then InProgress else AlreadyHave;
      }
      received := received[index := Mark(digest, true)];
      updatedAt := now;
      r := Reservation;
    }

    method FinishChunk(index: int, digest: Digest, now: int, ghost st: State)
      requires Is(st)
      modifies this`received, this`updatedAt
      ensures Is(MarkComplete(st, index, digest, now))
      ensures
        if index in old(received) && old(received)[index] == Mark(digest, true)
        then received == old(received)[index := Mark(digest, false)] && updatedAt == now
        else received == old(received) && updatedAt == old(updatedAt)
    {
      if index in received && received[index] == Mark(digest, true) {
        received := received[index := Mark(digest, false)];
        updatedAt := now;
      }
    }

    method ClearPendingChunk(index: int, digest: Digest, now: int, ghost st: State)
      requires Is(st)
      modifies this`received, this`updatedAt
      ensures Is(ClearPending(st, index, digest, now))
      ensures
        if index in old(received) && old(received)[index] == Mark(digest, true)
        then received == old(received) - {index} && updatedAt == now
        else received == old(received) && updatedAt == old(updatedAt)
    {
      if index in received && received[index] == Mark(digest, true) {
        received := received - {index};
        updatedAt := now;
      }
    }

    method AllChunksReceived(ghost st: State) returns (all: bool)
      requires Is(st)
      ensures all <==> AllReceived(st)
      ensures all <==> |received| == request.totalChunks && forall i | i in received :: !received[i].pending
    {
      if |received| != request.totalChunks {
        return false;
      }
      var todo := received.Keys;
      while todo != {}
        invariant todo <= received.Keys
        invariant forall i | i in received && i !in todo :: !received[i].pending
        decreases todo
      {
        SomeMember(todo);
        var i :| i in todo;
        if received[i].pending {
          return false;
        }
        todo := todo - {i};
      }
      all := true;
    }

    /** Start once, and only from staging. */
    method StartRun(now: int, ghost hash: Bytes -> Digest, ghost st: State) returns (ok: bool)
      requires Is(st) && st.ready
      modifies this`startedRun, this`status, this`updatedAt
      ensures Is(Apply(hash, st, Start(now))) && (ok <==> !st.started && st.status.InStaging?)
      ensures ok <==> !old(startedRun) && old(status).InStaging?
      ensures
        if ok then startedRun && status.InRun? && updatedAt == now
        else startedRun == old(startedRun) && status == old(status) && updatedAt == old(updatedAt)
    {
      if startedRun || !status.InStaging? {
        return false;
      }
      startedRun, status, updatedAt := true, InRun, now;
      ok := true;
    }

    method FailIfStaleStaging(
      retention: int, now: int, ghost hash: Bytes -> Digest, ghost st: State)
      returns (remaining: int, failed: bool)
      requires Is(st)
      modifies this`status, this`updatedAt, this`closed
      ensures Is(Apply(hash, st, GoStale(retention, now)))
      ensures failed <==> st.status.InStaging? && now - st.updatedAt >= retention
      ensures remaining > 0 <==> st.status.InStaging? && !failed
      ensures
        if old(status).InStaging? && now - old(updatedAt) >= retention
        then failed && status.Failed? && updatedAt == now && closed == old(closed) + 1
        else !failed && status == old(status) && updatedAt == old(updatedAt) && closed == old(closed)
      ensures remaining == if old(status).InStaging? && !failed then retention - (now - old(updatedAt)) else 0
    {
      if !status.InStaging? {
        return 0, false;
      }
      remaining := retention - (now - updatedAt);
      if remaining > 0 {
        return remaining, false;
      }
      status, updatedAt, closed := Failed, now, closed + 1;
      return 0, true;
    }

    method FinishWithReason(ok: bool, now: int, ghost hash: Bytes -> Digest, ghost st: State)
      requires Is(st) && st.started
      modifies this`status, this`updatedAt, this`closed
      ensures Is(Apply(hash, st, End(ok, now)))
      ensures
        if old(status).Completed? || old(status).Failed?
        then status == old(status) && updatedAt == old(updatedAt) && closed == old(closed)
        else status == (if ok then Completed else Failed) && updatedAt == now && closed == old(closed) + 1
    {
      if status.Completed? || status.Failed? {
        return;
      }
      status, updatedAt, closed := if ok then Completed else Failed, now, closed + 1;
    }
  }

  /** A put that failed may still have landed. */
  datatype PutOutcome = PutDone | PutAmbiguous | PutRefused

  function PutStep(u: Uploader, put: PutOutcome): Action {
    if put.PutDone? then PutOK(u) else PutError(u, put.PutAmbiguous?)
  }

  function LastStep(u: Uploader, put: PutOutcome, now: int): Action {
    if put.PutDone? then FinishUpload(u, now) else ClearUpload(u, now)
  }

  /** The second half of staging: the put, then complete or release the mark. */
  method StoreChunk(
    job: ImportJob, u: Uploader, index: int, data: Bytes, hash: Bytes -> Digest, put: PutOutcome, now: int,
    ghost st: State)
    requires job.Is(st) && u in st.uploads && st.uploads[u] == Upload(index, data, Putting)
    modifies job`received, job`updatedAt
    ensures job.Is(Apply(hash, Apply(hash, st, PutStep(u, put)), LastStep(u, put, now)))
  {
    ghost var st' := Apply(hash, st, PutStep(u, put));
    ghost var without := st'.(uploads := st'.uploads - {u});
    if put.PutDone? {
      job.FinishChunk(index, hash(data), now, without);
    } else {
      job.ClearPendingChunk(index, hash(data), now, without);
    }
  }

  /** An upload as it arrives: the decoded data, none if its base64 is malformed, and the
      digest the client claims for it. */
  datatype UploadRequest = UploadRequest(index: int, data: Option<Bytes>, claimed: Digest)

  predicate Genuine(hash: Bytes -> Digest, st: State, q: UploadRequest) {
    q.data.Some? && hash(q.data.value) == q.claimed && RightSize(st, q.index, q.data.value)
  }

  /** Stage one chunk without interruption: nothing unless the request is genuine and its index
      free, else the machine's own steps in order. Success leaves the index complete under
      the chunk's digest. */
  method StageImportChunk(
    job: ImportJob, u: Uploader, q: UploadRequest, hash: Bytes -> Digest, put: PutOutcome, now: int, ghost st: State)
    returns (ok: bool)
    requires job.Is(st) && u !in st.uploads
    modifies job`received, job`updatedAt
    ensures ok ==> Genuine(hash, st, q) && q.index in job.received && job.received[q.index] == Mark(q.claimed, false)
    ensures
      if Genuine(hash, st, q) && !st.started && q.index !in st.received
      then
        && job.Is(Run(hash, st, [Begin(u, q.index, q.data.value, now), PutStep(u, put), LastStep(u, put, now)]))
        && ok == put.PutDone?
      else
        && job.Is(st)
        && ok == (Genuine(hash, st, q) && !st.started && q.index in st.received &&
            st.received[q.index] == Mark(q.claimed, false))
    ensures
      job.received ==
      if Genuine(hash, st, q) && !st.started && q.index !in st.received && put.PutDone?
      then old(job.received)[q.index := Mark(q.claimed, false)]
      else old(job.received)
  {
    var total := job.request.totalChunks;
    if q.index < 0 || q.index >= total || q.data.None? {
      return false;
    }
    var data := q.data.value;
    if |data| == 0 || |data| > MAX_CHUNK_BYTES || hash(data) != q.claimed {
      return false;
    }
    var expected := if q.index == total - 1 then job.request.totalBytes - q.index * MAX_CHUNK_BYTES
        else MAX_CHUNK_BYTES;
    if |data| != expected {
      return false;
    }
    var begun := job.BeginChunk(q.index, q.claimed, now);
    if !begun.Reservation? {
      return begun.AlreadyHave?;
    }
    StagedMark(hash, st, u, q.index, data, put, now);
    StoreChunk(job, u, q.index, data, hash, put, now, BeginStep(hash, st, u, q.index, data, now));
    ok := put.PutDone?;
  }

  lemma StagedMark(hash: Bytes -> Digest, st: State, u: Uploader, index: int, data: Bytes, put: PutOutcome, now: int)
    requires u !in st.uploads && RightSize(st, index, data) && !st.started && index !in st.received
    ensures
      var begun := BeginStep(hash, st, u, index, data, now);
      var after := Run(hash, st, [Begin(u, index, data, now), PutStep(u, put), LastStep(u, put, now)]);
      && after == Apply(hash, Apply(hash, begun, PutStep(u, put)), LastStep(u, put, now))
      && after.received == if put.PutDone? then st.received[index := Mark(hash(data), false)] else st.received
  {
    ThreeSteps(hash, st, Begin(u, index, data, now), PutStep(u, put), LastStep(u, put, now));
    MarkSettles(hash, BeginStep(hash, st, u, index, data, now), u, index, data, put, now);
    assert st.received[index := Mark(hash(data), true)] - {index} == st.received;
  }

  lemma MarkSettles(hash: Bytes -> Digest, st: State, u: Uploader, index: int, data: Bytes, put: PutOutcome, now: int)
    requires u in st.uploads && st.uploads[u] == Upload(index, data, Putting)
    requires index in st.received && st.received[index] == Mark(hash(data), true)
    ensures
      var after := Apply(hash, Apply(hash, st, PutStep(u, put)), LastStep(u, put, now));
      after.received ==
      if put.PutDone? then st.received[index := Mark(hash(data), false)] else st.received - {index}
  {
  }

  lemma ThreeSteps(hash: Bytes -> Digest, st: State, a: Action, b: Action, c: Action)
    ensures Run(hash, st, [a, b, c]) == Apply(hash, Apply(hash, Apply(hash, st, a), b), c)
  {
    var s := [a, b, c];
    assert s[..2] == [a, b] && s[..2][..1] == [a] && [a][..0] == [];
    assert Run(hash, st, [a]) == Apply(hash, st, a);
    assert Run(hash, st, [a, b]) == Apply(hash, Apply(hash, st, a), b);
  }
}
