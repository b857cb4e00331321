/** One sealed row under pushes, inline pull rewraps, migrations and deletes. A rewrap writes
    only over the etag it read, so the row keeps the last accepted push for as long as no
    rewrap of a deleted incarnation lands. */
module SealedRow {
  import opened Prelude
  import Aad
  import Envelope

  /* ---------- chat documents ---------- */

  /** An attachment's fields; an absent or non-string field is empty. */
  datatype Attachment = Attachment(image: bool, id: Bytes, encryptionKey: Bytes, legacyKey: Bytes)

  /** A parsed chat: its attachments in order, and everything else. */
  datatype Doc = Doc(attachments: seq<Attachment>, rest: Bytes)

  /** The key a reader uses for an attachment. */
  function ReaderKey(a: Attachment): Bytes {
    if a.encryptionKey != [] then a.encryptionKey else a.legacyKey
  }

  predicate NeedsRename(a: Attachment) {
    a.image && a.id != [] && a.encryptionKey == [] && a.legacyKey != []
  }

  function Renamed(a: Attachment): Attachment {
    if NeedsRename(a) then a.(encryptionKey := a.legacyKey) else a
  }

  function RenameAll(s: seq<Attachment>): seq<Attachment> {
    if s == [] then [] else RenameAll(s[..|s| - 1]) + [Renamed(s[|s| - 1])]
  }

  /** The two documents differ at most in where an attachment's key is written. */
  ghost predicate SameContents(d: Doc, e: Doc) {
    && d.rest == e.rest && |d.attachments| == |e.attachments|
    && forall i | 0 <= i < |d.attachments| ::
         var a, b := d.attachments[i], e.attachments[i];
         a.image == b.image && a.id == b.id && a.legacyKey == b.legacyKey && ReaderKey(a) == ReaderKey(b)
  }

  lemma {:induction false} RenameAllIs(s: seq<Attachment>)
    ensures |RenameAll(s)| == |s| && forall i | 0 <= i < |s| :: RenameAll(s)[i] == Renamed(s[i])
  {
    if s != [] {
      RenameAllIs(s[..|s| - 1]);
    }
  }

  /** Attachment promotion: every image attachment with an id and a key is promoted;
      `outcomes` says which promotions fail. A failure aborts the rewrap. */
  method RewrapChatAttachments(d: Doc, outcomes: nat -> bool) returns (failed: bool, changed: bool, r: Doc)
    ensures failed <==> exists i: nat :: i < |d.attachments| && Promotes(d.attachments[i]) && !outcomes(i)
    ensures !failed ==> r == Doc(RenameAll(d.attachments), d.rest)
    ensures !failed ==> (changed <==> exists i :: 0 <= i < |d.attachments| && NeedsRename(d.attachments[i]))
    ensures !failed ==> r.rest == d.rest && |r.attachments| == |d.attachments|
    ensures !failed ==> forall i | 0 <= i < |d.attachments| :: KeyMoved(d.attachments[i], r.attachments[i])
    ensures !failed ==> forall i | 0 <= i < |r.attachments| :: !LegacyOnly(r.attachments[i])
  {
    var s := d.attachments;
    var out: seq<Attachment> := [];
    failed, changed := false, false;
    var i := 0;
    while i < |s|
      invariant 0 <= i <= |s|
      invariant failed <==> exists k: nat :: k < i && Promotes(s[k]) && !outcomes(k)
      invariant |out| == i && (!failed ==> out == RenameAll(s[..i]))
      invariant !failed ==> (changed <==> exists k :: 0 <= k < i && NeedsRename(s[k]))
    {
      assert s[..i + 1][..i] == s[..i];
      var a := s[i];
      if Promotes(a) && !outcomes(i) {
        failed := true;
        out := out + [a];
      } else {
        if NeedsRename(a) {
          changed := true;
        }
        out := out + [Renamed(a)];
      }
      i := i + 1;
    }
    assert s[..i] == s;
    RenameAllIs(s);
    r := Doc(out, d.rest);
  }

  /** An image attachment with an id whose key is only in the legacy field. */
  predicate LegacyOnly(a: Attachment) {
    a.image && a.id != [] && a.encryptionKey == [] && a.legacyKey != []
  }

  /** The legacy key is now in the current field, every other field is kept; any other
      attachment is kept whole. */
  predicate KeyMoved(a: Attachment, b: Attachment) {
    && b.image == a.image && b.id == a.id && b.legacyKey == a.legacyKey
    && b.encryptionKey == if LegacyOnly(a) then a.legacyKey else a.encryptionKey
  }

  predicate Promotes(a: Attachment) {
    a.image && a.id != [] && ReaderKey(a) != []
  }

  /* ---------- the system around one row ---------- */

  /** The primitives, key ids, the JSON reading of a chat, and which row this is. */
  datatype System = System(
    p: Envelope.Primitives, keyIdOf: Bytes -> Bytes, parse: Bytes -> Option<Doc>, render: Doc -> Bytes,
    scope: Bytes, id: Bytes, user: Bytes)

  ghost predicate SystemOK(s: System) {
    && Envelope.Ideal(s.p)
    && (forall k :: Aad.ValidKeyId((s.keyIdOf)(k)))
    && (forall d :: (s.parse)((s.render)(d)) == Some(d))
  }

  /** Equal bytes, or chats with the same contents. */
  ghost predicate Alike(s: System, a: Bytes, b: Bytes) {
    a == b || ((s.parse)(a).Some? && (s.parse)(b).Some? && SameContents((s.parse)(a).value, (s.parse)(b).value))
  }

  /** What a rewrap seals: a chat has its attachment keys moved to the current field. */
  ghost function Final(s: System, plaintext: Bytes): Bytes {
    if s.scope != Aad.Ascii("chat") || (s.parse)(plaintext).None? then plaintext
    else
      var d := (s.parse)(plaintext).value;
      if exists i :: 0 <= i < |d.attachments| && NeedsRename(d.attachments[i])
      then (s.render)(Doc(RenameAll(d.attachments), d.rest))
      else plaintext
  }

  lemma RenameKeepsContents(d: Doc, e: Doc)
    requires SameContents(d, e)
    ensures SameContents(Doc(RenameAll(d.attachments), d.rest), e)
  {
    RenameAllIs(d.attachments);
  }

  lemma FinalAlike(s: System, plaintext: Bytes, first: Bytes)
    requires SystemOK(s) && Alike(s, plaintext, first)
    ensures Alike(s, Final(s, plaintext), first)
  {
    if Final(s, plaintext) != plaintext {
      var d := (s.parse)(plaintext).value;
      RenameKeepsContents(d, (s.parse)(first).value);
      assert (s.parse)(Final(s, plaintext)) == Some(Doc(RenameAll(d.attachments), d.rest));
    }
  }

  /** The id both the reader and the rewriter bind, from the id the store lists. */
  function AadIdForScope(scope: Bytes, storageId: Bytes): Bytes {
    if scope == Aad.Ascii("profile") then Aad.Ascii("profile") else storageId
  }

  function AadFor(s: System, id: Bytes, keyId: Bytes): Aad.RowAad {
    Aad.RowAad(keyId, s.scope, id, s.user)
  }

  /** Ids that address this row: profile rows are one per user whatever id names them. */
  predicate Addresses(s: System, id: Bytes) {
    s.scope == Aad.Ascii("profile") || id == s.id
  }

  /* ---------- the row and its writers ---------- */

  /** A legacy blob opens under its key alone; a modern one is an envelope. */
  datatype Body = Legacy(key: Bytes, plaintext: Bytes) | Modern(env: Envelope.V2)

  datatype Row = Row(etag: nat, keyId: Bytes, body: Body)

  /** A rewrap in progress: the incarnation and etag it read, what it decrypted, the key it
      will seal under. */
  datatype Worker = Worker(born: nat, etag: nat, plaintext: Bytes, target: Bytes)

  /** How the row came to be: the sealing key, plaintext and randomness. */
  datatype Truth = Truth(key: Bytes, plaintext: Bytes, drawn: Envelope.Fresh)

  /** `born` counts the times the row was deleted: which incarnation of it lives. The rest is
      history: how the row was sealed, what was last pushed, and what was last brought in
      from outside the row, by a push or by a rewrap of an earlier incarnation. */
  datatype State = State(
    row: Option<Row>, born: nat, workers: map<int, Worker>, truth: Truth, pushed: Bytes, brought: Bytes)

  datatype IfMatch = Unconditional | Exactly(etag: nat)

  datatype Kind = InlinePull | Migration

  datatype Action =
    | Push(key: Bytes, plaintext: Bytes, id: Bytes, ifMatch: IfMatch, drawn: Envelope.Fresh)
    | Fetch(w: int, kind: Kind, keys: seq<Envelope.Key>, id: Bytes, target: Bytes)
    | Rewrap(w: int, id: Bytes, promoted: bool, drawn: Envelope.Fresh)
    | Drop(w: int)
    | Delete

  function OpenLegacy(body: Body, keys: seq<Envelope.Key>): Option<Bytes>
    requires body.Legacy?
  {
    if exists i :: 0 <= i < |keys| && keys[i].material == body.key then Some(body.plaintext) else None
  }

  /** Decrypt whatever version the row holds. */
  function DecryptAny(s: System, body: Body, keys: seq<Envelope.Key>, id: Bytes): Option<Bytes> {
    if body.Legacy? then OpenLegacy(body, keys)
    else
      var r := Envelope.DecryptV2(s.p, body.env, keys, AadFor(s, AadIdForScope(s.scope, id), []));
      if r.Opened? then Some(r.plaintext) else None
  }

  predicate Accepts(row: Option<Row>, ifMatch: IfMatch) {
    row.None? || ifMatch.Unconditional? || ifMatch.etag == row.value.etag
  }

  /** The push seals and its etag condition holds. */
  predicate Admitted(s: System, st: State, a: Action)
    requires a.Push?
  {
    SealsAt(s, a.key, a.plaintext, a.id, a.id, a.drawn) && Accepts(st.row, a.ifMatch)
  }

  /** The id addresses this row and the text can be sealed under `bound`. */
  predicate SealsAt(s: System, key: Bytes, plaintext: Bytes, id: Bytes, bound: Bytes, drawn: Envelope.Fresh) {
    && Addresses(s, id) && Envelope.FreshOK(drawn)
    && Envelope.Encryptable(key, plaintext, AadFor(s, bound, (s.keyIdOf)(key)))
  }

  /** The row that sealing writes. */
  function SealedRow(
    s: System, key: Bytes, plaintext: Bytes, id: Bytes, bound: Bytes, drawn: Envelope.Fresh, etag: nat): Row
    requires SealsAt(s, key, plaintext, id, bound, drawn)
  {
    var kid := (s.keyIdOf)(key);
    Row(etag, kid, Modern(Envelope.Encrypt(s.p, key, plaintext, AadFor(s, bound, kid), drawn).value))
  }

  /** A push seals under the id the client sent, and replaces the row if the etag allows. */
  function PushStep(s: System, st: State, a: Action): State
    requires a.Push?
  {
    if !Admitted(s, st, a) then st
    else
      var etag := if st.row.None? then 1 else st.row.value.etag + 1;
      st.(row := Some(SealedRow(s, a.key, a.plaintext, a.id, a.id, a.drawn, etag)),
          truth := Truth(a.key, a.plaintext, a.drawn), pushed := a.plaintext, brought := a.plaintext)
  }

  /** Read and decrypt. A pull rewraps only legacy rows; a migration skips rows already
      under its target key. */
  ghost function FetchStep(s: System, st: State, a: Action): State
    requires a.Fetch?
  {
    if st.row.None? || !Addresses(s, a.id) then st
    else
      var row := st.row.value;
      var plaintext := DecryptAny(s, row.body, a.keys, a.id);
      var skip := row.body.Modern? && (a.kind.InlinePull? || row.keyId == (s.keyIdOf)(a.target));
      if skip || plaintext.None? then st
      else st.(workers := st.workers[a.w := Worker(st.born, row.etag, plaintext.value, a.target)])
  }

  /** The rewrap's compare-and-set goes through. */
  ghost predicate Lands(s: System, st: State, a: Action)
    requires a.Rewrap?
  {
    && a.w in st.workers && a.promoted && st.row.Some? && st.row.value.etag == st.workers[a.w].etag
    && SealsAt(s, st.workers[a.w].target, Final(s, st.workers[a.w].plaintext), a.id,
        AadIdForScope(s.scope, a.id), a.drawn)
  }

  /** The rewrap read an incarnation of the row that has since been deleted. */
  predicate Stale(st: State, a: Action)
    requires a.Rewrap?
  {
    a.w in st.workers && st.workers[a.w].born != st.born
  }

  /** Seal under the target and write only over the etag that was read. */
  ghost function RewrapStep(s: System, st: State, a: Action): State
    requires a.Rewrap?
  {
    if !Lands(s, st, a) then st
    else
      var k := st.workers[a.w];
      var text := Final(s, k.plaintext);
      st.(row := Some(SealedRow(s, k.target, text, a.id, AadIdForScope(s.scope, a.id), a.drawn, k.etag + 1)),
          truth := Truth(k.target, text, a.drawn), workers := st.workers - {a.w},
          brought := if Stale(st, a) then text else st.brought)
  }

  /** Deleting a row ends its incarnation; a later push starts again at etag 1. */
  function DeleteStep(st: State): State {
    if st.row.None? then st else st.(row := None, born := st.born + 1)
  }

  ghost function Apply(s: System, st: State, a: Action): State {
    match a
    case Push(_, _, _, _, _) => PushStep(s, st, a)
    case Fetch(_, _, _, _, _) => FetchStep(s, st, a)
    case Rewrap(_, _, _, _) => RewrapStep(s, st, a)
    case Drop(w) => st.(workers := st.workers - {w})
    case Delete => DeleteStep(st)
  }

  /* ---------- the invariant ---------- */

  /** The row holds what its history says, sealed for this row under its own key id. */
  ghost predicate Holds(s: System, row: Row, t: Truth) {
    match row.body
    case Legacy(key, plaintext) => key == t.key && plaintext == t.plaintext
    case Modern(env) =>
      && row.keyId == (s.keyIdOf)(t.key) && Envelope.FreshOK(t.drawn)
      && Envelope.Encrypt(s.p, t.key, t.plaintext, AadFor(s, AadIdForScope(s.scope, s.id), row.keyId),
          t.drawn) == Some(env)
  }

  /** A worker of the living incarnation that matches its etag read what the row holds. */
  predicate WorkerOK(st: State, k: Worker) {
    && k.born <= st.born
    && (k.born == st.born ==>
          && st.row.Some? && k.etag <= st.row.value.etag
          && (k.etag == st.row.value.etag ==> k.plaintext == st.truth.plaintext))
  }

  ghost predicate Inv(s: System, st: State) {
    && (st.row.Some? ==> Holds(s, st.row.value, st.truth) && Alike(s, st.truth.plaintext, st.brought))
    && (forall w | w in st.workers :: WorkerOK(st, st.workers[w]))
  }

  /** Both sides of the id mapping: what addresses this row binds one id. */
  lemma OneAadId(s: System, id: Bytes)
    requires Addresses(s, id)
    ensures AadIdForScope(s.scope, id) == AadIdForScope(s.scope, s.id)
  {
  }

  /** Replacing the row at a higher etag leaves every worker behind. */
  lemma Replaced(s: System, st: State, after: State)
    requires Inv(s, st) && after.row.Some? && after.born == st.born
    requires st.row.Some? ==> st.row.value.etag < after.row.value.etag
    requires forall w | w in after.workers :: w in st.workers && after.workers[w] == st.workers[w]
    requires Holds(s, after.row.value, after.truth) && Alike(s, after.truth.plaintext, after.brought)
    ensures Inv(s, after)
  {
    forall w | w in after.workers
      ensures WorkerOK(after, after.workers[w])
    {
      assert WorkerOK(st, st.workers[w]);
    }
  }

  lemma PushKeeps(s: System, st: State, a: Action)
    requires SystemOK(s) && Inv(s, st) && a.Push?
    ensures Inv(s, PushStep(s, st, a))
  {
    if Admitted(s, st, a) {
      Replaced(s, st, PushStep(s, st, a));
    }
  }

  /** Whatever opens the row gives its true plaintext. */
  lemma OpensToTruth(s: System, row: Row, t: Truth, keys: seq<Envelope.Key>, id: Bytes)
    requires SystemOK(s) && Holds(s, row, t) && Addresses(s, id)
    ensures DecryptAny(s, row.body, keys, id).Some? ==> DecryptAny(s, row.body, keys, id).value == t.plaintext
    ensures keys == [Envelope.Key(t.key, row.keyId)] ==> DecryptAny(s, row.body, keys, id) == Some(t.plaintext)
  {
    OneAadId(s, id);
    if row.body.Modern? {
      var aad := AadFor(s, AadIdForScope(s.scope, s.id), row.keyId);
      Envelope.OpensExactly(s.p, t.key, t.plaintext, aad, t.drawn, keys, AadFor(s, AadIdForScope(s.scope, id), []));
    } else if keys == [Envelope.Key(t.key, row.keyId)] {
      assert keys[0].material == t.key;
    }
  }

  lemma FetchKeeps(s: System, st: State, a: Action)
    requires SystemOK(s) && Inv(s, st) && a.Fetch?
    ensures Inv(s, FetchStep(s, st, a))
  {
    if st.row.Some? && Addresses(s, a.id) {
      OpensToTruth(s, st.row.value, st.truth, a.keys, a.id);
    }
  }

  lemma RewrapKeeps(s: System, st: State, a: Action)
    requires SystemOK(s) && Inv(s, st) && a.Rewrap?
    ensures Inv(s, RewrapStep(s, st, a))
  {
    if Lands(s, st, a) {
      var k := st.workers[a.w];
      OneAadId(s, a.id);
      assert WorkerOK(st, k);
      LandedAlike(s, st, a);
      Replaced(s, st, RewrapStep(s, st, a));
    }
  }

  /** What a rewrap seals is alike what it brings in, or what the row already held. */
  lemma LandedAlike(s: System, st: State, a: Action)
    requires SystemOK(s) && Inv(s, st) && a.Rewrap? && Lands(s, st, a)
    ensures Alike(s, RewrapStep(s, st, a).truth.plaintext, RewrapStep(s, st, a).brought)
  {
    var k := st.workers[a.w];
    assert WorkerOK(st, k);
    if !Stale(st, a) {
      FinalAlike(s, k.plaintext, st.brought);
    }
  }

  lemma StepKeeps(s: System, st: State, a: Action)
    requires SystemOK(s) && Inv(s, st)
    ensures Inv(s, Apply(s, st, a))
  {
    match a
    case Push(_, _, _, _, _) => PushKeeps(s, st, a);
    case Fetch(_, _, _, _, _) => FetchKeeps(s, st, a);
    case Rewrap(_, _, _, _) => RewrapKeeps(s, st, a);
    case Drop(w) =>
    case Delete =>
  }

  /* ---------- runs ---------- */

  /** A row not yet written, or one left by a legacy client. */
  ghost predicate Initial(st: State) {
    && st.workers == map[] && st.brought == st.pushed
    && (st.row.Some? ==> st.row.value.body == Legacy(st.truth.key, st.pushed) && st.truth.plaintext == st.pushed)
  }

  ghost function Run(s: System, st: State, actions: seq<Action>): State {
    if actions == [] then st else Apply(s, Run(s, st, actions[..|actions| - 1]), actions[|actions| - 1])
  }

  lemma {:induction false} RunKeeps(s: System, st: State, actions: seq<Action>)
    requires SystemOK(s) && Initial(st)
    ensures Inv(s, Run(s, st, actions))
  {
    if actions != [] {
      RunKeeps(s, st, actions[..|actions| - 1]);
      StepKeeps(s, Run(s, st, actions[..|actions| - 1]), actions[|actions| - 1]);
    }
  }

  /** The plaintext of the last push the row accepted. */
  ghost function LastPush(s: System, st: State, actions: seq<Action>): Bytes {
    if actions == [] then st.pushed
    else
      var before, a := actions[..|actions| - 1], actions[|actions| - 1];
      if a.Push? && Admitted(s, Run(s, st, before), a) then a.plaintext else LastPush(s, st, before)
  }

  /** What the last rewrap of a deleted incarnation that landed since the last accepted push
      sealed, if there was one. */
  ghost function Intruder(s: System, st: State, actions: seq<Action>): Option<Bytes> {
    if actions == [] then None
    else
      var before, a := actions[..|actions| - 1], actions[|actions| - 1];
      var now := Run(s, st, before);
      if a.Push? && Admitted(s, now, a) then None
      else if a.Rewrap? && Lands(s, now, a) && Stale(now, a) then Some(Final(s, now.workers[a.w].plaintext))
      else Intruder(s, st, before)
  }

  lemma {:induction false} HistoryIs(s: System, st: State, actions: seq<Action>)
    requires Initial(st)
    ensures
      var now := Run(s, st, actions);
      var intruder := Intruder(s, st, actions);
      now.pushed == LastPush(s, st, actions) && now.brought == if intruder.Some? then intruder.value else now.pushed
  {
    if actions != [] {
      var before := actions[..|actions| - 1];
      HistoryIs(s, st, before);
    }
  }

  /** Being alike is an equivalence. */
  lemma AlikeTwice(s: System, a: Bytes, b: Bytes, c: Bytes)
    requires Alike(s, a, b)
    ensures Alike(s, b, a) && (Alike(s, a, c) <==> Alike(s, b, c))
  {
  }

  /** In every run the row, named by any id that addresses it, opens under the key it was
      sealed with, and nothing that opens it gives any other plaintext. That plaintext has
      the contents of the last accepted push if and only if no rewrap of a deleted
      incarnation has landed since that push, or what the last of them sealed is alike
      anyway. */
  lemma RowKeepsLastPushExactly(s: System, st: State, actions: seq<Action>, id: Bytes, keys: seq<Envelope.Key>)
    requires SystemOK(s) && Initial(st) && Addresses(s, id) && Run(s, st, actions).row.Some?
    ensures
      var now := Run(s, st, actions);
      var row := now.row.value;
      var intruder := Intruder(s, st, actions);
      && DecryptAny(s, row.body, [Envelope.Key(now.truth.key, row.keyId)], id) == Some(now.truth.plaintext)
      && (row.body.Modern? ==> row.keyId == (s.keyIdOf)(now.truth.key) && row.body.env.kid == row.keyId)
      && (DecryptAny(s, row.body, keys, id).Some? ==> DecryptAny(s, row.body, keys, id).value == now.truth.plaintext)
      && (Alike(s, now.truth.plaintext, LastPush(s, st, actions)) <==>
          intruder.None? || Alike(s, intruder.value, LastPush(s, st, actions)))
  {
    RunKeeps(s, st, actions);
    HistoryIs(s, st, actions);
    var now := Run(s, st, actions);
    AlikeTwice(s, now.truth.plaintext, now.brought, now.pushed);
    OpensToTruth(s, now.row.value, now.truth, [Envelope.Key(now.truth.key, now.row.value.keyId)], id);
    OpensToTruth(s, now.row.value, now.truth, keys, id);
  }

  lemma {:induction false} OneIncarnation(s: System, st: State, actions: seq<Action>)
    requires Initial(st) && Delete !in actions
    ensures Run(s, st, actions).born == st.born
    ensures forall w | w in Run(s, st, actions).workers :: Run(s, st, actions).workers[w].born == st.born
    ensures Intruder(s, st, actions).None?
  {
    if actions != [] {
      var k := |actions| - 1;
      assert actions[k] in actions && forall a | a in actions[..k] :: a in actions;
      OneIncarnation(s, st, actions[..k]);
    }
  }

  /** So a row that is never deleted always holds the last accepted push. */
  lemma UndeletedRowKeepsLastPush(s: System, st: State, actions: seq<Action>)
    requires SystemOK(s) && Initial(st) && Delete !in actions && Run(s, st, actions).row.Some?
    ensures Alike(s, Run(s, st, actions).truth.plaintext, LastPush(s, st, actions))
  {
    OneIncarnation(s, st, actions);
    RowKeepsLastPushExactly(s, st, actions, s.id, []);
  }

  /* ---------- what each step writes ---------- */

  lemma OneMoreStep(s: System, st: State, actions: seq<Action>, a: Action)
    ensures Run(s, st, actions + [a]) == Apply(s, Run(s, st, actions), a)
  {
    assert (actions + [a])[..|actions|] == actions;
  }

  /** The row opens under `key`, named by `id`, to `plaintext`. */
  ghost predicate OpensAs(s: System, row: Row, key: Bytes, id: Bytes, plaintext: Bytes) {
    DecryptAny(s, row.body, [Envelope.Key(key, row.keyId)], id) == Some(plaintext)
  }

  /** One push on a state that keeps the invariant. */
  lemma PushStepWrites(s: System, now: State, a: Action, id: Bytes)
    requires SystemOK(s) && Inv(s, now) && a.Push? && Addresses(s, a.id) && Addresses(s, id)
    requires Admitted(s, now, a)
    ensures PushWritten(s, now, PushStep(s, now, a), a, id)
  {
    PushKeeps(s, now, a);
    var after := PushStep(s, now, a);
    OpensToTruth(s, after.row.value, after.truth, [Envelope.Key(a.key, after.row.value.keyId)], id);
  }

  /** The row is what the push wrote. */
  ghost predicate PushWritten(s: System, now: State, after: State, a: Action, id: Bytes)
    requires a.Push?
  {
    && after.row.Some? && after.row.value.etag == (if now.row.None? then 1 else now.row.value.etag + 1)
    && after.row.value.keyId == (s.keyIdOf)(a.key) && after.row.value.body.Modern?
    && OpensAs(s, after.row.value, a.key, id, a.plaintext) && after.workers == now.workers
  }

  /** In any run a push that can be sealed is written exactly when the row is absent, the push
      is unconditional or it names the row's etag; the row then opens under the pushed key to
      the pushed text, one etag later. Otherwise nothing changes. */
  lemma PushWrites(s: System, st: State, actions: seq<Action>, a: Action, id: Bytes)
    requires SystemOK(s) && Initial(st) && a.Push? && Addresses(s, a.id) && Addresses(s, id)
    requires Envelope.FreshOK(a.drawn) && Envelope.Encryptable(a.key, a.plaintext, AadFor(s, a.id, (s.keyIdOf)(a.key)))
    ensures
      var now, after := Run(s, st, actions), Run(s, st, actions + [a]);
      if now.row.None? || a.ifMatch.Unconditional? || a.ifMatch.etag == now.row.value.etag
      then PushWritten(s, now, after, a, id)
      else after == now
  {
    OneMoreStep(s, st, actions, a);
    RunKeeps(s, st, actions);
    if Admitted(s, Run(s, st, actions), a) {
      PushStepWrites(s, Run(s, st, actions), a, id);
    }
  }

  /** In any run a pull picks up a legacy row it can open, and a migration any such row not
      yet under its target key: with the row's etag and plaintext. */
  lemma FetchReads(s: System, st: State, actions: seq<Action>, a: Action)
    requires SystemOK(s) && Initial(st) && a.Fetch? && Addresses(s, a.id) && Run(s, st, actions).row.Some?
    requires
      var now := Run(s, st, actions);
      a.keys == [Envelope.Key(now.truth.key, now.row.value.keyId)]
    ensures
      var now, after := Run(s, st, actions), Run(s, st, actions + [a]);
      var row := now.row.value;
      var due := row.body.Legacy? || (a.kind.Migration? && row.keyId != (s.keyIdOf)(a.target));
      if due
      then after == now.(workers := now.workers[a.w := Worker(now.born, row.etag, now.truth.plaintext, a.target)])
      else after == now
  {
    var now := Run(s, st, actions);
    OneMoreStep(s, st, actions, a);
    RunKeeps(s, st, actions);
    OpensToTruth(s, now.row.value, now.truth, a.keys, a.id);
  }

  /** No attachment of the chat has its key only in the legacy field. */
  ghost predicate Settled(s: System, text: Bytes) {
    (s.parse)(text).Some? ==>
      forall i | 0 <= i < |(s.parse)(text).value.attachments| :: !LegacyOnly((s.parse)(text).value.attachments[i])
  }

  lemma FinalSettled(s: System, plaintext: Bytes)
    requires SystemOK(s) && s.scope == Aad.Ascii("chat")
    ensures Settled(s, Final(s, plaintext))
  {
    if (s.parse)(plaintext).Some? {
      var d := (s.parse)(plaintext).value;
      RenameAllIs(d.attachments);
      assert (s.parse)((s.render)(Doc(RenameAll(d.attachments), d.rest))) ==
             Some(Doc(RenameAll(d.attachments), d.rest));
    }
  }

  lemma RewrapSeals(s: System, now: State, a: Action, id: Bytes)
    requires SystemOK(s) && Inv(s, now) && Addresses(s, id) && a.Rewrap? && Lands(s, now, a)
    ensures
      var after, k := RewrapStep(s, now, a), now.workers[a.w];
      var text := Final(s, k.plaintext);
      && OpensAs(s, after.row.value, k.target, id, text) && Alike(s, text, k.plaintext)
      && (s.scope == Aad.Ascii("chat") ==> Settled(s, text))
  {
    var after, k := RewrapStep(s, now, a), now.workers[a.w];
    RewrapKeeps(s, now, a);
    OpensToTruth(s, after.row.value, after.truth, [Envelope.Key(k.target, after.row.value.keyId)], id);
    FinalAlike(s, k.plaintext, k.plaintext);
    if s.scope == Aad.Ascii("chat") {
      FinalSettled(s, k.plaintext);
    }
  }

  /** In any run a rewrap that can seal is written exactly when its promotions succeeded and
      the row still has the etag it read. The row is then under the target key, one etag
      later, reads like what was picked up, and in a chat no attachment key is left in the
      legacy field only. Otherwise nothing changes. */
  lemma RewrapWrites(s: System, st: State, actions: seq<Action>, a: Action, id: Bytes) returns (text: Bytes)
    requires SystemOK(s) && Initial(st) && Addresses(s, id) && a.Rewrap? && Addresses(s, a.id)
    requires a.w in Run(s, st, actions).workers && Envelope.FreshOK(a.drawn)
    requires
      var k := Run(s, st, actions).workers[a.w];
      var aad := AadFor(s, AadIdForScope(s.scope, a.id), (s.keyIdOf)(k.target));
      Envelope.Encryptable(k.target, Final(s, k.plaintext), aad)
    ensures
      var now, after := Run(s, st, actions), Run(s, st, actions + [a]);
      var k := now.workers[a.w];
      if a.promoted && now.row.Some? && now.row.value.etag == k.etag
      then
        && after.row.Some? && after.row.value.etag == k.etag + 1 && after.row.value.keyId == (s.keyIdOf)(k.target)
        && OpensAs(s, after.row.value, k.target, id, text) && Alike(s, text, k.plaintext)
        && (s.scope == Aad.Ascii("chat") ==> Settled(s, text)) && after.workers == now.workers - {a.w}
      else after == now
  {
    var now := Run(s, st, actions);
    OneMoreStep(s, st, actions, a);
    RunKeeps(s, st, actions);
    text := Final(s, now.workers[a.w].plaintext);
    if Lands(s, now, a) {
      RewrapSeals(s, now, a, id);
    }
  }

  /* ---------- recreated rows ---------- */

  const NO_ROW := State(None, 0, map[], Truth([], [], Envelope.Fresh([], [], [])), [], [])

  /** A migration toward another key picks up what it read. */
  lemma MigrationReads(s: System, st: State, a: Action)
    requires st.row.Some? && a.Fetch? && a.kind.Migration? && Addresses(s, a.id)
    requires DecryptAny(s, st.row.value.body, a.keys, a.id) == Some(st.truth.plaintext)
    requires st.row.value.keyId != (s.keyIdOf)(a.target)
    ensures
      FetchStep(s, st, a) ==
      st.(workers := st.workers[a.w := Worker(st.born, st.row.value.etag, st.truth.plaintext, a.target)])
  {
  }

  /** The migration that reads the first push under its own key. */
  function Migrate(s: System, first: Action, target: Bytes): Action
    requires first.Push?
  {
    Fetch(0, Migration, [Envelope.Key(first.key, (s.keyIdOf)(first.key))], first.id, target)
  }

  /** The row is written, read for migration, and deleted. */
  ghost function Orphaned(s: System, first: Action, target: Bytes): State
    requires first.Push?
  {
    DeleteStep(FetchStep(s, PushStep(s, NO_ROW, first), Migrate(s, first, target)))
  }

  lemma FirstOpens(s: System, first: Action)
    requires SystemOK(s) && first.Push? && SealsAt(s, first.key, first.plaintext, first.id, first.id, first.drawn)
    ensures
      var st := PushStep(s, NO_ROW, first);
      && st.row.Some?
      && DecryptAny(s, st.row.value.body, [Envelope.Key(first.key, (s.keyIdOf)(first.key))], first.id) ==
          Some(first.plaintext)
  {
    var st := PushStep(s, NO_ROW, first);
    OpensToTruth(s, st.row.value, st.truth, [Envelope.Key(first.key, (s.keyIdOf)(first.key))], first.id);
  }

  lemma OrphanedIs(s: System, first: Action, target: Bytes)
    requires SystemOK(s) && first.Push? && SealsAt(s, first.key, first.plaintext, first.id, first.id, first.drawn)
    requires (s.keyIdOf)(first.key) != (s.keyIdOf)(target)
    ensures
      var st := Orphaned(s, first, target);
      st.row.None? && st.born == 1 && st.workers == map[0 := Worker(0, 1, first.plaintext, target)]
  {
    FirstOpens(s, first);
    MigrationReads(s, PushStep(s, NO_ROW, first), Migrate(s, first, target));
  }

  lemma FiveSteps(s: System, st: State, a: Action, b: Action, c: Action, d: Action, e: Action)
    ensures
      Run(s, st, [a, b, c, d, e]) == Apply(s, Apply(s, Apply(s, Apply(s, Apply(s, st, a), b), c), d), e)
  {
    assert [a, b, c, d, e][..4] == [a, b, c, d] && [a, b, c, d][..3] == [a, b, c];
    assert [a, b, c][..2] == [a, b] && [a, b][..1] == [a] && [a][..0] == [];
    assert Run(s, st, [a]) == Apply(s, st, a);
    assert Run(s, st, [a, b]) == Apply(s, Apply(s, st, a), b);
    assert Run(s, st, [a, b, c]) == Apply(s, Apply(s, Apply(s, st, a), b), c);
  }

  lemma OldUnlikeNew(s: System, was: Bytes, pushed: Bytes)
    requires SystemOK(s) && !Alike(s, was, pushed)
    ensures !Alike(s, Final(s, was), pushed)
  {
    FinalAlike(s, was, was);
    AlikeTwice(s, Final(s, was), was, pushed);
  }

  /** The run: write, read for migration, delete, write again, and let the migration land. */
  function LosingRun(s: System, first: Action, second: Action, target: Bytes, drawn: Envelope.Fresh): seq<Action>
    requires first.Push?
  {
    [first, Migrate(s, first, target), Delete, second, Rewrap(0, first.id, true, drawn)]
  }

  lemma LosingRunIs(s: System, first: Action, second: Action, target: Bytes, drawn: Envelope.Fresh)
    requires first.Push? && second.Push?
    ensures
      Run(s, NO_ROW, LosingRun(s, first, second, target, drawn)) ==
      RewrapStep(s, PushStep(s, Orphaned(s, first, target), second), Rewrap(0, first.id, true, drawn))
  {
    FiveSteps(s, NO_ROW, first, Migrate(s, first, target), Delete, second, Rewrap(0, first.id, true, drawn));
  }

  lemma LosingEnd(s: System, first: Action, second: Action, target: Bytes, drawn: Envelope.Fresh)
    requires SystemOK(s) && first.Push? && second.Push? && (s.keyIdOf)(first.key) != (s.keyIdOf)(target)
    requires SealsAt(s, first.key, first.plaintext, first.id, first.id, first.drawn)
    requires SealsAt(s, second.key, second.plaintext, second.id, second.id, second.drawn)
    requires SealsAt(s, target, Final(s, first.plaintext), first.id, first.id, drawn)
    ensures
      var end := RewrapStep(s, PushStep(s, Orphaned(s, first, target), second), Rewrap(0, first.id, true, drawn));
      end.row.Some? && end.truth.plaintext == Final(s, first.plaintext) && end.pushed == second.plaintext
  {
    OrphanedIs(s, first, target);
    OneAadId(s, first.id);
  }

  /** What a run ends with, once its last state is known. */
  lemma EndsUnlike(s: System, actions: seq<Action>, was: Bytes, pushed: Bytes)
    requires SystemOK(s) && !Alike(s, was, pushed)
    requires Run(s, NO_ROW, actions).truth.plaintext == Final(s, was) && Run(s, NO_ROW, actions).pushed == pushed
    ensures !Alike(s, Run(s, NO_ROW, actions).truth.plaintext, LastPush(s, NO_ROW, actions))
  {
    HistoryIs(s, NO_ROW, actions);
    OldUnlikeNew(s, was, pushed);
  }

  /** Etags restart at 1: a migration that read a row before it was deleted and written
      again puts the old plaintext over the new push, in every scope. */
  lemma RecreatedRowLosesPush(s: System, first: Action, second: Action, target: Bytes, drawn: Envelope.Fresh)
    requires SystemOK(s) && first.Push? && second.Push? && !Alike(s, first.plaintext, second.plaintext)
    requires SealsAt(s, first.key, first.plaintext, first.id, first.id, first.drawn)
    requires SealsAt(s, second.key, second.plaintext, second.id, second.id, second.drawn)
    requires SealsAt(s, target, Final(s, first.plaintext), first.id, first.id, drawn)
    requires (s.keyIdOf)(first.key) != (s.keyIdOf)(target)
    ensures
      var run := LosingRun(s, first, second, target, drawn);
      var end := Run(s, NO_ROW, run);
      end.row.Some? && !Alike(s, end.truth.plaintext, LastPush(s, NO_ROW, run))
  {
    LosingEnd(s, first, second, target, drawn);
    LosingRunIs(s, first, second, target, drawn);
    EndsUnlike(s, LosingRun(s, first, second, target, drawn), first.plaintext, second.plaintext);
  }

  /* ---------- such systems exist ---------- */

  function AttachmentFields(s: seq<Attachment>): seq<Aad.Field> {
    if s == [] then []
    else
      [ Aad.Field(if s[0].image then [1] else [], Aad.Str(s[0].id)),
        Aad.Field([], Aad.Str(s[0].encryptionKey)),
        Aad.Field([], Aad.Str(s[0].legacyKey)) ] + AttachmentFields(s[1..])
  }

  function ReadAttachments(f: seq<Aad.Field>): Option<seq<Attachment>> {
    if f == [] then Some([])
    else if |f| < 3 || !f[0].val.Str? || !f[1].val.Str? || !f[2].val.Str? then None
    else
      var rest := ReadAttachments(f[3..]);
      if rest.None? then None
      else Some([Attachment(f[0].key != [], f[0].val.text, f[1].val.text, f[2].val.text)] + rest.value)
  }

  lemma {:induction false} AttachmentsBack(s: seq<Attachment>)
    ensures ReadAttachments(AttachmentFields(s)) == Some(s)
  {
    if s != [] {
      AttachmentsBack(s[1..]);
      assert AttachmentFields(s)[3..] == AttachmentFields(s[1..]);
      assert s == [s[0]] + s[1..];
    }
  }

  function RenderDoc(d: Doc): Bytes {
    Aad.Marshal([Aad.Field([], Aad.Str(d.rest))] + AttachmentFields(d.attachments))
  }

  function ParseDoc(b: Bytes): Option<Doc> {
    var r := Aad.ReadObject(b);
    if r.Malformed? || r.rest != [] || r.value == [] || !r.value[0].val.Str? then None
    else
      var attachments := ReadAttachments(r.value[1..]);
      if attachments.None? then None else Some(Doc(attachments.value, r.value[0].val.text))
  }

  lemma DocBack(d: Doc)
    ensures ParseDoc(RenderDoc(d)) == Some(d)
  {
    var f := [Aad.Field([], Aad.Str(d.rest))] + AttachmentFields(d.attachments);
    Aad.ReadMarshalled(f, []);
    assert Aad.Marshal(f) + [] == Aad.Marshal(f);
    assert f[1..] == AttachmentFields(d.attachments);
    AttachmentsBack(d.attachments);
  }

  /** A stand-in for the key id: 32 zeros or 32 ones, by the key's first byte. */
  function TwoKeyIds(k: Bytes): (id: Bytes)
    ensures |id| == 32 && forall i | 0 <= i < 32 :: id[i] == if k != [] && k[0] == 1 then 49 else 48
  {
    seq(32, _ => if k != [] && k[0] == 1 then 49 else 48)
  }

  lemma KeyIdsDiffer(k: Bytes, k': Bytes)
    requires |k| > 0 && |k'| > 0 && k[0] == 0 && k'[0] == 1
    ensures TwoKeyIds(k) != TwoKeyIds(k')
  {
    assert TwoKeyIds(k)[0] == 48 && TwoKeyIds(k')[0] == 49;
  }

  /** Every row has a system around it that meets the assumptions, with keys of both ids. */
  lemma SystemExists(scope: Bytes, id: Bytes, user: Bytes) returns (s: System)
    ensures SystemOK(s) && s.scope == scope && s.id == id && s.user == user
    ensures forall k, k' | |k| > 0 && |k'| > 0 && k[0] == 0 && k'[0] == 1 :: (s.keyIdOf)(k) != (s.keyIdOf)(k')
  {
    var p := Envelope.IdealExists();
    s := System(p, TwoKeyIds, ParseDoc, RenderDoc, scope, id, user);
    forall d
      ensures (s.parse)((s.render)(d)) == Some(d)
    {
      DocBack(d);
    }
    forall k, k' | |k| > 0 && |k'| > 0 && k[0] == 0 && k'[0] == 1
      ensures (s.keyIdOf)(k) != (s.keyIdOf)(k')
    {
      KeyIdsDiffer(k, k');
    }
  }
}
