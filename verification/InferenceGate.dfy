/** The inference gate: per-user and global concurrency slots, with idle users evicted.
    Calls are program counters whose atomic steps interleave in any order. */
module InferenceGate {
  import opened Prelude

  type User = int
  type CallId = int
  type Time = int

  const IDLE_TTL: Time := 600
  const MAX_TRACKED := 10000

  datatype Limits = Limits(globalConcurrent: nat, userConcurrent: nat)

  /** A user's record. Its generation tells apart records made for the same user at
      different times: a call keeps the record it was given, tracked or not. */
  datatype Record = Record(generation: nat, active: int, slots: int, lastUsed: Time)

  /** Where a call is. The first four acquire, `Running` holds the release function, the
      last three give back in the source's order. */
  datatype Phase = Entered | Rated | HasUser | HasBoth | Running | DropBoth | DropUser | DropActive

  datatype Call = Call(user: User, generation: nat, wait: bool, phase: Phase)

  datatype State = State(users: map<User, Record>, global: int, next: nat, calls: map<CallId, Call>)

  /** How much a call has taken: its record, also a user slot, also a global slot. */
  function Level(p: Phase): nat {
    match p
    case Entered | Rated | DropActive => 1
    case HasUser | DropUser => 2
    case HasBoth | Running | DropBoth => 3
  }

  ghost function Who(calls: map<CallId, Call>, u: User, level: nat): set<CallId> {
    set c | c in calls && calls[c].user == u && Level(calls[c].phase) >= level
  }

  ghost function WhoAll(calls: map<CallId, Call>, level: nat): set<CallId> {
    set c | c in calls && Level(calls[c].phase) >= level
  }

  /* ---------- the invariant ---------- */

  /** Each call's record is the tracked one. */
  ghost predicate Tracked(st: State) {
    forall c | c in st.calls :: st.calls[c].user in st.users &&
        st.users[st.calls[c].user].generation == st.calls[c].generation
  }

  /** Occupancy equals the calls holding it. */
  ghost predicate Counted(st: State) {
    && (forall u | u in st.users ::
          st.users[u].active == |Who(st.calls, u, 1)| && st.users[u].slots == |Who(st.calls, u, 2)|)
    && st.global == |WhoAll(st.calls, 3)|
  }

  ghost predicate Within(st: State, lim: Limits) {
    && (forall u | u in st.users :: st.users[u].slots <= lim.userConcurrent)
    && st.global <= lim.globalConcurrent
    && |st.users| <= MAX_TRACKED
    && (forall u | u in st.users :: st.users[u].generation < st.next)
  }

  ghost predicate Inv(st: State, lim: Limits) {
    Tracked(st) && Counted(st) && Within(st, lim)
  }

  lemma WhoAfter(calls: map<CallId, Call>, c: CallId, k: Call, u: User, level: nat)
    ensures Who(calls[c := k], u, level) ==
            if k.user == u && Level(k.phase) >= level then Who(calls, u, level) + {c} else Who(calls, u, level) - {c}
    ensures WhoAll(calls[c := k], level) ==
            if Level(k.phase) >= level then WhoAll(calls, level) + {c} else WhoAll(calls, level) - {c}
  {
  }

  lemma WhoWithout(calls: map<CallId, Call>, c: CallId, u: User, level: nat)
    ensures Who(calls - {c}, u, level) == Who(calls, u, level) - {c}
    ensures WhoAll(calls - {c}, level) == WhoAll(calls, level) - {c}
  {
  }

  /* ---------- the steps ---------- */

  datatype Action =
    | PassRate(c: CallId)
    | Refuse(c: CallId)
    | TakeUser(c: CallId)
    | TakeGlobal(c: CallId)
    | Reserve(c: CallId)
    | Release(c: CallId)
    | GiveGlobal(c: CallId)
    | GiveUser(c: CallId)
    | Finish(c: CallId, now: Time)

  /** An operation on the record a call was given; an evicted record is nobody's state. */
  function OnRecord(users: map<User, Record>, k: Call, r: Record): map<User, Record> {
    if k.user in users && users[k.user].generation == k.generation then users[k.user := r] else users
  }

  function RecordOf(st: State, k: Call): Record {
    if k.user in st.users then st.users[k.user] else Record(0, 0, 0, 0)
  }

  function Moved(st: State, c: CallId, k: Call, p: Phase): State {
    st.(calls := st.calls[c := k.(phase := p)])
  }

  /** A refusal from wherever the call stands: rate, a full channel, or a cancelled wait. */
  function Backing(p: Phase): Phase {
    match p
    case Entered | Rated => DropActive
    case HasUser => DropUser
    case _ => DropBoth
  }

  /** Background calls ask for rate first and may be cancelled while they wait for a slot;
      foreground calls ask for rate last and leave at once when a channel is full. */
  predicate MayRefuse(st: State, lim: Limits, k: Call) {
    match k.phase
    case Entered => k.wait
    case Rated => k.wait || RecordOf(st, k).slots >= lim.userConcurrent
    case HasUser => k.wait || st.global >= lim.globalConcurrent
    case HasBoth => !k.wait
    case _ => false
  }

  /** One atomic step of one call; disabled steps change nothing. */
  function Apply(st: State, lim: Limits, a: Action): State {
    if a.c !in st.calls then st
    else
      var k := st.calls[a.c];
      var r := RecordOf(st, k);
      match a
      case PassRate(c) => if k.phase.Entered? then Moved(st, c, k, Rated) else st
      case Refuse(c) => if MayRefuse(st, lim, k) then Moved(st, c, k, Backing(k.phase)) else st
      case TakeUser(c) =>
        if k.phase.Rated? && r.slots < lim.userConcurrent
        then Moved(st, c, k, HasUser).(users := OnRecord(st.users, k, r.(slots := r.slots + 1)))
        else st
      case TakeGlobal(c) =>
        if k.phase.HasUser? && st.global < lim.globalConcurrent
        then Moved(st, c, k, HasBoth).(global := st.global + 1)
        else st
      case Reserve(c) => if k.phase.HasBoth? then Moved(st, c, k, Running) else st
      case Release(c) => if k.phase.Running? then Moved(st, c, k, DropBoth) else st
      case GiveGlobal(c) => if k.phase.DropBoth? then Moved(st, c, k, DropUser).(global := st.global - 1) else st
      case GiveUser(c) =>
        if k.phase.DropUser?
        then Moved(st, c, k, DropActive).(users := OnRecord(st.users, k, r.(slots := r.slots - 1)))
        else st
      case Finish(c, now) =>
        if k.phase.DropActive?
        then st.(calls := st.calls - {c}, users := OnRecord(st.users, k, r.(active := r.active - 1, lastUsed := now)))
        else st
  }

  function Holds(p: Phase, level: nat): int {
    if Level(p) >= level then 1 else 0
  }

  /** The size of a set with one member put in or taken out. */
  lemma Toggled(a: set<CallId>, b: set<CallId>, c: CallId, after: bool)
    requires b == if after then a + {c} else a - {c}
    ensures |b| == |a| + (if after then 1 else 0) - (if c in a then 1 else 0)
  {
    if c in a {
      assert a == (a - {c}) + {c};
      assert |a| == |a - {c}| + 1;
      assert after ==> b == a;
    } else {
      assert !after ==> b == a;
      assert |a + {c}| == |a| + 1;
    }
  }

  lemma OneMoreOrLess(calls: map<CallId, Call>, c: CallId, p: Phase, u: User, level: nat)
    requires c in calls
    ensures
      var after := calls[c := calls[c].(phase := p)];
      && |Who(after, u, level)| == |Who(calls, u, level)| + (if u == calls[c].user
          then Holds(p, level) - Holds(calls[c].phase, level) else 0)
      && |WhoAll(after, level)| == |WhoAll(calls, level)| + Holds(p, level) - Holds(calls[c].phase, level)
  {
    var k := calls[c].(phase := p);
    var after := calls[c := k];
    WhoAfter(calls, c, k, u, level);
    assert c in Who(calls, u, level) <==> u == calls[c].user && Holds(calls[c].phase, level) == 1;
    assert c in WhoAll(calls, level) <==> Holds(calls[c].phase, level) == 1;
    Toggled(Who(calls, u, level), Who(after, u, level), c, k.user == u && Holds(p, level) == 1);
    Toggled(WhoAll(calls, level), WhoAll(after, level), c, Holds(p, level) == 1);
  }

  /** A call that changes phase moves each count by what it newly holds. */
  lemma ShiftCounts(st: State, after: State, c: CallId, p: Phase)
    requires Counted(st) && c in st.calls && st.calls[c].user in st.users
    requires after.calls == st.calls[c := st.calls[c].(phase := p)]
    requires after.users ==
             (var u := st.calls[c].user;
              st.users[u := st.users[u].(slots := st.users[u].slots + Holds(p, 2) - Holds(st.calls[c].phase, 2))])
    requires after.global == st.global + Holds(p, 3) - Holds(st.calls[c].phase, 3)
    ensures Counted(after)
  {
    forall u | u in after.users
      ensures after.users[u].active == |Who(after.calls, u, 1)| && after.users[u].slots == |Who(after.calls, u, 2)|
    {
      OneMoreOrLess(st.calls, c, p, u, 1);
      OneMoreOrLess(st.calls, c, p, u, 2);
    }
    OneMoreOrLess(st.calls, c, p, 0, 3);
  }

  lemma OneLeaves(calls: map<CallId, Call>, c: CallId, u: User, level: nat)
    requires c in calls
    ensures |Who(calls - {c}, u, level)| == |Who(calls, u, level)| - (if u == calls[c].user
        then Holds(calls[c].phase, level) else 0)
    ensures |WhoAll(calls - {c}, level)| == |WhoAll(calls, level)| - Holds(calls[c].phase, level)
  {
    WhoWithout(calls, c, u, level);
  }

  lemma OneEnters(calls: map<CallId, Call>, c: CallId, k: Call, u: User, level: nat)
    requires c !in calls
    ensures |Who(calls[c := k], u, level)| == |Who(calls, u, level)| + (if u == k.user
        then Holds(k.phase, level) else 0)
    ensures |WhoAll(calls[c := k], level)| == |WhoAll(calls, level)| + Holds(k.phase, level)
  {
    WhoAfter(calls, c, k, u, level);
  }

  /** Leaving: the record loses one active call. */
  lemma FinishCounts(st: State, c: CallId, r: Record)
    requires Counted(st) && c in st.calls && st.calls[c].user in st.users && st.calls[c].phase.DropActive?
    requires r.active == st.users[st.calls[c].user].active - 1 && r.slots == st.users[st.calls[c].user].slots
    ensures Counted(st.(calls := st.calls - {c}, users := st.users[st.calls[c].user := r]))
  {
    var after := st.(calls := st.calls - {c}, users := st.users[st.calls[c].user := r]);
    forall u | u in after.users
      ensures after.users[u].active == |Who(after.calls, u, 1)| && after.users[u].slots == |Who(after.calls, u, 2)|
    {
      OneLeaves(st.calls, c, u, 1);
      OneLeaves(st.calls, c, u, 2);
    }
    OneLeaves(st.calls, c, 0, 3);
  }

  /** A call that moves keeps its record; only the slot counts move with it. */
  lemma ShiftKeeps(st: State, lim: Limits, c: CallId, p: Phase, after: State)
    requires Inv(st, lim) && c in st.calls && after.next == st.next
    requires after.calls == st.calls[c := st.calls[c].(phase := p)]
    requires
      var u := st.calls[c].user;
      u in st.users ==>
        var slots := st.users[u].slots + Holds(p, 2) - Holds(st.calls[c].phase, 2);
        after.users == st.users[u := st.users[u].(slots := slots)]
    requires after.global == st.global + Holds(p, 3) - Holds(st.calls[c].phase, 3)
    requires Holds(p, 2) > Holds(st.calls[c].phase, 2) ==> RecordOf(st, st.calls[c]).slots < lim.userConcurrent
    requires Holds(p, 3) > Holds(st.calls[c].phase, 3) ==> st.global < lim.globalConcurrent
    ensures Inv(after, lim)
  {
    ShiftCounts(st, after, c, p);
  }

  lemma FinishKeeps(st: State, lim: Limits, c: CallId, now: Time)
    requires Inv(st, lim) && c in st.calls && st.calls[c].phase.DropActive?
    ensures Inv(Apply(st, lim, Finish(c, now)), lim)
  {
    var after := Apply(st, lim, Finish(c, now));
    FinishCounts(st, c, after.users[st.calls[c].user]);
  }

  /** Every step of every call keeps the invariant. */
  lemma StepKeeps(st: State, lim: Limits, a: Action)
    requires Inv(st, lim)
    ensures Inv(Apply(st, lim, a), lim)
  {
    var after := Apply(st, lim, a);
    if a.Finish? {
      if a.c in st.calls && st.calls[a.c].phase.DropActive? {
        FinishKeeps(st, lim, a.c, a.now);
      }
    } else if after != st {
      var u := st.calls[a.c].user;
      assert st.users[u := st.users[u]] == st.users;
      ShiftKeeps(st, lim, a.c, after.calls[a.c].phase, after);
    }
  }

  /* ---------- eviction ---------- */

  predicate Inactive(users: map<User, Record>, u: User) {
    u in users && users[u].active == 0
  }

  predicate Expired(users: map<User, Record>, u: User, now: Time) {
    Inactive(users, u) && now - users[u].lastUsed >= IDLE_TTL
  }

  /** `kept` leaves out only users without active calls. */
  ghost predicate OnlyInactiveGone(users: map<User, Record>, kept: map<User, Record>) {
    && (forall u | u in kept :: u in users && kept[u] == users[u])
    && (forall u | u in users && u !in kept :: users[u].active == 0)
  }

  /** Which users go: all expired ones; if there are none, one least recently used idle one. */
  ghost predicate RightOnesGone(users: map<User, Record>, kept: map<User, Record>, now: Time) {
    if exists v :: Expired(users, v, now)
    then forall u | u in users :: u !in kept <==> Expired(users, u, now)
    else exists o :: Inactive(users, o) && kept == users - {o} && forall v | Inactive(users, v) ::
        users[o].lastUsed <= users[v].lastUsed
  }

  /** Drop expired users, and remember the least recently used idle one among the rest. */
  method Sweep(users: map<User, Record>, now: Time) returns (kept: map<User, Record>, oldest: Option<User>)
    ensures kept.Keys <= users.Keys && forall u :: u in kept <==> u in users && !Expired(users, u, now)
    ensures forall u | u in kept :: kept[u] == users[u]
    ensures oldest.None? <==> forall u | Inactive(users, u) :: Expired(users, u, now)
    ensures oldest.Some? ==> Inactive(users, oldest.value) && !Expired(users, oldest.value, now)
    ensures oldest.Some? ==> forall u | Inactive(users, u) && !Expired(users, u, now) ::
        users[oldest.value].lastUsed <= users[u].lastUsed
  {
    kept, oldest := users, None;
    var todo := users.Keys;
    while todo != {}
      invariant todo <= users.Keys && kept.Keys <= users.Keys
      invariant forall u :: u in kept <==> u in users && (u in todo || !Expired(users, u, now))
      invariant forall u | u in kept :: kept[u] == users[u]
      invariant oldest.None? <==> forall u | Inactive(users, u) && u !in todo :: Expired(users, u, now)
      invariant oldest.Some? ==> Inactive(users, oldest.value) && !Expired(users, oldest.value, now)
      invariant oldest.Some? ==>
                  forall u | Inactive(users, u) && u !in todo && !Expired(users, u, now) ::
                      users[oldest.value].lastUsed <= users[u].lastUsed
      decreases todo
    {
      SomeMember(todo);
      var id :| id in todo;
      todo := todo - {id};
      var r := users[id];
      if r.active == 0 {
        if now - r.lastUsed >= IDLE_TTL {
          kept := kept - {id};
        } else if oldest.None? || r.lastUsed < users[oldest.value].lastUsed {
          oldest := Some(id);
        }
      }
    }
  }

  /** Make room when full. It fails exactly when every tracked user has active calls. */
  method MakeRoom(users: map<User, Record>, now: Time) returns (kept: map<User, Record>)
    requires |users| == MAX_TRACKED
    ensures OnlyInactiveGone(users, kept) && |kept| <= MAX_TRACKED
    ensures |kept| == MAX_TRACKED <==> forall u :: !Inactive(users, u)
    ensures |kept| == MAX_TRACKED ==> kept == users
    ensures |kept| < MAX_TRACKED ==> RightOnesGone(users, kept, now)
  {
    var oldest;
    kept, oldest := Sweep(users, now);
    FewerKept(users, kept);
    if |kept| < MAX_TRACKED {
      SomeoneExpired(users, kept, now);
    } else {
      if oldest.Some? {
        kept := kept - {oldest.value};
      }
    }
  }

  lemma FewerKept(users: map<User, Record>, kept: map<User, Record>)
    requires kept.Keys <= users.Keys && forall u | u in kept :: kept[u] == users[u]
    ensures |kept| <= |users|
    ensures |kept| == |users| ==> kept == users
  {
    assert |kept.Keys| == |kept| && |users.Keys| == |users|;
    assert users.Keys == kept.Keys + (users.Keys - kept.Keys);
    SomeMember(users.Keys - kept.Keys);
    if |kept| == |users| {
      assert users.Keys - kept.Keys == {};
      assert kept.Keys == users.Keys;
      forall u | u in users
        ensures u in kept && kept[u] == users[u]
      {
        assert u in kept.Keys;
      }
    }
  }

  lemma SomeoneExpired(users: map<User, Record>, kept: map<User, Record>, now: Time)
    requires kept.Keys <= users.Keys && |kept| < |users|
    requires forall u :: u in kept <==> u in users && !Expired(users, u, now)
    ensures RightOnesGone(users, kept, now) && exists u :: Inactive(users, u)
  {
    assert |kept.Keys| == |kept| && |users.Keys| == |users|;
    assert users.Keys == kept.Keys + (users.Keys - kept.Keys);
    SomeMember(users.Keys - kept.Keys);
    var u :| u in users.Keys - kept.Keys;
    assert Expired(users, u, now);
  }

  /* ---------- entering ---------- */

  /** Users with calls have a nonzero active count, so they survive eviction. */
  lemma EvictionKeeps(st: State, lim: Limits, kept: map<User, Record>)
    requires Inv(st, lim) && OnlyInactiveGone(st.users, kept) && |kept| <= MAX_TRACKED
    ensures Inv(st.(users := kept), lim)
  {
    forall c | c in st.calls
      ensures st.calls[c].user in kept
    {
      var u := st.calls[c].user;
      assert c in Who(st.calls, u, 1);
      assert st.users[u].active == |Who(st.calls, u, 1)|;
    }
  }

  /** Nobody calls on behalf of an untracked user. */
  lemma UntrackedIdle(st: State, u: User, level: nat)
    requires Tracked(st) && u !in st.users
    ensures Who(st.calls, u, level) == {}
  {
    SomeMember(Who(st.calls, u, level));
  }

  function Entering(st: State, c: CallId, u: User, wait: bool, r: Record): State {
    st.(users := st.users[u := r], calls := st.calls[c := Call(u, r.generation, wait, Entered)])
  }

  lemma EnteringCounts(st: State, c: CallId, u: User, wait: bool, r: Record)
    requires Counted(st) && c !in st.calls
    requires r.active == |Who(st.calls, u, 1)| + 1 && r.slots == |Who(st.calls, u, 2)|
    ensures Counted(Entering(st, c, u, wait, r))
  {
    var after := Entering(st, c, u, wait, r);
    forall v | v in after.users
      ensures after.users[v].active == |Who(after.calls, v, 1)| && after.users[v].slots == |Who(after.calls, v, 2)|
    {
      OneEnters(st.calls, c, after.calls[c], v, 1);
      OneEnters(st.calls, c, after.calls[c], v, 2);
    }
    OneEnters(st.calls, c, after.calls[c], u, 3);
  }

  lemma ReturningKeeps(st: State, lim: Limits, c: CallId, u: User, wait: bool, now: Time)
    requires Inv(st, lim) && c !in st.calls && u in st.users
    ensures Inv(Entering(st, c, u, wait, st.users[u].(active := st.users[u].active + 1, lastUsed := now)), lim)
  {
    var r := st.users[u].(active := st.users[u].active + 1, lastUsed := now);
    EnteringCounts(st, c, u, wait, r);
  }

  lemma NewcomerKeeps(st: State, lim: Limits, c: CallId, u: User, wait: bool, now: Time)
    requires Inv(st, lim) && c !in st.calls && u !in st.users && |st.users| < MAX_TRACKED
    ensures Inv(Entering(st, c, u, wait, Record(st.next, 1, 0, now)).(next := st.next + 1), lim)
  {
    var r := Record(st.next, 1, 0, now);
    UntrackedIdle(st, u, 1);
    UntrackedIdle(st, u, 2);
    EnteringCounts(st, c, u, wait, r);
    var after := Entering(st, c, u, wait, r);
    assert after.users.Keys == st.users.Keys + {u};
    assert |after.users.Keys| == |after.users| && |st.users.Keys| == |st.users|;
  }

  /** A tracked user's record gains a call; a newcomer gets a fresh record, after eviction
      if the table is full. */
  ghost predicate Enters(st: State, after: State, c: CallId, u: User, wait: bool, now: Time) {
    && c !in st.calls
    && if u in st.users
       then after == Entering(st, c, u, wait, st.users[u].(active := st.users[u].active + 1, lastUsed := now))
       else exists kept :: Room(st.users, kept, now) && after == Admitted(st, kept, c, u, wait, now)
  }

  ghost predicate Room(users: map<User, Record>, kept: map<User, Record>, now: Time) {
    if |users| < MAX_TRACKED then kept == users
    else OnlyInactiveGone(users, kept) && |kept| < MAX_TRACKED && RightOnesGone(users, kept, now)
  }

  function Admitted(st: State, kept: map<User, Record>, c: CallId, u: User, wait: bool, now: Time): State {
    Entering(st.(users := kept), c, u, wait, Record(st.next, 1, 0, now)).(next := st.next + 1)
  }

  lemma EntersKeeps(st: State, after: State, lim: Limits, c: CallId, u: User, wait: bool, now: Time)
    requires Inv(st, lim) && Enters(st, after, c, u, wait, now)
    ensures Inv(after, lim)
  {
    if u in st.users {
      ReturningKeeps(st, lim, c, u, wait, now);
    } else {
      var kept :| Room(st.users, kept, now) && after == Admitted(st, kept, c, u, wait, now);
      EvictionKeeps(st, lim, kept);
      NewcomerKeeps(st.(users := kept), lim, c, u, wait, now);
    }
  }

  /* ---------- runs ---------- */

  const IDLE := State(map[], 0, 0, map[])

  ghost predicate Next(st: State, after: State, lim: Limits) {
    || (exists a :: after == Apply(st, lim, a))
    || (exists c, u, wait, now :: Enters(st, after, c, u, wait, now))
  }

  ghost predicate IsRun(run: seq<State>, lim: Limits) {
    run != [] && run[0] == IDLE && forall i | 0 <= i < |run| - 1 :: Next(run[i], run[i + 1], lim)
  }

  lemma NextKeeps(st: State, after: State, lim: Limits)
    requires Inv(st, lim) && Next(st, after, lim)
    ensures Inv(after, lim)
  {
    if a :| after == Apply(st, lim, a) {
      StepKeeps(st, lim, a);
    } else {
      var c, u, wait, now :| Enters(st, after, c, u, wait, now);
      EntersKeeps(st, after, lim, c, u, wait, now);
    }
  }

  /** In every interleaving of entering, acquiring, refusing and releasing calls the
      invariant holds. */
  lemma {:induction false} RunKeeps(run: seq<State>, lim: Limits)
    requires IsRun(run, lim)
    ensures Inv(run[|run| - 1], lim)
  {
    var k := |run| - 1;
    if k == 0 {
      assert WhoAll(map[], 3) == {};
    } else {
      RunKeeps(run[..k], lim);
      assert run[..k][k - 1] == run[k - 1];
      NextKeeps(run[k - 1], run[k], lim);
    }
  }

  /** No run lets one user, under however many records, or all users together exceed their
      limits; every call's record is still tracked; giving back never blocks; and once no
      call is left nothing is held. */
  lemma GateIsSafe(run: seq<State>, lim: Limits)
    requires IsRun(run, lim)
    ensures
      var st := run[|run| - 1];
      && (forall u :: |Who(st.calls, u, 2)| <= lim.userConcurrent)
      && |WhoAll(st.calls, 3)| <= lim.globalConcurrent
      && |st.users| <= MAX_TRACKED
      && (forall c | c in st.calls ::
            && st.calls[c].user in st.users && st.users[st.calls[c].user].generation == st.calls[c].generation
            && (Level(st.calls[c].phase) >= 2 ==> st.users[st.calls[c].user].slots > 0)
            && (Level(st.calls[c].phase) >= 3 ==> st.global > 0))
      && (st.calls == map[] ==> st.global == 0 && forall u | u in st.users ::
          st.users[u].active == 0 && st.users[u].slots == 0)
  {
    RunKeeps(run, lim);
    var st := run[|run| - 1];
    forall u
      ensures |Who(st.calls, u, 2)| <= lim.userConcurrent
    {
      if u !in st.users {
        UntrackedIdle(st, u, 2);
      }
    }
    forall c | c in st.calls
      ensures Level(st.calls[c].phase) >= 2 ==> st.users[st.calls[c].user].slots > 0
      ensures Level(st.calls[c].phase) >= 3 ==> st.global > 0
    {
      assert Level(st.calls[c].phase) >= 2 ==> c in Who(st.calls, st.calls[c].user, 2);
      assert Level(st.calls[c].phase) >= 3 ==> c in WhoAll(st.calls, 3);
    }
    if st.calls == map[] {
      assert WhoAll(st.calls, 3) == {};
      forall u | u in st.users
        ensures st.users[u].active == 0 && st.users[u].slots == 0
      {
        assert Who(st.calls, u, 1) == {} && Who(st.calls, u, 2) == {};
      }
    }
  }

  /* ---------- one call, undisturbed ---------- */

  /** What the call does to get its rate, its user slot and its global slot: the first
      `taken` of them. */
  function Taken(st: State, lim: Limits, c: CallId, taken: nat): State
    requires taken <= 3
  {
    if taken == 0 then st
    else Apply(Taken(st, lim, c, taken - 1), lim, [PassRate(c), TakeUser(c), TakeGlobal(c)][taken - 1])
  }

  /** Giving back, in the source's order. */
  function GivenBack(st: State, lim: Limits, c: CallId, now: Time): State {
    Apply(Apply(Apply(st, lim, GiveGlobal(c)), lim, GiveUser(c)), lim, Finish(c, now))
  }

  /** The state with a new call for `u` standing in `p`, holding what that phase holds. */
  function With(st: State, c: CallId, u: User, wait: bool, p: Phase, now: Time): State
    requires u in st.users
  {
    var r := st.users[u];
    st.(users := st.users[u := Record(r.generation, r.active + 1, r.slots + Holds(p, 2), now)],
        global := st.global + Holds(p, 3), calls := st.calls[c := Call(u, r.generation, wait, p)])
  }

  lemma GivesBack(st: State, lim: Limits, c: CallId, u: User, wait: bool, entered: Time, p: Phase, left: Time)
    requires c !in st.calls && u in st.users && p in {DropBoth, DropUser, DropActive}
    ensures GivenBack(With(st, c, u, wait, p, entered), lim, c, left) ==
            st.(users := st.users[u := st.users[u].(lastUsed := left)])
  {
    DropsGlobal(st, lim, c, u, wait, entered, p);
    DropsUser(st, lim, c, u, wait, entered, if p.DropBoth? then DropUser else p);
    assert Apply(With(st, c, u, wait, DropActive, entered), lim, Finish(c, left)).calls == st.calls;
  }

  lemma DropsGlobal(st: State, lim: Limits, c: CallId, u: User, wait: bool, entered: Time, p: Phase)
    requires u in st.users && p in {DropBoth, DropUser, DropActive}
    ensures Apply(With(st, c, u, wait, p, entered), lim, GiveGlobal(c)) ==
            With(st, c, u, wait, if p.DropBoth? then DropUser else p, entered)
  {
  }

  lemma DropsUser(st: State, lim: Limits, c: CallId, u: User, wait: bool, entered: Time, p: Phase)
    requires u in st.users && p in {DropUser, DropActive}
    ensures Apply(With(st, c, u, wait, p, entered), lim, GiveUser(c)) == With(st, c, u, wait, DropActive, entered)
  {
  }

  lemma Runs(st: State, lim: Limits, c: CallId, u: User, wait: bool, entered: Time)
    requires u in st.users
    ensures Apply(With(st, c, u, wait, HasBoth, entered), lim, Reserve(c)) == With(st, c, u, wait, Running, entered)
    ensures Apply(With(st, c, u, wait, Running, entered), lim, Release(c)) == With(st, c, u, wait, DropBoth, entered)
  {
  }

  /** Entering puts a call at the first phase. */
  lemma EnteringIs(st: State, c: CallId, u: User, wait: bool, now: Time)
    requires u in st.users
    ensures Entering(st, c, u, wait, st.users[u].(active := st.users[u].active + 1, lastUsed := now)) ==
            With(st, c, u, wait, Entered, now)
  {
  }

  lemma TakesOne(st: State, lim: Limits, c: CallId, u: User, wait: bool, now: Time, taken: nat)
    requires u in st.users && 0 < taken <= 3
    requires taken == 2 ==> st.users[u].slots < lim.userConcurrent
    requires taken == 3 ==> st.global < lim.globalConcurrent
    ensures
      Apply(With(st, c, u, wait, [Entered, Rated, HasUser][taken - 1], now), lim,
            [PassRate(c), TakeUser(c), TakeGlobal(c)][taken - 1]) ==
      With(st, c, u, wait, [Rated, HasUser, HasBoth][taken - 1], now)
  {
  }

  lemma {:induction false} Takes(
    st: State, lim: Limits, c: CallId, u: User, wait: bool, now: Time, taken: nat)
    requires c !in st.calls && u in st.users && taken <= 3
    requires taken >= 2 ==> st.users[u].slots < lim.userConcurrent
    requires taken >= 3 ==> st.global < lim.globalConcurrent
    ensures Taken(With(st, c, u, wait, Entered, now), lim, c, taken) ==
            With(st, c, u, wait, [Entered, Rated, HasUser, HasBoth][taken], now)
  {
    if taken > 0 {
      Takes(st, lim, c, u, wait, now, taken - 1);
      TakesOne(st, lim, c, u, wait, now, taken);
    }
  }

  /** With a slot free in both channels a call gets through; while it runs it holds one slot of
      its user, one of all, and one active count; when it is done everything is as before, but
      for the time its user was last seen. */
  lemma CallGivesBack(st: State, lim: Limits, c: CallId, u: User, wait: bool, entered: Time, left: Time)
    requires c !in st.calls && u in st.users
    requires st.users[u].slots < lim.userConcurrent && st.global < lim.globalConcurrent
    ensures
      var inside := Entering(st, c, u, wait, st.users[u].(active := st.users[u].active + 1, lastUsed := entered));
      var running := Apply(Taken(inside, lim, c, 3), lim, Reserve(c));
      var done := GivenBack(Apply(running, lim, Release(c)), lim, c, left);
      && c in running.calls && running.calls[c].phase.Running? && running.global == st.global + 1
      && running.users == st.users[u := Record(
          st.users[u].generation, st.users[u].active + 1, st.users[u].slots + 1, entered)]
      && done == st.(users := st.users[u := st.users[u].(lastUsed := left)])
  {
    EnteringIs(st, c, u, wait, entered);
    Takes(st, lim, c, u, wait, entered, 3);
    Runs(st, lim, c, u, wait, entered);
    GivesBack(st, lim, c, u, wait, entered, DropBoth, left);
  }

  /** Where a call that has got `taken` far may be turned away. */
  predicate TurnedAway(st: State, lim: Limits, u: User, wait: bool, taken: nat)
    requires u in st.users
  {
    match taken
    case 0 => wait
    case 1 => wait || st.users[u].slots >= lim.userConcurrent
    case 2 => wait || st.global >= lim.globalConcurrent
    case _ => !wait
  }

  /** Wherever it is turned away, a call leaves with everything it took given back; elsewhere
      it is not turned away. */
  lemma RefusalGivesBack(
    st: State, lim: Limits, c: CallId, u: User, wait: bool, entered: Time, left: Time, taken: nat)
    requires c !in st.calls && u in st.users && taken <= 3
    requires taken >= 2 ==> st.users[u].slots < lim.userConcurrent
    requires taken >= 3 ==> st.global < lim.globalConcurrent
    ensures
      var inside := Entering(st, c, u, wait, st.users[u].(active := st.users[u].active + 1, lastUsed := entered));
      var taking := Taken(inside, lim, c, taken);
      var refused := Apply(taking, lim, Refuse(c));
      if TurnedAway(st, lim, u, wait, taken)
      then GivenBack(refused, lim, c, left) == st.(users := st.users[u := st.users[u].(lastUsed := left)])
      else refused == taking
  {
    EnteringIs(st, c, u, wait, entered);
    Takes(st, lim, c, u, wait, entered, taken);
    Refuses(st, lim, c, u, wait, entered, taken);
    if TurnedAway(st, lim, u, wait, taken) {
      GivesBack(st, lim, c, u, wait, entered, [DropActive, DropActive, DropUser, DropBoth][taken], left);
    }
  }

  lemma Refuses(st: State, lim: Limits, c: CallId, u: User, wait: bool, now: Time, taken: nat)
    requires u in st.users && taken <= 3
    ensures
      var taking := With(st, c, u, wait, [Entered, Rated, HasUser, HasBoth][taken], now);
      Apply(taking, lim, Refuse(c)) ==
      if TurnedAway(st, lim, u, wait, taken)
      then With(st, c, u, wait, [DropActive, DropActive, DropUser, DropBoth][taken], now)
      else taking
  {
  }

  /* ---------- the gate ---------- */

  class Gate {
    const limits: Limits
    var users: map<User, Record>
    var globalSlots: int
    var next: nat
    ghost var calls: map<CallId, Call>

    ghost function View(): State
      reads this
    {
      State(users, globalSlots, next, calls)
    }

    constructor (limits: Limits)
      ensures this.limits == limits && View() == IDLE
    {
      this.limits := limits;
      users, globalSlots, next, calls := map[], 0, 0, map[];
    }

    /** Enter: refused exactly when the user is untracked and every one of the tracked users,
        at the limit, has active calls. */
    method BeginUser(ghost c: CallId, user: User, ghost wait: bool, now: Time) returns (r: Option<nat>)
      requires |users| <= MAX_TRACKED && c !in calls
      modifies this`users, this`next, this`calls
      ensures r.None? <==> user !in old(users) && |old(users)| == MAX_TRACKED && forall u :: !Inactive(old(users), u)
      ensures r.None? ==> View() == old(View())
      ensures r.Some? ==> Enters(old(View()), View(), c, user, wait, now) && calls[c].generation == r.value
      ensures r.Some? ==> user in users && users[user] == if user in old(users)
                  then old(users)[user].(active := old(users)[user].active + 1, lastUsed := now)
                  else Record(old(next), 1, 0, now)
    {
      if user in users {
        var found := users[user];
        users := users[user := found.(active := found.active + 1, lastUsed := now)];
        calls := calls[c := Call(user, found.generation, wait, Entered)];
        return Some(found.generation);
      }
      var kept := users;
      if |users| >= MAX_TRACKED {
        kept := MakeRoom(users, now);
        if |kept| >= MAX_TRACKED {
          return None;
        }
      }
      users := kept[user := Record(next, 1, 0, now)];
      calls := calls[c := Call(user, next, wait, Entered)];
      r := Some(next);
      next := next + 1;
      assert Room(old(users), kept, now) && View() == Admitted(old(View()), kept, c, user, wait, now);
    }

    /** Take a user slot if one is free. */
    method TakeUserSlot(ghost c: CallId, user: User, generation: nat) returns (ok: bool)
      requires c in calls && calls[c].phase.Rated? && calls[c].user == user && calls[c].generation == generation
      requires user in users && users[user].generation == generation
      modifies this`users, this`calls
      ensures ok <==> old(users)[user].slots < limits.userConcurrent
      ensures View() == Apply(old(View()), limits, TakeUser(c))
      ensures ok ==> users == old(users)[user := old(users)[user].(slots := old(users)[user].slots + 1)]
      ensures !ok ==> View() == old(View())
    {
      ok := users[user].slots < limits.userConcurrent;
      if ok {
        users := users[user := users[user].(slots := users[user].slots + 1)];
        calls := calls[c := calls[c].(phase := HasUser)];
      }
    }

    method TakeGlobalSlot(ghost c: CallId) returns (ok: bool)
      requires c in calls && calls[c].phase.HasUser?
      modifies this`globalSlots, this`calls
      ensures ok <==> old(globalSlots) < limits.globalConcurrent
      ensures View() == Apply(old(View()), limits, TakeGlobal(c))
      ensures globalSlots == old(globalSlots) + if ok then 1 else 0
    {
      ok := globalSlots < limits.globalConcurrent;
      if ok {
        globalSlots := globalSlots + 1;
        calls := calls[c := calls[c].(phase := HasBoth)];
      }
    }

    method GiveGlobalSlot(ghost c: CallId)
      requires c in calls && calls[c].phase.DropBoth?
      modifies this`globalSlots, this`calls
      ensures View() == Apply(old(View()), limits, GiveGlobal(c))
      ensures globalSlots == old(globalSlots) - 1
    {
      globalSlots := globalSlots - 1;
      calls := calls[c := calls[c].(phase := DropUser)];
    }

    method GiveUserSlot(ghost c: CallId, user: User, generation: nat)
      requires c in calls && calls[c].phase.DropUser? && calls[c].user == user && calls[c].generation == generation
      requires user in users && users[user].generation == generation
      modifies this`users, this`calls
      ensures View() == Apply(old(View()), limits, GiveUser(c))
      ensures users == old(users)[user := old(users)[user].(slots := old(users)[user].slots - 1)]
    {
      users := users[user := users[user].(slots := users[user].slots - 1)];
      calls := calls[c := calls[c].(phase := DropActive)];
    }

    method FinishCall(ghost c: CallId, user: User, generation: nat, now: Time)
      requires c in calls && calls[c].phase.DropActive? && calls[c].user == user && calls[c].generation == generation
      requires user in users && users[user].generation == generation
      modifies this`users, this`calls
      ensures View() == Apply(old(View()), limits, Finish(c, now))
      ensures users == old(users)[user := old(users)[user].(active := old(users)[user].active - 1, lastUsed := now)]
    {
      users := users[user := users[user].(active := users[user].active - 1, lastUsed := now)];
      calls := calls - {c};
    }
  }

  /* ---------- rate ---------- */

  /** Take `inputs` tokens from both budgets, or from neither. A reservation above the burst
      is refused outright; one that would have to wait is cancelled. */
  method ReserveRate(
    user: int, userBurst: int, global: int, globalBurst: int, inputs: nat)
    returns (ok: bool, user': int, global': int)
    ensures ok <==> inputs <= userBurst && inputs <= user && inputs <= globalBurst && inputs <= global
    ensures user' == (if ok then user - inputs else user) && global' == (if ok then global - inputs else global)
  {
    ok, user', global' := false, user, global;
    if inputs > userBurst {
      return;
    }
    user' := user' - inputs;
    if user' < 0 {
      user' := user' + inputs;
      return;
    }
    if inputs > globalBurst {
      user' := user' + inputs;
      return;
    }
    global' := global' - inputs;
    if global' < 0 {
      global' := global' + inputs;
      user' := user' + inputs;
      return;
    }
    ok := true;
  }
}
