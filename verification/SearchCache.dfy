/** The decoded-index cache: least recently used first out, under a byte budget. */
module SearchCache {
  import opened Prelude

  type Owner = int
  type Identity = int
  type Handle = int

  /** One held index. `identity` hashes the object key and the encryption key. */
  datatype Held = Held(owner: Owner, identity: Identity, ix: Handle, size: nat)

  datatype Call = Get(owner: Owner, identity: Identity) | Put(held: Held) | Drop(owner: Owner)

  /* ---------- the list ---------- */

  function Sum(s: seq<Held>): nat {
    if s == [] then 0 else Sum(s[..|s| - 1]) + s[|s| - 1].size
  }

  function Without(s: seq<Held>, owner: Owner): seq<Held> {
    if s == [] then []
    else
      var k := |s| - 1;
      Without(s[..k], owner) + if s[k].owner == owner then [] else [s[k]]
  }

  ghost predicate OneEach(s: seq<Held>) {
    forall i, j | 0 <= i < j < |s| :: s[i].owner != s[j].owner
  }

  /** The front of the list that is left once the budget holds. */
  function Evicted(s: seq<Held>, budget: nat): seq<Held> {
    if Sum(s) <= budget then s else Evicted(s[..|s| - 1], budget)
  }

  lemma {:induction false} WithoutAbsent(s: seq<Held>, owner: Owner)
    requires forall i | 0 <= i < |s| :: s[i].owner != owner
    ensures Without(s, owner) == s
  {
    if s != [] {
      WithoutAbsent(s[..|s| - 1], owner);
    }
  }

  function Cut(s: seq<Held>, i: nat): seq<Held>
    requires i < |s|
  {
    s[..i] + s[i + 1..]
  }

  /** Removing an owner takes out its one entry and keeps the order of the rest. */
  lemma {:induction false} WithoutIs(s: seq<Held>, i: nat)
    requires OneEach(s) && i < |s|
    ensures Without(s, s[i].owner) == Cut(s, i)
  {
    var k := |s| - 1;
    if i == k {
      WithoutAbsent(s[..k], s[k].owner);
      assert s[k + 1..] == [];
    } else {
      WithoutIs(s[..k], i);
    }
  }

  lemma {:induction false} CutSum(s: seq<Held>, i: nat)
    requires i < |s|
    ensures Sum(s) == Sum(Cut(s, i)) + s[i].size
  {
    var k := |s| - 1;
    if i == k {
      assert Cut(s, i) == s[..k];
    } else {
      CutSum(s[..k], i);
      assert Cut(s, i)[..|Cut(s, i)| - 1] == Cut(s[..k], i);
    }
  }

  lemma {:induction false} SumFront(s: seq<Held>, e: Held)
    ensures Sum([e] + s) == e.size + Sum(s)
  {
    if s == [] {
      assert [e] + s == [e];
      assert [e][..0] == [];
    } else {
      var k := |s| - 1;
      SumFront(s[..k], e);
      assert ([e] + s)[..k + 1] == [e] + s[..k];
    }
  }

  /** Eviction keeps the longest prefix within the budget. */
  lemma {:induction false} EvictedIsLongest(s: seq<Held>, budget: nat)
    ensures Evicted(s, budget) <= s && Sum(Evicted(s, budget)) <= budget
    ensures forall n | 0 <= n <= |s| && Sum(s[..n]) <= budget :: n <= |Evicted(s, budget)|
  {
    if Sum(s) > budget {
      var k := |s| - 1;
      EvictedIsLongest(s[..k], budget);
      forall n | 0 <= n <= |s| && Sum(s[..n]) <= budget
        ensures n <= |Evicted(s, budget)|
      {
        assert s[..|s|] == s;
        if n < |s| {
          assert s[..k][..n] == s[..n];
        }
      }
    }
  }

  /* ---------- what the calls so far say ---------- */

  /** The last value stored for an owner. */
  function LastPut(log: seq<Call>, owner: Owner): Option<Held> {
    if log == [] then None
    else
      var c := log[|log| - 1];
      if c.Put? && c.held.owner == owner then Some(c.held) else LastPut(log[..|log| - 1], owner)
  }

  /** When the owner was last asked for or stored. */
  function LastUse(log: seq<Call>, owner: Owner): nat {
    if log == [] then 0
    else
      var c := log[|log| - 1];
      if (c.Put? && c.held.owner == owner) || (c.Get? && c.owner == owner) then |log|
          else LastUse(log[..|log| - 1], owner)
  }

  lemma {:induction false} UsedBy(log: seq<Call>, owner: Owner)
    ensures LastUse(log, owner) <= |log|
  {
    if log != [] {
      UsedBy(log[..|log| - 1], owner);
    }
  }

  /** Every held index is the last one stored for its owner, most recently used first. */
  ghost predicate Current(s: seq<Held>, log: seq<Call>) {
    && (forall i | 0 <= i < |s| :: LastPut(log, s[i].owner) == Some(s[i]))
    && (forall i, j | 0 <= i < j < |s| :: LastUse(log, s[i].owner) > LastUse(log, s[j].owner))
  }

  /** Order is kept by taking out one entry. */
  lemma CutCurrent(s: seq<Held>, i: nat, log: seq<Call>)
    requires Current(s, log) && i < |s|
    ensures Current(Cut(s, i), log)
  {
    var c := Cut(s, i);
    assert forall j | 0 <= j < |c| :: c[j] == s[if j < i then j else j + 1];
  }

  /** A held index moved or pushed to the front is the most recently used. */
  lemma FrontCurrent(e: Held, rest: seq<Held>, log: seq<Call>, c: Call)
    requires Current(rest, log) && forall i | 0 <= i < |rest| :: rest[i].owner != e.owner
    requires c == Put(e) || (c == Get(e.owner, e.identity) && LastPut(log, e.owner) == Some(e))
    ensures Current([e] + rest, log + [c])
  {
    var s := [e] + rest;
    forall j | 1 <= j < |s|
      ensures LastUse(log + [c], s[0].owner) > LastUse(log + [c], s[j].owner)
    {
      UsedBy(log, s[j].owner);
    }
    assert forall j | 1 <= j < |s| :: s[j] == rest[j - 1];
  }

  /* ---------- the cache as a value ---------- */

  datatype State = State(budget: nat, total: nat, lru: seq<Held>, byOwner: map<Owner, Held>, log: seq<Call>)

  /** The owner map names exactly the held entries, one per owner. */
  ghost predicate Indexed(s: seq<Held>, m: map<Owner, Held>) {
    && OneEach(s)
    && (forall i | 0 <= i < |s| :: s[i].owner in m && m[s[i].owner] == s[i])
    && (forall o | o in m :: m[o] in s && m[o].owner == o)
  }

  /** Everything but the budget, which eviction restores. */
  ghost predicate Sane(st: State) {
    st.total == Sum(st.lru) && Indexed(st.lru, st.byOwner) && Current(st.lru, st.log)
  }

  ghost predicate OK(st: State) {
    Sane(st) && st.total <= st.budget
  }

  function Removed(st: State, owner: Owner): State
    requires owner in st.byOwner && st.byOwner[owner].size <= st.total
  {
    st.(lru := Without(st.lru, owner), byOwner := st.byOwner - {owner}, total := st.total - st.byOwner[owner].size)
  }

  lemma CutIndexed(s: seq<Held>, m: map<Owner, Held>, i: nat)
    requires Indexed(s, m) && i < |s|
    ensures Indexed(Cut(s, i), m - {s[i].owner})
    ensures forall x :: x in Cut(s, i) <==> x in s && x.owner != s[i].owner
  {
    var c := Cut(s, i);
    assert forall j | 0 <= j < |c| :: c[j] == s[if j < i then j else j + 1];
    forall x | x in s && x.owner != s[i].owner
      ensures x in c
    {
      var j :| 0 <= j < |s| && s[j] == x;
      assert x == c[if j < i then j else j - 1];
    }
  }

  lemma CutAt(st: State, i: nat)
    requires OK(st) && i < |st.lru|
    ensures
      var owner := st.lru[i].owner;
      && owner in st.byOwner && st.byOwner[owner] == st.lru[i] && st.lru[i].size <= st.total
      && OK(Removed(st, owner)) && LastPut(st.log, owner) == Some(st.lru[i])
      && forall x :: x in Removed(st, owner).lru <==> x in st.lru && x.owner != owner
  {
    WithoutIs(st.lru, i);
    CutSum(st.lru, i);
    CutIndexed(st.lru, st.byOwner, i);
    CutCurrent(st.lru, i, st.log);
  }

  /** Taking out one owner leaves every other entry. */
  lemma RemovedOK(st: State, owner: Owner)
    requires OK(st) && owner in st.byOwner
    ensures st.byOwner[owner].size <= st.total && OK(Removed(st, owner))
    ensures forall x :: x in Removed(st, owner).lru <==> x in st.lru && x.owner != owner
    ensures LastPut(st.log, owner) == Some(st.byOwner[owner])
  {
    var i :| 0 <= i < |st.lru| && st.lru[i] == st.byOwner[owner];
    CutAt(st, i);
  }

  /** Logging a call about an owner not held. */
  lemma LoggedOK(st: State, c: Call)
    requires OK(st) && (c.Put? ==> c.held.owner !in st.byOwner) && (c.Get? ==> c.owner !in st.byOwner)
    ensures OK(st.(log := st.log + [c]))
  {
  }

  function Front(st: State, e: Held): State {
    st.(lru := [e] + st.lru, byOwner := st.byOwner[e.owner := e], total := st.total + e.size)
  }

  /** Entering an entry at the front; the budget may be exceeded until eviction. */
  lemma FrontOK(st: State, e: Held, c: Call)
    requires OK(st) && e.owner !in st.byOwner
    requires c == Put(e) || (c == Get(e.owner, e.identity) && LastPut(st.log, e.owner) == Some(e))
    ensures
      var u := Front(st, e);
      u.total == Sum(u.lru) && Indexed(u.lru, u.byOwner) && Current(u.lru, st.log + [c])
  {
    FrontCurrent(e, st.lru, st.log, c);
    SumFront(st.lru, e);
  }

  lemma LastOut(st: State)
    requires Sane(st) && st.lru != []
    ensures
      var e := st.lru[|st.lru| - 1];
      && e.owner in st.byOwner && st.byOwner[e.owner] == e && e.size <= st.total
      && Sane(Removed(st, e.owner)) && Removed(st, e.owner).lru == st.lru[..|st.lru| - 1]
  {
    var k := |st.lru| - 1;
    WithoutIs(st.lru, k);
    CutSum(st.lru, k);
    CutIndexed(st.lru, st.byOwner, k);
    CutCurrent(st.lru, k, st.log);
    assert Cut(st.lru, k) == st.lru[..k];
  }

  /** A put that fits is itself never evicted. */
  lemma FrontSurvives(e: Held, rest: seq<Held>, budget: nat)
    requires e.size <= budget
    ensures Evicted([e] + rest, budget) != [] && Evicted([e] + rest, budget)[0] == e
  {
    var s := [e] + rest;
    EvictedIsLongest(s, budget);
    assert s[..1] == [e] && [e][..0] == [];
    assert Sum(s[..1]) == e.size;
  }

  class Cache {
    const budget: nat
    var total: nat
    var lru: seq<Held>
    var byOwner: map<Owner, Held>
    ghost var log: seq<Call>

    ghost function View(): State
      reads this
    {
      State(budget, total, lru, byOwner, log)
    }

    ghost predicate Valid()
      reads this
    {
      OK(View())
    }

    constructor (budget: nat)
      ensures Valid() && this.budget == budget && log == [] && lru == []
    {
      this.budget := budget;
      total, lru, byOwner, log := 0, [], map[], [];
    }

    method RemoveLocked(e: Held)
      requires e.owner in byOwner && byOwner[e.owner] == e && total >= e.size
      modifies this`lru, this`byOwner, this`total
      ensures View() == Removed(old(View()), e.owner)
    {
      lru := Without(lru, e.owner);
      byOwner := byOwner - {e.owner};
      total := total - e.size;
    }

    /** A hit is the last index stored for the owner, under the identity asked for; a
        mismatch drops it; nobody else's entry is touched. */
    method Lookup(owner: Owner, identity: Identity) returns (r: Option<Handle>)
      requires Valid()
      modifies this`lru, this`byOwner, this`total, this`log
      ensures Valid() && log == old(log) + [Get(owner, identity)]
      ensures r.Some? ==>
                var last := LastPut(old(log), owner);
                last.Some? && last.value.identity == identity && last.value.ix == r.value
      ensures r.Some? <==> owner in old(byOwner) && old(byOwner)[owner].identity == identity
      ensures forall x :: x in lru <==> x in old(lru) && (x.owner != owner || x.identity == identity)
    {
      GetOK(View(), owner, identity);
      log := log + [Get(owner, identity)];
      if owner !in byOwner {
        return None;
      }
      var e := byOwner[owner];
      if e.identity != identity {
        RemoveLocked(e);
        return None;
      }
      lru := [e] + Without(lru, owner);
      r := Some(e.ix);
    }

    /** Store: the owner's old entry goes, the new one enters at the front if it can fit at
        all, and the least recently used entries leave until the budget holds. */
    method Store(e: Held)
      requires Valid()
      modifies this`lru, this`byOwner, this`total, this`log
      ensures Valid() && log == old(log) + [Put(e)]
      ensures e.size > budget ==> lru == Without(old(lru), e.owner)
      ensures e.size <= budget ==> lru == Evicted([e] + Without(old(lru), e.owner), budget) && lru != [] && lru[0] == e
    {
      Forget(e.owner);
      if e.size > budget {
        LoggedOK(View(), Put(e));
        log := log + [Put(e)];
        return;
      }
      FrontOK(View(), e, Put(e));
      FrontSurvives(e, lru, budget);
      lru, byOwner, total, log := [e] + lru, byOwner[e.owner := e], total + e.size, log + [Put(e)];
      Trim();
    }

    method Trim()
      requires Sane(View())
      modifies this`lru, this`byOwner, this`total
      ensures Valid() && lru == Evicted(old(lru), budget)
    {
      while total > budget
        invariant Sane(View()) && log == old(log)
        invariant Evicted(lru, budget) == Evicted(old(lru), budget)
        decreases |lru|
      {
        LastOut(View());
        RemoveLocked(lru[|lru| - 1]);
      }
    }

    method Discard(owner: Owner)
      requires Valid()
      modifies this`lru, this`byOwner, this`total, this`log
      ensures Valid() && lru == Without(old(lru), owner) && log == old(log) + [Drop(owner)]
    {
      Forget(owner);
      LoggedOK(View(), Drop(owner));
      log := log + [Drop(owner)];
    }

    method Forget(owner: Owner)
      requires Valid()
      modifies this`lru, this`byOwner, this`total
      ensures Valid() && lru == Without(old(lru), owner) && owner !in byOwner
    {
      if owner in byOwner {
        RemovedOK(View(), owner);
        RemoveLocked(byOwner[owner]);
      } else {
        WithoutAbsent(lru, owner);
      }
    }
  }

  /** Taking an entry out and putting it in front again changes only the list. */
  lemma MovedIs(st: State, e: Held)
    requires e.owner in st.byOwner && st.byOwner[e.owner] == e && e.size <= st.total
    ensures Front(Removed(st, e.owner), e) == st.(lru := [e] + Without(st.lru, e.owner))
  {
  }

  /** A hit only reorders the list. */
  lemma MovedOK(st: State, e: Held)
    requires OK(st) && e.owner in st.byOwner && st.byOwner[e.owner] == e
    ensures OK(st.(lru := [e] + Without(st.lru, e.owner), log := st.log + [Get(e.owner, e.identity)]))
  {
    RemovedOK(st, e.owner);
    MovedIs(st, e);
    FrontOK(Removed(st, e.owner), e, Get(e.owner, e.identity));
  }

  lemma MovedMembers(st: State, e: Held)
    requires OK(st) && e.owner in st.byOwner && st.byOwner[e.owner] == e
    ensures forall x :: x in [e] + Without(st.lru, e.owner) <==>
        x in st.lru && (x.owner != e.owner || x.identity == e.identity)
  {
    RemovedOK(st, e.owner);
    assert forall x | x in st.lru && x.owner == e.owner :: x == e;
  }

  lemma MismatchMembers(st: State, e: Held, identity: Identity)
    requires OK(st) && e.owner in st.byOwner && st.byOwner[e.owner] == e && e.identity != identity
    ensures forall x :: x in Without(st.lru, e.owner) <==> x in st.lru && (x.owner != e.owner || x.identity == identity)
  {
    RemovedOK(st, e.owner);
    assert forall x | x in st.lru && x.owner == e.owner :: x == e;
  }

  ghost function AfterGet(st: State, owner: Owner, identity: Identity): State
    requires OK(st)
  {
    var logged := st.(log := st.log + [Get(owner, identity)]);
    if owner !in st.byOwner then logged
    else if st.byOwner[owner].identity != identity then
      RemovedOK(st, owner);
      Removed(logged, owner)
    else logged.(lru := [st.byOwner[owner]] + Without(st.lru, owner))
  }

  lemma GetOK(st: State, owner: Owner, identity: Identity)
    requires OK(st)
    ensures OK(AfterGet(st, owner, identity))
    ensures forall x :: x in AfterGet(st, owner, identity).lru <==>
        x in st.lru && (x.owner != owner || x.identity == identity)
    ensures owner in st.byOwner ==>
              LastPut(st.log, owner) == Some(st.byOwner[owner]) && st.byOwner[owner].size <= st.total
  {
    if owner !in st.byOwner {
      LoggedOK(st, Get(owner, identity));
    } else {
      RemovedOK(st, owner);
      var e := st.byOwner[owner];
      assert e.owner == owner;
      if e.identity != identity {
        LoggedOK(Removed(st, owner), Get(owner, identity));
        MismatchMembers(st, e, identity);
      } else {
        MovedOK(st, e);
        MovedMembers(st, e);
      }
    }
  }
}
