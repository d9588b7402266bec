/** One service's pool as a transition system: the lock-protected sections as functions on its state, the goroutines
    of its jobs around them, and what every interleaving of them keeps. */
module Scheduler {
  import opened Wire

  // ---------- the state under the lock ----------

  datatype Prov = Prov(slots: nat, priority: nat, busy: int, gone: bool) {
    predicate Free() {
      !gone && busy < slots
    }

    function Room(): int {
      slots - busy
    }
  }

  datatype Lease = Lease(provider: nat, released: bool)

  /** Providers go by id. A ticket is one call of Acquire; it gets at most one lease and waits in at most one place. */
  datatype Svc = Svc(
    provs: map<nat, Prov>,      // every provider ever added
    listed: seq<nat>,           // the providers in the pool, in order of arrival
    queue: seq<nat>,            // the waiters, next to be served first
    leases: map<nat, Lease>,    // the lease each ticket was given
    full: set<nat>              // the tickets whose one-place channel holds their lease
  )

  ghost predicate Distinct(s: seq<nat>) {
    forall i, j :: 0 <= i < j < |s| ==> s[i] != s[j]
  }

  ghost function OutOf(leases: map<nat, Lease>, p: nat): set<nat> {
    set t | t in leases && leases[t] == Lease(p, false)
  }

  ghost function Outstanding(s: Svc, p: nat): set<nat> {
    OutOf(s.leases, p)
  }

  ghost predicate Shaped(s: Svc) {
    && Distinct(s.listed) && Distinct(s.queue)
    && (forall p :: p in s.provs ==> (p in s.listed <==> !s.provs[p].gone))
    && (forall p :: p in s.listed ==> p in s.provs)
    && (forall t :: t in s.queue ==> t !in s.leases && t !in s.full)
    && (forall t :: t in s.full ==> t in s.leases && !s.leases[t].released)
    && (forall t :: t in s.leases ==> s.leases[t].provider in s.provs)
  }

  /** A provider's busy count is the number of its leases nobody has released, and within its slots. */
  ghost predicate Counted(s: Svc) {
    forall p :: p in s.provs ==> s.provs[p].busy == |Outstanding(s, p)| <= s.provs[p].slots
  }

  /** What the fields mean together, whoever holds the lock. */
  ghost predicate Consistent(s: Svc) {
    Shaped(s) && Counted(s)
  }

  /** No job waits while a provider in the pool has a slot open. */
  ghost predicate Conserved(s: Svc) {
    s.queue != [] ==>
      forall p :: p in s.listed && p in s.provs ==> s.provs[p].gone || s.provs[p].busy >= s.provs[p].slots
  }

  // ---------- choosing a provider ----------

  predicate Better(a: Prov, b: Prov) {
    a.priority < b.priority || (a.priority == b.priority && a.Room() > b.Room())
  }

  /** The choice among the first n listed providers. */
  function BestOf(s: Svc, n: nat): (best: Option<nat>)
    requires n <= |s.listed| && forall p :: p in s.listed ==> p in s.provs
    ensures best.Some? ==> best.value in s.listed && s.provs[best.value].Free()
  {
    if n == 0 then None
    else
      var so_far, p := BestOf(s, n - 1), s.listed[n - 1];
      if s.provs[p].Free() && (so_far.None? || Better(s.provs[p], s.provs[so_far.value])) then Some(p) else so_far
  }

  function Best(s: Svc): (best: Option<nat>)
    requires forall p :: p in s.listed ==> p in s.provs
    ensures best.Some? ==> best.value in s.listed && s.provs[best.value].Free()
  {
    BestOf(s, |s.listed|)
  }

  /** The k-th listed provider is the one to choose among the first n: it is there and has a slot open, and of all
      such providers it has the smallest priority number, among those of that number the most slots open, and among
      those of as many it stands first. */
  ghost predicate IsChoice(s: Svc, n: nat, k: nat)
    requires n <= |s.listed| && forall p :: p in s.listed ==> p in s.provs
  {
    && k < n
    && var chosen := s.provs[s.listed[k]];
    && !chosen.gone && chosen.busy < chosen.slots
    && forall i :: 0 <= i < n ==>
        var other := s.provs[s.listed[i]];
        !other.gone && other.busy < other.slots ==>
          && chosen.priority <= other.priority
          && (chosen.priority == other.priority ==> chosen.slots - chosen.busy >= other.slots - other.busy)
          && (chosen.priority == other.priority && chosen.slots - chosen.busy == other.slots - other.busy ==> k <= i)
  }

  /** There is a choice exactly when some provider has room, and it is the right one. */
  lemma {:induction false} BestIsBest(s: Svc, n: nat) returns (k: nat)
    requires n <= |s.listed| && forall p :: p in s.listed ==> p in s.provs
    ensures BestOf(s, n).None? <==>
            forall i :: 0 <= i < n ==>
              s.provs[s.listed[i]].gone || s.provs[s.listed[i]].busy >= s.provs[s.listed[i]].slots
    ensures BestOf(s, n).Some? ==> IsChoice(s, n, k) && s.listed[k] == BestOf(s, n).value
  {
    k := 0;
    if n > 0 {
      k := BestIsBest(s, n - 1);
      var p, so_far := s.provs[s.listed[n - 1]], BestOf(s, n - 1);
      if p.Free() && (so_far.None? || Better(p, s.provs[so_far.value])) {
        k := n - 1;
      }
    }
  }

  lemma BestOfAll(s: Svc)
    requires forall p :: p in s.listed ==> p in s.provs
    ensures Best(s).None? <==> forall p :: p in s.listed ==> s.provs[p].gone || s.provs[p].busy >= s.provs[p].slots
  {
    var k := BestIsBest(s, |s.listed|);
    if Best(s).None? {
      forall p | p in s.listed ensures s.provs[p].gone || s.provs[p].busy >= s.provs[p].slots {
        var i :| 0 <= i < |s.listed| && s.listed[i] == p;
      }
    }
  }

  // ---------- the lock sections ----------

  function Take(s: Svc, t: nat, p: nat): Svc
    requires p in s.provs
  {
    s.(provs := s.provs[p := s.provs[p].(busy := s.provs[p].busy + 1)], leases := s.leases[t := Lease(p, false)])
  }

  function Popped(s: Svc): Svc
    requires s.queue != []
  {
    s.(queue := s.queue[1..])
  }

  function Sent(s: Svc, t: nat): Svc {
    s.(full := s.full + {t})
  }

  /** The head of the queue leaves it and is handed its lease through its channel. */
  function HandOver(s: Svc, p: nat): Svc
    requires p in s.provs && s.queue != []
  {
    Sent(Take(Popped(s), s.queue[0], p), s.queue[0])
  }

  function Dispatch(s: Svc): Svc
    requires forall p :: p in s.listed ==> p in s.provs
    decreases |s.queue|
  {
    if s.queue == [] || Best(s).None? then s else Dispatch(HandOver(s, Best(s).value))
  }

  function Listed(s: Svc, p: nat, slots: nat, priority: nat): Svc {
    s.(provs := s.provs[p := Prov(slots, priority, 0, false)], listed := s.listed + [p])
  }

  function Add(s: Svc, p: nat, slots: nat, priority: nat): Svc
    requires forall p :: p in s.listed ==> p in s.provs
  {
    Dispatch(Listed(s, p, slots, priority))
  }

  function Without(q: seq<nat>, x: nat): seq<nat> {
    if q == [] then [] else if q[0] == x then q[1..] else [q[0]] + Without(q[1..], x)
  }

  function Remove(s: Svc, p: nat): Svc
    requires p in s.provs
  {
    s.(provs := s.provs[p := s.provs[p].(gone := true)], listed := Without(s.listed, p))
  }

  function Acquire(s: Svc, t: nat, front: bool): Svc
    requires forall p :: p in s.listed ==> p in s.provs
  {
    if s.queue == [] && Best(s).Some? then Take(s, t, Best(s).value)
    else s.(queue := if front then [t] + s.queue else s.queue + [t])
  }

  function Withdraw(s: Svc, t: nat): Svc {
    s.(queue := Without(s.queue, t))
  }

  /** The lease leaves its channel; this needs no lock. */
  function Receive(s: Svc, t: nat): Svc {
    s.(full := s.full - {t})
  }

  function GivenBack(s: Svc, t: nat): Svc
    requires t in s.leases && s.leases[t].provider in s.provs
  {
    var p := s.leases[t].provider;
    s.(provs := s.provs[p := s.provs[p].(busy := s.provs[p].busy - 1)], leases := s.leases[t := Lease(p, true)])
  }

  function Release(s: Svc, t: nat): Svc
    requires t in s.leases && s.leases[t].provider in s.provs
    requires forall p :: p in s.listed ==> p in s.provs
  {
    if s.leases[t].released then s else Dispatch(GivenBack(s, t))
  }

  // ---------- what the sections keep ----------

  lemma TakeCounts(s: Svc, t: nat, p: nat)
    requires Counted(s) && t !in s.leases && p in s.provs && s.provs[p].Free()
    ensures Counted(Take(s, t, p))
  {
    var s' := Take(s, t, p);
    hide OutOf;
    forall q | q in s'.provs ensures s'.provs[q].busy == |Outstanding(s', q)| <= s'.provs[q].slots {
      OneMoreOut(s.leases, t, p, q);
    }
  }

  lemma OneMoreOut(leases: map<nat, Lease>, t: nat, p: nat, q: nat)
    requires t !in leases
    ensures |OutOf(leases[t := Lease(p, false)], q)| == |OutOf(leases, q)| + if q == p then 1 else 0
  {
    var more := OutOf(leases[t := Lease(p, false)], q);
    if q == p {
      assert more == OutOf(leases, q) + {t};
    } else {
      assert more == OutOf(leases, q);
    }
  }

  /** Counting looks at leases and providers only. */
  lemma SameCounts(s: Svc, s': Svc)
    requires Counted(s) && s'.leases == s.leases
    requires forall p :: p in s'.provs ==>
               p in s.provs && s'.provs[p].busy == s.provs[p].busy && s'.provs[p].slots == s.provs[p].slots
    ensures Counted(s')
  {
    forall p | p in s'.provs ensures s'.provs[p].busy == |Outstanding(s', p)| <= s'.provs[p].slots {
      assert Outstanding(s', p) == Outstanding(s, p);
    }
  }

  lemma TakeKeeps(s: Svc, t: nat, p: nat)
    requires Consistent(s) && t !in s.leases && t !in s.queue && p in s.provs && s.provs[p].Free()
    ensures Consistent(Take(s, t, p))
  {
    hide Counted;
    TakeCounts(s, t, p);
  }

  lemma PoppedKeeps(s: Svc)
    requires Consistent(s) && s.queue != []
    ensures Consistent(Popped(s)) && s.queue[0] !in Popped(s).queue && s.queue[0] !in s.leases && s.queue[0] !in s.full
  {
    SameCounts(s, Popped(s));
    assert s.queue[0] in s.queue;
  }

  lemma SentKeeps(s: Svc, t: nat)
    requires Consistent(s) && t in s.leases && !s.leases[t].released && t !in s.queue
    ensures Consistent(Sent(s, t))
  {
    SameCounts(s, Sent(s, t));
  }

  /** What each part of a hand-over leaves alone. */
  lemma HandOverParts(s: Svc, p: nat)
    requires s.queue != [] && p in s.provs
    ensures HandOver(s, p) == Sent(Take(Popped(s), s.queue[0], p), s.queue[0])
    ensures Popped(s).provs == s.provs && Popped(s).leases == s.leases && Popped(s).full == s.full
    ensures Take(Popped(s), s.queue[0], p).queue == Popped(s).queue
  {
  }

  lemma HandOverKeeps(s: Svc, p: nat)
    requires Consistent(s) && s.queue != [] && p in s.provs && s.provs[p].Free()
    ensures Consistent(HandOver(s, p))
  {
    PoppedKeeps(s);
    TakeKeeps(Popped(s), s.queue[0], p);
    SentKeeps(Take(Popped(s), s.queue[0], p), s.queue[0]);
  }

  /** Dispatch ends with nobody waiting or nobody free, and serves a prefix of the queue and nobody else. */
  lemma {:induction false} DispatchKeeps(s: Svc)
    requires Consistent(s)
    ensures Consistent(Dispatch(s)) && Conserved(Dispatch(s))
    ensures ServesPrefix(s, Dispatch(s))
    ensures Dispatch(s).listed == s.listed && Dispatch(s).provs.Keys == s.provs.Keys
    decreases |s.queue|
  {
    hide Counted, Best, HandOver, ServesPrefix;
    BestOfAll(s);
    if s.queue != [] && Best(s).Some? {
      HandOverLists(s, Best(s).value);
      var s1 := HandOver(s, Best(s).value);
      HandOverKeeps(s, Best(s).value);
      DispatchKeeps(s1);
      HandOverServes(s, Best(s).value, Dispatch(s1));
    } else {
      ServesNobody(s);
    }
  }

  lemma ServesNobody(s: Svc)
    ensures ServesPrefix(s, s)
  {
    assert ServedExactly(s, s, 0);
  }

  lemma HandOverLists(s: Svc, p: nat)
    requires s.queue != [] && p in s.provs
    ensures HandOver(s, p).listed == s.listed && HandOver(s, p).provs.Keys == s.provs.Keys
    ensures HandOver(s, p).queue == s.queue[1..]
  {
  }

  lemma HandOverServes(s: Svc, p: nat, s': Svc)
    requires s.queue != [] && s.queue[0] !in s.leases && p in s.provs && ServesPrefix(HandOver(s, p), s')
    ensures ServesPrefix(s, s')
  {
    var s1 := HandOver(s, p);
    var k :| 0 <= k <= |s1.queue| && ServedExactly(s1, s', k);
    OneMoreServed(s, p, s', k);
  }

  /** Serving looks at the queue, the leases and the channels only. */
  lemma SameServes(s: Svc, s1: Svc, s': Svc)
    requires s.queue == s1.queue && s.leases == s1.leases && s.full == s1.full && ServesPrefix(s1, s')
    ensures ServesPrefix(s, s')
  {
    var k :| 0 <= k <= |s1.queue| && ServedExactly(s1, s', k);
    assert ServedExactly(s, s', k);
  }

  ghost function Firsts(q: seq<nat>, k: nat): set<nat>
    requires k <= |q|
  {
    set t | t in q[..k]
  }

  lemma FirstsGrow(q: seq<nat>, k: nat)
    requires q != [] && k <= |q[1..]|
    ensures Firsts(q, k + 1) == {q[0]} + Firsts(q[1..], k)
  {
    assert q[..k + 1] == [q[0]] + q[1..][..k];
  }

  /** The first k in the queue, and they alone, went from waiting to having their lease in their channel. */
  ghost predicate ServedExactly(s: Svc, s': Svc, k: nat)
    requires k <= |s.queue|
  {
    && s'.queue == s.queue[k..]
    && s'.leases.Keys == s.leases.Keys + Firsts(s.queue, k)
    && s'.full == s.full + Firsts(s.queue, k)
    && (forall t :: t in s.leases ==> s'.leases[t] == s.leases[t])
    && (forall t :: t in Firsts(s.queue, k) ==> !s'.leases[t].released)
  }

  /** The providers are the same but for how busy they are. */
  ghost predicate SameProviders(s: Svc, s': Svc) {
    && s'.listed == s.listed && s'.provs.Keys == s.provs.Keys
    && forall p :: p in s.provs ==> s'.provs[p] == s.provs[p].(busy := s'.provs[p].busy)
  }

  ghost predicate ServesPrefix(s: Svc, s': Svc) {
    exists k :: 0 <= k <= |s.queue| && ServedExactly(s, s', k)
  }

  lemma ListedKeeps(s: Svc, p: nat, slots: nat, priority: nat)
    requires Consistent(s) && p !in s.provs
    ensures Consistent(Listed(s, p, slots, priority))
  {
    var s1 := Listed(s, p, slots, priority);
    forall q | q in s1.provs ensures s1.provs[q].busy == |Outstanding(s1, q)| <= s1.provs[q].slots {
      assert Outstanding(s1, q) == Outstanding(s, q);
      if q == p {
        assert Outstanding(s, q) == {};
      }
    }
  }

  lemma AddKeeps(s: Svc, p: nat, slots: nat, priority: nat)
    requires Consistent(s) && p !in s.provs
    ensures Consistent(Add(s, p, slots, priority)) && Conserved(Add(s, p, slots, priority))
    ensures ServesPrefix(s, Add(s, p, slots, priority))
  {
    hide Counted, Conserved, Dispatch, ServesPrefix;
    var s1 := Listed(s, p, slots, priority);
    ListedKeeps(s, p, slots, priority);
    DispatchKeeps(s1);
    SameServes(s, s1, Dispatch(s1));
  }

  lemma {:induction false} WithoutOne(q: seq<nat>, x: nat)
    requires Distinct(q)
    ensures Distinct(Without(q, x)) && (forall y :: y in Without(q, x) <==> y in q && y != x)
    ensures x !in q ==> Without(q, x) == q
  {
    if q != [] {
      var rest := q[1..];
      assert q == [q[0]] + rest;
      assert q[0] !in rest by {
        assert forall i :: 0 <= i < |rest| ==> rest[i] == q[i + 1];
      }
      if q[0] != x {
        WithoutOne(rest, x);
      }
    }
  }

  /** Taking one out leaves the order of the others. */
  lemma {:induction false} WithoutKeepsOrder(q: seq<nat>, x: nat, a: nat, b: nat)
    requires Distinct(q) && a != x && b != x
    ensures Ahead(Without(q, x), a, b) <==> Ahead(q, a, b)
  {
    if q != [] {
      var rest := q[1..];
      assert q == [q[0]] + rest;
      AheadCons(q[0], rest, a, b);
      if q[0] != x {
        WithoutOne(rest, x);
        WithoutKeepsOrder(rest, x, a, b);
        AheadCons(q[0], Without(rest, x), a, b);
      }
    }
  }

  /** a stands somewhere before b. */
  ghost predicate Ahead(q: seq<nat>, a: nat, b: nat) {
    exists i, j :: 0 <= i < j < |q| && q[i] == a && q[j] == b
  }

  lemma AheadCons(x: nat, q: seq<nat>, a: nat, b: nat)
    ensures Ahead([x] + q, a, b) <==> (a == x && b in q) || Ahead(q, a, b)
  {
    var all := [x] + q;
    if a == x && b in q {
      var j :| 0 <= j < |q| && q[j] == b;
      assert all[0] == a && all[j + 1] == b;
    } else if Ahead(q, a, b) {
      var i, j :| 0 <= i < j < |q| && q[i] == a && q[j] == b;
      assert all[i + 1] == a && all[j + 1] == b;
    }
    if Ahead(all, a, b) {
      var i, j :| 0 <= i < j < |all| && all[i] == a && all[j] == b;
      assert q[j - 1] == b;
      if i > 0 {
        assert q[i - 1] == a;
      }
    }
  }

  lemma RemoveKeeps(s: Svc, p: nat)
    requires Consistent(s) && Conserved(s) && p in s.provs
    ensures Consistent(Remove(s, p)) && Conserved(Remove(s, p))
  {
    WithoutOne(s.listed, p);
    SameCounts(s, Remove(s, p));
  }

  lemma AcquireKeeps(s: Svc, t: nat, front: bool)
    requires Consistent(s) && Conserved(s) && t !in s.leases && t !in s.queue && t !in s.full
    ensures Consistent(Acquire(s, t, front)) && Conserved(Acquire(s, t, front))
  {
    BestOfAll(s);
    if s.queue == [] && Best(s).Some? {
      TakeKeeps(s, t, Best(s).value);
    } else {
      SameCounts(s, Acquire(s, t, front));
    }
  }

  /** A lease comes at once exactly when nobody waits and some provider has a slot open, and then from the choice. */
  lemma AcquireChooses(s: Svc, t: nat, front: bool) returns (k: nat)
    requires Consistent(s) && t !in s.leases
    ensures t in Acquire(s, t, front).leases <==>
            s.queue == [] && exists p :: p in s.listed && !s.provs[p].gone && s.provs[p].busy < s.provs[p].slots
    ensures t in Acquire(s, t, front).leases ==>
              IsChoice(s, |s.listed|, k) && Acquire(s, t, front).leases[t] == Lease(s.listed[k], false)
  {
    BestOfAll(s);
    k := BestIsBest(s, |s.listed|);
  }

  lemma NobodyServedYet(s: Svc)
    ensures ServedExactly(s, s, 0) && SameProviders(s, s)
  {
  }

  lemma HandOverGives(s: Svc, p: nat)
    requires s.queue != [] && s.queue[0] !in s.leases && p in s.provs
    ensures HandOver(s, p).leases == s.leases[s.queue[0] := Lease(p, false)]
    ensures HandOver(s, p).full == s.full + {s.queue[0]}
    ensures HandOver(s, p).queue == s.queue[1..] && SameProviders(s, HandOver(s, p))
  {
  }

  lemma OneMoreServed(s: Svc, p: nat, m: Svc, i: nat)
    requires s.queue != [] && s.queue[0] !in s.leases && p in s.provs && i <= |s.queue| - 1
    requires |HandOver(s, p).queue| == |s.queue| - 1 && ServedExactly(HandOver(s, p), m, i)
    ensures ServedExactly(s, m, i + 1)
    ensures SameProviders(HandOver(s, p), m) ==> SameProviders(s, m)
  {
    HandOverGives(s, p);
    FirstsGrow(s.queue, i);
    hide HandOver, Firsts;
    var s1, head := HandOver(s, p), s.queue[0];
    assert s1.leases == s.leases[head := Lease(p, false)];
    assert m.leases.Keys == s.leases.Keys + Firsts(s.queue, i + 1);
    assert m.full == s.full + Firsts(s.queue, i + 1);
    assert m.queue == s.queue[i + 1..];
    forall t | t in s.leases ensures m.leases[t] == s.leases[t] {
      assert s1.leases[t] == s.leases[t];
    }
    forall t | t in Firsts(s.queue, i + 1) ensures !m.leases[t].released {
      assert t == head ==> m.leases[t] == s1.leases[t];
    }
  }

  /** Whoever Dispatch serves gets the choice of its moment: the state m, in which just those ahead in the queue have
      been served, and with those same leases. */
  lemma {:induction false} HandOverChooses(s: Svc, i: nat) returns (m: Svc, k: nat)
    requires Consistent(s) && i < |s.queue| && s.queue[i] in Dispatch(s).leases
    ensures Consistent(m) && ServedExactly(s, m, i) && SameProviders(s, m)
    ensures forall t :: t in m.leases ==> t in Dispatch(s).leases && Dispatch(s).leases[t] == m.leases[t]
    ensures IsChoice(m, |m.listed|, k) && Dispatch(s).leases[s.queue[i]] == Lease(m.listed[k], false)
    decreases i
  {
    hide Counted, Best, HandOver, Dispatch, ServedExactly, SameProviders, IsChoice, Distinct;
    ServedMeansRoom(s, i);
    var p := Best(s).value;
    var s1 := HandOver(s, p);
    HandOverKeeps(s, p);
    HandOverGives(s, p);
    ServedStays(s);
    ServedStays(s1);
    if i == 0 {
      m := s;
      NobodyServedYet(s);
      k := ChoiceOfAll(s);
    } else {
      m, k := HandOverChooses(s1, i - 1);
      OneMoreServed(s, p, m, i - 1);
    }
  }

  lemma ChoiceOfAll(s: Svc) returns (k: nat)
    requires (forall p :: p in s.listed ==> p in s.provs) && Best(s).Some?
    ensures IsChoice(s, |s.listed|, k) && s.listed[k] == Best(s).value
  {
    k := BestIsBest(s, |s.listed|);
  }

  lemma ServedMeansRoom(s: Svc, i: nat)
    requires Consistent(s) && i < |s.queue| && s.queue[i] in Dispatch(s).leases
    ensures s.queue[0] in s.queue && s.queue[0] !in s.leases && Best(s).Some?
    ensures Best(s).value in s.provs && s.provs[Best(s).value].Free()
    ensures Dispatch(s) == Dispatch(HandOver(s, Best(s).value))
  {
    hide Counted, HandOver, BestOf;
    assert s.queue[i] in s.queue;
  }

  lemma ServedStays(s: Svc)
    requires Consistent(s)
    ensures Dispatch(s).listed == s.listed
    ensures forall t :: t in s.leases ==> t in Dispatch(s).leases && Dispatch(s).leases[t] == s.leases[t]
  {
    hide Dispatch, Consistent, Conserved;
    DispatchKeeps(s);
  }

  lemma WithdrawKeeps(s: Svc, t: nat)
    requires Consistent(s) && Conserved(s)
    ensures Consistent(Withdraw(s, t)) && Conserved(Withdraw(s, t))
  {
    WithoutOne(s.queue, t);
    SameCounts(s, Withdraw(s, t));
  }

  lemma ReceiveKeeps(s: Svc, t: nat)
    requires Consistent(s) && Conserved(s)
    ensures Consistent(Receive(s, t)) && Conserved(Receive(s, t))
  {
    SameCounts(s, Receive(s, t));
  }

  lemma ReleaseKeeps(s: Svc, t: nat)
    requires Consistent(s) && Conserved(s) && t in s.leases && t !in s.full
    ensures Consistent(Release(s, t)) && Conserved(Release(s, t))
    ensures !s.leases[t].released ==> ServesPrefix(s.(leases := s.leases[t := Lease(s.leases[t].provider, true)]),
            Release(s, t))
  {
    hide Counted, Conserved, ServesPrefix, Dispatch;
    if !s.leases[t].released {
      GivenBackKeeps(s, t);
      DispatchKeeps(GivenBack(s, t));
      SameServes(s.(leases := s.leases[t := Lease(s.leases[t].provider, true)]), GivenBack(s, t),
        Dispatch(GivenBack(s, t)));
    }
  }

  lemma GivenBackKeeps(s: Svc, t: nat)
    requires Consistent(s) && t in s.leases && !s.leases[t].released && t !in s.full
    ensures Consistent(GivenBack(s, t))
  {
    var p, s1 := s.leases[t].provider, GivenBack(s, t);
    forall q | q in s1.provs ensures s1.provs[q].busy == |Outstanding(s1, q)| <= s1.provs[q].slots {
      if q == p {
        assert t in Outstanding(s, q);
        assert Outstanding(s1, q) == Outstanding(s, q) - {t};
      } else {
        assert Outstanding(s1, q) == Outstanding(s, q);
      }
    }
  }
}
