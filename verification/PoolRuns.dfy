/** Every interleaving of the jobs of one service: each event is one lock section, one channel operation or one turn
    of a select, and what holds after any run of them. */
module PoolRuns {
  import opened Wire
  import opened Scheduler

  /** Where a call of Acquire stands. */
  datatype Phase =
    | Selecting   // waits for a lease, the timer or the context
    | Leaving     // gave up waiting and is about to take the lock
    | Window      // was not in the queue any more and is about to look into its channel
    | Returning   // found a lease there and is about to release it
    | Holding     // returned with a lease
    | Left        // returned without one
    | Done        // its lease is released

  datatype Sys = Sys(svc: Svc, jobs: map<nat, Phase>)

  datatype Event =
    | AddProvider(p: nat, slots: nat, priority: nat)
    | RemoveProvider(p: nat)
    | AcquireJob(t: nat, front: bool)
    | TakeFromChannel(t: nat)
    | GiveUp(t: nat)
    | Abandon(t: nat)
    | LookIntoChannel(t: nat)
    | ReleaseJob(t: nat)

  predicate Enabled(s: Sys, e: Event) {
    match e
    case AddProvider(p, _, _) => p !in s.svc.provs
    case RemoveProvider(p) => p in s.svc.provs
    case AcquireJob(t, _) => t !in s.jobs
    case TakeFromChannel(t) => t in s.jobs && s.jobs[t] == Selecting && t in s.svc.full
    case GiveUp(t) => t in s.jobs && s.jobs[t] == Selecting
    case Abandon(t) => t in s.jobs && s.jobs[t] == Leaving
    case LookIntoChannel(t) => t in s.jobs && s.jobs[t] == Window
    case ReleaseJob(t) => t in s.jobs && s.jobs[t] in {Returning, Holding, Done}
  }

  function Next(s: Sys, e: Event): Sys
    requires Inv(s) && Enabled(s, e)
  {
    match e
    case AddProvider(p, slots, priority) => s.(svc := Add(s.svc, p, slots, priority))
    case RemoveProvider(p) => s.(svc := Remove(s.svc, p))
    case AcquireJob(t, front) =>
      var svc := Acquire(s.svc, t, front);
      Sys(svc, s.jobs[t := if t in svc.leases then Holding else Selecting])
    case TakeFromChannel(t) => Sys(Receive(s.svc, t), s.jobs[t := Holding])
    case GiveUp(t) => s.(jobs := s.jobs[t := Leaving])
    case Abandon(t) =>
      if t in s.svc.queue then Sys(Withdraw(s.svc, t), s.jobs[t := Left]) else s.(jobs := s.jobs[t := Window])
    case LookIntoChannel(t) =>
      if t in s.svc.full then Sys(Receive(s.svc, t), s.jobs[t := Returning]) else s.(jobs := s.jobs[t := Left])
    case ReleaseJob(t) => Sys(Release(s.svc, t), s.jobs[t := Done])
  }

  /** What the phase of a job says about where its ticket and its lease are. */
  ghost predicate Placed(s: Svc, t: nat, phase: Phase) {
    match phase
    case Selecting => t in s.queue || t in s.full
    case Leaving => t in s.queue || t in s.full
    case Window => t in s.full
    case Returning => t in s.leases && !s.leases[t].released && t !in s.full
    case Holding => t in s.leases && !s.leases[t].released && t !in s.full
    case Left => t !in s.queue && t !in s.leases
    case Done => t in s.leases && s.leases[t].released
  }

  ghost predicate Inv(s: Sys) {
    && Consistent(s.svc) && Conserved(s.svc)
    && (forall t :: t in s.jobs ==> Placed(s.svc, t, s.jobs[t]))
    && (forall t :: t in s.svc.queue || t in s.svc.leases ==> t in s.jobs)
  }

  const EMPTY := Sys(Svc(map[], [], [], map[], {}), map[])

  lemma EmptyInv()
    ensures Inv(EMPTY)
  {
  }

  /** Serving a prefix of the queue leaves every job where its phase says, but for one whose lease was changed first. */
  lemma ServingKeepsPlaces(s: Svc, s': Svc, jobs: map<nat, Phase>, t: nat)
    requires Shaped(s) && ServesPrefix(s, s')
    requires t in jobs && Placed(s, t, jobs[t])
    ensures Placed(s', t, jobs[t])
  {
    var k :| 0 <= k <= |s.queue| && ServedExactly(s, s', k);
    PrefixOrRest(s.queue, k, t);
    hide Distinct;
  }

  /** Who is in a queue is in its first part or in the rest. */
  lemma PrefixOrRest(q: seq<nat>, k: nat, t: nat)
    requires k <= |q|
    ensures t in q <==> t in q[..k] || t in q[k..]
    ensures Distinct(q) ==> !(t in q[..k] && t in q[k..])
  {
    assert q == q[..k] + q[k..];
  }

  lemma ServingKeepsKnown(s: Svc, s': Svc, t: nat)
    requires ServesPrefix(s, s') && (t in s'.queue || t in s'.leases)
    ensures t in s.queue || t in s.leases
  {
  }

  lemma ReleaseShaped(s: Svc, t: nat)
    requires Shaped(s) && t in s.leases && t !in s.full
    ensures Shaped(s.(leases := s.leases[t := Lease(s.leases[t].provider, true)]))
  {
  }

  lemma AddEventKeeps(s: Sys, p: nat, slots: nat, priority: nat)
    requires Inv(s) && p !in s.svc.provs
    ensures Inv(s.(svc := Add(s.svc, p, slots, priority)))
  {
    hide Counted, Conserved, ServesPrefix, Add, Placed;
    AddKeeps(s.svc, p, slots, priority);
    var svc := Add(s.svc, p, slots, priority);
    forall t | t in s.jobs ensures Placed(svc, t, s.jobs[t]) {
      ServingKeepsPlaces(s.svc, svc, s.jobs, t);
    }
    forall t | t in svc.queue || t in svc.leases ensures t in s.jobs {
      ServingKeepsKnown(s.svc, svc, t);
    }
  }

  lemma AcquireEventKeeps(s: Sys, t: nat, front: bool)
    requires Inv(s) && t !in s.jobs
    ensures Inv(Next(s, AcquireJob(t, front)))
  {
    hide Counted, Conserved, Best;
    AcquireKeeps(s.svc, t, front);
    var s' := Next(s, AcquireJob(t, front));
    forall u | u in s'.jobs ensures Placed(s'.svc, u, s'.jobs[u]) {
      assert u != t ==> Placed(s.svc, u, s.jobs[u]);
    }
  }

  lemma AbandonEventKeeps(s: Sys, t: nat)
    requires Inv(s) && t in s.jobs && s.jobs[t] == Leaving
    ensures Inv(Next(s, Abandon(t)))
  {
    hide Counted, Conserved;
    WithdrawKeeps(s.svc, t);
    WithoutOne(s.svc.queue, t);
    var s' := Next(s, Abandon(t));
    forall u | u in s'.jobs ensures Placed(s'.svc, u, s'.jobs[u]) {
      assert Placed(s.svc, u, s.jobs[u]);
    }
  }

  lemma ReleaseEventKeeps(s: Sys, t: nat)
    requires Inv(s) && t in s.jobs && s.jobs[t] in {Returning, Holding, Done}
    ensures Inv(Next(s, ReleaseJob(t)))
  {
    hide Counted, Conserved, ServesPrefix, Release;
    assert Placed(s.svc, t, s.jobs[t]);
    ReleaseKeeps(s.svc, t);
    var s' := Next(s, ReleaseJob(t));
    if s.svc.leases[t].released {
      ReleasedTwice(s.svc, t);
    } else {
      var s1 := s.svc.(leases := s.svc.leases[t := Lease(s.svc.leases[t].provider, true)]);
      ReleaseShaped(s.svc, t);
      forall u | u in s'.jobs ensures Placed(s'.svc, u, s'.jobs[u]) {
        assert Placed(s.svc, u, s.jobs[u]);
        assert Placed(s1, u, s'.jobs[u]);
        ServingKeepsPlaces(s1, s'.svc, s'.jobs, u);
      }
      forall u | u in s'.svc.queue || u in s'.svc.leases ensures u in s'.jobs {
        ServingKeepsKnown(s1, s'.svc, u);
      }
    }
  }

  lemma ReceiveEventKeeps(s: Sys, t: nat, phase: Phase)
    requires Inv(s) && t in s.jobs && t in s.svc.full && phase in {Holding, Returning}
    ensures Inv(Sys(Receive(s.svc, t), s.jobs[t := phase]))
  {
    hide Counted, Conserved;
    ReceiveKeeps(s.svc, t);
    var s' := Sys(Receive(s.svc, t), s.jobs[t := phase]);
    forall u | u in s'.jobs ensures Placed(s'.svc, u, s'.jobs[u]) {
      assert Placed(s.svc, u, s.jobs[u]);
    }
  }

  /** Every event keeps the invariant. */
  lemma StepKeeps(s: Sys, e: Event)
    requires Inv(s) && Enabled(s, e)
    ensures Inv(Next(s, e))
  {
    hide Counted, Add, Acquire, Receive, Withdraw, Release;
    match e
    case AddProvider(p, slots, priority) => AddEventKeeps(s, p, slots, priority);
    case RemoveProvider(p) => RemoveKeeps(s.svc, p);
    case AcquireJob(t, front) => AcquireEventKeeps(s, t, front);
    case TakeFromChannel(t) => ReceiveEventKeeps(s, t, Holding);
    case GiveUp(t) =>
    case Abandon(t) => AbandonEventKeeps(s, t);
    case LookIntoChannel(t) =>
      assert Placed(s.svc, t, Window);
      ReceiveEventKeeps(s, t, Returning);
    case ReleaseJob(t) => ReleaseEventKeeps(s, t);
  }

  /** Releasing twice does nothing the second time. */
  lemma ReleasedTwice(s: Svc, t: nat)
    requires Shaped(s) && t in s.leases && s.leases[t].released
    ensures Release(s, t) == s
  {
  }

  // ---------- runs ----------

  ghost predicate Possible(s: Sys, run: seq<Event>)
    requires Inv(s)
    decreases |run|
  {
    run == [] || (Enabled(s, run[0]) && (StepKeeps(s, run[0]); Possible(Next(s, run[0]), run[1..])))
  }

  ghost function After(s: Sys, run: seq<Event>): (s': Sys)
    requires Inv(s) && Possible(s, run)
    ensures Inv(s')
    decreases |run|
  {
    if run == [] then s else (StepKeeps(s, run[0]); After(Next(s, run[0]), run[1..]))
  }

  /** One more event behind a run. */
  lemma {:induction false} OneMore(s: Sys, run: seq<Event>, e: Event)
    requires Inv(s) && Possible(s, run) && Enabled(After(s, run), e)
    ensures Possible(s, run + [e]) && After(s, run + [e]) == Next(After(s, run), e)
    decreases |run|
  {
    hide Next, Enabled, Inv;
    if run == [] {
      StepKeeps(s, e);
      assert run + [e] == [e] && [e][1..] == [];
    } else {
      StepKeeps(s, run[0]);
      OneMore(Next(s, run[0]), run[1..], e);
      assert (run + [e])[0] == run[0] && (run + [e])[1..] == run[1..] + [e];
    }
  }

  /** A run can be taken in two parts. */
  lemma {:induction false} RunsOn(s: Sys, run: seq<Event>, more: seq<Event>)
    requires Inv(s) && Possible(s, run) && Possible(After(s, run), more)
    ensures Possible(s, run + more) && After(s, run + more) == After(After(s, run), more)
    decreases |run|
  {
    hide Next, Enabled, Inv;
    if run == [] {
      assert run + more == more;
    } else {
      StepKeeps(s, run[0]);
      RunsOn(Next(s, run[0]), run[1..], more);
      assert (run + more)[0] == run[0] && (run + more)[1..] == run[1..] + more;
    }
  }

  lemma NoEvent()
    ensures Inv(EMPTY) && Possible(EMPTY, []) && After(EMPTY, []) == EMPTY
  {
    EmptyInv();
  }

  /** A run from the start, when there is nothing yet, and the state it leads to. */
  ghost predicate Runs(run: seq<Event>) {
    EmptyInv();
    Possible(EMPTY, run)
  }

  ghost function State(run: seq<Event>): (s: Sys)
    requires Runs(run)
    ensures Inv(s)
  {
    EmptyInv();
    After(EMPTY, run)
  }

  /** The jobs a slot of p is out to: they hold the lease, have it waiting in their channel, or are handing it back. */
  ghost function OutTo(s: Sys, p: nat): set<nat> {
    set t | t in s.jobs && t in s.svc.leases && s.svc.leases[t].provider == p
            && (s.jobs[t] in {Holding, Returning} || t in s.svc.full)
  }

  /** After any run, a provider's busy count is the number of jobs its slots are out to, and no more than it has. */
  lemma SlotsAccountedFor(run: seq<Event>, p: nat)
    requires Runs(run) && p in State(run).svc.provs
    ensures var s := State(run);
            s.svc.provs[p].busy == |OutTo(s, p)| <= s.svc.provs[p].slots
  {
    var s := State(run);
    forall t ensures t in OutTo(s, p) <==> t in Outstanding(s.svc, p) {
    }
    assert OutTo(s, p) == Outstanding(s.svc, p);
  }

  /** After any run, a job past the window's lock finds its lease in its channel: the branch of abandon that finds
      none is never taken. */
  lemma AbandonFindsItsLease(run: seq<Event>, t: nat)
    requires Runs(run)
    requires t in State(run).jobs && State(run).jobs[t] == Window
    ensures t in State(run).svc.full
    ensures Next(State(run), LookIntoChannel(t)).jobs[t] == Returning
  {
    assert Placed(State(run).svc, t, Window);
  }

  /** After any run, handing a lease to the head of the queue finds its channel empty, so the goroutine that freed
      the slot never blocks on it. */
  lemma HandOverNeverBlocks(run: seq<Event>)
    requires Runs(run) && State(run).svc.queue != []
    ensures State(run).svc.queue[0] !in State(run).svc.full
  {
  }

  /** With no job on its way, every slot is back. */
  lemma AllSlotsBack(s: Sys, p: nat)
    requires Inv(s) && p in s.svc.provs && forall t :: t in s.jobs ==> s.jobs[t] in {Left, Done}
    ensures s.svc.provs[p].busy == 0
  {
    forall t ensures t !in Outstanding(s.svc, p) {
      if t in s.jobs {
        assert Placed(s.svc, t, s.jobs[t]);
      }
    }
    assert Outstanding(s.svc, p) == {};
  }

  /** After any run that leaves no job on its way, every slot is back. */
  lemma EverySlotComesBack(run: seq<Event>, p: nat)
    requires Runs(run) && p in State(run).svc.provs
    requires forall t :: t in State(run).jobs ==> State(run).jobs[t] in {Left, Done}
    ensures State(run).svc.provs[p].busy == 0
  {
    AllSlotsBack(State(run), p);
  }

  /** After any run, a service with a waiting job has no provider with a free slot. */
  lemma WorkConserved(run: seq<Event>, p: nat)
    requires Runs(run)
    requires State(run).svc.queue != [] && p in State(run).svc.provs
    ensures State(run).svc.provs[p].gone || State(run).svc.provs[p].busy == State(run).svc.provs[p].slots
  {
  }

  // ---------- providers that left ----------

  lemma {:induction false} DispatchSparesGone(s: Svc, p: nat)
    requires Consistent(s) && p in s.provs && s.provs[p].gone
    ensures p in Dispatch(s).provs && Dispatch(s).provs[p] == s.provs[p]
    decreases |s.queue|
  {
    hide Counted, Best;
    if s.queue != [] && Best(s).Some? {
      HandOverKeeps(s, Best(s).value);
      DispatchSparesGone(HandOver(s, Best(s).value), p);
    }
  }

  /** A provider that was taken out never gets another job: its busy count only falls. */
  lemma StepSparesGone(s: Sys, e: Event, p: nat)
    requires Inv(s) && Enabled(s, e) && p in s.svc.provs && s.svc.provs[p].gone
    ensures var prov := Next(s, e).svc.provs; p in prov && prov[p].gone && prov[p].busy <= s.svc.provs[p].busy
  {
    hide Counted, Conserved, Dispatch, Best;
    match e
    case AddProvider(q, slots, priority) =>
      ListedKeeps(s.svc, q, slots, priority);
      DispatchSparesGone(Listed(s.svc, q, slots, priority), p);
    case ReleaseJob(t) =>
      assert Placed(s.svc, t, s.jobs[t]);
      if !s.svc.leases[t].released {
        GivenBackKeeps(s.svc, t);
        DispatchSparesGone(GivenBack(s.svc, t), p);
      }
    case _ =>
  }

  lemma {:induction false} RunSparesGone(s: Sys, run: seq<Event>, p: nat)
    requires Inv(s) && Possible(s, run) && p in s.svc.provs && s.svc.provs[p].gone
    ensures var prov := After(s, run).svc.provs; p in prov && prov[p].gone && prov[p].busy <= s.svc.provs[p].busy
    decreases |run|
  {
    if run != [] {
      StepKeeps(s, run[0]);
      StepSparesGone(s, run[0], p);
      RunSparesGone(Next(s, run[0]), run[1..], p);
    }
  }

  // ---------- order ----------

  /** b has not been served before a: either b still stands behind a, or a is out of the queue. */
  ghost predicate KeptBehind(s: Sys, a: nat, b: nat) {
    Ahead(s.svc.queue, a, b) || a !in s.svc.queue
  }

  lemma AheadOfSuffix(q: seq<nat>, k: nat, a: nat, b: nat)
    requires k <= |q| && Distinct(q) && Ahead(q, a, b) && a in q[k..]
    ensures Ahead(q[k..], a, b)
  {
    var i, j :| 0 <= i < j < |q| && q[i] == a && q[j] == b;
    var m :| 0 <= m < |q[k..]| && q[k..][m] == a;
    assert q[k + m] == q[i];
    assert q[k..][i - k] == a && q[k..][j - k] == b;
  }

  lemma AheadInLonger(x: seq<nat>, q: seq<nat>, y: seq<nat>, a: nat, b: nat)
    requires Ahead(q, a, b)
    ensures Ahead(x + q + y, a, b)
  {
    var i, j :| 0 <= i < j < |q| && q[i] == a && q[j] == b;
    var all := x + q + y;
    assert all[|x| + i] == a && all[|x| + j] == b;
  }

  lemma NewcomerKeepsOrder(q: seq<nat>, t: nat, a: nat, b: nat)
    requires (Ahead(q, a, b) || a !in q) && t != a
    ensures Ahead([t] + q, a, b) || a !in [t] + q
    ensures Ahead(q + [t], a, b) || a !in q + [t]
  {
    if Ahead(q, a, b) {
      AheadInLonger([t], q, [], a, b);
      AheadInLonger([], q, [t], a, b);
      assert [t] + q + [] == [t] + q && [] + q + [t] == q + [t];
    }
  }

  lemma StepKeepsOrder(s: Sys, e: Event, a: nat, b: nat)
    requires Inv(s) && Enabled(s, e) && a in s.jobs && b in s.jobs && KeptBehind(s, a, b)
    requires e == Abandon(b) ==> a !in s.svc.queue
    ensures KeptBehind(Next(s, e), a, b)
  {
    hide Counted, Conserved, Dispatch, Best, Add, Release, Ahead, ServesPrefix;
    var q, s' := s.svc.queue, Next(s, e);
    match e
    case AddProvider(p, slots, priority) =>
      AddKeeps(s.svc, p, slots, priority);
      ServingKeepsOrder(s.svc, s'.svc, a, b);
    case AcquireJob(t, front) =>
      NewcomerKeepsOrder(q, t, a, b);
    case Abandon(t) =>
      if t == a {
        WithoutOne(q, a);
      } else if t != b && t in q {
        WithoutKeepsOrder(q, t, a, b);
        WithoutOne(q, t);
      } else if t == b && b in q {
        WithoutOne(q, b);
      }
    case ReleaseJob(t) =>
      assert Placed(s.svc, t, s.jobs[t]);
      ReleaseKeeps(s.svc, t);
      if !s.svc.leases[t].released {
        ServingKeepsOrder(s.svc.(leases := s.svc.leases[t := Lease(s.svc.leases[t].provider, true)]), s'.svc, a, b);
      } else {
        ReleasedTwice(s.svc, t);
      }
    case _ =>
  }

  lemma ServingKeepsOrder(s: Svc, s': Svc, a: nat, b: nat)
    requires Distinct(s.queue) && ServesPrefix(s, s') && (Ahead(s.queue, a, b) || a !in s.queue)
    ensures Ahead(s'.queue, a, b) || a !in s'.queue
  {
    var k :| 0 <= k <= |s.queue| && ServedExactly(s, s', k);
    if a in s.queue[k..] {
      AheadOfSuffix(s.queue, k, a, b);
    }
  }

  /** Whatever runs, of two jobs in the queue the one behind is not served unless the one ahead has been served or
      has given up; until then, or until the one behind gives up itself, their order stays. */
  lemma {:induction false} NoOvertaking(s: Sys, run: seq<Event>, a: nat, b: nat)
    requires Inv(s) && Possible(s, run) && a in s.jobs && b in s.jobs && KeptBehind(s, a, b)
    requires b in s.svc.leases ==> a !in s.svc.queue
    ensures var s' := After(s, run);
            && a in s'.jobs && b in s'.jobs
            && (b in s'.svc.leases ==> a !in s'.svc.queue)
            && (a in s'.svc.queue ==> Ahead(s'.svc.queue, a, b) || s'.jobs[b] == Left)
    decreases |run|
  {
    if run != [] {
      StepKeeps(s, run[0]);
      var s1 := Next(s, run[0]);
      if run[0] == Abandon(b) && a in s.svc.queue {
        WithoutOne(s.svc.queue, b);
        WithdrawnStays(s1, run[1..], b);
        JobsGrow(s1, run[1..], a);
      } else {
        StepKeepsOrder(s, run[0], a, b);
        NoOvertaking(s1, run[1..], a, b);
      }
    }
  }

  lemma {:induction false} JobsGrow(s: Sys, run: seq<Event>, t: nat)
    requires Inv(s) && Possible(s, run) && t in s.jobs
    ensures t in After(s, run).jobs
    decreases |run|
  {
    if run != [] {
      StepKeeps(s, run[0]);
      JobsGrow(Next(s, run[0]), run[1..], t);
    }
  }

  /** A job that gave up stays out: it never gets a lease. */
  lemma {:induction false} WithdrawnStays(s: Sys, run: seq<Event>, t: nat)
    requires Inv(s) && Possible(s, run) && t in s.jobs && s.jobs[t] == Left
    ensures var s' := After(s, run); t in s'.jobs && s'.jobs[t] == Left && t !in s'.svc.leases && t !in s'.svc.queue
    decreases |run|
  {
    if run != [] {
      StepKeeps(s, run[0]);
      WithdrawnStays(Next(s, run[0]), run[1..], t);
    } else {
      assert Placed(s.svc, t, Left);
    }
  }

  /** A newcomer takes a slot past the queue only when nobody waits, and a requeued job goes ahead of everyone then
      waiting, any other behind. */
  lemma NewcomerPlace(s: Sys, t: nat, front: bool, a: nat)
    requires Inv(s) && t !in s.jobs && a in s.svc.queue
    ensures var s' := Next(s, AcquireJob(t, front));
            && t !in s'.svc.leases
            && if front then Ahead(s'.svc.queue, t, a) else Ahead(s'.svc.queue, a, t)
  {
    var i :| 0 <= i < |s.svc.queue| && s.svc.queue[i] == a;
    var q := Next(s, AcquireJob(t, front)).svc.queue;
    if front {
      assert q[0] == t && q[i + 1] == a;
    } else {
      assert q[i] == a && q[|s.svc.queue|] == t;
    }
  }
}
