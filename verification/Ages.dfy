/** Whether the queue is by age. A ticket carries the time its job first arrived, which a requeued job keeps. */
module Ages {
  import opened Wire
  import opened Scheduler
  import opened PoolRuns

  type Stamps = nat -> int

  /** Oldest first. */
  ghost predicate Aged(q: seq<nat>, at: Stamps) {
    forall i, j :: 0 <= i < j < |q| ==> at(q[i]) <= at(q[j])
  }

  /** A ticket that joins the queue is no younger than everyone waiting if it joins in front, and no older if behind. */
  ghost predicate JoinsByAge(s: Sys, e: Event, at: Stamps)
    requires Inv(s) && Enabled(s, e)
  {
    e.AcquireJob? && e.t in Next(s, e).svc.queue ==>
      forall u :: u in s.svc.queue ==> if e.front then at(e.t) <= at(u) else at(u) <= at(e.t)
  }

  lemma FrontByAge(q: seq<nat>, t: nat, at: Stamps)
    requires Aged(q, at)
    ensures Aged([t] + q, at) <==> forall u :: u in q ==> at(t) <= at(u)
  {
    var all := [t] + q;
    assert forall i :: 0 <= i < |q| ==> all[i + 1] == q[i];
    if Aged(all, at) {
      forall u | u in q ensures at(t) <= at(u) {
        var i :| 0 <= i < |q| && q[i] == u;
        assert all[0] == t && all[i + 1] == u;
      }
    }
  }

  lemma BackByAge(q: seq<nat>, t: nat, at: Stamps)
    requires Aged(q, at)
    ensures Aged(q + [t], at) <==> forall u :: u in q ==> at(u) <= at(t)
  {
    var all := q + [t];
    if Aged(all, at) {
      forall u | u in q ensures at(u) <= at(t) {
        var i :| 0 <= i < |q| && q[i] == u;
        assert all[i] == u && all[|q|] == t;
      }
    }
  }

  lemma {:induction false} WithoutAged(q: seq<nat>, x: nat, at: Stamps)
    requires Aged(q, at)
    ensures Aged(Without(q, x), at) && forall u :: u in Without(q, x) ==> u in q
  {
    if q != [] {
      assert q == [q[0]] + q[1..];
      WithoutAged(q[1..], x, at);
      FrontByAge(q[1..], q[0], at);
      if q[0] != x {
        FrontByAge(Without(q[1..], x), q[0], at);
      }
    }
  }

  lemma ServingAged(s: Svc, s': Svc, at: Stamps)
    requires Aged(s.queue, at) && ServesPrefix(s, s')
    ensures Aged(s'.queue, at)
  {
    var k :| 0 <= k <= |s.queue| && ServedExactly(s, s', k);
  }

  /** The queue stays by age across an event exactly if nobody joins it out of place. */
  lemma StepAge(s: Sys, e: Event, at: Stamps)
    requires Inv(s) && Enabled(s, e) && Aged(s.svc.queue, at)
    ensures Aged(Next(s, e).svc.queue, at) <==> JoinsByAge(s, e, at)
  {
    hide Counted, Conserved, Dispatch, Best, Add, Release, ServesPrefix, Aged;
    match e
    case AddProvider(p, slots, priority) =>
      AddKeeps(s.svc, p, slots, priority);
      ServingAged(s.svc, Next(s, e).svc, at);
    case AcquireJob(t, front) =>
      FrontByAge(s.svc.queue, t, at);
      BackByAge(s.svc.queue, t, at);
      Joined(s.svc, t, front);
    case Abandon(t) => WithoutAged(s.svc.queue, t, at);
    case ReleaseJob(t) =>
      assert Placed(s.svc, t, s.jobs[t]);
      ReleaseKeeps(s.svc, t);
      if !s.svc.leases[t].released {
        ServingAged(s.svc.(leases := s.svc.leases[t := Lease(s.svc.leases[t].provider, true)]), Next(s, e).svc, at);
      } else {
        ReleasedTwice(s.svc, t);
      }
    case _ =>
  }

  lemma Joined(s: Svc, t: nat, front: bool)
    requires Shaped(s) && t !in s.queue
    ensures var q := Acquire(s, t, front).queue;
            if t in q then q == (if front then [t] + s.queue else s.queue + [t]) else q == s.queue
  {
    assert t in [t] + s.queue && t in s.queue + [t];
  }

  /** The queue is by age at every moment of a run. */
  ghost predicate AgedThroughout(s: Sys, run: seq<Event>, at: Stamps)
    requires Inv(s) && Possible(s, run)
    decreases |run|
  {
    Aged(s.svc.queue, at)
    && (run == [] || (StepKeeps(s, run[0]); AgedThroughout(Next(s, run[0]), run[1..], at)))
  }

  ghost predicate AllJoinByAge(s: Sys, run: seq<Event>, at: Stamps)
    requires Inv(s) && Possible(s, run)
    decreases |run|
  {
    run == []
    || (JoinsByAge(s, run[0], at) && (StepKeeps(s, run[0]); AllJoinByAge(Next(s, run[0]), run[1..], at)))
  }

  lemma {:induction false} AgedExactly(s: Sys, run: seq<Event>, at: Stamps)
    requires Inv(s) && Possible(s, run) && Aged(s.svc.queue, at)
    ensures AgedThroughout(s, run, at) <==> AllJoinByAge(s, run, at)
    decreases |run|
  {
    hide Aged, JoinsByAge;
    if run != [] {
      StepKeeps(s, run[0]);
      StepAge(s, run[0], at);
      if Aged(Next(s, run[0]).svc.queue, at) {
        AgedExactly(Next(s, run[0]), run[1..], at);
      } else {
        NotThroughout(Next(s, run[0]), run[1..], at);
      }
    }
  }

  lemma NotThroughout(s: Sys, run: seq<Event>, at: Stamps)
    requires Inv(s) && Possible(s, run) && !Aged(s.svc.queue, at)
    ensures !AgedThroughout(s, run, at)
  {
  }

  /** Jobs are served oldest first over a run exactly if every job that joins the queue joins by its age. */
  lemma OldestFirstExactly(run: seq<Event>, at: Stamps)
    requires Runs(run)
    ensures Inv(EMPTY) && (AgedThroughout(EMPTY, run, at) <==> AllJoinByAge(EMPTY, run, at))
  {
    EmptyInv();
    AgedExactly(EMPTY, run, at);
  }

  lemma TakenAtOnce(s: Sys, p: nat, t: nat)
    requires Inv(s) && s.svc.queue == [] && s.svc.listed == [p] && p in s.svc.provs && s.svc.provs[p].Free()
             && t !in s.jobs
    ensures Next(s, AcquireJob(t, false)) == Sys(Take(s.svc, t, p), s.jobs[t := Holding])
  {
    BestOfAll(s.svc);
  }

  lemma QueuedInFront(s: Sys, t: nat)
    requires Inv(s) && s.svc.listed == [] && t !in s.jobs
    ensures var s' := Next(s, AcquireJob(t, true));
            s' == Sys(s.svc.(queue := [t] + s.svc.queue), s.jobs[t := Selecting])
  {
    assert Best(s.svc).None?;
  }

  lemma GivenBackToNobody(s: Sys, t: nat)
    requires Inv(s) && s.svc.listed == [] && t in s.jobs && s.jobs[t] == Holding
    ensures t in s.svc.leases && s.svc.leases[t].provider in s.svc.provs
    ensures Next(s, ReleaseJob(t)) == Sys(GivenBack(s.svc, t), s.jobs[t := Done])
  {
    assert Placed(s.svc, t, Holding);
    assert Best(GivenBack(s.svc, t)).None?;
  }

  lemma FirstProvider(p: nat)
    ensures Inv(EMPTY) && Enabled(EMPTY, AddProvider(p, 2, 0))
    ensures Next(EMPTY, AddProvider(p, 2, 0)) == Sys(Svc(map[p := Prov(2, 0, 0, false)], [p], [], map[], {}), map[])
  {
    EmptyInv();
    assert [] + [p] == [p];
  }

  /** A provider of two slots, and a job on each. */
  lemma TwoRunning(p: nat, a: nat, b: nat)
    requires a != b
    ensures var run := [AddProvider(p, 2, 0), AcquireJob(a, false), AcquireJob(b, false)];
            && Runs(run) && State(run).svc.listed == [p] && State(run).svc.queue == []
            && State(run).jobs == map[a := Holding, b := Holding] && p in State(run).svc.provs
  {
    hide Next, Possible, After, Inv;
    FirstProvider(p);
    var e1, e2, e3 := AddProvider(p, 2, 0), AcquireJob(a, false), AcquireJob(b, false);
    NoEvent();
    OneMore(EMPTY, [], e1);
    TakenAtOnce(After(EMPTY, [] + [e1]), p, a);
    OneMore(EMPTY, [] + [e1], e2);
    TakenAtOnce(After(EMPTY, [] + [e1] + [e2]), p, b);
    OneMore(EMPTY, [] + [e1] + [e2], e3);
    assert [] + [e1] + [e2] + [e3] == [e1, e2, e3];
  }

  /** Two jobs whose provider is lost, requeued in the order they arrived in, stand in reverse: the younger is ahead. */
  lemma RequeuedInReverse(p: nat, a: nat, b: nat, a': nat, b': nat, at: Stamps)
    requires a != b && a != a' && a != b' && b != a' && b != b' && a' != b'
    requires at(a) == at(a') < at(b) == at(b')
    ensures var run := [AddProvider(p, 2, 0), AcquireJob(a, false), AcquireJob(b, false), RemoveProvider(p),
                        ReleaseJob(a), AcquireJob(a', true), ReleaseJob(b), AcquireJob(b', true)];
            Runs(run) && State(run).svc.queue == [b', a'] && !Aged(State(run).svc.queue, at)
  {
    hide Next, Possible, After, Inv, Aged;
    TwoRunning(p, a, b);
    EmptyInv();
    var first := [AddProvider(p, 2, 0), AcquireJob(a, false), AcquireJob(b, false)];
    var r1 := first + [RemoveProvider(p)];
    var r2 := r1 + [ReleaseJob(a)];
    var r3 := r2 + [AcquireJob(a', true)];
    var r4 := r3 + [ReleaseJob(b)];
    var r5 := r4 + [AcquireJob(b', true)];
    OneMore(EMPTY, first, RemoveProvider(p));
    RemovedOnly(State(first), p);
    GivenBackToNobody(State(r1), a);
    OneMore(EMPTY, r1, ReleaseJob(a));
    QueuedInFront(State(r2), a');
    OneMore(EMPTY, r2, AcquireJob(a', true));
    GivenBackToNobody(State(r3), b);
    OneMore(EMPTY, r3, ReleaseJob(b));
    QueuedInFront(State(r4), b');
    OneMore(EMPTY, r4, AcquireJob(b', true));
    assert r5 == [AddProvider(p, 2, 0), AcquireJob(a, false), AcquireJob(b, false), RemoveProvider(p),
                  ReleaseJob(a), AcquireJob(a', true), ReleaseJob(b), AcquireJob(b', true)];
    Reversed(a', b', at);
  }

  lemma RemovedOnly(s: Sys, p: nat)
    requires Inv(s) && p in s.svc.provs && s.svc.listed == [p]
    ensures var s' := Next(s, RemoveProvider(p));
            s'.svc.listed == [] && s'.svc.queue == s.svc.queue && s'.jobs == s.jobs
  {
    assert [p][1..] == [];
  }

  lemma Reversed(a: nat, b: nat, at: Stamps)
    requires at(a) < at(b)
    ensures [b] + ([a] + []) == [b, a] && !Aged([b, a], at)
  {
    assert [b, a][0] == b && [b, a][1] == a;
  }
}
