/** Relays and the pool together: any number of jobs asking for leases, holding and releasing them as the relay does,
    around one service. */
module RelayPool {
  import opened Wire
  import opened Scheduler
  import Jobs
  import P = PoolRuns
  import opened Relay
  import opened RelayLaws

  /** Where a relay stands with the pool: about to ask, in Acquire, with a lease, or through with it. */
  datatype Doing = Idle(front: bool) | Asking(t: nat, front: bool) | Has(t: nat, front: bool) | Ended

  /** The pool, the relays, what each has done to the pool so far, and whose ticket is whose. */
  datatype Joint = Joint(pool: P.Sys, doing: map<nat, Doing>, traces: map<nat, seq<PoolAct>>, owner: map<nat, nat>)

  /** A relay's step, or one of the pool's own around it: providers, hand-overs, timers and what Acquire does by itself
      with a lease that came too late. */
  datatype Event =
    | Around(e: P.Event)
    | Begins(j: nat)
    | Asks(j: nat, t: nat)
    | Gets(j: nat)
    | IsRefused(j: nat)
    | GivesBack(j: nat, again: bool)

  predicate Enabled(s: Joint, e: Event) {
    match e
    case Around(a) => P.Enabled(s.pool, a) && !a.AcquireJob? && (a.ReleaseJob? ==> s.pool.jobs[a.t] == P.Returning)
    case Begins(j) => j !in s.doing && j !in s.traces
    case Asks(j, t) => j in s.doing && s.doing[j].Idle? && t !in s.pool.jobs
    case Gets(j) => j in s.doing && s.doing[j].Asking? && s.doing[j].t in s.pool.jobs
      && s.pool.jobs[s.doing[j].t] == P.Holding
    case IsRefused(j) =>
      j in s.doing && s.doing[j].Asking? && s.doing[j].t in s.pool.jobs && s.pool.jobs[s.doing[j].t] in {P.Left, P.Done}
    case GivesBack(j, _) => j in s.doing && s.doing[j].Has?
  }

  ghost function Next(s: Joint, e: Event): Joint
    requires Inv(s) && Enabled(s, e)
  {
    match e
    case Around(a) => s.(pool := P.Next(s.pool, a))
    case Begins(j) => s.(doing := s.doing[j := Idle(false)], traces := s.traces[j := []])
    case Asks(j, t) =>
      var front := s.doing[j].front;
      s.(pool := P.Next(s.pool, P.AcquireJob(t, front)), doing := s.doing[j := Asking(t, front)],
        owner := s.owner[t := j])
    case Gets(j) =>
      var d := s.doing[j];
      s.(doing := s.doing[j := Has(d.t, d.front)], traces := s.traces[j := s.traces[j] + [Leases(d.front)]])
    case IsRefused(j) =>
      s.(doing := s.doing[j := Ended], traces := s.traces[j := s.traces[j] + [Refused(s.doing[j].front)]])
    case GivesBack(j, again) =>
      s.(pool := P.Next(s.pool, P.ReleaseJob(s.doing[j].t)), doing := s.doing[j := if again then Idle(true) else Ended],
         traces := s.traces[j := s.traces[j] + [Releases]])
  }

  // ---------- traces ----------

  /** Rounds of a lease and its release so far; front is where the next request would join. */
  predicate Rounds(trace: seq<PoolAct>, first: bool, front: bool)
    decreases |trace|
  {
    if trace == [] then first == front
    else |trace| >= 2 && trace[..2] == [Leases(first), Releases] && Rounds(trace[2..], true, front)
  }

  lemma {:induction false} RoundsGoOn(trace: seq<PoolAct>, first: bool, front: bool)
    requires Rounds(trace, first, front)
    ensures Rounds(trace + [Leases(front)] + [Releases], first, true)
    ensures Disciplined(trace + [Refused(front)], first, true)
    ensures Disciplined(trace + [Leases(front)] + [Releases], first, true)
    decreases |trace|
  {
    var more, end := trace + [Leases(front)] + [Releases], trace + [Refused(front)];
    if trace == [] {
      assert more == [Leases(front), Releases] && end == [Refused(front)];
      assert more[..2] == more && more[2..] == [];
    } else {
      RoundsGoOn(trace[2..], true, front);
      assert more[..2] == trace[..2] && more[2..] == trace[2..] + [Leases(front)] + [Releases];
      assert end[..2] == trace[..2] && end[2..] == trace[2..] + [Refused(front)];
    }
  }

  /** A script under which a relay leaves this trace: a provider that is gone for every round but the last, and then a
      provider without a connection, or an application that left. */
  function Replay(trace: seq<PoolAct>): seq<Grant> {
    if |trace| <= 1 then [JobLeft]
    else if |trace| == 2 then [NoConnection]
    else [Leased(Provider(false, 1, 0, [], ConnectionEnded, []))] + Replay(trace[2..])
  }

  lemma LostTurn(job: Job, body: Text, trailers: seq<Header>, front: bool)
    ensures Turn(job, body, trailers, Leased(Provider(false, 1, 0, [], ConnectionEnded, [])), 0, front)
            == Trace([], [Leases(front), Releases], [[]], Again)
  {
    hide Jobs.Taken, Jobs.Submission, Jobs.Synth;
  }

  lemma LastTurn(job: Job, body: Text, trailers: seq<Header>, front: bool)
    ensures var t := Turn(job, body, trailers, JobLeft, 0, front); t.pool == [Refused(front)] && t.outcome == Abandoned
    ensures var t := Turn(job, body, trailers, NoConnection, 0, front);
            t.pool == [Leases(front), Releases] && t.outcome == Answered
  {
    hide Jobs.Taken, Jobs.Synth;
  }

  lemma {:induction false} ReplayLeaves(job: Job, body: Text, trailers: seq<Header>, trace: seq<PoolAct>, first: bool)
    requires Disciplined(trace, first, true)
    ensures var r := Run(job, body, trailers, Replay(trace), 0, first); r.pool == trace && !r.outcome.Pending?
    decreases |trace|
  {
    hide Turn, Run;
    var script := Replay(trace);
    RunStep(job, body, trailers, script, 0, first);
    LastTurn(job, body, trailers, first);
    if |trace| > 2 {
      LostTurn(job, body, trailers, first);
      ReplayLeaves(job, body, trailers, trace[2..], true);
      assert script[1..] == Replay(trace[2..]);
      assert trace == trace[..2] + trace[2..];
    }
  }

  /** The traces of relays that are through are exactly those the relay's own runs leave when they are over. */
  lemma OverExactly(job: Job, body: Text, trailers: seq<Header>, trace: seq<PoolAct>)
    ensures Disciplined(trace, false, true)
        <==> exists script, room: nat :: var r := Run(job, body, trailers, script, room, false);
               r.pool == trace && !r.outcome.Pending?
  {
    hide Disciplined, Run;
    if Disciplined(trace, false, true) {
      ReplayLeaves(job, body, trailers, trace, false);
    }
    if script, room: nat :|
        (var r := Run(job, body, trailers, script, room, false); r.pool == trace && !r.outcome.Pending?) {
      LeasesComeBack(job, body, trailers, script, room, false);
    }
  }

  // ---------- what every step keeps ----------

  ghost predicate TraceFits(trace: seq<PoolAct>, d: Doing) {
    match d
    case Idle(front) => Rounds(trace, false, front)
    case Asking(_, front) => Rounds(trace, false, front)
    case Has(_, front) => trace != [] && trace[|trace| - 1] == Leases(front)
      && Rounds(trace[..|trace| - 1], false, front)
    case Ended => Disciplined(trace, false, true)
  }

  ghost predicate JobFits(s: Joint, j: nat)
    requires j in s.doing
  {
    match s.doing[j]
    case Asking(t, _) => t in s.pool.jobs && t in s.owner && s.owner[t] == j
    case Has(t, _) => t in s.pool.jobs && t in s.owner && s.owner[t] == j && s.pool.jobs[t] == P.Holding
    case _ => true
  }

  /** A ticket is a relay's, and over unless the relay is still at it. */
  ghost predicate TicketFits(s: Joint, t: nat)
    requires t in s.pool.jobs
  {
    && t in s.owner && s.owner[t] in s.doing
    && (s.pool.jobs[t] in {P.Left, P.Done} ||
        var d := s.doing[s.owner[t]]; (d.Asking? && d.t == t) || (d.Has? && d.t == t))
  }

  ghost predicate Inv(s: Joint) {
    && P.Inv(s.pool) && s.traces.Keys == s.doing.Keys
    && (forall j :: j in s.doing ==> JobFits(s, j) && TraceFits(s.traces[j], s.doing[j]))
    && (forall t :: t in s.pool.jobs ==> TicketFits(s, t))
  }

  /** What an event of the pool does to the tickets: one of them moves, and a lease held is let go only by its release.
      */
  lemma OthersStay(s: P.Sys, e: P.Event, t: nat)
    requires P.Inv(s) && P.Enabled(s, e) && t in s.jobs
    ensures t in P.Next(s, e).jobs
    ensures (!e.AddProvider? && !e.RemoveProvider? ==> e.t != t) ==> P.Next(s, e).jobs[t] == s.jobs[t]
    ensures s.jobs[t] == P.Holding && P.Next(s, e).jobs[t] != P.Holding ==> e == P.ReleaseJob(t)
    ensures s.jobs[t] in {P.Left, P.Done} ==> P.Next(s, e).jobs[t] in {P.Left, P.Done}
  {
    hide Add, Remove, Acquire, Release, Withdraw, Receive, P.Inv;
  }

  lemma NoNewTickets(s: P.Sys, e: P.Event, t: nat)
    requires P.Inv(s) && P.Enabled(s, e) && t in P.Next(s, e).jobs
    ensures t in s.jobs || (e.AcquireJob? && e.t == t)
  {
    hide Add, Remove, Acquire, Release, Withdraw, Receive, P.Inv;
  }

  lemma PoolKeeps(s: Joint, e: P.Event)
    requires Inv(s) && Enabled(s, Around(e))
    ensures Inv(Next(s, Around(e)))
  {
    hide P.Inv, P.Next, P.Enabled, TraceFits;
    P.StepKeeps(s.pool, e);
    var s' := Next(s, Around(e));
    forall j | j in s'.doing ensures JobFits(s', j) {
      assert JobFits(s, j);
      if s.doing[j].Asking? || s.doing[j].Has? {
        OthersStay(s.pool, e, s.doing[j].t);
      }
    }
    forall t | t in s'.pool.jobs ensures TicketFits(s', t) {
      NoNewTickets(s.pool, e, t);
      assert TicketFits(s, t);
      OthersStay(s.pool, e, t);
    }
  }

  lemma AskKeeps(s: Joint, j: nat, t: nat)
    requires Inv(s) && Enabled(s, Asks(j, t))
    ensures Inv(Next(s, Asks(j, t)))
  {
    hide P.Inv, P.Next, TraceFits;
    var e := P.AcquireJob(t, s.doing[j].front);
    P.StepKeeps(s.pool, e);
    var s' := Next(s, Asks(j, t));
    AskedFor(s.pool, t, s.doing[j].front);
    SameFit(s.traces[j], s.doing[j].front, t);
    forall i | i in s'.doing ensures JobFits(s', i) {
      assert JobFits(s, i);
      if i != j && (s.doing[i].Asking? || s.doing[i].Has?) {
        OthersStay(s.pool, e, s.doing[i].t);
      }
    }
    forall u | u in s'.pool.jobs ensures TicketFits(s', u) {
      NoNewTickets(s.pool, e, u);
      if u != t {
        assert TicketFits(s, u);
        OthersStay(s.pool, e, u);
      }
    }
  }

  lemma AskedFor(s: P.Sys, t: nat, front: bool)
    requires P.Inv(s) && t !in s.jobs
    ensures t in P.Next(s, P.AcquireJob(t, front)).jobs
  {
  }

  lemma SameFit(trace: seq<PoolAct>, front: bool, t: nat)
    requires TraceFits(trace, Idle(front))
    ensures TraceFits(trace, Asking(t, front))
  {
  }

  lemma GivesBackKeeps(s: Joint, j: nat, again: bool)
    requires Inv(s) && Enabled(s, GivesBack(j, again))
    ensures P.Enabled(s.pool, P.ReleaseJob(s.doing[j].t))
    ensures Inv(Next(s, GivesBack(j, again)))
  {
    hide P.Inv, P.Next, P.Enabled, TraceFits;
    HasHolds(s, j);
    var d := s.doing[j];
    var e := P.ReleaseJob(d.t);
    ReleasedIsDone(s.pool, d.t);
    P.StepKeeps(s.pool, e);
    LastReleased(s.traces[j], d, again);
    var s' := Next(s, GivesBack(j, again));
    forall i | i in s'.doing ensures JobFits(s', i) {
      OthersHold(s, e, i, j);
    }
    forall i | i in s'.doing ensures TraceFits(s'.traces[i], s'.doing[i]) {
    }
    forall u | u in s'.pool.jobs ensures TicketFits(s', u) {
      NoNewTickets(s.pool, e, u);
      assert TicketFits(s, u);
      OthersStay(s.pool, e, u);
    }
  }

  lemma HasHolds(s: Joint, j: nat)
    requires Inv(s) && j in s.doing && s.doing[j].Has?
    ensures P.Inv(s.pool) && s.doing[j].t in s.pool.jobs && s.pool.jobs[s.doing[j].t] == P.Holding
    ensures s.doing[j].t in s.owner && s.owner[s.doing[j].t] == j && j in s.traces && TraceFits(s.traces[j], s.doing[j])
  {
    hide P.Inv, TraceFits;
    assert JobFits(s, j);
  }

  /** A lease that is released ends a round. */
  lemma LastReleased(trace: seq<PoolAct>, d: Doing, again: bool)
    requires d.Has? && TraceFits(trace, d)
    ensures TraceFits(trace + [Releases], if again then Idle(true) else Ended)
  {
    var init := trace[..|trace| - 1];
    RoundsGoOn(init, false, d.front);
    assert trace == init + [Leases(d.front)];
  }

  /** The other relays stay where they are when j releases its lease. */
  lemma OthersHold(s: Joint, e: P.Event, i: nat, j: nat)
    requires Inv(s) && j in s.doing && s.doing[j].Has? && e == P.ReleaseJob(s.doing[j].t) && i in s.doing
    requires P.Inv(s.pool) && P.Enabled(s.pool, e)
    ensures i != j && (s.doing[i].Asking? || s.doing[i].Has?) ==>
              var t := s.doing[i].t;
              t in s.owner && s.owner[t] == i && t in P.Next(s.pool, e).jobs
                && P.Next(s.pool, e).jobs[t] == s.pool.jobs[t]
    ensures s.doing[i].Has? ==> s.pool.jobs[s.doing[i].t] == P.Holding
  {
    hide P.Inv, P.Next, P.Enabled, TraceFits;
    assert JobFits(s, i) && JobFits(s, j);
    if s.doing[i].Asking? || s.doing[i].Has? {
      OthersStay(s.pool, e, s.doing[i].t);
    }
  }

  lemma ReleasedIsDone(s: P.Sys, t: nat)
    requires P.Inv(s) && t in s.jobs && s.jobs[t] == P.Holding
    ensures P.Enabled(s, P.ReleaseJob(t)) && P.Next(s, P.ReleaseJob(t)).jobs[t] == P.Done
  {
  }

  /** A relay that only moves on by itself leaves everyone else's place as it is. */
  lemma OwnStepKeeps(s: Joint, j: nat, d: Doing, trace: seq<PoolAct>)
    requires Inv(s) && TraceFits(trace, d)
    requires j !in s.doing ==> d.Idle?
    requires j in s.doing ==> s.doing[j].Asking? && s.doing[j].t in s.pool.jobs
    requires j in s.doing && d.Has? ==> d.t == s.doing[j].t && s.pool.jobs[d.t] == P.Holding
    requires j in s.doing && !d.Has? ==> d.Ended? && s.pool.jobs[s.doing[j].t] in {P.Left, P.Done}
    ensures Inv(s.(doing := s.doing[j := d], traces := s.traces[j := trace]))
  {
    hide P.Inv, TraceFits;
    var s' := s.(doing := s.doing[j := d], traces := s.traces[j := trace]);
    forall i | i in s'.doing ensures JobFits(s', i) && TraceFits(s'.traces[i], s'.doing[i]) {
      if i in s.doing {
        assert JobFits(s, i) && TraceFits(s.traces[i], s.doing[i]);
      }
    }
    forall t | t in s'.pool.jobs ensures TicketFits(s', t) {
      assert TicketFits(s, t);
    }
  }

  lemma BeginKeeps(s: Joint, j: nat)
    requires Inv(s) && Enabled(s, Begins(j))
    ensures Inv(Next(s, Begins(j)))
  {
    hide Inv;
    OwnStepKeeps(s, j, Idle(false), []);
  }

  lemma GetKeeps(s: Joint, j: nat)
    requires Inv(s) && Enabled(s, Gets(j))
    ensures Inv(Next(s, Gets(j)))
  {
    hide P.Inv, Rounds;
    var d, trace := s.doing[j], s.traces[j] + [Leases(s.doing[j].front)];
    assert TraceFits(s.traces[j], d);
    assert trace[..|trace| - 1] == s.traces[j];
    OwnStepKeeps(s, j, Has(d.t, d.front), trace);
  }

  lemma RefusalKeeps(s: Joint, j: nat)
    requires Inv(s) && Enabled(s, IsRefused(j))
    ensures Inv(Next(s, IsRefused(j)))
  {
    hide P.Inv, Rounds, Disciplined;
    var d := s.doing[j];
    assert TraceFits(s.traces[j], d);
    RoundsGoOn(s.traces[j], false, d.front);
    OwnStepKeeps(s, j, Ended, s.traces[j] + [Refused(d.front)]);
  }

  lemma StepKeeps(s: Joint, e: Event)
    requires Inv(s) && Enabled(s, e)
    ensures Inv(Next(s, e))
  {
    hide Inv, Next, Enabled;
    match e
    case Around(a) => PoolKeeps(s, a);
    case Asks(j, t) => AskKeeps(s, j, t);
    case GivesBack(j, again) => GivesBackKeeps(s, j, again);
    case Begins(j) => BeginKeeps(s, j);
    case Gets(j) => GetKeeps(s, j);
    case IsRefused(j) => RefusalKeeps(s, j);
  }

  // ---------- runs ----------

  const START := Joint(P.EMPTY, map[], map[], map[])

  ghost predicate Possible(s: Joint, run: seq<Event>)
    requires Inv(s)
    decreases |run|
  {
    run == [] || (Enabled(s, run[0]) && (StepKeeps(s, run[0]); Possible(Next(s, run[0]), run[1..])))
  }

  ghost function After(s: Joint, run: seq<Event>): (s': Joint)
    requires Inv(s) && Possible(s, run)
    ensures Inv(s')
    decreases |run|
  {
    if run == [] then s else (StepKeeps(s, run[0]); After(Next(s, run[0]), run[1..]))
  }

  lemma StartInv()
    ensures Inv(START)
  {
    P.EmptyInv();
  }

  /** What the pool sees of a step. */
  function Seen(s: Joint, e: Event): seq<P.Event>
    requires Enabled(s, e)
  {
    match e
    case Around(a) => [a]
    case Asks(j, t) => [P.AcquireJob(t, s.doing[j].front)]
    case GivesBack(j, _) => [P.ReleaseJob(s.doing[j].t)]
    case _ => []
  }

  lemma SeenIsPossible(s: Joint, e: Event)
    requires Inv(s) && Enabled(s, e)
    ensures P.Inv(s.pool) && P.Possible(s.pool, Seen(s, e)) && Next(s, e).pool == P.After(s.pool, Seen(s, e))
  {
    hide P.Inv, P.Next, Disciplined, Rounds;
    if e.GivesBack? {
      assert JobFits(s, e.j);
      ReleasedIsDone(s.pool, s.doing[e.j].t);
    }
    if e.Around? || e.Asks? || e.GivesBack? {
      P.StepKeeps(s.pool, Seen(s, e)[0]);
      assert Seen(s, e)[1..] == [];
    }
  }

  /** What the pool sees of a run, event by event. */
  ghost function SeenOf(s: Joint, run: seq<Event>): seq<P.Event>
    requires Inv(s) && Possible(s, run)
    decreases |run|
  {
    if run == [] then [] else (StepKeeps(s, run[0]); Seen(s, run[0]) + SeenOf(Next(s, run[0]), run[1..]))
  }

  /** However relays interleave, what the pool sees of it is a run it can have, and ends in the pool's state: every
      theorem about the pool's runs is one about relays. */
  lemma {:induction false} RelaysAreRuns(s: Joint, run: seq<Event>)
    requires Inv(s) && Possible(s, run)
    ensures P.Inv(s.pool) && P.Possible(s.pool, SeenOf(s, run))
    ensures P.After(s.pool, SeenOf(s, run)) == After(s, run).pool
    decreases |run|
  {
    hide P.Inv, P.Next, Next, Enabled, Inv, Seen;
    if run == [] {
      PoolInv(s);
    } else {
      StepKeeps(s, run[0]);
      SeenIsPossible(s, run[0]);
      RelaysAreRuns(Next(s, run[0]), run[1..]);
      P.RunsOn(s.pool, Seen(s, run[0]), SeenOf(Next(s, run[0]), run[1..]));
    }
  }

  lemma PoolInv(s: Joint)
    requires Inv(s)
    ensures P.Inv(s.pool)
  {
  }

  /** A run from the start, when nobody has begun, and the state it leads to. */
  ghost predicate Runs(run: seq<Event>) {
    StartInv();
    Possible(START, run)
  }

  ghost function State(run: seq<Event>): (s: Joint)
    requires Runs(run)
    ensures Inv(s)
  {
    StartInv();
    After(START, run)
  }

  /** When every relay is through, every slot is back, and each has done to the pool what a relay's run does. */
  lemma AllJobsOver(run: seq<Event>, p: nat)
    requires Runs(run) && p in State(run).pool.svc.provs
    requires forall j :: j in State(run).doing ==> State(run).doing[j].Ended?
    ensures State(run).pool.svc.provs[p].busy == 0
    ensures forall j :: j in State(run).doing ==>
              j in State(run).traces && Disciplined(State(run).traces[j], false, true)
  {
    hide P.Inv, Disciplined;
    var s := State(run);
    forall t | t in s.pool.jobs ensures s.pool.jobs[t] in {P.Left, P.Done} {
      assert TicketFits(s, t);
    }
    P.AllSlotsBack(s.pool, p);
    forall j | j in s.doing ensures j in s.traces && Disciplined(s.traces[j], false, true) {
      assert TraceFits(s.traces[j], s.doing[j]);
    }
  }

  /** A relay that holds a lease can release it in the pool, whatever the others have done meanwhile. */
  lemma ReleaseIsPossible(s: Joint, j: nat)
    requires Inv(s) && j in s.doing && s.doing[j].Has?
    ensures P.Enabled(s.pool, P.ReleaseJob(s.doing[j].t))
  {
    assert JobFits(s, j);
  }
}
