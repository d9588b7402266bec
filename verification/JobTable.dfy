/** The jobs of one connection: how ids are given out and taken in, and who closes the inbox of a job that leaves. */
module JobTable {
  import opened Wire
  import Inbox
  import Jobs

  // ---------- under the lock ----------

  /** Q is what stands for a job's queue: the object itself, or its number in a run. */
  datatype Table<Q> = Table(next: nat, jobs: map<nat, Q>, err: Option<Text>)

  /** Whose numbering an id belongs to: the server's are even, a client's odd. */
  predicate Mine(role: Role, id: nat) {
    (id % 2 == 0) == role.Server?
  }

  function First(role: Role): nat {
    if role.Server? then 2 else 1
  }

  predicate Opens<Q>(t: Table<Q>, id: nat) {
    t.err.None? && id !in t.jobs
  }

  function WithNew<Q>(t: Table<Q>, q: Q): Table<Q> {
    if t.err.Some? then t else t.(next := t.next + 2, jobs := t.jobs[t.next := q])
  }

  function WithOpened<Q>(t: Table<Q>, id: nat, q: Q): Table<Q> {
    if Opens(t, id) then t.(jobs := t.jobs[id := q]) else t
  }

  function Without<Q>(t: Table<Q>, id: nat): Table<Q> {
    t.(jobs := t.jobs - {id})
  }

  function Failed<Q>(t: Table<Q>, why: Text): Table<Q> {
    if t.err.Some? then t else t.(jobs := map[], err := Some(why))
  }

  const JOB_ENDED: Text := Ascii("peer: job ended")

  /** What becomes of a message that came in. */
  datatype Taken = Ignored | Pushed | Started(q: Inbox.JobQueue) | OutOfStep

  class Conn {
    const role: Role
    var nextJob: nat
    var jobs: map<nat, Inbox.JobQueue>
    var err: Option<Text>

    ghost function View(): Table<Inbox.JobQueue>
      reads this
    {
      Table(nextJob, jobs, err)
    }

    /** No two jobs share a queue. */
    ghost predicate Valid()
      reads this
    {
      forall a, b :: a in jobs && b in jobs && jobs[a] == jobs[b] ==> a == b
    }

    constructor (role: Role)
      ensures Valid() && View() == Table(First(role), map[], None) && this.role == role
    {
      this.role, nextJob, jobs, err := role, First(role), map[], None;
    }

    /** The next id of this side's numbering, with a queue of its own. */
    method NewJob() returns (id: nat, q: Inbox.JobQueue)
      requires Valid()
      modifies this
      ensures Valid() && fresh(q) && q.View() == Inbox.EMPTY
      ensures View() == WithNew(old(View()), q) && id == old(nextJob)
    {
      id := nextJob;
      q := new Inbox.JobQueue();
      if err.Some? {
        return;
      }
      nextJob := nextJob + 2;
      jobs := jobs[id := q];
    }

    /** A queue for a job of the peer's, unless one of that id is running. */
    method OpenJob(id: nat) returns (q: Inbox.JobQueue, ok: bool)
      requires Valid()
      modifies this
      ensures Valid() && fresh(q) && q.View() == Inbox.EMPTY
      ensures View() == WithOpened(old(View()), id, q) && ok == Opens(old(View()), id)
    {
      q := new Inbox.JobQueue();
      ok := err.None? && id !in jobs;
      if ok {
        jobs := jobs[id := q];
      }
    }

    /** Forgets a job and closes its queue. */
    method EndJob(id: nat)
      requires Valid()
      modifies this, if id in jobs then {jobs[id]} else {}
      ensures Valid() && View() == Without(old(View()), id)
      ensures id in old(jobs) ==> old(jobs)[id].View() == Inbox.Shut(old(jobs[id].View()), JOB_ENDED)
    {
      if id in jobs {
        var q := jobs[id];
        jobs := jobs - {id};
        q.Close(JOB_ENDED);
      } else {
        assert jobs - {id} == jobs;
      }
    }

    /** Ends the connection and closes the queue of every job on it with the same reason; the first reason stands. */
    method Fail(why: Text)
      requires Valid()
      modifies this, jobs.Values
      ensures Valid() && View() == Failed(old(View()), why)
      ensures forall q :: q in old(jobs.Values) ==>
                q.View() == if old(err).Some? then old(q.View()) else Inbox.Shut(old(q.View()), why)
    {
      hide Inbox.Shut;
      if err.Some? {
        return;
      }
      err := Some(why);
      var queues := jobs.Values;
      jobs := map[];
      CloseAll(queues, why);
    }

    static method CloseAll(queues: set<Inbox.JobQueue>, why: Text)
      modifies queues
      ensures forall q :: q in queues ==> q.View() == Inbox.Shut(old(q.View()), why)
    {
      hide Inbox.Shut;
      var left := queues;
      while left != {}
        invariant left <= queues
        invariant forall q :: q in left ==> q.View() == old(q.View())
        invariant forall q :: q in queues - left ==> q.View() == Inbox.Shut(old(q.View()), why)
        decreases |left|
      {
        var q :| q in left;
        q.Close(why);
        left := left - {q};
      }
    }

    /** Hands one message to whatever it is about. */
    method Dispatch(m: Message) returns (taken: Taken)
      requires Valid()
      modifies this, jobs.Values
      ensures Valid()
      ensures match taken
              case Ignored => m.Ping? || m.Pong? || (m.Jobbed() && !m.Request? && m.job !in old(jobs))
              case Pushed =>
                m.Jobbed() && !m.Request? && m.job in old(jobs)
                && old(jobs)[m.job].View() == Inbox.Pushed(old(jobs[m.job].View()), m)
              case Started(q) => m.Request? && !Mine(role, m.job) && Opens(old(View()), m.job) && fresh(q)
                && q.View() == Inbox.EMPTY
              case OutOfStep => m.Hello? || (m.Request? && (Mine(role, m.job) || !Opens(old(View()), m.job)))
      ensures View() == if taken.Started? then WithOpened(old(View()), m.job, taken.q) else old(View())
      ensures forall q :: q in old(jobs.Values) && !(taken.Pushed? && q == old(jobs)[m.job]) ==>
                q.View() == old(q.View())
    {
      match m {
        case Ping => return Ignored;
        case Pong => return Ignored;
        case Hello(_, _) => return OutOfStep;
        case Request(id, _, _, _, _) =>
          if Mine(role, id) {
            return OutOfStep;
          }
          var q, ok := OpenJob(id);
          return if ok then Started(q) else OutOfStep;
        case _ =>
          if m.job !in jobs {
            return Ignored;
          }
          jobs[m.job].Push(m);
          return Pushed;
      }
    }

    /** The read loop over what comes in, until a peer is out of step, which ends the connection. Whichever job is open
        when it starts, its queue gets exactly the messages about it, in order. */
    method Run(ms: seq<Message>, why: Text, ghost id: u64) returns (n: nat)
      requires Valid() && err.None? && id in jobs && jobs[id].err.None?
      modifies this, jobs.Values
      ensures n <= |ms| && old(jobs)[id].items == old(jobs[id].items) + Jobs.About(id, ms[..n])
      ensures n == |ms| ==> err.None? && id in jobs && jobs[id] == old(jobs)[id] && jobs[id].err.None?
      ensures n < |ms| ==> (ms[n].Hello? || ms[n].Request?) && View() == Table(nextJob, map[], Some(why))
      ensures n < |ms| ==> old(jobs)[id].err == Some(why)
    {
      hide Jobs.About;
      NothingAbout(id);
      ghost var q, mine := jobs[id], jobs.Values;
      n := 0;
      while n < |ms|
        invariant 0 <= n <= |ms| && Valid() && err.None? && id in jobs && jobs[id] == q
        invariant forall o :: o in jobs.Values ==> o in mine || fresh(o)
        invariant q.err.None? && q.items == old(q.items) + Jobs.About(id, ms[..n])
      {
        assert ms[..n + 1] == ms[..n] + [ms[n]];
        Jobs.AboutMore(id, ms[..n], ms[n]);
        var taken := Dispatch(ms[n]);
        if taken.OutOfStep? {
          ghost var was := q.View();
          ShutIs(was, why);
          assert q in jobs.Values && was.items == old(q.items) + Jobs.About(id, ms[..n]);
          hide Inbox.Shut;
          Fail(why);
          assert q.View() == Inbox.Shut(was, why);
          return;
        }
        n := n + 1;
      }
      assert ms[..n] == ms;
    }
  }

  lemma ShutIs(q: Inbox.Queue, why: Text)
    requires q.err.None?
    ensures Inbox.Shut(q, why).items == q.items && Inbox.Shut(q, why).err == Some(why)
  {
  }

  lemma NothingAbout(id: u64)
    ensures Jobs.About(id, []) == []
  {
  }

  // ---------- the operations of many goroutines ----------

  /** The table, the queues made so far, numbered, the ones an operation took out and is about to close, the closed
      ones, and the ids given out and let in. */
  datatype Sys = Sys(t: Table<nat>, made: nat, closing: set<nat>, closed: set<nat>, issued: seq<nat>,
      admitted: set<nat>)

  /** The lock sections, and between them the closing of one queue that was taken out. */
  datatype Event =
    | New
    | Start(id: nat)
    | Forget(id: nat)
    | BreakDown(why: Text)
    | CloseTaken(q: nat)

  function Values(m: map<nat, nat>): set<nat> {
    set id | id in m.Keys :: m[id]
  }

  predicate Enabled(s: Sys, e: Event) {
    match e
    case CloseTaken(q) => q in s.closing
    case _ => true
  }

  function Next(role: Role, s: Sys, e: Event): Sys {
    match e
    case New =>
      if s.t.err.Some? then s
      else s.(t := WithNew(s.t, s.made), made := s.made + 1, issued := s.issued + [s.t.next])
    case Start(id) =>
      if Mine(role, id) || !Opens(s.t, id) then s
      else s.(t := WithOpened(s.t, id, s.made), made := s.made + 1, admitted := s.admitted + {id})
    case Forget(id) =>
      s.(t := Without(s.t, id), closing := s.closing + if id in s.t.jobs then {s.t.jobs[id]} else {})
    case BreakDown(why) =>
      if s.t.err.Some? then s else s.(t := Failed(s.t, why), closing := s.closing + Values(s.t.jobs))
    case CloseTaken(q) => s.(closing := s.closing - {q}, closed := s.closed + {q})
  }

  function Begin(role: Role): Sys {
    Sys(Table(First(role), map[], None), 0, {}, {}, [], {})
  }

  predicate Possible(role: Role, s: Sys, run: seq<Event>)
    decreases |run|
  {
    run == [] || (Enabled(s, run[0]) && Possible(role, Next(role, s, run[0]), run[1..]))
  }

  function After(role: Role, s: Sys, run: seq<Event>): Sys
    requires Possible(role, s, run)
    decreases |run|
  {
    if run == [] then s else After(role, Next(role, s, run[0]), run[1..])
  }

  /** A queue is in exactly one place: in the table under one id, taken out and about to be closed, or closed. */
  ghost predicate Placed(s: Sys) {
    && (forall a, b :: a in s.t.jobs && b in s.t.jobs && s.t.jobs[a] == s.t.jobs[b] ==> a == b)
    && (forall q: nat :: q < s.made <==> q in Values(s.t.jobs) || q in s.closing || q in s.closed)
    && Values(s.t.jobs) !! s.closing && Values(s.t.jobs) !! s.closed && s.closing !! s.closed
  }

  ghost predicate Numbered(role: Role, s: Sys) {
    && s.t.next == First(role) + 2 * |s.issued|
    && (forall i :: 0 <= i < |s.issued| ==> s.issued[i] == First(role) + 2 * i)
    && (forall id :: id in s.admitted ==> !Mine(role, id))
    && (forall id :: id in s.t.jobs ==> if Mine(role, id) then id in s.issued else id in s.admitted)
  }

  ghost predicate Inv(role: Role, s: Sys) {
    Placed(s) && Numbered(role, s) && (s.t.err.Some? ==> s.t.jobs == map[])
  }

  lemma InTable(m: map<nat, nat>, id: nat)
    requires id in m
    ensures m[id] in Values(m)
  {
  }

  lemma MorePlaced(s: Sys, s': Sys, id: nat)
    requires Placed(s) && id !in s.t.jobs
    requires s'.t.jobs == s.t.jobs[id := s.made] && s'.made == s.made + 1 && s'.closing == s.closing
             && s'.closed == s.closed
    ensures Placed(s')
  {
    var jobs, jobs' := s.t.jobs, s'.t.jobs;
    assert s.made !in Values(jobs) && s.made !in s.closing && s.made !in s.closed;
    forall q ensures q in Values(jobs') <==> q in Values(jobs) || q == s.made {
      if q in Values(jobs) {
        var a :| a in jobs && jobs[a] == q;
        InTable(jobs', a);
      }
      InTable(jobs', id);
    }
    forall a | a in jobs ensures jobs[a] != s.made {
      InTable(jobs, a);
    }
  }

  lemma FewerPlaced(s: Sys, id: nat)
    requires Placed(s) && id in s.t.jobs
    ensures Placed(s.(t := Without(s.t, id), closing := s.closing + {s.t.jobs[id]}))
  {
    var jobs, jobs' := s.t.jobs, s.t.jobs - {id};
    InTable(jobs, id);
    forall q ensures q in Values(jobs') <==> q in Values(jobs) && q != jobs[id] {
      if q in Values(jobs) && q != jobs[id] {
        var a :| a in jobs && jobs[a] == q;
        InTable(jobs', a);
      }
    }
  }

  lemma NextIsMine(role: Role, s: Sys)
    requires Numbered(role, s)
    ensures Mine(role, s.t.next)
  {
  }

  lemma NewIsUnused(role: Role, s: Sys)
    requires Numbered(role, s)
    ensures s.t.next !in s.t.jobs
  {
  }

  lemma PlacedKeeps(role: Role, s: Sys, e: Event)
    requires Placed(s) && Enabled(s, e) && s.t.next !in s.t.jobs
    ensures Placed(Next(role, s, e))
  {
    hide Placed;
    match e
    case New =>
      if s.t.err.None? {
        MorePlaced(s, Next(role, s, e), s.t.next);
      }
    case Start(id) =>
      if !Mine(role, id) && Opens(s.t, id) {
        MorePlaced(s, Next(role, s, e), id);
      }
    case Forget(id) =>
      if id in s.t.jobs {
        FewerPlaced(s, id);
      } else {
        assert s.t.jobs - {id} == s.t.jobs && s.closing + {} == s.closing;
      }
    case BreakDown(why) =>
      if s.t.err.None? {
        AllTakenOut(s, why);
      }
    case CloseTaken(q) => OneClosed(s, q);
  }

  lemma NumberedKeeps(role: Role, s: Sys, e: Event)
    requires Numbered(role, s) && Enabled(s, e)
    ensures Numbered(role, Next(role, s, e))
  {
    hide Values;
  }

  lemma StepKeeps(role: Role, s: Sys, e: Event)
    requires Inv(role, s) && Enabled(s, e)
    ensures Inv(role, Next(role, s, e))
  {
    hide Placed, Numbered;
    NewIsUnused(role, s);
    PlacedKeeps(role, s, e);
    NumberedKeeps(role, s, e);
  }

  lemma AllTakenOut(s: Sys, why: Text)
    requires Placed(s) && s.t.err.None?
    ensures Placed(s.(t := Failed(s.t, why), closing := s.closing + Values(s.t.jobs)))
  {
    assert Values(map[]) == {};
  }

  lemma OneClosed(s: Sys, q: nat)
    requires Placed(s) && q in s.closing
    ensures Placed(s.(closing := s.closing - {q}, closed := s.closed + {q}))
  {
  }

  lemma {:induction false} RunKeeps(role: Role, s: Sys, run: seq<Event>)
    requires Inv(role, s) && Possible(role, s, run)
    ensures Inv(role, After(role, s, run))
    decreases |run|
  {
    if run != [] {
      StepKeeps(role, s, run[0]);
      RunKeeps(role, Next(role, s, run[0]), run[1..]);
    }
  }

  lemma BeginInv(role: Role)
    ensures Inv(role, Begin(role))
  {
    var s := Begin(role);
    assert Values(s.t.jobs) == {};
    assert Placed(s);
    assert Numbered(role, s);
  }

  // ---------- what every interleaving gives ----------

  /** The ids a server gives out are 2, 4, 6 and so on, those of a client 1, 3, 5 and so on; the peer is let in with
      the others only, and no job runs under an id that was neither given out nor let in. */
  lemma IdsNeverCollide(role: Role, run: seq<Event>, i: nat)
    requires Possible(role, Begin(role), run) && i < |After(role, Begin(role), run).issued|
    ensures var s := After(role, Begin(role), run);
            && s.issued[i] == (if role == Server then 2 else 1) + 2 * i
            && (forall id :: id in s.admitted ==> id % 2 == if role == Server then 1 else 0)
            && s.issued[i] !in s.admitted
            && forall id :: id in s.t.jobs ==> id in s.issued || id in s.admitted
  {
    hide Placed, Numbered, Possible, After;
    BeginInv(role);
    RunKeeps(role, Begin(role), run);
    IssuedInOrder(role, After(role, Begin(role), run), i);
  }

  lemma IssuedInOrder(role: Role, s: Sys, i: nat)
    requires Numbered(role, s) && i < |s.issued|
    ensures s.issued[i] == (if role == Server then 2 else 1) + 2 * i && s.issued[i] !in s.admitted
    ensures forall id :: id in s.admitted ==> id % 2 == if role == Server then 1 else 0
    ensures forall id :: id in s.t.jobs ==> id in s.issued || id in s.admitted
  {
  }

  /** Nobody is left reading an inbox that nothing will ever close: a queue that is not in the table is closed, or the
      operation that took it out has yet to close it. */
  lemma NobodyStranded(role: Role, run: seq<Event>, q: nat)
    requires Possible(role, Begin(role), run) && q < After(role, Begin(role), run).made
    ensures var s := After(role, Begin(role), run);
            && (q in Values(s.t.jobs) || Enabled(s, CloseTaken(q)) || q in s.closed)
            && (s.t.err.Some? ==> q !in Values(s.t.jobs))
  {
    BeginInv(role);
    RunKeeps(role, Begin(role), run);
  }

  /** Once a connection has failed it stays failed for the same reason, without jobs, and gives out no more ids. */
  lemma {:induction false} FailedForGood(role: Role, s: Sys, run: seq<Event>)
    requires Inv(role, s) && s.t.err.Some? && Possible(role, s, run)
    ensures var s' := After(role, s, run);
            s'.t.err == s.t.err && s'.t.jobs == map[] && s'.made == s.made && s'.issued == s.issued
              && s.closed <= s'.closed
    decreases |run|
  {
    if run != [] {
      StepKeeps(role, s, run[0]);
      FailedForGood(role, Next(role, s, run[0]), run[1..]);
    }
  }

  // ---------- ids that come again ----------

  /** Whether a job of this id is open behind a run, if the connection lives: the last Start or Forget of it says. */
  function OpenAfter(running: bool, run: seq<Event>, id: nat): bool
    decreases |run|
  {
    if run == [] then running
    else OpenAfter(if run[0] == Start(id) then true else if run[0] == Forget(id) then false else running, run[1..], id)
  }

  lemma {:induction false} OpenExactly(role: Role, s: Sys, run: seq<Event>, id: nat)
    requires Inv(role, s) && Possible(role, s, run) && !Mine(role, id)
    ensures var s' := After(role, s, run);
            s'.t.err.None? ==> s.t.err.None? && (id in s'.t.jobs <==> OpenAfter(id in s.t.jobs, run, id))
    decreases |run|
  {
    hide Placed, Numbered, Values;
    if run != [] {
      StepKeeps(role, s, run[0]);
      NextIsMine(role, s);
      OpenExactly(role, Next(role, s, run[0]), run[1..], id);
    }
  }

  /** A peer's REQUEST for an id opens a job exactly if the connection lives, the id is one of the peer's and no job of
      that id is open: the first time, and then again after every end of it. */
  lemma OpenedExactly(role: Role, run: seq<Event>, id: nat)
    requires Possible(role, Begin(role), run)
    ensures var s := After(role, Begin(role), run);
            Next(role, s, Start(id)).made == s.made + 1 <==>
              s.t.err.None? && id % 2 == (if role == Server then 1 else 0) && !OpenAfter(false, run, id)
  {
    BeginInv(role);
    if !Mine(role, id) {
      OpenExactly(role, Begin(role), run, id);
    }
  }

  /** As long as nobody has forgotten it, an open id is not opened again. */
  lemma NotAgainUntilForgotten(role: Role, s: Sys, run: seq<Event>, id: nat)
    requires Inv(role, s) && Possible(role, s, run) && !Mine(role, id) && id in s.t.jobs && Forget(id) !in run
    ensures var s' := After(role, s, run); Next(role, s', Start(id)) == s'
  {
    OpenExactly(role, s, run, id);
    StillOpen(run, id);
  }

  lemma {:induction false} StillOpen(run: seq<Event>, id: nat)
    requires Forget(id) !in run
    ensures OpenAfter(true, run, id)
    decreases |run|
  {
    if run != [] {
      StillOpen(run[1..], id);
    }
  }

  /** An id can come again on one connection: the second REQUEST gets a queue of its own. */
  lemma IdComesAgain(id: nat)
    requires !Mine(Server, id)
    ensures var run := [Start(id), Forget(id), Start(id)];
            Possible(Server, Begin(Server), run) && After(Server, Begin(Server), run).made == 2
  {
    var s0 := Begin(Server);
    var s1 := Next(Server, s0, Start(id));
    var s2 := Next(Server, s1, Forget(id));
    var s3 := Next(Server, s2, Start(id));
    assert s1.made == 1 && id in s1.t.jobs && s1.t.err.None?;
    assert s2.made == 1 && id !in s2.t.jobs && s2.t.err.None?;
    assert s3.made == 2;
    hide Next, Possible, After;
    NoSteps(Server, s3);
    FirstStep(Server, s2, Start(id), []);
    FirstStep(Server, s1, Forget(id), [Start(id)] + []);
    FirstStep(Server, s0, Start(id), [Forget(id)] + ([Start(id)] + []));
    assert [Start(id)] + ([Forget(id)] + ([Start(id)] + [])) == [Start(id), Forget(id), Start(id)];
  }

  lemma NoSteps(role: Role, s: Sys)
    ensures Possible(role, s, []) && After(role, s, []) == s
  {
  }

  lemma FirstStep(role: Role, s: Sys, e: Event, rest: seq<Event>)
    requires Enabled(s, e) && Possible(role, Next(role, s, e), rest)
    ensures Possible(role, s, [e] + rest) && After(role, s, [e] + rest) == After(role, Next(role, s, e), rest)
  {
    hide Next;
    assert ([e] + rest)[1..] == rest;
  }
}
