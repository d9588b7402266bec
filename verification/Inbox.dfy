/** One job's inbox between the read loop and the goroutine that runs the job: unbounded, closed once with a reason,
    and woken by closing a channel and making the next. */
module Inbox {
  import opened Wire

  // ---------- under the lock ----------

  /** The channels a queue makes are numbered; ready is the one that stands, and those before it are closed. */
  datatype Queue = Queue(items: seq<Message>, err: Option<Text>, ready: nat)

  const EMPTY := Queue([], None, 0)

  function Pushed(q: Queue, m: Message): Queue {
    if q.err.Some? then q else Queue(q.items + [m], q.err, q.ready + 1)
  }

  function Shut(q: Queue, why: Text): Queue {
    if q.err.Some? then q else Queue(q.items, Some(why), q.ready + 1)
  }

  /** What a reader finds: a message, the reason there will be none, or the channel to wait on. */
  datatype Found = Got(m: Message) | Ended(why: Text) | WaitOn(ready: nat)

  function Look(q: Queue): (Queue, Found) {
    if q.items != [] then (q.(items := q.items[1..]), Got(q.items[0]))
    else if q.err.Some? then (q, Ended(q.err.value))
    else (q, WaitOn(q.ready))
  }

  class JobQueue {
    var items: seq<Message>
    var err: Option<Text>
    var ready: nat

    ghost function View(): Queue
      reads this
    {
      Queue(items, err, ready)
    }

    constructor ()
      ensures View() == EMPTY
    {
      items, err, ready := [], None, 0;
    }

    method Wake()
      modifies this`ready
      ensures ready == old(ready) + 1
    {
      ready := ready + 1;
    }

    method Push(m: Message)
      modifies this
      ensures View() == Pushed(old(View()), m)
    {
      if err.Some? {
        return;
      }
      items := items + [m];
      Wake();
    }

    method Close(why: Text)
      modifies this
      ensures View() == Shut(old(View()), why)
    {
      if err.Some? {
        return;
      }
      err := Some(why);
      Wake();
    }

    /** The part of next that holds the lock. */
    method LookOnce() returns (found: Found)
      modifies this
      ensures (View(), found) == Look(old(View()))
    {
      if |items| > 0 {
        var m := items[0];
        items := items[1..];
        return Got(m);
      }
      if err.Some? {
        return Ended(err.value);
      }
      return WaitOn(ready);
    }

    /** Waits for the next message, while others do one thing after another to the queue or the context ends. */
    method Next(others: seq<Act>) returns (answer: Answer)
      modifies this
      ensures answer == Awaited(old(View()), others)
      ensures View() == match answer
                        case Message(_) => Look(Reached(old(View()), others)).0
                        case _ => Reached(old(View()), others)
    {
      var i := 0;
      while true
        invariant 0 <= i <= |others|
        invariant i == 0 ==> View() == old(View())
        invariant i > 0 ==>
                    && Waits(old(View())) && i == 1 && !others[0].ContextEnds?
                    && View() == Done(old(View()), others[0])
        decreases |others| - i
      {
        var found := LookOnce();
        match found {
          case Got(m) => return Message(m);
          case Ended(why) => return Reason(why);
          case WaitOn(channel) =>
            while ready == channel
              invariant 0 <= i <= |others| && Waits(old(View()))
              invariant if i == 0 then View() == old(View()) && ready == channel
                        else
                          && i == 1 && ready != channel && !others[0].ContextEnds?
                          && View() == Done(old(View()), others[0])
              decreases |others| - i
            {
              if i == |others| {
                return StillWaiting;
              }
              match others[i] {
                case Pushes(m) => Push(m);
                case Closes(why) => Close(why);
                case ContextEnds => return ContextOver;
              }
              i := i + 1;
            }
        }
      }
    }
  }

  /** What happens while a reader waits. */
  datatype Act = Pushes(m: Message) | Closes(why: Text) | ContextEnds

  datatype Answer = Message(m: Message) | Reason(why: Text) | ContextOver | StillWaiting

  function Done(q: Queue, act: Act): Queue {
    match act
    case Pushes(m) => Pushed(q, m)
    case Closes(why) => Shut(q, why)
    case ContextEnds => q
  }

  predicate Waits(q: Queue) {
    q.items == [] && q.err.None?
  }

  /** The queue a reader finds when it need not wait any more: as it stands, or after the one act that wakes it. */
  function Reached(q: Queue, others: seq<Act>): Queue {
    if Waits(q) && others != [] then Done(q, others[0]) else q
  }

  /** What one call of next gives: what is there, else what comes first. */
  function Awaited(q: Queue, others: seq<Act>): Answer {
    if q.items != [] then Message(q.items[0])
    else if q.err.Some? then Reason(q.err.value)
    else if others == [] then StillWaiting
    else
      match others[0]
      case Pushes(m) => Message(m)
      case Closes(why) => Reason(why)
      case ContextEnds => ContextOver
  }

  // ---------- readers around it ----------

  /** Where one call of next is. */
  datatype Phase = Looking | Blocked(on: nat)

  /** The queue, the calls of next under way, and what has happened: pushes that were taken in, messages that were
      handed out, in order, and the reasons that were given for there being no more. */
  datatype Sys = Sys(q: Queue, readers: map<nat, Phase>, accepted: seq<Message>, handed: seq<Message>,
      reasons: set<Text>)

  /** What can happen, in any order: a push, a close, a call of next, its look under the lock, its waking when the
      channel it waits on is closed, its giving up because its context ended. */
  datatype Event =
    | Push(m: Message)
    | Close(why: Text)
    | Call(r: nat)
    | TakeALook(r: nat)
    | WakeUp(r: nat)
    | GiveUp(r: nat)

  predicate Enabled(s: Sys, e: Event) {
    match e
    case Push(_) => true
    case Close(_) => true
    case Call(r) => r !in s.readers
    case TakeALook(r) => r in s.readers && s.readers[r].Looking?
    case WakeUp(r) => r in s.readers && s.readers[r].Blocked? && s.readers[r].on < s.q.ready
    case GiveUp(r) => r in s.readers && s.readers[r].Blocked?
  }

  function Next(s: Sys, e: Event): Sys
    requires Enabled(s, e)
  {
    match e
    case Push(m) => s.(q := Pushed(s.q, m), accepted := if s.q.err.Some? then s.accepted else s.accepted + [m])
    case Close(why) => s.(q := Shut(s.q, why))
    case Call(r) => s.(readers := s.readers[r := Looking])
    case TakeALook(r) =>
      var (q, found) := Look(s.q);
      (match found
       case Got(m) => s.(q := q, readers := s.readers - {r}, handed := s.handed + [m])
       case Ended(why) => s.(q := q, readers := s.readers - {r}, reasons := s.reasons + {why})
       case WaitOn(ready) => s.(q := q, readers := s.readers[r := Blocked(ready)]))
    case WakeUp(r) => s.(readers := s.readers[r := Looking])
    case GiveUp(r) => s.(readers := s.readers - {r})
  }

  const START := Sys(EMPTY, map[], [], [], {})

  predicate Possible(s: Sys, run: seq<Event>)
    decreases |run|
  {
    run == [] || (Enabled(s, run[0]) && Possible(Next(s, run[0]), run[1..]))
  }

  function After(s: Sys, run: seq<Event>): Sys
    requires Possible(s, run)
    decreases |run|
  {
    if run == [] then s else After(Next(s, run[0]), run[1..])
  }

  ghost predicate Inv(s: Sys) {
    && s.handed + s.q.items == s.accepted
    && (forall r :: r in s.readers && s.readers[r].Blocked? ==> s.readers[r].on <= s.q.ready)
    && (forall r :: r in s.readers && s.readers[r].Blocked? && s.readers[r].on == s.q.ready ==>
          s.q.items == [] && s.q.err.None?)
    && (forall why :: why in s.reasons ==> s.q.err == Some(why) && s.q.items == [])
  }

  lemma StepKeeps(s: Sys, e: Event)
    requires Inv(s) && Enabled(s, e)
    ensures Inv(Next(s, e))
  {
    match e
    case Push(m) => assert s.handed + (s.q.items + [m]) == s.handed + s.q.items + [m];
    case TakeALook(r) =>
      if s.q.items != [] {
        assert s.q.items == [s.q.items[0]] + s.q.items[1..];
      }
    case _ =>
  }

  lemma {:induction false} RunKeeps(s: Sys, run: seq<Event>)
    requires Inv(s) && Possible(s, run)
    ensures Inv(After(s, run))
    decreases |run|
  {
    if run != [] {
      StepKeeps(s, run[0]);
      RunKeeps(Next(s, run[0]), run[1..]);
    }
  }

  // ---------- what every interleaving gives ----------

  /** A reader whose channel nobody has closed waits for good reason: nothing is queued and the queue is open. So
      whenever there is a message or an end to tell, every reader that waits can wake. */
  lemma NoLostWakeUp(run: seq<Event>, r: nat)
    requires Possible(START, run) && r in After(START, run).readers && After(START, run).readers[r].Blocked?
    ensures var s := After(START, run);
            Enabled(s, WakeUp(r)) || (s.q.items == [] && s.q.err.None?)
  {
    RunKeeps(START, run);
  }

  /** The pushes of a run that come before its first close. */
  function BeforeClose(run: seq<Event>): seq<Message> {
    if run == [] || run[0].Close? then []
    else if run[0].Push? then [run[0].m] + BeforeClose(run[1..])
    else BeforeClose(run[1..])
  }

  function FirstClose(run: seq<Event>): Option<Text> {
    if run == [] then None else if run[0].Close? then Some(run[0].why) else FirstClose(run[1..])
  }

  lemma StepAccepts(s: Sys, e: Event)
    requires Enabled(s, e)
    ensures Next(s, e).accepted == if e.Push? && s.q.err.None? then s.accepted + [e.m] else s.accepted
    ensures Next(s, e).q.err == if e.Close? && s.q.err.None? then Some(e.why) else s.q.err
  {
  }

  lemma {:induction false} AcceptedExactly(s: Sys, run: seq<Event>)
    requires Possible(s, run)
    ensures After(s, run).accepted == if s.q.err.Some? then s.accepted else s.accepted + BeforeClose(run)
    ensures After(s, run).q.err == if s.q.err.Some? then s.q.err else FirstClose(run)
    decreases |run|
  {
    hide Next, Enabled;
    if run != [] {
      StepAccepts(s, run[0]);
      AcceptedExactly(Next(s, run[0]), run[1..]);
      if run[0].Push? {
        assert s.accepted + ([run[0].m] + BeforeClose(run[1..])) == s.accepted + [run[0].m] + BeforeClose(run[1..]);
      }
    }
  }

  /** Nothing is lost, repeated or reordered: what was handed out, with what is still queued behind it, is what was
      pushed before the first close. */
  lemma HandedInOrder(run: seq<Event>)
    requires Possible(START, run)
    ensures var s := After(START, run); s.handed + s.q.items == BeforeClose(run)
  {
    RunKeeps(START, run);
    AcceptedExactly(START, run);
    assert [] + BeforeClose(run) == BeforeClose(run);
  }

  /** A reason is given only when everything pushed before the close has been handed out, and it is the first one. */
  lemma ReasonOnlyWhenDrained(run: seq<Event>, why: Text)
    requires Possible(START, run) && why in After(START, run).reasons
    ensures After(START, run).handed == BeforeClose(run) && FirstClose(run) == Some(why)
  {
    RunKeeps(START, run);
    HandedInOrder(run);
    AcceptedExactly(START, run);
  }
}
