/** The server's side of a job: attempt after attempt at one provider after another, and what the submitter sees of
    them. The pool, the providers and the clock are a script of what they answer. */
module Relay {
  import opened Wire
  import opened Jobs

  // ---------- what the relay meets ----------

  /** What a job's inbox gives once it is drained: its connection ended, the job was cancelled, or nothing yet. */
  datatype Stop = ConnectionEnded | JobCancelled | Quiet

  /** An attempt's provider: whether a job can still be opened on its connection, the id the job gets there, how many
      messages of it the connection takes, what comes back, and how a message out of place would be reported. */
  datatype Provider = Provider(opens: bool, job: u64, room: nat, feed: seq<Message>, stop: Stop, strange: Text)

  /** What the pool answers when asked for a lease. */
  datatype Grant =
    | TimedOut(why: Text)
    | JobLeft
    | NoConnection
    | Leased(provider: Provider)

  /** What the relay does to the pool. */
  datatype PoolAct = Waits(front: bool) | Refused(front: bool) | Leases(front: bool) | Releases

  /** How one attempt ended. */
  datatype Ending =
    | Complete
    | ProviderGone
    | Cancelled
    | Failed(reason: Text)
    | OutOfPlace(why: Text)
    | Unfinished

  datatype Attempt = Attempt(sent: seq<Message>, toProvider: seq<Message>, started: bool, ending: Ending)

  /** Answered is the end of a job that was told everything, Broken that of one left without its last message; Again
      is no end. */
  datatype Outcome = Answered | Abandoned | Broken | Pending | Again

  datatype Trace = Trace(sent: seq<Message>, pool: seq<PoolAct>, tries: seq<seq<Message>>, outcome: Outcome)

  datatype Job = Job(job: u64, service: Text, verb: Text, target: Text, headers: seq<Header>) {
    /** Its REQUEST under an id. */
    function As(id: u64): Message {
      Request(id, service, verb, target, headers)
    }
  }

  const CONNECTION_ENDED: Text := Ascii("the provider's connection ended")
  const HAS_NO_CONNECTION: Text := Ascii("the provider has no connection")

  const BAD_GATEWAY: u16 := 502
  const UNAVAILABLE: u16 := 503

  // ---------- what it does ----------

  predicate BelongsInAnswer(m: Message) {
    m.Response? || m.Body? || m.End? || m.Fail?
  }

  /** How an attempt stands when its provider has nothing more to say. */
  function Drained(stop: Stop): Ending {
    match stop
    case ConnectionEnded => ProviderGone
    case JobCancelled => Cancelled
    case Quiet => Unfinished
  }

  /** Passing an answer on, from where it has come to. */
  function Pump(job: u64, feed: seq<Message>, stop: Stop, strange: Text, room: nat, started: bool): (a: Attempt)
    ensures |a.sent| <= room
    decreases |feed|
  {
    if feed == [] then
      Attempt([], [], started, Drained(stop))
    else
      var m := feed[0];
      if !BelongsInAnswer(m) then Attempt([], [], started, OutOfPlace(strange))
      else if m.Fail? && !started then Attempt([], [], false, Failed(m.reason))
      else
        var onward, begun := m.Renumbered(job), started || m.Response?;
        if room == 0 || !Encodable(onward) then Attempt([], [], begun, Cancelled)
        else if m.End? || m.Fail? then Attempt([onward], [], begun, Complete)
        else Behind([onward], Pump(job, feed[1..], stop, strange, room - 1, begun))
  }

  function Behind(done: seq<Message>, a: Attempt): Attempt {
    a.(sent := done + a.sent)
  }

  /** One attempt at one provider. */
  function Try(job: Job, body: Text, trailers: seq<Header>, p: Provider, room: nat): (a: Attempt)
    ensures |a.sent| <= room
  {
    if !p.opens then Attempt([], [], false, ProviderGone)
    else
      var out := Submission(job.As(p.job), body, trailers);
      var taken := Taken(out, p.room);
      if taken != out then Attempt([], taken, false, ProviderGone)
      else
        var a := Pump(job.job, p.feed, p.stop, p.strange, room, false);
        a.(toProvider := out + if a.ending.Cancelled? then Taken([Cancel(p.job)], p.room - |out|) else [])
  }

  /** What comes of one answer of the pool. */
  function Turn(job: Job, body: Text, trailers: seq<Header>, grant: Grant, room: nat, front: bool): (t: Trace)
    ensures |t.sent| <= room
  {
    match grant
    case JobLeft => Trace([], [Refused(front)], [], Abandoned)
    case TimedOut(why) => Trace(Taken(Synth(job.job, UNAVAILABLE, why), room), [Refused(front)], [], Answered)
    case NoConnection =>
      Trace(Taken(Synth(job.job, BAD_GATEWAY, HAS_NO_CONNECTION), room), [Leases(front), Releases], [], Answered)
    case Leased(p) =>
      var a := Try(job, body, trailers, p, room);
      Trace(a.sent + LastWords(job.job, a, room - |a.sent|),
            if a.ending.Unfinished? then [Leases(front)] else [Leases(front), Releases],
            [a.toProvider],
            Verdict(a))
  }

  /** The whole life of a job whose body is in. */
  function Run(job: Job, body: Text, trailers: seq<Header>, script: seq<Grant>, room: nat, front: bool): Trace
    decreases |script|
  {
    if script == [] then Trace([], [Waits(front)], [], Pending)
    else
      var t := Turn(job, body, trailers, script[0], room, front);
      if t.outcome.Again? then Then(t, Run(job, body, trailers, script[1..], room - |t.sent|, true)) else t
  }

  function Then(t: Trace, rest: Trace): Trace {
    Trace(t.sent + rest.sent, t.pool + rest.pool, t.tries + rest.tries, rest.outcome)
  }

  /** What the relay adds of its own to an attempt that was the last. */
  function LastWords(job: u64, a: Attempt, room: nat): seq<Message> {
    match a.ending
    case ProviderGone => if a.started then Taken([Fail(job, CONNECTION_ENDED)], room) else []
    case Failed(why) => Taken(Synth(job, BAD_GATEWAY, why), room)
    case OutOfPlace(why) => if a.started then [] else Taken(Synth(job, BAD_GATEWAY, why), room)
    case _ => []
  }

  /** A job nobody answered yet goes to the next provider; that is the line between may retry and must finish. */
  function Verdict(a: Attempt): Outcome {
    match a.ending
    case ProviderGone => if a.started then Answered else Again
    case Cancelled => Abandoned
    case Unfinished => Pending
    case OutOfPlace(_) => if a.started then Broken else Answered
    case _ => Answered
  }

  // ---------- as it runs ----------

  /** Passes on what the provider says until it is done, gone, out of place or no longer wanted. */
  method PassOn(c: Link, job: u64, p: Provider) returns (done: seq<Message>, started: bool, ending: Ending)
    modifies c
    ensures Attempt(done, [], started, ending) == Pump(job, p.feed, p.stop, p.strange, old(c.room), false)
    ensures c.sent == old(c.sent) + done && c.room == old(c.room) - |done|
  {
    hide Encodable, Pump, Behind;
    ghost var whole := Pump(job, p.feed, p.stop, p.strange, c.room, false);
    done, started := [], false;
    BehindIs([], whole);
    var rest := p.feed;
    while rest != []
      invariant c.sent == old(c.sent) + done && c.room == old(c.room) - |done|
      invariant whole == Behind(done, Pump(job, rest, p.stop, p.strange, c.room, started))
      decreases |rest|
    {
      var m := rest[0];
      PumpStep(job, rest, p.stop, p.strange, c.room, started);
      BehindIs(done, Pump(job, rest, p.stop, p.strange, c.room, started));
      if !BelongsInAnswer(m) {
        return done, started, OutOfPlace(p.strange);
      }
      if m.Fail? && !started {
        return done, false, Failed(m.reason);
      }
      started := started || m.Response?;
      var onward := m.Renumbered(job);
      var ok := c.Send(onward);
      if !ok {
        return done, started, Cancelled;
      }
      if m.End? || m.Fail? {
        return done + [onward], started, Complete;
      }
      BehindTwice(done, onward, Pump(job, rest[1..], p.stop, p.strange, c.room, started));
      rest, done := rest[1..], done + [onward];
    }
    PumpOver(job, p.stop, p.strange, c.room, started);
    BehindIs(done, Pump(job, [], p.stop, p.strange, c.room, started));
    ending := Drained(p.stop);
  }

  lemma PumpOver(job: u64, stop: Stop, strange: Text, room: nat, started: bool)
    ensures Pump(job, [], stop, strange, room, started) == Attempt([], [], started, Drained(stop))
  {
  }

  lemma PumpStep(job: u64, feed: seq<Message>, stop: Stop, strange: Text, room: nat, started: bool)
    requires feed != []
    ensures var m, a := feed[0], Pump(job, feed, stop, strange, room, started);
            var onward, begun := m.Renumbered(job), started || m.Response?;
            if !BelongsInAnswer(m) then a == Attempt([], [], started, OutOfPlace(strange))
            else if m.Fail? && !started then a == Attempt([], [], false, Failed(m.reason))
            else if room == 0 || !Encodable(onward) then a == Attempt([], [], begun, Cancelled)
            else if m.End? || m.Fail? then a == Attempt([onward], [], begun, Complete)
            else a == Behind([onward], Pump(job, feed[1..], stop, strange, room - 1, begun))
  {
    hide Encodable, Behind;
  }

  lemma BehindIs(done: seq<Message>, a: Attempt)
    ensures Behind(done, a) == Attempt(done + a.sent, a.toProvider, a.started, a.ending)
    ensures done == [] ==> Behind(done, a) == a
  {
    assert [] + a.sent == a.sent;
  }

  lemma BehindTwice(done: seq<Message>, m: Message, a: Attempt)
    ensures Behind(done, Behind([m], a)) == Behind(done + [m], a)
  {
    assert done + ([m] + a.sent) == done + [m] + a.sent;
  }

  method DispatchTo(c: Link, job: Job, body: Text, trailers: seq<Header>, p: Provider)
    returns (sent: seq<Message>, toProvider: seq<Message>, started: bool, ending: Ending)
    modifies c
    ensures Attempt(sent, toProvider, started, ending) == Try(job, body, trailers, p, old(c.room))
    ensures c.sent == old(c.sent) + sent && c.room == old(c.room) - |sent|
  {
    hide Encodable, Pump, Taken, Submission;
    if !p.opens {
      return [], [], false, ProviderGone;
    }
    var target := new Link(p.room);
    var ok := target.Submit(job.As(p.job), body, trailers);
    if !ok {
      return [], target.sent, false, ProviderGone;
    }
    sent, started, ending := PassOn(c, job.job, p);
    if ending.Cancelled? {
      TakenOne(Cancel(p.job), target.room);
      ok := target.Send(Cancel(p.job));
    }
    toProvider := target.sent;
  }

  /** Takes the body in, then tries provider after provider until the job is answered, abandoned or still waiting. */
  method RelayJob(c: Link, job: Job, inbox: seq<Message>, script: seq<Grant>) returns (t: Trace)
    modifies c
    ensures !Collect(inbox).Collected? ==> t == Trace([], [], [], Abandoned)
    ensures Collect(inbox).Collected? ==>
              t == Run(job, Collect(inbox).body, Collect(inbox).trailers, script, old(c.room), false)
    ensures c.sent == old(c.sent) + t.sent
  {
    hide *;
    var collected := CollectBody(inbox);
    if !collected.Collected? {
      return Trace([], [], [], Abandoned);
    }
    t := Attempts(c, job, collected.body, collected.trailers, script);
  }

  /** Tries provider after provider. */
  method Attempts(c: Link, job: Job, body: Text, trailers: seq<Header>, script: seq<Grant>) returns (t: Trace)
    modifies c
    ensures t == Run(job, body, trailers, script, old(c.room), false) && c.sent == old(c.sent) + t.sent
  {
    hide Encodable, Turn, Run, Then;
    t := Trace([], [], [], Again);
    var rest, front := script, false;
    ThenNothing(Run(job, body, trailers, script, c.room, false));
    while rest != []
      invariant t.outcome.Again? && c.sent == old(c.sent) + t.sent
      invariant Run(job, body, trailers, script, old(c.room), false)
             == Then(t, Run(job, body, trailers, rest, c.room, front))
      decreases |rest|
    {
      RunStep(job, body, trailers, rest, c.room, front);
      var turn := OneTurn(c, job, body, trailers, rest[0], front);
      ThenIs(t, turn);
      if !turn.outcome.Again? {
        return Then(t, turn);
      }
      ThenThen(t, turn, Run(job, body, trailers, rest[1..], c.room, true));
      t, rest, front := Then(t, turn), rest[1..], true;
    }
    RunOver(job, body, trailers, c.room, front);
    ThenIs(t, Trace([], [Waits(front)], [], Pending));
    t := Then(t, Trace([], [Waits(front)], [], Pending));
  }

  lemma RunStep(job: Job, body: Text, trailers: seq<Header>, script: seq<Grant>, room: nat, front: bool)
    requires script != []
    ensures var t := Turn(job, body, trailers, script[0], room, front);
            Run(job, body, trailers, script, room, front)
            == if t.outcome.Again? then Then(t, Run(job, body, trailers, script[1..], room - |t.sent|, true)) else t
  {
    hide Turn, Then;
  }

  lemma RunOver(job: Job, body: Text, trailers: seq<Header>, room: nat, front: bool)
    ensures Run(job, body, trailers, [], room, front) == Trace([], [Waits(front)], [], Pending)
  {
  }

  lemma ThenNothing(t: Trace)
    ensures Then(Trace([], [], [], Again), t) == t
  {
    assert [] + t.sent == t.sent && [] + t.pool == t.pool && [] + t.tries == t.tries;
  }

  lemma ThenIs(a: Trace, b: Trace)
    ensures Then(a, b).sent == a.sent + b.sent && Then(a, b).outcome == b.outcome
  {
  }

  lemma ThenThen(a: Trace, b: Trace, c: Trace)
    ensures Then(Then(a, b), c) == Then(a, Then(b, c))
  {
    assert a.sent + b.sent + c.sent == a.sent + (b.sent + c.sent);
    assert a.pool + b.pool + c.pool == a.pool + (b.pool + c.pool);
    assert a.tries + b.tries + c.tries == a.tries + (b.tries + c.tries);
  }

  /** Asks the pool and does what there is to do with its answer. */
  method OneTurn(c: Link, job: Job, body: Text, trailers: seq<Header>, grant: Grant, front: bool) returns (t: Trace)
    modifies c
    ensures t == Turn(job, body, trailers, grant, old(c.room), front)
    ensures c.sent == old(c.sent) + t.sent && c.room == old(c.room) - |t.sent|
  {
    hide Encodable, Try, Taken, Synth;
    match grant {
      case JobLeft => return Trace([], [Refused(front)], [], Abandoned);
      case TimedOut(why) =>
        var said := Answer(c, job.job, UNAVAILABLE, why);
        return Trace(said, [Refused(front)], [], Answered);
      case NoConnection =>
        var said := Answer(c, job.job, BAD_GATEWAY, HAS_NO_CONNECTION);
        return Trace(said, [Leases(front), Releases], [], Answered);
      case Leased(p) =>
        ghost var a := Try(job, body, trailers, p, c.room);
        var sent, toProvider, started, ending := DispatchTo(c, job, body, trailers, p);
        var last, verdict := Finish(c, job.job, started, ending);
        assert c.sent == old(c.sent) + (a.sent + last);
        return Trace(sent + last, if ending.Unfinished? then [Leases(front)]
          else [Leases(front), Releases], [toProvider], verdict);
    }
  }

  /** A response the server makes up. */
  method Answer(c: Link, job: u64, status: u16, why: Text) returns (said: seq<Message>)
    modifies c
    ensures said == Taken(Synth(job, status, why), old(c.room))
    ensures c.sent == old(c.sent) + said && c.room == old(c.room) - |said|
  {
    hide Encodable, Taken, Synth;
    var before := |c.sent|;
    var _ := c.SendAll(Synth(job, status, why));
    said := c.sent[before..];
  }

  /** What the relay says itself of an attempt. */
  method Finish(c: Link, job: u64, started: bool, ending: Ending) returns (said: seq<Message>, verdict: Outcome)
    modifies c
    ensures var a := Attempt([], [], started, ending);
            && said == LastWords(job, a, old(c.room)) && verdict == Verdict(a)
            && c.sent == old(c.sent) + said && c.room == old(c.room) - |said|
  {
    hide Encodable, Taken, Synth;
    said, verdict := [], Answered;
    match ending {
      case Complete =>
      case Cancelled => verdict := Abandoned;
      case Unfinished => verdict := Pending;
      case ProviderGone =>
        if !started {
          return [], Again;
        }
        TakenOne(Fail(job, CONNECTION_ENDED), c.room);
        var ok := c.Send(Fail(job, CONNECTION_ENDED));
        said := if ok then [Fail(job, CONNECTION_ENDED)] else [];
      case Failed(why) => said := Answer(c, job, BAD_GATEWAY, why);
      case OutOfPlace(why) =>
        if started {
          return [], Broken;
        }
        said := Answer(c, job, BAD_GATEWAY, why);
    }
  }
}
