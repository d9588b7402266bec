/** What a relayed job comes to, read off what it met message by message: who is asked, what each provider is sent, who
    is told to stop, and what the submitter is told in the end. */
module RelayTrace {
  import opened Wire
  import opened Jobs
  import opened Relay
  import opened RelayLaws

  // ---------- one attempt ----------

  /** m with another job id and nothing else changed, for the messages of an answer. */
  ghost predicate SameUnder(m: Message, id: u64, was: Message) {
    match was
    case Response(_, status, headers) => m == Response(id, status, headers)
    case Body(_, bytes) => m == Body(id, bytes)
    case End(_, trailers) => m == End(id, trailers)
    case Fail(_, reason) => m == Fail(id, reason)
    case _ => false
  }

  /** The first n messages are parts of an answer behind which more may come, and the submitter's encoder takes them. */
  ghost predicate Passes(job: u64, feed: seq<Message>, n: nat) {
    && n <= |feed|
    && forall i :: 0 <= i < n ==> (feed[i].Response? || feed[i].Body?) && Encodable(feed[i].Renumbered(job))
  }

  ghost predicate Begun(feed: seq<Message>, n: nat)
    requires n <= |feed|
  {
    exists i :: 0 <= i < n && feed[i].Response?
  }

  /** The message behind the first n is one to pass on, and the submitter's connection refuses it. */
  ghost predicate RefusedAt(job: u64, feed: seq<Message>, room: nat, started: bool, n: nat)
    requires n < |feed|
  {
    && (feed[n].Response? || feed[n].Body? || feed[n].End? || (feed[n].Fail? && (started || Begun(feed, n))))
    && (n == room || !Encodable(feed[n].Renumbered(job)))
  }

  /** The attempt is over at n: the n messages before have been passed on. */
  ghost predicate OverAt(job: u64, feed: seq<Message>, stop: Stop, strange: Text, room: nat, started: bool, n: nat,
                         a: Attempt)
  {
    && Passes(job, feed, n) && n <= room
    && |a.sent| <= |feed| && (forall i :: 0 <= i < |a.sent| ==> SameUnder(a.sent[i], job, feed[i]))
    && var begun := started || Begun(feed, n);
    if n == |feed| then
      && |a.sent| == n && a.started == begun
      && (stop == ConnectionEnded ==> a.ending == ProviderGone)
      && (stop == JobCancelled ==> a.ending == Cancelled)
      && (stop == Quiet ==> a.ending == Unfinished)
    else if feed[n].Hello? || feed[n].Ping? || feed[n].Pong? || feed[n].Request? || feed[n].Cancel? then
      |a.sent| == n && a.started == begun && a.ending == OutOfPlace(strange)
    else if feed[n].Fail? && !begun then
      |a.sent| == n && !a.started && a.ending == Failed(feed[n].reason)
    else if RefusedAt(job, feed, room, started, n) then
      |a.sent| == n && a.started == (begun || feed[n].Response?) && a.ending == Cancelled
    else
      (feed[n].End? || feed[n].Fail?) && |a.sent| == n + 1 && a.started == begun && a.ending == Complete
  }

  lemma {:induction false} PumpIsOver(job: u64, feed: seq<Message>, stop: Stop, strange: Text, room: nat,
                                      started: bool) returns (n: nat)
    ensures OverAt(job, feed, stop, strange, room, started, n, Pump(job, feed, stop, strange, room, started))
    decreases |feed|
  {
    hide Encodable, Pump, Behind, OverAt;
    n := 0;
    if feed == [] {
      PumpOver(job, stop, strange, room, started);
      OverAtOnce(job, feed, stop, strange, room, started);
    } else {
      var m := feed[0];
      PumpStep(job, feed, stop, strange, room, started);
      if room > 0 && (m.Response? || m.Body?) && Encodable(m.Renumbered(job)) {
        var later := Pump(job, feed[1..], stop, strange, room - 1, started || m.Response?);
        BehindIs([m.Renumbered(job)], later);
        n := PumpIsOver(job, feed[1..], stop, strange, room - 1, started || m.Response?);
        OneMorePassed(job, feed, stop, strange, room, started, n, later);
        n := n + 1;
      } else {
        OverAtOnce(job, feed, stop, strange, room, started);
      }
    }
  }

  lemma OverAtOnce(job: u64, feed: seq<Message>, stop: Stop, strange: Text, room: nat, started: bool)
    requires feed != [] ==> room == 0 || !(feed[0].Response? || feed[0].Body?) || !Encodable(feed[0].Renumbered(job))
    ensures OverAt(job, feed, stop, strange, room, started, 0, Pump(job, feed, stop, strange, room, started))
  {
    hide Encodable, Behind;
  }

  lemma OneMorePassed(job: u64, feed: seq<Message>, stop: Stop, strange: Text, room: nat, started: bool, n: nat,
                      a: Attempt)
    requires feed != [] && room > 0 && (feed[0].Response? || feed[0].Body?) && Encodable(feed[0].Renumbered(job))
    requires OverAt(job, feed[1..], stop, strange, room - 1, started || feed[0].Response?, n, a)
    ensures OverAt(job, feed, stop, strange, room, started, n + 1, a.(sent := [feed[0].Renumbered(job)] + a.sent))
  {
    hide Encodable, Begun, SameUnder, RefusedAt;
    BegunBehind(feed, n);
    if n < |feed[1..]| {
      RefusedBehind(feed, room, started, n, job);
    }
    assert SameUnder(feed[0].Renumbered(job), job, feed[0]) by {
      SameUnderIs(feed[0], job);
    }
    assert forall i :: 0 < i < n + 1 ==> feed[i] == feed[1..][i - 1];
    var sent := [feed[0].Renumbered(job)] + a.sent;
    assert forall i :: 0 < i < |sent| ==> sent[i] == a.sent[i - 1] && feed[i] == feed[1..][i - 1];
  }

  lemma RefusedBehind(feed: seq<Message>, room: nat, started: bool, n: nat, job: u64)
    requires feed != [] && room > 0 && n < |feed[1..]|
    ensures RefusedAt(job, feed, room, started, n + 1)
       <==> RefusedAt(job, feed[1..], room - 1, started || feed[0].Response?, n)
  {
    BegunBehind(feed, n);
  }

  lemma SameUnderIs(m: Message, job: u64)
    requires m.Response? || m.Body? || m.End? || m.Fail?
    ensures SameUnder(m.Renumbered(job), job, m)
  {
  }

  lemma BegunBehind(feed: seq<Message>, n: nat)
    requires feed != [] && n <= |feed[1..]|
    ensures Begun(feed, n + 1) <==> feed[0].Response? || Begun(feed[1..], n)
  {
    if Begun(feed[1..], n) {
      var i :| 0 <= i < n && feed[1..][i].Response?;
      assert feed[i + 1].Response?;
    }
    if Begun(feed, n + 1) && !feed[0].Response? {
      var i :| 0 <= i < n + 1 && feed[i].Response?;
      assert feed[1..][i - 1].Response?;
    }
  }

  /** The submitter's side stops an attempt: its application leaves while the provider has no more to say, or its
      connection refuses a message of the answer. */
  ghost predicate Stopped(job: u64, feed: seq<Message>, stop: Stop, room: nat) {
    exists n :: 0 <= n <= |feed| && StoppedAt(job, feed, stop, room, n)
  }

  ghost predicate StoppedAt(job: u64, feed: seq<Message>, stop: Stop, room: nat, n: nat)
    requires n <= |feed|
  {
    && n <= room && Passes(job, feed, n)
    && if n == |feed| then stop == JobCancelled else RefusedAt(job, feed, room, false, n)
  }

  lemma CancelledIfStopped(job: u64, feed: seq<Message>, stop: Stop, strange: Text, room: nat)
    ensures Pump(job, feed, stop, strange, room, false).ending.Cancelled? <==> Stopped(job, feed, stop, room)
  {
    hide Encodable, Pump;
    var n := PumpIsOver(job, feed, stop, strange, room, false);
    assert Pump(job, feed, stop, strange, room, false).ending.Cancelled? ==> StoppedAt(job, feed, stop, room, n);
    if Stopped(job, feed, stop, room) {
      var s: nat :| 0 <= s <= |feed| && StoppedAt(job, feed, stop, room, s);
      assert n == s;
    }
  }

  // ---------- what every provider is sent ----------

  /** A provider is asked after this one: the job did not get to it whole, or its connection ended with no RESPONSE. */
  ghost predicate AsksOn(job: Job, body: Text, trailers: seq<Header>, grant: Grant, room: int) {
    && grant.Leased?
    && var p := grant.provider;
       Delivered(job, body, trailers, p) ==>
         && p.stop == ConnectionEnded && |p.feed| <= room && Passes(job.job, p.feed, |p.feed|)
         && forall i :: 0 <= i < |p.feed| ==> !p.feed[i].Response?
  }

  /** What a provider was sent of the job, room being what the submitter's connection could still take. */
  ghost predicate WasSent(sent: seq<Message>, job: Job, body: Text, trailers: seq<Header>, p: Provider, room: nat) {
    var out := Submission(job.As(p.job), body, trailers);
    if !p.opens then sent == []
    else if p.room < |out| || !AllEncodable(out) then sent == Taken(out, p.room)
    else if Stopped(job.job, p.feed, p.stop, room) && p.room > |out| && p.job != 0 then sent == out + [Cancel(p.job)]
    else sent == out
  }

  lemma TrySends(job: Job, body: Text, trailers: seq<Header>, p: Provider, room: nat)
    ensures WasSent(Try(job, body, trailers, p, room).toProvider, job, body, trailers, p, room)
  {
    hide Pump, Submission, Taken, Stopped;
    var out := Submission(job.As(p.job), body, trailers);
    TakenAll(out, p.room);
    if Taken(out, p.room) == out {
      CancelledIfStopped(job.job, p.feed, p.stop, p.strange, room);
      TakenOne(Cancel(p.job), p.room - |out|);
      assert out + [] == out;
    }
  }

  // ---------- what the submitter is told ----------

  /** An answer made up for the submitter, as far as its connection takes it. */
  ghost predicate Told(said: seq<Message>, job: u64, status: int, why: Text, room: nat) {
    exists ms :: MadeUp(ms, job, status, why) && said == Taken(ms, room)
  }

  /** What the submitter is told of the pool's last answer. */
  ghost predicate Says(said: seq<Message>, outcome: Outcome, job: Job, body: Text, trailers: seq<Header>, grant: Grant,
                       room: nat)
  {
    match grant
    case JobLeft => said == [] && outcome == Abandoned
    case TimedOut(why) => Told(said, job.job, 503, why, room) && outcome == Answered
    case NoConnection => Told(said, job.job, 502, Ascii("the provider has no connection"), room) && outcome == Answered
    case Leased(p) =>
      && Delivered(job, body, trailers, p)
      && exists n: nat, a: Attempt ::
           && OverAt(job.job, p.feed, p.stop, p.strange, room, false, n, a)
           && Ended(said, outcome, a, job.job, room)
  }

  /** What becomes of the job an attempt was the last for: said is all of what it relayed, and what the relay says of
      it itself. */
  ghost predicate Ended(said: seq<Message>, outcome: Outcome, a: Attempt, job: u64, room: nat) {
    && a.sent <= said && |a.sent| <= room
    && var rest, left := said[|a.sent|..], room - |a.sent|;
    match a.ending
    case Complete => rest == [] && outcome == Answered
    case Cancelled => rest == [] && outcome == Abandoned
    case Unfinished => rest == [] && outcome == Pending
    case Failed(why) => Told(rest, job, 502, why, left) && outcome == Answered
    case ProviderGone =>
      && a.started && outcome == Answered
      && rest == if left > 0 && job != 0 then [Fail(job, Ascii("the provider's connection ended"))] else []
    case OutOfPlace(why) =>
      if a.started then rest == [] && outcome == Broken else Told(rest, job, 502, why, left) && outcome == Answered
  }

  lemma SynthIsTold(job: u64, status: u16, why: Text, room: nat)
    ensures Told(Taken(Synth(job, status, why), room), job, status, why, room)
  {
    SynthAnswers(job, status, why);
  }

  lemma ConnectionEndedSaid(job: u64, room: nat)
    ensures CONNECTION_ENDED == Ascii("the provider's connection ended")
    ensures Taken([Fail(job, CONNECTION_ENDED)], room)
         == if room > 0 && job != 0 then [Fail(job, CONNECTION_ENDED)] else []
  {
    AsciiIsUtf8(CONNECTION_ENDED);
    TakenOne(Fail(job, CONNECTION_ENDED), room);
  }

  lemma AgainExactly(job: Job, body: Text, trailers: seq<Header>, p: Provider, room: nat, n: nat, a: Attempt)
    requires Delivered(job, body, trailers, p) && OverAt(job.job, p.feed, p.stop, p.strange, room, false, n, a)
    ensures AsksOn(job, body, trailers, Leased(p), room) <==> a.ending == ProviderGone && !a.started
    ensures a.ending == ProviderGone ==> a.sent == Renumber(job.job, p.feed)
  {
    hide Delivered, Encodable;
    if a.ending == ProviderGone {
      RenumberEach(job.job, p.feed);
      forall i | 0 <= i < |a.sent| ensures a.sent[i] == p.feed[i].Renumbered(job.job) {
        assert SameUnder(a.sent[i], job.job, p.feed[i]);
      }
    }
    if AsksOn(job, body, trailers, Leased(p), room) {
      assert n == |p.feed|;
    }
  }

  lemma AttemptSays(job: Job, body: Text, trailers: seq<Header>, p: Provider, room: nat)
    requires Delivered(job, body, trailers, p)
    ensures var a := Try(job, body, trailers, p, room);
            if Verdict(a).Again? then
              && AsksOn(job, body, trailers, Leased(p), room)
              && a.sent + LastWords(job.job, a, room - |a.sent|) == Renumber(job.job, p.feed)
            else
              && !AsksOn(job, body, trailers, Leased(p), room)
              && Says(a.sent + LastWords(job.job, a, room - |a.sent|), Verdict(a), job, body, trailers, Leased(p), room)
  {
    hide Pump, Submission, Taken, Encodable, Synth, Told;
    var a := Pump(job.job, p.feed, p.stop, p.strange, room, false);
    var n := PumpIsOver(job.job, p.feed, p.stop, p.strange, room, false);
    AgainExactly(job, body, trailers, p, room, n, a);
    var left := room - |a.sent|;
    ConnectionEndedSaid(job.job, left);
    if a.ending.Failed? {
      SynthIsTold(job.job, 502, a.ending.reason, left);
    } else if a.ending.OutOfPlace? {
      SynthIsTold(job.job, 502, a.ending.why, left);
    }
    assert !Verdict(a).Again? ==> Ended(a.sent + LastWords(job.job, a, left), Verdict(a), a, job.job, room);
  }

  // ---------- a whole job ----------

  /** What the submitter was sent of the providers that were asked on from: BODYs no RESPONSE came before. */
  ghost function Strays(job: Job, body: Text, trailers: seq<Header>, asked: seq<Grant>): seq<Message> {
    if asked == [] then []
    else if asked[0].Leased? && Delivered(job, body, trailers, asked[0].provider) then
      Renumber(job.job, asked[0].provider.feed) + Strays(job, body, trailers, asked[1..])
    else Strays(job, body, trailers, asked[1..])
  }

  /** How much the submitter's connection still takes when the k-th answer of the pool comes. */
  ghost function RoomAt(job: Job, body: Text, trailers: seq<Header>, script: seq<Grant>, room: nat, k: nat): int
    requires k <= |script|
  {
    room - |Strays(job, body, trailers, script[..k])|
  }

  /** The run ends with the k-th answer of the pool, or waits for it. */
  ghost predicate EndsWith(r: Trace, job: Job, body: Text, trailers: seq<Header>, script: seq<Grant>, room: nat, k: nat)
    requires k <= |script|
  {
    var before, left := Strays(job, body, trailers, script[..k]), RoomAt(job, body, trailers, script, room, k);
    && before <= r.sent && left >= 0
    && (forall i :: 0 <= i < k ==>
          AsksOn(job, body, trailers, script[i], RoomAt(job, body, trailers, script, room, i)))
    && |r.tries| == (if k < |script| && script[k].Leased? then k + 1 else k)
    && (forall i :: 0 <= i < |r.tries| ==>
          script[i].Leased? && RoomAt(job, body, trailers, script, room, i) >= 0
          && WasSent(r.tries[i], job, body, trailers, script[i].provider, RoomAt(job, body, trailers, script, room, i)))
    && if k == |script| then r.sent == before && r.outcome == Pending
       else !AsksOn(job, body, trailers, script[k], left)
            && Says(r.sent[|before|..], r.outcome, job, body, trailers, script[k], left)
  }

  lemma TurnEnds(job: Job, body: Text, trailers: seq<Header>, grant: Grant, room: nat, front: bool)
    ensures var t := Turn(job, body, trailers, grant, room, front);
            && |t.tries| == (if grant.Leased? then 1 else 0)
            && (grant.Leased? ==> WasSent(t.tries[0], job, body, trailers, grant.provider, room))
            && (t.outcome.Again? ==> grant.Leased?)
            && if t.outcome.Again? then
                 AsksOn(job, body, trailers, grant, room) && t.sent == Strays(job, body, trailers, [grant])
               else
                 !AsksOn(job, body, trailers, grant, room) && Says(t.sent, t.outcome, job, body, trailers, grant, room)
  {
    hide Pump, Submission, Taken, Encodable, Synth, Told, Try, LastWords, WasSent, Renumber;
    match grant
    case JobLeft =>
    case TimedOut(why) => SynthIsTold(job.job, 503, why, room);
    case NoConnection => SynthIsTold(job.job, 502, HAS_NO_CONNECTION, room);
    case Leased(p) =>
      TrySends(job, body, trailers, p, room);
      assert [grant][1..] == [];
      if Delivered(job, body, trailers, p) {
        AttemptSays(job, body, trailers, p, room);
        assert Renumber(job.job, p.feed) + [] == Renumber(job.job, p.feed);
      } else {
        NotDelivered(job, body, trailers, p, room);
      }
  }

  lemma NotDelivered(job: Job, body: Text, trailers: seq<Header>, p: Provider, room: nat)
    requires !Delivered(job, body, trailers, p)
    ensures var a := Try(job, body, trailers, p, room);
            a.sent == [] && Verdict(a) == Again && LastWords(job.job, a, room) == []
  {
    hide Submission, Taken;
  }

  /** How a job goes, whatever it meets: which answer of the pool is its last, what every provider asked was sent, and
      what the submitter was told. */
  lemma {:induction false} RunEnds(job: Job, body: Text, trailers: seq<Header>, script: seq<Grant>, room: nat,
                                   front: bool) returns (k: nat)
    ensures k <= |script|
    ensures EndsWith(Run(job, body, trailers, script, room, front), job, body, trailers, script, room, k)
    decreases |script|
  {
    hide Turn, Run, AsksOn, WasSent, Says, Strays, EndsWith, Then;
    k := 0;
    if script == [] {
      RunOver(job, body, trailers, room, front);
      WaitsAtOnce(job, body, trailers, room, front);
    } else {
      var t := Turn(job, body, trailers, script[0], room, front);
      RunStep(job, body, trailers, script, room, front);
      TurnEnds(job, body, trailers, script[0], room, front);
      if t.outcome.Again? {
        var left := room - |t.sent|;
        var later := Run(job, body, trailers, script[1..], left, true);
        k := RunEnds(job, body, trailers, script[1..], left, true);
        OneMoreAsked(t, later, job, body, trailers, script, room, k);
        k := k + 1;
      } else {
        EndsAtOnce(t, job, body, trailers, script, room);
      }
    }
  }

  lemma WaitsAtOnce(job: Job, body: Text, trailers: seq<Header>, room: nat, front: bool)
    ensures EndsWith(Trace([], [Waits(front)], [], Pending), job, body, trailers, [], room, 0)
  {
  }

  lemma EndsAtOnce(t: Trace, job: Job, body: Text, trailers: seq<Header>, script: seq<Grant>, room: nat)
    requires script != [] && |t.tries| == (if script[0].Leased? then 1 else 0)
    requires script[0].Leased? ==> WasSent(t.tries[0], job, body, trailers, script[0].provider, room)
    requires !AsksOn(job, body, trailers, script[0], room)
    requires Says(t.sent, t.outcome, job, body, trailers, script[0], room)
    ensures EndsWith(t, job, body, trailers, script, room, 0)
  {
    hide AsksOn, WasSent, Says, Delivered;
    assert script[..0] == [] && t.sent[0..] == t.sent;
  }

  lemma StraysBehind(job: Job, body: Text, trailers: seq<Header>, script: seq<Grant>, k: nat)
    requires script != [] && k <= |script[1..]|
    ensures Strays(job, body, trailers, script[..k + 1])
         == Strays(job, body, trailers, [script[0]]) + Strays(job, body, trailers, script[1..][..k])
  {
    hide Delivered;
    var asked := script[..k + 1];
    assert asked[1..] == script[1..][..k] && asked[0] == script[0];
    assert [script[0]][1..] == [];
  }

  lemma OneMoreAsked(t: Trace, later: Trace, job: Job, body: Text, trailers: seq<Header>, script: seq<Grant>, room: nat,
                     k: nat)
    requires script != [] && k <= |script[1..]| && AsksOn(job, body, trailers, script[0], room)
    requires |t.tries| == 1 && WasSent(t.tries[0], job, body, trailers, script[0].provider, room)
    requires t.sent == Strays(job, body, trailers, [script[0]]) && |t.sent| <= room
    requires EndsWith(later, job, body, trailers, script[1..], room - |t.sent|, k)
    ensures EndsWith(Then(t, later), job, body, trailers, script, room, k + 1)
  {
    hide WasSent, Says, Strays;
    var rest := script[1..];
    forall i: nat | 0 < i <= k + 1
      ensures RoomAt(job, body, trailers, script, room, i)
           == RoomAt(job, body, trailers, rest, room - |t.sent|, i - 1) {
      StraysBehind(job, body, trailers, script, i - 1);
    }
    hide AsksOn;
    assert 0 < |script| ==> RoomAt(job, body, trailers, script, room, 0) == room by {
      assert script[..0] == [];
      NoStrays(job, body, trailers);
    }
    StraysBehind(job, body, trailers, script, k);
    var r, before := Then(t, later), Strays(job, body, trailers, script[..k + 1]);
    assert r.sent[|before|..] == later.sent[|Strays(job, body, trailers, rest[..k])|..];
    forall i | 0 <= i < k + 1
      ensures AsksOn(job, body, trailers, script[i], RoomAt(job, body, trailers, script, room, i)) {
      if i > 0 {
        assert script[i] == rest[i - 1];
      }
    }
    forall i | 0 <= i < |r.tries|
      ensures script[i].Leased? && RoomAt(job, body, trailers, script, room, i) >= 0
           && WasSent(r.tries[i], job, body, trailers, script[i].provider,
                RoomAt(job, body, trailers, script, room, i)) {
      if i > 0 {
        assert script[i] == rest[i - 1] && r.tries[i] == later.tries[i - 1];
      }
    }
  }

  lemma NoStrays(job: Job, body: Text, trailers: seq<Header>)
    ensures Strays(job, body, trailers, []) == []
  {
  }

  /** Exactly one answer of the pool is the last. */
  lemma LastGrant(job: Job, body: Text, trailers: seq<Header>, script: seq<Grant>, room: nat, front: bool, k: nat)
    requires k < |script|
    requires forall i :: 0 <= i < k ==> AsksOn(job, body, trailers, script[i],
               RoomAt(job, body, trailers, script, room, i))
    requires !AsksOn(job, body, trailers, script[k], RoomAt(job, body, trailers, script, room, k))
    ensures EndsWith(Run(job, body, trailers, script, room, front), job, body, trailers, script, room, k)
  {
    hide AsksOn, WasSent, Says, Strays, Run;
    var last := RunEnds(job, body, trailers, script, room, front);
  }

  /** A provider is told to stop exactly if it got the whole job, its connection takes one more message, and the
      submitter's side stopped the attempt; and then CANCEL is the last it gets. */
  lemma ToldToStop(job: Job, body: Text, trailers: seq<Header>, script: seq<Grant>, room: nat, front: bool, k: nat)
    requires k < |Run(job, body, trailers, script, room, front).tries|
    ensures k < |script| && script[k].Leased? && RoomAt(job, body, trailers, script, room, k) >= 0
    ensures var sent, p := Run(job, body, trailers, script, room, front).tries[k], script[k].provider;
            var out, left := Submission(job.As(p.job), body, trailers), RoomAt(job, body, trailers, script, room, k);
            && ((exists i :: 0 <= i < |sent| && sent[i].Cancel?) <==>
                  && p.opens && p.room > |out| && AllEncodable(out) && p.job != 0
                  && Stopped(job.job, p.feed, p.stop, left))
            && ((exists i :: 0 <= i < |sent| && sent[i].Cancel?) ==> sent == out + [Cancel(p.job)])
  {
    hide AsksOn, Says, Strays, Run, Submission, Taken, Stopped, AllEncodable, BodyOf;
    var last := RunEnds(job, body, trailers, script, room, front);
    var sent, p := Run(job, body, trailers, script, room, front).tries[k], script[k].provider;
    var out := Submission(job.As(p.job), body, trailers);
    SubmissionIs(job.As(p.job), body, trailers);
    if sent == out + [Cancel(p.job)] {
      assert sent[|out|].Cancel?;
    } else {
      assert sent <= out;
    }
  }

  /** A job on its way: its REQUEST, its body in pieces under the same id, and END with its trailers. */
  lemma SubmissionIs(request: Message, body: Text, trailers: seq<Header>)
    requires request.Request?
    ensures var out := Submission(request, body, trailers);
      && |out| >= 2 && out[0] == request && out[|out| - 1] == End(request.job, trailers)
      && (forall i :: 0 < i < |out| - 1 ==> out[i].Body? && out[i].job == request.job)
      && BodyOf(out) == body
  {
    hide Pieces;
    var pieces, end := Pieces(request.job, body), [End(request.job, trailers)];
    PiecesAreBodies(request.job, body);
    BodyOfFirst(request, pieces + end);
    BodyOfSplit(pieces, end);
    BodyOfFirst(end[0], []);
    assert end == end + [];
  }

  lemma {:induction false} PiecesAreBodies(job: u64, body: Text)
    ensures forall i :: 0 <= i < |Pieces(job, body)| ==> Pieces(job, body)[i].Body? && Pieces(job, body)[i].job == job
    ensures BodyOf(Pieces(job, body)) == body
    decreases |body|
  {
    hide Pieces, BodyOf;
    PiecesStep(job, body);
    if body != [] {
      var piece, rest := Piece(body), body[|Piece(body)|..];
      PiecesAreBodies(job, rest);
      BodyOfFirst(Body(job, piece), Pieces(job, rest));
      assert body == piece + rest;
    }
  }

  lemma PiecesStep(job: u64, body: Text)
    ensures Pieces(job, body) ==
            if body == [] then [] else [Body(job, Piece(body))] + Pieces(job, body[|Piece(body)|..])
    ensures BodyOf([]) == []
  {
  }

  /** A job whose application leaves while its provider is at it is abandoned. */
  lemma LeftAlone(job: Job, body: Text, trailers: seq<Header>, script: seq<Grant>, room: nat, front: bool, k: nat)
    requires k < |script| && script[k].Leased? && Delivered(job, body, trailers, script[k].provider)
    requires forall i :: 0 <= i < k ==> AsksOn(job, body, trailers, script[i],
               RoomAt(job, body, trailers, script, room, i))
    requires var p := script[k].provider;
             p.stop == JobCancelled && forall i :: 0 <= i < |p.feed| ==> p.feed[i].Response? || p.feed[i].Body?
    ensures var r := Run(job, body, trailers, script, room, front);
            r.outcome == Abandoned && |r.tries| == k + 1
  {
    hide WasSent, Strays, Run, Taken, Submission, Encodable;
    LastGrant(job, body, trailers, script, room, front, k);
  }

  /** The answer the relay makes up for one answer of the pool, its status and its reason. */
  ghost predicate AnswersWith(job: Job, body: Text, trailers: seq<Header>, grant: Grant, status: int, why: Text) {
    match grant
    case JobLeft => false
    case TimedOut(w) => status == 503 && why == w
    case NoConnection => status == 502 && why == Ascii("the provider has no connection")
    case Leased(p) =>
      && status == 502 && Delivered(job, body, trailers, p) && p.feed != []
      && match p.feed[0]
         case Response(_, _, _) => false
         case Body(_, _) => false
         case End(_, _) => false
         case Fail(_, reason) => why == reason
         case _ => why == p.strange
  }

  /** Nothing came of this provider: the job did not get to it whole, or it was gone before it said anything. */
  predicate NothingFrom(job: Job, body: Text, trailers: seq<Header>, grant: Grant) {
    && grant.Leased?
    && (Delivered(job, body, trailers, grant.provider) ==>
          grant.provider.feed == [] && grant.provider.stop == ConnectionEnded)
  }

  lemma {:induction false} NothingStrayed(job: Job, body: Text, trailers: seq<Header>, asked: seq<Grant>)
    requires forall i :: 0 <= i < |asked| ==> NothingFrom(job, body, trailers, asked[i])
    ensures Strays(job, body, trailers, asked) == []
    decreases |asked|
  {
    hide Delivered;
    if asked != [] {
      assert NothingFrom(job, body, trailers, asked[0]);
      NothingStrayed(job, body, trailers, asked[1..]);
    }
  }

  /** Behind providers nothing came of, the submitter is told the relay's own answer whole. */
  lemma AnswersItself(job: Job, body: Text, trailers: seq<Header>, script: seq<Grant>, room: nat, front: bool, k: nat,
                      status: u16, why: Text)
    requires k < |script| && room >= 3 && job.job != 0 && |why| < 0xFFFF_FFFF
    requires forall i :: 0 <= i < k ==> NothingFrom(job, body, trailers, script[i])
    requires AnswersWith(job, body, trailers, script[k], status, why)
    ensures var r := Run(job, body, trailers, script, room, front);
            MadeUp(r.sent, job.job, status, why) && r.outcome == Answered
  {
    hide Run, Submission, Taken, Delivered, Strays, WasSent, Encodable, MadeUp;
    forall i | 0 <= i <= k ensures RoomAt(job, body, trailers, script, room, i) == room {
      NothingStrayed(job, body, trailers, script[..i]);
    }
    NothingStrayed(job, body, trailers, script[..k]);
    LastGrant(job, body, trailers, script, room, front, k);
    var r := Run(job, body, trailers, script, room, front);
    assert r.sent[0..] == r.sent;
    OwnAnswerTold(r.sent, r.outcome, job, body, trailers, script[k], room, status, why);
  }

  lemma OwnAnswerTold(said: seq<Message>, outcome: Outcome, job: Job, body: Text, trailers: seq<Header>, grant: Grant,
                      room: nat, status: u16, why: Text)
    requires room >= 3 && job.job != 0 && |why| < 0xFFFF_FFFF
    requires Says(said, outcome, job, body, trailers, grant, room)
    requires AnswersWith(job, body, trailers, grant, status, why)
    ensures MadeUp(said, job.job, status, why) && outcome == Answered
  {
    hide Submission, Taken, Delivered, Encodable, MadeUp;
    if grant.Leased? {
      assert said[0..] == said;
    }
    assert Told(said, job.job, status, why, room);
    var ms :| MadeUp(ms, job.job, status, why) && said == Taken(ms, room);
    OneMadeUp(ms, job.job, status, why);
    SynthEncodable(job.job, status, why);
    TakenAll(ms, room);
  }
}
