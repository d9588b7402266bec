/** What a submitter sees of its job, over any number of attempts. */
module RelayLaws {
  import opened Wire
  import opened Jobs
  import opened Relay

  function Renumber(job: u64, ms: seq<Message>): (r: seq<Message>)
    ensures |r| == |ms|
  {
    if ms == [] then [] else [ms[0].Renumbered(job)] + Renumber(job, ms[1..])
  }

  lemma {:induction false} RenumberEach(job: u64, ms: seq<Message>)
    ensures forall i :: 0 <= i < |ms| ==> Renumber(job, ms)[i] == ms[i].Renumbered(job)
  {
    if ms != [] {
      RenumberEach(job, ms[1..]);
    }
  }

  /** A message the decoder gave is accepted by the encoder under another id. */
  lemma RenumberedFits(m: Message, job: u64)
    requires Encodable(m) && job != 0
    ensures Encodable(m.Renumbered(job)) && (Kind(m) == Kind(m.Renumbered(job)))
  {
  }

  // ---------- one attempt ----------

  function From(started: bool): Progress {
    if started then Streaming else Fresh
  }

  /** What the relay needs of a provider's order: nothing of an answer before its RESPONSE, and no second one. A message
      that belongs in no answer is the relay's to catch. */
  predicate Orderly(started: bool, feed: seq<Message>)
    decreases |feed|
  {
    feed == [] ||
    match feed[0]
    case Response(_, _, _) => !started && Orderly(true, feed[1..])
    case Body(_, _) => started && Orderly(true, feed[1..])
    case End(_, _) => started
    case _ => true
  }

  /** How far the submitter is when an attempt is over. */
  function Reached(a: Attempt, started: bool): Progress {
    if a.ending.Complete? then Over else if a.sent == [] then From(started) else Streaming
  }

  lemma TrackBehind(p: Progress, m: Message, ms: seq<Message>, bareFail: bool)
    ensures Track(p, [m] + ms, bareFail) == Track(Advance(p, m, bareFail), ms, bareFail)
  {
    assert ([m] + ms)[1..] == ms;
  }

  /** What is relayed of an attempt whose provider keeps the order is an answer, as far as it gets. */
  lemma {:induction false} OrderIsKept(job: u64, feed: seq<Message>, stop: Stop, strange: Text, room: nat,
      started: bool)
    requires job != 0 && AllEncodable(feed) && Orderly(started, feed)
    ensures var a := Pump(job, feed, stop, strange, room, started);
            Track(From(started), a.sent, false) == Reached(a, started)
    decreases |feed|
  {
    hide Encodable, Pump, Track, AllEncodable;
    TrackNothing(From(started));
    if feed == [] {
      PumpOver(job, stop, strange, room, started);
    } else {
      var m, rest := feed[0], feed[1..];
      var onward := m.Renumbered(job);
      EncodableTail(feed);
      RenumberedFits(m, job);
      PumpStep(job, feed, stop, strange, room, started);
      TrackBehind(From(started), onward, [], false);
      TrackNothing(Advance(From(started), onward, false));
      assert [onward] + [] == [onward];
      if room > 0 && (m.Response? || m.Body?) {
        var later := Pump(job, rest, stop, strange, room - 1, true);
        OrderIsKept(job, rest, stop, strange, room - 1, true);
        TrackBehind(From(started), onward, later.sent, false);
        BehindIs([onward], later);
      }
    }
  }

  lemma TrackNothing(p: Progress)
    ensures Track(p, [], false) == p
  {
  }

  lemma EncodableTail(feed: seq<Message>)
    requires feed != [] && AllEncodable(feed)
    ensures Encodable(feed[0]) && AllEncodable(feed[1..])
  {
    hide Encodable;
  }

  /** A provider out of order is relayed out of order. */
  lemma {:induction false} DisorderIsRelayed(job: u64, feed: seq<Message>, stop: Stop, strange: Text, room: nat,
      started: bool)
    requires job != 0 && AllEncodable(feed) && !Orderly(started, feed) && room >= |feed|
    ensures Track(From(started), Pump(job, feed, stop, strange, room, started).sent, false) == Wrong
    decreases |feed|
  {
    hide Encodable;
    var m, rest := feed[0], feed[1..];
    var onward, begun := m.Renumbered(job), started || m.Response?;
    assert Encodable(m) && AllEncodable(rest);
    RenumberedFits(m, job);
    TrackBehind(From(started), onward, [], false);
    if m.Response? || m.Body? {
      var later := Pump(job, rest, stop, strange, room - 1, begun).sent;
      TrackBehind(From(started), onward, later, false);
      TrackWrong(later, false);
      if Advance(From(started), onward, false) != Wrong {
        DisorderIsRelayed(job, rest, stop, strange, room - 1, begun);
      }
    }
  }

  /** As long as a provider keeps the order, an attempt that ends before its answer does has started exactly if the
      submitter has seen any of it. */
  lemma {:induction false} OrderlyEndings(job: u64, feed: seq<Message>, stop: Stop, strange: Text, room: nat,
      started: bool)
    requires job != 0 && AllEncodable(feed) && Orderly(started, feed)
    ensures var a := Pump(job, feed, stop, strange, room, started);
            && (a.ending.ProviderGone? || a.ending.OutOfPlace? || a.ending.Failed? ==>
                  (a.started <==> started || a.sent != []))
            && (a.ending.Failed? ==> !a.started && |a.ending.reason| <= 65535)
            && (a.ending.OutOfPlace? ==> a.ending.why == strange)
    decreases |feed|
  {
    hide Encodable;
    if feed != [] {
      var m, rest := feed[0], feed[1..];
      assert Encodable(m) && AllEncodable(rest);
      RenumberedFits(m, job);
      if m.Fail? {
        ReasonCounts(m);
      } else if room > 0 && (m.Response? || m.Body?) {
        OrderlyEndings(job, rest, stop, strange, room - 1, true);
      }
    }
  }

  lemma {:induction false} ProvidersAreOrderly(started: bool, feed: seq<Message>)
    requires Track(From(started), feed, true) != Wrong
    ensures Orderly(started, feed)
    decreases |feed|
  {
    if feed != [] {
      var m, rest := feed[0], feed[1..];
      TrackWrong(rest, true);
      if m.Response? || m.Body? {
        ProvidersAreOrderly(true, rest);
      }
    }
  }

  /** Against a provider that keeps to the grammar: everything relayed is the provider's own, in order and from the
      start; nothing is out of place; and an attempt stops short only for the submitter. */
  lemma {:induction false} PumpAgainstProvider(job: u64, feed: seq<Message>, stop: Stop, strange: Text, room: nat,
      started: bool)
    requires job != 0 && AllEncodable(feed) && Track(From(started), feed, true) != Wrong
    ensures var a := Pump(job, feed, stop, strange, room, started);
            && a.sent <= Renumber(job, feed)
            && !a.ending.OutOfPlace?
            && (a.ending.Failed? ==>
                  !started && a.sent == [] && feed != [] && feed[0].Fail? && a.ending.reason == feed[0].reason)
            && (a.ending.Cancelled? ==> stop == JobCancelled || |a.sent| == room)
            && (a.ending.Unfinished? ==> stop == Quiet)
            && (a.ending.ProviderGone? ==> a.sent == Renumber(job, feed) && (a.started <==> started || a.sent != []))
    decreases |feed|
  {
    hide Encodable;
    if feed != [] {
      var m, rest := feed[0], feed[1..];
      assert Encodable(m) && AllEncodable(rest);
      RenumberedFits(m, job);
      TrackWrong(rest, true);
      if room > 0 && (m.Response? || m.Body?) {
        PumpAgainstProvider(job, rest, stop, strange, room - 1, true);
      }
    }
  }

  // ---------- one answer of the pool ----------

  /** What the relay relies on: ids that are ids, a provider that answers as providers do with messages the decoder
      let through, and texts a BODY can count. */
  ghost predicate Rely(grant: Grant) {
    match grant
    case Leased(p) => p.job != 0 && AllEncodable(p.feed) && FromProvider(p.feed)
    case TimedOut(why) => |why| < 0xFFFF_FFFF
    case _ => true
  }

  /** Everything the submitter got stems from this one answer of the pool. */
  predicate ComesFrom(sent: seq<Message>, job: u64, grant: Grant) {
    match grant
    case JobLeft => sent == []
    case TimedOut(why) => sent <= Synth(job, UNAVAILABLE, why)
    case NoConnection => sent <= Synth(job, BAD_GATEWAY, HAS_NO_CONNECTION)
    case Leased(p) =>
      || sent <= Renumber(job, p.feed) + [Fail(job, CONNECTION_ENDED)]
      || (p.feed != [] && p.feed[0].Fail? && sent <= Synth(job, BAD_GATEWAY, p.feed[0].reason))
  }

  /** The job's own side is why it stopped: its application left, or its connection died. */
  predicate SubmitterLeft(sent: seq<Message>, room: nat, grant: Grant) {
    |sent| == room || grant.JobLeft? || (grant.Leased? && grant.provider.stop == JobCancelled)
  }

  /** A made-up answer is one as far as it gets. */
  lemma SynthTaken(job: u64, status: u16, why: Text, room: nat)
    requires job != 0 && MIN_STATUS <= status <= MAX_STATUS && |why| < 0xFFFF_FFFF
    ensures var sent := Taken(Synth(job, status, why), room);
            && Track(Fresh, sent, false) != Wrong
            && (Track(Fresh, sent, false) == Over || |sent| == room)
  {
    hide Encodable, Synth, Taken;
    var ms := Synth(job, status, why);
    SynthAnswers(job, status, why);
    SynthEncodable(job, status, why);
    TakenAll(ms, room);
    var sent := Taken(ms, room);
    assert ms == sent + ms[|sent|..];
    TrackPrefix(Fresh, sent, ms[|sent|..], false);
  }

  lemma ConnectionEndedFits(job: u64)
    requires job != 0
    ensures Encodable(Fail(job, CONNECTION_ENDED))
  {
    AsciiIsUtf8(CONNECTION_ENDED);
  }

  /** FAIL behind a part of an answer ends it. */
  lemma EndedByFail(job: u64, a: Attempt, room: nat)
    requires job != 0 && a.ending.ProviderGone? && a.started && Track(Fresh, a.sent, false) == Streaming
    ensures var last := LastWords(job, a, room);
            && last <= [Fail(job, CONNECTION_ENDED)]
            && (last == [] <==> room == 0)
            && Track(Fresh, a.sent + last, false) == if room == 0 then Streaming else Over
  {
    hide Encodable;
    var fail := Fail(job, CONNECTION_ENDED);
    ConnectionEndedFits(job);
    TakenOne(fail, room);
    TrackSplit(Fresh, a.sent, LastWords(job, a, room), false);
    TrackBehind(Streaming, fail, [], false);
    assert [fail] + [] == [fail];
  }

  lemma AttemptLaw(job: Job, body: Text, trailers: seq<Header>, p: Provider, room: nat)
    requires job.job != 0 && Rely(Leased(p))
    ensures var a := Try(job, body, trailers, p, room);
            && a.sent <= Renumber(job.job, p.feed)
            && Track(Fresh, a.sent, false) == Reached(a, false)
            && !a.ending.OutOfPlace?
            && (a.ending.Failed? ==>
                  a.sent == [] && p.feed != [] && p.feed[0].Fail? && a.ending.reason == p.feed[0].reason)
            && (a.ending.Cancelled? ==> p.stop == JobCancelled || |a.sent| == room)
            && (a.ending.Unfinished? ==> p.stop == Quiet)
            && (a.ending.ProviderGone? ==>
                  (a.sent == Renumber(job.job, p.feed) || !a.started) && (a.started <==> a.sent != []))
  {
    hide Encodable, Taken, Pump, Orderly, Track, Submission, Renumber;
    var a := Pump(job.job, p.feed, p.stop, p.strange, room, false);
    ProvidersAreOrderly(false, p.feed);
    OrderIsKept(job.job, p.feed, p.stop, p.strange, room, false);
    PumpAgainstProvider(job.job, p.feed, p.stop, p.strange, room, false);
    NothingTracked();
  }

  lemma NothingTracked()
    ensures Track(Fresh, [], false) == Fresh
  {
  }

  /** One answer of the pool: what it adds is an answer from that one source, complete unless the submitter is gone or
      the provider is still at it; and another provider is asked only while the submitter has seen nothing. */
  lemma TurnLaw(job: Job, body: Text, trailers: seq<Header>, grant: Grant, room: nat, front: bool)
    requires job.job != 0 && Rely(grant)
    ensures var t := Turn(job, body, trailers, grant, room, front);
            && ToSubmitter(t.sent)
            && ComesFrom(t.sent, job.job, grant)
            && (t.outcome.Again? ==> t.sent == [])
            && (t.outcome.Answered? ==> Track(Fresh, t.sent, false) == Over || |t.sent| == room)
            && (t.outcome.Abandoned? ==> SubmitterLeft(t.sent, room, grant))
            && (t.outcome.Pending? ==> grant.Leased? && grant.provider.stop == Quiet)
            && (Track(Fresh, t.sent, false) == Over ==> t.outcome.Answered?)
            && !t.outcome.Broken?
  {
    hide Encodable, Taken, Try, Synth, Track, Renumber;
    NothingTracked();
    match grant
    case JobLeft =>
    case TimedOut(why) => SynthTaken(job.job, UNAVAILABLE, why, room);
    case NoConnection => SynthTaken(job.job, BAD_GATEWAY, HAS_NO_CONNECTION, room);
    case Leased(p) =>
      var a := Try(job, body, trailers, p, room);
      AttemptLaw(job, body, trailers, p, room);
      if a.ending.Failed? {
        assert Encodable(p.feed[0]);
        ReasonCounts(p.feed[0]);
        SynthTaken(job.job, BAD_GATEWAY, a.ending.reason, room);
        assert a.sent + LastWords(job.job, a, room) == LastWords(job.job, a, room);
      } else if a.ending.ProviderGone? && a.started {
        EndedByFail(job.job, a, room - |a.sent|);
        var last, feed := LastWords(job.job, a, room - |a.sent|), Renumber(job.job, p.feed);
        assert feed + last <= feed + [Fail(job.job, CONNECTION_ENDED)];
      } else {
        assert a.sent + [] == a.sent;
        PrefixOfMore(a.sent, Renumber(job.job, p.feed), [Fail(job.job, CONNECTION_ENDED)]);
      }
  }

  lemma PrefixOfMore(a: seq<Message>, b: seq<Message>, c: seq<Message>)
    requires a <= b
    ensures a <= b + c
  {
  }

  lemma ReasonCounts(m: Message)
    requires Encodable(m) && m.Fail?
    ensures |m.reason| <= 65535
  {
  }

  // ---------- a whole job ----------

  ghost predicate RelyAll(script: seq<Grant>) {
    forall i :: 0 <= i < |script| ==> Rely(script[i])
  }

  /** However many providers a job goes through, its submitter sees one answer from one source: the k-th answer of the
      pool, the last the relay asked for. It is complete unless the application left, the submitter's connection died
      or the job still runs, and a complete one is never added to. */
  lemma {:induction false} OneAnswer(job: Job, body: Text, trailers: seq<Header>, script: seq<Grant>, room: nat,
      front: bool)
    returns (k: nat)
    requires job.job != 0 && RelyAll(script)
    ensures var r := Run(job, body, trailers, script, room, front);
            && ToSubmitter(r.sent)
            && (if k < |script| then ComesFrom(r.sent, job.job, script[k]) else r.sent == [] && r.outcome == Pending)
            && k <= |script| && |r.tries| <= k + 1
            && (r.outcome.Answered? ==> Track(Fresh, r.sent, false) == Over || |r.sent| == room)
            && (r.outcome.Abandoned? ==> k < |script| && SubmitterLeft(r.sent, room, script[k]))
            && (r.outcome.Pending? && k < |script| ==> script[k].Leased? && script[k].provider.stop == Quiet)
            && (Track(Fresh, r.sent, false) == Over ==> r.outcome.Answered?)
            && !r.outcome.Broken? && !r.outcome.Again?
    decreases |script|
  {
    hide Turn, Track, ComesFrom;
    NothingTracked();
    if script == [] {
      k := 0;
    } else {
      var t := Turn(job, body, trailers, script[0], room, front);
      assert Rely(script[0]);
      TurnLaw(job, body, trailers, script[0], room, front);
      OneTry(job, body, trailers, script[0], room, front);
      k := 0;
      if t.outcome.Again? {
        var rest := Run(job, body, trailers, script[1..], room, true);
        k := OneAnswer(job, body, trailers, script[1..], room, true);
        k := k + 1;
        assert t.sent + rest.sent == rest.sent;
      }
    }
  }

  lemma OneTry(job: Job, body: Text, trailers: seq<Header>, grant: Grant, room: nat, front: bool)
    ensures |Turn(job, body, trailers, grant, room, front).tries| <= 1
  {
  }

  /** Whatever came back, the submitter is sent only what its encoder took. */
  lemma {:induction false} PumpEncodable(job: u64, feed: seq<Message>, stop: Stop, strange: Text, room: nat,
      started: bool)
    ensures AllEncodable(Pump(job, feed, stop, strange, room, started).sent)
    decreases |feed|
  {
    hide Encodable;
    if feed != [] && room > 0 && (feed[0].Response? || feed[0].Body?) {
      PumpEncodable(job, feed[1..], stop, strange, room - 1, started || feed[0].Response?);
    }
  }

  lemma TurnEncodable(job: Job, body: Text, trailers: seq<Header>, grant: Grant, room: nat, front: bool)
    ensures AllEncodable(Turn(job, body, trailers, grant, room, front).sent)
  {
    hide Encodable, Pump, Taken, Synth, Submission, AllEncodable;
    NothingToRefuse();
    match grant
    case JobLeft =>
    case TimedOut(why) => TakenAll(Synth(job.job, UNAVAILABLE, why), room);
    case NoConnection => TakenAll(Synth(job.job, BAD_GATEWAY, HAS_NO_CONNECTION), room);
    case Leased(p) =>
      var a := Try(job, body, trailers, p, room);
      PumpEncodable(job.job, p.feed, p.stop, p.strange, room, false);
      var left := room - |a.sent|;
      TakenAll([Fail(job.job, CONNECTION_ENDED)], left);
      if a.ending.Failed? {
        TakenAll(Synth(job.job, BAD_GATEWAY, a.ending.reason), left);
      } else if a.ending.OutOfPlace? {
        TakenAll(Synth(job.job, BAD_GATEWAY, a.ending.why), left);
      }
      BothEncodable(a.sent, LastWords(job.job, a, left));
  }

  lemma BothEncodable(a: seq<Message>, b: seq<Message>)
    requires AllEncodable(a) && AllEncodable(b)
    ensures AllEncodable(a + b)
  {
  }

  lemma {:induction false} RunEncodable(job: Job, body: Text, trailers: seq<Header>, script: seq<Grant>, room: nat,
      front: bool)
    ensures AllEncodable(Run(job, body, trailers, script, room, front).sent)
    decreases |script|
  {
    hide Turn, AllEncodable;
    if script == [] {
      NothingToRefuse();
    } else {
      var t := Turn(job, body, trailers, script[0], room, front);
      TurnEncodable(job, body, trailers, script[0], room, front);
      if t.outcome.Again? {
        RunEncodable(job, body, trailers, script[1..], room - |t.sent|, true);
        BothEncodable(t.sent, Run(job, body, trailers, script[1..], room - |t.sent|, true).sent);
      }
    }
  }

  // ---------- providers that do not keep the order ----------

  /** The REQUEST and its whole body got to the provider. */
  predicate Delivered(job: Job, body: Text, trailers: seq<Header>, p: Provider) {
    p.opens && Taken(Submission(job.As(p.job), body, trailers), p.room) == Submission(job.As(p.job), body, trailers)
  }

  /** The provider keeps the order, if it was asked at all. */
  predicate Keeps(job: Job, body: Text, trailers: seq<Header>, grant: Grant) {
    grant.Leased? && Delivered(job, body, trailers, grant.provider) ==> Orderly(false, grant.provider.feed)
  }

  /** What came back is what the decoder let through, and texts are ones a BODY can count. */
  ghost predicate Decoded(grant: Grant) {
    match grant
    case Leased(p) => AllEncodable(p.feed) && |p.strange| < 0xFFFF_FFFF
    case TimedOut(why) => |why| < 0xFFFF_FFFF
    case JobLeft => true
    case NoConnection => true
  }

  function FeedLength(grant: Grant): nat {
    if grant.Leased? then |grant.provider.feed| else 0
  }

  function Feeds(script: seq<Grant>): nat {
    if script == [] then 0 else FeedLength(script[0]) + Feeds(script[1..])
  }

  /** Whatever a provider says, what an attempt adds up to is an answer exactly when the provider keeps the order; and
      then nothing was said if another is asked. */
  lemma TurnExactlyIfOrderly(job: Job, body: Text, trailers: seq<Header>, grant: Grant, room: nat, front: bool)
    requires job.job != 0 && Decoded(grant) && room >= FeedLength(grant)
    ensures var t := Turn(job, body, trailers, grant, room, front);
            && (ToSubmitter(t.sent) <==> Keeps(job, body, trailers, grant))
            && (Keeps(job, body, trailers, grant) && t.outcome.Again? ==> t.sent == [])
  {
    hide Encodable, Taken, Pump, Synth, Submission, Orderly, Track;
    NothingTracked();
    match grant
    case JobLeft =>
    case TimedOut(why) => SynthTaken(job.job, UNAVAILABLE, why, room);
    case NoConnection => SynthTaken(job.job, BAD_GATEWAY, HAS_NO_CONNECTION, room);
    case Leased(p) =>
      if Delivered(job, body, trailers, p) {
        AttemptExactlyIfOrderly(job, p, room);
        assert [] + LastWords(job.job, Pump(job.job, p.feed, p.stop, p.strange, room, false), room)
            == LastWords(job.job, Pump(job.job, p.feed, p.stop, p.strange, room, false), room);
      }
  }

  lemma AttemptExactlyIfOrderly(job: Job, p: Provider, room: nat)
    requires job.job != 0 && AllEncodable(p.feed) && |p.strange| < 0xFFFF_FFFF && room >= |p.feed|
    ensures var a := Pump(job.job, p.feed, p.stop, p.strange, room, false);
            && (ToSubmitter(a.sent + LastWords(job.job, a, room - |a.sent|)) <==> Orderly(false, p.feed))
            && (Orderly(false, p.feed) && a.ending.ProviderGone? && !a.started ==> a.sent == [])
  {
    hide Encodable, Taken, Pump, Synth, Orderly, Track;
    var a := Pump(job.job, p.feed, p.stop, p.strange, room, false);
    NothingTracked();
    var left := room - |a.sent|;
    var last := LastWords(job.job, a, left);
    TrackPrefix(Fresh, a.sent, last, false);
    assert a.sent + [] == a.sent;
    if !Orderly(false, p.feed) {
      DisorderIsRelayed(job.job, p.feed, p.stop, p.strange, room, false);
    } else {
      OrderIsKept(job.job, p.feed, p.stop, p.strange, room, false);
      OrderlyEndings(job.job, p.feed, p.stop, p.strange, room, false);
      if a.ending.Failed? {
        SynthTaken(job.job, BAD_GATEWAY, a.ending.reason, left);
        assert a.sent + last == last;
      } else if a.ending.OutOfPlace? && !a.started {
        SynthTaken(job.job, BAD_GATEWAY, p.strange, left);
        assert a.sent + last == last;
      } else if a.ending.ProviderGone? && a.started {
        EndedByFail(job.job, a, left);
      }
    }
  }

  /** Over any number of attempts, at providers that may say anything in any order, the submitter sees one answer
      exactly when every provider that was asked kept the order. */
  lemma {:induction false} OneAnswerExactlyIfOrderly(job: Job, body: Text, trailers: seq<Header>, script: seq<Grant>,
      room: nat, front: bool)
    requires job.job != 0 && room >= Feeds(script) && forall i :: 0 <= i < |script| ==> Decoded(script[i])
    ensures var r := Run(job, body, trailers, script, room, front);
            && |r.tries| <= |script|
            && (ToSubmitter(r.sent) <==> forall i :: 0 <= i < |r.tries| ==> Keeps(job, body, trailers, script[i]))
    decreases |script|
  {
    hide Turn, Track, Keeps, Decoded;
    if script == [] {
      NothingTracked();
    } else {
      var grant, rest := script[0], script[1..];
      var t := Turn(job, body, trailers, grant, room, front);
      assert Decoded(script[0]);
      TurnExactlyIfOrderly(job, body, trailers, grant, room, front);
      TriesOfTurn(job, body, trailers, grant, room, front);
      if t.outcome.Again? {
        var later := Run(job, body, trailers, rest, room - |t.sent|, true);
        assert forall i :: 0 <= i < |rest| ==> rest[i] == script[i + 1];
        OneAnswerExactlyIfOrderly(job, body, trailers, rest, room - |t.sent|, true);
        TrackPrefix(Fresh, t.sent, later.sent, false);
        assert t.sent == [] ==> t.sent + later.sent == later.sent;
        assert Run(job, body, trailers, script, room, front).tries == t.tries + later.tries;
        assert forall i :: 0 < i < |t.tries + later.tries| ==> script[i] == rest[i - 1];
      }
    }
  }

  lemma TriesOfTurn(job: Job, body: Text, trailers: seq<Header>, grant: Grant, room: nat, front: bool)
    ensures var t := Turn(job, body, trailers, grant, room, front);
            && |t.tries| == (if grant.Leased? then 1 else 0)
            && (t.outcome.Again? ==> grant.Leased? && |t.sent| <= FeedLength(grant))
            && (!grant.Leased? ==> Keeps(job, body, trailers, grant))
  {
    hide Pump, Submission, Taken, Orderly, Synth;
    if grant.Leased? {
      var p := grant.provider;
      PumpNoLonger(job.job, p.feed, p.stop, p.strange, room, false);
    }
  }

  lemma {:induction false} PumpNoLonger(job: u64, feed: seq<Message>, stop: Stop, strange: Text, room: nat,
      started: bool)
    ensures |Pump(job, feed, stop, strange, room, started).sent| <= |feed|
    decreases |feed|
  {
    hide Encodable;
    if feed != [] && room > 0 && (feed[0].Response? || feed[0].Body?) {
      PumpNoLonger(job, feed[1..], stop, strange, room - 1, started || feed[0].Response?);
    }
  }

  /** A provider that sends BODY before any RESPONSE and is then gone is retried all the same, and its BODY is in front
      of the next one's answer. */
  lemma BodyBeforeResponse(job: Job, body: Text, trailers: seq<Header>, a: Provider, b: Provider, stray: Text)
    requires job.job != 0 && a.feed == [Body(a.job, stray)] && a.stop == ConnectionEnded
             && Delivered(job, body, trailers, a)
    requires b.feed == [Response(b.job, 200, []), End(b.job, [])] && Delivered(job, body, trailers, b)
    requires 1 <= |stray| <= BODY_CHUNK
    ensures var r := Run(job, body, trailers, [Leased(a), Leased(b)], 3, false);
            && r.sent == [Body(job.job, stray), Response(job.job, 200, []), End(job.job, [])]
            && !ToSubmitter(r.sent) && r.outcome == Answered
  {
    hide Turn, Track, Submission, Taken;
    var onward, answer := Body(job.job, stray), [Response(job.job, 200, []), End(job.job, [])];
    StrayTurn(job, body, trailers, a, stray);
    AnswerTurn(job, body, trailers, b);
    var script := [Leased(a), Leased(b)];
    assert script[1..] == [Leased(b)];
    assert Run(job, body, trailers, script[1..], 2, true).sent == answer;
    assert Run(job, body, trailers, script, 3, false).sent == [onward] + answer;
    TrackBehind(Fresh, onward, answer, false);
    TrackWrong(answer, false);
  }

  lemma StrayTurn(job: Job, body: Text, trailers: seq<Header>, a: Provider, stray: Text)
    requires job.job != 0 && a.feed == [Body(a.job, stray)] && a.stop == ConnectionEnded && 1 <= |stray| <= BODY_CHUNK
    requires Delivered(job, body, trailers, a)
    ensures var t := Turn(job, body, trailers, Leased(a), 3, false);
            t.sent == [Body(job.job, stray)] && t.outcome == Again
  {
    hide Submission, Taken;
    assert a.feed[1..] == [];
    assert Pump(job.job, [], a.stop, a.strange, 2, false) == Attempt([], [], false, ProviderGone);
    assert Encodable(Body(job.job, stray));
  }

  lemma AnswerTurn(job: Job, body: Text, trailers: seq<Header>, b: Provider)
    requires job.job != 0 && b.feed == [Response(b.job, 200, []), End(b.job, [])] && Delivered(job, body, trailers, b)
    ensures var t := Turn(job, body, trailers, Leased(b), 2, true);
            t.sent == [Response(job.job, 200, []), End(job.job, [])] && t.outcome == Answered
  {
    hide Submission, Taken;
    assert b.feed[1..] == [End(b.job, [])];
    assert Encodable(Response(job.job, 200, [])) && Encodable(End(job.job, []));
    assert Pump(job.job, [End(b.job, [])], b.stop, b.strange, 1, true)
      == Attempt([End(job.job, [])], [], true, Complete);
  }

  // ---------- leases ----------

  /** Every lease is given back before the next is asked for, and by the time the job is over; only the first request
      joins at the back of the queue. */
  predicate Disciplined(pool: seq<PoolAct>, front: bool, over: bool)
    decreases |pool|
  {
    || (pool == [Refused(front)] && over)
    || (pool == [Leases(front), Releases] && over)
    || (pool == [Leases(front)] && !over)
    || (pool == [Waits(front)] && !over)
    || (|pool| > 2 && pool[..2] == [Leases(front), Releases] && Disciplined(pool[2..], true, over))
  }

  lemma TurnPool(job: Job, body: Text, trailers: seq<Header>, grant: Grant, room: nat, front: bool)
    ensures var t := Turn(job, body, trailers, grant, room, front);
            if t.outcome.Again? then t.pool == [Leases(front), Releases]
            else t.pool != [] && Disciplined(t.pool, front, !t.outcome.Pending?)
  {
    hide Try, Synth, Taken;
  }

  lemma {:induction false} LeasesComeBack(job: Job, body: Text, trailers: seq<Header>, script: seq<Grant>, room: nat,
      front: bool)
    ensures var r := Run(job, body, trailers, script, room, front);
            r.pool != [] && Disciplined(r.pool, front, !r.outcome.Pending?)
    decreases |script|
  {
    hide Turn;
    if script != [] {
      var t := Turn(job, body, trailers, script[0], room, front);
      TurnPool(job, body, trailers, script[0], room, front);
      if t.outcome.Again? {
        var later := Run(job, body, trailers, script[1..], room - |t.sent|, true);
        LeasesComeBack(job, body, trailers, script[1..], room - |t.sent|, true);
        var pool := t.pool + later.pool;
        assert pool[..2] == [Leases(front), Releases] && pool[2..] == later.pool;
      }
    }
  }

  // ---------- what the providers are sent ----------

  /** What a provider is sent of a job: its REQUEST and body as far as the connection takes them, and CANCEL behind. */
  predicate Delivery(sent: seq<Message>, job: Job, body: Text, trailers: seq<Header>, id: u64) {
    sent <= Submission(job.As(id), body, trailers) + [Cancel(id)]
  }

  /** The k-th provider asked is sent this job and no other. */
  lemma {:induction false} EveryAttemptSendsTheJob(job: Job, body: Text, trailers: seq<Header>, script: seq<Grant>,
      room: nat, front: bool, k: nat)
    requires k < |Run(job, body, trailers, script, room, front).tries|
    ensures k < |script| && script[k].Leased?
    ensures Delivery(Run(job, body, trailers, script, room, front).tries[k], job, body, trailers,
            script[k].provider.job)
    decreases k
  {
    hide Turn, Delivery;
    TriesOfTurn(job, body, trailers, script[0], room, front);
    var t := Turn(job, body, trailers, script[0], room, front);
    if k > 0 {
      EveryAttemptSendsTheJob(job, body, trailers, script[1..], room - |t.sent|, true, k - 1);
    } else {
      TurnDelivers(job, body, trailers, script[0].provider, room, front);
    }
  }

  lemma TurnDelivers(job: Job, body: Text, trailers: seq<Header>, p: Provider, room: nat, front: bool)
    ensures var t := Turn(job, body, trailers, Leased(p), room, front);
            |t.tries| == 1 && Delivery(t.tries[0], job, body, trailers, p.job)
  {
    hide Pump, Submission, LastWords, Taken;
    var out := Submission(job.As(p.job), body, trailers);
    PrefixOfMore(Taken(out, p.room), out, [Cancel(p.job)]);
    if p.room >= |out| {
      TakenOne(Cancel(p.job), p.room - |out|);
      assert out + [] <= out + [Cancel(p.job)];
    }
  }

  /** The body survives every attempt: whatever a provider collects behind its REQUEST, cut off anywhere, is either not
      whole yet or the very body and trailers the job came with. */
  lemma SameBodyEveryAttempt(sent: seq<Message>, job: Job, body: Text, trailers: seq<Header>, id: u64)
    requires sent != [] && Delivery(sent, job, body, trailers, id)
    ensures sent[0] == Request(id, job.service, job.verb, job.target, job.headers)
    ensures var c := Collect(sent[1..]);
            c == NotYet || (c.Collected? && c.body == body && c.trailers == trailers && c.rest <= [Cancel(id)])
  {
    var out := BodyEnd(id, body, trailers);
    var behind := sent[1..];
    assert (Submission(job.As(id), body, trailers) + [Cancel(id)])[1..] == out + [Cancel(id)];
    if |behind| < |out| {
      assert behind == out[..|behind|];
      CutBodyNeverCollected([], id, body, trailers, |behind|);
    } else {
      var rest := behind[|out|..];
      assert behind == out + rest;
      CollectInvertsSend([], id, body, trailers, rest);
      assert [] + body == body;
    }
  }

  /** The encoder never refuses a relayed request: an attempt's delivery is cut only by its connection. */
  lemma RequestGoesOut(job: Job, body: Text, trailers: seq<Header>, p: Provider)
    requires p.job != 0 && Encodable(job.As(job.job)) && Encodable(End(job.job, trailers))
    ensures AllEncodable(Submission(job.As(p.job), body, trailers))
    ensures p.opens && p.room >= |Submission(job.As(p.job), body, trailers)| ==> Delivered(job, body, trailers, p)
  {
    var request, pieces := job.As(p.job), Pieces(p.job, body);
    var out := Submission(request, body, trailers);
    PiecesArithmetic(p.job, body);
    forall i | 0 <= i < |out| ensures Encodable(out[i]) {
      if 0 < i < |out| - 1 {
        assert out[i] == pieces[i - 1];
      } else if i > 0 {
        assert out[i] == End(p.job, trailers);
      }
    }
    TakenAll(out, p.room);
  }
}
