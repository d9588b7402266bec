/** What a consumer tells the server, and what it answers by itself, read off what a visit met. */
module Visits {
  import opened Wire
  import opened Jobs
  import opened Consume
  import opened LastHop
  import Headers

  // ---------- when the application is given up on ----------

  /** How many of the first n messages are BODYs with something in them. */
  ghost function Pieces(feed: seq<Message>, n: nat): (k: nat)
    requires n <= |feed|
    ensures k <= n
  {
    if n == 0 then 0 else Pieces(feed, n - 1) + if feed[n - 1].Body? && feed[n - 1].bytes != [] then 1 else 0
  }

  /** The n-th message is a BODY the application's connection does not take: it is dead, or the status that went out
      has no body. */
  ghost predicate RefusedAt(feed: seq<Message>, room: nat, n: nat)
    requires n < |feed|
  {
    && feed[n].Body? && feed[n].bytes != []
    && (Pieces(feed, n) >= room || (n > 0 && feed[0].Response? && feed[0].status in {101, 204, 304}))
  }

  /** The messages from i up to n are written. */
  ghost predicate Written(feed: seq<Message>, room: nat, i: nat, n: nat) {
    && i <= n <= |feed|
    && forall j :: i <= j < n ==> feed[j].Response? || (feed[j].Body? && !RefusedAt(feed, room, j))
  }

  ghost predicate Begun(feed: seq<Message>, i: nat, n: nat) {
    exists j :: i <= j < n && j < |feed| && feed[j].Response?
  }

  /** How a failure ends: a broken connection behind a RESPONSE, else something proper. */
  ghost predicate Fails(begun: bool, a: Answered) {
    if begun then a.finish == Aborted && a.shown != [] && a.shown[|a.shown| - 1] == Abort else a.finish == Finished
  }

  /** The answer is over at n: what comes there, or does not come, decides how. */
  ghost predicate EndsAt(feed: seq<Message>, stop: Stop, room: nat, i: nat, started: bool, n: nat, a: Answered) {
    && Written(feed, room, i, n)
    && var begun := started || Begun(feed, i, n);
    if n == |feed| then
      match stop
      case ApplicationGone => a.finish == Cancelled
      case Quiet => a.finish == Waiting
      case ServerGone(_) => Fails(begun, a)
    else
      match feed[n]
      case Response(_, _, _) => false
      case Body(_, _) => RefusedAt(feed, room, n) && a.finish == Cancelled
      case End(_, trailers) => a.finish == Finished && a.shown != [] && a.shown[|a.shown| - 1] == Done(trailers)
      case _ => Fails(begun, a)
  }

  /** The writer as it stands before the i-th message. */
  ghost predicate StandsAt(w: Writer, feed: seq<Message>, room: nat, i: nat)
    requires i <= |feed|
  {
    && !w.dead && Pieces(feed, i) <= room && w.room == room - Pieces(feed, i)
    && if i == 0 then w.status.None?
       else
         && w.status.Some?
         && (BodyAllowed(w.status.value) <==> !(feed[0].Response? && feed[0].status in {101, 204, 304}))
  }

  /** A RESPONSE adds its values behind those that are there, name by name. */
  lemma AddedBehind(h: Headers.HttpHeader, g: Headers.HttpHeader, k: Text)
    ensures k in Merged(h, g) <==> k in h || k in g
    ensures k in h && k in g ==> Merged(h, g)[k] == h[k] + g[k]
    ensures k in h && k !in g ==> Merged(h, g)[k] == h[k]
    ensures k !in h && k in g ==> Merged(h, g)[k] == g[k]
  {
    assert k in h ==> h[k] + [] == h[k];
    assert k in g ==> [] + g[k] == g[k];
  }

  lemma ResponseStands(w: Writer, feed: seq<Message>, room: nat, i: nat)
    requires i < |feed| && feed[i].Response? && StandsAt(w, feed, room, i)
    ensures StandsAt(HeadOut(w, feed[i].status, feed[i].headers).1, feed, room, i + 1)
  {
    hide Headers.ToHttp, Merged;
  }

  lemma BodyStands(w: Writer, feed: seq<Message>, room: nat, i: nat)
    requires i < |feed| && feed[i].Body? && StandsAt(w, feed, room, i)
    ensures WriteOut(w, feed[i].bytes).2 <==> !RefusedAt(feed, room, i)
    ensures WriteOut(w, feed[i].bytes).2 ==> StandsAt(WriteOut(w, feed[i].bytes).1, feed, room, i + 1)
  {
  }

  /** Something is shown at last: what stands last there stands last in all. */
  lemma LastStays(out: seq<Shown>, a: Answered)
    ensures Behind(out, a).finish == a.finish
    ensures a.shown != [] ==>
              Behind(out, a).shown != [] && Behind(out, a).shown[|Behind(out, a).shown| - 1] == a.shown[|a.shown| - 1]
  {
  }

  /** One message: the answer goes on behind it, or is over. */
  lemma AnswerGoesOn(feed: seq<Message>, stop: Stop, strange: Text, w: Writer, started: bool)
    requires feed != [] && !w.dead
    ensures var m, a := feed[0], RelayAnswer(feed, stop, strange, w, started);
      if m.Response? then
        var (out, w') := HeadOut(w, m.status, m.headers);
        a == Behind(out, RelayAnswer(feed[1..], stop, strange, w', true))
      else if m.Body? && WriteOut(w, m.bytes).2 then
        var (out, w', _) := WriteOut(w, m.bytes);
        a == Behind(out, RelayAnswer(feed[1..], stop, strange, w', started))
      else if m.Body? then a.finish == Cancelled
      else if m.End? then a.finish == Finished && a.shown != [] && a.shown[|a.shown| - 1] == Done(m.trailers)
      else Fails(started, a)
  {
    hide HeadOut, WriteOut, Synthesised;
  }

  lemma AnswerOver(stop: Stop, strange: Text, w: Writer, started: bool)
    ensures var a := RelayAnswer([], stop, strange, w, started);
      match stop
      case ApplicationGone => a.finish == Cancelled
      case Quiet => a.finish == Waiting
      case ServerGone(_) => Fails(started, a)
  {
    hide Synthesised;
  }

  lemma BegunBehind(feed: seq<Message>, i: nat, k: nat, n: nat)
    requires k == i + 1 <= n <= |feed|
    ensures Begun(feed, i, n) <==> feed[i].Response? || Begun(feed, k, n)
  {
  }

  lemma OneMoreWritten(feed: seq<Message>, stop: Stop, room: nat, i: nat, started: bool, n: nat, out: seq<Shown>,
                       a: Answered)
    requires i < |feed| && (feed[i].Response? || (feed[i].Body? && !RefusedAt(feed, room, i)))
    requires EndsAt(feed, stop, room, i + 1, started || feed[i].Response?, n, a)
    ensures EndsAt(feed, stop, room, i, started, n, Behind(out, a))
  {
    hide RefusedAt, Begun, Behind;
    BegunBehind(feed, i, i + 1, n);
    LastStays(out, a);
  }

  /** Every answer is over somewhere. */
  lemma {:induction false} AnswerEnds(feed: seq<Message>, stop: Stop, strange: Text, w: Writer, room: nat, i: nat,
                                      started: bool) returns (n: nat)
    requires i <= |feed| && StandsAt(w, feed, room, i)
    ensures EndsAt(feed, stop, room, i, started, n, RelayAnswer(feed[i..], stop, strange, w, started))
    decreases |feed| - i
  {
    hide RelayAnswer, HeadOut, WriteOut, StandsAt, RefusedAt, EndsAt, Behind;
    n := i;
    NotDead(w, feed, room, i);
    if i == |feed| {
      AnswerOver(stop, strange, w, started);
      OverHere(feed, stop, room, i, started, RelayAnswer([], stop, strange, w, started));
    } else {
      var m, rest := feed[i], feed[i..];
      assert rest[0] == m && rest[1..] == feed[i + 1..];
      AnswerGoesOn(rest, stop, strange, w, started);
      if m.Response? {
        var (out, w') := HeadOut(w, m.status, m.headers);
        ResponseStands(w, feed, room, i);
        n := AnswerEnds(feed, stop, strange, w', room, i + 1, true);
        OneMoreWritten(feed, stop, room, i, started, n, out, RelayAnswer(rest[1..], stop, strange, w', true));
      } else if m.Body? && WriteOut(w, m.bytes).2 {
        var (out, w', _) := WriteOut(w, m.bytes);
        BodyStands(w, feed, room, i);
        n := AnswerEnds(feed, stop, strange, w', room, i + 1, started);
        OneMoreWritten(feed, stop, room, i, started, n, out, RelayAnswer(rest[1..], stop, strange, w', started));
      } else {
        if m.Body? {
          BodyStands(w, feed, room, i);
        }
        OverHere(feed, stop, room, i, started, RelayAnswer(rest, stop, strange, w, started));
      }
    }
  }

  lemma NotDead(w: Writer, feed: seq<Message>, room: nat, i: nat)
    requires i <= |feed| && StandsAt(w, feed, room, i)
    ensures !w.dead
  {
  }

  lemma OverHere(feed: seq<Message>, stop: Stop, room: nat, i: nat, started: bool, a: Answered)
    requires i <= |feed|
    requires i == |feed| ==>
      match stop
      case ApplicationGone => a.finish == Cancelled
      case Quiet => a.finish == Waiting
      case ServerGone(_) => Fails(started, a)
    requires i < |feed| ==>
      match feed[i]
      case Response(_, _, _) => false
      case Body(_, _) => RefusedAt(feed, room, i) && a.finish == Cancelled
      case End(_, trailers) => a.finish == Finished && a.shown != [] && a.shown[|a.shown| - 1] == Done(trailers)
      case _ => Fails(started, a)
    ensures EndsAt(feed, stop, room, i, started, i, a)
  {
    hide RefusedAt;
  }

  /** The application is given up on: all that came is written and it left, or what comes next is refused. */
  ghost predicate GivenUp(feed: seq<Message>, stop: Stop, room: nat) {
    exists n: nat :: GivenUpAt(feed, stop, room, n)
  }

  ghost predicate GivenUpAt(feed: seq<Message>, stop: Stop, room: nat, n: nat) {
    Written(feed, room, 0, n) && if n == |feed| then stop == ApplicationGone else RefusedAt(feed, room, n)
  }

  lemma GivenUpExactly(feed: seq<Message>, stop: Stop, strange: Text, room: nat)
    ensures RelayAnswer(feed, stop, strange, NewWriter(room), false).finish.Cancelled? <==> GivenUp(feed, stop, room)
  {
    hide RelayAnswer, RefusedAt;
    var n := AnswerEnds(feed, stop, strange, NewWriter(room), room, 0, false);
    assert feed[0..] == feed;
    var a := RelayAnswer(feed, stop, strange, NewWriter(room), false);
    assert a.finish.Cancelled? ==> GivenUpAt(feed, stop, room, n);
    if GivenUp(feed, stop, room) {
      var k: nat :| GivenUpAt(feed, stop, room, k);
      RefusedIsBody(feed, room, k);
      assert k == n;
    }
  }

  lemma RefusedIsBody(feed: seq<Message>, room: nat, k: nat)
    ensures k < |feed| && RefusedAt(feed, room, k) ==> feed[k].Body?
  {
  }

  // ---------- a visit ----------

  /** The consumer's own answer, as far as the application's connection takes it. */
  ghost predicate OwnAnswer(shown: seq<Shown>, status: u16, why: Text, room: nat) {
    && 1 <= |shown| <= 3
    && shown[0].Head? && shown[0].status == status
    && shown[0].headers.Keys == {Ascii("Content-Type"), Ascii("Content-Length")}
    && shown[0].headers[Ascii("Content-Type")] == [Ascii("text/plain; charset=utf-8")]
    && |shown[0].headers[Ascii("Content-Length")]| == 1
    && Spells(shown[0].headers[Ascii("Content-Length")][0], |why| + 1)
    && if room > 0 then shown[1..] == [Data(why + [10]), Done([])] else |shown| == 1
  }

  lemma SynthesisedIs(room: nat, status: u16, why: Text)
    requires status in {501, 502, 503}
    ensures OwnAnswer(Synthesised(NewWriter(room), status, why), status, why, room)
  {
    var body := why + [10];
    var h: Headers.HttpHeader := map[][CONTENT_TYPE := [PLAIN_TEXT]][CONTENT_LENGTH := [Decimal(|body|)]];
    SynthesisedShows(room, status, why, h);
    OwnHeader(why, h);
  }

  lemma SynthesisedShows(room: nat, status: u16, why: Text, h: Headers.HttpHeader)
    requires status in {501, 502, 503}
    requires h == map[][CONTENT_TYPE := [PLAIN_TEXT]][CONTENT_LENGTH := [Decimal(|why + [10]|)]]
    ensures Synthesised(NewWriter(room), status, why)
         == [Head(status, h)] + if room > 0 then [Data(why + [10]), Done([])] else []
  {
  }

  lemma OwnHeader(why: Text, h: Headers.HttpHeader)
    requires h == map[][CONTENT_TYPE := [PLAIN_TEXT]][CONTENT_LENGTH := [Decimal(|why + [10]|)]]
    ensures h.Keys == {Ascii("Content-Type"), Ascii("Content-Length")}
    ensures h[Ascii("Content-Type")] == [Ascii("text/plain; charset=utf-8")]
    ensures |h[Ascii("Content-Length")]| == 1 && Spells(h[Ascii("Content-Length")][0], |why| + 1)
  {
    DecimalReads(|why| + 1);
    assert CONTENT_TYPE == Ascii("Content-Type") && CONTENT_LENGTH == Ascii("Content-Length");
    assert |CONTENT_TYPE| != |CONTENT_LENGTH|;
  }

  /** A job that failed before anything else came is told as a 502 with its reason, and whole. */
  lemma FailedAtOnce(job: u64, reason: Text, rest: seq<Message>, stop: Stop, strange: Text, room: nat)
    ensures var a := RelayAnswer([Fail(job, reason)] + rest, stop, strange, NewWriter(room), false);
            OwnAnswer(a.shown, 502, reason, room) && a.finish == Finished
    ensures stop.ServerGone? ==>
              var a := RelayAnswer([], stop, strange, NewWriter(room), false);
              && OwnAnswer(a.shown, 502, Ascii("the connection to the server ended: ") + stop.why, room)
              && a.finish == Finished
  {
    hide Synthesised, OwnAnswer;
    SynthesisedIs(room, 502, reason);
    if stop.ServerGone? {
      SynthesisedIs(room, 502, SERVER_ENDED + stop.why);
    }
  }

  /** What becomes of every visit: the consumer answers by itself when there is no job, with the status that says why,
      and otherwise sends the job, and a CANCEL behind it exactly when it gives the application up and the connection
      takes one more message. */
  lemma VisitExactly(visit: Visit, room: nat)
    requires visit.Valid()
    ensures var (a, toServer) := Consumed(visit, NewWriter(room));
      match visit
      case Upgrade =>
        && OwnAnswer(a.shown, 501, Ascii("upgrade requests are not pooled"), room)
        && a.finish == Finished && toServer == []
      case Unreadable(why) =>
        && OwnAnswer(a.shown, 502, Ascii("reading the request body: ") + why, room)
        && a.finish == Finished && toServer == []
      case Unconnected =>
        && OwnAnswer(a.shown, 503, Ascii("this peer has no connection to the server"), room)
        && a.finish == Finished && toServer == []
      case NoJob(why) =>
        && OwnAnswer(a.shown, 503, Ascii("the connection to the server ended: ") + why, room)
        && a.finish == Finished && toServer == []
      case Submits(request, body, trailers, link, broken, feed, stop, strange) =>
        var out := Submission(request, body, trailers);
        if link < |out| || !AllEncodable(out) then
          OwnAnswer(a.shown, 503, broken, room) && a.finish == Finished && toServer == Taken(out, link)
        else if GivenUp(feed, stop, room) then
          && a.finish == Cancelled
          && toServer == out + if link > |out| && request.job != 0 then [Cancel(request.job)] else []
        else a.finish != Cancelled && toServer == out
  {
    hide Encodable, Synthesised, RelayAnswer, Submission, GivenUp, OwnAnswer, Taken, AllEncodable;
    match visit
    case Upgrade => SynthesisedIs(room, 501, NO_UPGRADES);
    case Unreadable(why) => SynthesisedIs(room, 502, READING + why);
    case Unconnected => SynthesisedIs(room, 503, NO_CONNECTION);
    case NoJob(why) => SynthesisedIs(room, 503, SERVER_ENDED + why);
    case Submits(request, body, trailers, link, broken, feed, stop, strange) =>
      var out := Submission(request, body, trailers);
      SynthesisedIs(room, 503, broken);
      TakenAll(out, link);
      GivenUpExactly(feed, stop, strange, room);
      if link >= |out| {
        CancelFits(request.job, link - |out|);
      }
      assert out + [] == out;
  }

  lemma CancelFits(job: u64, room: nat)
    ensures Taken([Cancel(job)], room) == if room > 0 && job != 0 then [Cancel(job)] else []
  {
    TakenOne(Cancel(job), room);
  }
}
