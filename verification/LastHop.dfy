/** The last hop of an answer: what an application is shown of what its consumer gets. */
module LastHop {
  import opened Wire
  import opened Jobs
  import Headers
  import opened RelayLaws
  import opened Consume

  // ---------- a proper response ----------

  /** How far the application's response has come. */
  datatype Page = Blank | Open | Closed | Spoilt

  /** Informational heads, one final head, body, and a proper end or an abort. */
  function Turned(page: Page, s: Shown): Page {
    match page
    case Blank => if s.Informational? then Blank else if s.Head? then Open else Spoilt
    case Open => if s.Data? then Open else if s.Done? || s.Abort? then Closed else Spoilt
    case Closed => Spoilt
    case Spoilt => Spoilt
  }

  function Read(page: Page, shown: seq<Shown>): Page
    decreases |shown|
  {
    if shown == [] then page else Read(Turned(page, shown[0]), shown[1..])
  }

  function PageOf(w: Writer): Page {
    if w.status.Some? then Open else Blank
  }

  lemma {:induction false} ReadSplit(page: Page, a: seq<Shown>, b: seq<Shown>)
    ensures Read(page, a + b) == Read(Read(page, a), b)
    decreases |a|
  {
    if a == [] {
      assert a + b == b;
    } else {
      assert (a + b)[1..] == a[1..] + b;
      ReadSplit(Turned(page, a[0]), a[1..], b);
    }
  }

  lemma ReadOne(page: Page, s: Shown)
    ensures Read(page, [s]) == Turned(page, s) && Read(page, []) == page
  {
    assert [s][1..] == [];
  }

  lemma {:induction false} SpoiltStays(shown: seq<Shown>)
    ensures Read(Spoilt, shown) == Spoilt
    decreases |shown|
  {
    if shown != [] {
      SpoiltStays(shown[1..]);
    }
  }

  /** What a page that is not spoilt looks like: at most one final status line, only informational ones before it, and
      an abort only behind it and last. */
  lemma {:induction false} PageMeans(page: Page, shown: seq<Shown>, i: nat, j: nat)
    requires Read(page, shown) != Spoilt && i < |shown|
    ensures shown[i].Head? ==> page == Blank && forall k :: 0 <= k < |shown| && k != i ==> !shown[k].Head?
    ensures shown[i].Head? && j < i ==> shown[j].Informational?
    ensures shown[i].Abort? ==> i == |shown| - 1 && (page == Blank ==> exists k :: 0 <= k < i && shown[k].Head?)
    decreases |shown|
  {
    hide Read;
    ReadFirst(page, shown);
    var next, rest := Turned(page, shown[0]), shown[1..];
    if next == Open || next == Closed {
      OneHead(next, rest);
      assert forall k :: 0 < k < |shown| ==> shown[k] == rest[k - 1];
    }
    if i > 0 {
      PageMeans(next, rest, i - 1, if j > 0 then j - 1 else 0);
      assert shown[i] == rest[i - 1];
      assert forall k :: 0 < k < |shown| ==> shown[k] == rest[k - 1];
      if shown[i].Abort? && page == Blank {
        if next == Blank {
          var k :| 0 <= k < i - 1 && rest[k].Head?;
          assert shown[k + 1].Head?;
        } else {
          assert shown[0].Head?;
        }
      }
    } else if shown[0].Abort? {
      ClosedEnds(rest);
    }
  }

  lemma ReadFirst(page: Page, shown: seq<Shown>)
    requires shown != []
    ensures Read(page, shown) == Read(Turned(page, shown[0]), shown[1..])
    ensures Read(page, shown) != Spoilt ==> Turned(page, shown[0]) != Spoilt
  {
    SpoiltStays(shown[1..]);
  }

  lemma ClosedEnds(shown: seq<Shown>)
    ensures Read(Closed, shown) != Spoilt ==> shown == []
  {
    if shown != [] {
      SpoiltStays(shown[1..]);
    }
  }

  lemma {:induction false} OneHead(page: Page, shown: seq<Shown>)
    requires page == Open || page == Closed
    requires Read(page, shown) != Spoilt
    ensures forall k :: 0 <= k < |shown| ==> !shown[k].Head?
    decreases |shown|
  {
    hide Read;
    if shown != [] {
      ReadFirst(page, shown);
      OneHead(Turned(page, shown[0]), shown[1..]);
      assert forall k :: 0 < k < |shown| ==> shown[k] == shown[1..][k - 1];
    }
  }

  // What each thing the writer is told to do adds to the page.

  lemma StatusReads(w: Writer, code: u16)
    ensures var (out, w') := StatusOut(w, code);
            Read(PageOf(w), out) == PageOf(w') && w'.dead == w.dead && w'.room == w.room
            && (Final(code) && !w.dead ==> w'.status.Some?)
  {
    ReadOne(Blank, Informational(code, w.header));
    ReadOne(Blank, Head(code, w.header));
  }

  lemma HeadReads(w: Writer, code: u16, headers: seq<Header>)
    ensures var (out, w') := HeadOut(w, code, headers);
            Read(PageOf(w), out) == PageOf(w') && w'.dead == w.dead && w'.room == w.room
              && (!w.dead ==> w'.status.Some?)
  {
    hide StatusOut;
    var w0 := w.(header := Merged(w.header, Headers.ToHttp(headers, [])));
    var (out, w1) := StatusOut(w0, code);
    StatusReads(w0, code);
    StatusReads(w1, 200);
    ReadSplit(PageOf(w), out, FlushOut(w1).0);
  }

  lemma WriteReads(w: Writer, bytes: Text)
    requires !w.dead
    ensures var (out, w', ok) := WriteOut(w, bytes);
            && Read(PageOf(w), out) == PageOf(w') == Open
            && (ok ==> !w'.dead)
  {
    hide StatusOut;
    StatusReads(w, 200);
    ReadSplit(PageOf(w), FlushOut(w).0, [Data(bytes)]);
    ReadOne(Open, Data(bytes));
  }

  lemma ReturnReads(w: Writer, trailers: seq<Header>)
    ensures Read(PageOf(w), ReturnOut(w, trailers)) == if w.dead then PageOf(w) else Closed
  {
    hide StatusOut;
    StatusReads(w, 200);
    ReadSplit(PageOf(w), FlushOut(w).0, [Done(trailers)]);
    ReadOne(Open, Done(trailers));
  }

  lemma SynthesisedReads(w: Writer, code: u16, why: Text)
    requires !w.dead && Final(code)
    ensures Read(PageOf(w), Synthesised(w, code, why)) in {Open, Closed}
  {
    hide StatusOut, WriteOut, ReturnOut;
    var body := why + [10];
    var w0 := w.(header := w.header[CONTENT_TYPE := [PLAIN_TEXT]][CONTENT_LENGTH := [Decimal(|body|)]]);
    var (head, w1) := StatusOut(w0, code);
    var (data, w2, _) := WriteOut(w1, body);
    StatusReads(w0, code);
    WriteReads(w1, body);
    ReturnReads(w2, []);
    ReadSplit(PageOf(w), head, data);
    ReadSplit(PageOf(w), head + data, ReturnOut(w2, []));
  }

  lemma FailureReads(w: Writer, started: bool, why: Text)
    requires !w.dead && (started ==> w.status.Some?)
    ensures Read(PageOf(w), Failure(w, started, why).shown) in {Open, Closed}
  {
    hide Synthesised;
    if started {
      ReadOne(Open, Abort);
    } else {
      SynthesisedReads(w, 502, why);
    }
  }

  /** Whatever comes in, in whatever order, the application sees a proper response: one final status line, nothing but
      informational ones before it, and an abort only behind it; and it sees a status line whenever it is answered. */
  lemma {:induction false} AlwaysAResponse(feed: seq<Message>, stop: Stop, strange: Text, w: Writer, started: bool)
    requires !w.dead && (started ==> w.status.Some?)
    ensures var a := RelayAnswer(feed, stop, strange, w, started);
            && Read(PageOf(w), a.shown) != Spoilt
            && (a.finish in {Finished, Aborted} ==> Read(PageOf(w), a.shown) in {Open, Closed})
    decreases |feed|
  {
    hide Failure, HeadOut, WriteOut, ReturnOut;
    if feed == [] {
      if stop.ServerGone? {
        FailureReads(w, started, SERVER_ENDED + stop.why);
      } else {
        ReadOne(PageOf(w), Abort);
      }
    } else {
      match feed[0]
      case Response(_, status, headers) =>
        var (out, w') := HeadOut(w, status, headers);
        HeadReads(w, status, headers);
        AlwaysAResponse(feed[1..], stop, strange, w', true);
        ReadSplit(PageOf(w), out, RelayAnswer(feed[1..], stop, strange, w', true).shown);
      case Body(_, bytes) =>
        var (out, w', ok) := WriteOut(w, bytes);
        WriteReads(w, bytes);
        if ok {
          AlwaysAResponse(feed[1..], stop, strange, w', started);
          ReadSplit(PageOf(w), out, RelayAnswer(feed[1..], stop, strange, w', started).shown);
        } else {
          ReturnReads(w', []);
          ReadSplit(PageOf(w), out, ReturnOut(w', []));
        }
      case End(_, trailers) => ReturnReads(w, trailers);
      case Fail(_, reason) => FailureReads(w, started, reason);
      case _ => FailureReads(w, started, strange);
    }
  }

  // ---------- whether it is the answer that came ----------

  /** An answer as it is, message for message. */
  function Image(feed: seq<Message>, stop: Stop): seq<Shown> {
    if feed == [] then if stop.ServerGone? then [Abort] else []
    else
      match feed[0]
      case Response(_, status, headers) => [Head(status, Headers.ToHttp(headers, []))] + Image(feed[1..], stop)
      case Body(_, bytes) => [Data(bytes)] + Image(feed[1..], stop)
      case End(_, trailers) => [Done(trailers)]
      case _ => [Abort]
  }

  /** The made-up answer of a failure. */
  function MadeUp(why: Text): seq<Shown> {
    var body := why + [10];
    [Head(502, map[CONTENT_TYPE := [PLAIN_TEXT], CONTENT_LENGTH := [Decimal(|body|)]]), Data(body), Done([])]
  }

  /** What an application should see: a 502 if the job failed before its answer began, else the answer as it is. */
  function Wanted(feed: seq<Message>, stop: Stop, strange: Text): seq<Shown> {
    if feed == [] then if stop.ServerGone? then MadeUp(SERVER_ENDED + stop.why) else []
    else
      match feed[0]
      case Response(_, _, _) => Image(feed, stop)
      case Body(_, _) => Image(feed, stop)
      case End(_, _) => Image(feed, stop)
      case Fail(_, reason) => MadeUp(reason)
      case _ => MadeUp(strange)
  }

  /** Its status is a final one, and one with a body if there is a body. */
  predicate Presentable(feed: seq<Message>) {
    feed != [] && feed[0].Response? ==>
      var status := feed[0].status;
      && (status == 101 || !(100 <= status <= 199))
      && (status !in {101, 204, 304} || NoBodyFirst(feed[1..]))
  }

  predicate NoBodyFirst(feed: seq<Message>) {
    feed == [] || !feed[0].Body?
  }

  lemma AllEncodableTail(feed: seq<Message>)
    requires feed != [] && AllEncodable(feed)
    ensures AllEncodable(feed[1..]) && Encodable(feed[0]) && (feed[0].Body? ==> feed[0].bytes != [])
  {
    assert forall i :: 0 <= i < |feed[1..]| ==> feed[1..][i] == feed[i + 1];
  }

  lemma SameHead(s: Shown, a: seq<Shown>, b: seq<Shown>)
    ensures [s] + a == [s] + b <==> a == b
    ensures a <= b ==> [s] + a <= [s] + b
  {
    assert ([s] + a)[1..] == a && ([s] + b)[1..] == b;
  }

  lemma NoSecondHead(feed: seq<Message>, stop: Stop, strange: Text, w: Writer, s: Shown, more: seq<Shown>)
    requires w.status.Some? && !w.dead && s.Head?
    ensures RelayAnswer(feed, stop, strange, w, true).shown != [s] + more
  {
    AlwaysAResponse(feed, stop, strange, w, true);
    ReadOne(Open, s);
    ReadSplit(Open, [s], more);
    SpoiltStays(more);
  }

  /** One BODY of an open page. */
  lemma BodyShown(feed: seq<Message>, stop: Stop, strange: Text, w: Writer)
    requires feed != [] && feed[0].Body? && feed[0].bytes != []
    requires w.status.Some? && !w.dead && w.room > 0 && BodyAllowed(w.status.value)
    ensures RelayAnswer(feed, stop, strange, w, true).shown
            == [Data(feed[0].bytes)] + RelayAnswer(feed[1..], stop, strange, w.(room := w.room - 1), true).shown
    ensures Image(feed, stop) == [Data(feed[0].bytes)] + Image(feed[1..], stop)
  {
    var bytes := feed[0].bytes;
    assert WriteOut(w, bytes) == ([] + [Data(bytes)], w.(room := w.room - 1), true);
    assert [] + [Data(bytes)] == [Data(bytes)];
  }

  /** Once the status line is out: what follows is shown as it is exactly if no second RESPONSE comes before the end and
      no body the status forbids. */
  lemma {:induction false} OpenExactlyAsGiven(feed: seq<Message>, stop: Stop, strange: Text, w: Writer)
    requires w.status.Some? && !w.dead && w.room >= |feed| && AllEncodable(feed)
    ensures RelayAnswer(feed, stop, strange, w, true).shown == Image(feed, stop)
        <==> Orderly(true, feed) && (BodyAllowed(w.status.value) || NoBodyFirst(feed))
    decreases |feed|
  {
    hide AllEncodable, Encodable, Headers.ToHttp, Merged;
    if feed != [] {
      AllEncodableTail(feed);
      var rest := feed[1..];
      match feed[0]
      case Response(_, status, headers) =>
        var (out, w') := HeadOut(w, status, headers);
        assert out == [];
        NoSecondHead(rest, stop, strange, w', Head(status, Headers.ToHttp(headers, [])), Image(rest, stop));
        assert [] + RelayAnswer(rest, stop, strange, w', true).shown
          == RelayAnswer(rest, stop, strange, w', true).shown;
      case Body(_, bytes) =>
        if BodyAllowed(w.status.value) {
          var w' := w.(room := w.room - 1);
          BodyShown(feed, stop, strange, w);
          OpenExactlyAsGiven(rest, stop, strange, w');
          SameHead(Data(bytes), RelayAnswer(rest, stop, strange, w', true).shown, Image(rest, stop));
        } else {
          assert WriteOut(w, bytes).0 + ReturnOut(w, []) == [Done([])];
          assert RelayAnswer(feed, stop, strange, w, true).shown[0] == Done([]) && Image(feed, stop)[0] == Data(bytes);
        }
      case End(_, trailers) => assert [] + [Done(trailers)] == [Done(trailers)];
      case _ =>
    }
  }

  /** And whatever the connection takes of it, it is a beginning of that. */
  lemma {:induction false} OpenShowsABeginning(feed: seq<Message>, stop: Stop, strange: Text, w: Writer)
    requires w.status.Some? && !w.dead && AllEncodable(feed)
    requires Orderly(true, feed) && (BodyAllowed(w.status.value) || NoBodyFirst(feed))
    ensures RelayAnswer(feed, stop, strange, w, true).shown <= Image(feed, stop)
    decreases |feed|
  {
    hide AllEncodable, Encodable, Headers.ToHttp, Merged;
    if feed != [] {
      AllEncodableTail(feed);
      var rest := feed[1..];
      match feed[0]
      case Response(_, _, _) =>
      case Body(_, bytes) =>
        if w.room > 0 {
          var w' := w.(room := w.room - 1);
          BodyShown(feed, stop, strange, w);
          OpenShowsABeginning(rest, stop, strange, w');
          SameHead(Data(bytes), RelayAnswer(rest, stop, strange, w', true).shown, Image(rest, stop));
        } else {
          assert WriteOut(w, bytes).0 == [];
        }
      case End(_, trailers) => assert [] + [Done(trailers)] == [Done(trailers)];
      case _ =>
    }
  }

  lemma FirstHead(room: nat, status: u16, headers: seq<Header>)
    ensures var (out, w) := HeadOut(NewWriter(room), status, headers);
            var h := Headers.ToHttp(headers, []);
            if Final(status) then out == [Head(status, h)] && w == Writer(Some(status), h, room, false)
            else out == [Informational(status, h), Head(200, h)] && w == Writer(Some(200), h, room, false)
  {
    hide Headers.ToHttp;
    var h := Headers.ToHttp(headers, []);
    assert Merged(map[], h) == h by {
      assert forall k :: k in h ==> [] + h[k] == h[k];
    }
  }

  lemma MadeUpShown(room: nat, why: Text)
    ensures var s := Synthesised(NewWriter(room), 502, why);
            if room > 0 then s == MadeUp(why) else s <= MadeUp(why)
  {
    var body := why + [10];
    var h: Headers.HttpHeader := map[][CONTENT_TYPE := [PLAIN_TEXT]][CONTENT_LENGTH := [Decimal(|body|)]];
    assert h == map[CONTENT_TYPE := [PLAIN_TEXT], CONTENT_LENGTH := [Decimal(|body|)]];
  }

  /** The application is shown exactly the answer that came, message for message, or a made-up 502 of a job that failed
      before its answer began: if and only if what came keeps the order of an answer and its status is a final one, with
      no body where it may not have one. */
  lemma ShownExactlyAsGiven(feed: seq<Message>, stop: Stop, strange: Text, room: nat)
    requires AllEncodable(feed) && room > |feed|
    ensures RelayAnswer(feed, stop, strange, NewWriter(room), false).shown == Wanted(feed, stop, strange)
        <==> Orderly(false, feed) && Presentable(feed)
  {
    hide AllEncodable, Encodable, Headers.ToHttp, MadeUp, Synthesised, HeadOut;
    var w := NewWriter(room);
    if feed == [] {
      if stop.ServerGone? {
        MadeUpShown(room, SERVER_ENDED + stop.why);
      }
    } else {
      AllEncodableTail(feed);
      var rest := feed[1..];
      match feed[0]
      case Response(_, status, headers) =>
        var (out, w') := HeadOut(w, status, headers);
        FirstHead(room, status, headers);
        OpenExactlyAsGiven(rest, stop, strange, w');
        var head := Head(status, Headers.ToHttp(headers, []));
        SameHead(head, RelayAnswer(rest, stop, strange, w', true).shown, Image(rest, stop));
        assert Image(feed, stop)[0] == head;
      case Body(_, bytes) =>
        assert WriteOut(w, bytes).0 == [Head(200, map[]), Data(bytes)];
        assert RelayAnswer(feed, stop, strange, w, false).shown[0] == Head(200, map[]);
        assert Image(feed, stop)[0] == Data(bytes);
      case End(_, trailers) =>
        assert RelayAnswer(feed, stop, strange, w, false).shown == [Head(200, map[]), Done(trailers)];
      case Fail(_, reason) => MadeUpShown(room, reason);
      case _ => MadeUpShown(room, strange);
    }
  }

  /** Wherever the application's connection breaks, it has seen a beginning of that. */
  lemma ShowsABeginning(feed: seq<Message>, stop: Stop, strange: Text, room: nat)
    requires AllEncodable(feed) && Orderly(false, feed) && Presentable(feed)
    ensures RelayAnswer(feed, stop, strange, NewWriter(room), false).shown <= Wanted(feed, stop, strange)
  {
    hide AllEncodable, Encodable, Headers.ToHttp, MadeUp, Synthesised, HeadOut;
    if feed == [] {
      if stop.ServerGone? {
        MadeUpShown(room, SERVER_ENDED + stop.why);
      }
    } else {
      AllEncodableTail(feed);
      var rest := feed[1..];
      match feed[0]
      case Response(_, status, headers) =>
        var w' := HeadOut(NewWriter(room), status, headers).1;
        FirstHead(room, status, headers);
        OpenShowsABeginning(rest, stop, strange, w');
        SameHead(Head(status, Headers.ToHttp(headers, [])), RelayAnswer(rest, stop, strange, w', true).shown,
          Image(rest, stop));
      case Body(_, _) =>
      case End(_, _) =>
      case Fail(_, reason) => MadeUpShown(room, reason);
      case _ => MadeUpShown(room, strange);
    }
  }

  /** What disorder costs. An informational RESPONSE shows two status lines, the second a 200 nobody sent. */
  lemma InformationalShowsTwo(job: u64, headers: seq<Header>, trailers: seq<Header>, stop: Stop, strange: Text,
      room: nat)
    ensures RelayAnswer([Response(job, 103, headers), End(job, trailers)], stop, strange, NewWriter(room), false)
            == Answered([Informational(103, Headers.ToHttp(headers, [])), Head(200, Headers.ToHttp(headers, [])),
              Done(trailers)],
                        Finished)
  {
    hide Headers.ToHttp, HeadOut;
    FirstHead(room, 103, headers);
    var feed := [Response(job, 103, headers), End(job, trailers)];
    var w := HeadOut(NewWriter(room), 103, headers).1;
    assert feed[1..] == [End(job, trailers)];
    assert RelayAnswer(feed[1..], stop, strange, w, true).shown == [Done(trailers)];
  }

  /** BODY with no RESPONSE and then FAIL is a finished 200 with the reason in its body. */
  lemma ReasonInTheBody(job: u64, bytes: Text, why: Text, stop: Stop, strange: Text)
    requires bytes != []
    ensures RelayAnswer([Body(job, bytes), Fail(job, why)], stop, strange, NewWriter(2), false)
            == Answered([Head(200, map[]), Data(bytes), Data(why + [10]), Done([])], Finished)
  {
    var feed := [Body(job, bytes), Fail(job, why)];
    var w := WriteOut(NewWriter(2), bytes).1;
    assert feed[1..] == [Fail(job, why)];
    assert RelayAnswer(feed[1..], stop, strange, w, false).shown == [Data(why + [10]), Done([])];
  }

  /** A second RESPONSE is lost: the application keeps the status of the first. */
  lemma SecondResponseLost(job: u64, trailers: seq<Header>, stop: Stop, strange: Text, room: nat)
    ensures RelayAnswer([Response(job, 200, []), Response(job, 201, []), End(job, trailers)], stop, strange,
            NewWriter(room), false)
            == Answered([Head(200, Headers.ToHttp([], [])), Done(trailers)], Finished)
  {
    hide Headers.ToHttp, Merged;
    var feed := [Response(job, 200, []), Response(job, 201, []), End(job, trailers)];
    FirstHead(room, 200, []);
    var w := HeadOut(NewWriter(room), 200, []).1;
    var w' := HeadOut(w, 201, []).1;
    assert feed[1..] == [Response(job, 201, []), End(job, trailers)] && feed[1..][1..] == [End(job, trailers)];
    assert RelayAnswer(feed[1..][1..], stop, strange, w', true) == Answered([Done(trailers)], Finished);
    assert HeadOut(w, 201, []).0 == [];
    assert RelayAnswer(feed[1..], stop, strange, w, true) == Answered([Done(trailers)], Finished);
  }

  // ---------- whole answers ----------

  function DataBytes(shown: seq<Shown>): Text {
    if shown == [] then [] else (if shown[0].Data? then shown[0].bytes else []) + DataBytes(shown[1..])
  }

  /** A whole answer: in order, and its last message is END. */
  predicate Whole(feed: seq<Message>, started: bool) {
    feed != [] && Track(From(started), feed, false) == Over && feed[|feed| - 1].End?
  }

  lemma OverStays(ms: seq<Message>, bareFail: bool)
    ensures Track(Over, ms, bareFail) == Over <==> ms == []
  {
    if ms != [] {
      TrackWrong(ms[1..], bareFail);
    }
  }

  lemma WholeTail(feed: seq<Message>, started: bool)
    requires Whole(feed, started)
    ensures feed != [] && feed == [feed[0]] + feed[1..]
    ensures feed[0].Response? <==> !started
    ensures feed[0].End? ==> started && feed == [feed[0]]
    ensures !feed[0].End? ==>
              |feed| > 1 && (feed[0].Response? || feed[0].Body?) && Whole(feed[1..], true)
                && feed[1..][|feed| - 2] == feed[|feed| - 1]
  {
    TrackWrong(feed[1..], false);
    OverStays(feed[1..], false);
  }

  lemma {:induction false} WholeIsOrderly(feed: seq<Message>, started: bool)
    requires Whole(feed, started)
    ensures Orderly(started, feed)
    decreases |feed|
  {
    hide Whole;
    WholeTail(feed, started);
    if !feed[0].End? {
      WholeIsOrderly(feed[1..], true);
    }
  }

  lemma ImageStep(m: Message, rest: seq<Message>, stop: Stop)
    requires m.Response? || m.Body?
    ensures var i := Image([m] + rest, stop);
            && i == [if m.Response? then Head(m.status, Headers.ToHttp(m.headers, [])) else Data(m.bytes)]
                 + Image(rest, stop)
            && DataBytes(i) == (if m.Body? then m.bytes else []) + DataBytes(Image(rest, stop))
  {
    hide Headers.ToHttp;
    assert ([m] + rest)[1..] == rest;
    var s := if m.Response? then Head(m.status, Headers.ToHttp(m.headers, [])) else Data(m.bytes);
    assert ([s] + Image(rest, stop))[1..] == Image(rest, stop);
  }

  lemma ImageEnd(m: Message, stop: Stop)
    requires m.End?
    ensures Image([m], stop) == [Done(m.trailers)] && DataBytes([Done(m.trailers)]) == []
  {
    assert [Done(m.trailers)][1..] == [];
  }

  /** The image of a whole answer: its head first, every octet of its body in order, its trailers last. */
  lemma {:induction false} WholeImage(feed: seq<Message>, stop: Stop, started: bool)
    requires Whole(feed, started)
    ensures var i := Image(feed, stop);
            && feed != [] && |i| == |feed| && feed[|feed| - 1].End? && i[|i| - 1] == Done(feed[|feed| - 1].trailers)
            && DataBytes(i) == BodyOf(feed)
            && (!started ==> feed[0].Response? && i[0] == Head(feed[0].status, Headers.ToHttp(feed[0].headers, [])))
    decreases |feed|
  {
    hide Headers.ToHttp, Whole, Image, DataBytes, BodyOf;
    WholeTail(feed, started);
    var m, rest := feed[0], feed[1..];
    if m.End? {
      ImageEnd(m, stop);
      BodyOfFirst(m, []);
      NoBody();
      assert [m] + [] == [m];
    } else {
      WholeImage(rest, stop, true);
      ImageStep(m, rest, stop);
      BodyOfFirst(m, rest);
    }
  }

  lemma NoBody()
    ensures BodyOf([]) == []
  {
  }

  lemma {:induction false} WholeFinishes(feed: seq<Message>, stop: Stop, strange: Text, w: Writer, started: bool)
    requires Whole(feed, started) && w.room >= |feed| && !w.dead && AllEncodable(feed)
    requires if started then w.status.Some? && (BodyAllowed(w.status.value) || NoBodyFirst(feed))
             else w.status.None? && Presentable(feed)
    ensures RelayAnswer(feed, stop, strange, w, started).finish == Finished
    decreases |feed|
  {
    hide Headers.ToHttp, Merged, Whole, AllEncodable, Encodable;
    WholeTail(feed, started);
    AllEncodableTail(feed);
    var m, rest := feed[0], feed[1..];
    if m.Response? {
      WholeFinishes(rest, stop, strange, HeadOut(w, m.status, m.headers).1, true);
    } else if m.Body? {
      WholeFinishes(rest, stop, strange, WriteOut(w, m.bytes).1, true);
    }
  }

  /** A whole answer that can be presented is shown whole: head, body and trailers as they are, and finished. */
  lemma WholeAnswerShown(feed: seq<Message>, stop: Stop, strange: Text, room: nat)
    requires Whole(feed, false) && Presentable(feed) && AllEncodable(feed) && room > |feed|
    ensures var a := RelayAnswer(feed, stop, strange, NewWriter(room), false);
            && a == Answered(Image(feed, stop), Finished) && feed != [] && |a.shown| == |feed|
            && feed[0].Response? && a.shown[0] == Head(feed[0].status, Headers.ToHttp(feed[0].headers, []))
            && DataBytes(a.shown) == BodyOf(feed)
            && feed[|feed| - 1].End? && a.shown[|feed| - 1] == Done(feed[|feed| - 1].trailers)
  {
    hide Headers.ToHttp, Whole, Presentable, AllEncodable, RelayAnswer, Image, DataBytes, BodyOf, Orderly;
    WholeTail(feed, false);
    WholeIsOrderly(feed, false);
    ShownExactlyAsGiven(feed, stop, strange, room);
    WholeFinishes(feed, stop, strange, NewWriter(room), false);
    WholeImage(feed, stop, false);
  }

  lemma {:induction false} ImageReads(feed: seq<Message>, stop: Stop)
    requires Whole(feed, true)
    ensures Read(Open, Image(feed, stop)) == Closed
    decreases |feed|
  {
    hide Headers.ToHttp, Whole, Image;
    WholeTail(feed, true);
    var m, rest := feed[0], feed[1..];
    if m.End? {
      ImageEnd(m, stop);
      ReadOne(Open, Done(m.trailers));
    } else {
      ImageReads(rest, stop);
      ImageStep(m, rest, stop);
      ReadSplit(Open, [Data(m.bytes)], Image(rest, stop));
      ReadOne(Open, Data(m.bytes));
    }
  }

  lemma WholeReads(feed: seq<Message>, stop: Stop)
    requires Whole(feed, false)
    ensures Read(Blank, Image(feed, stop)) == Closed
  {
    hide Headers.ToHttp, Whole, Image;
    WholeTail(feed, false);
    var m, rest := feed[0], feed[1..];
    var head := Head(m.status, Headers.ToHttp(m.headers, []));
    ImageReads(rest, stop);
    ImageStep(m, rest, stop);
    ReadSplit(Blank, [head], Image(rest, stop));
    ReadOne(Blank, head);
  }
}
