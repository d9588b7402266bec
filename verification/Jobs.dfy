/** What every hop of a job does with messages: sending on a connection, splitting a body and collecting it again,
    and the order in which an answer may come. */
module Jobs {
  import opened Wire

  const BODY_CHUNK := 32768

  // ---------- sending ----------

  /** The messages of ms a connection takes when it accepts room more before it dies: all up to the first the encoder
      refuses or the connection is gone for. */
  function Taken(ms: seq<Message>, room: nat): (t: seq<Message>)
    ensures t <= ms && |t| <= room
  {
    if ms == [] || room == 0 || !Encodable(ms[0]) then [] else [ms[0]] + Taken(ms[1..], room - 1)
  }

  ghost predicate AllEncodable(ms: seq<Message>) {
    forall i :: 0 <= i < |ms| ==> Encodable(ms[i])
  }

  lemma AllEncodableStep(m: Message, ms: seq<Message>)
    ensures AllEncodable([m] + ms) <==> Encodable(m) && AllEncodable(ms)
  {
    var all := [m] + ms;
    assert forall i :: 0 <= i < |ms| ==> ms[i] == all[i + 1];
    assert all[0] == m;
  }

  /** All are taken exactly when there is room for all and the encoder refuses none; short of that, what is taken
      stops where the room ends or the encoder refuses. */
  lemma {:induction false} TakenAll(ms: seq<Message>, room: nat)
    ensures Taken(ms, room) == ms <==> |ms| <= room && AllEncodable(ms)
    ensures AllEncodable(Taken(ms, room))
    ensures Taken(ms, room) != ms ==> |Taken(ms, room)| == room || !Encodable(ms[|Taken(ms, room)|])
    decreases |ms|
  {
    hide Encodable, AllEncodable;
    if ms == [] {
      NothingToRefuse();
    } else if room == 0 || !Encodable(ms[0]) {
      NothingToRefuse();
      assert ms == [ms[0]] + ms[1..];
      AllEncodableStep(ms[0], ms[1..]);
    } else {
      var rest := ms[1..];
      assert ms == [ms[0]] + rest;
      TakenAll(rest, room - 1);
      AllEncodableStep(ms[0], rest);
      AllEncodableStep(ms[0], Taken(rest, room - 1));
      TakenStep([], ms[0], rest, room);
      assert Taken(ms, room) == ms <==> Taken(rest, room - 1) == rest;
    }
  }

  lemma NothingToRefuse()
    ensures AllEncodable([])
  {
  }

  /** Sending two runs of messages is sending the first and, if all of it was taken, the second. */
  lemma {:induction false} TakenSplit(a: seq<Message>, b: seq<Message>, room: nat)
    ensures Taken(a + b, room) == Taken(a, room) + if Taken(a, room) == a then Taken(b, room - |a|) else []
    decreases |a|
  {
    hide Encodable, Taken;
    if a == [] {
      assert a + b == b;
      TakenNothing(room);
    } else {
      var m, rest := a[0], a[1..];
      assert a == [m] + rest && a + b == [m] + (rest + b);
      TakenStep([], m, rest, room);
      TakenStep([], m, rest + b, room);
      if room > 0 && Encodable(m) {
        TakenSplit(rest, b, room - 1);
        var first, second := Taken(rest, room - 1), if Taken(rest, room - 1) == rest then Taken(b, room - 1 - |rest|)
          else [];
        assert [m] + (first + second) == [m] + first + second;
      }
    }
  }

  lemma TakenNothing(room: nat)
    ensures Taken([], room) == []
  {
  }

  lemma TakenOne(m: Message, room: nat)
    ensures Taken([m], room) == if room > 0 && Encodable(m) then [m] else []
  {
    assert [m][1..] == [];
  }

  /** One message of several, sent by a connection that has sent before. */
  lemma TakenStep(before: seq<Message>, m: Message, rest: seq<Message>, room: nat)
    ensures var t := Taken([m] + rest, room);
            if room > 0 && Encodable(m) then
              var t' := Taken(rest, room - 1);
              t == [m] + t' && before + t == before + [m] + t' && |t| == |t'| + 1 && (t == [m] + rest <==> t' == rest)
            else
              t == [] && t != [m] + rest && before + t == before
  {
    hide Encodable;
    assert ([m] + rest)[1..] == rest;
    if room > 0 && Encodable(m) {
      var t' := Taken(rest, room - 1);
      assert before + ([m] + t') == before + [m] + t';
      if [m] + t' == [m] + rest {
        assert t' == ([m] + t')[1..];
      }
    }
  }

  /** The sending half of a connection: everything its encoder has taken, and how many more messages it takes. */
  class Link {
    var sent: seq<Message>
    var room: nat

    constructor (room: nat)
      ensures sent == [] && this.room == room
    {
      sent, this.room := [], room;
    }

    /** A message outside the encoder's range is refused and costs nothing; a dead connection refuses everything. */
    method Send(m: Message) returns (ok: bool)
      modifies this
      ensures ok <==> Encodable(m) && old(room) > 0
      ensures sent == (if ok then old(sent) + [m] else old(sent)) && room == (if ok then old(room) - 1 else old(room))
    {
      ok := Encodable(m) && room > 0;
      if ok {
        sent, room := sent + [m], room - 1;
      }
    }

    /** Sends one after another until one is refused. */
    method SendAll(ms: seq<Message>) returns (ok: bool)
      modifies this
      ensures var t := Taken(ms, old(room));
              sent == old(sent) + t && room == old(room) - |t| && ok == (t == ms)
    {
      hide Encodable, Taken;
      ghost var all := Taken(ms, room);
      var rest := ms;
      while rest != []
        invariant sent + Taken(rest, room) == old(sent) + all && room - |Taken(rest, room)| == old(room) - |all|
        invariant Taken(rest, room) == rest <==> all == ms
        decreases |rest|
      {
        assert rest == [rest[0]] + rest[1..];
        TakenStep(sent, rest[0], rest[1..], room);
        ok := Send(rest[0]);
        if !ok {
          return;
        }
        rest := rest[1..];
      }
      TakenNothing(room);
      return true;
    }

    /** Splits a body into BODY messages and ends it with END. */
    method SendBodyEnd(job: u64, body: Text, trailers: seq<Header>) returns (ok: bool)
      modifies this
      ensures var ms := BodyEnd(job, body, trailers);
              var t := Taken(ms, old(room));
              sent == old(sent) + t && room == old(room) - |t| && ok == (t == ms)
    {
      hide Encodable, Taken, BodyEnd;
      ghost var ms, all := BodyEnd(job, body, trailers), Taken(BodyEnd(job, body, trailers), room);
      var rest := body;
      while rest != []
        invariant var left := BodyEnd(job, rest, trailers);
          && sent + Taken(left, room) == old(sent) + all && room - |Taken(left, room)| == old(room) - |all|
          && (Taken(left, room) == left <==> all == ms)
        decreases |rest|
      {
        var chunk := Piece(rest);
        BodyEndStep(job, rest, trailers);
        TakenStep(sent, Body(job, chunk), BodyEnd(job, rest[|chunk|..], trailers), room);
        ok := Send(Body(job, chunk));
        if !ok {
          return;
        }
        rest := rest[|chunk|..];
      }
      NothingLeft(job, trailers);
      TakenOne(End(job, trailers), room);
      ok := Send(End(job, trailers));
    }

    /** Sends a REQUEST and the body behind it. */
    method Submit(request: Message, body: Text, trailers: seq<Header>) returns (ok: bool)
      requires request.Request?
      modifies this
      ensures var ms := Submission(request, body, trailers);
              var t := Taken(ms, old(room));
              sent == old(sent) + t && room == old(room) - |t| && ok == (t == ms)
    {
      hide Encodable, Taken, BodyEnd;
      TakenStep(sent, request, BodyEnd(request.job, body, trailers), room);
      ok := Send(request);
      if ok {
        ok := SendBodyEnd(request.job, body, trailers);
      }
    }
  }

  /** Everything that is sent to have a job run. */
  function Submission(request: Message, body: Text, trailers: seq<Header>): seq<Message>
    requires request.Request?
  {
    [request] + BodyEnd(request.job, body, trailers)
  }

  lemma NothingLeft(job: u64, trailers: seq<Header>)
    ensures BodyEnd(job, [], trailers) == [End(job, trailers)]
  {
  }

  // ---------- bodies ----------

  function Piece(body: Text): (c: Text)
    ensures |c| <= |body| && |c| <= BODY_CHUNK && c == body[..|c|] && (body != [] ==> c != [])
  {
    if |body| > BODY_CHUNK then body[..BODY_CHUNK] else body
  }

  function Pieces(job: u64, body: Text): seq<Message>
    decreases |body|
  {
    if body == [] then [] else [Body(job, Piece(body))] + Pieces(job, body[|Piece(body)|..])
  }

  /** A body as messages, behind which nothing of it follows. */
  function BodyEnd(job: u64, body: Text, trailers: seq<Header>): seq<Message> {
    Pieces(job, body) + [End(job, trailers)]
  }

  lemma BodyEndStep(job: u64, body: Text, trailers: seq<Header>)
    requires body != []
    ensures BodyEnd(job, body, trailers) == [Body(job, Piece(body))] + BodyEnd(job, body[|Piece(body)|..], trailers)
  {
  }

  /** A body of n octets is ceil(n / 32768) messages, each with 1 to 32768 of them, and each sendable. */
  lemma {:induction false} PiecesArithmetic(job: u64, body: Text)
    requires job != 0
    ensures |Pieces(job, body)| == (|body| + 32767) / 32768
    ensures forall i :: 0 <= i < |Pieces(job, body)| ==>
              && Pieces(job, body)[i].Body? && Pieces(job, body)[i].job == job
              && 1 <= |Pieces(job, body)[i].bytes| <= BODY_CHUNK && Encodable(Pieces(job, body)[i])
    decreases |body|
  {
    if body != [] {
      PiecesArithmetic(job, body[|Piece(body)|..]);
    }
  }

  /** How a job's body comes in. */
  datatype Collection =
    | Collected(body: Text, trailers: seq<Header>, rest: seq<Message>)
    | CancelledWhile
    | OutOfStep(kind: byte)
    | NotYet

  /** BODY messages until END, behind what has come already. */
  function CollectFrom(sofar: Text, ms: seq<Message>): Collection
    decreases |ms|
  {
    if ms == [] then NotYet
    else if ms[0].Body? then CollectFrom(sofar + ms[0].bytes, ms[1..])
    else if ms[0].End? then Collected(sofar, ms[0].trailers, ms[1..])
    else if ms[0].Cancel? then CancelledWhile
    else OutOfStep(Kind(ms[0]))
  }

  function Collect(ms: seq<Message>): Collection {
    CollectFrom([], ms)
  }

  /** Reads a job's inbox until its body is whole; the inbox holds items and ends behind them. */
  method CollectBody(items: seq<Message>) returns (c: Collection)
    ensures c == Collect(items)
  {
    var body, i := [], 0;
    while i < |items|
      invariant 0 <= i <= |items| && CollectFrom(body, items[i..]) == Collect(items)
    {
      var m := items[i];
      assert items[i..][0] == m && items[i..][1..] == items[i + 1..];
      match m {
        case Body(_, bytes) => body := body + bytes;
        case End(_, trailers) => return Collected(body, trailers, items[i + 1..]);
        case Cancel(_) => return CancelledWhile;
        case _ => return OutOfStep(Kind(m));
      }
      i := i + 1;
    }
    return NotYet;
  }

  /** Collecting inverts sending: the same body and trailers, whatever follows, on whatever job. */
  lemma {:induction false} CollectInvertsSend(sofar: Text, job: u64, body: Text, trailers: seq<Header>,
      rest: seq<Message>)
    ensures CollectFrom(sofar, BodyEnd(job, body, trailers) + rest) == Collected(sofar + body, trailers, rest)
    decreases |body|
  {
    var ms := BodyEnd(job, body, trailers) + rest;
    if body == [] {
      assert ms == [End(job, trailers)] + rest;
      assert sofar + [] == sofar;
    } else {
      var c, left := Piece(body), body[|Piece(body)|..];
      BodyEndStep(job, body, trailers);
      assert ms == [Body(job, c)] + (BodyEnd(job, left, trailers) + rest);
      assert ms[1..] == BodyEnd(job, left, trailers) + rest;
      CollectInvertsSend(sofar + c, job, left, trailers, rest);
      assert sofar + c + left == sofar + body;
    }
  }

  /** What is collected is decided by the first message that is no BODY. */
  lemma {:induction false} CollectExactly(sofar: Text, ms: seq<Message>) returns (n: nat)
    ensures n <= |ms| && forall i :: 0 <= i < n ==> ms[i].Body?
    ensures n == |ms| ==> CollectFrom(sofar, ms) == NotYet
    ensures n < |ms| ==>
              var c := CollectFrom(sofar, ms);
              match ms[n]
              case Body(_, _) => false
              case End(_, trailers) => c == Collected(sofar + BodyOf(ms[..n]), trailers, ms[n + 1..])
              case Cancel(_) => c == CancelledWhile
              case _ => c.OutOfStep?
    decreases |ms|
  {
    n := 0;
    if ms != [] && ms[0].Body? {
      n := CollectExactly(sofar + ms[0].bytes, ms[1..]);
      assert ms[..n + 1] == [ms[0]] + ms[1..][..n];
      BodyOfFirst(ms[0], ms[1..][..n]);
      assert sofar + ms[0].bytes + BodyOf(ms[1..][..n]) == sofar + (ms[0].bytes + BodyOf(ms[1..][..n]));
      n := n + 1;
    } else {
      assert sofar + BodyOf(ms[..0]) == sofar;
    }
  }

  /** A body cut short is never taken for a shorter one. */
  lemma {:induction false} CutBodyNeverCollected(sofar: Text, job: u64, body: Text, trailers: seq<Header>, n: nat)
    requires n < |BodyEnd(job, body, trailers)|
    ensures CollectFrom(sofar, BodyEnd(job, body, trailers)[..n]) == NotYet
    decreases |body|
  {
    if n > 0 {
      assert body != [];
      var c, left := Piece(body), body[|Piece(body)|..];
      BodyEndStep(job, body, trailers);
      assert BodyEnd(job, body, trailers)[..n] == [Body(job, c)] + BodyEnd(job, left, trailers)[..n - 1];
      assert BodyEnd(job, body, trailers)[..n][1..] == BodyEnd(job, left, trailers)[..n - 1];
      CutBodyNeverCollected(sofar + c, job, left, trailers, n - 1);
    }
  }

  // ---------- what a connection brings a job ----------

  /** What goes to a job's inbox of everything on a connection. */
  function About(job: u64, ms: seq<Message>): seq<Message> {
    if ms == [] then []
    else if ms[0].Jobbed() && ms[0].job == job then [ms[0]] + About(job, ms[1..])
    else About(job, ms[1..])
  }

  lemma {:induction false} AboutMore(job: u64, ms: seq<Message>, m: Message)
    ensures About(job, ms + [m]) == if m.Jobbed() && m.job == job then About(job, ms) + [m] else About(job, ms)
  {
    if ms == [] {
      assert [m][1..] == [];
    } else {
      AboutMore(job, ms[1..], m);
      assert (ms + [m])[0] == ms[0] && (ms + [m])[1..] == ms[1..] + [m];
    }
  }

  // ---------- while the job runs ----------

  const CANCELLED: Text := Ascii("cancelled")

  /** Watching the rest of a job's inbox: what the job is cancelled with, if it is. ends is the reason the inbox gives
      behind these messages, if it has ended. */
  function Watch(items: seq<Message>, ends: Option<Text>): Option<Text> {
    if items == [] then ends else if items[0].Cancel? then Some(CANCELLED) else Watch(items[1..], ends)
  }

  method WatchCancel(items: seq<Message>, ends: Option<Text>) returns (cause: Option<Text>)
    ensures cause == Watch(items, ends)
  {
    for i := 0 to |items|
      invariant Watch(items[i..], ends) == Watch(items, ends)
    {
      assert items[i..][0] == items[i] && items[i..][1..] == items[i + 1..];
      if items[i].Cancel? {
        return Some(CANCELLED);
      }
    }
    return ends;
  }

  /** A running job is cancelled exactly if a CANCEL is among what comes in, or the inbox ends. */
  lemma {:induction false} CancelledExactly(items: seq<Message>, ends: Option<Text>)
    ensures Watch(items, ends).Some? <==> ends.Some? || exists i :: 0 <= i < |items| && items[i].Cancel?
    ensures (exists i :: 0 <= i < |items| && items[i].Cancel?) ==> Watch(items, ends) == Some(CANCELLED)
  {
    if items != [] {
      CancelledExactly(items[1..], ends);
      assert forall i :: 0 <= i < |items[1..]| ==> items[1..][i] == items[i + 1];
      assert forall i :: 0 < i < |items| ==> items[i] == items[1..][i - 1];
    }
  }

  /** Any other message, wherever it comes, makes no difference. */
  lemma {:induction false} StraysChangeNothing(before: seq<Message>, stray: Message, after: seq<Message>,
      ends: Option<Text>)
    requires !stray.Cancel?
    ensures Watch(before + [stray] + after, ends) == Watch(before + after, ends)
  {
    var with := before + [stray] + after;
    if before == [] {
      assert with[0] == stray && with[1..] == after && before + after == after;
    } else {
      assert with[1..] == before[1..] + [stray] + after && (before + after)[1..] == before[1..] + after;
      StraysChangeNothing(before[1..], stray, after, ends);
    }
  }

  /** More of a body behind its END ends nothing. */
  lemma BodyBehindEnd(job: u64, bytes: Text)
    ensures Watch([Body(job, bytes)], None) == None
  {
    StraysChangeNothing([], Body(job, bytes), [], None);
    assert [] + [Body(job, bytes)] + [] == [Body(job, bytes)];
  }

  // ---------- answers ----------

  /** How far an answer has come. */
  datatype Progress = Fresh | Streaming | Over | Wrong

  /** RESPONSE, BODY*, and END or FAIL; a provider may also FAIL with no RESPONSE at all. */
  function Advance(p: Progress, m: Message, bareFail: bool): Progress {
    match p
    case Fresh => if m.Response? then Streaming else if m.Fail? && bareFail then Over else Wrong
    case Streaming => if m.Body? then Streaming else if m.End? || m.Fail? then Over else Wrong
    case Over => Wrong
    case Wrong => Wrong
  }

  function Track(p: Progress, ms: seq<Message>, bareFail: bool): Progress
    decreases |ms|
  {
    if ms == [] then p else Track(Advance(p, ms[0], bareFail), ms[1..], bareFail)
  }

  /** A provider's answer, as far as it has come. */
  predicate FromProvider(ms: seq<Message>) {
    Track(Fresh, ms, true) != Wrong
  }

  /** An answer to whoever submitted the job, as far as it has come. */
  predicate ToSubmitter(ms: seq<Message>) {
    Track(Fresh, ms, false) != Wrong
  }

  lemma {:induction false} TrackSplit(p: Progress, a: seq<Message>, b: seq<Message>, bareFail: bool)
    ensures Track(p, a + b, bareFail) == Track(Track(p, a, bareFail), b, bareFail)
    decreases |a|
  {
    if a == [] {
      assert a + b == b;
    } else {
      assert (a + b)[1..] == a[1..] + b;
      TrackSplit(Advance(p, a[0], bareFail), a[1..], b, bareFail);
    }
  }

  lemma {:induction false} TrackWrong(ms: seq<Message>, bareFail: bool)
    ensures Track(Wrong, ms, bareFail) == Wrong
    decreases |ms|
  {
    if ms != [] {
      TrackWrong(ms[1..], bareFail);
    }
  }

  /** The parts of an answer behind its RESPONSE: BODYs, and END or FAIL last if it is over. */
  lemma {:induction false} StreamingExactly(ms: seq<Message>, bareFail: bool)
    ensures Track(Streaming, ms, bareFail) == Streaming <==> forall i :: 0 <= i < |ms| ==> ms[i].Body?
    ensures Track(Streaming, ms, bareFail) == Over <==>
            && ms != [] && (ms[|ms| - 1].End? || ms[|ms| - 1].Fail?) && forall i :: 0 <= i < |ms| - 1 ==> ms[i].Body?
    ensures Track(Streaming, ms, bareFail) != Fresh
    decreases |ms|
  {
    if ms != [] {
      var m, rest := ms[0], ms[1..];
      assert forall i :: 0 < i < |ms| ==> ms[i] == rest[i - 1];
      TrackWrong(rest, bareFail);
      if m.Body? {
        StreamingExactly(rest, bareFail);
        assert forall i :: 0 <= i < |rest| ==> rest[i] == ms[i + 1];
      } else if rest != [] {
        TrackWrong(rest[1..], bareFail);
      }
    }
  }

  /** An answer is RESPONSE, then BODYs, then END or FAIL; from a provider a FAIL alone is one as well. */
  lemma AnswersAre(ms: seq<Message>, bareFail: bool)
    ensures var behind := if ms == [] then [] else ms[1..];
      && (Track(Fresh, ms, bareFail) == Fresh <==> ms == [])
      && (Track(Fresh, ms, bareFail) == Streaming <==>
            ms != [] && ms[0].Response? && forall i :: 0 <= i < |behind| ==> behind[i].Body?)
      && (Track(Fresh, ms, bareFail) == Over <==>
            || (bareFail && |ms| == 1 && ms[0].Fail?)
            || (&& |ms| > 1 && ms[0].Response? && (ms[|ms| - 1].End? || ms[|ms| - 1].Fail?)
                && forall i :: 0 <= i < |behind| - 1 ==> behind[i].Body?))
  {
    if ms != [] {
      var rest := ms[1..];
      StreamingExactly(rest, bareFail);
      TrackWrong(rest, bareFail);
      if rest != [] {
        TrackWrong(rest[1..], bareFail);
      }
    }
  }

  /** What comes behind a wrong message puts nothing right, so every part of an answer from its start is one. */
  lemma TrackPrefix(p: Progress, a: seq<Message>, b: seq<Message>, bareFail: bool)
    ensures Track(p, a, bareFail) == Wrong ==> Track(p, a + b, bareFail) == Wrong
  {
    TrackSplit(p, a, b, bareFail);
    TrackWrong(b, bareFail);
  }

  /** The octets of the BODY messages, in order. */
  function BodyOf(ms: seq<Message>): Text {
    if ms == [] then [] else (if ms[0].Body? then ms[0].bytes else []) + BodyOf(ms[1..])
  }

  lemma BodyOfFirst(m: Message, ms: seq<Message>)
    ensures BodyOf([m] + ms) == (if m.Body? then m.bytes else []) + BodyOf(ms)
  {
    assert ([m] + ms)[1..] == ms;
  }

  lemma {:induction false} BodyOfSplit(a: seq<Message>, b: seq<Message>)
    ensures BodyOf(a + b) == BodyOf(a) + BodyOf(b)
    decreases |a|
  {
    if a == [] {
      assert a + b == b;
    } else {
      assert (a + b)[0] == a[0] && (a + b)[1..] == a[1..] + b;
      BodyOfSplit(a[1..], b);
      var first := if a[0].Body? then a[0].bytes else [];
      assert first + BodyOf(a[1..]) + BodyOf(b) == first + (BodyOf(a[1..]) + BodyOf(b));
    }
  }

  // ---------- answers made up rather than relayed ----------

  function Decimal(n: nat): (d: Text)
    ensures d != [] && forall i :: 0 <= i < |d| ==> 0x30 <= d[i] <= 0x39
  {
    if n < 10 then [0x30 + n] else Decimal(n / 10) + [0x30 + n % 10]
  }

  /** The number a reader makes of decimal digits. */
  ghost function Number(d: Text): int {
    if d == [] then 0 else 10 * Number(d[..|d| - 1]) + d[|d| - 1] - 0x30
  }

  /** The digits read back as the number, and none is there for show. */
  lemma {:induction false} DecimalReads(n: nat)
    ensures Number(Decimal(n)) == n && (n > 0 ==> Decimal(n)[0] != 0x30) && (n == 0 ==> |Decimal(n)| == 1)
  {
    var d := Decimal(n);
    if n < 10 {
      assert Number(d[..0]) == 0;
    } else {
      DecimalReads(n / 10);
      assert d[..|d| - 1] == Decimal(n / 10);
    }
  }

  const CONTENT_TYPE: Text := Ascii("Content-Type")
  const CONTENT_LENGTH: Text := Ascii("Content-Length")
  const PLAIN_TEXT: Text := Ascii("text/plain; charset=utf-8")

  /** text/plain with the reason and a newline as the body. */
  function Synth(job: u64, status: u16, why: Text): (ms: seq<Message>)
    ensures |ms| == 3
  {
    var body := why + [10];
    [Response(job, status, [Header(CONTENT_TYPE, PLAIN_TEXT), Header(CONTENT_LENGTH, Decimal(|body|))]),
     Body(job, body), End(job, [])]
  }

  /** A RESPONSE with that status that announces so much plain text, the reason and a newline, and END. */
  ghost predicate MadeUp(ms: seq<Message>, job: u64, status: int, why: Text) {
    && |ms| == 3
    && ms[0].Response? && ms[0].job == job && ms[0].status == status && |ms[0].headers| == 2
    && ms[0].headers[0] == Header(Ascii("Content-Type"), Ascii("text/plain; charset=utf-8"))
    && ms[0].headers[1].name == Ascii("Content-Length") && Spells(ms[0].headers[1].value, |why| + 1)
    && ms[1] == Body(job, why + [10])
    && ms[2] == End(job, [])
  }

  ghost predicate Spells(d: Text, n: nat) {
    && (forall i :: 0 <= i < |d| ==> 0x30 <= d[i] <= 0x39)
    && d != [] && Number(d) == n && (|d| > 1 ==> d[0] != 0x30)
  }

  lemma {:induction false} NumberCounts(d: Text)
    requires forall i :: 0 <= i < |d| ==> 0x30 <= d[i] <= 0x39
    ensures Number(d) >= 0 && (d != [] && d[0] != 0x30 ==> Number(d) >= 1)
  {
    if d != [] {
      NumberCounts(d[..|d| - 1]);
    }
  }

  lemma {:induction false} OnlySpelling(d: Text, n: nat)
    requires Spells(d, n)
    ensures d == Decimal(n)
    decreases |d|
  {
    var front, last := d[..|d| - 1], d[|d| - 1] - 0x30;
    assert d == front + [0x30 + last];
    if |d| == 1 {
      assert Number(front) == 0;
    } else {
      NumberCounts(front);
      OnlySpelling(front, Number(front));
      assert n / 10 == Number(front) && n % 10 == last;
    }
  }

  /** There is no other made-up answer. */
  lemma OneMadeUp(ms: seq<Message>, job: u64, status: u16, why: Text)
    requires MadeUp(ms, job, status, why)
    ensures ms == Synth(job, status, why)
  {
    OnlySpelling(ms[0].headers[1].value, |why| + 1);
    assert ms == [ms[0], ms[1], ms[2]] && ms[0].headers == [ms[0].headers[0], ms[0].headers[1]];
  }

  /** A made-up answer says all it should, and to a reader of answers it is a complete one. */
  lemma SynthAnswers(job: u64, status: u16, why: Text)
    ensures MadeUp(Synth(job, status, why), job, status, why)
    ensures Track(Fresh, Synth(job, status, why), false) == Over && BodyOf(Synth(job, status, why)) == why + [10]
  {
    DecimalReads(|why| + 1);
    var ms := Synth(job, status, why);
    assert ms[1..] == [ms[1], ms[2]];
    assert [ms[1], ms[2]][1..] == [ms[2]];
    assert [ms[2]][1..] == [];
    assert Track(Streaming, [ms[1], ms[2]], false) == Track(Streaming, [ms[2]], false) == Track(Over, [], false);
    assert BodyOf([ms[2]]) == BodyOf([]) == [];
    assert BodyOf([ms[1], ms[2]]) == ms[1].bytes + BodyOf([ms[2]]);
    assert BodyOf(ms) == BodyOf([ms[1], ms[2]]);
  }

  lemma {:induction false} DecimalLength(n: nat, digits: nat)
    requires digits > 0 && n < Pow256(digits)
    ensures |Decimal(n)| <= 3 * digits
    decreases digits
  {
    if digits > 1 && n >= 1000 {
      assert Decimal(n) == Decimal(n / 10) + [0x30 + n % 10];
      assert Decimal(n / 10) == Decimal(n / 10 / 10) + [0x30 + n / 10 % 10];
      assert Decimal(n / 10 / 10) == Decimal(n / 10 / 10 / 10) + [0x30 + n / 10 / 10 % 10];
      assert n / 10 / 10 / 10 == n / 1000;
      DecimalLength(n / 1000, digits - 1);
    } else {
      assert n < 1000 by {
        assert digits == 1 ==> Pow256(1) == 256 * Pow256(0);
      }
      if n >= 10 {
        assert |Decimal(n / 10)| <= 2;
      }
    }
  }

  /** The encoder takes a made-up answer whatever the reason says, as long as a BODY can count it. */
  lemma SynthEncodable(job: u64, status: u16, why: Text)
    requires job != 0 && MIN_STATUS <= status <= MAX_STATUS && |why| + 1 < 0x1_0000_0000
    ensures forall i :: 0 <= i < 3 ==> Encodable(Synth(job, status, why)[i])
  {
    Widths();
    DecimalLength(|why| + 1, 4);
  }
}
