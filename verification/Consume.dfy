/** The consumer side of a job: an application's request in, and what it is shown of the answer. */
module Consume {
  import opened Wire
  import opened Jobs
  import opened Headers

  // ---------- net/http's side of a response ----------

  /** What goes out on the application's connection. Done is the proper end of a response, Abort a broken connection. */
  datatype Shown =
    | Informational(status: u16, headers: HttpHeader)
    | Head(status: u16, headers: HttpHeader)
    | Data(bytes: Text)
    | Done(trailers: seq<Header>)
    | Abort

  /** A status line behind which no other comes: any but 1xx, and 101. */
  predicate Final(status: u16) {
    !(100 <= status <= 199) || status == 101
  }

  /** Whether a response of this status may have a body at all. */
  predicate BodyAllowed(status: u16) {
    !(100 <= status <= 199) && status != 204 && status != 304
  }

  /** A response being written: the status that went out, the header as it stands, how many writes of body the
      connection still takes, and whether it failed. */
  datatype Writer = Writer(status: Option<u16>, header: HttpHeader, room: nat, dead: bool)

  function NewWriter(room: nat): Writer {
    Writer(None, map[], room, false)
  }

  /** Adding headers behind those that are there. */
  function Merged(h: HttpHeader, g: HttpHeader): HttpHeader {
    map k | k in h.Keys + g.Keys :: (if k in h then h[k] else []) + (if k in g then g[k] else [])
  }

  /** The first final status counts, and any before it is informational. */
  function StatusOut(w: Writer, code: u16): (seq<Shown>, Writer) {
    if w.status.Some? || w.dead then ([], w)
    else if !Final(code) then ([Informational(code, w.header)], w)
    else ([Head(code, w.header)], w.(status := Some(code)))
  }

  /** A flush, a write and the end of the handler imply 200. */
  function FlushOut(w: Writer): (seq<Shown>, Writer) {
    StatusOut(w, 200)
  }

  function WriteOut(w: Writer, bytes: Text): (seq<Shown>, Writer, bool) {
    var (head, w') := FlushOut(w);
    if bytes == [] then (head, w', true)
    else if w'.dead || !BodyAllowed(w'.status.value) then (head, w', false)
    else if w'.room == 0 then (head, w'.(dead := true), false)
    else (head + [Data(bytes)], w'.(room := w'.room - 1), true)
  }

  function ReturnOut(w: Writer, trailers: seq<Header>): seq<Shown> {
    if w.dead then [] else FlushOut(w).0 + [Done(trailers)]
  }

  class Application {
    var shown: seq<Shown>
    var status: Option<u16>
    var header: HttpHeader
    var room: nat
    var dead: bool

    ghost function View(): Writer
      reads this
    {
      Writer(status, header, room, dead)
    }

    constructor (room: nat)
      ensures shown == [] && View() == NewWriter(room)
    {
      shown, status, header, this.room, dead := [], None, map[], room, false;
    }

    method WriteHeader(code: u16)
      modifies this
      ensures var (out, w) := StatusOut(old(View()), code); shown == old(shown) + out && View() == w
    {
      if status.Some? || dead {
        return;
      }
      if 100 <= code <= 199 && code != 101 {
        shown := shown + [Informational(code, header)];
        return;
      }
      shown, status := shown + [Head(code, header)], Some(code);
    }

    method Flush()
      modifies this
      ensures var (out, w) := FlushOut(old(View())); shown == old(shown) + out && View() == w
    {
      WriteHeader(200);
    }

    method Write(bytes: Text) returns (ok: bool)
      modifies this
      ensures var (out, w, fine) := WriteOut(old(View()), bytes); shown == old(shown) + out && View() == w && ok == fine
    {
      Flush();
      if bytes == [] {
        return true;
      }
      if dead || !BodyAllowed(status.value) {
        return false;
      }
      if room == 0 {
        dead := true;
        return false;
      }
      shown, room := shown + [Data(bytes)], room - 1;
      return true;
    }

    /** What net/http does when the handler has returned. */
    method Return(trailers: seq<Header>)
      modifies this
      ensures shown == old(shown) + ReturnOut(old(View()), trailers)
    {
      if dead {
        return;
      }
      Flush();
      shown := shown + [Done(trailers)];
    }

    /** Copies a RESPONSE onto the application's connection. */
    method WriteHead(code: u16, headers: seq<Header>)
      modifies this
      ensures var (out, w) := HeadOut(old(View()), code, headers); shown == old(shown) + out && View() == w
    {
      header := Merged(header, ToHttp(headers, []));
      WriteHeader(code);
      Flush();
    }

    /** A response this program makes up, with the reason as the body, and the end of the handler behind it. */
    method Synthesise(code: u16, why: Text)
      modifies this
      ensures shown == old(shown) + Synthesised(old(View()), code, why)
    {
      var body := why + [10];
      header := header[CONTENT_TYPE := [PLAIN_TEXT]][CONTENT_LENGTH := [Decimal(|body|)]];
      WriteHeader(code);
      var _ := Write(body);
      Return([]);
    }

    method AnswerFailure(started: bool, why: Text) returns (finish: Finish)
      modifies this
      ensures var f := Failure(old(View()), started, why); shown == old(shown) + f.shown && finish == f.finish
    {
      hide Synthesised;
      if started {
        shown := shown + [Abort];
        return Aborted;
      }
      Synthesise(502, why);
      return Finished;
    }
  }

  // ---------- writing an answer back ----------

  /** What comes of a job's inbox behind the messages in it: the server's connection ended, the application left, or
      nothing yet. */
  datatype Stop = ServerGone(why: Text) | ApplicationGone | Quiet

  datatype Finish = Finished | Aborted | Cancelled | Waiting

  datatype Answered = Answered(shown: seq<Shown>, finish: Finish)

  const SERVER_ENDED: Text := Ascii("the connection to the server ended: ")

  function HeadOut(w: Writer, code: u16, headers: seq<Header>): (seq<Shown>, Writer) {
    var (out, w') := StatusOut(w.(header := Merged(w.header, ToHttp(headers, []))), code);
    var (more, w'') := FlushOut(w');
    (out + more, w'')
  }

  function Synthesised(w: Writer, code: u16, why: Text): seq<Shown> {
    var body := why + [10];
    var header := w.header[CONTENT_TYPE := [PLAIN_TEXT]][CONTENT_LENGTH := [Decimal(|body|)]];
    var (head, w') := StatusOut(w.(header := header), code);
    var (data, w'', _) := WriteOut(w', body);
    head + data + ReturnOut(w'', [])
  }

  /** 502 while there is a status line to write, and a broken connection once there is not. */
  function Failure(w: Writer, started: bool, why: Text): Answered {
    if started then Answered([Abort], Aborted) else Answered(Synthesised(w, 502, why), Finished)
  }

  function Behind(shown: seq<Shown>, rest: Answered): Answered {
    rest.(shown := shown + rest.shown)
  }

  /** Writing an answer back, from where it has come to; strange is what a message out of place is reported as. */
  function RelayAnswer(feed: seq<Message>, stop: Stop, strange: Text, w: Writer, started: bool): Answered
    decreases |feed|
  {
    if feed == [] then
      match stop
      case ServerGone(why) => Failure(w, started, SERVER_ENDED + why)
      case ApplicationGone => Answered([], Cancelled)
      case Quiet => Answered([], Waiting)
    else
      match feed[0]
      case Response(_, status, headers) =>
        var (out, w') := HeadOut(w, status, headers);
        Behind(out, RelayAnswer(feed[1..], stop, strange, w', true))
      case Body(_, bytes) =>
        var (out, w', ok) := WriteOut(w, bytes);
        if !ok then Answered(out + ReturnOut(w', []), Cancelled)
        else Behind(out, RelayAnswer(feed[1..], stop, strange, w', started))
      case End(_, trailers) => Answered(ReturnOut(w, trailers), Finished)
      case Fail(_, reason) => Failure(w, started, reason)
      case _ => Failure(w, started, strange)
  }

  /** How far a request gets before there is a job: it wants to upgrade, its body cannot be read, there is no
      connection, or no job on it; else its job, how many of the job's messages the connection takes and what a send
      that fails is reported as, and what comes back. */
  datatype Visit =
    | Upgrade
    | Unreadable(why: Text)
    | Unconnected
    | NoJob(why: Text)
    | Submits(request: Message, body: Text, trailers: seq<Header>, link: nat, broken: Text,
              feed: seq<Message>, stop: Stop, strange: Text)
  {
    predicate Valid() {
      Submits? ==> request.Request?
    }
  }

  const NO_UPGRADES: Text := Ascii("upgrade requests are not pooled")
  const READING: Text := Ascii("reading the request body: ")
  const NO_CONNECTION: Text := Ascii("this peer has no connection to the server")

  /** What the application is shown, and what is sent to the server. */
  function Consumed(visit: Visit, w: Writer): (Answered, seq<Message>)
    requires visit.Valid()
  {
    match visit
    case Upgrade => (Answered(Synthesised(w, 501, NO_UPGRADES), Finished), [])
    case Unreadable(why) => (Answered(Synthesised(w, 502, READING + why), Finished), [])
    case Unconnected => (Answered(Synthesised(w, 503, NO_CONNECTION), Finished), [])
    case NoJob(why) => (Answered(Synthesised(w, 503, SERVER_ENDED + why), Finished), [])
    case Submits(request, body, trailers, link, broken, feed, stop, strange) =>
      var out := Submission(request, body, trailers);
      var taken := Taken(out, link);
      if taken != out then (Answered(Synthesised(w, 503, broken), Finished), taken)
      else
        var a := RelayAnswer(feed, stop, strange, w, false);
        (a, out + if a.finish.Cancelled? then Taken([Cancel(request.job)], link - |out|) else [])
  }

  // ---------- as it runs ----------

  /** Writes back what the job's provider says, in the order it says it. */
  method RelayBack(w: Application, feed: seq<Message>, stop: Stop, strange: Text) returns (finish: Finish)
    requires w.shown == []
    modifies w
    ensures Answered(w.shown, finish) == RelayAnswer(feed, stop, strange, old(w.View()), false)
  {
    hide Synthesised, StatusOut, WriteOut, HeadOut, ReturnOut;
    ghost var whole := RelayAnswer(feed, stop, strange, w.View(), false);
    var rest, started := feed, false;
    while rest != []
      invariant Behind(w.shown, RelayAnswer(rest, stop, strange, w.View(), started)) == whole
      decreases |rest|
    {
      var m := rest[0];
      rest := rest[1..];
      ghost var view, before := w.View(), w.shown;
      match m {
        case Response(_, status, headers) =>
          var (out, after) := HeadOut(view, status, headers);
          BehindTwice(before, out, RelayAnswer(rest, stop, strange, after, true));
          w.WriteHead(status, headers);
          started := true;
        case Body(_, bytes) =>
          var (out, after, _) := WriteOut(view, bytes);
          BehindTwice(before, out, RelayAnswer(rest, stop, strange, after, started));
          BehindTwice(before, out, Answered(ReturnOut(after, []), Cancelled));
          var ok := w.Write(bytes);
          if !ok {
            w.Return([]);
            return Cancelled;
          }
        case End(_, trailers) =>
          w.Return(trailers);
          return Finished;
        case Fail(_, reason) =>
          finish := w.AnswerFailure(started, reason);
          return;
        case _ =>
          finish := w.AnswerFailure(started, strange);
          return;
      }
    }
    match stop {
      case ServerGone(why) => finish := w.AnswerFailure(started, SERVER_ENDED + why);
      case ApplicationGone => finish := Cancelled;
      case Quiet => finish := Waiting;
    }
  }

  lemma BehindTwice(a: seq<Shown>, b: seq<Shown>, rest: Answered)
    ensures Behind(a, Behind(b, rest)) == Behind(a + b, rest)
  {
    assert a + (b + rest.shown) == a + b + rest.shown;
  }

  /** The handler of one port. */
  method Handle(w: Application, visit: Visit) returns (finish: Finish, toServer: seq<Message>)
    requires visit.Valid() && w.shown == []
    modifies w
    ensures Consumed(visit, old(w.View())).0 == Answered(w.shown, finish)
    ensures Consumed(visit, old(w.View())).1 == toServer
  {
    hide Encodable, Taken, Submission, Synthesised, RelayAnswer;
    finish, toServer := Finished, [];
    match visit {
      case Upgrade => w.Synthesise(501, NO_UPGRADES);
      case Unreadable(why) => w.Synthesise(502, READING + why);
      case Unconnected => w.Synthesise(503, NO_CONNECTION);
      case NoJob(why) => w.Synthesise(503, SERVER_ENDED + why);
      case Submits(request, body, trailers, link, broken, feed, stop, strange) =>
        ghost var view := w.View();
        var c := new Link(link);
        var ok := c.Submit(request, body, trailers);
        assert c.sent == Taken(Submission(request, body, trailers), link);
        if !ok {
          w.Synthesise(503, broken);
          assert w.shown == Synthesised(view, 503, broken);
          return Finished, c.sent;
        }
        finish := RelayBack(w, feed, stop, strange);
        if finish.Cancelled? {
          TakenOne(Cancel(request.job), c.room);
          ok := c.Send(Cancel(request.job));
        }
        toServer := c.sent;
        ghost var out := Submission(request, body, trailers);
        assert toServer == out + if finish.Cancelled? then Taken([Cancel(request.job)], link - |out|) else [];
    }
  }
}
