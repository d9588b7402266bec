/** Provider, relay and consumer together: what an upstream is given of a request, and an application of its answer. */
module EndToEnd {
  import opened Wire
  import opened Jobs
  import Headers
  import Provide
  import Relay
  import opened RelayLaws
  import opened Consume
  import opened LastHop
  import Symbolic
  import Records
  import Encode
  import Decode
  import Session
  import Channel

  // ---------- the connection under a job ----------

  /** What a connection takes of a job is what its encoder really puts out, and what the other end's decoder hears; and
      what stops it, short of the connection, is a message the encoder really refuses. */
  lemma SentIsHeard(role: Role, ms: seq<Message>, room: nat)
    requires forall i :: 0 <= i < |ms| ==> !ms[i].Hello?
    ensures var t := Taken(ms, room);
            && Session.StreamOut(role, true, t).Bytes?
            && Session.StreamIn(Session.Opposite(role), true, Session.StreamOut(role, true, t).b, Decode.Eof)
                 == Session.Heard(t, None)
            && (t != ms && |t| < room ==> Encode.StepOut(role, true, ms[|t|]).Refused?)
  {
    hide Encodable, Encode.MessageOut;
    var t := Taken(ms, room);
    TakenAll(ms, room);
    Streamable(role, t);
    Session.StreamCut(role, true, t, Session.StreamOut(role, true, t).b, Decode.Eof);
    if t != ms && |t| < room {
      Encode.EncodesExactlyEncodable(ms[|t|]);
    }
  }

  lemma Streamable(role: Role, t: seq<Message>)
    requires AllEncodable(t) && forall i :: 0 <= i < |t| ==> !t[i].Hello?
    ensures Session.StreamOut(role, true, t).Bytes?
  {
    if role == Client {
      Session.ClientSends(t, true);
    } else {
      Session.ServerSends(t, true);
    }
  }

  // ---------- the request, all the way ----------

  /** From application to upstream: whatever the server collects of what the consumer sent, and whatever the k-th
      provider collects of what the server then sends it, is not whole or the very body the application gave, under its
      REQUEST. */
  lemma RequestArrives(visit: Visit, w: Writer, inbox: seq<Message>, job: Relay.Job, script: seq<Relay.Grant>,
                       room: nat, k: nat, came: seq<Message>)
    requires visit.Submits? && visit.Valid() && visit.request == job.As(job.job)
    requires Consumed(visit, w).1 != [] && inbox <= Consumed(visit, w).1[1..] && Collect(inbox).Collected?
    requires var r := Relay.Run(job, Collect(inbox).body, Collect(inbox).trailers, script, room, false);
             k < |r.tries| && came <= r.tries[k] && came != []
    ensures Collect(inbox).body == visit.body && Collect(inbox).trailers == visit.trailers
    ensures var request := visit.request;
            && k < |script| && script[k].Leased?
            && came[0] == Request(script[k].provider.job, request.service, request.verb, request.target,
                                  request.headers)
    ensures var c := Collect(came[1..]);
            c == NotYet || (c.Collected? && c.body == visit.body && c.trailers == visit.trailers)
  {
    hide Encodable, Taken, Relay.Run, RelayAnswer, Submission, Synthesised, Collect;
    var sent, out := Consumed(visit, w).1, Submission(visit.request, visit.body, visit.trailers);
    TakenOne(Cancel(job.job), visit.link);
    assert Delivery(sent, job, visit.body, visit.trailers, job.job) by {
      PrefixOfMore(Taken(out, visit.link), out, [Cancel(job.job)]);
      if visit.link >= |out| {
        TakenOne(Cancel(job.job), visit.link - |out|);
        assert out + [] <= out + [Cancel(job.job)];
      }
    }
    var upTo := [sent[0]] + inbox;
    assert upTo <= sent && upTo[1..] == inbox;
    SameBodyEveryAttempt(upTo, job, visit.body, visit.trailers, job.job);
    var body, trailers := Collect(inbox).body, Collect(inbox).trailers;
    EveryAttemptSendsTheJob(job, body, trailers, script, room, false, k);
    SameBodyEveryAttempt(came, job, body, trailers, script[k].provider.job);
  }

  // ---------- the hops together ----------

  /** What has come back is the beginning of what a peer sends for this job, whatever its upstream does. */
  ghost predicate RealProvider(p: Relay.Provider) {
    && p.job != 0
    && exists target: Text, scene: Provide.Scene, room: nat ::
         scene.Valid() && p.feed <= Provide.Sends(p.job, target, scene, room)
  }

  lemma EncodablePrefix(a: seq<Message>, b: seq<Message>)
    requires a <= b && AllEncodable(b)
    ensures AllEncodable(a)
  {
    assert forall i :: 0 <= i < |a| ==> a[i] == b[i];
  }

  lemma SendsEncodable(job: u64, target: Text, scene: Provide.Scene, room: nat)
    ensures AllEncodable(Provide.Sends(job, target, scene, room))
  {
    hide Encodable, Taken, AllEncodable, Provide.Answer;
    var fail := [Fail(job, scene.why)];
    TakenAll(fail, room);
    if scene.known && scene.slotFree && Collect(scene.inbox).Collected? && Provide.Usable(target, scene.up) {
      var ms := Provide.Answer(job, scene.up);
      TakenAll(ms, room);
      var t := Taken(ms, room);
      TakenAll(fail, room - |t|);
      BothEncodable(t, Taken(fail, room - |t|));
    } else {
      NothingToRefuse();
    }
  }

  /** The provider's side of the bargain is kept: the relay may rely on a real provider. */
  lemma ProvidersAreReliable(p: Relay.Provider)
    requires RealProvider(p)
    ensures Rely(Relay.Leased(p))
  {
    hide Encodable, Provide.Sends, AllEncodable, Track;
    var target: Text, scene: Provide.Scene, room: nat :|
      scene.Valid() && p.feed <= Provide.Sends(p.job, target, scene, room);
    var all := Provide.Sends(p.job, target, scene, room);
    SendsEncodable(p.job, target, scene, room);
    EncodablePrefix(p.feed, all);
    Provide.AlwaysAnAnswer(p.job, target, scene, room);
    assert all == p.feed + all[|p.feed|..];
    TrackPrefix(Fresh, p.feed, all[|p.feed|..], true);
  }

  lemma {:induction false} StricterOrder(p: Progress, ms: seq<Message>)
    requires Track(p, ms, false) != Wrong
    ensures Track(p, ms, true) != Wrong
    decreases |ms|
  {
    if ms != [] {
      TrackWrong(ms[1..], false);
      StricterOrder(Advance(p, ms[0], false), ms[1..]);
    }
  }

  ghost predicate Real(grant: Relay.Grant) {
    match grant
    case Leased(p) => RealProvider(p)
    case TimedOut(why) => |why| < 0xFFFF_FFFF
    case JobLeft => true
    case NoConnection => true
  }

  /** What an upstream's status leaves open: 101 with a body behind it, which a response may not have. */
  predicate Showable(ms: seq<Message>) {
    ms != [] && ms[0].Response? ==>
      Final(ms[0].status) && (BodyAllowed(ms[0].status) || ms[0].status == 101 || |ms| == 1 || !ms[1].Body?)
  }

  lemma {:induction false} EmptyParts(job: u64, parts: seq<Text>)
    requires forall i :: 0 <= i < |parts| ==> parts[i] == []
    ensures Provide.Bodies(job, parts) == []
  {
    if parts != [] {
      EmptyParts(job, parts[1..]);
    }
  }

  /** A real upstream's status can be shown as it is. */
  lemma SendsShowable(job: u64, target: Text, scene: Provide.Scene, room: nat)
    requires scene.Valid()
    ensures Showable(Provide.Sends(job, target, scene, room))
  {
    hide Encodable, Taken, Provide.Bodies;
    var fail := [Fail(job, scene.why)];
    if scene.known && scene.slotFree && Collect(scene.inbox).Collected? && Provide.Usable(target, scene.up) {
      var up := scene.up;
      if up.status == 204 || up.status == 304 {
        EmptyParts(job, up.parts);
      }
      var ms := Provide.Answer(job, up);
      var t := Taken(ms, room);
      assert Showable(ms);
      assert forall i :: 0 <= i < |t| ==> t[i] == ms[i];
    }
  }

  lemma ShowablePrefix(a: seq<Message>, b: seq<Message>)
    requires a <= b && Showable(b)
    ensures Showable(a)
  {
    assert forall i :: 0 <= i < |a| ==> a[i] == b[i];
  }

  lemma ShowableOnward(job: u64, ms: seq<Message>)
    requires Showable(ms)
    ensures Showable(Renumber(job, ms) + [Fail(job, Relay.CONNECTION_ENDED)])
  {
    RenumberKeeps(job, ms, Fresh);
  }

  lemma SentShowable(sent: seq<Message>, job: u64, grant: Relay.Grant)
    requires Real(grant) && ComesFrom(sent, job, grant)
    ensures Showable(sent)
  {
    hide Synth, Provide.Sends;
    match grant
    case JobLeft =>
    case TimedOut(why) => SynthShowable(sent, job, Relay.UNAVAILABLE, why);
    case NoConnection => SynthShowable(sent, job, Relay.BAD_GATEWAY, Relay.HAS_NO_CONNECTION);
    case Leased(p) =>
      var target: Text, scene: Provide.Scene, room: nat :|
        scene.Valid() && p.feed <= Provide.Sends(p.job, target, scene, room);
      SendsShowable(p.job, target, scene, room);
      ShowablePrefix(p.feed, Provide.Sends(p.job, target, scene, room));
      ShowableOnward(job, p.feed);
      if sent <= Renumber(job, p.feed) + [Fail(job, Relay.CONNECTION_ENDED)] {
        ShowablePrefix(sent, Renumber(job, p.feed) + [Fail(job, Relay.CONNECTION_ENDED)]);
      } else {
        SynthShowable(sent, job, Relay.BAD_GATEWAY, p.feed[0].reason);
      }
  }

  lemma SynthShowable(sent: seq<Message>, job: u64, status: u16, why: Text)
    requires sent <= Synth(job, status, why) && BodyAllowed(status)
    ensures Showable(sent)
  {
  }

  /** One final status line and nothing but informational ones before it, whatever came; what came keeps the order; and
      unless it is a 101 with a body, what is shown is a beginning of it as it is, or of a 502 if it failed at once, and
      all of it if the application's connection lasts. */
  ghost predicate GoodPage(feed: seq<Message>, stop: Stop, strange: Text, appRoom: nat) {
    var a := RelayAnswer(feed, stop, strange, NewWriter(appRoom), false);
    && Read(Blank, a.shown) != Spoilt
    && (a.finish in {Finished, Aborted} ==> Read(Blank, a.shown) in {Open, Closed})
    && Orderly(false, feed)
    && (Presentable(feed) || feed[0].status == 101)
    && (Presentable(feed) ==>
          && a.shown <= Wanted(feed, stop, strange)
          && (appRoom > |feed| ==> a.shown == Wanted(feed, stop, strange)))
  }

  /** However many real providers a job went through and wherever the connections broke, the application is shown the
      one answer its job got, as it is. */
  lemma OneStatusLine(job: Relay.Job, body: Text, trailers: seq<Header>, script: seq<Relay.Grant>, room: nat,
                      feed: seq<Message>, stop: Stop, strange: Text, appRoom: nat)
    requires job.job != 0 && forall i :: 0 <= i < |script| ==> Real(script[i])
    requires feed <= Relay.Run(job, body, trailers, script, room, false).sent
    ensures GoodPage(feed, stop, strange, appRoom)
  {
    hide Relay.Run, RelayAnswer, Track, RealProvider, Orderly, AllEncodable, ComesFrom, Wanted, Read;
    forall i | 0 <= i < |script| ensures Rely(script[i]) {
      assert Real(script[i]);
      if script[i].Leased? {
        ProvidersAreReliable(script[i].provider);
      }
    }
    var sent := Relay.Run(job, body, trailers, script, room, false).sent;
    var k := OneAnswer(job, body, trailers, script, room, false);
    assert sent == feed + sent[|feed|..];
    TrackPrefix(Fresh, feed, sent[|feed|..], false);
    StricterOrder(Fresh, feed);
    ProvidersAreOrderly(false, feed);
    RunEncodable(job, body, trailers, script, room, false);
    EncodablePrefix(feed, sent);
    if k < |script| {
      SentShowable(sent, job.job, script[k]);
    }
    ShowablePrefix(feed, sent);
    AlwaysAResponse(feed, stop, strange, NewWriter(appRoom), false);
    if Presentable(feed) {
      ShowsABeginning(feed, stop, strange, appRoom);
      if appRoom > |feed| {
        ShownExactlyAsGiven(feed, stop, strange, appRoom);
      }
    }
  }

  /** Whatever becomes of a request, from a refused upgrade to an answer cut short: the application is shown a proper
      response if it is answered at all, and the server is sent this job's messages in order, a CANCEL last and
      only when the application left. */
  lemma EveryVisitIsAnswered(visit: Visit, room: nat)
    requires visit.Valid()
    ensures var (a, toServer) := Consumed(visit, NewWriter(room));
            && Read(Blank, a.shown) != Spoilt
            && (a.finish in {Finished, Aborted} ==> Read(Blank, a.shown) in {Open, Closed})
            && (!visit.Submits? ==> toServer == [])
            && (visit.Submits? ==>
                  var out := Submission(visit.request, visit.body, visit.trailers);
                  toServer <= out + [Cancel(visit.request.job)] && (|toServer| > |out| ==> a.finish.Cancelled?))
  {
    hide Encodable, Synthesised, RelayAnswer, Submission, Read;
    var w := NewWriter(room);
    match visit
    case Upgrade => SynthesisedReads(w, 501, NO_UPGRADES);
    case Unreadable(why) => SynthesisedReads(w, 502, READING + why);
    case Unconnected => SynthesisedReads(w, 503, NO_CONNECTION);
    case NoJob(why) => SynthesisedReads(w, 503, SERVER_ENDED + why);
    case Submits(request, body, trailers, link, broken, feed, stop, strange) =>
      var out, cancel := Submission(request, body, trailers), Cancel(request.job);
      SynthesisedReads(w, 503, broken);
      PrefixOfMore(Taken(out, link), out, [cancel]);
      AlwaysAResponse(feed, stop, strange, w, false);
      if link >= |out| {
        TakenOne(cancel, link - |out|);
        assert out + [] <= out + [cancel];
      }
  }

  // ---------- over a hostile network ----------

  lemma {:induction false} AboutPrefix(job: u64, a: seq<Message>, b: seq<Message>)
    requires a <= b
    ensures About(job, a) <= About(job, b)
    decreases |a|
  {
    if a != [] {
      AboutPrefix(job, a[1..], b[1..]);
    }
  }

  /** One direction of a connection: the key of its records, what the sending end wrote, what the network made of it,
      and how it was read. */
  datatype Line = Line(key: Symbolic.Term, role: Role, ms: seq<Message>, net: seq<Symbolic.Cell>, sizes: seq<nat>,
      end: Decode.Ending) {
    /** The encoder took what was written, and the network forged no record. */
    ghost predicate Unforged() {
      Session.StreamOut(role, false, ms).Bytes? && Records.OnlyFrom(key, Channel.Plaintexts(ms), net)
    }

    ghost function Came(view: Symbolic.Cell -> byte): seq<Message> {
      Session.StreamIn(Session.Opposite(role), false,
                       Records.ReadAll(key, view, Records.Reader(0, net, []), sizes), end).messages
    }
  }

  /** Whatever happens to the records of a connection, a job's inbox gets the beginning of what was sent for it. */
  lemma InboxUnderAttack(line: Line, view: Symbolic.Cell -> byte, job: u64)
    requires line.Unforged()
    ensures About(job, line.Came(view)) <= About(job, line.ms)
  {
    Channel.SessionUnderAttack(line.key, view, line.role, line.ms, line.net, line.sizes, line.end);
    AboutPrefix(job, line.Came(view), line.ms);
  }

  /** A provider whose answer travels over such a connection. */
  ghost predicate Remote(p: Relay.Provider, line: Line, view: Symbolic.Cell -> byte) {
    && p.job != 0 && line.Unforged() && p.feed == About(p.job, line.Came(view))
    && exists target: Text, scene: Provide.Scene, room: nat ::
         scene.Valid() && About(p.job, line.ms) == Provide.Sends(p.job, target, scene, room)
  }

  lemma RemoteIsReal(p: Relay.Provider, line: Line, view: Symbolic.Cell -> byte)
    requires Remote(p, line, view)
    ensures RealProvider(p)
  {
    InboxUnderAttack(line, view, p.job);
    var target: Text, scene: Provide.Scene, room: nat :|
      scene.Valid() && About(p.job, line.ms) == Provide.Sends(p.job, target, scene, room);
    assert p.feed <= Provide.Sends(p.job, target, scene, room);
  }

  /** The same with every hop on records the network may drop, cut, reorder, repeat and alter. */
  lemma OneStatusLineUnderAttack(job: Relay.Job, body: Text, trailers: seq<Header>, script: seq<Relay.Grant>, room: nat,
                                 view: Symbolic.Cell -> byte, lines: seq<Line>, home: Line,
                                 stop: Stop, strange: Text, appRoom: nat)
    requires job.job != 0 && |lines| == |script|
    requires forall i :: 0 <= i < |script| && script[i].Leased? ==> Remote(script[i].provider, lines[i], view)
    requires forall i :: 0 <= i < |script| && script[i].TimedOut? ==> |script[i].why| < 0xFFFF_FFFF
    requires home.Unforged() && About(job.job, home.ms) == Relay.Run(job, body, trailers, script, room, false).sent
    ensures GoodPage(About(job.job, home.Came(view)), stop, strange, appRoom)
  {
    hide Relay.Run, Remote, RealProvider, About, GoodPage;
    forall i | 0 <= i < |script| ensures Real(script[i]) {
      if script[i].Leased? {
        RemoteIsReal(script[i].provider, lines[i], view);
      }
    }
    InboxUnderAttack(home, view, job.job);
    OneStatusLine(job, body, trailers, script, room, About(job.job, home.Came(view)), stop, strange, appRoom);
  }

  /** Such lines exist: one on which nothing has been sent yet carries what a provider sends that cannot send. */
  lemma QuietLine(p: Relay.Provider, key: Symbolic.Term, view: Symbolic.Cell -> byte, sizes: seq<nat>)
    requires p.job != 0 && p.feed == []
    ensures Remote(p, Line(key, Client, [], [], sizes, Decode.Eof), view)
  {
    var line, scene := Line(key, Client, [], [], sizes, Decode.Eof),
      Provide.Scene(false, false, [], Provide.Unreachable, []);
    assert Session.StreamOut(Client, false, []).Bytes?;
    InboxUnderAttack(line, view, p.job);
    assert About(p.job, line.ms) == Provide.Sends(p.job, [], scene, 0);
  }

  // ---------- a whole answer, all the way ----------

  lemma {:induction false} RenumberKeeps(job: u64, ms: seq<Message>, p: Progress)
    ensures Track(p, Renumber(job, ms), false) == Track(p, ms, false) && BodyOf(Renumber(job, ms)) == BodyOf(ms)
    ensures forall i :: 0 <= i < |ms| ==> Renumber(job, ms)[i] == ms[i].Renumbered(job)
    decreases |ms|
  {
    RenumberEach(job, ms);
    if ms != [] {
      var r := Renumber(job, ms);
      RenumberKeeps(job, ms[1..], Advance(p, ms[0], false));
      assert r[1..] == Renumber(job, ms[1..]);
      assert ms == [ms[0]] + ms[1..];
    }
  }

  lemma {:induction false} WholeAnswerPumped(job: u64, feed: seq<Message>, stop: Relay.Stop, strange: Text, room: nat,
      started: bool)
    requires job != 0 && AllEncodable(feed) && Whole(feed, started) && room >= |feed|
    ensures Relay.Pump(job, feed, stop, strange, room, started)
            == Relay.Attempt(Renumber(job, feed), [], true, Relay.Complete)
    decreases |feed|
  {
    hide Encodable, Whole;
    WholeTail(feed, started);
    var m, rest := feed[0], feed[1..];
    assert Encodable(m) && AllEncodable(rest);
    RenumberedFits(m, job);
    if m.End? {
      assert rest == [];
    } else {
      WholeAnswerPumped(job, rest, stop, strange, room - 1, true);
    }
  }

  /** A provider whose connection ended before it said anything. */
  predicate Lost(grant: Relay.Grant) {
    grant.Leased? && grant.provider.feed == [] && grant.provider.stop == Relay.ConnectionEnded
  }

  lemma LostTurn(job: Relay.Job, body: Text, trailers: seq<Header>, grant: Relay.Grant, room: nat, front: bool)
    requires Lost(grant)
    ensures var t := Relay.Turn(job, body, trailers, grant, room, front);
            t.sent == [] && t.outcome == Relay.Again && |t.tries| == 1
  {
    hide Taken, Submission;
  }

  lemma WholeTurn(job: Relay.Job, body: Text, trailers: seq<Header>, p: Relay.Provider, room: nat, front: bool)
    requires job.job != 0 && Delivered(job, body, trailers, p)
    requires AllEncodable(p.feed) && Whole(p.feed, false) && room >= |p.feed|
    ensures var t := Relay.Turn(job, body, trailers, Relay.Leased(p), room, front);
            t.sent == Renumber(job.job, p.feed) && t.outcome == Relay.Answered && |t.tries| == 1
  {
    hide Encodable, Taken, Submission, Whole, Relay.Pump;
    WholeAnswerPumped(job.job, p.feed, p.stop, p.strange, room, false);
  }

  /** Providers lost on the way leave no trace: the answer of the first that gives one is relayed whole. */
  lemma {:induction false} AnswerSurvivesLostProviders(job: Relay.Job, body: Text, trailers: seq<Header>,
      script: seq<Relay.Grant>,
                                                       room: nat, front: bool, k: nat)
    requires job.job != 0 && k < |script| && (forall i :: 0 <= i < k ==> Lost(script[i]))
    requires script[k].Leased? && Delivered(job, body, trailers, script[k].provider)
    requires var feed := script[k].provider.feed; AllEncodable(feed) && Whole(feed, false) && room >= |feed|
    ensures var r := Relay.Run(job, body, trailers, script, room, front);
            r.sent == Renumber(job.job, script[k].provider.feed) && r.outcome == Relay.Answered && |r.tries| == k + 1
    decreases k
  {
    hide Relay.Turn, Whole, Lost, AllEncodable, Delivered;
    if k == 0 {
      WholeTurn(job, body, trailers, script[0].provider, room, front);
    } else {
      LostTurn(job, body, trailers, script[0], room, front);
      AnswerSurvivesLostProviders(job, body, trailers, script[1..], room, true, k - 1);
    }
  }

  /** From upstream to application: a complete upstream answer reaches the application as it was given, through however
      many providers were lost before: its status, its header less what belongs to one connection, every octet of its
      body in order, its trailers. */
  lemma AnswerArrives(job: Relay.Job, body: Text, trailers: seq<Header>, script: seq<Relay.Grant>, room: nat, k: nat,
                      target: Text, scene: Provide.Scene, link: nat, h: Headers.HttpHeader,
                      stop: Stop, strange: Text, appRoom: nat)
    requires job.job != 0 && k < |script| && (forall i :: 0 <= i < k ==> Lost(script[i]))
    requires script[k].Leased? && Delivered(job, body, trailers, script[k].provider)
    requires Provide.HasAnswer(target, scene)
    requires scene.Valid() && (scene.up.status == 101 ==> Provide.Bodies(script[k].provider.job, scene.up.parts) == [])
    requires !scene.up.broken && scene.up.headers == Headers.FromHttp(h, [])
    requires var p := script[k].provider;
             && Taken(Provide.Answer(p.job, scene.up), link) == Provide.Answer(p.job, scene.up)
             && p.feed == Provide.Sends(p.job, target, scene, link)
             && room >= |p.feed| && appRoom > |p.feed|
    ensures var a := RelayAnswer(Relay.Run(job, body, trailers, script, room, false).sent, stop, strange,
            NewWriter(appRoom), false);
            && a.finish == Finished && Read(Blank, a.shown) == Closed && a.shown != []
            && a.shown[0].Head? && a.shown[0].status == scene.up.status
            && (Headers.Spelt(h, Headers.Travelling(h, [])) ==> a.shown[0].headers == Headers.AfterHop(h, []))
            && DataBytes(a.shown) == Provide.Joined(scene.up.parts)
            && a.shown[|a.shown| - 1] == Done(scene.up.trailers)
  {
    hide Encodable, Taken, Submission, Relay.Run, RelayAnswer, Track, Provide.Sends, Provide.Bodies, Headers.FromHttp,
         Headers.ToHttp, Headers.AfterHop, Headers.Travelling, Headers.Spelt, BodyOf, Read, DataBytes, Renumber,
           AllEncodable;
    var p := script[k].provider;
    var feed := p.feed;
    Provide.PassesAnswerOn(p.job, target, scene, link);
    SendsEncodable(p.job, target, scene, link);
    SendsShowable(p.job, target, scene, link);
    assert feed == Provide.Answer(p.job, scene.up) by {
      WholeSent(p.job, target, scene, link);
    }
    WholeIfOver(feed);
    AnswerSurvivesLostProviders(job, body, trailers, script, room, false, k);
    var got := Renumber(job.job, feed);
    RenumberKeeps(job.job, feed, Fresh);
    RenumberEncodable(job.job, feed);
    AlwaysAResponse(got, stop, strange, NewWriter(appRoom), false);
    WholeAnswerShown(got, stop, strange, appRoom);
    WholeReads(got, stop);
    Headers.ThereAndBack(h, []);
  }

  lemma WholeSent(job: u64, target: Text, scene: Provide.Scene, link: nat)
    requires scene.known && scene.slotFree && Collect(scene.inbox).Collected? && Provide.Usable(target, scene.up)
    requires !scene.up.broken && Taken(Provide.Answer(job, scene.up), link) == Provide.Answer(job, scene.up)
    ensures Provide.Sends(job, target, scene, link) == Provide.Answer(job, scene.up)
  {
  }

  lemma RenumberEncodable(job: u64, ms: seq<Message>)
    requires job != 0 && AllEncodable(ms)
    ensures AllEncodable(Renumber(job, ms))
  {
    hide Encodable;
    RenumberKeeps(job, ms, Fresh);
    forall i | 0 <= i < |ms| ensures Encodable(Renumber(job, ms)[i]) {
      RenumberedFits(ms[i], job);
    }
  }

  /** An answer whose last message is END and that began with RESPONSE is the same to a submitter. */
  lemma {:induction false} StrictlyOver(p: Progress, ms: seq<Message>)
    requires Track(p, ms, true) == Over && ms != [] && ms[|ms| - 1].End?
    ensures Track(p, ms, false) == Over
    decreases |ms|
  {
    TrackWrong(ms[1..], true);
    OverStays(ms[1..], true);
    if |ms| > 1 {
      StrictlyOver(Advance(p, ms[0], true), ms[1..]);
    } else {
      assert ms[1..] == [];
    }
  }

  lemma WholeIfOver(feed: seq<Message>)
    requires Track(Fresh, feed, true) == Over && feed != [] && feed[|feed| - 1].End?
    ensures Whole(feed, false)
  {
    StrictlyOver(Fresh, feed);
  }
}
