/** The provider side of a job: what a peer sends back for a REQUEST, whatever its upstream does and whenever the
    connection dies. The wording of a FAIL is a parameter. */
module Provide {
  import opened Wire
  import opened Jobs

  /** What the upstream says to the request: nothing usable, or a status, headers, the pieces of body its reads gave,
      whether the last read failed, and trailers. */
  datatype Upstream =
    | Unreachable
    | Answered(status: nat, headers: seq<Header>, parts: seq<Text>, broken: bool, trailers: seq<Header>)

  /** What a provider finds: whether it has the service, whether a slot is free, the job's inbox, its upstream, and
      what a failure would say. */
  datatype Scene = Scene(known: bool, slotFree: bool, inbox: seq<Message>, up: Upstream, why: Text) {
    /** What an HTTP client returns: it takes informational responses in by itself, a 204 and a 304 have no body, and a
        read returns no more than its buffer holds. */
    ghost predicate Valid() {
      up.Answered? ==>
        && (up.status < 100 || up.status == 101 || 200 <= up.status <= 999)
        && (forall i :: 0 <= i < |up.parts| ==> |up.parts[i]| <= BODY_CHUNK)
        && (up.status == 204 || up.status == 304 ==> forall i :: 0 <= i < |up.parts| ==> up.parts[i] == [])
    }
  }

  predicate IsPath(target: Text) {
    target != [] && target[0] == 0x2F
  }

  /** There is an answer to pass on: the request could be made and its status fits a status line. */
  predicate Usable(target: Text, up: Upstream) {
    IsPath(target) && up.Answered? && MIN_STATUS <= up.status <= MAX_STATUS
  }

  /** A BODY for every read that gave anything. */
  function Bodies(job: u64, parts: seq<Text>): seq<Message> {
    if parts == [] then []
    else (if parts[0] == [] then [] else [Body(job, parts[0])]) + Bodies(job, parts[1..])
  }

  /** What the upstream's answer becomes, were every send to succeed. */
  function Answer(job: u64, up: Upstream): seq<Message>
    requires up.Answered? && up.status <= MAX_STATUS
  {
    [Response(job, up.status, up.headers)] + Streamed(job, up)
  }

  function Streamed(job: u64, up: Upstream): seq<Message>
    requires up.Answered?
  {
    Bodies(job, up.parts) + if up.broken then [] else [End(job, up.trailers)]
  }

  /** Everything sent for one job on a connection that takes room more messages. */
  function Sends(job: u64, target: Text, scene: Scene, room: nat): seq<Message> {
    var fail := [Fail(job, scene.why)];
    if !scene.known then Taken(fail, room)
    else if !scene.slotFree then []
    else if !Collect(scene.inbox).Collected? then Taken(fail, room)
    else if !Usable(target, scene.up) then Taken(fail, room)
    else
      var ms := Answer(job, scene.up);
      var t := Taken(ms, room);
      if t == ms && !scene.up.broken then ms else t + Taken(fail, room - |t|)
  }

  // ---------- as it runs ----------

  /** Passes the pieces of a body on as they come. */
  method SendParts(c: Link, job: u64, parts: seq<Text>) returns (ok: bool)
    requires forall i :: 0 <= i < |parts| ==> |parts[i]| <= BODY_CHUNK
    modifies c
    ensures var ms := Bodies(job, parts);
            var t := Taken(ms, old(c.room));
            c.sent == old(c.sent) + t && c.room == old(c.room) - |t| && ok == (t == ms)
  {
    hide Encodable, Taken, Bodies;
    ghost var ms, all := Bodies(job, parts), Taken(Bodies(job, parts), c.room);
    var rest := parts;
    while rest != []
      invariant forall i :: 0 <= i < |rest| ==> |rest[i]| <= BODY_CHUNK
      invariant var left := Bodies(job, rest);
        && c.sent + Taken(left, c.room) == old(c.sent) + all && c.room - |Taken(left, c.room)| == old(c.room) - |all|
        && (Taken(left, c.room) == left <==> all == ms)
      decreases |rest|
    {
      var part := rest[0];
      assert rest == [part] + rest[1..];
      BodiesStep(job, part, rest[1..]);
      if part != [] {
        TakenStep(c.sent, Body(job, part), Bodies(job, rest[1..]), c.room);
        ok := c.Send(Body(job, part));
        if !ok {
          return;
        }
      }
      rest := rest[1..];
    }
    NoMoreBodies(job, c.room);
    return true;
  }

  /** The request against the upstream, from the status to the last trailer; false is a failure to report. */
  method RunUpstream(c: Link, job: u64, target: Text, up: Upstream) returns (ok: bool)
    requires up.Answered? ==> forall i :: 0 <= i < |up.parts| ==> |up.parts[i]| <= BODY_CHUNK
    modifies c
    ensures !Usable(target, up) ==> !ok && c.sent == old(c.sent) && c.room == old(c.room)
    ensures Usable(target, up) ==>
              var ms := Answer(job, up);
              var t := Taken(ms, old(c.room));
              c.sent == old(c.sent) + t && c.room == old(c.room) - |t| && ok == (t == ms && !up.broken)
  {
    hide Encodable, Bodies, Taken;
    if !IsPath(target) || up.Unreachable? {
      return false;
    }
    if up.status < MIN_STATUS || up.status > MAX_STATUS {
      return false;
    }
    var head := Response(job, up.status, up.headers);
    TakenStep(c.sent, head, Streamed(job, up), c.room);
    ok := c.Send(head);
    if ok {
      ok := SendStreamed(c, job, up);
    }
  }

  /** What follows the RESPONSE: the pieces of body, and END behind them unless a read fails first. */
  method SendStreamed(c: Link, job: u64, up: Upstream) returns (ok: bool)
    requires up.Answered? && forall i :: 0 <= i < |up.parts| ==> |up.parts[i]| <= BODY_CHUNK
    modifies c
    ensures var ms := Streamed(job, up);
            var t := Taken(ms, old(c.room));
            c.sent == old(c.sent) + t && c.room == old(c.room) - |t| && ok == (t == ms && !up.broken)
  {
    hide Encodable, Bodies, Taken;
    ghost var bodies := Bodies(job, up.parts);
    var tail := if up.broken then [] else [End(job, up.trailers)];
    TakenSplit(bodies, tail, c.room);
    ok := SendParts(c, job, up.parts);
    if !ok {
      ShorterDiffers(Taken(bodies, old(c.room)), bodies, tail);
      return;
    }
    if up.broken {
      TakenNothing(c.room);
      return false;
    }
    TakenOne(tail[0], c.room);
    ok := c.Send(tail[0]);
  }

  lemma ShorterDiffers(t: seq<Message>, ms: seq<Message>, more: seq<Message>)
    requires t <= ms && t != ms
    ensures t != ms + more
  {
    assert |t| < |ms|;
  }

  lemma BodiesStep(job: u64, part: Text, rest: seq<Text>)
    ensures Bodies(job, [part] + rest) == if part == [] then Bodies(job, rest)
            else [Body(job, part)] + Bodies(job, rest)
  {
    assert ([part] + rest)[1..] == rest;
  }

  lemma NoMoreBodies(job: u64, room: nat)
    ensures Bodies(job, []) == [] && Taken([], room) == []
  {
  }

  /** A peer's own count of the jobs each of its services runs. */
  class Endpoint {
    const slots: map<Text, u16>
    var running: map<Text, nat>

    constructor (slots: map<Text, u16>)
      ensures this.slots == slots && forall s :: Count(s) == 0
    {
      this.slots, running := slots, map[];
    }

    function Count(service: Text): nat
      reads this
    {
      if service in running then running[service] else 0
    }

    predicate Free(service: Text)
      reads this
    {
      service in slots && Count(service) < slots[service]
    }

    /** Claims a slot, and refuses when they are all in use. */
    method Take(service: Text) returns (ok: bool)
      requires service in slots
      modifies this
      ensures ok == old(Free(service))
      ensures forall s :: Count(s) == old(Count(s)) + if ok && s == service then 1 else 0
      ensures ok ==> Count(service) <= slots[service]
    {
      if Count(service) >= slots[service] {
        return false;
      }
      running := running[service := Count(service) + 1];
      return true;
    }

    method Give(service: Text)
      requires Count(service) > 0
      modifies this
      ensures forall s :: Count(s) == old(Count(s)) - if s == service then 1 else 0
    {
      running := running[service := Count(service) - 1];
    }
  }

  /** Runs one job the peer at the other end sent. A slot it takes it gives back, whatever becomes of the job. */
  method Run(e: Endpoint, c: Link, job: u64, service: Text, target: Text, scene: Scene) returns (connectionFailed: bool)
    requires scene.Valid() && scene.known == (service in e.slots) && (scene.known ==> scene.slotFree == e.Free(service))
    modifies e, c
    ensures c.sent == old(c.sent) + Sends(job, target, scene, old(c.room))
    ensures connectionFailed == (scene.known && !scene.slotFree)
    ensures forall s :: e.Count(s) == old(e.Count(s))
  {
    hide Encodable, Taken, Answer, Usable;
    connectionFailed := false;
    if service !in e.slots {
      TakenOne(Fail(job, scene.why), c.room);
      var _ := c.Send(Fail(job, scene.why));
      return;
    }
    var free := e.Take(service);
    if !free {
      return true;
    }
    RunTaken(c, job, target, scene);
    e.Give(service);
  }

  /** A job that has its slot. */
  method RunTaken(c: Link, job: u64, target: Text, scene: Scene)
    requires scene.Valid() && scene.known && scene.slotFree
    modifies c
    ensures c.sent == old(c.sent) + Sends(job, target, scene, old(c.room))
  {
    hide Encodable, Taken, Answer, Usable;
    var fail := Fail(job, scene.why);
    TakenOne(fail, c.room);
    var collected := CollectBody(scene.inbox);
    if !collected.Collected? {
      var _ := c.Send(fail);
      return;
    }
    var ok := RunUpstream(c, job, target, scene.up);
    if !ok {
      TakenOne(fail, c.room);
      var _ := c.Send(fail);
    }
  }

  // ---------- what it comes to ----------

  lemma {:induction false} BodiesTrack(job: u64, parts: seq<Text>, n: nat)
    requires n <= |Bodies(job, parts)|
    ensures Track(Streaming, Bodies(job, parts)[..n], true) == Streaming
  {
    if parts != [] {
      var first := if parts[0] == [] then [] else [Body(job, parts[0])];
      var rest := Bodies(job, parts[1..]);
      if n <= |first| {
        assert Bodies(job, parts)[..n] == first[..n];
        if n > 0 {
          assert first[..n][1..] == [];
        }
      } else {
        assert Bodies(job, parts)[..n] == first + rest[..n - |first|];
        BodiesTrack(job, parts[1..], n - |first|);
        TrackSplit(Streaming, first, rest[..n - |first|], true);
        if first != [] {
          assert first[1..] == [];
        }
      }
    }
  }

  lemma AnswerTrack(job: u64, up: Upstream, n: nat)
    requires up.Answered? && up.status <= MAX_STATUS && n <= |Answer(job, up)|
    ensures Track(Fresh, Answer(job, up)[..n], true)
            == if n == 0 then Fresh else if n == |Answer(job, up)| && !up.broken then Over else Streaming
  {
    var ms, bodies := Answer(job, up), Bodies(job, up.parts);
    if n > 0 {
      var k := if n - 1 <= |bodies| then n - 1 else |bodies|;
      BodiesTrack(job, up.parts, k);
      assert ms[..n][1..] == ms[1..n];
      if n - 1 <= |bodies| {
        assert ms[1..n] == bodies[..k];
      } else {
        assert ms[1..n] == bodies + [End(job, up.trailers)] && bodies[..k] == bodies;
        TrackSplit(Streaming, bodies, [End(job, up.trailers)], true);
        assert [End(job, up.trailers)][1..] == [];
      }
    }
  }

  /** Whatever the upstream does, what a provider sends is an answer as far as it comes; and it is complete unless the
      peer is out of step about slots, the connection died, or the reason is one the encoder refuses. */
  lemma AlwaysAnAnswer(job: u64, target: Text, scene: Scene, room: nat)
    ensures FromProvider(Sends(job, target, scene, room))
    ensures Track(Fresh, Sends(job, target, scene, room), true) != Over ==>
              (scene.known && !scene.slotFree) || |Sends(job, target, scene, room)| == room
                || !Encodable(Fail(job, scene.why))
  {
    hide Encodable, Taken;
    FailTrack(job, scene.why, room);
    if scene.known && scene.slotFree && Collect(scene.inbox).Collected? && Usable(target, scene.up) {
      var ms := Answer(job, scene.up);
      var t := Taken(ms, room);
      AnswerTrack(job, scene.up, |t|);
      assert ms[..|t|] == t;
      FailTrack(job, scene.why, room - |t|);
      TrackSplit(Fresh, t, Taken([Fail(job, scene.why)], room - |t|), true);
    }
  }

  lemma FailTrack(job: u64, why: Text, room: nat)
    ensures var sent := Taken([Fail(job, why)], room);
            && Track(Fresh, sent, true) == (if sent == [] then Fresh else Over)
            && Track(Streaming, sent, true) == (if sent == [] then Streaming else Over)
            && (sent == [] ==> room == 0 || !Encodable(Fail(job, why)))
  {
    TakenOne(Fail(job, why), room);
    assert [Fail(job, why)][1..] == [];
  }

  function Joined(parts: seq<Text>): Text {
    if parts == [] then [] else parts[0] + Joined(parts[1..])
  }

  lemma {:induction false} BodiesCarry(job: u64, parts: seq<Text>)
    ensures BodyOf(Bodies(job, parts)) == Joined(parts)
  {
    if parts != [] {
      hide BodyOf, Bodies;
      var part, rest := parts[0], parts[1..];
      assert parts == [part] + rest;
      BodiesCarry(job, rest);
      BodiesStep(job, part, rest);
      if part != [] {
        BodyOfFirst(Body(job, part), Bodies(job, rest));
      }
    } else {
      assert Bodies(job, parts) == [];
    }
  }

  /** Every BODY is a read that gave something, under the job's id. */
  lemma {:induction false} BodiesAre(job: u64, parts: seq<Text>, i: nat) returns (k: nat)
    requires i < |Bodies(job, parts)|
    ensures k < |parts| && parts[k] != [] && Bodies(job, parts)[i] == Body(job, parts[k])
  {
    k := 0;
    var first := if parts[0] == [] then [] else [Body(job, parts[0])];
    if i >= |first| {
      k := BodiesAre(job, parts[1..], i - |first|);
      k := k + 1;
    }
  }

  /** And if every read did, there is one BODY for each. */
  lemma {:induction false} NoneMerged(job: u64, parts: seq<Text>)
    requires forall k :: 0 <= k < |parts| ==> parts[k] != []
    ensures |Bodies(job, parts)| == |parts|
    ensures forall k :: 0 <= k < |parts| ==> Bodies(job, parts)[k] == Body(job, parts[k])
  {
    if parts != [] {
      NoneMerged(job, parts[1..]);
    }
  }

  /** There is an answer: the target is a path, the upstream was reached, and its status has three digits below 600. */
  ghost predicate HasAnswer(target: Text, scene: Scene) {
    && scene.known && scene.slotFree && Collect(scene.inbox).Collected?
    && target != [] && target[0] == '/' as int && scene.up.Answered? && 100 <= scene.up.status <= 599
  }

  ghost predicate FailsWith(sent: seq<Message>, job: u64, why: Text, room: nat) {
    sent == if room > 0 && Encodable(Fail(job, why)) then [Fail(job, why)] else []
  }

  /** What a provider sends comes to one of three things: nothing if the peer is out of step about slots, a bare FAIL if
      there is no answer, and the answer as far as it goes: END last if all of it went, FAIL last if it broke off. */
  lemma SendsExactly(job: u64, target: Text, scene: Scene, room: nat)
    ensures var sent, up := Sends(job, target, scene, room), scene.up;
      if scene.known && !scene.slotFree then sent == []
      else if !HasAnswer(target, scene) then FailsWith(sent, job, scene.why, room)
      else
        var head, bodies := Response(job, up.status, up.headers), Bodies(job, up.parts);
        var whole := [head] + bodies + if up.broken then [] else [End(job, up.trailers)];
        if !up.broken && |whole| <= room && AllEncodable(whole) then sent == whole
        else
          var t := Taken(whole, room);
          t <= sent && FailsWith(sent[|t|..], job, scene.why, room - |t|)
  {
    hide Encodable, Taken, Bodies, Collect, FailsWith, Answer, Usable, AllEncodable;
    FailSent(job, scene.why, room);
    SomeAnswer(target, scene);
    if HasAnswer(target, scene) {
      var whole := Answer(job, scene.up);
      AnswerIs(job, scene.up);
      TakenAll(whole, room);
      FailSent(job, scene.why, room - |Taken(whole, room)|);
    }
  }

  lemma FailSent(job: u64, why: Text, room: nat)
    ensures FailsWith(Taken([Fail(job, why)], room), job, why, room)
  {
    TakenOne(Fail(job, why), room);
  }

  lemma SomeAnswer(target: Text, scene: Scene)
    ensures HasAnswer(target, scene) <==>
            scene.known && scene.slotFree && Collect(scene.inbox).Collected? && Usable(target, scene.up)
  {
    hide Collect;
  }

  lemma AnswerIs(job: u64, up: Upstream)
    requires up.Answered? && 100 <= up.status <= 599
    ensures Answer(job, up) == [Response(job, up.status, up.headers)] + Bodies(job, up.parts)
                               + if up.broken then [] else [End(job, up.trailers)]
  {
    hide Bodies;
    var tail := if up.broken then [] else [End(job, up.trailers)];
    assert [Response(job, up.status, up.headers)] + (Bodies(job, up.parts) + tail)
        == [Response(job, up.status, up.headers)] + Bodies(job, up.parts) + tail;
  }

  /** A complete upstream answer over a connection that lasts is passed on whole: its status first, every octet of its
      body in order, its trailers last. */
  lemma PassesAnswerOn(job: u64, target: Text, scene: Scene, room: nat)
    requires HasAnswer(target, scene) && !scene.up.broken
    requires Taken(Answer(job, scene.up), room) == Answer(job, scene.up)
    ensures var ms := Sends(job, target, scene, room);
      && Track(Fresh, ms, true) == Over && ms != []
      && ms[0] == Response(job, scene.up.status, scene.up.headers)
      && BodyOf(ms) == Joined(scene.up.parts)
      && ms[|ms| - 1] == End(job, scene.up.trailers)
  {
    var up := scene.up;
    var ms, tail := Answer(job, up), [End(job, up.trailers)];
    AnswerTrack(job, up, |ms|);
    assert ms[..|ms|] == ms;
    BodiesCarry(job, up.parts);
    BodyOfFirst(ms[0], Bodies(job, up.parts) + tail);
    BodyOfSplit(Bodies(job, up.parts), tail);
    BodyOfFirst(tail[0], []);
    assert tail == [tail[0]] + [];
    assert Joined(up.parts) + [] == Joined(up.parts);
  }
}
