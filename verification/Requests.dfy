/** Requests at the two ends of a job: which never become one, which headers travel with the others, and which an
    upstream is given. */
module Requests {
  import opened Wire
  import opened Jobs
  import opened Tokens
  import opened Headers

  const UPGRADE: Text := Ascii("Upgrade")
  const CONNECTION: Text := Ascii("Connection")
  const USER_AGENT: Text := Ascii("User-Agent")

  /** http.Header.Get. */
  function Get(h: HttpHeader, name: Text): Text {
    if name in h && h[name] != [] then h[name][0] else []
  }

  // ---------- upgrades ----------

  /** strings.EqualFold with a word of ASCII letters that fold with no others. */
  predicate SaysUpgrade(t: Text) {
    |t| == 7 && forall i :: 0 <= i < 7 ==> Cased(t[i], false) == Ascii("upgrade")[i]
  }

  predicate AnyUpgrade(tokens: seq<Text>) {
    exists i :: 0 <= i < |tokens| && SaysUpgrade(Trimmed(tokens[i]))
  }

  predicate AnyListed(values: seq<Text>) {
    exists i :: 0 <= i < |values| && AnyUpgrade(Split([], values[i]))
  }

  predicate Upgrades(h: HttpHeader) {
    Get(h, UPGRADE) != [] || (CONNECTION in h && AnyListed(h[CONNECTION]))
  }

  /** Whether a request asks to turn the connection into something else. */
  method IsUpgrade(h: HttpHeader) returns (upgrade: bool)
    ensures upgrade == Upgrades(h)
  {
    hide Trimmed, Split, SaysUpgrade;
    if Get(h, UPGRADE) != [] {
      return true;
    }
    if CONNECTION !in h {
      return false;
    }
    var values := h[CONNECTION];
    for i := 0 to |values|
      invariant forall k :: 0 <= k < i ==> !AnyUpgrade(Split([], values[k]))
    {
      var tokens := Split([], values[i]);
      for j := 0 to |tokens|
        invariant forall k :: 0 <= k < j ==> !SaysUpgrade(Trimmed(tokens[k]))
      {
        if SaysUpgrade(Trimmed(tokens[j])) {
          assert AnyUpgrade(Split([], values[i]));
          return true;
        }
      }
    }
    return false;
  }

  /** "upgrade" in any spelling. */
  ghost predicate SpellsUpgrade(t: Text) {
    && |t| == 7
    && t[0] in Ascii("uU") && t[1] in Ascii("pP") && t[2] in Ascii("gG") && t[3] in Ascii("rR") && t[4] in Ascii("aA")
    && t[5] in Ascii("dD") && t[6] in Ascii("eE")
  }

  /** A request is one exactly if its Upgrade header begins with a value that is not empty, or its Connection header
      has "upgrade", in any spelling, between white space between commas. */
  lemma UpgradesExactly(h: HttpHeader)
    ensures Upgrades(h) <==>
            || (Ascii("Upgrade") in h && h[Ascii("Upgrade")] != [] && h[Ascii("Upgrade")][0] != [])
            || (&& Ascii("Connection") in h
                && exists v, i, j, t ::
                     v in h[Ascii("Connection")] && Between(v, i, j) && Within(v[i..j], t) && SpellsUpgrade(t))
  {
    hide Split, Within, SpellsUpgrade, AnyUpgrade;
    if CONNECTION in h {
      var values := h[CONNECTION];
      forall v ensures AnyUpgrade(Split([], v)) <==>
          exists i, j, t :: Between(v, i, j) && Within(v[i..j], t) && SpellsUpgrade(t) {
        UpgradeListed(v);
      }
      if AnyListed(values) {
        var i :| 0 <= i < |values| && AnyUpgrade(Split([], values[i]));
        assert values[i] in values;
      }
    }
  }

  lemma UpgradeListed(v: Text)
    ensures AnyUpgrade(Split([], v)) <==> exists i, j, t :: Between(v, i, j) && Within(v[i..j], t) && SpellsUpgrade(t)
  {
    hide Split, Within, SpellsUpgrade, SaysUpgrade, Trimmed;
    var tokens := Split([], v);
    assert v[0..0] == [] && v[0..] == v;
    if AnyUpgrade(tokens) {
      var k :| 0 <= k < |tokens| && SaysUpgrade(Trimmed(tokens[k]));
      SplitExactly(v, 0, 0, tokens[k]);
      SaysSpells(Trimmed(tokens[k]));
      TrimmedExactly(tokens[k], Trimmed(tokens[k]));
    }
    if i, j, t :| Between(v, i, j) && Within(v[i..j], t) && SpellsUpgrade(t) {
      SplitExactly(v, 0, 0, v[i..j]);
      TrimmedExactly(v[i..j], t);
      SaysSpells(t);
    }
  }

  lemma SaysSpells(t: Text)
    ensures SaysUpgrade(t) <==> SpellsUpgrade(t)
    ensures SaysUpgrade(t) ==> t != []
  {
    if |t| == 7 {
      var word := Ascii("upgrade");
      assert word == [0x75, 0x70, 0x67, 0x72, 0x61, 0x64, 0x65];
      assert Ascii("uU") == [0x75, 0x55] && Ascii("pP") == [0x70, 0x50] && Ascii("gG") == [0x67, 0x47];
      assert Ascii("rR") == [0x72, 0x52] && Ascii("aA") == [0x61, 0x41] && Ascii("dD") == [0x64, 0x44];
      assert Ascii("eE") == [0x65, 0x45];
    }
  }

  // ---------- headers ----------

  /** What travels with a REQUEST: what a hop lets through, and the length of the body that is sent. */
  ghost function RequestHeaders(h: HttpHeader, length: nat): seq<Header> {
    FromHttp(h, [CONTENT_LENGTH])
    + if length > 0 || Get(h, CONTENT_LENGTH) != [] then [Header(CONTENT_LENGTH, Decimal(length))] else []
  }

  method RequestHeadersInOrder(h: HttpHeader, length: nat, order: seq<Text>) returns (hs: seq<Header>)
    requires Enumerates(order, h.Keys)
    ensures hs == RequestHeaders(h, length)
  {
    hide FromHttp;
    hs := FromHttpInOrder(h, [CONTENT_LENGTH], order);
    if length > 0 || Get(h, CONTENT_LENGTH) != [] {
      hs := hs + [Header(CONTENT_LENGTH, Decimal(length))];
    }
  }

  /** What the upstream's request has: what came, less Content-Length, and no User-Agent of anybody else's. */
  function UpstreamHeader(hs: seq<Header>): HttpHeader {
    var h := ToHttp(hs, [CONTENT_LENGTH]);
    if USER_AGENT in h then h else h[USER_AGENT := []]
  }

  method UpstreamHeaderInOrder(hs: seq<Header>) returns (h: HttpHeader)
    ensures h == UpstreamHeader(hs)
  {
    h := ToHttpInOrder(hs, [CONTENT_LENGTH]);
    if USER_AGENT !in h {
      h := h[USER_AGENT := []];
    }
  }

  /** A body's length travels once and is that of the body, whatever the application said; it stays unsaid only for no
      body of an application that said nothing. */
  lemma LengthTravels(h: HttpHeader, length: nat)
    ensures var sent := SentAs(RequestHeaders(h, length), Ascii("Content-Length"));
            if length == 0 && Get(h, Ascii("Content-Length")) == [] then sent == []
            else |sent| == 1 && Spells(sent[0], length)
  {
    hide FromHttp, AfterHop, Canonical;
    var hs := FromHttp(h, [CONTENT_LENGTH]);
    SentInOrder(h, [CONTENT_LENGTH], CONTENT_LENGTH);
    ContentLengthLeftOut(h);
    DecimalReads(length);
    var last := [Header(CONTENT_LENGTH, Decimal(length))];
    SentAsSplit(hs, last, CONTENT_LENGTH);
    SentAsSplit(hs, [], CONTENT_LENGTH);
    assert last[1..] == [] && hs + [] == hs;
  }

  lemma ContentLengthLeftOut(h: HttpHeader)
    ensures CONTENT_LENGTH !in AfterHop(h, [CONTENT_LENGTH])
  {
    AfterHopExactly(h, [CONTENT_LENGTH], CONTENT_LENGTH);
    ContentLengthIsCanonical();
    assert CONTENT_LENGTH in [CONTENT_LENGTH];
  }

  lemma ContentLengthIsCanonical()
    ensures Canonical(CONTENT_LENGTH) == CONTENT_LENGTH
  {
    hide IsToken, Canonical;
    CanonicalExactly(CONTENT_LENGTH, 0);
    forall i | 0 <= i < |CONTENT_LENGTH| ensures Canonical(CONTENT_LENGTH)[i] == CONTENT_LENGTH[i] {
      CanonicalExactly(CONTENT_LENGTH, i);
    }
  }

  /** What an upstream is given is what the application said, less what belongs to one connection, with the length left
      to the client that knows the body. */
  lemma UpstreamGets(h: HttpHeader, length: nat)
    requires Spelt(h, Travelling(h, [Ascii("Content-Length")]))
    ensures var given, kept := UpstreamHeader(RequestHeaders(h, length)), AfterHop(h, [Ascii("Content-Length")]);
            && Ascii("Content-Length") !in given
            && given == if Ascii("User-Agent") in kept then kept else kept[Ascii("User-Agent") := []]
  {
    hide FromHttp, AfterHop, Travelling, Canonical, Values;
    var drop, hs := [CONTENT_LENGTH], FromHttp(h, [CONTENT_LENGTH]);
    ThereAndBack(h, drop);
    ContentLengthIsCanonical();
    ContentLengthLeftOut(h);
    OneMore(hs, Header(CONTENT_LENGTH, Decimal(length)), drop);
    assert hs + [] == hs;
    LengthDropped(hs);
  }

  lemma LengthDropped(hs: seq<Header>)
    requires CONTENT_LENGTH !in ToHttp(hs, [])
    ensures ToHttp(hs, [CONTENT_LENGTH]) == ToHttp(hs, []) && CONTENT_LENGTH in Skip([CONTENT_LENGTH])
  {
    hide Canonical, Values;
    ContentLengthIsCanonical();
    assert CONTENT_LENGTH in [CONTENT_LENGTH];
    assert Skip([]) == {};
    forall n ensures n in Skip([CONTENT_LENGTH]) <==> n == CONTENT_LENGTH {
    }
  }
}
