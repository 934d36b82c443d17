// What the GDB stub makes of whole streams of bytes: packets come through as they
// were meant, and a conversation with retransmissions handles every command once.
module GdbStreams {
  import opened GdbPackets
  import opened GdbReader

  // The effects of a sequence of bytes, one after the other.
  ghost function Effects(f: (Reader, Byte) -> Effect, s: Reader, bytes: seq<Byte>): Effect {
    if bytes == [] then Effect(s, [])
    else
      var k := |bytes| - 1;
      var e1 := Effects(f, s, bytes[..k]);
      var e2 := f(e1.next, bytes[k]);
      Effect(e2.next, e1.events + e2.events)
  }

  lemma {:induction false} EffectsAppend(f: (Reader, Byte) -> Effect, s: Reader, a: seq<Byte>, b: seq<Byte>)
    ensures var e1 := Effects(f, s, a);
      var e2 := Effects(f, e1.next, b);
      Effects(f, s, a + b) == Effect(e2.next, e1.events + e2.events)
  {
    var e1 := Effects(f, s, a);
    if b == [] {
      assert a + b == a;
      assert e1.events + [] == e1.events;
    } else {
      var k := |b| - 1;
      assert (a + b)[..|a + b| - 1] == a + b[..k];
      EffectsAppend(f, s, a, b[..k]);
      var e2 := Effects(f, e1.next, b[..k]);
      var e3 := f(e2.next, b[k]);
      assert (e1.events + e2.events) + e3.events == e1.events + (e2.events + e3.events);
    }
  }

  // The machine stays stopped.
  ghost function Stepper(h: Handler): (Reader, Byte) -> Effect {
    (s: Reader, ch: Byte) => Step(s, false, h, ch)
  }

  ghost function Feed(s: Reader, h: Handler, bytes: seq<Byte>): Effect {
    Effects(Stepper(h), s, bytes)
  }

  lemma FeedAppend(s: Reader, h: Handler, a: seq<Byte>, b: seq<Byte>)
    ensures var e1 := Feed(s, h, a);
      var e2 := Feed(e1.next, h, b);
      Feed(s, h, a + b) == Effect(e2.next, e1.events + e2.events)
  {
    EffectsAppend(Stepper(h), s, a, b);
  }

  lemma FeedOne(s: Reader, h: Handler, ch: Byte)
    ensures Feed(s, h, [ch]) == Step(s, false, h, ch)
  {
    var f := Stepper(h);
    assert [ch][..0] == [] && Effects(f, s, []) == Effect(s, []);
    assert f(s, ch) == Step(s, false, h, ch);
    assert [] + Step(s, false, h, ch).events == Step(s, false, h, ch).events;
  }

  lemma FeedTwo(s: Reader, h: Handler, a: Byte, b: Byte)
    ensures var e1 := Step(s, false, h, a);
      var e2 := Step(e1.next, false, h, b);
      Feed(s, h, [a, b]) == Effect(e2.next, e1.events + e2.events)
  {
    assert [a, b] == [a] + [b];
    FeedAppend(s, h, [a], [b]);
    FeedOne(s, h, a);
    FeedOne(Step(s, false, h, a).next, h, b);
  }

  // No stream whatsoever makes the line outgrow its buffer.
  lemma {:induction false} FeedBounded(s: Reader, h: Handler, bytes: seq<Byte>)
    requires Bounded(s)
    ensures Bounded(Feed(s, h, bytes).next)
  {
    if bytes != [] {
      FeedBounded(s, h, bytes[..|bytes| - 1]);
    }
  }

  // Between packets, everything but the start of a packet is passed over.
  lemma {:induction false} Garbage(s: Reader, h: Handler, bytes: seq<Byte>)
    requires s.phase == Idle && s.last == [] && DOLLAR !in bytes
    ensures Feed(s, h, bytes) == Effect(s, [])
  {
    if bytes != [] {
      Garbage(s, h, bytes[..|bytes| - 1]);
      assert s.(last := []) == s && bytes[|bytes| - 1] in bytes;
    }
  }

  // While a packet waits to be acknowledged, so is everything but the three characters that
  // mean something then.
  lemma {:induction false} Unexpected(s: Reader, h: Handler, bytes: seq<Byte>)
    requires s.last != [] && forall i :: 0 <= i < |bytes| ==> bytes[i] != 36 && bytes[i] != 43 && bytes[i] != 45
    ensures Feed(s, h, bytes) == Effect(s, [])
  {
    if bytes != [] {
      Unexpected(s, h, bytes[..|bytes| - 1]);
    }
  }

  // -------------------------------------------------------------- a running machine

  // The machine runs until it is stopped, and is not started again meanwhile.
  ghost function FeedRunning(s: Reader, h: Handler, bytes: seq<Byte>): Effect
    decreases |bytes|
  {
    if bytes == [] then Effect(s, [])
    else
      var e1 := Step(s, true, h, bytes[0]);
      var e2 := if Stopped in e1.events then Feed(e1.next, h, bytes[1..]) else FeedRunning(e1.next, h, bytes[1..]);
      Effect(e2.next, e1.events + e2.events)
  }

  // With nothing to be acknowledged, the first byte stops the machine, whatever it is and
  // whatever is being received, and is lost; what follows is read as ever.
  lemma Interrupted(s: Reader, h: Handler, bytes: seq<Byte>)
    requires s.last == [] && bytes != []
    ensures var e := Feed(s, h, bytes[1..]); FeedRunning(s, h, bytes) == Effect(e.next, [Stopped] + e.events)
  {
    assert Step(s, true, h, bytes[0]) == Effect(s, [Stopped]);
  }

  // Acknowledging does not stop it: up to the first '$' or '+', a machine with a packet to be
  // acknowledged runs on.
  lemma {:induction false} RunsOn(s: Reader, h: Handler, bytes: seq<Byte>)
    requires s.last != [] && forall i :: 0 <= i < |bytes| ==> bytes[i] != 36 && bytes[i] != 43
    ensures FeedRunning(s, h, bytes).next == s && Stopped !in FeedRunning(s, h, bytes).events
    decreases |bytes|
  {
    if bytes != [] {
      RunsOn(s, h, bytes[1..]);
    }
  }

  lemma Acknowledged(s: Reader, h: Handler, running: bool)
    requires s.last != []
    ensures Step(s, running, h, 43) == Effect(s.(last := []), [])
    ensures Step(s, running, h, 45) == Effect(s, [Sent(s.last)])
  {
  }

  // ----------------------------------------------------------------- one packet

  // Reading tokens, the line is what they stand for so far.
  ghost function Reading(s: Reader, ts: seq<Token>): Reader
    requires TokensOk(ts)
  {
    s.(phase := GetLine, line := Expand(ts), sum := Sum(WireAll(ts)), last := [])
  }

  lemma SumOne(a: Byte)
    ensures Sum([a]) == a
  {
    assert [a][..0] == [];
  }

  lemma SumTwo(a: Byte, b: Byte)
    ensures Sum([a, b]) == a + b
  {
    assert [a, b][..1] == [a];
    SumOne(a);
  }

  // The three ways a line grows.
  lemma PlainStep(r: Reader, h: Handler, c: Byte)
    requires r.phase == GetLine && r.last == [] && TokenOk(Plain(c)) && TokenFits(|r.line|, Plain(c))
    ensures Feed(r, h, Wire(Plain(c))) == Effect(r.(line := r.line + [c], sum := r.sum + c), [])
  {
    FeedOne(r, h, c);
  }

  lemma EscapedStep(r: Reader, h: Handler, c: Byte)
    requires r.phase == GetLine && r.last == [] && TokenOk(Escaped(c)) && TokenFits(|r.line|, Escaped(c))
    ensures Feed(r, h, Wire(Escaped(c))) == Effect(r.(line := r.line + [c], sum := r.sum + BRACE + Flip(c)), [])
  {
    FlipFlip(c);
    FeedTwo(r, h, BRACE, Flip(c));
    var r1 := r.(phase := Escape, sum := r.sum + BRACE);
    assert Step(r, false, h, BRACE) == Effect(r1, []);
    assert Step(r1, false, h, Flip(c)) == Effect(r.(line := r.line + [c], sum := r.sum + BRACE + Flip(c)), []);
  }

  lemma RunStep(r: Reader, h: Handler, n: nat)
    requires r.phase == GetLine && r.last == [] && r.line != [] && TokenOk(Run(n)) && TokenFits(|r.line|, Run(n))
    ensures Feed(r, h, Wire(Run(n))) ==
      Effect(r.(line := Repeated(r.line, n), sum := r.sum + STAR + (n + 29)), [])
  {
    FeedTwo(r, h, STAR, n + 29);
    var r1 := r.(phase := Repeat, sum := r.sum + STAR);
    assert Step(r, false, h, STAR) == Effect(r1, []);
    assert Step(r1, false, h, n + 29) == Effect(r.(line := Repeated(r.line, n), sum := r.sum + STAR + (n + 29)), []);
  }

  lemma TokenStep(s: Reader, h: Handler, ts: seq<Token>)
    requires TokensOk(ts) && ts != [] && TokensOk(ts[..|ts| - 1])
    requires TokenFits(|Expand(ts[..|ts| - 1])|, ts[|ts| - 1])
    ensures Feed(Reading(s, ts[..|ts| - 1]), h, Wire(ts[|ts| - 1])) == Effect(Reading(s, ts), [])
  {
    var k := |ts| - 1;
    var r := Reading(s, ts[..k]);
    SumAppend(WireAll(ts[..k]), Wire(ts[k]));
    match ts[k]
    case Plain(c) =>
      SumOne(c);
      PlainStep(r, h, c);
    case Escaped(c) =>
      SumTwo(BRACE, Flip(c));
      EscapedStep(r, h, c);
    case Run(n) =>
      SumTwo(STAR, n + 29);
      RunStep(r, h, n);
  }

  lemma {:induction false} TokensRead(s: Reader, h: Handler, ts: seq<Token>)
    requires TokensOk(ts) && Fits(ts)
    ensures Feed(Reading(s, []), h, WireAll(ts)) == Effect(Reading(s, ts), [])
  {
    if ts != [] {
      var k := |ts| - 1;
      TokensRead(s, h, ts[..k]);
      FeedAppend(Reading(s, []), h, WireAll(ts[..k]), Wire(ts[k]));
      TokenStep(s, h, ts);
    }
  }

  // A token that does not fit ends the packet.
  lemma TokenOverrun(s: Reader, h: Handler, ts: seq<Token>)
    requires TokensOk(ts) && ts != [] && TokensOk(ts[..|ts| - 1])
    requires !TokenFits(|Expand(ts[..|ts| - 1])|, ts[|ts| - 1])
    ensures var e := Feed(Reading(s, ts[..|ts| - 1]), h, Wire(ts[|ts| - 1]));
      e.next.phase == Idle && e.next.last == [] && e.events == []
  {
    var k := |ts| - 1;
    var r := Reading(s, ts[..k]);
    match ts[k]
    case Plain(c) => FeedOne(r, h, c);
    case Escaped(c) => FeedTwo(r, h, BRACE, Flip(c));
    case Run(n) => FeedTwo(r, h, STAR, n + 29);
  }

  lemma {:induction false} TokensOverrun(s: Reader, h: Handler, ts: seq<Token>)
    requires TokensOk(ts) && !Fits(ts) && DOLLAR !in WireAll(ts)
    ensures var e := Feed(Reading(s, []), h, WireAll(ts)); e.next.phase == Idle && e.next.last == [] && e.events == []
  {
    var k := |ts| - 1;
    FeedAppend(Reading(s, []), h, WireAll(ts[..k]), Wire(ts[k]));
    if Fits(ts[..k]) {
      TokensRead(s, h, ts[..k]);
      TokenOverrun(s, h, ts);
    } else {
      TokensOverrun(s, h, ts[..k]);
      Garbage(Feed(Reading(s, []), h, WireAll(ts[..k])).next, h, Wire(ts[k]));
    }
  }

  // Slips that do not end the packet: a run length that is none, or with nothing to repeat,
  // is passed over; an escape that is cut short by '#' leads to the checksum; a checksum
  // that is no number leads back to the payload.
  lemma Slips(r: Reader, h: Handler, ch: Byte, h1: Byte)
    requires r.phase == GetLine && r.last == [] && !IsHex(ch) && IsHex(h1)
    ensures Feed(r, h, [125, 35]) == Effect(r.(phase := Checksum1, sum := r.sum + 125), [])
    ensures Feed(r, h, [35, ch]) == Effect(r, [])
    ensures Feed(r, h, [35] + [h1, ch]) == Effect(r.(csum := FromHex(h1) * 16), [])
  {
    FeedTwo(r, h, 125, 35);
    FeedTwo(r, h, 35, ch);
    FeedAppend(r, h, [35], [h1, ch]);
    FeedOne(r, h, 35);
    FeedTwo(r.(phase := Checksum1), h, h1, ch);
  }

  lemma RunSlips(r: Reader, h: Handler, ch: Byte)
    requires r.phase == GetLine && r.last == []
    requires ch < 32 || ch == 35 || ch == 36 || ch > 126 || (r.line == [] && ch - 29 < 4095)
    ensures Feed(r, h, [42, ch]) == Effect(r.(sum := r.sum + 42), [])
  {
    FeedTwo(r, h, 42, ch);
  }

  ghost function Packet(payload: seq<Byte>, h1: Byte, h2: Byte): seq<Byte> {
    [DOLLAR] + payload + [HASH] + [h1, h2]
  }

  lemma FeedPacket(s: Reader, h: Handler, payload: seq<Byte>, h1: Byte, h2: Byte)
    ensures var e1 := Feed(s, h, [DOLLAR]);
      var e2 := Feed(e1.next, h, payload);
      var e3 := Feed(e2.next, h, [HASH] + [h1, h2]);
      Feed(s, h, Packet(payload, h1, h2)) == Effect(e3.next, e1.events + e2.events + e3.events)
  {
    FeedAppend(s, h, [DOLLAR], payload);
    FeedAppend(s, h, [DOLLAR] + payload, [HASH] + [h1, h2]);
    assert Packet(payload, h1, h2) == ([DOLLAR] + payload) + ([HASH] + [h1, h2]);
  }

  lemma Start(s: Reader, h: Handler)
    requires s.phase == Idle
    ensures Feed(s, h, [DOLLAR]) == Effect(Reading(s, []), [])
  {
    FeedOne(s, h, DOLLAR);
  }

  // The end of a packet: '#' and two hex digits.
  lemma Finish(s: Reader, h: Handler, h1: Byte, h2: Byte)
    requires s.phase == GetLine && s.last == [] && IsHex(h1) && IsHex(h2)
    ensures var e := Feed(s, h, [HASH] + [h1, h2]);
      var good := FromHex(h1) * 16 + FromHex(h2) == s.sum % 256;
      && e.next.phase == Idle && e.next.last == (if good then Answer(h, s.line) else [])
      && e.events == if good then [Reply(PLUS), Handled(s.line)] + SentEvents(Answer(h, s.line)) else [Reply(MINUS)]
  {
    FeedAppend(s, h, [HASH], [h1, h2]);
    FeedOne(s, h, HASH);
    var s1 := s.(phase := Checksum1);
    FeedTwo(s1, h, h1, h2);
    var s2 := s1.(phase := Checksum2, csum := FromHex(h1) * 16);
    assert Feed(s1, h, [h1, h2]).events == [] + Step(s2, false, h, h2).events;
  }

  // A packet is handled, exactly as meant, if and only if its checksum is right.
  lemma Delivered(s: Reader, h: Handler, ts: seq<Token>, h1: Byte, h2: Byte)
    requires s.phase == Idle && TokensOk(ts) && Fits(ts) && IsHex(h1) && IsHex(h2)
    ensures var e := Feed(s, h, Packet(WireAll(ts), h1, h2));
      var good := FromHex(h1) * 16 + FromHex(h2) == Sum(WireAll(ts)) % 256;
      && e.next.phase == Idle && e.next.last == (if good then Answer(h, Expand(ts)) else [])
      && e.events == if good then [Reply(PLUS), Handled(Expand(ts))] + SentEvents(Answer(h, Expand(ts))) else [Reply(MINUS)]
  {
    Start(s, h);
    TokensRead(s, h, ts);
    Finish(Reading(s, ts), h, h1, h2);
    FeedPacket(s, h, WireAll(ts), h1, h2);
  }

  // A packet that does not fit the buffer is dropped without a word.
  lemma Dropped(s: Reader, h: Handler, ts: seq<Token>, h1: Byte, h2: Byte)
    requires s.phase == Idle && TokensOk(ts) && !Fits(ts) && DOLLAR !in WireAll(ts) && h1 != DOLLAR && h2 != DOLLAR
    ensures var e := Feed(s, h, Packet(WireAll(ts), h1, h2)); e.next.phase == Idle && e.next.last == [] && e.events == []
  {
    Start(s, h);
    TokensOverrun(s, h, ts);
    var r := Feed(Reading(s, []), h, WireAll(ts)).next;
    Garbage(r, h, [HASH] + [h1, h2]);
    FeedPacket(s, h, WireAll(ts), h1, h2);
  }

  lemma FrameIsPacket(payload: seq<Byte>)
    ensures exists h1, h2 :: && IsHex(h1) && IsHex(h2) && Frame(payload) == Packet(payload, h1, h2)
                             && FromHex(h1) * 16 + FromHex(h2) == Sum(payload) % 256
  {
    var n := Sum(payload);
    var h1, h2 := ToHex((n / 16) % 16), ToHex(n % 16);
    assert Frame(payload) == Packet(payload, h1, h2);
    assert n == 16 * (n / 16) + n % 16;
    assert n / 16 == 16 * (n / 16 / 16) + (n / 16) % 16;
  }

  // What memtox and put_packet_binary write is read back as the same data, if and
  // only if it fits.
  lemma RoundTrip(s: Reader, h: Handler, data: seq<Byte>)
    requires s.phase == Idle
    ensures var e := Feed(s, h, Frame(WireAll(TokensFor(data))));
      && e.next.phase == Idle
      && e.events == if |data| < MAX_PACKET_LENGTH then [Reply(PLUS), Handled(data)] + SentEvents(Answer(h, data)) else []
  {
    var ts := TokensFor(data);
    TokensForExpand(data);
    TokensForWire(data);
    FrameIsPacket(WireAll(ts));
    var h1, h2 :| && IsHex(h1) && IsHex(h2) && Frame(WireAll(ts)) == Packet(WireAll(ts), h1, h2)
                  && FromHex(h1) * 16 + FromHex(h2) == Sum(WireAll(ts)) % 256;
    if Fits(ts) {
      Delivered(s, h, ts, h1, h2);
    } else {
      Dropped(s, h, ts, h1, h2);
    }
  }

  // ------------------------------------------------------------------ conversations

  // The client sends a command, asks `naks` times for the answer to be sent again,
  // and acknowledges it.
  datatype Turn = Turn(tokens: seq<Token>, naks: nat)

  ghost function Minuses(n: nat): seq<Byte> {
    seq(n, i => MINUS)
  }

  ghost predicate TurnOk(t: Turn) {
    TokensOk(t.tokens) && Fits(t.tokens)
  }

  ghost function Said(t: Turn): seq<Byte>
    requires TurnOk(t)
  {
    Frame(WireAll(t.tokens)) + Minuses(t.naks) + [PLUS]
  }

  // What is to come of it: one acknowledgement, the command handled once, the answer
  // sent once and once more for every request.
  ghost function Outcome(h: Handler, t: Turn): seq<Event>
    requires TurnOk(t)
  {
    var answer := Answer(h, Expand(t.tokens));
    [Reply(PLUS), Handled(Expand(t.tokens))] + SentEvents(answer)
    + if answer == [] then [] else seq(t.naks, i => Sent(answer))
  }

  ghost function SaidAll(turns: seq<Turn>): seq<Byte>
    requires forall i :: 0 <= i < |turns| ==> TurnOk(turns[i])
  {
    if turns == [] then [] else var k := |turns| - 1; SaidAll(turns[..k]) + Said(turns[k])
  }

  ghost function OutcomeAll(h: Handler, turns: seq<Turn>): seq<Event>
    requires forall i :: 0 <= i < |turns| ==> TurnOk(turns[i])
  {
    if turns == [] then [] else var k := |turns| - 1; OutcomeAll(h, turns[..k]) + Outcome(h, turns[k])
  }

  lemma {:induction false} Resent(s: Reader, h: Handler, n: nat)
    requires s.phase == Idle
    ensures Feed(s, h, Minuses(n)) == Effect(s, if s.last == [] then [] else seq(n, i => Sent(s.last)))
  {
    if n == 0 {
      assert Minuses(n) == [] && seq(n, i => Sent(s.last)) == [];
    } else {
      Resent(s, h, n - 1);
      assert s.last == [] ==> s.(last := []) == s;
      assert Minuses(n)[..n - 1] == Minuses(n - 1);
      assert seq(n, i => Sent(s.last)) == seq(n - 1, i => Sent(s.last)) + [Sent(s.last)];
    }
  }

  lemma TurnTaken(s: Reader, h: Handler, t: Turn)
    requires s.phase == Idle && TurnOk(t)
    ensures var e := Feed(s, h, Said(t)); e.next.phase == Idle && e.next.last == [] && e.events == Outcome(h, t)
  {
    var wire := WireAll(t.tokens);
    FrameIsPacket(wire);
    var h1, h2 :| && IsHex(h1) && IsHex(h2) && Frame(wire) == Packet(wire, h1, h2)
                  && FromHex(h1) * 16 + FromHex(h2) == Sum(wire) % 256;
    Delivered(s, h, t.tokens, h1, h2);
    var r1 := Feed(s, h, Frame(wire)).next;
    Resent(r1, h, t.naks);
    FeedAppend(s, h, Frame(wire), Minuses(t.naks));
    FeedOne(r1, h, PLUS);
    FeedAppend(s, h, Frame(wire) + Minuses(t.naks), [PLUS]);
    assert Outcome(h, t) + [] == Outcome(h, t);
  }

  // One more turn of a conversation.
  lemma TurnAdded(s: Reader, h: Handler, before: seq<Byte>, t: Turn)
    requires TurnOk(t) && var e := Feed(s, h, before); e.next.phase == Idle
    ensures var e := Feed(s, h, before + Said(t));
      e.next.phase == Idle && e.next.last == [] && e.events == Feed(s, h, before).events + Outcome(h, t)
  {
    TurnTaken(Feed(s, h, before).next, h, t);
    FeedAppend(s, h, before, Said(t));
  }

  // Over a whole conversation, every command is handled once, in order.
  lemma {:induction false} Conversation(s: Reader, h: Handler, turns: seq<Turn>)
    requires s.phase == Idle && s.last == [] && forall i :: 0 <= i < |turns| ==> TurnOk(turns[i])
    ensures var e := Feed(s, h, SaidAll(turns)); e.next.phase == Idle && e.next.last == [] && e.events == OutcomeAll(h, turns)
  {
    if turns != [] {
      var k := |turns| - 1;
      Conversation(s, h, turns[..k]);
      TurnAdded(s, h, SaidAll(turns[..k]), turns[k]);
    }
  }
}
