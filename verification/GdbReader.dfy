// The receiving side of gdbstub.c: bytes come in one at a time, packets are collected
// in a fixed buffer, checked, acknowledged and handed on.
module GdbReader {
  import opened Options
  import opened GdbPackets

  datatype Phase = Idle | GetLine | Escape | Repeat | Checksum1 | Checksum2

  // last is the packet that was sent and not yet acknowledged
  datatype Reader = Reader(phase: Phase, line: seq<Byte>, sum: nat, csum: nat, last: seq<Byte>)

  datatype Event = Reply(b: Byte) | Handled(data: seq<Byte>) | Sent(packet: seq<Byte>) | Stopped

  // What a byte leads to.
  datatype Effect = Effect(next: Reader, events: seq<Event>)

  // What a command handler answers: nothing, or one packet with this payload.
  type Handler = seq<Byte> -> Option<seq<Byte>>

  ghost function Answer(handler: Handler, data: seq<Byte>): seq<Byte> {
    if handler(data).Some? then Frame(handler(data).value) else []
  }

  ghost function SentEvents(packet: seq<Byte>): seq<Event> {
    if packet == [] then [] else [Sent(packet)]
  }

  // gdb_read_byte with no packet to be acknowledged and the machine stopped
  ghost function Accept(s: Reader, handler: Handler, ch: Byte): Effect {
    match s.phase
    case Idle => Effect(if ch == DOLLAR then s.(phase := GetLine, line := [], sum := 0) else s, [])
    case GetLine =>
      Effect(if ch == BRACE then s.(phase := Escape, sum := s.sum + ch)
             else if ch == STAR then s.(phase := Repeat, sum := s.sum + ch)
             else if ch == HASH then s.(phase := Checksum1)
             else if |s.line| >= MAX_PACKET_LENGTH - 1 then s.(phase := Idle)
             else s.(line := s.line + [ch], sum := s.sum + ch), [])
    case Escape =>
      Effect(if ch == HASH then s.(phase := Checksum1)
             else if |s.line| >= MAX_PACKET_LENGTH - 1 then s.(phase := Idle)
             else s.(phase := GetLine, line := s.line + [Flip(ch)], sum := s.sum + ch), [])
    case Repeat => Effect(AcceptRun(s, ch), [])
    case Checksum1 =>
      Effect(if !IsHex(ch) then s.(phase := GetLine) else s.(phase := Checksum2, csum := FromHex(ch) * 16), [])
    case Checksum2 =>
      if !IsHex(ch) then Effect(s.(phase := GetLine), [])
      else if s.csum + FromHex(ch) != s.sum % 256 then
        Effect(s.(phase := Idle, csum := s.csum + FromHex(ch)), [Reply(MINUS)])
      else
        var answer := Answer(handler, s.line);
        Effect(s.(phase := Idle, csum := s.csum + FromHex(ch), last := answer),
               [Reply(PLUS), Handled(s.line)] + SentEvents(answer))
  }

  ghost function AcceptRun(s: Reader, ch: Byte): Reader {
    if ch < 32 || ch == HASH || ch == DOLLAR || ch > 126 then s.(phase := GetLine)
    else if |s.line| + (ch - 32 + 3) >= MAX_PACKET_LENGTH - 1 then s.(phase := Idle)
    else if |s.line| < 1 then s.(phase := GetLine)
    else s.(phase := GetLine, line := Repeated(s.line, ch - 32 + 3), sum := s.sum + ch)
  }

  // gdb_read_byte
  ghost function Step(s: Reader, running: bool, handler: Handler, ch: Byte): Effect {
    if s.last != [] && ch != DOLLAR then
      Effect(if ch == PLUS then s.(last := []) else s, if ch == MINUS then [Sent(s.last)] else [])
    else if running then Effect(s.(last := []), [Stopped])
    else Accept(s.(last := []), handler, ch)
  }

  // The buffer holds the line and its terminator.
  ghost predicate Bounded(s: Reader) {
    && |s.line| < MAX_PACKET_LENGTH
    && (s.phase == Checksum2 ==> s.csum % 16 == 0 && s.csum < 256)
  }

  // ------------------------------------------------------------------- the stub

  class GdbState {
    var phase: Phase
    const lineBuf: array<Byte>
    var index: nat
    var sum: nat
    var csum: nat
    const lastPacket: array<Byte>
    var lastLen: nat

    ghost predicate Valid()
      reads this, lineBuf, lastPacket
    {
      && lineBuf != lastPacket
      && lineBuf.Length == MAX_PACKET_LENGTH && lastPacket.Length == MAX_PACKET_LENGTH + 4
      && index < MAX_PACKET_LENGTH && lastLen <= lastPacket.Length
      && (phase == Checksum2 ==> csum % 16 == 0 && csum < 256)
    }

    ghost function Contents(): Reader
      requires Valid()
      reads this, lineBuf, lastPacket
    {
      Reader(phase, lineBuf[..index], sum, csum, lastPacket[..lastLen])
    }

    constructor ()
      ensures Valid() && Contents() == Reader(Idle, [], 0, 0, [])
      ensures fresh(lineBuf) && fresh(lastPacket)
    {
      phase, index, sum, csum, lastLen := Idle, 0, 0, 0, 0;
      lineBuf := new Byte[MAX_PACKET_LENGTH];
      lastPacket := new Byte[MAX_PACKET_LENGTH + 4];
    }

    // put_packet_binary: the packet is built in the buffer that is kept for retransmission
    method PutPacket(buf: seq<Byte>) returns (event: Event)
      requires Valid() && |buf| <= MAX_PACKET_LENGTH
      modifies this`lastLen, lastPacket
      ensures Valid() && event == Sent(Frame(buf))
      ensures Contents() == old(Contents()).(last := Frame(buf))
    {
      var len := |buf|;
      lastPacket[0] := DOLLAR;
      for i := 0 to len
        modifies lastPacket
        invariant lastPacket[0] == DOLLAR
        invariant forall j :: 0 <= j < i ==> lastPacket[j + 1] == buf[j]
        invariant lineBuf[..] == old(lineBuf[..])
      {
        lastPacket[i + 1] := buf[i];
      }
      var csum := AddUp(buf);
      SameByteDigits(csum, Sum(buf));
      lastPacket[len + 1] := HASH;
      lastPacket[len + 2] := ToHex((csum / 16) % 16);
      lastPacket[len + 3] := ToHex(csum % 16);
      lastLen := len + 4;
      assert lastPacket[..lastLen] == Frame(buf);
      assert lineBuf[..index] == old(lineBuf[..index]);
      event := Sent(lastPacket[..lastLen]);
    }

    method ReadByte(running: bool, handler: Handler, ch: Byte) returns (events: seq<Event>)
      requires Valid() && forall d :: handler(d).Some? ==> |handler(d).value| <= MAX_PACKET_LENGTH
      modifies this, lineBuf, lastPacket
      ensures Valid() && Effect(Contents(), events) == Step(old(Contents()), running, handler, ch)
    {
      events := [];
      assert lastPacket[..0] == [];
      if lastLen != 0 {
        assert Contents().last != [];
        if ch == MINUS {
          events := [Sent(lastPacket[..lastLen])];
        }
        if ch == PLUS || ch == DOLLAR {
          lastLen := 0;
        }
        if ch != DOLLAR {
          assert Contents() == if ch == PLUS then old(Contents()).(last := []) else old(Contents());
          return;
        }
      }
      assert events == [] && lastPacket[..lastLen] == [];
      ghost var before := old(Contents()).(last := []);
      assert Contents() == before;
      if running {
        events := events + [Stopped];
        assert events == [Stopped];
      } else {
        assert Step(old(Contents()), running, handler, ch) == Accept(before, handler, ch);
        events := AcceptByte(handler, ch);
      }
    }

    method AcceptByte(handler: Handler, ch: Byte) returns (events: seq<Event>)
      requires Valid() && lastLen == 0 && forall d :: handler(d).Some? ==> |handler(d).value| <= MAX_PACKET_LENGTH
      modifies this, lineBuf, lastPacket
      ensures Valid() && Effect(Contents(), events) == Accept(old(Contents()), handler, ch)
    {
      events := [];
      match phase
      case Idle =>
        if ch == DOLLAR {
          index, sum, phase := 0, 0, GetLine;
        }
      case GetLine =>
        if ch == BRACE {
          phase, sum := Escape, sum + ch;
        } else if ch == STAR {
          phase, sum := Repeat, sum + ch;
        } else if ch == HASH {
          phase := Checksum1;
        } else if index >= lineBuf.Length - 1 {
          phase := Idle;
        } else {
          Store(ch);
          sum := sum + ch;
        }
      case Escape =>
        if ch == HASH {
          phase := Checksum1;
        } else if index >= lineBuf.Length - 1 {
          phase := Idle;
        } else {
          Store(Flip(ch));
          phase, sum := GetLine, sum + ch;
        }
      case Repeat =>
        StoreRun(ch);
      case Checksum1 =>
        if !IsHex(ch) {
          phase := GetLine;
        } else {
          lineBuf[index] := 0;
          csum := FromHex(ch) * 16;
          phase := Checksum2;
          assert lineBuf[..index] == old(lineBuf[..index]);
        }
      case Checksum2 =>
        events := Finish(handler, ch);
    }

    method Store(c: Byte)
      requires Valid() && index < MAX_PACKET_LENGTH - 1
      modifies this`index, lineBuf
      ensures Valid() && Contents() == old(Contents()).(line := old(Contents()).line + [c])
    {
      lineBuf[index] := c;
      index := index + 1;
    }

    method StoreRun(ch: Byte)
      requires Valid() && phase == Repeat && lastLen == 0
      modifies this, lineBuf
      ensures Valid() && Contents() == AcceptRun(old(Contents()), ch)
    {
      if ch < 32 || ch == HASH || ch == DOLLAR || ch > 126 {
        phase := GetLine;
        return;
      }
      var repeat := ch - 32 + 3;
      if index + repeat >= lineBuf.Length - 1 {
        phase := Idle;
      } else if index < 1 {
        phase := GetLine;
      } else {
        var c := lineBuf[index - 1];
        for i := 0 to repeat
          modifies lineBuf
          invariant lineBuf[..index] == old(lineBuf[..index])
          invariant forall j :: index <= j < index + i ==> lineBuf[j] == c
        {
          lineBuf[index + i] := c;
        }
        assert lineBuf[..index + repeat] == Repeated(lineBuf[..index], repeat);
        index := index + repeat;
        phase, sum := GetLine, sum + ch;
      }
    }

    method Finish(handler: Handler, ch: Byte) returns (events: seq<Event>)
      requires Valid() && phase == Checksum2 && lastLen == 0
      requires forall d :: handler(d).Some? ==> |handler(d).value| <= MAX_PACKET_LENGTH
      modifies this, lastPacket
      ensures Valid() && Effect(Contents(), events) == Accept(old(Contents()), handler, ch)
    {
      events := [];
      if !IsHex(ch) {
        phase := GetLine;
        return;
      }
      assert lastPacket[..0] == [];
      csum := csum + FromHex(ch);
      phase := Idle;
      if csum != sum % 256 {
        events := [Reply(MINUS)];
      } else {
        var data := lineBuf[..index];
        events := [Reply(PLUS), Handled(data)];
        var answer := handler(data);
        if answer.Some? {
          var sent := PutPacket(answer.value);
          events := events + [sent];
        } else {
          assert events == events + SentEvents([]);
        }
      }
    }
  }

  // The checksum of put_packet_binary: signed characters, so it may be negative.
  method AddUp(buf: seq<Byte>) returns (csum: int)
    ensures SameByte(csum, Sum(buf))
  {
    csum := 0;
    assert csum - Sum(buf[..0]) == 256 * 0;
    for i := 0 to |buf|
      invariant SameByte(csum, Sum(buf[..i]))
    {
      SignedSum(csum, buf[..i], buf[i]);
      csum := csum + Signed(buf[i]);
      assert buf[..i + 1] == buf[..i] + [buf[i]];
    }
    assert buf[..|buf|] == buf;
  }

  lemma SignedSum(csum: int, s: seq<Byte>, b: Byte)
    requires SameByte(csum, Sum(s))
    ensures SameByte(csum + Signed(b), Sum(s + [b]))
  {
    var k :| csum - Sum(s) == 256 * k;
    assert (s + [b])[..|s|] == s;
    if b < 128 {
      assert csum + Signed(b) - Sum(s + [b]) == 256 * k;
    } else {
      assert csum + Signed(b) - Sum(s + [b]) == 256 * (k - 1);
    }
  }
}
