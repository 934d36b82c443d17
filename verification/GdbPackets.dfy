// Packets of the GDB remote serial protocol as gdbstub.c writes them: hex digits,
// checksum, escapes and run lengths.
module GdbPackets {
  type Byte = x: int | 0 <= x < 256

  const HASH: Byte := 35
  const DOLLAR: Byte := 36
  const STAR: Byte := 42
  const PLUS: Byte := 43
  const MINUS: Byte := 45
  const BRACE: Byte := 125

  const MAX_PACKET_LENGTH: nat := 4096

  // ------------------------------------------------------------------- hex digits

  function FromHex(v: Byte): (r: nat)
    ensures r < 16
  {
    if 48 <= v <= 57 then v - 48
    else if 65 <= v <= 70 then v - 65 + 10
    else if 97 <= v <= 102 then v - 97 + 10
    else 0
  }

  const LOWER: string := "0123456789abcdef"
  const UPPER: string := "0123456789ABCDEF"

  // Digits of either case are read, and lower case is written.
  lemma HexDigits(v: Byte)
    ensures IsHex(v) <==> exists d :: 0 <= d < 16 && (v == LOWER[d] as int || v == UPPER[d] as int)
    ensures if IsHex(v) then v == LOWER[FromHex(v)] as int || v == UPPER[FromHex(v)] as int else FromHex(v) == 0
  {
    assert forall d :: 0 <= d < 16 ==>
      && LOWER[d] as int == (if d < 10 then d + 48 else d + 87)
      && UPPER[d] as int == (if d < 10 then d + 48 else d + 55);
    var d := FromHex(v);
    assert IsHex(v) ==> v == LOWER[d] as int || v == UPPER[d] as int;
  }

  lemma HexWritten(d: nat)
    requires d < 16
    ensures ToHex(d) == LOWER[d] as int
  {
    HexDigits(ToHex(d));
  }

  function ToHex(v: nat): (r: Byte)
    requires v < 16
    ensures IsHex(r) && FromHex(r) == v
  {
    if v < 10 then v + 48 else v - 10 + 97
  }

  predicate IsHex(v: Byte) {
    48 <= v <= 57 || 65 <= v <= 70 || 97 <= v <= 102
  }

  // Two digits for every byte.
  ghost function HexOf(mem: seq<Byte>): seq<Byte> {
    if mem == [] then []
    else var k := |mem| - 1; HexOf(mem[..k]) + [ToHex(mem[k] / 16), ToHex(mem[k] % 16)]
  }

  lemma {:induction false} HexLength(mem: seq<Byte>)
    ensures |HexOf(mem)| == 2 * |mem|
  {
    if mem != [] {
      HexLength(mem[..|mem| - 1]);
    }
  }

  lemma {:induction false} HexAt(mem: seq<Byte>, i: nat)
    requires i < |mem|
    ensures |HexOf(mem)| == 2 * |mem|
    ensures FromHex(HexOf(mem)[2 * i]) * 16 + FromHex(HexOf(mem)[2 * i + 1]) == mem[i]
  {
    var k := |mem| - 1;
    HexLength(mem);
    HexLength(mem[..k]);
    if i < k {
      HexAt(mem[..k], i);
    }
  }

  method MemToHex(mem: seq<Byte>) returns (buf: seq<Byte>)
    ensures buf == HexOf(mem)
  {
    buf := [];
    for i := 0 to |mem|
      invariant buf == HexOf(mem[..i])
    {
      buf := buf + [ToHex(mem[i] / 16)];
      buf := buf + [ToHex(mem[i] % 16)];
      assert mem[..i + 1][..i] == mem[..i];
    }
    assert mem[..|mem|] == mem;
  }

  // Reading back what MemToHex wrote gives the bytes again; any other text is read
  // two characters at a time.
  method HexToMem(buf: seq<Byte>, len: nat) returns (mem: seq<Byte>)
    requires 2 * len <= |buf|
    ensures |mem| == len
    ensures forall i :: 0 <= i < len ==> mem[i] == FromHex(buf[2 * i]) * 16 + FromHex(buf[2 * i + 1])
    ensures forall m: seq<Byte> :: buf == HexOf(m) && len == |m| ==> mem == m
  {
    mem := [];
    for i := 0 to len
      invariant |mem| == i
      invariant forall j :: 0 <= j < i ==> mem[j] == FromHex(buf[2 * j]) * 16 + FromHex(buf[2 * j + 1])
    {
      mem := mem + [FromHex(buf[2 * i]) * 16 + FromHex(buf[2 * i + 1])];
    }
    forall m: seq<Byte> | buf == HexOf(m) && len == |m|
      ensures mem == m
    {
      forall i | 0 <= i < len
        ensures mem[i] == m[i]
      {
        HexAt(m, i);
      }
    }
  }

  // --------------------------------------------------------------------- checksum

  ghost function Sum(s: seq<Byte>): nat {
    if s == [] then 0 else Sum(s[..|s| - 1]) + s[|s| - 1]
  }

  lemma {:induction false} SumAppend(a: seq<Byte>, b: seq<Byte>)
    ensures Sum(a + b) == Sum(a) + Sum(b)
  {
    if b == [] {
      assert a + b == a;
    } else {
      var k := |b| - 1;
      assert (a + b)[..|a + b| - 1] == a + b[..k];
      SumAppend(a, b[..k]);
    }
  }

  // A char that is signed, as put_packet_binary adds it up.
  function Signed(b: Byte): int {
    if b < 128 then b else b - 256
  }

  ghost predicate SameByte(x: int, y: int) {
    exists k: int :: x - y == 256 * k
  }

  lemma SameByteDigits(x: int, y: int)
    requires SameByte(x, y)
    ensures x % 16 == y % 16 && (x / 16) % 16 == (y / 16) % 16
  {
    var k :| x - y == 256 * k;
    assert x == y + 16 * (16 * k);
    assert x / 16 == y / 16 + 16 * k;
  }

  ghost function Frame(payload: seq<Byte>): seq<Byte> {
    [DOLLAR] + payload + [HASH, ToHex((Sum(payload) / 16) % 16), ToHex(Sum(payload) % 16)]
  }

  // "OK" is sent as $OK#9a.
  lemma FrameOfOk()
    ensures Frame([79, 75]) == [36, 79, 75, 35, 57, 97]
  {
    assert [79, 75][..1] == [79] && [79][..0] == [];
    assert Sum([79, 75]) == 154;
  }

  // ------------------------------------------------------------ escapes and run lengths

  // c ^ 0x20
  function Flip(c: Byte): (r: Byte)
    ensures r != c && (c < 128 <==> r < 128)
  {
    if (c / 32) % 2 == 1 then c - 32 else c + 32
  }

  // Bit 5 changes; the bits below it and the two above it do not.
  lemma FlipBits(c: Byte)
    ensures (c / 32) % 2 != (Flip(c) / 32) % 2 && Flip(c) % 32 == c % 32 && Flip(c) / 64 == c / 64
  {
    var q := c / 32;
    if q % 2 == 1 {
      assert Flip(c) / 32 == q - 1;
    } else {
      assert Flip(c) / 32 == q + 1;
    }
  }

  lemma FlipFlip(c: Byte)
    ensures Flip(Flip(c)) == c
  {
    var d := Flip(c);
    if (c / 32) % 2 == 1 {
      assert d / 32 == c / 32 - 1;
    } else {
      assert d / 32 == c / 32 + 1;
    }
  }

  predicate Special(c: Byte) {
    c == HASH || c == DOLLAR || c == STAR || c == BRACE
  }

  // What a payload is made of: characters, escaped characters, and repetitions of the
  // last character.
  datatype Token = Plain(c: Byte) | Escaped(c: Byte) | Run(n: nat)

  predicate TokenOk(t: Token) {
    match t
    case Plain(c) => c != HASH && c != STAR && c != BRACE
    case Escaped(c) => Flip(c) != HASH
    case Run(n) => 3 <= n <= 97 && n + 29 != HASH && n + 29 != DOLLAR
  }

  function Wire(t: Token): seq<Byte>
    requires TokenOk(t)
  {
    match t
    case Plain(c) => [c]
    case Escaped(c) => [BRACE, Flip(c)]
    case Run(n) => [STAR, n + 29]
  }

  ghost predicate TokensOk(ts: seq<Token>) {
    && (forall i :: 0 <= i < |ts| ==> TokenOk(ts[i]))
    && (ts != [] ==> !ts[0].Run?)
  }

  ghost function WireAll(ts: seq<Token>): seq<Byte>
    requires TokensOk(ts)
  {
    if ts == [] then [] else var k := |ts| - 1; WireAll(ts[..k]) + Wire(ts[k])
  }

  // The last character n more times.
  ghost function Repeated(s: seq<Byte>, n: nat): seq<Byte>
    requires s != []
  {
    s + seq(n, i => s[|s| - 1])
  }

  // What the tokens stand for.
  ghost function Expand(ts: seq<Token>): (r: seq<Byte>)
    requires TokensOk(ts)
    ensures ts != [] ==> r != []
  {
    if ts == [] then []
    else
      var k := |ts| - 1;
      var r := Expand(ts[..k]);
      match ts[k]
      case Plain(c) => r + [c]
      case Escaped(c) => r + [c]
      case Run(n) => Repeated(r, n)
  }

  // A character needs room for one; a repetition has to leave one byte more.
  ghost predicate TokenFits(len: nat, t: Token) {
    if t.Run? then len + t.n < MAX_PACKET_LENGTH - 1 else len < MAX_PACKET_LENGTH - 1
  }

  ghost predicate Fits(ts: seq<Token>)
    requires TokensOk(ts)
  {
    ts != [] ==> var k := |ts| - 1; Fits(ts[..k]) && TokenFits(|Expand(ts[..k])|, ts[k])
  }

  // ------------------------------------------------------------------ the writer

  function TokenFor(c: Byte): (t: Token)
    ensures TokenOk(t)
  {
    if Special(c) then Escaped(c) else Plain(c)
  }

  ghost function TokensFor(data: seq<Byte>): (ts: seq<Token>)
    ensures TokensOk(ts) && |ts| == |data|
  {
    seq(|data|, i requires 0 <= i < |data| => TokenFor(data[i]))
  }

  lemma {:induction false} TokensForExpand(data: seq<Byte>)
    ensures Expand(TokensFor(data)) == data
    ensures Fits(TokensFor(data)) <==> |data| < MAX_PACKET_LENGTH
  {
    if data != [] {
      var k := |data| - 1;
      assert TokensFor(data)[..k] == TokensFor(data[..k]);
      TokensForExpand(data[..k]);
    }
  }

  // Nothing in the escaped data can be taken for the start or end of a packet.
  lemma {:induction false} TokensForWire(data: seq<Byte>)
    ensures DOLLAR !in WireAll(TokensFor(data)) && HASH !in WireAll(TokensFor(data))
    ensures |data| <= |WireAll(TokensFor(data))| <= 2 * |data|
  {
    if data != [] {
      var k := |data| - 1;
      assert TokensFor(data)[..k] == TokensFor(data[..k]);
      TokensForWire(data[..k]);
      assert Special(data[k]) ==> Flip(data[k]) != DOLLAR && Flip(data[k]) != HASH;
    }
  }

  // Only these four characters are written in a different way.
  lemma {:induction false} WrittenAsIs(data: seq<Byte>)
    requires forall i :: 0 <= i < |data| ==> data[i] != 35 && data[i] != 36 && data[i] != 42 && data[i] != 125
    ensures WireAll(TokensFor(data)) == data
  {
    if data != [] {
      var k := |data| - 1;
      assert TokensFor(data)[..k] == TokensFor(data[..k]);
      WrittenAsIs(data[..k]);
    }
  }

  lemma WrittenEscaped(c: Byte)
    requires c == 35 || c == 36 || c == 42 || c == 125
    ensures WireAll(TokensFor([c])) == [125, if c == 125 then 93 else c - 32]
  {
    assert TokensFor([c])[..0] == [];
  }

  // memtox
  method MemToX(mem: seq<Byte>) returns (buf: seq<Byte>)
    ensures buf == WireAll(TokensFor(mem))
  {
    buf := [];
    for i := 0 to |mem|
      invariant buf == WireAll(TokensFor(mem[..i]))
    {
      var c := mem[i];
      if Special(c) {
        buf := buf + [BRACE];
        buf := buf + [Flip(c)];
      } else {
        buf := buf + [c];
      }
      assert TokensFor(mem[..i + 1])[..i] == TokensFor(mem[..i]);
    }
    assert mem[..|mem|] == mem;
  }
}
