/**
Framing of Ledger commands in 64-byte USB HID packets, as in pkg/vault/ledger/ledger/usbhid.go.
*/
module Hid {
  import opened ByteStrings
  import opened Options

  const PACKET_SIZE: nat := 64
  const CHUNK_SIZE: nat := 59
  const CMD_APDU: byte := 5

  type uint16 = x: int | 0 <= x < 0x1_0000

  // ----- packets -----

  /** The part of a packet after its five header bytes. */
  type Payload = b: Bytes | |b| == 59 witness seq(59, _ => 0)

  datatype Packet = Packet(channel: uint16, cmd: byte, num: uint16, data: Payload)

  function Padded(b: Bytes): (r: Payload)
    requires |b| <= CHUNK_SIZE
    ensures r[..|b|] == b
  {
    b + seq(CHUNK_SIZE - |b|, _ => 0)
  }

  function Hi(x: uint16): byte {
    x / 256
  }

  function Lo(x: uint16): byte {
    x % 256
  }

  function Word(hi: byte, lo: byte): (r: uint16) {
    (hi as int) * 256 + (lo as int)
  }

  lemma WordOfBytes(x: uint16)
    ensures Word(Hi(x), Lo(x)) == x
  {
  }

  /** The 64 bytes on the wire. */
  function Encode(p: Packet): (r: Bytes)
    ensures |r| == PACKET_SIZE
  {
    [Hi(p.channel), Lo(p.channel), p.cmd, Hi(p.num), Lo(p.num)] + p.data
  }

  /** The 64-byte read buffer after a read of `b`. */
  function Filled(b: Bytes): (r: Bytes)
    ensures |r| == PACKET_SIZE
  {
    if |b| >= PACKET_SIZE then b[..PACKET_SIZE] else b + seq(PACKET_SIZE - |b|, _ => 0)
  }

  /** What `readPacket` makes of the bytes read: the data is always the whole rest of its buffer. */
  function Decode(b: Bytes): (p: Option<Packet>) {
    if |b| < 5 then None else Some(Packet(Word(b[0], b[1]), b[2], Word(b[3], b[4]), Filled(b)[5..]))
  }

  lemma DecodeEncode(p: Packet)
    ensures Decode(Encode(p)) == Some(p)
  {
    WordOfBytes(p.channel);
    WordOfBytes(p.num);
    assert Filled(Encode(p))[5..] == p.data;
  }

  /** A read of 5 to 64 bytes is a packet: header fields, then what was read, with zeros for what was not; a shorter one is an error. */
  lemma DecodeLayout(b: Bytes)
    requires |b| <= 64
    ensures Decode(b).Some? <==> |b| >= 5
    ensures Decode(b).Some? ==>
              var p := Decode(b).value;
              && p.channel == 256 * b[0] as int + b[1] as int && p.cmd == b[2] && p.num == 256 * b[3] as int + b[4] as int
              && forall j :: 0 <= j < 59 ==> p.data[j] == if j < |b| - 5 then b[5..][j] else 0
  {
  }

  // ----- commands as packets -----

  function Chunk(buf: Bytes): (n: nat)
    ensures n <= |buf| && n <= CHUNK_SIZE && (buf != [] ==> n > 0)
  {
    if |buf| < CHUNK_SIZE then |buf| else CHUNK_SIZE
  }

  /** The packets that carry `buf`, numbered from i on (16 bits). */
  function Frame(channel: uint16, buf: Bytes, i: nat): (ps: seq<Packet>)
    decreases |buf|
  {
    if buf == [] then []
    else [Packet(channel, CMD_APDU, i % 0x1_0000, Padded(buf[..Chunk(buf)]))] + Frame(channel, buf[Chunk(buf)..], i + 1)
  }

  /** The length in 16 bits, then the data. */
  function Prefixed(data: Bytes): (r: Bytes) {
    [Hi(|data| % 0x1_0000), Lo(|data| % 0x1_0000)] + data
  }

  function CommandPackets(channel: uint16, cmd: byte, data: Bytes): (ps: seq<Packet>) {
    if cmd != CMD_APDU then [Packet(channel, cmd, 0, Padded([]))] else Frame(channel, Prefixed(data), 0)
  }

  function PacketCount(n: nat): nat {
    (n + CHUNK_SIZE - 1) / CHUNK_SIZE
  }

  lemma {:induction false} FrameLength(channel: uint16, buf: Bytes, i: nat)
    ensures |Frame(channel, buf, i)| == PacketCount(|buf|)
    decreases |buf|
  {
    if buf != [] {
      FrameLength(channel, buf[Chunk(buf)..], i + 1);
    }
  }

  lemma {:induction false} FramePacket(channel: uint16, buf: Bytes, i: nat, k: nat)
    requires k < |Frame(channel, buf, i)|
    ensures CHUNK_SIZE * k < |buf|
    ensures Frame(channel, buf, i)[k] ==
            Packet(channel, CMD_APDU, (i + k) % 0x1_0000, Padded(buf[CHUNK_SIZE * k..][..Chunk(buf[CHUNK_SIZE * k..])]))
    decreases k
  {
    if k == 0 {
      assert buf[0..] == buf;
    } else {
      var rest := buf[Chunk(buf)..];
      assert Frame(channel, buf, i)[k] == Frame(channel, rest, i + 1)[k - 1];
      FramePacket(channel, rest, i + 1, k - 1);
      assert rest[CHUNK_SIZE * (k - 1)..] == buf[CHUNK_SIZE * k..];
    }
  }

  /** The wire in full, byte by byte: packet k of a command carries its number and bytes 59k to 59k + 58 of length and data, then zeros. */
  lemma WirePacket(channel: uint16, data: Bytes, k: nat)
    requires k < |CommandPackets(channel, 5, data)|
    ensures var b, buf := Encode(CommandPackets(channel, 5, data)[k]), [|data| / 256 % 256, |data| % 256] + data;
            && |b| == 64 && b[..5] == [channel / 256, channel % 256, 5, k / 256 % 256, k % 256]
            && forall j :: 0 <= j < 59 ==> b[5..][j] == if 59 * k + j < |buf| then buf[59 * k + j] else 0
    ensures |CommandPackets(channel, 5, data)| == (|data| + 60) / 59
  {
    var buf := Prefixed(data);
    FramePacket(channel, buf, 0, k);
    FrameLength(channel, buf, 0);
    PrefixedBytes(data);
    var chunk := buf[CHUNK_SIZE * k..][..Chunk(buf[CHUNK_SIZE * k..])];
    NumberBytes(k);
    var p := CommandPackets(channel, 5, data)[k];
    PaddedAt(chunk);
    assert Encode(p)[5..] == p.data;
  }

  lemma PrefixedBytes(data: Bytes)
    ensures Prefixed(data) == [|data| / 256 % 256, |data| % 256] + data
  {
    NumberBytes(|data|);
  }

  lemma NumberBytes(n: nat)
    ensures Hi(n % 0x1_0000) == n / 256 % 256 && Lo(n % 0x1_0000) == n % 256
  {
    var q, m := n / 0x1_0000, n % 0x1_0000;
    var a, b := m / 256, m % 256;
    assert n == 256 * (256 * q + a) + b;
    Quotient256(256 * q + a, b);
    Quotient256(q, a);
  }

  lemma Quotient256(q: nat, r: nat)
    requires r < 256
    ensures (256 * q + r) / 256 == q && (256 * q + r) % 256 == r
  {
  }

  lemma PaddedAt(b: Bytes)
    requires |b| <= CHUNK_SIZE
    ensures forall j :: 0 <= j < CHUNK_SIZE ==> Padded(b)[j] == if j < |b| then b[j] else 0
  {
  }

  // ----- reading a command -----

  /** `used` counts the packets taken from the stream. */
  datatype Read = Read(channel: uint16, cmd: byte, data: Bytes, used: nat) | ReadError

  /** Where `readCommand` stands: the number of the packet it expects and what it has gathered. */
  datatype Progress = Progress(idx: uint16, channel: uint16, cmd: byte, want: nat, data: Bytes)

  const Begin := Progress(0, 0, 0, 0, [])

  /** The first packet sets channel, command and wanted length. */
  function Opened(st: Progress, p: Packet): (r: Progress) {
    if st.idx > 0 then st
    else st.(channel := p.channel, cmd := p.cmd, want := if p.cmd == CMD_APDU then Word(p.data[0], p.data[1]) else st.want)
  }

  function Contents(st: Progress, p: Packet): (pl: Bytes) {
    if st.idx == 0 && p.cmd == CMD_APDU then p.data[2..] else p.data
  }

  function Min(a: nat, b: nat): nat {
    if a < b then a else b
  }

  /** Each packet but the last adds at least 57 bytes, so the 16-bit packet number never wraps around. */
  predicate Consistent(st: Progress) {
    (st.idx == 0 ==> st.data == []) && 57 * st.idx <= |st.data| <= st.want < 0x1_0000
  }

  /** One packet: the progress made, or an error. */
  function Accept(st: Progress, p: Packet): (r: Option<Progress>)
    requires Consistent(st)
    ensures r.Some? ==> |r.value.data| <= r.value.want
    ensures r.Some? && |r.value.data| < r.value.want ==> Consistent(r.value) && r.value.idx == st.idx + 1
  {
    var o := Opened(st, p);
    if p.num != st.idx || p.cmd != o.cmd || p.channel != o.channel then None
    else
      var pl := Contents(st, p);
      Some(o.(idx := (st.idx + 1) % 0x1_0000, data := st.data + pl[..Min(|pl|, o.want - |st.data|)]))
  }

  /** `readCommand` on a stream of packets; `None` stands for one that is too short. */
  function Collect(ps: seq<Option<Packet>>, st: Progress): (r: Read)
    requires Consistent(st)
    decreases |ps|
  {
    if ps == [] || ps[0].None? then ReadError
    else
      var next := Accept(st, ps[0].value);
      if next.None? then ReadError
      else if |next.value.data| == next.value.want then Read(next.value.channel, next.value.cmd, next.value.data, 1)
      else
        var r := Collect(ps[1..], next.value);
        if r.Read? then r.(used := r.used + 1) else r
  }

  function Arriving(ps: seq<Packet>): (r: seq<Option<Packet>>) {
    seq(|ps|, i requires 0 <= i < |ps| => Some(ps[i]))
  }

  // ----- round trip -----

  lemma PaddedPrefix(buf: Bytes, k: nat)
    requires k <= |buf| <= CHUNK_SIZE
    ensures Padded(buf)[..k] == buf[..k]
  {
  }

  lemma AcceptNext(st: Progress, buf: Bytes)
    requires Consistent(st) && st.idx > 0 && st.cmd == CMD_APDU && |buf| <= CHUNK_SIZE
    requires st.want - |st.data| <= |buf| || |buf| == CHUNK_SIZE
    ensures Accept(st, Packet(st.channel, CMD_APDU, st.idx, Padded(buf))) ==
            Some(st.(idx := (st.idx + 1) % 0x1_0000, data := st.data + buf[..Min(|buf|, st.want - |st.data|)]))
  {
    PaddedPrefix(buf, Min(|buf|, st.want - |st.data|));
  }

  lemma ArrivingTail(fs: seq<Packet>, ps: seq<Option<Packet>>)
    requires Arriving(fs) <= ps && fs != []
    ensures ps[0] == Some(fs[0]) && Arriving(fs[1..]) <= ps[1..]
  {
  }

  lemma CountMore(n: nat)
    ensures 0 < n <= CHUNK_SIZE ==> PacketCount(n) == 1
    ensures n > CHUNK_SIZE ==> PacketCount(n) == PacketCount(n - CHUNK_SIZE) + 1
  {
  }

  lemma CollectMore(st: Progress, ps: seq<Option<Packet>>, next: Progress)
    requires Consistent(st) && ps != [] && ps[0].Some? && Accept(st, ps[0].value) == Some(next)
    requires |next.data| < next.want && Collect(ps[1..], next).Read?
    ensures var r := Collect(ps[1..], next); Collect(ps, st) == r.(used := r.used + 1)
  {
  }

  lemma FrameHead(channel: uint16, buf: Bytes, i: uint16)
    requires buf != []
    ensures var fs := Frame(channel, buf, i);
            && fs != [] && fs[0] == Packet(channel, CMD_APDU, i, Padded(buf[..Chunk(buf)]))
            && fs[1..] == Frame(channel, buf[Chunk(buf)..], i + 1)
  {
  }

  lemma NextOfFrame(st: Progress, buf: Bytes, ps: seq<Option<Packet>>)
    requires Consistent(st) && st.idx > 0 && st.cmd == CMD_APDU && 0 < st.want - |st.data| <= |buf|
    requires Arriving(Frame(st.channel, buf, st.idx)) <= ps
    ensures ps != [] && ps[0].Some?
    ensures Accept(st, ps[0].value) ==
            Some(st.(idx := (st.idx + 1) % 0x1_0000, data := st.data + buf[..Min(Chunk(buf), st.want - |st.data|)]))
    ensures Arriving(Frame(st.channel, buf[Chunk(buf)..], st.idx + 1)) <= ps[1..]
  {
    FrameHead(st.channel, buf, st.idx);
    ArrivingTail(Frame(st.channel, buf, st.idx), ps);
    AcceptNext(st, buf[..Chunk(buf)]);
    TakeOfTake(buf, Chunk(buf), Min(Chunk(buf), st.want - |st.data|));
  }

  lemma LastOfFrame(st: Progress, buf: Bytes, ps: seq<Option<Packet>>)
    requires Consistent(st) && st.idx > 0 && st.cmd == CMD_APDU
    requires 0 < st.want - |st.data| <= Chunk(buf)
    requires Arriving(Frame(st.channel, buf, st.idx)) <= ps
    ensures Collect(ps, st) == Read(st.channel, CMD_APDU, st.data + buf[..st.want - |st.data|], 1)
  {
    NextOfFrame(st, buf, ps);
  }

  lemma MoreOfFrame(st: Progress, buf: Bytes, ps: seq<Option<Packet>>, next: Progress)
    requires Consistent(st) && st.idx > 0 && st.cmd == CMD_APDU
    requires Chunk(buf) < st.want - |st.data| <= |buf|
    requires Arriving(Frame(st.channel, buf, st.idx)) <= ps
    requires next == st.(idx := st.idx + 1, data := st.data + buf[..Chunk(buf)])
    ensures ps != [] && ps[0].Some? && Accept(st, ps[0].value) == Some(next) && Consistent(next)
    ensures Arriving(Frame(next.channel, buf[Chunk(buf)..], next.idx)) <= ps[1..]
  {
    NextOfFrame(st, buf, ps);
  }

  /** From the second packet on, what is still wanted is taken from the frame, and a frame that fits is consumed whole. */
  lemma {:induction false} CollectFrame(st: Progress, buf: Bytes, ps: seq<Option<Packet>>)
    requires Consistent(st) && st.idx > 0 && st.cmd == CMD_APDU
    requires 0 < st.want - |st.data| <= |buf|
    requires Arriving(Frame(st.channel, buf, st.idx)) <= ps
    ensures Collect(ps, st) == Read(st.channel, CMD_APDU, st.data + buf[..st.want - |st.data|], PacketCount(st.want - |st.data|))
    decreases |buf|
  {
    var n, need := Chunk(buf), st.want - |st.data|;
    CountMore(need);
    if need <= n {
      LastOfFrame(st, buf, ps);
    } else {
      var next := st.(idx := st.idx + 1, data := st.data + buf[..n]);
      MoreOfFrame(st, buf, ps, next);
      CollectFrame(next, buf[n..], ps[1..]);
      CollectMore(st, ps, next);
      TakeInTwo(buf, n, need);
      assert next.data + buf[n..][..need - n] == st.data + (buf[..n] + buf[n..][..need - n]);
    }
  }

  lemma AcceptOpening(p: Packet, want: uint16, d: Bytes)
    requires p.num == 0 && p.cmd == CMD_APDU && Word(p.data[0], p.data[1]) == want
    requires |d| == Min(CHUNK_SIZE - 2, want) && p.data[2..2 + |d|] == d
    ensures Accept(Begin, p) == Some(Progress(1, p.channel, CMD_APDU, want, d))
  {
    var o := Opened(Begin, p);
    assert o == Progress(0, p.channel, CMD_APDU, want, []);
    var pl := Contents(Begin, p);
    assert pl == p.data[2..];
    assert pl[..|d|] == d;
    assert [] + d == d;
  }

  lemma AcceptFirst(channel: uint16, data: Bytes)
    ensures var n, want := Chunk(Prefixed(data)), |data| % 0x1_0000;
            Accept(Begin, Packet(channel, CMD_APDU, 0, Padded(Prefixed(data)[..n]))) ==
            Some(Progress(1, channel, CMD_APDU, want, data[..Min(n - 2, want)]))
  {
    var n, want := Chunk(Prefixed(data)), |data| % 0x1_0000;
    var k := Min(CHUNK_SIZE - 2, want);
    var p := Packet(channel, CMD_APDU, 0, Padded(Prefixed(data)[..n]));
    FirstFits(data, n, k, want);
    FirstPayload(data, n, k);
    WordOfBytes(want);
    assert Word(p.data[0], p.data[1]) == want && p.data[2..2 + k] == data[..k];
    AcceptOpening(p, want, data[..k]);
  }

  lemma FirstFits(data: Bytes, n: nat, k: nat, want: nat)
    requires n == Chunk(Prefixed(data)) && want == |data| % 0x1_0000 && k == Min(CHUNK_SIZE - 2, want)
    ensures 2 + k <= n <= |data| + 2 && n <= CHUNK_SIZE && k == Min(n - 2, want)
  {
  }

  lemma FirstPayload(data: Bytes, n: nat, k: nat)
    requires 2 + k <= n <= |data| + 2 && n <= CHUNK_SIZE
    ensures var pl := Padded(Prefixed(data)[..n]);
            && pl[0] == Hi(|data| % 0x1_0000) && pl[1] == Lo(|data| % 0x1_0000) && pl[2..2 + k] == data[..k]
  {
    var buf := Prefixed(data);
    var pl := Padded(buf[..n]);
    assert pl[2..2 + k] == buf[2..2 + k];
  }

  lemma ReadsOnePacket(channel: uint16, data: Bytes, want: uint16, ps: seq<Option<Packet>>)
    requires Arriving(Frame(channel, Prefixed(data), 0)) <= ps && want == |data| % 0x1_0000 && want <= |data| && want <= CHUNK_SIZE - 2
    ensures Collect(ps, Begin) == Read(channel, CMD_APDU, data[..want], 1)
  {
    FrameHead(channel, Prefixed(data), 0);
    ArrivingTail(Frame(channel, Prefixed(data), 0), ps);
    FirstFits(data, Chunk(Prefixed(data)), want, want);
    AcceptFirst(channel, data);
  }

  lemma PrefixedTail(data: Bytes, n: nat)
    requires 2 <= n <= |data| + 2
    ensures |Prefixed(data)| == |data| + 2 && Prefixed(data)[n..] == data[n - 2..]
  {
  }

  lemma FirstOfMany(channel: uint16, data: Bytes, want: uint16, ps: seq<Option<Packet>>)
    requires Arriving(Frame(channel, Prefixed(data), 0)) <= ps && want == |data| % 0x1_0000 && CHUNK_SIZE - 2 < want <= |data|
    ensures ps != [] && ps[0].Some?
    ensures Accept(Begin, ps[0].value) == Some(Progress(1, channel, CMD_APDU, want, data[..CHUNK_SIZE - 2]))
    ensures Arriving(Frame(channel, data[CHUNK_SIZE - 2..], 1)) <= ps[1..]
  {
    var buf := Prefixed(data);
    AcceptFirst(channel, data);
    ArrivingTail(Frame(channel, buf, 0), ps);
    PrefixedTail(data, CHUNK_SIZE);
  }

  lemma CollectsRest(channel: uint16, data: Bytes, want: uint16, ps: seq<Option<Packet>>)
    requires CHUNK_SIZE - 2 < want <= |data| && ps != [] && ps[0].Some?
    requires Accept(Begin, ps[0].value) == Some(Progress(1, channel, CMD_APDU, want, data[..CHUNK_SIZE - 2]))
    requires Arriving(Frame(channel, data[CHUNK_SIZE - 2..], 1)) <= ps[1..]
    ensures Collect(ps, Begin) == Read(channel, CMD_APDU, data[..want], PacketCount(want + 2))
  {
    var k := CHUNK_SIZE - 2;
    var next := Progress(1, channel, CMD_APDU, want, data[..k]);
    CollectFrame(next, data[k..], ps[1..]);
    CollectMore(Begin, ps, next);
    CountMore(want + 2);
    TakeInTwo(data, k, want);
  }

  lemma ReadsManyPackets(channel: uint16, data: Bytes, want: uint16, ps: seq<Option<Packet>>)
    requires Arriving(Frame(channel, Prefixed(data), 0)) <= ps && want == |data| % 0x1_0000 && CHUNK_SIZE - 2 < want <= |data|
    ensures Collect(ps, Begin) == Read(channel, CMD_APDU, data[..want], PacketCount(want + 2))
  {
    FirstOfMany(channel, data, want, ps);
    CollectsRest(channel, data, want, ps);
  }

  /** Reading what was written gives the same channel and command and the data cut to its length modulo 2^16. */
  lemma ReadsWhatWasWritten(channel: uint16, data: Bytes, want: uint16, ps: seq<Option<Packet>>)
    requires Arriving(CommandPackets(channel, CMD_APDU, data)) <= ps && want == |data| % 0x1_0000 && want <= |data|
    ensures Collect(ps, Begin) == Read(channel, CMD_APDU, data[..want], PacketCount(want + 2))
  {
    if want > CHUNK_SIZE - 2 {
      ReadsManyPackets(channel, data, want, ps);
    } else {
      ReadsOnePacket(channel, data, want, ps);
      CountMore(want + 2);
    }
  }

  /** The round trip gives the data back, and takes exactly the packets written, if and only if the length fits 16 bits. */
  lemma RoundTripIff(channel: uint16, data: Bytes, ps: seq<Option<Packet>>)
    requires Arriving(CommandPackets(channel, CMD_APDU, data)) <= ps
    ensures Collect(ps, Begin) == Read(channel, CMD_APDU, data, |CommandPackets(channel, CMD_APDU, data)|) <==> |data| < 0x1_0000
    ensures |CommandPackets(channel, CMD_APDU, data)| == PacketCount(|data| + 2)
  {
    var want := |data| % 0x1_0000;
    CutIff(data, want);
    ReadsWhatWasWritten(channel, data, want, ps);
    FrameLength(channel, Prefixed(data), 0);
    PrefixedTail(data, 2);
  }

  lemma CutIff(data: Bytes, want: nat)
    requires want == |data| % 0x1_0000
    ensures want <= |data| && (data[..want] == data <==> |data| < 0x1_0000) && (want == |data| <==> |data| < 0x1_0000)
  {
  }

  // ----- what is read is what is there -----

  /** The payloads of the first n packets, one after the other. */
  function Gathered(ps: seq<Option<Packet>>, n: nat): Bytes
    requires n <= |ps|
  {
    if n == 0 || ps[0].None? then [] else ps[0].value.data + Gathered(ps[1..], n - 1)
  }

  /** The first n packets are of one command on one channel, numbered from i on. */
  ghost predicate Sequence(ps: seq<Option<Packet>>, n: nat, channel: uint16, cmd: byte, i: nat)
    requires n <= |ps|
  {
    forall k :: 0 <= k < n ==> ps[k].Some? && ps[k].value.num == i + k && ps[k].value.channel == channel && ps[k].value.cmd == cmd
  }

  lemma SequenceCons(ps: seq<Option<Packet>>, n: nat, channel: uint16, cmd: byte, i: nat)
    requires 0 < n <= |ps| && Sequence(ps[1..], n - 1, channel, cmd, i + 1)
    requires ps[0].Some? && ps[0].value.num == i && ps[0].value.channel == channel && ps[0].value.cmd == cmd
    ensures Sequence(ps, n, channel, cmd, i)
  {
    forall k | 0 <= k < n
      ensures ps[k].Some? && ps[k].value.num == i + k && ps[k].value.channel == channel && ps[k].value.cmd == cmd
    {
      if k > 0 {
        assert ps[1..][k - 1] == ps[k];
      }
    }
  }

  /** What is read from packet st.idx on is what is there. */
  ghost predicate SoundFrom(ps: seq<Option<Packet>>, st: Progress, r: Read)
    requires Consistent(st)
  {
    && r.Read? && 0 < r.used <= |ps| && Sequence(ps, r.used, r.channel, r.cmd, st.idx)
    && r.channel == st.channel && r.cmd == st.cmd && |r.data| == st.want
    && CHUNK_SIZE * (r.used - 1) < st.want - |st.data| <= CHUNK_SIZE * r.used
    && |Gathered(ps, r.used)| == CHUNK_SIZE * r.used
    && r.data == st.data + Gathered(ps, r.used)[..st.want - |st.data|]
  }

  lemma LastPacketIsSound(ps: seq<Option<Packet>>, st: Progress)
    requires Consistent(st) && st.idx > 0 && 0 < st.want - |st.data| <= CHUNK_SIZE && Collect(ps, st).Read?
    ensures SoundFrom(ps, st, Collect(ps, st))
  {
    GatheredOne(ps);
  }

  lemma NextPacketIsSound(ps: seq<Option<Packet>>, st: Progress, next: Progress, r: Read)
    requires Consistent(st) && st.idx > 0 && CHUNK_SIZE < st.want - |st.data| && ps != [] && ps[0].Some?
    requires Accept(st, ps[0].value) == Some(next) && Consistent(next) && SoundFrom(ps[1..], next, r)
    ensures SoundFrom(ps, st, r.(used := r.used + 1))
  {
    var p, need, more := ps[0].value, st.want - |st.data|, Gathered(ps[1..], r.used);
    SequenceCons(ps, r.used + 1, r.channel, r.cmd, st.idx);
    assert next.data == st.data + p.data;
    assert Gathered(ps, r.used + 1) == p.data + more;
    TakeOfSum(p.data, more, need);
    assert st.data + p.data + more[..need - CHUNK_SIZE] == st.data + (p.data + more[..need - CHUNK_SIZE]);
  }

  lemma {:induction false} CollectIsSound(ps: seq<Option<Packet>>, st: Progress)
    requires Consistent(st) && st.idx > 0 && |st.data| < st.want && Collect(ps, st).Read?
    ensures SoundFrom(ps, st, Collect(ps, st))
    decreases |ps|
  {
    if st.want - |st.data| <= CHUNK_SIZE {
      LastPacketIsSound(ps, st);
    } else {
      var next := Accept(st, ps[0].value).value;
      CollectIsSound(ps[1..], next);
      CollectMore(st, ps, next);
      NextPacketIsSound(ps, st, next, Collect(ps[1..], next));
    }
  }

  lemma GatheredOne(ps: seq<Option<Packet>>)
    requires ps != [] && ps[0].Some?
    ensures Gathered(ps, 1) == ps[0].value.data
  {
    assert Gathered(ps[1..], 0) == [];
  }

  lemma TakeOfSum(a: Bytes, b: Bytes, n: nat)
    requires |a| <= n <= |a| + |b|
    ensures (a + b)[..n] == a + b[..n - |a|]
  {
  }

  /**
   On every stream, whatever wrote it: what is read comes from packets of one channel and command numbered 0, 1, 2, and so on;
   an APDU is as long as its first two bytes say, is made of the payloads in order, and takes no more packets than it needs;
   any other command is one packet and has no data.
   */
  lemma ReadIsSound(ps: seq<Option<Packet>>)
    requires Collect(ps, Begin).Read?
    ensures var r := Collect(ps, Begin);
            && 0 < r.used <= |ps| && Sequence(ps, r.used, r.channel, r.cmd, 0)
            && (r.cmd != 5 ==> r.data == [] && r.used == 1)
            && (r.cmd == 5 ==>
                 && |r.data| == ps[0].value.data[0] as int * 256 + ps[0].value.data[1] as int
                 && r.used == (|r.data| + 60) / 59
                 && |Gathered(ps, r.used)| == 59 * r.used && r.data == Gathered(ps, r.used)[2..2 + |r.data|])
  {
    var p, next := ps[0].value, Accept(Begin, ps[0].value).value;
    GatheredOne(ps);
    if |next.data| < next.want {
      LongReadIsSound(ps, next);
    } else if p.cmd == 5 {
      assert p.data[2..][..next.want] == p.data[2..2 + next.want];
    }
  }

  lemma LongReadIsSound(ps: seq<Option<Packet>>, next: Progress)
    requires ps != [] && ps[0].Some? && Accept(Begin, ps[0].value) == Some(next) && |next.data| < next.want && Collect(ps, Begin).Read?
    ensures var r := Collect(ps, Begin);
            && 0 < r.used <= |ps| && Sequence(ps, r.used, r.channel, r.cmd, 0) && r.cmd == 5
            && |r.data| == next.want && r.used == (|r.data| + 60) / 59
            && |Gathered(ps, r.used)| == 59 * r.used && r.data == Gathered(ps, r.used)[2..2 + |r.data|]
  {
    CollectIsSound(ps[1..], next);
    var r, rest := Collect(ps, Begin), Collect(ps[1..], next);
    CollectMore(Begin, ps, next);
    SequenceCons(ps, r.used, r.channel, r.cmd, 0);
    var p, more := ps[0].value, Gathered(ps[1..], rest.used);
    assert Gathered(ps, r.used) == p.data + more;
    SkipTwo(p.data, more, next.want);
    assert next.data == p.data[2..];
  }

  lemma SkipTwo(a: Bytes, b: Bytes, want: nat)
    requires 2 <= |a| && |a| - 2 <= want <= |a| - 2 + |b|
    ensures (a + b)[2..2 + want] == a[2..] + b[..want - (|a| - 2)]
  {
  }

  /** Any other command is a single packet without data, and is read back as such. */
  lemma OtherCommandRoundTrip(channel: uint16, cmd: byte, data: Bytes, ps: seq<Option<Packet>>)
    requires cmd != CMD_APDU && Arriving(CommandPackets(channel, cmd, data)) <= ps
    ensures Collect(ps, Begin) == Read(channel, cmd, [], 1)
  {
  }

  // ----- the loops over the device -----

  function Wire(ps: seq<Packet>): (r: seq<Bytes>) {
    seq(|ps|, i requires 0 <= i < |ps| => Encode(ps[i]))
  }

  lemma FrameNext(channel: uint16, buf: Bytes, off: nat, i: nat)
    requires off < |buf|
    ensures var sz := Min(CHUNK_SIZE, |buf| - off);
            Wire(Frame(channel, buf[off..], i)) ==
            [Encode(Packet(channel, CMD_APDU, i % 0x1_0000, Padded(buf[off..off + sz])))] + Wire(Frame(channel, buf[off + sz..], i + 1))
  {
    var sz := Min(CHUNK_SIZE, |buf| - off);
    assert buf[off..][..sz] == buf[off..off + sz] && buf[off..][sz..] == buf[off + sz..];
  }

  function Received(bs: seq<Bytes>): (r: seq<Option<Packet>>) {
    seq(|bs|, i requires 0 <= i < |bs| => Decode(bs[i]))
  }

  /** What one side writes, the other reads. */
  lemma WireRoundTrip(ps: seq<Packet>)
    ensures Received(Wire(ps)) == Arriving(ps)
  {
    forall i | 0 <= i < |ps|
      ensures Received(Wire(ps))[i] == Some(ps[i])
    {
      DecodeEncode(ps[i]);
    }
  }

  /** The answer when `used` packets have been taken before. */
  function After(used: nat, r: Read): Read {
    if r.Read? then r.(used := used + r.used) else r
  }

  /** One turn of the loop of `readCommand`. */
  lemma CollectAt(all: seq<Bytes>, used: nat, st: Progress)
    requires used < |all| && Consistent(st)
    ensures var r := Collect(Received(all[used..]), st);
            var p := Decode(all[used]);
            if p.None? || Accept(st, p.value).None? then r == ReadError
            else
              var next := Accept(st, p.value).value;
              if |next.data| == next.want then r == Read(next.channel, next.cmd, next.data, 1)
              else r == After(1, Collect(Received(all[used + 1..]), next))
  {
    assert Received(all[used..])[0] == Decode(all[used]);
    assert Received(all[used..])[1..] == Received(all[used + 1..]);
  }

  /** `writePacket`: fills a zeroed 64-byte array; data that does not fit is cut off. */
  method WritePacket(channel: uint16, cmd: byte, num: uint16, data: Bytes) returns (b: Bytes)
    ensures b == Encode(Packet(channel, cmd, num, Padded(data[..Min(|data|, CHUNK_SIZE)])))
  {
    var pkt := new byte[64](_ => 0);
    pkt[0], pkt[1] := Hi(channel), Lo(channel);
    pkt[2] := cmd;
    pkt[3], pkt[4] := Hi(num), Lo(num);
    ghost var header := pkt[..];
    Copy(pkt, 5, data);
    ghost var fits := data[..Min(|data|, CHUNK_SIZE)];
    EncodeParts(Packet(channel, cmd, num, Padded(fits)), fits, header);
    b := pkt[..];
  }

  lemma EncodeParts(p: Packet, data: Bytes, header: Bytes)
    requires |data| <= CHUNK_SIZE && p.data == Padded(data) && |header| == PACKET_SIZE
    requires header[0] == Hi(p.channel) && header[1] == Lo(p.channel) && header[2] == p.cmd
    requires header[3] == Hi(p.num) && header[4] == Lo(p.num) && forall k :: 5 <= k < PACKET_SIZE ==> header[k] == 0
    ensures header[..5] + data + header[5 + |data|..] == Encode(p)
  {
  }

  /** The device takes `takes` more packets (any number if None) and then fails. */
  predicate Fails(takes: Option<nat>, n: nat) {
    takes.Some? && takes.value < n
  }

  /** `writeCommand`: all packets are written, or those before the first that the device fails on. */
  method WriteCommand(channel: uint16, cmd: byte, data: Bytes, takes: Option<nat>) returns (written: seq<Bytes>, ok: bool)
    ensures var all := Wire(CommandPackets(channel, cmd, data));
            ok == !Fails(takes, |all|) && written == if ok then all else all[..takes.value]
  {
    if cmd != CMD_APDU {
      var b := WritePacket(channel, cmd, 0, []);
      if takes == Some(0) {
        return [], false;
      }
      return [b], true;
    }
    written, ok := WriteFrame(channel, Prefixed(data), takes);
  }

  /** One turn of the loop: the next at most 59 bytes, in packet `i`. */
  method NextPacket(channel: uint16, buf: Bytes, off: nat, i: nat) returns (sz: nat, b: Bytes)
    requires off < |buf|
    ensures 0 < sz <= |buf| - off
    ensures Wire(Frame(channel, buf[off..], i)) == [b] + Wire(Frame(channel, buf[off + sz..], i + 1))
  {
    sz := CHUNK_SIZE;
    if sz > |buf| - off {
      sz := |buf| - off;
    }
    FrameNext(channel, buf, off, i);
    var chunk := buf[off..off + sz];
    TakeAll(chunk);
    b := WritePacket(channel, CMD_APDU, i % 0x1_0000, chunk);
  }

  method WriteFrame(channel: uint16, buf: Bytes, takes: Option<nat>) returns (written: seq<Bytes>, ok: bool)
    ensures var all := Wire(Frame(channel, buf, 0));
            ok == !Fails(takes, |all|) && written == if ok then all else all[..takes.value]
  {
    written := [];
    var i, off := 0, 0;
    TakeAll(buf);
    ghost var rest := Wire(Frame(channel, buf, 0));
    ghost var goal := rest;
    while off < |buf|
      invariant off <= |buf| && |written| == i && !Fails(takes, i)
      invariant rest == Wire(Frame(channel, buf[off..], i))
      invariant written + rest == goal
    {
      var sz, b := NextPacket(channel, buf, off, i);
      if takes == Some(i) {
        PrefixOfSum(written, rest);
        return written, false;
      }
      off := off + sz;
      i := i + 1;
      ghost var next := Wire(Frame(channel, buf[off..], i));
      Shift(written, b, next);
      written, rest := written + [b], next;
    }
    ok := true;
  }

  lemma PrefixOfSum(a: seq<Bytes>, rest: seq<Bytes>)
    ensures (a + rest)[..|a|] == a
  {
  }

  lemma Shift(a: seq<Bytes>, b: Bytes, rest: seq<Bytes>)
    ensures a + [b] + rest == a + ([b] + rest)
  {
  }

  /** `readCommand` on the packets that wait to be read: its answer is `Collect` of them. */
  method ReadCommand(waiting: seq<Bytes>) returns (r: Read)
    ensures r == Collect(Received(waiting), Begin)
  {
    var st := Begin;
    var used := 0;
    assert waiting[0..] == waiting;
    while used < |waiting|
      invariant used <= |waiting| && Consistent(st)
      invariant Collect(Received(waiting), Begin) == After(used, Collect(Received(waiting[used..]), st))
    {
      CollectAt(waiting, used, st);
      var p := Decode(waiting[used]);
      used := used + 1;
      if p.None? {
        return ReadError;
      }
      var next := Accept(st, p.value);
      if next.None? {
        return ReadError;
      }
      st := next.value;
      if |st.data| == st.want {
        return Read(st.channel, st.cmd, st.data, used);
      }
    }
    r := ReadError;
  }
}
