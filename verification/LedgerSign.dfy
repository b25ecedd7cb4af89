/**
Signing with the Tezos application of a Ledger: APDU packing (pkg/vault/ledger/ledger/apdu.go)
and the fragmentation loop of `Sign` (pkg/vault/ledger/tezosapp/tezosapp.go:238-275), carried
by the HID packets of Hid.dfy to the far side and put together again there.
*/
module LedgerSign {
  import opened ByteStrings
  import opened Hid
  import Bip32
  import opened Options

  // ----- APDU -----

  datatype Command = Command(cla: byte, ins: byte, p1: byte, p2: byte, data: Bytes, raw: Option<Bytes>, forceLc: bool)

  function Packed(a: Command): (b: Bytes) {
    if a.raw.Some? then a.raw.value
    else
      [a.cla, a.ins, a.p1, a.p2] + (if a.forceLc || |a.data| != 0 then [|a.data| % 256] else []) + a.data
  }

  /** `Bytes`: header, optional length, data. */
  method Pack(a: Command) returns (b: Bytes)
    ensures b == Packed(a)
  {
    if a.raw.Some? {
      return a.raw.value;
    }
    b := [a.cla, a.ins, a.p1, a.p2];
    if a.forceLc || |a.data| != 0 {
      b := b + [|a.data| % 256];
    }
    b := b + a.data;
  }

  /** The bytes of a command. */
  lemma PackedLayout(a: Command)
    requires a.raw.None?
    ensures var b := Packed(a);
            && b[..4] == [a.cla, a.ins, a.p1, a.p2]
            && (a.data == [] && !a.forceLc ==> |b| == 4)
            && (a.data != [] || a.forceLc ==> |b| == 5 + |a.data| && b[4] == |a.data| % 256 && b[5..] == a.data)
  {
  }

  /** How the device reads a command: four header bytes, then a length byte that must fit what follows. */
  function Unpacked(b: Bytes): (a: Option<Command>) {
    if |b| < 4 then None
    else if |b| == 4 then Some(Command(b[0], b[1], b[2], b[3], [], None, false))
    else if b[4] != |b| - 5 then None
    else Some(Command(b[0], b[1], b[2], b[3], b[5..], None, |b| == 5))
  }

  /**
   A command is understood if and only if its data fits the length byte; then it is the same command. (Where there is
   data the length byte is there anyhow, so `forceLc` does not show.)
   */
  lemma UnpackedPackedIff(a: Command)
    requires a.raw.None?
    ensures Unpacked(Packed(a)) == Some(a.(forceLc := a.forceLc && a.data == [])) <==> |a.data| < 256
    ensures Unpacked(Packed(a)).Some? <==> |a.data| < 256
  {
    if a.data == [] {
      assert Packed(a)[..4] == [a.cla, a.ins, a.p1, a.p2];
    } else {
      assert Packed(a)[5..] == a.data;
    }
  }

  datatype Response = Response(data: Bytes, sw: uint16)

  function ParseResponse(b: Bytes): (r: Option<Response>) {
    if |b| < 2 then None else Some(Response(b[..|b| - 2], Word(b[|b| - 2], b[|b| - 1])))
  }

  /** Parsing inverts appending the status word, and loses nothing. */
  lemma ParseResponseExact(b: Bytes, r: Response)
    ensures ParseResponse(b) == Some(r) <==> b == r.data + [Hi(r.sw), Lo(r.sw)]
  {
  }

  // ----- fragmentation -----

  const CLA_TEZOS: byte := 0x80
  const INS_SIGN: byte := 4
  const MAX_APDU_SIZE: nat := 230
  const P1_NEXT: byte := 0x01
  const P1_LAST: byte := 0x80
  const SW_OK: uint16 := 0x9000

  function SignCommand(p1: byte, p2: byte, data: Bytes): (a: Command) {
    Command(CLA_TEZOS, INS_SIGN, p1, p2, data, None, false)
  }

  /** The chunk commands of a message: at most 230 bytes each, only the last marked. */
  function Chunks(p2: byte, data: Bytes): (cs: seq<Command>)
    decreases |data|
  {
    if data == [] then []
    else if |data| <= MAX_APDU_SIZE then [SignCommand(P1_NEXT + P1_LAST, p2, data)]
    else [SignCommand(P1_NEXT, p2, data[..MAX_APDU_SIZE])] + Chunks(p2, data[MAX_APDU_SIZE..])
  }

  function SignCommands(p2: byte, path: Bytes, data: Bytes): (cs: seq<Command>) {
    [SignCommand(0, p2, path)] + Chunks(p2, data)
  }

  function Concat(cs: seq<Command>): (b: Bytes) {
    if cs == [] then [] else cs[0].data + Concat(cs[1..])
  }

  /** The chunks make up the message; all but the last are 230 bytes long, and exactly the last one has p1 0x81, the others 0x01. */
  lemma {:induction false} ChunksExact(p2: byte, data: Bytes)
    ensures var cs := Chunks(p2, data);
            && Concat(cs) == data
            && (data != [] ==> cs != [])
            && forall i :: 0 <= i < |cs| ==>
                 && 0 < |cs[i].data| <= 230 && (i < |cs| - 1 ==> |cs[i].data| == 230)
                 && cs[i] == Command(0x80, 4, if i == |cs| - 1 then 0x81 else 0x01, p2, cs[i].data, None, false)
    decreases |data|
  {
    var cs := Chunks(p2, data);
    if 0 < |data| <= MAX_APDU_SIZE {
      assert cs[1..] == [];
      assert Concat(cs) == data + [];
    } else if data != [] {
      ChunksExact(p2, data[MAX_APDU_SIZE..]);
      assert cs[1..] == Chunks(p2, data[MAX_APDU_SIZE..]);
      assert data == data[..MAX_APDU_SIZE] + data[MAX_APDU_SIZE..];
    }
  }

  /** What one exchange comes to: a transport error, or a response. */
  datatype Exchanged = TransportError | Answer(response: Response)

  predicate Accepted(x: Exchanged) {
    x.Answer? && x.response.sw == SW_OK
  }

  lemma AcceptedIff(x: Exchanged)
    ensures Accepted(x) <==> x.Answer? && x.response.sw == 0x9000
  {
  }

  // ----- the returned signature -----

  datatype Curve = S256 | P256

  datatype Decoded = EdSignature(sig: Bytes) | EcSignature(curve: Curve, r: int, s: int)

  /** Decoding of an ASN.1 sequence of two integers. */
  type Asn1 = Bytes -> Option<(int, int)>

  /** The device sets the lowest bit of the first byte to the parity of a point; it is cleared before decoding. */
  function Unflagged(data: Bytes): (b: Bytes) {
    if data == [] then [] else [data[0] - data[0] % 2] + data[1..]
  }

  /** The signature in an answer for derivation `p2`, if it is one. */
  function DecodeSignature(p2: byte, data: Bytes, asn1: Asn1): (r: Option<Decoded>) {
    if p2 == 0 || p2 == 3 then
      if |data| == 64 then Some(EdSignature(data)) else None
    else if p2 == 1 || p2 == 2 then
      var v := asn1(Unflagged(data));
      if v.None? then None else Some(EcSignature(if p2 == 1 then S256 else P256, v.value.0, v.value.1))
    else None
  }

  /** Of an ECDSA answer only the parity flag is ignored: whatever bytes `b` decode is decoded from both flagged forms. */
  lemma ParityIgnored(p2: byte, b: Bytes, flag: byte, asn1: Asn1)
    requires (p2 == 1 || p2 == 2) && b != [] && b[0] % 2 == 0 && flag < 2
    ensures var v := asn1(b);
            DecodeSignature(p2, b[0 := b[0] + flag], asn1) ==
            if v.None? then None else Some(EcSignature(if p2 == 1 then S256 else P256, v.value.0, v.value.1))
  {
    assert Unflagged(b[0 := b[0] + flag]) == b;
  }

  /** Ed25519 signatures are the 64 bytes themselves, ECDSA ones are decoded on the curve of the derivation type, and no other type has any. */
  lemma SignatureOf(p2: byte, data: Bytes, asn1: Asn1)
    ensures p2 == 0 || p2 == 3 ==> DecodeSignature(p2, data, asn1) == if |data| == 64 then Some(EdSignature(data)) else None
    ensures p2 == 1 && DecodeSignature(p2, data, asn1).Some? ==> DecodeSignature(p2, data, asn1).value.EcSignature? && DecodeSignature(p2, data, asn1).value.curve == S256
    ensures p2 == 2 && DecodeSignature(p2, data, asn1).Some? ==> DecodeSignature(p2, data, asn1).value.EcSignature? && DecodeSignature(p2, data, asn1).value.curve == P256
    ensures p2 > 3 ==> DecodeSignature(p2, data, asn1).None?
  {
  }

  datatype SignResult = Signature(sig: Decoded) | SignError

  /**
   The commands `Sign` sends, given the device's answer to each exchange: all of them, in order, up to and
   including the first that is not accepted. A signature is returned if and only if all are accepted and the
   last answer holds one.
   */
  method Sign(p2: byte, path: Bytes, data: Bytes, answers: nat -> Exchanged, asn1: Asn1) returns (sent: seq<Command>, r: SignResult)
    ensures 0 < |sent| && sent <= SignCommands(p2, path, data)
    ensures forall i :: 0 <= i < |sent| - 1 ==> Accepted(answers(i))
    ensures sent < SignCommands(p2, path, data) ==> !Accepted(answers(|sent| - 1))
    ensures r.Signature? <==>
              && sent == SignCommands(p2, path, data) && Accepted(answers(|sent| - 1))
              && DecodeSignature(p2, answers(|sent| - 1).response.data, asn1).Some?
    ensures r.Signature? ==> Some(r.sig) == DecodeSignature(p2, answers(|sent| - 1).response.data, asn1)
  {
    var res;
    sent, res := SendAll(p2, path, data, answers);
    if !Accepted(res) {
      return sent, SignError;
    }
    var decoded := DecodeSignature(p2, res.response.data, asn1);
    r := if decoded.Some? then Signature(decoded.value) else SignError;
  }

  lemma ChunksNext(p2: byte, data: Bytes, off: nat)
    requires off < |data|
    ensures var end := off + Min(MAX_APDU_SIZE, |data| - off);
            Chunks(p2, data[off..]) ==
            [SignCommand(if end == |data| then P1_NEXT + P1_LAST else P1_NEXT, p2, data[off..end])] + Chunks(p2, data[end..])
  {
    var sz := Min(MAX_APDU_SIZE, |data| - off);
    assert data[off..][..sz] == data[off..off + sz] && data[off..][sz..] == data[off + sz..];
    if off + sz == |data| {
      assert data[off..] == data[off..off + sz] && data[off + sz..] == [];
    }
  }

  /** One turn of the loop of `Sign`: the next at most 230 bytes, marked if they are the last. */
  method NextChunk(apdu: Command, p2: byte, data: Bytes, off: nat) returns (next: Command, end: nat)
    requires off < |data| && apdu.(data := []) == SignCommand(P1_NEXT, p2, [])
    ensures off < end <= |data| && (end < |data| ==> next.(data := []) == SignCommand(P1_NEXT, p2, []))
    ensures Chunks(p2, data[off..]) == [next] + Chunks(p2, data[end..])
  {
    var sz := MAX_APDU_SIZE;
    if sz > |data| - off {
      sz := |data| - off;
    }
    ChunksNext(p2, data, off);
    next := apdu.(data := data[off..off + sz]);
    end := off + sz;
    if end == |data| {
      next := next.(p1 := next.p1 + P1_LAST);
    }
  }

  lemma ShiftCommand(sent: seq<Command>, a: Command, rest: seq<Command>)
    ensures sent + [a] + rest == sent + ([a] + rest)
  {
  }

  /** The exchanges of `Sign`. */
  method SendAll(p2: byte, path: Bytes, data: Bytes, answers: nat -> Exchanged) returns (sent: seq<Command>, res: Exchanged)
    ensures 0 < |sent| && sent <= SignCommands(p2, path, data) && res == answers(|sent| - 1)
    ensures forall i :: 0 <= i < |sent| - 1 ==> Accepted(answers(i))
    ensures sent < SignCommands(p2, path, data) ==> !Accepted(res)
  {
    var apdu := SignCommand(0, p2, path);
    sent := [apdu];
    res := answers(0);
    if !Accepted(res) {
      return sent, res;
    }
    var off := 0;
    apdu := apdu.(p1 := P1_NEXT);
    TakeAll(data);
    ghost var rest := Chunks(p2, data[off..]);
    ghost var all := SignCommands(p2, path, data);
    while off < |data|
      invariant off <= |data| && 0 < |sent|
      invariant rest == Chunks(p2, data[off..]) && sent + rest == all
      invariant forall i :: 0 <= i < |sent| ==> Accepted(answers(i))
      invariant res == answers(|sent| - 1)
      invariant off < |data| ==> apdu.(data := []) == SignCommand(P1_NEXT, p2, [])
    {
      apdu, off := NextChunk(apdu, p2, data, off);
      ghost var next := Chunks(p2, data[off..]);
      ShiftCommand(sent, apdu, next);
      sent, rest := sent + [apdu], next;
      res := answers(|sent| - 1);
      if !Accepted(res) {
        return sent, res;
      }
    }
    assert rest == [];
  }

  // ----- the far side -----

  function AllPackets(channel: uint16, cs: seq<Command>): (ps: seq<Packet>) {
    if cs == [] then [] else CommandPackets(channel, CMD_APDU, Packed(cs[0])) + AllPackets(channel, cs[1..])
  }

  /** The device reads commands until its input is used up; `None` if anything is malformed. */
  function DeviceReceives(ps: seq<Option<Packet>>): (r: Option<seq<Command>>)
    decreases |ps|
  {
    if ps == [] then Some([])
    else
      var c := Collect(ps, Begin);
      if c.ReadError? || c.used == 0 || c.used > |ps| then None
      else
        var a, more := Unpacked(c.data), DeviceReceives(ps[c.used..]);
        if a.Some? && more.Some? then Some([a.value] + more.value) else None
  }

  predicate Sendable(a: Command) {
    a.raw.None? && !a.forceLc && |a.data| < 256
  }

  lemma ReceivesOne(channel: uint16, a: Command, more: seq<Packet>)
    requires Sendable(a)
    ensures var ps := Arriving(CommandPackets(channel, CMD_APDU, Packed(a)) + more);
            var c := Collect(ps, Begin);
            && ps != [] && c.Read? && 0 < c.used <= |ps| && Unpacked(c.data) == Some(a) && ps[c.used..] == Arriving(more)
  {
    var fs := CommandPackets(channel, CMD_APDU, Packed(a));
    var ps := Arriving(fs + more);
    assert Arriving(fs) <= ps;
    RoundTripIff(channel, Packed(a), ps);
    UnpackedPackedIff(a);
    assert ps[|fs|..] == Arriving(more);
  }

  /** Every sequence of commands arrives as it was sent, through both layers. */
  lemma {:induction false} CommandsArrive(channel: uint16, cs: seq<Command>)
    requires forall i :: 0 <= i < |cs| ==> Sendable(cs[i])
    ensures DeviceReceives(Arriving(AllPackets(channel, cs))) == Some(cs)
  {
    if cs != [] {
      CommandsArrive(channel, cs[1..]);
      OneMoreArrives(channel, cs[0], AllPackets(channel, cs[1..]), cs[1..]);
      assert cs == [cs[0]] + cs[1..];
    }
  }

  lemma OneMoreArrives(channel: uint16, a: Command, more: seq<Packet>, rest: seq<Command>)
    requires Sendable(a) && DeviceReceives(Arriving(more)) == Some(rest)
    ensures DeviceReceives(Arriving(CommandPackets(channel, CMD_APDU, Packed(a)) + more)) == Some([a] + rest)
  {
    ReceivesOne(channel, a, more);
    ReceivesMore(Arriving(CommandPackets(channel, CMD_APDU, Packed(a)) + more), a, Arriving(more), rest);
  }

  lemma ReceivesMore(ps: seq<Option<Packet>>, a: Command, rest: seq<Option<Packet>>, more: seq<Command>)
    requires ps != [] && DeviceReceives(rest) == Some(more)
    requires var c := Collect(ps, Begin); c.Read? && 0 < c.used <= |ps| && Unpacked(c.data) == Some(a) && ps[c.used..] == rest
    ensures DeviceReceives(ps) == Some([a] + more)
  {
  }

  /** Every command is the Tezos application's Sign for the derivation type; the first has p1 0, the last chunk 0x81, the others 0x01. */
  predicate Addressed(cs: seq<Command>, p2: byte) {
    forall i :: 0 <= i < |cs| ==>
      && cs[i].cla == 0x80 && cs[i].ins == 4 && cs[i].p2 == p2
      && cs[i].p1 == if i == 0 then 0 else if i == |cs| - 1 then 0x81 else 0x01
  }

  lemma SignCommandsExact(p2: byte, path: Bytes, data: Bytes)
    requires |path| < 256
    ensures var cs := SignCommands(p2, path, data);
            && |cs| > 0 && cs[0].data == path && Concat(cs[1..]) == data
            && (forall i :: 0 <= i < |cs| ==> Sendable(cs[i]))
            && Addressed(cs, p2)
  {
    ChunksExact(p2, data);
    assert SignCommands(p2, path, data)[1..] == Chunks(p2, data);
  }

  /**
   End to end, on the wire: for every derivation type, every message, and every path of at most 63 components, the
   64-byte packets of a completed `Sign` decode on the far side to that path followed by chunks that make up the
   message, all addressed to Sign with that derivation type, and exactly the last marked.
   */
  lemma MessageArrives(channel: uint16, p2: byte, path: Bip32.Path, data: Bytes)
    requires |path| <= 63
    ensures var wire := Wire(AllPackets(channel, SignCommands(p2, Bip32.PathBytes(path), data)));
            var got := DeviceReceives(Received(wire));
            && (forall b :: b in wire ==> |b| == PACKET_SIZE)
            && got.Some? && |got.value| > 0
            && Bip32.FromBytesSpec(got.value[0].data) == Some(path) && Concat(got.value[1..]) == data
            && Addressed(got.value, p2)
  {
    var cs := SignCommands(p2, Bip32.PathBytes(path), data);
    Bip32.BytesRoundTripIff(path);
    SignCommandsExact(p2, Bip32.PathBytes(path), data);
    CommandsArrive(channel, cs);
    WireRoundTrip(AllPackets(channel, cs));
  }

  lemma FirstCommandIsShort(ps: seq<Option<Packet>>)
    requires DeviceReceives(ps).Some? && |DeviceReceives(ps).value| > 0
    ensures |DeviceReceives(ps).value[0].data| < 256
  {
  }

  lemma ShortBytesShortPath(b: Bytes, path: Bip32.Path)
    requires |b| < 256 && Bip32.FromBytesSpec(b) == Some(path)
    ensures |path| <= 63
  {
  }

  /** On the wire a path arrives if and only if it has at most 63 components: a longer one does not fit the length byte of its command. */
  lemma PathArrivesIff(channel: uint16, p2: byte, path: Bip32.Path, data: Bytes)
    ensures var got := DeviceReceives(Received(Wire(AllPackets(channel, SignCommands(p2, Bip32.PathBytes(path), data)))));
            got.Some? && |got.value| > 0 && Bip32.FromBytesSpec(got.value[0].data) == Some(path) <==> |path| <= 63
  {
    if |path| <= 63 {
      MessageArrives(channel, p2, path, data);
    } else {
      var ps := Received(Wire(AllPackets(channel, SignCommands(p2, Bip32.PathBytes(path), data))));
      var got := DeviceReceives(ps);
      if got.Some? && |got.value| > 0 && Bip32.FromBytesSpec(got.value[0].data) == Some(path) {
        FirstCommandIsShort(ps);
        ShortBytesShortPath(got.value[0].data, path);
      }
    }
  }

  lemma {:induction false} FrameNumber(channel: uint16, buf: Bytes, i: nat, k: nat)
    requires k < |Frame(channel, buf, i)|
    ensures Frame(channel, buf, i)[k].num == (i + k) % 0x1_0000
    decreases k
  {
    if k > 0 {
      FrameNumber(channel, buf[Chunk(buf)..], i + 1, k - 1);
    }
  }

  lemma MidFrameIsRefused(ps: seq<Option<Packet>>)
    requires ps != [] && ps[0].Some? && ps[0].value.num != 0
    ensures DeviceReceives(ps).None?
  {
  }

  /** Packets of a command cut by the 16-bit length are left over, and cannot start another. */
  lemma LeftOver(channel: uint16, b: Bytes, more: seq<Packet>, used: nat)
    requires |b| >= 0x1_0000 && used == PacketCount(|b| % 0x1_0000 + 2)
    ensures var ps := Arriving(CommandPackets(channel, CMD_APDU, b) + more);
            0 < used < |ps| && DeviceReceives(ps[used..]).None?
  {
    var fs := CommandPackets(channel, CMD_APDU, b);
    FrameLength(channel, Prefixed(b), 0);
    FrameNumber(channel, Prefixed(b), 0, used);
    assert 0 < used < |fs| && used < 0x1_0000;
    var ps := Arriving(fs + more);
    assert ps[used..][0] == Some(fs[used]);
    MidFrameIsRefused(ps[used..]);
  }

  /** A command whose data does not fit the length byte makes all that follows unreadable, whatever its size. */
  lemma OversizedIsRefused(channel: uint16, a: Command, more: seq<Packet>)
    requires a.raw.None? && |a.data| >= 256
    ensures DeviceReceives(Arriving(CommandPackets(channel, CMD_APDU, Packed(a)) + more)).None?
  {
    var b := Packed(a);
    var fs := CommandPackets(channel, CMD_APDU, b);
    var ps := Arriving(fs + more);
    assert Arriving(fs) <= ps;
    if |b| < 0x1_0000 {
      RoundTripIff(channel, b, ps);
      UnpackedPackedIff(a);
    } else {
      var want := |b| % 0x1_0000;
      CutIff(b, want);
      ReadsWhatWasWritten(channel, b, want, ps);
      LeftOver(channel, b, more, PacketCount(want + 2));
    }
  }

  /** After a longer path the device cannot make sense of the commands at all. */
  lemma LongPathIsRefused(channel: uint16, p2: byte, path: Bip32.Path, data: Bytes)
    requires |path| > 63
    ensures DeviceReceives(Arriving(AllPackets(channel, SignCommands(p2, Bip32.PathBytes(path), data)))).None?
  {
    var cs := SignCommands(p2, Bip32.PathBytes(path), data);
    var a := SignCommand(0, p2, Bip32.PathBytes(path));
    assert AllPackets(channel, cs) == CommandPackets(channel, CMD_APDU, Packed(a)) + AllPackets(channel, cs[1..]);
    OversizedIsRefused(channel, a, AllPackets(channel, cs[1..]));
  }

  // ----- the way back -----

  /** The bytes of a response on the wire. */
  function ResponseBytes(r: Response): Bytes {
    r.data + [Hi(r.sw), Lo(r.sw)]
  }

  /** What `Exchange` makes of the command it has read. */
  function Interpreted(channel: uint16, c: Read): (x: Exchanged) {
    if c.ReadError? || c.channel != channel || c.cmd != CMD_APDU then TransportError
    else
      var r := ParseResponse(c.data);
      if r.None? then TransportError else Answer(r.value)
  }

  /** `Exchange`: the packets it writes, and its result on the packets that wait to be read. */
  method Exchange(channel: uint16, a: Command, takes: Option<nat>, waiting: seq<Bytes>) returns (written: seq<Bytes>, x: Exchanged)
    ensures var all := Wire(CommandPackets(channel, CMD_APDU, Packed(a)));
            if Fails(takes, |all|) then x.TransportError? && written == all[..takes.value]
            else written == all && x == Interpreted(channel, Collect(Received(waiting), Begin))
  {
    var b := Pack(a);
    var ok;
    written, ok := WriteCommand(channel, CMD_APDU, b, takes);
    if !ok {
      return written, TransportError;
    }
    var c := ReadCommand(waiting);
    if c.ReadError? {
      return written, TransportError;
    }
    if c.channel != channel {
      return written, TransportError;
    }
    if c.cmd != CMD_APDU {
      return written, TransportError;
    }
    var r := ParseResponse(c.data);
    x := if r.None? then TransportError else Answer(r.value);
  }

  lemma ArrivesFirst(ps: seq<Packet>, more: seq<Bytes>)
    ensures Arriving(ps) <= Received(Wire(ps) + more)
  {
    WireRoundTrip(ps);
    assert Received(Wire(ps) + more)[..|ps|] == Received(Wire(ps));
  }

  lemma InterpretedIff(channel: uint16, other: uint16, b: Bytes, used: nat, r: Response)
    ensures Interpreted(channel, Read(other, CMD_APDU, b, used)) == Answer(r) <==> other == channel && b == ResponseBytes(r)
  {
    ParseResponseExact(b, r);
  }

  /**
   A response comes back as itself, whatever follows it, if and only if it was sent on the client's channel and has at most
   65533 bytes of data; any command but an APDU is an error.
   */
  lemma ResponseReturnsIff(channel: uint16, other: uint16, cmd: byte, r: Response, more: seq<Bytes>)
    ensures var waiting := Wire(CommandPackets(other, cmd, ResponseBytes(r))) + more;
            var x := Interpreted(channel, Collect(Received(waiting), Begin));
            && (x == Answer(r) <==> cmd == CMD_APDU && other == channel && |r.data| <= 65533)
            && (cmd != CMD_APDU || other != channel ==> x == TransportError)
  {
    var b := ResponseBytes(r);
    var ps := Received(Wire(CommandPackets(other, cmd, b)) + more);
    ArrivesFirst(CommandPackets(other, cmd, b), more);
    if cmd == CMD_APDU {
      var want := |b| % 0x1_0000;
      CutIff(b, want);
      ReadsWhatWasWritten(other, b, want, ps);
      InterpretedIff(channel, other, b[..want], PacketCount(want + 2), r);
    } else {
      OtherCommandRoundTrip(other, cmd, b, ps);
    }
  }

  /** A whole exchange: the device reads the command as sent, and the client the device's response. */
  lemma ExchangeRoundTrip(channel: uint16, a: Command, r: Response, more: seq<Bytes>)
    requires Sendable(a) && |r.data| <= 65533
    ensures DeviceReceives(Received(Wire(CommandPackets(channel, CMD_APDU, Packed(a))))) == Some([a])
    ensures var waiting := Wire(CommandPackets(channel, CMD_APDU, ResponseBytes(r))) + more;
            Interpreted(channel, Collect(Received(waiting), Begin)) == Answer(r)
  {
    var ps := CommandPackets(channel, CMD_APDU, Packed(a));
    assert AllPackets(channel, [a]) == ps by {
      assert [a][1..] == [] && ps + [] == ps;
    }
    CommandsArrive(channel, [a]);
    WireRoundTrip(ps);
    ResponseReturnsIff(channel, channel, CMD_APDU, r, more);
  }
}
