/**
The in-place loops of pkg/crypto/kwp/kwp.go, proved against the specification in Kwp.dfy.
*/
module KwpLoops {
  import opened ByteStrings
  import opened Kwp

  // ----- data laid out as bytes -----

  /** The buffers hold the registers; the first semiblock of `d` is not used meanwhile. */
  predicate Loaded(d: Bytes, buf: Bytes, s: Registers) {
    |d| == 8 + 8 * |s.r| && |buf| == 16 && buf[..8] == s.a && d[8..] == Flat(s.r)
  }

  lemma LoadedSlice(d: Bytes, buf: Bytes, s: Registers, j: nat)
    requires Loaded(d, buf, s) && j < |s.r|
    ensures d[8 * (j + 1)..8 * (j + 1) + 8] == s.r[j]
  {
  }

  lemma LoadedUpdate(d: Bytes, buf: Bytes, s: Registers, j: nat, d': Bytes, buf': Bytes)
    requires Loaded(d, buf, s) && j < |s.r| && |buf'| == 16
    requires d' == d[..8 * (j + 1)] + buf'[8..] + d[8 * (j + 1) + 8..]
    ensures Loaded(d', buf', Registers(buf'[..8], s.r[j := buf'[8..]]))
  {
  }

  // ----- the counter -----

  /** What four bytes keep of the counter. */
  function Low(t: nat): nat {
    if t < 0x1_0000_0000 then t else Low(t - 0x1_0000_0000)
  }

  /** The low four bytes of the counter are xored in; below 2^32 that is the whole 64-bit counter. */
  method XorRoundConst(buf: array<byte>, t: nat)
    requires buf.Length == 16
    modifies buf
    ensures buf[..] == Xor(old(buf[..8]), BigEndian(Low(t), 8)) + old(buf[8..])
  {
    var rc := t;
    var b := 0;
    while b < 4
      invariant b <= 4
      invariant BigEndian(t, 4)[..4 - b] == BigEndian(rc, 4 - b)
      invariant forall k :: 8 - b <= k < 8 ==> buf[k] == Xor8(old(buf[k]), BigEndian(t, 4)[k - 4])
      invariant forall k :: 0 <= k < 8 - b || 8 <= k < 16 ==> buf[k] == old(buf[k])
    {
      assert BigEndian(rc, 4 - b)[3 - b] == rc % 256;
      buf[7 - b] := Xor8(buf[7 - b], rc % 256);
      rc := rc / 256;
      b := b + 1;
    }
    LowFourBytes(t);
    HighBytesZero(Low(t));
    forall k | 0 <= k < 4
      ensures buf[k] == Xor8(old(buf[k]), 0)
    {
      Xor8Zero(buf[k]);
    }
  }

  lemma {:induction false} LowFourBytes(t: nat)
    ensures BigEndian(t, 4) == BigEndian(Low(t), 4) && Low(t) < 0x1_0000_0000
  {
    if t >= 0x1_0000_0000 {
      PowOfFour();
      BigEndianCut(t - 0x1_0000_0000, 4);
      LowFourBytes(t - 0x1_0000_0000);
    }
  }

  lemma PowOfFour()
    ensures Pow256(4) == 0x1_0000_0000
  {
    assert Pow256(2) == 0x1_0000;
  }

  lemma {:induction false} BigEndianCut(u: nat, n: nat)
    ensures BigEndian(u + Pow256(n), n) == BigEndian(u, n)
  {
    if n > 0 {
      var q := Pow256(n - 1);
      assert (u + 256 * q) / 256 == u / 256 + q && (u + 256 * q) % 256 == u % 256;
      BigEndianCut(u / 256, n - 1);
    }
  }

  lemma HighBytesZero(t: nat)
    requires t < 0x1_0000_0000
    ensures BigEndian(t, 8) == [0, 0, 0, 0] + BigEndian(t, 4)
  {
    var t1 := t / 256;
    var t2 := t1 / 256;
    var t3 := t2 / 256;
    assert t3 / 256 == 0;
    assert BigEndian(0, 4) == [0, 0, 0, 0];
    assert BigEndian(t3, 5) == BigEndian(0, 4) + [t3 % 256];
    assert BigEndian(t2, 6) == BigEndian(t3, 5) + [t2 % 256];
    assert BigEndian(t1, 7) == BigEndian(t2, 6) + [t1 % 256];
    assert BigEndian(t3, 1) == [t3 % 256];
    assert BigEndian(t2, 2) == BigEndian(t3, 1) + [t2 % 256];
    assert BigEndian(t1, 3) == BigEndian(t2, 2) + [t1 % 256];
  }

  // ----- one iteration of each loop -----

  method MixStep(c: Cipher, data: array<byte>, buf: array<byte>, j: nat, t: nat, ghost s: Registers)
    requires Loaded(data[..], buf[..], s) && j < |s.r| && data != buf && 0 < t < 0x1_0000_0000
    modifies data, buf
    ensures Loaded(data[..], buf[..], IndexStep(c, s, j, t))
  {
    LoadedSlice(data[..], buf[..], s, j);
    Copy(buf, 8, data[8 * (j + 1)..]);
    assert buf[..] == s.a + s.r[j];
    ghost var b: Bytes := c.enc(s.a + s.r[j]);
    Copy(buf, 0, c.enc(buf[..]));
    assert buf[..] == b;
    assert buf[..8] == b[..8] && buf[8..] == b[8..];
    XorRoundConst(buf, t);
    assert buf[..8] == Mix(c, s.a, s.r[j], t).0 && buf[8..] == Mix(c, s.a, s.r[j], t).1;
    Copy(data, 8 * (j + 1), buf[8..]);
    LoadedUpdate(old(data[..]), old(buf[..]), s, j, data[..], buf[..]);
  }

  method UnmixStep(c: Cipher, data: array<byte>, buf: array<byte>, j: nat, t: nat, ghost s: Registers)
    requires Loaded(data[..], buf[..], s) && j < |s.r| && data != buf
    modifies data, buf
    ensures Loaded(data[..], buf[..], UnindexStep(c, s, j, Low(t)))
  {
    LoadedSlice(data[..], buf[..], s, j);
    Copy(buf, 8, data[8 * (j + 1)..]);
    assert buf[..8] == s.a && buf[8..] == s.r[j];
    XorRoundConst(buf, t);
    assert buf[..] == Xor(s.a, BigEndian(Low(t), 8)) + s.r[j];
    ghost var b: Bytes := c.dec(Xor(s.a, BigEndian(Low(t), 8)) + s.r[j]);
    Copy(buf, 0, c.dec(buf[..]));
    assert buf[..] == b;
    assert buf[..8] == b[..8] && buf[8..] == b[8..];
    assert buf[..8] == Unmix(c, s.a, s.r[j], Low(t)).0 && buf[8..] == Unmix(c, s.a, s.r[j], Low(t)).1;
    Copy(data, 8 * (j + 1), buf[8..]);
    LoadedUpdate(old(data[..]), old(buf[..]), s, j, data[..], buf[..]);
  }

  // ----- the loops -----

  /** Step `base` + 1 begins a round. */
  predicate RoundAt(base: nat, n: nat) {
    n > 0 && Place(base, n) == 0
  }

  /** The steps done in `i` rounds. */
  function RoundBase(i: nat, n: nat): nat {
    if i == 0 then 0 else RoundBase(i - 1, n) + n
  }

  lemma {:induction false} RoundBaseIsProduct(i: nat, n: nat)
    ensures RoundBase(i, n) == i * n
  {
    if i > 0 {
      RoundBaseIsProduct(i - 1, n);
      assert i * n == (i - 1) * n + n;
    }
  }

  lemma RoundStart(i: nat, n: nat)
    requires i < 6 && n > 0
    ensures RoundBase(i + 1, n) == RoundBase(i, n) + n <= 6 * n
    ensures RoundAt(RoundBase(i, n), n)
  {
    RoundBaseIsProduct(i, n);
    assert i * n <= 5 * n;
    PlaceInRound(i, 0, n);
  }

  lemma {:induction false} PlaceFrom(base: nat, j: nat, n: nat)
    requires RoundAt(base, n) && j < n
    ensures Place(base + j, n) == j
  {
    if j > 0 {
      PlaceFrom(base, j - 1, n);
    }
  }

  /** The state after undoing steps `steps`, ..., k + 1 with the counter cut to four bytes. */
  function UndoneTo(c: Cipher, s: Registers, steps: nat, k: nat): (s': Registers)
    requires |s.r| > 0 && k <= steps
    ensures |s'.r| == |s.r|
    decreases steps - k
  {
    if k == steps then s else UnindexStep(c, UndoneTo(c, s, steps, k + 1), Place(k, |s.r|), Low(k + 1))
  }

  lemma {:induction false} LowCounterSuffices(c: Cipher, s: Registers, steps: nat, k: nat)
    requires |s.r| > 0 && k <= steps < 0x1_0000_0000
    ensures UnindexSteps(c, UndoneTo(c, s, steps, k), k) == UnindexSteps(c, s, steps)
    decreases steps - k
  {
    if k < steps {
      LowCounterSuffices(c, s, steps, k + 1);
    }
  }

  // The states between the steps, as a sequence that the loops walk along.

  ghost predicate Wide(states: seq<Registers>, n: nat) {
    n > 0 && forall k :: 0 <= k < |states| ==> |states[k].r| == n
  }

  /** Step k leads from state k - 1 to state k. */
  ghost predicate Mixes(c: Cipher, states: seq<Registers>, n: nat, k: nat)
    requires 0 < k < |states| && Wide(states, n)
  {
    states[k] == IndexStep(c, states[k - 1], Place(k - 1, n), k)
  }

  /** Undoing step k leads from state k to state k - 1. */
  ghost predicate Unmixes(c: Cipher, states: seq<Registers>, n: nat, k: nat)
    requires 0 < k < |states| && Wide(states, n)
  {
    states[k - 1] == UnindexStep(c, states[k], Place(k - 1, n), Low(k))
  }

  ghost predicate MixPath(c: Cipher, states: seq<Registers>, n: nat) {
    Wide(states, n) && forall k :: 0 < k < |states| ==> Mixes(c, states, n, k)
  }

  ghost predicate UnmixPath(c: Cipher, states: seq<Registers>, n: nat) {
    Wide(states, n) && forall k :: 0 < k < |states| ==> Unmixes(c, states, n, k)
  }

  lemma PathOfW(c: Cipher, s: Registers) returns (states: seq<Registers>)
    requires |s.r| > 0
    ensures |states| == 6 * |s.r| + 1 && MixPath(c, states, |s.r|)
    ensures states[0] == s && states[6 * |s.r|] == W(c, s)
  {
    states := seq(6 * |s.r| + 1, k requires 0 <= k <= 6 * |s.r| => IndexSteps(c, s, k));
    IndexedIsW(c, s);
  }

  lemma PathBack(c: Cipher, s: Registers, steps: nat) returns (states: seq<Registers>)
    requires |s.r| > 0
    ensures |states| == steps + 1 && UnmixPath(c, states, |s.r|)
    ensures states[steps] == s && states[0] == UndoneTo(c, s, steps, 0)
  {
    states := seq(steps + 1, k requires 0 <= k <= steps => UndoneTo(c, s, steps, k));
  }

  /** One iteration of the inner loop of `computeW`; `base` is i * blockCount. */
  method MixAtPlace(c: Cipher, data: array<byte>, buf: array<byte>, base: nat, j: nat, ghost states: seq<Registers>, ghost n: nat)
    requires MixPath(c, states, n) && RoundAt(base, n) && j < n && base + j + 1 < |states| <= 0x1_0000_0000
    requires data != buf && Loaded(data[..], buf[..], states[base + j])
    modifies data, buf
    ensures Loaded(data[..], buf[..], states[base + j + 1])
  {
    PlaceFrom(base, j, n);
    var roundConst := base + j + 1;
    assert Mixes(c, states, n, roundConst);
    MixStep(c, data, buf, j, roundConst, states[base + j]);
  }

  /** The inner loop: one round over all places. */
  method MixRound(c: Cipher, data: array<byte>, buf: array<byte>, base: nat, ghost states: seq<Registers>, n: nat)
    requires MixPath(c, states, n) && RoundAt(base, n) && base + n < |states| <= 0x1_0000_0000
    requires data != buf && Loaded(data[..], buf[..], states[base])
    modifies data, buf
    ensures Loaded(data[..], buf[..], states[base + n])
  {
    var j := 0;
    while j < n
      invariant j <= n && Loaded(data[..], buf[..], states[base + j])
    {
      MixAtPlace(c, data, buf, base, j, states, n);
      j := j + 1;
    }
  }

  method MixRounds(c: Cipher, data: array<byte>, buf: array<byte>, ghost states: seq<Registers>, n: nat)
    requires MixPath(c, states, n) && |states| == 6 * n + 1 <= 0x1_0000_0000
    requires data != buf && Loaded(data[..], buf[..], states[0])
    modifies data, buf
    ensures Loaded(data[..], buf[..], states[6 * n])
  {
    RoundBaseIsProduct(6, n);
    var i, base := 0, 0;
    while i < 6
      invariant i <= 6 && base == RoundBase(i, n)
      invariant base < |states| && Loaded(data[..], buf[..], states[base])
    {
      RoundStart(i, n);
      MixRound(c, data, buf, base, states, n);
      i, base := i + 1, base + n;
    }
  }

  /** One iteration of the inner loop of `invertW`. */
  method UnmixAtPlace(c: Cipher, data: array<byte>, buf: array<byte>, base: nat, j: nat, ghost states: seq<Registers>, ghost n: nat)
    requires UnmixPath(c, states, n) && RoundAt(base, n) && j < n && base + j + 1 < |states|
    requires data != buf && Loaded(data[..], buf[..], states[base + j + 1])
    modifies data, buf
    ensures Loaded(data[..], buf[..], states[base + j])
  {
    PlaceFrom(base, j, n);
    var roundConst := base + j + 1;
    assert Unmixes(c, states, n, roundConst);
    UnmixStep(c, data, buf, j, roundConst, states[roundConst]);
  }

  /** The inner loop: one round over all places, backwards. */
  method UnmixRound(c: Cipher, data: array<byte>, buf: array<byte>, base: nat, ghost states: seq<Registers>, n: nat)
    requires UnmixPath(c, states, n) && RoundAt(base, n) && base + n < |states|
    requires data != buf && Loaded(data[..], buf[..], states[base + n])
    modifies data, buf
    ensures Loaded(data[..], buf[..], states[base])
  {
    var j := n;
    while j > 0
      invariant 0 <= j <= n && Loaded(data[..], buf[..], states[base + j])
    {
      j := j - 1;
      UnmixAtPlace(c, data, buf, base, j, states, n);
    }
  }

  method UnmixRounds(c: Cipher, data: array<byte>, buf: array<byte>, ghost states: seq<Registers>, n: nat)
    requires UnmixPath(c, states, n) && |states| == 6 * n + 1
    requires data != buf && Loaded(data[..], buf[..], states[6 * n])
    modifies data, buf
    ensures Loaded(data[..], buf[..], states[0])
  {
    RoundBaseIsProduct(6, n);
    var i, base := 6, 6 * n;
    while i > 0
      invariant 0 <= i <= 6 && base == RoundBase(i, n)
      invariant base < |states| && Loaded(data[..], buf[..], states[base])
    {
      RoundStart(i - 1, n);
      i, base := i - 1, base - n;
      UnmixRound(c, data, buf, base, states, n);
    }
  }

  /** The register is copied out of the buffer to the front of the data. */
  method StoreRegister(data: array<byte>, buf: array<byte>, ghost s: Registers)
    requires data != buf && Loaded(data[..], buf[..], s)
    modifies data
    ensures data[..] == Join(s)
  {
    Copy(data, 0, buf[..8]);
  }

  /** A fresh 16-byte buffer that starts with the first semiblock of the data. */
  method NewBuffer(data: array<byte>) returns (buf: array<byte>)
    requires data.Length % 8 == 0 && data.Length >= 8
    ensures fresh(buf) && buf.Length == 16 && Loaded(data[..], buf[..], Parse(data[..]))
  {
    buf := new byte[16](_ => 0);
    Copy(buf, 0, data[..8]);
    FlatSplit(data[8..]);
    assert data[..][8..] == data[8..];
  }

  /** `computeW`: W of the IV followed by the zero-padded key material. */
  method ComputeW(c: Cipher, iv: Bytes, key: Bytes) returns (r: Result<Bytes>)
    ensures r.Err? <==> |key| <= 8 || |key| > 0x7fff_ffff - 16 || |iv| != 8
    ensures r.Ok? ==> r.value == Join(W(c, Parse(iv + Padded(key))))
  {
    if |key| <= 8 || |key| > 0x7fff_ffff - 16 || |iv| != 8 {
      return Err;
    }
    var data := new byte[WrappingSize(|key|)](_ => 0);
    Copy(data, 0, iv);
    Copy(data, 8, key);
    assert data[..] == iv + Padded(key);
    ghost var s := Parse(data[..]);
    var buf := NewBuffer(data);
    ghost var states := PathOfW(c, s);
    MixRounds(c, data, buf, states, data.Length / 8 - 1);
    StoreRegister(data, buf, W(c, s));
    r := Ok(data[..]);
  }

  /**
   `invertW`: the steps of the inverse permutation with a four-byte counter. While the counter fits, that is the inverse
   of W; the caller's limit of 8200 bytes is far below.
   */
  method InvertW(c: Cipher, wrapped: Bytes) returns (r: Result<Bytes>)
    ensures r.Err? <==> |wrapped| < 24 || |wrapped| % 8 != 0
    ensures r.Ok? ==> r.value == Join(UndoneTo(c, Parse(wrapped), 6 * (|wrapped| / 8 - 1), 0))
    ensures r.Ok? && 6 * (|wrapped| / 8 - 1) < 0x1_0000_0000 ==> r.value == Join(InverseW(c, Parse(wrapped)))
  {
    if |wrapped| < 24 || |wrapped| % 8 != 0 {
      return Err;
    }
    var data := new byte[|wrapped|](_ => 0);
    Copy(data, 0, wrapped);
    assert data[..] == wrapped;
    ghost var s := Parse(data[..]);
    var buf := NewBuffer(data);
    ghost var states := PathBack(c, s, 6 * |s.r|);
    UnmixRounds(c, data, buf, states, data.Length / 8 - 1);
    StoreRegister(data, buf, UndoneTo(c, s, 6 * |s.r|, 0));
    if 6 * (|wrapped| / 8 - 1) < 0x1_0000_0000 {
      LowCounterSuffices(c, s, 6 * |s.r|, 0);
    }
    r := Ok(data[..]);
  }

  // ----- Wrap and Unwrap -----

  method Wrap(c: Cipher, data: Bytes) returns (r: Result<Bytes>)
    ensures r == WrapSpec(c, data)
  {
    if |data| < MIN_WRAP_SIZE {
      return Err;
    }
    if |data| > MAX_WRAP_SIZE {
      return Err;
    }
    var iv := IV_PREFIX + BigEndian(|data|, 4);
    r := ComputeW(c, iv, data);
  }

  lemma PrefixNumber(b: Bytes)
    requires |b| == 4
    ensures Number(b) == 0xA65959A6 <==> b == IV_PREFIX
  {
    var p := IV_PREFIX;
    assert p[..3][..2][..1] == [0xA6] && p[..3][..2] == [0xA6, 0x59] && p[..3] == [0xA6, 0x59, 0x59];
    assert Number([0xA6]) == 0xA6 && Number([0xA6, 0x59]) == 0xA659 && Number([0xA6, 0x59, 0x59]) == 0xA65959;
    assert Number(p) == 0xA65959A6;
    BigEndianOfNumber(b);
    BigEndianOfNumber(p);
  }

  /** The scan of the padding. */
  method ZeroFrom(b: Bytes, at: nat) returns (zero: bool)
    requires at <= |b|
    ensures zero <==> forall k :: at <= k < |b| ==> b[k] == 0
  {
    var i := at;
    while i < |b|
      invariant at <= i <= |b|
      invariant forall k :: at <= k < i ==> b[k] == 0
    {
      if b[i] != 0 {
        return false;
      }
      i := i + 1;
    }
    zero := true;
  }

  method Unwrap(c: Cipher, data: Bytes) returns (r: Result<Bytes>)
    ensures r == UnwrapSpec(c, data)
  {
    if |data| < WrappingSize(MIN_WRAP_SIZE) {
      return Err;
    }
    if |data| > WrappingSize(MAX_WRAP_SIZE) {
      return Err;
    }
    if |data| % 8 != 0 {
      return Err;
    }
    var inverted := InvertW(c, data);
    var unwrapped := inverted.value;
    PrefixNumber(unwrapped[..4]);
    if Number(unwrapped[..4]) != 0xA65959A6 {
      return Err;
    }
    var encodedSize := Number(unwrapped[4..8]);
    if encodedSize < 0 || WrappingSize(encodedSize) != |unwrapped| {
      return Err;
    }
    var padded := ZeroFrom(unwrapped, 8 + encodedSize);
    if !padded {
      return Err;
    }
    r := Ok(unwrapped[8..8 + encodedSize]);
  }
}
