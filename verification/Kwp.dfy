/**
AES Key Wrap with Padding as specified: the permutation W and its inverse (section 6.1 of
NIST SP 800-38F) and KWP (section 6.3; sections 3, 4.1 and 4.2 of RFC 5649), over any
permutation of 16-byte blocks. The loops of pkg/crypto/kwp/kwp.go are in KwpLoops.dfy.
*/
module Kwp {

  import opened ByteStrings

  type Semiblock = b: Bytes | |b| == 8 witness [0, 0, 0, 0, 0, 0, 0, 0]
  type Block = b: Bytes | |b| == 16 witness [0, 0, 0, 0, 0, 0, 0, 0, 0, 0, 0, 0, 0, 0, 0, 0]

  datatype Result<+T> = Ok(value: T) | Err

  /** A block cipher under some key. */
  datatype Cipher = Cipher(enc: Block -> Block, dec: Block -> Block)

  ghost predicate Permutation(c: Cipher) {
    (forall b :: c.dec(c.enc(b)) == b) && (forall b :: c.enc(c.dec(b)) == b)
  }

  function Xor(a: Semiblock, b: Semiblock): (r: Semiblock) {
    seq(8, i requires 0 <= i < 8 => Xor8(a[i], b[i]))
  }

  lemma XorTwice(a: Semiblock, b: Semiblock)
    ensures Xor(Xor(a, b), b) == a
  {
    forall i | 0 <= i < 8
      ensures Xor(Xor(a, b), b)[i] == a[i]
    {
      Xor8Twice(a[i], b[i]);
    }
  }

  // ----- the permutation W as a shift register -----

  /** The integrity register and the semiblocks of data. */
  datatype Registers = Registers(a: Semiblock, r: seq<Semiblock>)

  /** One encryption of the register with a semiblock, mixing in the step counter t. */
  function Mix(c: Cipher, a: Semiblock, x: Semiblock, t: nat): (r: (Semiblock, Semiblock)) {
    var b: Bytes := c.enc(a + x);
    (Xor(b[..8], BigEndian(t, 8)), b[8..])
  }

  function Unmix(c: Cipher, a: Semiblock, x: Semiblock, t: nat): (r: (Semiblock, Semiblock)) {
    var b: Bytes := c.dec(Xor(a, BigEndian(t, 8)) + x);
    (b[..8], b[8..])
  }

  lemma UnmixUndoesMix(c: Cipher, a: Semiblock, x: Semiblock, t: nat)
    requires Permutation(c)
    ensures var (a', x') := Mix(c, a, x, t); Unmix(c, a', x', t) == (a, x)
  {
    var b: Bytes := c.enc(a + x);
    XorTwice(b[..8], BigEndian(t, 8));
    assert b[..8] + b[8..] == b;
    assert (a + x)[..8] == a && (a + x)[8..] == x;
  }

  lemma MixUndoesUnmix(c: Cipher, a: Semiblock, x: Semiblock, t: nat)
    requires Permutation(c)
    ensures var (a', x') := Unmix(c, a, x, t); Mix(c, a', x', t) == (a, x)
  {
    var y: Bytes := Xor(a, BigEndian(t, 8));
    var b: Bytes := c.dec(y + x);
    XorTwice(a, BigEndian(t, 8));
    assert b[..8] + b[8..] == b;
    assert (y + x)[..8] == y && (y + x)[8..] == x;
  }

  /** Step t of W: the first semiblock is mixed with the register and moves to the end. */
  function ShiftStep(c: Cipher, s: Registers, t: nat): (s': Registers)
    requires |s.r| > 0
    ensures |s'.r| == |s.r|
  {
    var (a, x) := Mix(c, s.a, s.r[0], t);
    Registers(a, s.r[1..] + [x])
  }

  function ShiftSteps(c: Cipher, s: Registers, k: nat): (s': Registers)
    requires |s.r| > 0
    ensures |s'.r| == |s.r|
  {
    if k == 0 then s else ShiftStep(c, ShiftSteps(c, s, k - 1), k)
  }

  /** W on n + 1 semiblocks: 6n steps. */
  function W(c: Cipher, s: Registers): (s': Registers)
    requires |s.r| > 0
    ensures |s'.r| == |s.r|
  {
    ShiftSteps(c, s, 6 * |s.r|)
  }

  // ----- the same permutation with the data in place -----

  /** The place that step k + 1 works on: 0, 1, ..., n - 1 over and over. */
  function Place(k: nat, n: nat): (j: nat)
    requires n > 0
    ensures j < n
  {
    if k == 0 then 0 else var j := Place(k - 1, n) + 1; if j == n then 0 else j
  }

  lemma {:induction false} PlaceInRound(i: nat, j: nat, n: nat)
    requires j < n
    ensures Place(i * n + j, n) == j
    decreases i, j
  {
    if j > 0 {
      PlaceInRound(i, j - 1, n);
      assert i * n + j - 1 == i * n + (j - 1);
    } else if i > 0 {
      PlaceInRound(i - 1, n - 1, n);
      assert i * n == (i - 1) * n + (n - 1) + 1;
    }
  }

  /** The semiblock at place j is mixed with the register and stays where it is. */
  function IndexStep(c: Cipher, s: Registers, j: nat, t: nat): (s': Registers)
    requires j < |s.r|
    ensures |s'.r| == |s.r|
  {
    var (a, x) := Mix(c, s.a, s.r[j], t);
    Registers(a, s.r[j := x])
  }

  function IndexSteps(c: Cipher, s: Registers, k: nat): (s': Registers)
    requires |s.r| > 0
    ensures |s'.r| == |s.r|
  {
    if k == 0 then s else IndexStep(c, IndexSteps(c, s, k - 1), Place(k - 1, |s.r|), k)
  }

  function Rotate(r: seq<Semiblock>, j: nat): (r': seq<Semiblock>)
    requires j <= |r|
  {
    r[j..] + r[..j]
  }

  lemma RotateStep(c: Cipher, s: Registers, j: nat, t: nat)
    requires j < |s.r|
    ensures var s' := IndexStep(c, s, j, t);
            ShiftStep(c, Registers(s.a, Rotate(s.r, j)), t) == Registers(s'.a, Rotate(s'.r, if j + 1 == |s.r| then 0 else j + 1))
  {
  }

  /** After k steps the shift register is the in-place data rotated by k places. */
  lemma {:induction false} ShiftIsRotatedIndex(c: Cipher, s: Registers, k: nat)
    requires |s.r| > 0
    ensures var v := IndexSteps(c, s, k);
            ShiftSteps(c, s, k) == Registers(v.a, Rotate(v.r, Place(k, |s.r|)))
  {
    if k == 0 {
      assert Rotate(s.r, 0) == s.r;
    } else {
      ShiftIsRotatedIndex(c, s, k - 1);
      RotateStep(c, IndexSteps(c, s, k - 1), Place(k - 1, |s.r|), k);
    }
  }

  /** 6n steps in place compute W: the equivalence of section 2.2.1 of RFC 3394. */
  lemma IndexedIsW(c: Cipher, s: Registers)
    requires |s.r| > 0
    ensures IndexSteps(c, s, 6 * |s.r|) == W(c, s)
  {
    ShiftIsRotatedIndex(c, s, 6 * |s.r|);
    PlaceInRound(6, 0, |s.r|);
    var v := IndexSteps(c, s, 6 * |s.r|);
    assert Rotate(v.r, 0) == v.r;
  }

  lemma {:induction false} PlaceIsRemainder(k: nat, n: nat)
    requires n > 0
    ensures Place(k, n) == k % n
  {
    if k == 0 {
      QuotientOf(n, 0, 0);
    } else {
      PlaceIsRemainder(k - 1, n);
      NextPlace(k - 1, n);
    }
  }

  lemma NextPlace(k: nat, n: nat)
    requires n > 0 && Place(k, n) == k % n
    ensures Place(k + 1, n) == (k + 1) % n
  {
    NextRemainder(k, n);
  }

  lemma NextRemainder(k: nat, n: nat)
    requires n > 0
    ensures (k + 1) % n == if k % n + 1 == n then 0 else k % n + 1
  {
    var q, r := k / n, k % n;
    Division(k, n);
    if r + 1 == n {
      assert n * (q + 1) == n * q + n;
      QuotientOf(n, q + 1, 0);
    } else {
      QuotientOf(n, q, r + 1);
    }
  }

  /** The left half with the 64-bit counter added by exclusive or, byte by byte. */
  ghost predicate Counted(a: Semiblock, b: Block, t: nat) {
    forall i :: 0 <= i < 8 ==> CountedAt(a, b, t, i)
  }

  ghost predicate CountedAt(a: Semiblock, b: Block, t: nat, i: nat)
    requires i < 8
  {
    Pow256(7 - i) > 0 && a[i] == Xor8(b[i], t / Pow256(7 - i) % 256)
  }

  lemma MixIsCounted(b: Block, t: nat)
    ensures Counted(Xor(b[..8], BigEndian(t, 8)), b, t)
  {
    var a := Xor(b[..8], BigEndian(t, 8));
    forall i | 0 <= i < 8
      ensures CountedAt(a, b, t, i)
    {
      BigEndianAt(t, 8, i);
      assert a[i] == Xor8(b[..8][i], BigEndian(t, 8)[i]);
    }
  }

  /**
   Step t as the standard writes it, with the data in place: the register and semiblock j are encrypted together, the
   counter t is added to the left half, which is the new register, and the right half replaces the semiblock.
   */
  ghost predicate StandardStep(c: Cipher, s: Registers, s': Registers, j: nat, t: nat) {
    && j < |s.r| == |s'.r|
    && var b: Block := c.enc(s.a + s.r[j]);
       Counted(s'.a, b, t) && s'.r[j] == b[8..] && forall k :: 0 <= k < |s.r| && k != j ==> s'.r[k] == s.r[k]
  }

  lemma IndexStepIsStandard(c: Cipher, s: Registers, j: nat, t: nat)
    requires j < |s.r|
    ensures StandardStep(c, s, IndexStep(c, s, j, t), j, t)
  {
    MixIsCounted(c.enc(s.a + s.r[j]), t);
  }

  /** W is the 6n steps of the standard one after the other, step t at place (t - 1) mod n. */
  lemma WIsStandard(c: Cipher, s: Registers) returns (states: seq<Registers>)
    requires |s.r| > 0
    ensures |states| == 6 * |s.r| + 1 && states[0] == s && states[6 * |s.r|] == W(c, s)
    ensures forall t :: 0 < t < |states| ==> StandardStep(c, states[t - 1], states[t], (t - 1) % |s.r|, t)
  {
    states := seq(6 * |s.r| + 1, k requires 0 <= k <= 6 * |s.r| => IndexSteps(c, s, k));
    IndexedIsW(c, s);
    forall t | 0 < t < |states|
      ensures StandardStep(c, states[t - 1], states[t], (t - 1) % |s.r|, t)
    {
      PlaceIsRemainder(t - 1, |s.r|);
      IndexStepIsStandard(c, states[t - 1], Place(t - 1, |s.r|), t);
    }
  }

  // ----- the inverse -----

  function UnindexStep(c: Cipher, s: Registers, j: nat, t: nat): (s': Registers)
    requires j < |s.r|
    ensures |s'.r| == |s.r|
  {
    var (a, x) := Unmix(c, s.a, s.r[j], t);
    Registers(a, s.r[j := x])
  }

  /** Undoes steps k, k - 1, ..., 1. */
  function UnindexSteps(c: Cipher, s: Registers, k: nat): (s': Registers)
    requires |s.r| > 0
    ensures |s'.r| == |s.r|
    decreases k
  {
    if k == 0 then s else UnindexSteps(c, UnindexStep(c, s, Place(k - 1, |s.r|), k), k - 1)
  }

  function InverseW(c: Cipher, s: Registers): (s': Registers)
    requires |s.r| > 0
    ensures |s'.r| == |s.r|
  {
    UnindexSteps(c, s, 6 * |s.r|)
  }

  lemma {:induction false} UnindexStepsUndo(c: Cipher, s: Registers, k: nat)
    requires Permutation(c) && |s.r| > 0
    ensures UnindexSteps(c, IndexSteps(c, s, k), k) == s
  {
    if k > 0 {
      var v, j := IndexSteps(c, s, k - 1), Place(k - 1, |s.r|);
      UnmixUndoesMix(c, v.a, v.r[j], k);
      assert UnindexStep(c, IndexStep(c, v, j, k), j, k) == v;
      UnindexStepsUndo(c, s, k - 1);
    }
  }

  lemma {:induction false} IndexStepsUndo(c: Cipher, s: Registers, k: nat)
    requires Permutation(c) && |s.r| > 0
    ensures IndexSteps(c, UnindexSteps(c, s, k), k) == s
    decreases k
  {
    if k > 0 {
      var j := Place(k - 1, |s.r|);
      MixUndoesUnmix(c, s.a, s.r[j], k);
      assert IndexStep(c, UnindexStep(c, s, j, k), j, k) == s;
      IndexStepsUndo(c, UnindexStep(c, s, j, k), k - 1);
    }
  }

  /** W is a bijection on n + 1 semiblocks, and `InverseW` is its inverse on both sides. */
  lemma InverseOfW(c: Cipher, s: Registers)
    requires Permutation(c) && |s.r| > 0
    ensures InverseW(c, W(c, s)) == s
    ensures W(c, InverseW(c, s)) == s
  {
    IndexedIsW(c, s);
    UnindexStepsUndo(c, s, 6 * |s.r|);
    IndexedIsW(c, InverseW(c, s));
    IndexStepsUndo(c, s, 6 * |s.r|);
  }

  // ----- KWP -----

  const MIN_WRAP_SIZE := 16
  const MAX_WRAP_SIZE := 8192
  const IV_PREFIX: Bytes := [0xA6, 0x59, 0x59, 0xA6]

  function WrappingSize(m: nat): (r: nat) {
    m + (7 - (m + 7) % 8) + 8
  }

  /** A length has that wrapping size if and only if it meets the bound of section 3 of RFC 5649. */
  lemma WrappingSizeIff(m: nat, n: nat)
    ensures WrappingSize(m) == 8 * (n + 1) <==> 8 * (n - 1) < m <= 8 * n
    ensures WrappingSize(m) % 8 == 0 && WrappingSize(m) >= m + 8
  {
  }

  // ----- bytes and semiblocks -----

  function Flat(r: seq<Semiblock>): (b: Bytes)
    ensures |b| == 8 * |r|
  {
    seq(8 * |r|, i requires 0 <= i < 8 * |r| => r[i / 8][i % 8])
  }

  function Split(b: Bytes): (r: seq<Semiblock>)
    requires |b| % 8 == 0
    ensures |r| == |b| / 8
  {
    seq(|b| / 8, i requires 0 <= i < |b| / 8 => b[8 * i..8 * i + 8])
  }

  lemma FlatSplit(b: Bytes)
    requires |b| % 8 == 0
    ensures Flat(Split(b)) == b
  {
  }

  lemma SplitFlat(r: seq<Semiblock>)
    ensures Split(Flat(r)) == r
  {
    var b := Flat(r);
    forall j | 0 <= j < |r|
      ensures Split(b)[j] == r[j]
    {
      forall i | 0 <= i < 8
        ensures b[8 * j..8 * j + 8][i] == r[j][i]
      {
        assert (8 * j + i) / 8 == j && (8 * j + i) % 8 == i;
      }
      assert b[8 * j..8 * j + 8] == r[j];
    }
  }

  function Join(s: Registers): (d: Bytes)
    ensures |d| == 8 + 8 * |s.r|
  {
    s.a + Flat(s.r)
  }

  function Parse(d: Bytes): (s: Registers)
    requires |d| % 8 == 0 && |d| >= 8
    ensures |s.r| == |d| / 8 - 1
  {
    Registers(d[..8], Split(d[8..]))
  }

  lemma ParseJoin(s: Registers)
    ensures Parse(Join(s)) == s
  {
    SplitFlat(s.r);
    assert Join(s)[..8] == s.a && Join(s)[8..] == Flat(s.r);
  }

  lemma JoinParse(d: Bytes)
    requires |d| % 8 == 0 && |d| >= 8
    ensures Join(Parse(d)) == d
  {
  }

  // ----- wrapping and unwrapping -----

  function Zeros(n: nat): (r: Bytes)
    ensures |r| == n
  {
    seq(n, _ => 0)
  }

  function Padded(x: Bytes): (r: Bytes)
    ensures |r| == WrappingSize(|x|) - 8
  {
    x + Zeros(WrappingSize(|x|) - 8 - |x|)
  }

  function Iv(m: nat): (r: Semiblock) {
    IV_PREFIX + BigEndian(m, 4)
  }

  /** What W is applied to: the IV with the length, then the padded key material. */
  function Plain(x: Bytes): (d: Bytes)
    ensures |d| == WrappingSize(|x|)
  {
    Iv(|x|) + Padded(x)
  }

  /** The ciphertext the standard assigns to key material `x`. */
  function Wrapping(c: Cipher, x: Bytes): (r: Bytes)
    requires |x| > 0
    ensures |r| == WrappingSize(|x|)
  {
    Join(W(c, Parse(Plain(x))))
  }

  function WrapSpec(c: Cipher, x: Bytes): (r: Result<Bytes>) {
    if MIN_WRAP_SIZE <= |x| <= MAX_WRAP_SIZE then Ok(Wrapping(c, x)) else Err
  }

  /** What is recovered from the output of the inverse permutation, if the checks pass. */
  function Checked(d: Bytes): (r: Result<Bytes>)
    requires |d| >= 8
  {
    var m := Number(d[4..8]);
    if d[..4] == IV_PREFIX && WrappingSize(m) == |d| && forall i :: 8 + m <= i < |d| ==> d[i] == 0
    then Ok(d[8..8 + m])
    else Err
  }

  predicate WrappedSize(n: nat) {
    WrappingSize(MIN_WRAP_SIZE) <= n <= WrappingSize(MAX_WRAP_SIZE) && n % 8 == 0
  }

  function UnwrapSpec(c: Cipher, d: Bytes): (r: Result<Bytes>) {
    if WrappedSize(|d|) then Checked(Join(InverseW(c, Parse(d)))) else Err
  }

  /** The input of W for key material `x`, byte by byte. */
  lemma PlainLayout(x: Bytes)
    requires |x| < 0x1_0000_0000
    ensures var d := Plain(x);
            && |d| % 8 == 0 && |x| + 8 <= |d| < |x| + 16
            && d[..4] == [0xA6, 0x59, 0x59, 0xA6]
            && d[4] == |x| / 0x100_0000 && d[5] == |x| / 0x1_0000 % 256 && d[6] == |x| / 0x100 % 256 && d[7] == |x| % 256
            && d[8..8 + |x|] == x
            && forall i :: 8 + |x| <= i < |d| ==> d[i] == 0
  {
    var d, n := Plain(x), |x|;
    assert d[4..8] == BigEndian(n, 4);
    FourBytes(n);
  }

  /** Registers are the consecutive semiblocks of their bytes. */
  lemma JoinLayout(s: Registers, j: nat)
    requires j < |s.r|
    ensures Join(s)[..8] == s.a && Join(s)[8 + 8 * j..16 + 8 * j] == s.r[j]
  {
    SplitFlat(s.r);
    assert Join(s)[8..] == Flat(s.r);
    assert Split(Flat(s.r))[j] == Flat(s.r)[8 * j..8 * j + 8];
    assert Join(s)[8 + 8 * j..16 + 8 * j] == Join(s)[8..][8 * j..8 * j + 8];
  }

  /** Keys of 16 to 8192 bytes are wrapped, as W of that input; all others are refused. */
  lemma WrapIff(c: Cipher, x: Bytes)
    ensures WrapSpec(c, x).Ok? <==> 16 <= |x| <= 8192
    ensures WrapSpec(c, x).Ok? ==> Parse(WrapSpec(c, x).value) == W(c, Parse(Plain(x)))
  {
    if 16 <= |x| <= 8192 {
      ParseJoin(W(c, Parse(Plain(x))));
    }
  }

  // ----- unwrapping recovers exactly the wrappings -----

  lemma CheckedPlain(x: Bytes)
    requires |x| < 0x1_0000_0000
    ensures Checked(Plain(x)) == Ok(x)
  {
    var d := Plain(x);
    assert Pow256(4) == 0x1_0000_0000;
    NumberOfBigEndian(|x|, 4);
    assert d[..4] == IV_PREFIX && d[4..8] == BigEndian(|x|, 4);
    assert d[8..8 + |x|] == x;
  }

  lemma PlainChecked(d: Bytes)
    requires |d| >= 8 && Checked(d).Ok?
    ensures Plain(Checked(d).value) == d && |Checked(d).value| < 0x1_0000_0000
  {
    var x := Checked(d).value;
    BigEndianOfNumber(d[4..8]);
    assert Pow256(4) == 0x1_0000_0000;
    assert |x| == Number(d[4..8]);
    assert d[8..] == Padded(x);
    assert d == d[..4] + d[4..8] + d[8..];
  }

  lemma InverseOfWrapping(c: Cipher, x: Bytes)
    requires Permutation(c) && |x| > 0
    ensures Join(InverseW(c, Parse(Wrapping(c, x)))) == Plain(x)
  {
    var s := Parse(Plain(x));
    ParseJoin(W(c, s));
    InverseOfW(c, s);
    JoinParse(Plain(x));
  }

  lemma WrappingUnwraps(c: Cipher, x: Bytes)
    requires Permutation(c) && 9 <= |x| <= MAX_WRAP_SIZE
    ensures UnwrapSpec(c, Wrapping(c, x)) == Ok(x)
  {
    InverseOfWrapping(c, x);
    CheckedPlain(x);
  }

  lemma UnwrappedRewraps(c: Cipher, d: Bytes)
    requires Permutation(c) && UnwrapSpec(c, d).Ok?
    ensures var x := UnwrapSpec(c, d).value;
            9 <= |x| <= MAX_WRAP_SIZE && d == Wrapping(c, x)
  {
    var s := InverseW(c, Parse(d));
    PlainChecked(Join(s));
    ParseJoin(s);
    InverseOfW(c, Parse(d));
    JoinParse(d);
  }

  /** `Unwrap` accepts exactly the wrappings of 9 to 8192 bytes, and gives back what was wrapped. */
  lemma UnwrapExact(c: Cipher, d: Bytes, x: Bytes)
    requires Permutation(c)
    ensures UnwrapSpec(c, d) == Ok(x) <==> 9 <= |x| <= 8192 && d == Wrapping(c, x)
  {
    if 9 <= |x| <= MAX_WRAP_SIZE {
      WrappingUnwraps(c, x);
    }
    if UnwrapSpec(c, d).Ok? {
      UnwrappedRewraps(c, d);
    }
  }

  /** Unwrapping undoes wrapping, for every key of 16 to 8192 bytes. */
  lemma RoundTrip(c: Cipher, x: Bytes)
    requires Permutation(c) && 16 <= |x| <= 8192
    ensures WrapSpec(c, x).Ok? && UnwrapSpec(c, WrapSpec(c, x).value) == Ok(x)
  {
    UnwrapExact(c, Wrapping(c, x), x);
  }

  /** Wrapping what was unwrapped gives the ciphertext back if and only if the key is not shorter than 16 bytes. */
  lemma RewrapIff(c: Cipher, d: Bytes)
    requires Permutation(c) && UnwrapSpec(c, d).Ok?
    ensures var x := UnwrapSpec(c, d).value;
            WrapSpec(c, x) == Ok(d) <==> |x| >= 16
  {
    UnwrapExact(c, d, UnwrapSpec(c, d).value);
  }

  /** Keys of 9 to 15 bytes can be unwrapped although `Wrap` refuses to wrap them. */
  lemma ShortKeysUnwrap(c: Cipher, x: Bytes)
    requires Permutation(c) && 9 <= |x| < 16
    ensures WrapSpec(c, x).Err? && UnwrapSpec(c, Wrapping(c, x)) == Ok(x)
  {
    UnwrapExact(c, Wrapping(c, x), x);
  }
}
