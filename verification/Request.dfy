/**
Watermarks and their comparison, as in pkg/signatory/request/request.go.

Levels and rounds are Go `int32` values, so the subtraction in `Validate` wraps
around. The lemmas at the end say exactly when the wrapped comparison is the
lexicographic order on (level, round).
*/
module Request {
  import opened Options

  type int32 = x: int | -0x8000_0000 <= x < 0x8000_0000

  type Digest = string

  /** A signing request after decoding: a consensus message carries a watermark, any other one does not. */
  datatype Message =
    | Consensus(chain: string, kind: string, level: int32, round: int32, body: string)
    | Unguarded(body: string)

  /** What a backend stores a watermark under. */
  datatype Key = Key(chain: string, pkh: string, kind: string)

  datatype Watermark = Watermark(level: int32, round: int32, hash: Option<Digest>)

  type Store = map<Key, Watermark>

  type Hash = Message -> Digest

  function KeyOf(pkh: string, m: Message): (k: Key)
    requires m.Consensus?
  {
    Key(m.chain, pkh, m.kind)
  }

  function NewWatermark(m: Message, hash: Hash): (w: Watermark)
    requires m.Consensus?
  {
    Watermark(m.level, m.round, Some(hash(m)))
  }

  /** Two's complement subtraction of 32-bit integers. */
  function Sub32(a: int32, b: int32): (d: int32)
    ensures (d - (a - b)) % 0x1_0000_0000 == 0
  {
    if a - b >= 0x8000_0000 then a - b - 0x1_0000_0000
    else if a - b < -0x8000_0000 then a - b + 0x1_0000_0000
    else a - b
  }

  predicate HashMatch(w: Watermark, stored: Watermark) {
    w.hash.Some? && stored.hash.Some? && w.hash.value == stored.hash.value
  }

  predicate Validate(w: Watermark, stored: Watermark) {
    if HashMatch(w, stored) then true
    else
      var d := Sub32(w.level, stored.level);
      var diff := if d == 0 then Sub32(w.round, stored.round) else d;
      diff > 0
  }

  // ----- what the comparison is for -----

  /** The strict lexicographic order on (level, round). */
  predicate Above(w: Watermark, v: Watermark) {
    w.level > v.level || (w.level == v.level && w.round > v.round)
  }

  /** `w` is past `v`, or is `v` itself. */
  predicate Covers(w: Watermark, v: Watermark) {
    Above(w, v) || w == v
  }

  /** The exact difference that decides the comparison. */
  function Decisive(w: Watermark, v: Watermark): int {
    if w.level != v.level then w.level - v.level else w.round - v.round
  }

  /** `Validate` computes the lexicographic order if and only if the deciding difference fits an int32. */
  lemma ValidateIsLexicographicIff(w: Watermark, stored: Watermark)
    requires !HashMatch(w, stored)
    ensures (Validate(w, stored) <==> Above(w, stored)) <==> -0x8000_0000 <= Decisive(w, stored) < 0x8000_0000
  {
  }

  /** It never accepts what is not above if and only if the difference is not below the least int32. */
  lemma ValidateIsSoundIff(w: Watermark, stored: Watermark)
    requires !HashMatch(w, stored)
    ensures (Validate(w, stored) ==> Above(w, stored)) <==> -0x8000_0000 <= Decisive(w, stored)
  {
  }

  // ----- ranges of levels and rounds -----

  /** The levels and rounds a deployment sees: the protocol's are [0, 2^31) for both. */
  datatype Window = Window(loLevel: int32, hiLevel: int32, loRound: int32, hiRound: int32) {
    predicate Holds(level: int32, round: int32) {
      loLevel <= level <= hiLevel && loRound <= round <= hiRound
    }

    /** Narrow enough that no accepted difference is a wrapped one. */
    predicate Narrow() {
      hiLevel - loLevel <= 0x8000_0000 && hiRound - loRound <= 0x8000_0000
    }
  }

  const NonNegative := Window(0, 0x7fff_ffff, 0, 0x7fff_ffff)

  predicate WatermarkIn(win: Window, w: Watermark) {
    win.Holds(w.level, w.round)
  }

  predicate MessageIn(win: Window, m: Message) {
    m.Consensus? ==> win.Holds(m.level, m.round)
  }

  lemma ValidateInWindow(win: Window, w: Watermark, stored: Watermark)
    requires win.Narrow() && WatermarkIn(win, w) && WatermarkIn(win, stored)
    requires Validate(w, stored)
    ensures HashMatch(w, stored) || Above(w, stored)
  {
  }

  /** With non-negative levels and rounds the comparison is exactly the lexicographic order. */
  lemma ValidateNonNegative(w: Watermark, stored: Watermark)
    requires WatermarkIn(NonNegative, w) && WatermarkIn(NonNegative, stored)
    ensures Validate(w, stored) <==> HashMatch(w, stored) || Above(w, stored)
  {
  }

  /** The digest tells the given messages apart. */
  ghost predicate CollisionFree(hash: Hash, ms: set<Message>) {
    forall a, b :: a in ms && b in ms && hash(a) == hash(b) ==> a == b
  }
}
