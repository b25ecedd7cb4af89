/**
Whole runs of `Signatory.Sign` over the in-memory store (pkg/signatory/signatory.go:396-418).

Every signature is preceded by a watermark check of the same message. The check
runs under a lock; the vault call that follows does not, so any number of
approved requests may be waiting for the vault while other checks go on.
*/
module Signing {
  import opened Request
  import opened MemoryStore

  datatype Entry = Entry(pkh: string, m: Message)

  datatype Action =
    | Guard(e: Entry)  // IsSafeToSign
    | Vault(e: Entry)  // key.Sign of a message whose check has returned nil

  datatype State = State(store: Store, approved: set<Entry>, signed: seq<Entry>)

  const Init := State(map[], {}, [])

  function Step(s: State, a: Action, hash: Hash): (s': State) {
    match a
    case Guard(e) =>
      var (store, ok) := Check(s.store, hash, e.pkh, e.m);
      s.(store := store, approved := if ok then s.approved + {e} else s.approved)
    case Vault(e) =>
      if e in s.approved then s.(signed := s.signed + [e]) else s
  }

  function Run(s: State, acts: seq<Action>, hash: Hash): (s': State)
    decreases |acts|
  {
    if acts == [] then s else Run(Step(s, acts[0], hash), acts[1..], hash)
  }

  function Messages(acts: seq<Action>): set<Message> {
    set a | a in acts :: a.e.m
  }

  predicate SamePlace(a: Entry, b: Entry) {
    && a.m.Consensus? && b.m.Consensus?
    && a.pkh == b.pkh && a.m.chain == b.m.chain && a.m.kind == b.m.kind
    && a.m.level == b.m.level && a.m.round == b.m.round
  }

  /** No key signs two different messages at one (chain, kind, level, round). */
  ghost predicate NoDoubleSigning(signed: seq<Entry>) {
    forall a, b :: a in signed && b in signed && SamePlace(a, b) ==> a == b
  }

  // ----- the invariant of every run -----

  /** The entry is the one a stored watermark was made from. */
  predicate Backs(e: Entry, k: Key, w: Watermark, hash: Hash) {
    e.m.Consensus? && KeyOf(e.pkh, e.m) == k && NewWatermark(e.m, hash) == w
  }

  predicate CoveredBy(store: Store, e: Entry, hash: Hash) {
    e.m.Consensus? ==> KeyOf(e.pkh, e.m) in store && Covers(store[KeyOf(e.pkh, e.m)], NewWatermark(e.m, hash))
  }

  /** Each approved message is covered by what is stored, each stored watermark was approved, and no two share a place. */
  ghost predicate Guarded(store: Store, approved: set<Entry>, hash: Hash) {
    && (forall e :: e in approved ==> CoveredBy(store, e, hash))
    && (forall k :: k in store ==> exists e :: e in approved && Backs(e, k, store[k], hash))
    && (forall a, b :: a in approved && b in approved && SamePlace(a, b) ==> a == b)
  }

  ghost predicate Within(approved: set<Entry>, ms: set<Message>, win: Window) {
    forall e :: e in approved ==> e.m in ms && MessageIn(win, e.m)
  }

  ghost predicate Inv(s: State, hash: Hash, ms: set<Message>, win: Window) {
    Guarded(s.store, s.approved, hash) && Within(s.approved, ms, win) && forall e :: e in s.signed ==> e in s.approved
  }

  /** What a run may do: its messages lie in the window and the digest tells them apart. */
  ghost predicate Admissible(acts: seq<Action>, hash: Hash, ms: set<Message>, win: Window) {
    CollisionFree(hash, ms) && win.Narrow() && forall a :: a in acts ==> a.e.m in ms && MessageIn(win, a.e.m)
  }

  /** What is accepted either repeats the stored message or goes strictly past it. */
  lemma AcceptedRepeatsOrAdvances(s: State, e: Entry, hash: Hash, ms: set<Message>, win: Window)
    requires Inv(s, hash, ms, win) && Admissible([Guard(e)], hash, ms, win)
    requires e.m.Consensus? && KeyOf(e.pkh, e.m) in s.store && Check(s.store, hash, e.pkh, e.m).1
    ensures var w := s.store[KeyOf(e.pkh, e.m)];
            (e in s.approved && w == NewWatermark(e.m, hash)) || Above(NewWatermark(e.m, hash), w)
  {
    var k, w := KeyOf(e.pkh, e.m), NewWatermark(e.m, hash);
    assert Guard(e) in [Guard(e)];
    var x :| x in s.approved && Backs(x, k, s.store[k], hash);
    ValidateInWindow(win, w, s.store[k]);
    if !Above(w, s.store[k]) {
      assert hash(e.m) == hash(x.m);
    }
  }

  lemma AcceptedIsCoveringAndNew(s: State, e: Entry, x: Entry, hash: Hash, ms: set<Message>, win: Window)
    requires Inv(s, hash, ms, win) && Admissible([Guard(e)], hash, ms, win)
    requires Check(s.store, hash, e.pkh, e.m).1 && x in s.approved
    ensures CoveredBy(Check(s.store, hash, e.pkh, e.m).0, x, hash)
    ensures SamePlace(x, e) ==> x == e
  {
  }

  /** Every stored watermark is still that of an approved message. */
  lemma StoreStaysBacked(s: State, e: Entry, hash: Hash, ms: set<Message>, win: Window, k: Key)
    requires Inv(s, hash, ms, win) && Check(s.store, hash, e.pkh, e.m).1 && k in Check(s.store, hash, e.pkh, e.m).0
    ensures exists x :: x in s.approved + {e} && Backs(x, k, Check(s.store, hash, e.pkh, e.m).0[k], hash)
  {
    var store := Check(s.store, hash, e.pkh, e.m).0;
    if e.m.Consensus? && k == KeyOf(e.pkh, e.m) {
      assert e in s.approved + {e} && Backs(e, k, store[k], hash);
    } else {
      var x :| x in s.approved && Backs(x, k, s.store[k], hash);
      assert x in s.approved + {e} && Backs(x, k, store[k], hash);
    }
  }

  lemma GuardedAfter(s: State, e: Entry, hash: Hash, ms: set<Message>, win: Window)
    requires Inv(s, hash, ms, win) && Admissible([Guard(e)], hash, ms, win) && Check(s.store, hash, e.pkh, e.m).1
    ensures Guarded(Check(s.store, hash, e.pkh, e.m).0, s.approved + {e}, hash)
  {
    var store, approved := Check(s.store, hash, e.pkh, e.m).0, s.approved + {e};
    assert Guard(e) in [Guard(e)];
    forall x | x in approved
      ensures CoveredBy(store, x, hash)
    {
      if x in s.approved {
        AcceptedIsCoveringAndNew(s, e, x, hash, ms, win);
      }
    }
    forall a, b | a in approved && b in approved && SamePlace(a, b)
      ensures a == b
    {
      if a in s.approved && b !in s.approved {
        AcceptedIsCoveringAndNew(s, e, a, hash, ms, win);
      } else if b in s.approved && a !in s.approved {
        AcceptedIsCoveringAndNew(s, e, b, hash, ms, win);
      }
    }
    forall k | k in store
      ensures exists x :: x in approved && Backs(x, k, store[k], hash)
    {
      StoreStaysBacked(s, e, hash, ms, win, k);
    }
  }

  lemma GuardKeepsInv(s: State, e: Entry, hash: Hash, ms: set<Message>, win: Window)
    requires Inv(s, hash, ms, win) && Admissible([Guard(e)], hash, ms, win)
    ensures Inv(Step(s, Guard(e), hash), hash, ms, win)
  {
    assert Guard(e) in [Guard(e)];
    if Check(s.store, hash, e.pkh, e.m).1 {
      GuardedAfter(s, e, hash, ms, win);
    }
  }

  lemma StepKeepsInv(s: State, a: Action, hash: Hash, ms: set<Message>, win: Window)
    requires Inv(s, hash, ms, win) && Admissible([a], hash, ms, win)
    ensures Inv(Step(s, a, hash), hash, ms, win)
  {
    if a.Guard? {
      GuardKeepsInv(s, a.e, hash, ms, win);
    }
  }

  lemma {:induction false} RunKeepsInv(s: State, acts: seq<Action>, hash: Hash, ms: set<Message>, win: Window)
    requires Inv(s, hash, ms, win) && Admissible(acts, hash, ms, win)
    ensures Inv(Run(s, acts, hash), hash, ms, win)
    decreases |acts|
  {
    if acts != [] {
      StepKeepsInv(s, acts[0], hash, ms, win);
      RunKeepsInv(Step(s, acts[0], hash), acts[1..], hash, ms, win);
    }
  }

  /** Over every run from the empty store, with levels and rounds in a narrow window, nothing is signed twice. */
  lemma RunsNeverDoubleSign(acts: seq<Action>, hash: Hash, win: Window)
    requires Admissible(acts, hash, Messages(acts), win)
    ensures NoDoubleSigning(Run(Init, acts, hash).signed)
  {
    RunKeepsInv(Init, acts, hash, Messages(acts), win);
  }

  lemma StepNeverDecreases(s: State, a: Action, hash: Hash, ms: set<Message>, win: Window, k: Key)
    requires Inv(s, hash, ms, win) && Admissible([a], hash, ms, win) && k in s.store
    ensures k in Step(s, a, hash).store && Covers(Step(s, a, hash).store[k], s.store[k])
  {
    var e := a.e;
    if a.Guard? && e.m.Consensus? && KeyOf(e.pkh, e.m) == k && Check(s.store, hash, e.pkh, e.m).1 {
      AcceptedRepeatsOrAdvances(s, e, hash, ms, win);
    }
  }

  /** Along every run each stored watermark stays, or moves strictly up. */
  lemma {:induction false} WatermarksNeverDecrease(s: State, acts: seq<Action>, hash: Hash, ms: set<Message>, win: Window, k: Key)
    requires Inv(s, hash, ms, win) && Admissible(acts, hash, ms, win) && k in s.store
    ensures k in Run(s, acts, hash).store && Covers(Run(s, acts, hash).store[k], s.store[k])
    decreases |acts|
  {
    if acts != [] {
      StepKeepsInv(s, acts[0], hash, ms, win);
      StepNeverDecreases(s, acts[0], hash, ms, win, k);
      WatermarksNeverDecrease(Step(s, acts[0], hash), acts[1..], hash, ms, win, k);
    }
  }

  // ----- the window is exact -----

  predicate InWindow(acts: seq<Action>, win: Window) {
    forall a :: a in acts ==> MessageIn(win, a.e.m)
  }

  /** Every run whose levels and rounds lie in the window is safe, whatever the digest. */
  ghost predicate SafeForAllRuns(win: Window) {
    forall hash: Hash, acts: seq<Action> ::
      CollisionFree(hash, Messages(acts)) && InWindow(acts, win) ==> NoDoubleSigning(Run(Init, acts, hash).signed)
  }

  /** Check and sign the messages one after the other. */
  function Script(pkh: string, ms: seq<Message>): (acts: seq<Action>) {
    if ms == [] then [] else [Guard(Entry(pkh, ms[0])), Vault(Entry(pkh, ms[0]))] + Script(pkh, ms[1..])
  }

  lemma {:induction false} ScriptActions(pkh: string, ms: seq<Message>)
    ensures forall a :: a in Script(pkh, ms) ==> a.e.m in ms
  {
    if ms != [] {
      ScriptActions(pkh, ms[1..]);
    }
  }

  /** If each message validates against the one before it, the script signs them all. */
  lemma {:induction false} ScriptSigns(s: State, pkh: string, ms: seq<Message>, hash: Hash, k: Key)
    requires forall m :: m in ms ==> m.Consensus? && KeyOf(pkh, m) == k
    requires ms != [] && k in s.store ==> Validate(NewWatermark(ms[0], hash), s.store[k])
    requires forall i :: 0 <= i < |ms| - 1 ==> Validate(NewWatermark(ms[i + 1], hash), NewWatermark(ms[i], hash))
    ensures forall e :: e in s.signed ==> e in Run(s, Script(pkh, ms), hash).signed
    ensures forall m :: m in ms ==> Entry(pkh, m) in Run(s, Script(pkh, ms), hash).signed
    decreases |ms|
  {
    if ms != [] {
      var e := Entry(pkh, ms[0]);
      var acts := Script(pkh, ms);
      var s1 := Step(s, Guard(e), hash);
      var s2 := Step(s1, Vault(e), hash);
      assert acts[1..][1..] == Script(pkh, ms[1..]);
      assert Run(s, acts, hash) == Run(s1, acts[1..], hash) == Run(s2, acts[1..][1..], hash);
      assert e in s2.signed;
      ScriptSigns(s2, pkh, ms[1..], hash, k);
    }
  }

  function BodyDigest(m: Message): Digest {
    m.body
  }

  /** Five messages of which the first and the last share a place and all validate in turn defeat the guard. */
  lemma CycleDoubleSigns(win: Window, ms: seq<Message>)
    requires |ms| == 5 && forall m :: m in ms ==> m.Consensus? && m.chain == "chain" && m.kind == "block" && MessageIn(win, m)
    requires forall i, j :: 0 <= i < j < 5 ==> ms[i].body != ms[j].body
    requires forall i :: 0 <= i < 4 ==> Validate(NewWatermark(ms[i + 1], BodyDigest), NewWatermark(ms[i], BodyDigest))
    requires ms[0].level == ms[4].level && ms[0].round == ms[4].round
    ensures !SafeForAllRuns(win)
  {
    var hash: Hash := BodyDigest;
    var acts := Script("pkh", ms);
    ScriptActions("pkh", ms);
    ScriptSigns(Init, "pkh", ms, hash, Key("chain", "pkh", "block"));
    assert CollisionFree(hash, Messages(acts)) by {
      assert forall m :: m in Messages(acts) ==> m in ms;
    }
    var signed := Run(Init, acts, hash).signed;
    assert ms[0] in ms && ms[4] in ms;
    assert Entry("pkh", ms[0]) in signed && Entry("pkh", ms[4]) in signed;
    assert SamePlace(Entry("pkh", ms[0]), Entry("pkh", ms[4]));
    assert !NoDoubleSigning(signed);
  }

  function Around(lo: int32, hi: int32): (r: seq<int32>)
    requires hi - lo > 0x8000_0000
  {
    [hi, lo, lo + 0x4000_0000, lo + 0x8000_0000, hi]
  }

  lemma WideLevelsDoubleSign(win: Window)
    requires win.hiLevel - win.loLevel > 0x8000_0000 && win.loRound <= win.hiRound
    ensures !SafeForAllRuns(win)
  {
    var r := Around(win.loLevel, win.hiLevel);
    var b := ["a", "b", "c", "d", "e"];
    var ms := seq(5, i requires 0 <= i < 5 => Consensus("chain", "block", r[i], win.loRound, b[i]));
    CycleDoubleSigns(win, ms);
  }

  lemma WideRoundsDoubleSign(win: Window)
    requires win.hiRound - win.loRound > 0x8000_0000 && win.loLevel <= win.hiLevel
    ensures !SafeForAllRuns(win)
  {
    var r := Around(win.loRound, win.hiRound);
    var b := ["a", "b", "c", "d", "e"];
    var ms := seq(5, i requires 0 <= i < 5 => Consensus("chain", "block", win.loLevel, r[i], b[i]));
    CycleDoubleSigns(win, ms);
  }

  lemma NarrowIsSafe(win: Window)
    requires win.Narrow()
    ensures SafeForAllRuns(win)
  {
    forall hash: Hash, acts: seq<Action> | CollisionFree(hash, Messages(acts)) && InWindow(acts, win)
      ensures NoDoubleSigning(Run(Init, acts, hash).signed)
    {
      RunsNeverDoubleSign(acts, hash, win);
    }
  }

  /**
   The guard is safe for a (non-empty) window of levels and rounds if and only if neither side of the
   window is wider than 2^31. Non-negative values, the protocol's own, satisfy that.
   */
  lemma SafeIffNarrow(win: Window)
    requires win.loLevel <= win.hiLevel && win.loRound <= win.hiRound
    ensures SafeForAllRuns(win) <==> win.Narrow()
    ensures SafeForAllRuns(NonNegative)
  {
    NarrowIsSafe(NonNegative);
    if win.Narrow() {
      NarrowIsSafe(win);
    } else if win.hiLevel - win.loLevel > 0x8000_0000 {
      WideLevelsDoubleSign(win);
    } else {
      WideRoundsDoubleSign(win);
    }
  }
}
