/**
Whole runs of signing calls over the DynamoDB table of pkg/signatory/watermark/aws.go, with
any number of signers. A put can reach the table with its reply lost, reach it long after
its caller has been told that it failed, and reach it again when the SDK repeats it.
*/
module TableRuns {
  import opened Request
  import opened MemoryStore
  import opened ConditionalPut
  import Signing

  type Entry = Signing.Entry

  /** A guarded call and its answer; `at` is the number of puts that had reached the table by then. */
  datatype Answer = Answer(e: Entry, ok: bool, at: nat)

  datatype State = State(items: Store, hist: seq<Put>, calls: seq<Answer>)

  const Init := State(map[], [], [])

  datatype Action =
    | Ask(e: Entry, fate: Fate)  // IsSafeToSign of a guarded message, with what becomes of its put
    | Arrive(i: nat)             // the put of an earlier call reaches the table, late or once more

  /** The put of call `i` reaches the table. */
  function Reached(s: State, i: nat, k: Key, w: Watermark): (s': State) {
    s.(items := CondPut(s.items, k, w).0, hist := s.hist + [Put(i, k, w, Condition(s.items, k, w))])
  }

  function Step(s: State, a: Action, hash: Hash): (s': State) {
    match a
    case Ask(e, fate) =>
      if e.m.Unguarded? then s
      else
        var k, w := KeyOf(e.pkh, e.m), NewWatermark(e.m, hash);
        var s' := if fate.RequestLost? then s else Reached(s, |s.calls|, k, w);
        s'.(calls := s.calls + [Answer(e, Served(s.items, k, w, fate).1, |s.hist|)])
    case Arrive(i) =>
      if i < |s.calls| && s.calls[i].e.m.Consensus? then Reached(s, i, KeyOf(s.calls[i].e.pkh, s.calls[i].e.m), NewWatermark(s.calls[i].e.m, hash))
      else s
  }

  function Run(s: State, acts: seq<Action>, hash: Hash): (s': State)
    decreases |acts|
  {
    if acts == [] then s else Run(Step(s, acts[0], hash), acts[1..], hash)
  }

  lemma RunOne(s: State, a: Action, hash: Hash)
    ensures Run(s, [a], hash) == Step(s, a, hash)
  {
  }

  // ----- the invariant -----

  /** A call that was told yes is the put at its place, which succeeded. */
  predicate Backed(hist: seq<Put>, i: nat, a: Answer, hash: Hash) {
    && a.e.m.Consensus? && a.at <= |hist|
    && (a.ok ==> a.at < |hist| && hist[a.at] == Put(i, KeyOf(a.e.pkh, a.e.m), NewWatermark(a.e.m, hash), true))
  }

  /** Earlier calls are at earlier places. */
  predicate InOrder(calls: seq<Answer>) {
    forall i, j :: 0 <= i < j < |calls| ==> calls[i].at <= calls[j].at && (calls[i].ok ==> calls[i].at < calls[j].at)
  }

  ghost predicate Inv(s: State, hash: Hash) {
    && Legal(s.hist) && Replay(s.hist) == s.items
    && (forall i :: 0 <= i < |s.calls| ==> Backed(s.hist, i, s.calls[i], hash))
    && InOrder(s.calls)
  }

  lemma ReachedKeepsInv(s: State, i: nat, k: Key, w: Watermark, hash: Hash)
    requires Inv(s, hash)
    ensures Inv(Reached(s, i, k, w), hash)
  {
    ExtendHistory(s.hist, Put(i, k, w, Condition(s.items, k, w)));
  }

  lemma AnswerKeepsInv(s: State, a: Answer, hash: Hash)
    requires Inv(s, hash) && Backed(s.hist, |s.calls|, a, hash)
    requires forall i :: 0 <= i < |s.calls| ==> s.calls[i].at <= a.at && (s.calls[i].ok ==> s.calls[i].at < a.at)
    ensures Inv(s.(calls := s.calls + [a]), hash)
  {
  }

  lemma StepKeepsInv(s: State, a: Action, hash: Hash)
    requires Inv(s, hash)
    ensures Inv(Step(s, a, hash), hash)
  {
    match a
    case Arrive(i) =>
      if i < |s.calls| && s.calls[i].e.m.Consensus? {
        ReachedKeepsInv(s, i, KeyOf(s.calls[i].e.pkh, s.calls[i].e.m), NewWatermark(s.calls[i].e.m, hash), hash);
      }
    case Ask(e, fate) =>
      if e.m.Consensus? {
        var k, w := KeyOf(e.pkh, e.m), NewWatermark(e.m, hash);
        ReachedKeepsInv(s, |s.calls|, k, w, hash);
        var s' := if fate.RequestLost? then s else Reached(s, |s.calls|, k, w);
        assert forall i :: 0 <= i < |s.calls| ==> Backed(s.hist, i, s.calls[i], hash);
        AnswerKeepsInv(s', Answer(e, Served(s.items, k, w, fate).1, |s.hist|), hash);
      }
  }

  lemma {:induction false} RunKeepsInv(s: State, acts: seq<Action>, hash: Hash)
    requires Inv(s, hash)
    ensures Inv(Run(s, acts, hash), hash)
    decreases |acts|
  {
    if acts != [] {
      StepKeepsInv(s, acts[0], hash);
      RunKeepsInv(Step(s, acts[0], hash), acts[1..], hash);
    }
  }

  // ----- what that gives -----

  /** The table stays at or above every approval. */
  lemma TableCoversApprovals(acts: seq<Action>, hash: Hash, i: nat)
    requires var s := Run(Init, acts, hash); i < |s.calls| && s.calls[i].ok
    ensures var s := Run(Init, acts, hash);
            var e := s.calls[i].e;
            e.m.Consensus? && KeyOf(e.pkh, e.m) in s.items && Covers(s.items[KeyOf(e.pkh, e.m)], NewWatermark(e.m, hash))
  {
    RunKeepsInv(Init, acts, hash);
    var s := Run(Init, acts, hash);
    assert Backed(s.hist, i, s.calls[i], hash);
    TableIsHighest(s.hist, s.calls[i].at);
  }

  /**
   Over every run, for every digest: approvals under one key strictly increase in (level, round), so no place is approved
   twice, not even for the same message.
   */
  lemma TableRunsSafe(acts: seq<Action>, hash: Hash, i: nat, j: nat)
    requires i < j < |Run(Init, acts, hash).calls|
    requires var s := Run(Init, acts, hash);
             && s.calls[i].ok && s.calls[j].ok && s.calls[i].e.m.Consensus? && s.calls[j].e.m.Consensus?
             && KeyOf(s.calls[i].e.pkh, s.calls[i].e.m) == KeyOf(s.calls[j].e.pkh, s.calls[j].e.m)
    ensures var s := Run(Init, acts, hash);
            var a, b := s.calls[i].e, s.calls[j].e;
            Above(NewWatermark(b.m, hash), NewWatermark(a.m, hash)) && !Signing.SamePlace(a, b)
  {
    RunKeepsInv(Init, acts, hash);
    var s := Run(Init, acts, hash);
    SuccessesIncrease(s.hist, s.calls[i].at, s.calls[j].at);
  }

  ghost predicate Succeeded(s: State, i: nat) {
    exists j :: 0 <= j < |s.hist| && s.hist[j].call == i && s.hist[j].ok
  }

  /** Whatever happens from here on, the put of the call does not succeed. */
  ghost predicate NeverSucceeds(s: State, i: nat, hash: Hash) {
    forall acts :: !Succeeded(Run(s, acts, hash), i)
  }

  /** The put of the call would be refused: its key is at or above it. */
  ghost predicate Closed(s: State, i: nat, e: Entry, hash: Hash) {
    && i < |s.calls| && s.calls[i].e == e && e.m.Consensus? && !Succeeded(s, i)
    && !Condition(s.items, KeyOf(e.pkh, e.m), NewWatermark(e.m, hash))
  }

  lemma ClosedStays(s: State, a: Action, i: nat, e: Entry, hash: Hash)
    requires Closed(s, i, e, hash)
    ensures Closed(Step(s, a, hash), i, e, hash)
  {
    var s' := Step(s, a, hash);
    assert s'.hist == s.hist || exists p: Put :: s'.hist == s.hist + [p] && (p.ok ==> p.call != i);
  }

  lemma {:induction false} ClosedForever(s: State, acts: seq<Action>, i: nat, e: Entry, hash: Hash)
    requires Closed(s, i, e, hash)
    ensures Closed(Run(s, acts, hash), i, e, hash)
    decreases |acts|
  {
    if acts != [] {
      ClosedStays(s, acts[0], i, e, hash);
      ClosedForever(Step(s, acts[0], hash), acts[1..], i, e, hash);
    }
  }

  /**
   A call whose put has not succeeded so far never will, whatever happens later, if and only if the table is already at or
   above its watermark.
   */
  lemma RefusalIsFinalIff(before: seq<Action>, hash: Hash, i: nat)
    requires var s := Run(Init, before, hash); i < |s.calls| && !Succeeded(s, i)
    ensures var s := Run(Init, before, hash);
            var e := s.calls[i].e;
            e.m.Consensus? && (NeverSucceeds(s, i, hash) <==> !Condition(s.items, KeyOf(e.pkh, e.m), NewWatermark(e.m, hash)))
  {
    RunKeepsInv(Init, before, hash);
    var s := Run(Init, before, hash);
    var e := s.calls[i].e;
    assert Backed(s.hist, i, s.calls[i], hash);
    if Condition(s.items, KeyOf(e.pkh, e.m), NewWatermark(e.m, hash)) {
      RunOne(s, Arrive(i), hash);
      var s' := Run(s, [Arrive(i)], hash);
      assert s'.hist[|s.hist|].call == i && s'.hist[|s.hist|].ok;
    } else {
      forall acts
        ensures !Succeeded(Run(s, acts, hash), i)
      {
        ClosedForever(s, acts, i, e, hash);
      }
    }
  }

  /** A put whose caller was told no can still move the watermark, after which the same request is refused. */
  lemma LatePutMoves(e: Entry, hash: Hash)
    requires e.m.Consensus?
    ensures var s := Run(Init, [Ask(e, RequestLost), Arrive(0), Ask(e, Delivered)], hash);
            && s.items == map[KeyOf(e.pkh, e.m) := NewWatermark(e.m, hash)]
            && |s.calls| == 2 && !s.calls[0].ok && !s.calls[1].ok
  {
    var a, b, c := Ask(e, RequestLost), Arrive(0), Ask(e, Delivered);
    assert [a, b, c][1..] == [b, c] && [b, c][1..] == [c] && [c][1..] == [];
    var s1 := Step(Init, a, hash);
    assert s1.calls == [Answer(e, false, 0)];
    var s2 := Step(s1, b, hash);
    assert s2.items == map[KeyOf(e.pkh, e.m) := NewWatermark(e.m, hash)];
    var s3 := Step(s2, c, hash);
    assert Run(s2, [c], hash) == s3 && Run(s1, [b, c], hash) == s3;
  }
}
