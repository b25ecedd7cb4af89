/**
The optimistic read / validate / conditional-write loop of pkg/signatory/watermark/gcp.go,
run by any number of concurrent calls against shared documents.

Each action is one RPC as the server and the caller see it. `hist` is the sequence
of atomic conditional puts (aws.go) that the run amounts to: a write that takes
effect appends a successful put, a rejection appends a failed put at its read.
A document's update time is modelled by the place in `hist` of the write that set it.
*/
module CasLoop {
  import opened Request
  import opened ConditionalPut
  import opened Options

  const MAX_ATTEMPTS := 4

  datatype Doc = Doc(w: Watermark, at: nat)

  datatype Phase = Reading | Creating | Updating(seen: Doc)

  datatype Result = Ok | ErrWatermark | IOError | Exhausted

  /**
   A call with what it has seen. `start` and `end` bound it in `hist`, `gets` are the places of its
   reads, `okAt` and `rejectedAt` its own puts, `lost` the competing writes that made it retry. `resent`
   tells whether the SDK has silently repeated a write of it that had taken effect, and `inFlight` is
   the write a call gave up on that may still reach the server.
   */
  datatype Call = Call(key: Key, w: Watermark, status: Status, start: nat, gets: seq<nat>,
                       okAt: Option<nat>, rejectedAt: Option<nat>, lost: seq<nat>, resent: bool, inFlight: Option<Phase>)
  {
    function ReadAt(): nat {
      if gets == [] then start else gets[|gets| - 1]
    }

    /** What the call, or the write it left behind, is about to do. */
    function Sought(): Option<Phase> {
      if status.Running? then Some(status.phase) else inFlight
    }
  }

  datatype Status = Running(attempt: nat, phase: Phase) | Returned(result: Result, end: nat)

  datatype State = State(docs: map<Key, Doc>, calls: map<nat, Call>, hist: seq<Put>)

  const Init := State(map[], map[], [])

  datatype Action =
    | Start(c: nat, key: Key, w: Watermark)
    | Get(c: nat)
    | GetFails(c: nat)
    | Write(c: nat)                       // answered
    | WriteFails(c: nat, arrived: bool)   // an error other than a failed precondition: after taking effect, or still on its way
    | WriteResent(c: nat)                 // took effect, reply lost, repeated by the SDK: looks like a lost race
    | LateWrite(c: nat)                   // a write whose call has given up reaches the server

  /** The precondition of the write: create-only, or unchanged update time. */
  predicate Precondition(docs: map<Key, Doc>, key: Key, phase: Phase) {
    if phase.Updating? then key in docs && docs[key].at == phase.seen.at else key !in docs
  }

  predicate AtPhase(s: State, c: nat, writing: bool) {
    c in s.calls && s.calls[c].status.Running? && (writing <==> !s.calls[c].status.phase.Reading?)
  }

  /** A write of the call is due, or on its way, and its precondition holds. */
  predicate MayLand(s: State, c: nat) {
    && c in s.calls && s.calls[c].Sought().Some? && !s.calls[c].Sought().value.Reading?
    && Precondition(s.docs, s.calls[c].key, s.calls[c].Sought().value)
  }

  predicate MayWrite(s: State, c: nat) {
    AtPhase(s, c, true) && MayLand(s, c)
  }

  /** The write takes effect: the document changes, the put joins the history, the call goes on as `y`. */
  function Commit(s: State, c: nat, y: Call): (s': State) {
    State(s.docs[y.key := Doc(y.w, |s.hist|)], s.calls[c := y], s.hist + [Put(c, y.key, y.w, true)])
  }

  function Done(x: Call, r: Result, now: nat): (y: Call) {
    x.(status := Returned(r, now))
  }

  /** The call returns an error while its write is on its way. */
  function Abandoned(x: Call, now: nat): (y: Call)
    requires x.status.Running?
  {
    x.(inFlight := Some(x.status.phase), status := Returned(IOError, now))
  }

  function Abandon(s: State, c: nat): (s': State)
    requires c in s.calls && s.calls[c].status.Running?
  {
    s.(calls := s.calls[c := Abandoned(s.calls[c], |s.hist|)])
  }

  function Return(s: State, c: nat, r: Result): (s': State)
    requires c in s.calls
  {
    s.(calls := s.calls[c := Done(s.calls[c], r, |s.hist|)])
  }

  /** The call after losing to the write at `at`: another attempt, or none left. */
  function Retried(x: Call, at: nat, now: nat): (y: Call)
    requires x.status.Running?
  {
    var n := x.status.attempt + 1;
    x.(lost := x.lost + [at],
       status := if n < MAX_ATTEMPTS then Running(n, Reading) else Returned(Exhausted, now))
  }

  /** A failed precondition: the document has been written at `docs[key].at` meanwhile. */
  function Retry(s: State, c: nat): (s': State)
    requires c in s.calls && s.calls[c].status.Running? && s.calls[c].key in s.docs
  {
    s.(calls := s.calls[c := Retried(s.calls[c], s.docs[s.calls[c].key].at, |s.hist|)])
  }

  /** The answer to a write whose precondition does not hold. */
  function LostRace(s: State, c: nat): (s': State)
    requires c in s.calls && s.calls[c].status.Running?
  {
    if s.calls[c].key in s.docs then Retry(s, c) else Return(s, c, IOError)
  }

  /** The snapshot read, and the decision taken on it. */
  function Read(s: State, c: nat): (s': State)
    requires c in s.calls && s.calls[c].status.Running?
  {
    var x := s.calls[c].(gets := s.calls[c].gets + [|s.hist|]);
    var n := x.status.attempt;
    if x.key !in s.docs then s.(calls := s.calls[c := x.(status := Running(n, Creating))])
    else if SupersededBy(s.docs[x.key].w, x.w) then s.(calls := s.calls[c := x.(status := Running(n, Updating(s.docs[x.key])))])
    else s.(hist := s.hist + [Put(c, x.key, x.w, false)],
            calls := s.calls[c := x.(rejectedAt := Some(|s.hist|), status := Returned(ErrWatermark, |s.hist| + 1))])
  }

  function Step(s: State, a: Action): (s': State) {
    match a
    case Start(c, key, w) =>
      if c in s.calls then s
      else s.(calls := s.calls[c := Call(key, w, Running(0, Reading), |s.hist|, [], None, None, [], false, None)])
    case Get(c) => if AtPhase(s, c, false) then Read(s, c) else s
    case GetFails(c) => if AtPhase(s, c, false) then Return(s, c, IOError) else s
    case Write(c) =>
      if !AtPhase(s, c, true) then s
      else if MayWrite(s, c) then
        Commit(s, c, Done(s.calls[c].(okAt := Some(|s.hist|)), Ok, |s.hist| + 1))
      else LostRace(s, c)
    case WriteFails(c, arrived) =>
      if !AtPhase(s, c, true) then s
      else if arrived && MayWrite(s, c) then
        Commit(s, c, Done(s.calls[c].(okAt := Some(|s.hist|)), IOError, |s.hist| + 1))
      else Abandon(s, c)
    case WriteResent(c) =>
      if MayWrite(s, c) then
        Commit(s, c, Retried(s.calls[c].(okAt := Some(|s.hist|), resent := true), |s.hist|, |s.hist| + 1))
      else if AtPhase(s, c, true) then LostRace(s, c)
      else s
    case LateWrite(c) =>
      if MayLand(s, c) && s.calls[c].status.Returned? then Commit(s, c, s.calls[c].(okAt := Some(|s.hist|), inFlight := None))
      else s
  }

  function Run(s: State, acts: seq<Action>): (s': State)
    decreases |acts|
  {
    if acts == [] then s else Run(Step(s, acts[0]), acts[1..])
  }

  // ----- the invariant -----

  /** The documents are what the history of atomic puts leaves behind. */
  ghost predicate Refines(s: State) {
    && Legal(s.hist)
    && Replay(s.hist).Keys == s.docs.Keys
    && forall k :: k in s.docs ==>
         && Replay(s.hist)[k] == s.docs[k].w
         && s.docs[k].at < |s.hist|
         && s.hist[s.docs[k].at].key == k && s.hist[s.docs[k].at].ok
  }

  /** The puts of a call in the history are exactly the ones it records, within its lifetime. */
  ghost predicate Linearized(hist: seq<Put>, c: nat, x: Call) {
    && (forall i :: 0 <= i < |hist| ==> (hist[i].call == c <==> x.okAt == Some(i) || x.rejectedAt == Some(i)))
    && (x.okAt.Some? ==> x.start <= x.okAt.value < |hist| && hist[x.okAt.value] == Put(c, x.key, x.w, true))
    && (x.rejectedAt.Some? ==> x.start <= x.rejectedAt.value < |hist| && hist[x.rejectedAt.value] == Put(c, x.key, x.w, false))
    && x.start <= |hist|
    && (x.status.Returned? ==>
          && x.start <= x.status.end <= |hist|
          && (x.okAt.Some? && !x.status.result.IOError? ==> x.okAt.value < x.status.end)
          && (x.rejectedAt.Some? ==> x.rejectedAt.value < x.status.end))
  }

  /** What a call has told, or will tell, its caller agrees with its puts. */
  predicate Answered(x: Call) {
    && (x.inFlight.Some? ==> x.status.Returned? && x.status.result.IOError?)
    && match x.status
    case Running(_, _) => x.rejectedAt.None? && (x.okAt.Some? ==> x.resent)
    case Returned(Ok, _) => x.okAt.Some? && x.rejectedAt.None?
    case Returned(ErrWatermark, _) => x.rejectedAt.Some? && (x.okAt.Some? ==> x.resent)
    case Returned(IOError, _) => x.rejectedAt.None?
    case Returned(Exhausted, _) => x.rejectedAt.None? && (x.okAt.Some? ==> x.resent)
  }

  /** What a call saw when it read is still so, or a later write has hit the document. */
  predicate Snapshot(docs: map<Key, Doc>, x: Call) {
    match x.Sought()
    case Some(Creating) => x.key in docs ==> docs[x.key].at >= x.ReadAt()
    case Some(Updating(seen)) =>
      SupersededBy(seen.w, x.w) && seen.at < x.ReadAt() && x.key in docs && (docs[x.key] == seen || docs[x.key].at >= x.ReadAt())
    case _ => true
  }

  /** Every retry was forced by a competing write of its own, between its read and the next. */
  ghost predicate Windows(hist: seq<Put>, c: nat, key: Key, start: nat, gets: seq<nat>, lost: seq<nat>, resent: bool) {
    && |lost| <= |gets|
    && (forall i :: 0 <= i < |lost| ==>
          && start <= gets[i] <= lost[i] < |hist|
          && hist[lost[i]].ok && hist[lost[i]].key == key
          && (hist[lost[i]].call == c ==> resent))
    && (forall i, j :: 0 <= i < j < |gets| && i < |lost| ==> lost[i] < gets[j])
  }

  predicate AllBefore(lost: seq<nat>, end: nat) {
    forall i :: 0 <= i < |lost| ==> lost[i] < end
  }

  /** As many retries as the call's status tells, each with its window. */
  ghost predicate Contended(hist: seq<Put>, c: nat, x: Call) {
    && x.start <= x.ReadAt() <= |hist|
    && Windows(hist, c, x.key, x.start, x.gets, x.lost, x.resent)
    && match x.status
       case Running(attempt, phase) => |x.lost| == attempt < MAX_ATTEMPTS && |x.gets| == attempt + if phase.Reading? then 0 else 1
       case Returned(r, end) => AllBefore(x.lost, end) && (r.Exhausted? ==> |x.lost| == |x.gets| == MAX_ATTEMPTS)
  }

  ghost predicate CallInv(docs: map<Key, Doc>, hist: seq<Put>, c: nat, x: Call) {
    Linearized(hist, c, x) && Answered(x) && Snapshot(docs, x) && Contended(hist, c, x)
  }

  ghost predicate Inv(s: State) {
    && Refines(s)
    && (forall c :: c in s.calls ==> CallInv(s.docs, s.hist, c, s.calls[c]))
    && (forall i :: 0 <= i < |s.hist| ==> s.hist[i].call in s.calls)
  }

  // ----- every step keeps it -----

  /** The documents and the history move on by at most one put of call `c`. */
  ghost predicate Advances(s: State, s': State, c: nat) {
    && (s'.hist == s.hist || exists p: Put :: p.call == c && s'.hist == s.hist + [p])
    && (forall k :: k in s.docs ==> k in s'.docs)
    && (forall k :: k in s'.docs ==> (k in s.docs && s'.docs[k] == s.docs[k]) || s'.docs[k].at >= |s.hist|)
  }

  lemma OthersKept(s: State, s': State, c: nat, d: nat)
    requires Inv(s) && Advances(s, s', c) && d in s.calls && d != c
    ensures CallInv(s'.docs, s'.hist, d, s.calls[d])
  {
  }

  /** If call `c` alone changes and is again in order, the whole state is. */
  lemma Assemble(s: State, s': State, c: nat)
    requires Inv(s) && Advances(s, s', c) && Refines(s')
    requires c in s'.calls && s'.calls == s.calls[c := s'.calls[c]] && CallInv(s'.docs, s'.hist, c, s'.calls[c])
    ensures Inv(s')
  {
    forall d | d in s'.calls
      ensures CallInv(s'.docs, s'.hist, d, s'.calls[d])
    {
      if d != c {
        OthersKept(s, s', c, d);
      }
    }
    forall i | 0 <= i < |s'.hist|
      ensures s'.hist[i].call in s'.calls
    {
      if i < |s.hist| {
        assert s'.hist[i] == s.hist[i];
      }
    }
  }

  /** A write whose precondition holds meets the condition of the atomic put, and is the call's first. */
  lemma MayCommit(s: State, c: nat)
    requires Inv(s) && MayLand(s, c)
    ensures Condition(Replay(s.hist), s.calls[c].key, s.calls[c].w)
    ensures s.calls[c].okAt.None?
  {
    var x := s.calls[c];
    assert CallInv(s.docs, s.hist, c, x);
    if x.okAt.Some? {
      TableIsHighest(s.hist, x.okAt.value);
    }
  }

  /** How a call goes on after its write took effect at place `n` of the history. */
  predicate Lands(x: Call, y: Call, n: nat) {
    if x.status.Running? then
      || y == Done(x.(okAt := Some(n)), Ok, n + 1)
      || y == Done(x.(okAt := Some(n)), IOError, n + 1)
      || y == Retried(x.(okAt := Some(n), resent := true), n, n + 1)
    else y == x.(okAt := Some(n), inFlight := None)
  }

  lemma CommitRefines(s: State, c: nat, y: Call)
    requires Refines(s) && Condition(Replay(s.hist), y.key, y.w)
    ensures Refines(Commit(s, c, y)) && Advances(s, Commit(s, c, y), c)
  {
  }

  lemma CommittedPuts(hist: seq<Put>, c: nat, x: Call, y: Call)
    requires Linearized(hist, c, x) && Answered(x) && x.okAt.None? && x.rejectedAt.None?
    requires x.status.Running? || x.status.result.IOError?
    requires Lands(x, y, |hist|)
    ensures Linearized(hist + [Put(c, x.key, x.w, true)], c, y)
  {
    var h := hist + [Put(c, x.key, x.w, true)];
    assert forall i :: 0 <= i < |hist| ==> h[i] == hist[i];
  }

  lemma WindowsLater(hist: seq<Put>, p: Put, c: nat, x: Call, resent: bool)
    requires Windows(hist, c, x.key, x.start, x.gets, x.lost, x.resent) && (x.resent ==> resent)
    ensures Windows(hist + [p], c, x.key, x.start, x.gets, x.lost, resent)
    ensures AllBefore(x.lost, |hist|)
  {
  }

  /** One more write that the call lost to, in the window of its last read. */
  lemma WindowCloses(h: seq<Put>, c: nat, x: Call, n: nat, resent: bool)
    requires Windows(h, c, x.key, x.start, x.gets, x.lost, resent) && |x.gets| == |x.lost| + 1
    requires x.start <= x.ReadAt() <= n < |h| && h[n].ok && h[n].key == x.key && (h[n].call == c ==> resent)
    ensures Windows(h, c, x.key, x.start, x.gets, x.lost + [n], resent)
    ensures AllBefore(x.lost + [n], |h|)
  {
  }

  lemma ContendedDone(hist: seq<Put>, c: nat, x: Call, r: Result)
    requires Contended(hist, c, x) && x.status.Running? && !r.Exhausted?
    ensures var n := |hist|; Contended(hist + [Put(c, x.key, x.w, true)], c, Done(x.(okAt := Some(n)), r, n + 1))
  {
    WindowsLater(hist, Put(c, x.key, x.w, true), c, x, x.resent);
    assert AllBefore(x.lost, |hist| + 1);
  }

  lemma ContendedResent(hist: seq<Put>, c: nat, x: Call)
    requires Contended(hist, c, x) && x.status.Running? && !x.status.phase.Reading?
    ensures var n := |hist|;
            Contended(hist + [Put(c, x.key, x.w, true)], c, Retried(x.(okAt := Some(n), resent := true), n, n + 1))
  {
    var p := Put(c, x.key, x.w, true);
    WindowsLater(hist, p, c, x, true);
    WindowCloses(hist + [p], c, x, |hist|, true);
  }

  lemma ContendedLate(hist: seq<Put>, c: nat, x: Call)
    requires Contended(hist, c, x) && x.status.Returned?
    ensures Contended(hist + [Put(c, x.key, x.w, true)], c, x.(okAt := Some(|hist|), inFlight := None))
  {
    WindowsLater(hist, Put(c, x.key, x.w, true), c, x, x.resent);
  }

  lemma CommittedContended(hist: seq<Put>, c: nat, x: Call, y: Call)
    requires Contended(hist, c, x) && (x.status.Running? ==> !x.status.phase.Reading?)
    requires Lands(x, y, |hist|)
    ensures Contended(hist + [Put(c, x.key, x.w, true)], c, y)
  {
    if !x.status.Running? {
      ContendedLate(hist, c, x);
    } else {
      ContendedDone(hist, c, x, Ok);
      ContendedDone(hist, c, x, IOError);
      ContendedResent(hist, c, x);
    }
  }

  /** The record of a call after its write took effect matches the longer history. */
  lemma CommittedCall(docs: map<Key, Doc>, hist: seq<Put>, c: nat, x: Call, y: Call)
    requires CallInv(docs, hist, c, x) && x.Sought().Some? && !x.Sought().value.Reading? && x.okAt.None?
    requires Lands(x, y, |hist|)
    ensures CallInv(docs[x.key := Doc(x.w, |hist|)], hist + [Put(c, x.key, x.w, true)], c, y)
  {
    CommittedPuts(hist, c, x, y);
    CommittedContended(hist, c, x, y);
  }

  lemma CommitKeepsInv(s: State, c: nat, y: Call)
    requires Inv(s) && MayLand(s, c)
    requires Lands(s.calls[c], y, |s.hist|)
    ensures Inv(Commit(s, c, y))
  {
    MayCommit(s, c);
    CommitRefines(s, c, y);
    CommittedCall(s.docs, s.hist, c, s.calls[c], y);
    Assemble(s, Commit(s, c, y), c);
  }

  lemma RetriedCall(docs: map<Key, Doc>, hist: seq<Put>, c: nat, x: Call)
    requires CallInv(docs, hist, c, x) && x.status.Running? && !x.status.phase.Reading?
    requires x.key in docs && x.ReadAt() <= docs[x.key].at < |hist|
    requires hist[docs[x.key].at].ok && hist[docs[x.key].at].key == x.key
    ensures CallInv(docs, hist, c, Retried(x, docs[x.key].at, |hist|))
  {
  }

  lemma RetryKeepsInv(s: State, c: nat)
    requires Inv(s) && AtPhase(s, c, true) && s.calls[c].key in s.docs && !MayWrite(s, c)
    ensures Inv(Retry(s, c))
  {
    RetriedCall(s.docs, s.hist, c, s.calls[c]);
    Assemble(s, Retry(s, c), c);
  }

  lemma FailedCall(docs: map<Key, Doc>, hist: seq<Put>, c: nat, x: Call)
    requires CallInv(docs, hist, c, x) && x.status.Running?
    ensures CallInv(docs, hist, c, Done(x, IOError, |hist|))
  {
  }

  lemma AbandonedCall(docs: map<Key, Doc>, hist: seq<Put>, c: nat, x: Call)
    requires CallInv(docs, hist, c, x) && x.status.Running?
    ensures CallInv(docs, hist, c, Abandoned(x, |hist|))
  {
  }

  lemma ReturnKeepsInv(s: State, c: nat)
    requires Inv(s) && c in s.calls && s.calls[c].status.Running?
    ensures Inv(Return(s, c, IOError))
  {
    FailedCall(s.docs, s.hist, c, s.calls[c]);
    Assemble(s, Return(s, c, IOError), c);
  }

  lemma AbandonKeepsInv(s: State, c: nat)
    requires Inv(s) && AtPhase(s, c, true)
    ensures Inv(Abandon(s, c))
  {
    AbandonedCall(s.docs, s.hist, c, s.calls[c]);
    Assemble(s, Abandon(s, c), c);
  }

  lemma RejectedCall(docs: map<Key, Doc>, hist: seq<Put>, c: nat, x: Call)
    requires CallInv(docs, hist, c, x) && x.status.Running? && x.status.phase.Reading?
    ensures CallInv(docs, hist + [Put(c, x.key, x.w, false)], c,
                    x.(gets := x.gets + [|hist|], rejectedAt := Some(|hist|), status := Returned(ErrWatermark, |hist| + 1)))
  {
  }

  lemma RejectionKeepsInv(s: State, c: nat)
    requires Inv(s) && AtPhase(s, c, false) && s.calls[c].key in s.docs && !SupersededBy(s.docs[s.calls[c].key].w, s.calls[c].w)
    ensures Inv(Read(s, c))
  {
    var p := Put(c, s.calls[c].key, s.calls[c].w, false);
    RejectedCall(s.docs, s.hist, c, s.calls[c]);
    ExtendHistory(s.hist, p);
    RejectionRefines(s, Read(s, c), p);
    Assemble(s, Read(s, c), c);
  }

  /** The snapshot lets the call go on to write. */
  predicate SeenAs(docs: map<Key, Doc>, key: Key, w: Watermark, phase: Phase) {
    match phase
    case Reading => false
    case Creating => key !in docs
    case Updating(d) => key in docs && d == docs[key] && SupersededBy(d.w, w)
  }

  lemma SnapshotCall(docs: map<Key, Doc>, hist: seq<Put>, c: nat, x: Call, phase: Phase)
    requires CallInv(docs, hist, c, x) && x.status.Running? && x.status.phase.Reading?
    requires SeenAs(docs, x.key, x.w, phase) && (x.key in docs ==> docs[x.key].at < |hist|)
    ensures CallInv(docs, hist, c, x.(gets := x.gets + [|hist|], status := Running(x.status.attempt, phase)))
  {
  }

  lemma SnapshotKeepsInv(s: State, c: nat, phase: Phase)
    requires Inv(s) && AtPhase(s, c, false) && SeenAs(s.docs, s.calls[c].key, s.calls[c].w, phase)
    ensures Inv(Read(s, c))
  {
    SnapshotCall(s.docs, s.hist, c, s.calls[c], phase);
    Assemble(s, Read(s, c), c);
  }

  lemma ReadKeepsInv(s: State, c: nat)
    requires Inv(s) && AtPhase(s, c, false)
    ensures Inv(Read(s, c))
  {
    var x := s.calls[c];
    if x.key !in s.docs {
      SnapshotKeepsInv(s, c, Creating);
    } else if SupersededBy(s.docs[x.key].w, x.w) {
      SnapshotKeepsInv(s, c, Updating(s.docs[x.key]));
    } else {
      RejectionKeepsInv(s, c);
    }
  }

  lemma RejectionRefines(s: State, s': State, p: Put)
    requires Refines(s) && !p.ok && s'.docs == s.docs && s'.hist == s.hist + [p]
    requires Legal(s'.hist) && Replay(s'.hist) == Replay(s.hist)
    ensures Refines(s')
  {
  }

  lemma StartKeepsInv(s: State, c: nat, key: Key, w: Watermark)
    requires Inv(s) && c !in s.calls
    ensures Inv(Step(s, Start(c, key, w)))
  {
    var s' := Step(s, Start(c, key, w));
    assert CallInv(s'.docs, s'.hist, c, s'.calls[c]);
    Assemble(s, s', c);
  }

  predicate TakesEffect(s: State, c: nat, a: Action) {
    MayLand(s, c) && if s.calls[c].status.Running? then a in [Write(c), WriteFails(c, true), WriteResent(c)] else a == LateWrite(c)
  }

  /** A write that takes effect is a commit, however it is answered. */
  lemma EffectiveWrite(s: State, c: nat, a: Action) returns (y: Call)
    requires TakesEffect(s, c, a)
    ensures Step(s, a) == Commit(s, c, y) && Lands(s.calls[c], y, |s.hist|)
  {
    y := Step(s, a).calls[c];
  }

  lemma EffectiveWriteKeepsInv(s: State, c: nat, a: Action)
    requires Inv(s) && TakesEffect(s, c, a)
    ensures Inv(Step(s, a))
  {
    var y := EffectiveWrite(s, c, a);
    CommitKeepsInv(s, c, y);
  }

  /** A write without effect: given up on, lost to another, or failed. */
  lemma IneffectiveWrite(s: State, c: nat, a: Action)
    requires AtPhase(s, c, true)
    requires a == WriteFails(c, false) || (!MayWrite(s, c) && a in [Write(c), WriteFails(c, true), WriteResent(c)])
    ensures Step(s, a) == if a.WriteFails? then Abandon(s, c) else LostRace(s, c)
  {
  }

  lemma OtherWriteKeepsInv(s: State, c: nat, a: Action)
    requires Inv(s) && AtPhase(s, c, true)
    requires a == WriteFails(c, false) || (!MayWrite(s, c) && a in [Write(c), WriteFails(c, true), WriteResent(c)])
    ensures Inv(Step(s, a))
  {
    IneffectiveWrite(s, c, a);
    if a.WriteFails? {
      AbandonKeepsInv(s, c);
    } else if s.calls[c].key in s.docs {
      RetryKeepsInv(s, c);
    } else {
      ReturnKeepsInv(s, c);
    }
  }

  lemma StepKeepsInv(s: State, a: Action)
    requires Inv(s)
    ensures Inv(Step(s, a))
  {
    if Step(s, a) != s {
      match a
      case Start(c, key, w) => StartKeepsInv(s, c, key, w);
      case Get(c) => ReadKeepsInv(s, c);
      case GetFails(c) => ReturnKeepsInv(s, c);
      case _ =>
        if MayLand(s, a.c) && a != WriteFails(a.c, false) {
          EffectiveWriteKeepsInv(s, a.c, a);
        } else {
          OtherWriteKeepsInv(s, a.c, a);
        }
    }
  }

  lemma {:induction false} RunKeepsInv(s: State, acts: seq<Action>)
    requires Inv(s)
    ensures Inv(Run(s, acts))
    decreases |acts|
  {
    if acts != [] {
      StepKeepsInv(s, acts[0]);
      RunKeepsInv(Step(s, acts[0]), acts[1..]);
    }
  }

  // ----- what that gives -----

  ghost predicate Reachable(s: State) {
    exists acts :: s == Run(Init, acts)
  }

  lemma ReachableInv(s: State)
    requires Reachable(s)
    ensures Inv(s)
  {
    var acts :| s == Run(Init, acts);
    RunKeepsInv(Init, acts);
  }

  /**
   Linearizability: in every reachable state the history is a legal sequence of atomic conditional puts
   that leaves the same documents, and each returned call's answer is the answer of its put, which lies
   between the call's start and end; only the put of a call that ended in an error may come later. A call
   takes effect at most once, even when resent or late.
   */
  lemma Linearizable(s: State)
    requires Reachable(s)
    ensures Legal(s.hist)
    ensures Replay(s.hist) == map k | k in s.docs :: s.docs[k].w
    ensures AtMostOnce(s.hist)
    ensures forall c :: c in s.calls && s.calls[c].status.Returned? ==> AnswersItsPut(s.hist, c, s.calls[c])
  {
    ReachableInv(s);
    TakesEffectOnce(s);
    DocsAreReplay(s);
    forall c | c in s.calls && s.calls[c].status.Returned?
      ensures AnswersItsPut(s.hist, c, s.calls[c])
    {
      PutsOfCall(s.hist, c, s.calls[c]);
    }
  }

  lemma DocsAreReplay(s: State)
    requires Refines(s)
    ensures Replay(s.hist) == map k | k in s.docs :: s.docs[k].w
  {
  }

  ghost predicate AtMostOnce(hist: seq<Put>) {
    forall i, j :: 0 <= i < j < |hist| && hist[i].ok && hist[j].ok ==> hist[i].call != hist[j].call
  }

  lemma TakesEffectOnce(s: State)
    requires Inv(s)
    ensures AtMostOnce(s.hist)
  {
  }

  /** The positions of a call's puts. */
  function PutsOf(hist: seq<Put>, c: nat): set<nat> {
    set i | 0 <= i < |hist| && hist[i].call == c
  }

  /**
   Ok: one put, which succeeded. ErrWatermark: one put that failed (and, only if the SDK resent, one that
   succeeded before). Other errors: no put that failed. All after the call's start and, except for a write
   that was given up on, before its end.
   */
  ghost predicate AnswersItsPut(hist: seq<Put>, c: nat, x: Call)
    requires x.status.Returned?
  {
    && (forall i :: i in PutsOf(hist, c) ==>
          x.start <= i && (!x.status.result.IOError? ==> i < x.status.end) && hist[i].key == x.key && hist[i].w == x.w)
    && match x.status.result
       case Ok => exists i :: PutsOf(hist, c) == {i} && hist[i].ok
       case ErrWatermark =>
         exists i :: i in PutsOf(hist, c) && !hist[i].ok && forall j :: j in PutsOf(hist, c) && j != i ==> hist[j].ok && x.resent
       case IOError => forall i :: i in PutsOf(hist, c) ==> hist[i].ok
       case Exhausted => forall i :: i in PutsOf(hist, c) ==> hist[i].ok && x.resent
  }

  lemma PutsWithin(hist: seq<Put>, c: nat, x: Call, i: nat)
    requires Linearized(hist, c, x) && x.status.Returned? && i in PutsOf(hist, c)
    ensures x.start <= i && (!x.status.result.IOError? ==> i < x.status.end) && hist[i].key == x.key && hist[i].w == x.w
    ensures x.okAt == Some(i) || x.rejectedAt == Some(i)
    ensures hist[i].ok <==> x.okAt == Some(i)
  {
    assert hist[i].call == c;
  }

  lemma PutAt(hist: seq<Put>, c: nat, x: Call, i: nat)
    requires Linearized(hist, c, x) && (x.okAt == Some(i) || x.rejectedAt == Some(i))
    ensures i in PutsOf(hist, c) && (hist[i].ok <==> x.okAt == Some(i))
  {
    assert hist[i].call == c;
  }

  lemma PutsOfCall(hist: seq<Put>, c: nat, x: Call)
    requires Linearized(hist, c, x) && Answered(x) && x.status.Returned?
    ensures AnswersItsPut(hist, c, x)
  {
    forall i | i in PutsOf(hist, c)
      ensures x.start <= i && (!x.status.result.IOError? ==> i < x.status.end) && hist[i].key == x.key && hist[i].w == x.w
      ensures x.okAt == Some(i) || x.rejectedAt == Some(i)
      ensures hist[i].ok <==> x.okAt == Some(i)
    {
      PutsWithin(hist, c, x, i);
    }
    if x.status.result.Ok? {
      PutAt(hist, c, x, x.okAt.value);
      assert PutsOf(hist, c) == {x.okAt.value};
    } else if x.status.result.ErrWatermark? {
      PutAt(hist, c, x, x.rejectedAt.value);
    }
  }

  lemma ReachableCall(s: State, c: nat)
    requires Reachable(s) && c in s.calls
    ensures Legal(s.hist) && Linearized(s.hist, c, s.calls[c]) && Answered(s.calls[c]) && Contended(s.hist, c, s.calls[c])
  {
    ReachableInv(s);
  }

  /** A call that ended in an error can still move the document, after its end. */
  lemma LateWriteMoves(key: Key, w: Watermark)
    ensures var s := Run(Init, [Start(0, key, w), Get(0), WriteFails(0, false), LateWrite(0)]);
            HasReturned(s, 0, key, w, IOError) && s.calls[0].status.end == 0 && s.docs == map[key := Doc(w, 0)] && s.hist == [Put(0, key, w, true)]
  {
    var acts := [Get(0), WriteFails(0, false), LateWrite(0)];
    assert ([Start(0, key, w)] + acts)[1..] == acts && acts[1..] == [WriteFails(0, false), LateWrite(0)] && acts[1..][1..] == [LateWrite(0)];
    var s := Step(Step(Step(Init, Start(0, key, w)), Get(0)), WriteFails(0, false));
    assert MayLand(s, 0);
    assert s.hist == [];
  }

  ghost predicate TookEffect(s: State, c: nat) {
    exists i :: 0 <= i < |s.hist| && s.hist[i].call == c && s.hist[i].ok
  }

  /** Whatever happens from here on, no write of the call takes effect. */
  ghost predicate NeverTakesEffect(s: State, c: nat) {
    forall acts :: !TookEffect(Run(s, acts), c)
  }

  /** The call has returned without effect, and the precondition of a write it left behind is lost for good. */
  ghost predicate Gone(s: State, c: nat) {
    && c in s.calls && s.calls[c].status.Returned? && !TookEffect(s, c)
    && match s.calls[c].inFlight
       case Some(Creating) => s.calls[c].key in s.docs
       case Some(Updating(seen)) => s.calls[c].key in s.docs && seen.at < s.docs[s.calls[c].key].at && seen.at < |s.hist|
       case _ => true
  }

  lemma GoneStays(s: State, a: Action, c: nat)
    requires Gone(s, c)
    ensures Gone(Step(s, a), c)
  {
    assert !MayLand(s, c);
    var s' := Step(s, a);
    assert s'.hist == s.hist || exists p: Put :: s'.hist == s.hist + [p] && (p.ok ==> p.call != c);
    assert s'.calls[c] == s.calls[c];
  }

  lemma {:induction false} GoneForever(s: State, acts: seq<Action>, c: nat)
    requires Gone(s, c)
    ensures Gone(Run(s, acts), c)
    decreases |acts|
  {
    if acts != [] {
      GoneStays(s, acts[0], c);
      GoneForever(Step(s, acts[0]), acts[1..], c);
    }
  }

  /** A write that cannot land now has lost its precondition to a later write. */
  lemma PreconditionLost(docs: map<Key, Doc>, n: nat, x: Call, phase: Phase)
    requires Snapshot(docs, x) && x.ReadAt() <= n && x.Sought() == Some(phase) && !phase.Reading? && !Precondition(docs, x.key, phase)
    ensures x.key in docs && (phase.Updating? ==> phase.seen.at < docs[x.key].at && phase.seen.at < n)
  {
  }

  lemma CannotLandIsGone(s: State, c: nat)
    requires c in s.calls && s.calls[c].status.Returned? && !TookEffect(s, c) && !MayLand(s, c)
    requires Snapshot(s.docs, s.calls[c]) && s.calls[c].ReadAt() <= |s.hist|
    ensures Gone(s, c)
  {
    var x := s.calls[c];
    if x.inFlight.Some? && !x.inFlight.value.Reading? {
      PreconditionLost(s.docs, |s.hist|, x, x.inFlight.value);
    }
  }

  lemma GoneIsFinal(s: State, c: nat)
    requires Gone(s, c)
    ensures NeverTakesEffect(s, c)
  {
    forall acts
      ensures !TookEffect(Run(s, acts), c)
    {
      GoneForever(s, acts, c);
    }
  }

  lemma LateTakesEffect(s: State, c: nat)
    requires MayLand(s, c) && s.calls[c].status.Returned?
    ensures !NeverTakesEffect(s, c)
  {
    var s' := Step(s, LateWrite(c));
    RunOne(s, LateWrite(c));
    assert s'.hist[|s.hist|] == Put(c, s.calls[c].key, s.calls[c].w, true);
    assert TookEffect(Run(s, [LateWrite(c)]), c);
  }

  lemma ReachableSnapshot(s: State, c: nat)
    requires Reachable(s) && c in s.calls
    ensures Snapshot(s.docs, s.calls[c]) && s.calls[c].ReadAt() <= |s.hist|
  {
    ReachableInv(s);
    assert CallInv(s.docs, s.hist, c, s.calls[c]);
  }

  /**
   A call that has returned without taking effect stays without effect, whatever happens later, if and only if it left no
   write behind whose precondition still holds.
   */
  lemma ErrorIsFinalIff(s: State, c: nat)
    requires Reachable(s) && c in s.calls && s.calls[c].status.Returned? && !TookEffect(s, c)
    ensures NeverTakesEffect(s, c) <==> !MayLand(s, c)
  {
    if MayLand(s, c) {
      LateTakesEffect(s, c);
    } else {
      ReachableSnapshot(s, c);
      CannotLandIsGone(s, c);
      GoneIsFinal(s, c);
    }
  }

  /** In particular every answer but an error on a write is final. */
  lemma OtherAnswersAreFinal(s: State, c: nat)
    requires Reachable(s) && c in s.calls && s.calls[c].status.Returned? && !s.calls[c].status.result.IOError?
    ensures !MayLand(s, c)
  {
    ReachableCall(s, c);
  }

  /** No two calls that succeed on a document have the same (level, round). */
  lemma SuccessesDiffer(s: State, c: nat, d: nat)
    requires Reachable(s) && Succeeded(s, c) && Succeeded(s, d) && c != d && s.calls[c].key == s.calls[d].key
    ensures Above(s.calls[c].w, s.calls[d].w) || Above(s.calls[d].w, s.calls[c].w)
  {
    ReachableCall(s, c);
    ReachableCall(s, d);
    var i, j := s.calls[c].okAt.value, s.calls[d].okAt.value;
    if i < j {
      SuccessesIncrease(s.hist, i, j);
    } else {
      SuccessesIncrease(s.hist, j, i);
    }
  }

  predicate Succeeded(s: State, c: nat) {
    c in s.calls && s.calls[c].status.Returned? && s.calls[c].status.result.Ok?
  }

  /**
   A call that gives up after its retries met a committed write to its document in each of its four
   read-to-write windows: after that window's read and before the next one's, or before the end. All are
   by other calls unless the SDK resent one of its own.
   */
  lemma ExhaustedMeansProgress(s: State, c: nat)
    requires Reachable(s) && c in s.calls && s.calls[c].status.Returned? && s.calls[c].status.result.Exhausted?
    ensures var x := s.calls[c];
            && |x.lost| == |x.gets| == 4
            && (forall i, j :: 0 <= i < j < 4 ==> x.lost[i] < x.gets[j])
            && (forall i :: 0 <= i < |x.lost| ==>
                  && x.start <= x.gets[i] <= x.lost[i] < x.status.end <= |s.hist|
                  && s.hist[x.lost[i]].ok && s.hist[x.lost[i]].key == x.key
                  && (!x.resent ==> s.hist[x.lost[i]].call != c))
  {
    ReachableCall(s, c);
  }

  // ----- the loop of checkAndSet, as one caller runs it -----

  datatype WriteReply = Delivered | Failed(arrived: bool) | Repeated

  datatype WriteOutcome = Acked | Conflict | Error

  /** What one attempt meets: other calls' actions before each RPC, and the fate of its RPCs. */
  datatype Attempt = Attempt(beforeGet: seq<Action>, getFails: bool, beforeWrite: seq<Action>, reply: WriteReply)

  predicate ByOthers(acts: seq<Action>, c: nat) {
    forall a :: a in acts ==> a.c != c
  }

  lemma {:induction false} RunConcat(s: State, a: seq<Action>, b: seq<Action>)
    ensures Run(s, a + b) == Run(Run(s, a), b)
    decreases |a|
  {
    if a == [] {
      assert a + b == b;
    } else {
      assert (a + b)[1..] == a[1..] + b;
      RunConcat(Step(s, a[0]), a[1..], b);
    }
  }

  lemma RunOne(s: State, a: Action)
    ensures Run(s, [a]) == Step(s, a)
  {
  }

  lemma {:induction false} OthersLeaveCall(s: State, acts: seq<Action>, c: nat)
    requires ByOthers(acts, c) && c in s.calls
    ensures c in Run(s, acts).calls && Run(s, acts).calls[c] == s.calls[c]
    decreases |acts|
  {
    if acts != [] {
      OthersLeaveCall(Step(s, acts[0]), acts[1..], c);
    }
  }

  /** The actions of other calls, then one action of call `c`. */
  method Interleave(s0: State, trace: seq<Action>, others: seq<Action>, c: nat) returns (s: State, trace': seq<Action>)
    requires ByOthers(others, c) && c in Run(s0, trace).calls
    ensures trace' == trace + others && s == Run(s0, trace')
    ensures c in s.calls && s.calls[c] == Run(s0, trace).calls[c]
  {
    RunConcat(s0, trace, others);
    OthersLeaveCall(Run(s0, trace), others, c);
    trace' := trace + others;
    s := Run(s0, trace');
  }

  method Act(s0: State, trace: seq<Action>, s: State, a: Action) returns (s': State, trace': seq<Action>)
    requires s == Run(s0, trace)
    ensures trace' == trace + [a] && s' == Run(s0, trace') && s' == Step(s, a)
  {
    RunConcat(s0, trace, [a]);
    RunOne(s, a);
    trace' := trace + [a];
    s' := Step(s, a);
  }

  /** The server action of the conditional write RPC, by what becomes of its reply. */
  function Sent(c: nat, reply: WriteReply): (a: Action) {
    match reply
    case Delivered => Write(c)
    case Failed(arrived) => WriteFails(c, arrived)
    case Repeated => WriteResent(c)
  }

  /** A write with an error for an answer has taken effect if and only if it arrived and met its precondition. */
  lemma FailedWriteEffect(s: State, c: nat, arrived: bool)
    requires AtPhase(s, c, true)
    ensures Step(s, Sent(c, Failed(arrived))).docs ==
            if arrived && MayWrite(s, c) then s.docs[s.calls[c].key := Doc(s.calls[c].w, |s.hist|)] else s.docs
  {
  }

  /** What the caller sees of it. */
  function Seen(s: State, c: nat, reply: WriteReply): (o: WriteOutcome)
    requires AtPhase(s, c, true)
  {
    if reply.Failed? then Error
    else if MayWrite(s, c) then (if reply.Delivered? then Acked else Conflict)
    else if s.calls[c].key in s.docs then Conflict
    else Error
  }

  /** The call is ours and is where the loop is. */
  predicate IsAt(s: State, c: nat, key: Key, w: Watermark, status: Status) {
    c in s.calls && s.calls[c].key == key && s.calls[c].w == w && s.calls[c].status == status
  }

  predicate HasReturned(s: State, c: nat, key: Key, w: Watermark, r: Result) {
    c in s.calls && s.calls[c].key == key && s.calls[c].w == w && s.calls[c].status.Returned? && s.calls[c].status.result == r
  }

  lemma GetAt(s: State, c: nat, key: Key, w: Watermark, n: nat)
    requires IsAt(s, c, key, w, Running(n, Reading))
    ensures HasReturned(Step(s, GetFails(c)), c, key, w, IOError)
    ensures key !in s.docs ==> IsAt(Step(s, Get(c)), c, key, w, Running(n, Creating))
    ensures key in s.docs && SupersededBy(s.docs[key].w, w) ==> IsAt(Step(s, Get(c)), c, key, w, Running(n, Updating(s.docs[key])))
    ensures key in s.docs && !SupersededBy(s.docs[key].w, w) ==> HasReturned(Step(s, Get(c)), c, key, w, ErrWatermark)
  {
  }

  lemma SendAt(s: State, c: nat, key: Key, w: Watermark, n: nat, phase: Phase, reply: WriteReply)
    requires IsAt(s, c, key, w, Running(n, phase)) && !phase.Reading?
    ensures var s' := Step(s, Sent(c, reply));
            match Seen(s, c, reply)
            case Acked => HasReturned(s', c, key, w, Ok)
            case Error => HasReturned(s', c, key, w, IOError)
            case Conflict =>
              if n + 1 < MAX_ATTEMPTS then IsAt(s', c, key, w, Running(n + 1, Reading))
              else HasReturned(s', c, key, w, Exhausted)
  {
  }

  /** Left alone, a call is the atomic conditional put: same answer, same documents. */
  lemma AloneIsConditionalPut(s: State, c: nat, key: Key, w: Watermark)
    requires Refines(s) && c !in s.calls
    ensures var s' := Step(Step(Step(s, Start(c, key, w)), Get(c)), Write(c));
            var (items, ok) := CondPut(Replay(s.hist), key, w);
            HasReturned(s', c, key, w, if ok then Ok else ErrWatermark) && Replay(s'.hist) == items
  {
    if Condition(Replay(s.hist), key, w) {
      AlonePuts(s, c, key, w);
    } else {
      AloneIsRefused(s, c, key, w);
    }
  }

  lemma AloneReads(s: State, c: nat, key: Key, w: Watermark)
    requires Refines(s) && c !in s.calls && Condition(Replay(s.hist), key, w)
    ensures var s2 := Step(Step(s, Start(c, key, w)), Get(c));
            s2.hist == s.hist && s2.docs == s.docs && MayWrite(s2, c) && s2.calls[c].key == key && s2.calls[c].w == w
  {
    GetAt(Step(s, Start(c, key, w)), c, key, w, 0);
  }

  lemma WriteLands(s: State, c: nat)
    requires MayWrite(s, c)
    ensures HasReturned(Step(s, Write(c)), c, s.calls[c].key, s.calls[c].w, Ok)
    ensures Step(s, Write(c)).hist == s.hist + [Put(c, s.calls[c].key, s.calls[c].w, true)]
  {
  }

  lemma AlonePuts(s: State, c: nat, key: Key, w: Watermark)
    requires Refines(s) && c !in s.calls && Condition(Replay(s.hist), key, w)
    ensures var s' := Step(Step(Step(s, Start(c, key, w)), Get(c)), Write(c));
            HasReturned(s', c, key, w, Ok) && Replay(s'.hist) == Replay(s.hist)[key := w]
  {
    AloneReads(s, c, key, w);
    WriteLands(Step(Step(s, Start(c, key, w)), Get(c)), c);
    ExtendHistory(s.hist, Put(c, key, w, true));
  }

  lemma AloneIsRefused(s: State, c: nat, key: Key, w: Watermark)
    requires Refines(s) && c !in s.calls && !Condition(Replay(s.hist), key, w)
    ensures var s' := Step(Step(Step(s, Start(c, key, w)), Get(c)), Write(c));
            HasReturned(s', c, key, w, ErrWatermark) && Replay(s'.hist) == Replay(s.hist)
  {
    var s1 := Step(s, Start(c, key, w));
    GetAt(s1, c, key, w, 0);
    assert Step(s1, Get(c)).hist == s.hist + [Put(c, key, w, false)];
    ExtendHistory(s.hist, Put(c, key, w, false));
  }

  // ----- what the loop does, given what it meets -----

  function GetAction(c: nat, e: Attempt): Action {
    if e.getFails then GetFails(c) else Get(c)
  }

  /** The actions of one attempt: others', the read, and if the call goes on, others' again and the write. */
  function AttemptTrace(s: State, c: nat, e: Attempt): (t: seq<Action>) {
    var read := e.beforeGet + [GetAction(c, e)];
    if AtPhase(Run(s, read), c, true) then read + (e.beforeWrite + [Sent(c, e.reply)]) else read
  }

  /** The actions of the attempts made, as long as the call is to read again. */
  function LoopTrace(s: State, c: nat, env: seq<Attempt>): (t: seq<Action>)
    decreases |env|
  {
    if env == [] || !AtPhase(s, c, false) then []
    else
      var t := AttemptTrace(s, c, env[0]);
      t + LoopTrace(Run(s, t), c, env[1..])
  }

  lemma ReadingIsAtPhase(s: State, c: nat, key: Key, w: Watermark, n: nat)
    requires IsAt(s, c, key, w, Running(n, Reading))
    ensures AtPhase(s, c, false)
  {
  }

  /** One round of the loop: an answer, or another attempt; `trace` is exactly what this attempt meets. */
  method TryOnce(s0: State, t0: seq<Action>, c: nat, key: Key, w: Watermark, n: nat, e: Attempt)
    returns (r: Option<Result>, s: State, trace: seq<Action>)
    requires IsAt(Run(s0, t0), c, key, w, Running(n, Reading)) && n < MAX_ATTEMPTS
    requires ByOthers(e.beforeGet, c) && ByOthers(e.beforeWrite, c)
    ensures trace == t0 + AttemptTrace(Run(s0, t0), c, e) && s == Run(s0, trace)
    ensures r.Some? ==> HasReturned(s, c, key, w, r.value)
    ensures r.None? ==> if n + 1 < MAX_ATTEMPTS then IsAt(s, c, key, w, Running(n + 1, Reading)) else HasReturned(s, c, key, w, Exhausted)
  {
    ghost var read := e.beforeGet + [GetAction(c, e)];
    s, trace := Interleave(s0, t0, e.beforeGet, c);
    GetAt(s, c, key, w, n);
    if e.getFails {
      s, trace := Act(s0, trace, s, GetFails(c));
      ReadDone(s0, t0, trace, c, e, s);
      return Some(IOError), s, trace;
    }
    var snap := if key in s.docs then Some(s.docs[key]) else None;
    s, trace := Act(s0, trace, s, Get(c));
    ReadDone(s0, t0, trace, c, e, s);
    if snap.Some? && !SupersededBy(snap.value.w, w) {
      return Some(ErrWatermark), s, trace;
    }
    s, trace := Interleave(s0, trace, e.beforeWrite, c);
    SendAt(s, c, key, w, n, s.calls[c].status.phase, e.reply);
    var outcome := Seen(s, c, e.reply);
    s, trace := Act(s0, trace, s, Sent(c, e.reply));
    Reassociate(t0, read, e.beforeWrite, [Sent(c, e.reply)]);
    r := match outcome case Acked => Some(Ok) case Error => Some(IOError) case Conflict => None;
  }

  lemma Reassociate(a: seq<Action>, b: seq<Action>, c: seq<Action>, d: seq<Action>)
    ensures a + b + c + d == a + (b + (c + d))
  {
  }

  lemma ReadDone(s0: State, t0: seq<Action>, trace: seq<Action>, c: nat, e: Attempt, s: State)
    requires trace == t0 + e.beforeGet + [GetAction(c, e)] && s == Run(s0, trace)
    ensures var read := e.beforeGet + [GetAction(c, e)];
            trace == t0 + read && Run(Run(s0, t0), read) == s
  {
    var read := e.beforeGet + [GetAction(c, e)];
    assert t0 + e.beforeGet + [GetAction(c, e)] == t0 + read;
    RunConcat(s0, t0, read);
  }

  method NextAttempt(s0: State, t0: seq<Action>, from: State, c: nat, key: Key, w: Watermark, n: nat, env: seq<Attempt>)
    returns (r: Option<Result>, s: State, trace: seq<Action>)
    requires from == Run(s0, t0) && IsAt(from, c, key, w, Running(n, Reading)) && n < |env| == MAX_ATTEMPTS
    requires forall e :: e in env ==> ByOthers(e.beforeGet, c) && ByOthers(e.beforeWrite, c)
    ensures s == Run(s0, trace) && trace + LoopTrace(s, c, env[n + 1..]) == t0 + LoopTrace(from, c, env[n..])
    ensures r.Some? ==> HasReturned(s, c, key, w, r.value)
    ensures r.None? ==> if n + 1 < MAX_ATTEMPTS then IsAt(s, c, key, w, Running(n + 1, Reading)) else HasReturned(s, c, key, w, Exhausted)
  {
    ReadingIsAtPhase(from, c, key, w, n);
    r, s, trace := TryOnce(s0, t0, c, key, w, n, env[n]);
    LoopMore(s0, t0, from, c, env, n, s, trace);
  }

  /**
   `checkAndSet`: whatever other calls do in between and whatever becomes of its RPCs, the loop's effect on the
   documents is the run of the machine above in which its call starts and makes its attempts against just that,
   and the answer is the one this call returned there.
   */
  method CheckAndSet(s0: State, c: nat, key: Key, w: Watermark, env: seq<Attempt>)
    returns (r: Result, s: State, trace: seq<Action>)
    requires c !in s0.calls && |env| == 4
    requires forall e :: e in env ==> ByOthers(e.beforeGet, c) && ByOthers(e.beforeWrite, c)
    ensures trace == [Start(c, key, w)] + LoopTrace(Step(s0, Start(c, key, w)), c, env)
    ensures s == Run(s0, trace) && HasReturned(s, c, key, w, r)
  {
    s, trace := Act(s0, [], s0, Start(c, key, w));
    r, s, trace := Attempts(s0, trace, s, c, key, w, env);
  }

  /** The loop over the attempts. */
  method Attempts(s0: State, t0: seq<Action>, from: State, c: nat, key: Key, w: Watermark, env: seq<Attempt>)
    returns (r: Result, s: State, trace: seq<Action>)
    requires from == Run(s0, t0) && IsAt(from, c, key, w, Running(0, Reading)) && |env| == MAX_ATTEMPTS
    requires forall e :: e in env ==> ByOthers(e.beforeGet, c) && ByOthers(e.beforeWrite, c)
    ensures trace == t0 + LoopTrace(from, c, env)
    ensures s == Run(s0, trace) && HasReturned(s, c, key, w, r)
  {
    s, trace := from, t0;
    ghost var all := t0 + LoopTrace(from, c, env);
    TakeAllAttempts(env);
    var attempt := 0;
    while attempt < MAX_ATTEMPTS
      invariant attempt <= MAX_ATTEMPTS
      invariant s == Run(s0, trace)
      invariant trace + LoopTrace(s, c, env[attempt..]) == all
      invariant if attempt < MAX_ATTEMPTS then IsAt(s, c, key, w, Running(attempt, Reading)) else HasReturned(s, c, key, w, Exhausted)
    {
      var answer;
      answer, s, trace := NextAttempt(s0, trace, s, c, key, w, attempt, env);
      if answer.Some? {
        LoopEnds(s, c, key, w, answer.value, env[attempt + 1..], trace);
        return answer.value, s, trace;
      }
      attempt := attempt + 1;
    }
    LoopEnds(s, c, key, w, Exhausted, env[attempt..], trace);
    r := Exhausted;
  }

  lemma LoopEnds(s: State, c: nat, key: Key, w: Watermark, r: Result, env: seq<Attempt>, trace: seq<Action>)
    requires HasReturned(s, c, key, w, r)
    ensures trace + LoopTrace(s, c, env) == trace
  {
    assert LoopTrace(s, c, env) == [];
  }

  lemma TakeAllAttempts(env: seq<Attempt>)
    ensures env[0..] == env
  {
  }

  lemma LoopMore(s0: State, before: seq<Action>, from: State, c: nat, env: seq<Attempt>, i: nat, s: State, trace: seq<Action>)
    requires i < |env| && from == Run(s0, before) && AtPhase(from, c, false)
    requires trace == before + AttemptTrace(from, c, env[i]) && s == Run(s0, trace)
    ensures trace + LoopTrace(s, c, env[i + 1..]) == before + LoopTrace(from, c, env[i..])
  {
    var t := AttemptTrace(from, c, env[i]);
    RunConcat(s0, before, t);
    assert env[i..][0] == env[i] && env[i..][1..] == env[i + 1..];
    LoopUnfolds(from, c, env[i..]);
    Associate(before, t, LoopTrace(s, c, env[i + 1..]));
  }

  lemma LoopUnfolds(s: State, c: nat, env: seq<Attempt>)
    requires env != [] && AtPhase(s, c, false)
    ensures var t := AttemptTrace(s, c, env[0]); LoopTrace(s, c, env) == t + LoopTrace(Run(s, t), c, env[1..])
  {
  }

  lemma Associate(a: seq<Action>, b: seq<Action>, c: seq<Action>)
    ensures a + b + c == a + (b + c)
  {
  }

  // ----- what that comes to -----

  /** Nothing in between, and every RPC answered. */
  const Undisturbed := Attempt([], false, [], WriteReply.Delivered)

  lemma UndisturbedTrace(s: State, c: nat, env: seq<Attempt>)
    requires |env| == 4 && env[0] == Undisturbed && AtPhase(s, c, false)
    requires var s' := Step(Step(s, Get(c)), Write(c)); c in s'.calls && s'.calls[c].status.Returned?
    ensures Run(s, LoopTrace(s, c, env)) == Step(Step(s, Get(c)), Write(c))
  {
    var s1 := Step(s, Get(c));
    RunOne(s, Get(c));
    assert Undisturbed.beforeGet + [GetAction(c, Undisturbed)] == [Get(c)];
    var t := AttemptTrace(s, c, env[0]);
    if AtPhase(s1, c, true) {
      assert t == [Get(c)] + [Write(c)];
      RunConcat(s, [Get(c)], [Write(c)]);
      RunOne(s1, Write(c));
    }
    assert Run(s, t) == Step(s1, Write(c));
    assert LoopTrace(Run(s, t), c, env[1..]) == [];
    assert t + [] == t;
  }

  /** Undisturbed, the loop is the atomic conditional put: it answers nil exactly if the condition holds, and leaves what the put leaves. */
  lemma UndisturbedIsConditionalPut(s0: State, c: nat, key: Key, w: Watermark, env: seq<Attempt>)
    requires Refines(s0) && c !in s0.calls && |env| == 4 && env[0] == Undisturbed
    ensures var s := Run(s0, [Start(c, key, w)] + LoopTrace(Step(s0, Start(c, key, w)), c, env));
            var (items, ok) := CondPut(Replay(s0.hist), key, w);
            HasReturned(s, c, key, w, if ok then Ok else ErrWatermark) && Replay(s.hist) == items
  {
    var s1 := Step(s0, Start(c, key, w));
    AloneIsConditionalPut(s0, c, key, w);
    UndisturbedTrace(s1, c, env);
    RunConcat(s0, [Start(c, key, w)], LoopTrace(s1, c, env));
    RunOne(s0, Start(c, key, w));
  }

  /** No RPC of the attempts fails. */
  predicate Faultless(env: seq<Attempt>) {
    forall e :: e in env ==> !e.getFails && !e.reply.Failed?
  }

  lemma FaultlessAttempt(s: State, c: nat, key: Key, w: Watermark, n: nat, e: Attempt)
    requires Inv(s) && IsAt(s, c, key, w, Running(n, Reading)) && n < MAX_ATTEMPTS && !e.getFails && !e.reply.Failed?
    requires ByOthers(e.beforeGet, c) && ByOthers(e.beforeWrite, c)
    ensures var s' := Run(s, AttemptTrace(s, c, e));
            && Inv(s') && !HasReturned(s', c, key, w, IOError)
            && (IsAt(s', c, key, w, Running(n + 1, Reading)) || (c in s'.calls && s'.calls[c].status.Returned?))
  {
    var s1 := Run(s, e.beforeGet);
    RunKeepsInv(s, e.beforeGet);
    OthersLeaveCall(s, e.beforeGet, c);
    GetAt(s1, c, key, w, n);
    StepKeepsInv(s1, Get(c));
    var s2 := Step(s1, Get(c));
    RunConcat(s, e.beforeGet, [Get(c)]);
    RunOne(s1, Get(c));
    if AtPhase(s2, c, true) {
      var s3 := Run(s2, e.beforeWrite);
      RunKeepsInv(s2, e.beforeWrite);
      OthersLeaveCall(s2, e.beforeWrite, c);
      StepKeepsInv(s3, Sent(c, e.reply));
      SendAt(s3, c, key, w, n, s3.calls[c].status.phase, e.reply);
      WriteIsAnswered(s3, c, e.reply);
      RunConcat(s2, e.beforeWrite, [Sent(c, e.reply)]);
      RunOne(s3, Sent(c, e.reply));
      RunConcat(s, e.beforeGet + [Get(c)], e.beforeWrite + [Sent(c, e.reply)]);
    }
  }

  /** In order, a write that is answered is acknowledged or lost to another: the document it read cannot have vanished. */
  lemma WriteIsAnswered(s: State, c: nat, reply: WriteReply)
    requires Inv(s) && AtPhase(s, c, true) && !reply.Failed?
    ensures !Seen(s, c, reply).Error?
  {
    assert CallInv(s.docs, s.hist, c, s.calls[c]);
  }

  lemma {:induction false} FaultlessLoop(s: State, c: nat, key: Key, w: Watermark, n: nat, env: seq<Attempt>)
    requires Inv(s) && IsAt(s, c, key, w, Running(n, Reading)) && n + |env| <= MAX_ATTEMPTS && Faultless(env)
    requires forall e :: e in env ==> ByOthers(e.beforeGet, c) && ByOthers(e.beforeWrite, c)
    ensures !HasReturned(Run(s, LoopTrace(s, c, env)), c, key, w, IOError)
    decreases |env|
  {
    if env != [] {
      var t := AttemptTrace(s, c, env[0]);
      var s' := Run(s, t);
      FaultlessAttempt(s, c, key, w, n, env[0]);
      RunConcat(s, t, LoopTrace(s', c, env[1..]));
      if IsAt(s', c, key, w, Running(n + 1, Reading)) {
        FaultlessLoop(s', c, key, w, n + 1, env[1..]);
      } else {
        assert LoopTrace(s', c, env[1..]) == [];
      }
    }
  }

  /** From any reachable state, under any interference, the loop answers with an I/O error only if one of its RPCs failed. */
  lemma IOErrorNeedsFault(s0: State, c: nat, key: Key, w: Watermark, env: seq<Attempt>)
    requires Reachable(s0) && c !in s0.calls && |env| == 4 && Faultless(env)
    requires forall e :: e in env ==> ByOthers(e.beforeGet, c) && ByOthers(e.beforeWrite, c)
    ensures !HasReturned(Run(s0, [Start(c, key, w)] + LoopTrace(Step(s0, Start(c, key, w)), c, env)), c, key, w, IOError)
  {
    ReachableInv(s0);
    StepKeepsInv(s0, Start(c, key, w));
    var s1 := Step(s0, Start(c, key, w));
    FaultlessLoop(s1, c, key, w, 0, env);
    RunConcat(s0, [Start(c, key, w)], LoopTrace(s1, c, env));
    RunOne(s0, Start(c, key, w));
  }
}
