/**
The connection-managing RPC client of pkg/vault/confidentialspace/rpc/client.go.

The protocol is lockstep and has no request ids: the next frame read from a
connection is taken as the reply to the request just written. A connection is
modelled by the replies still to come on its stream, each tagged with the request
it answers; the tag is what the client itself cannot see.

A request or a reply that is cut in the middle of its frame leaves the two ends
disagreeing on where frames begin: a torn connection. What is read from it from then
on is put together from pieces of several frames and answers no request.
*/
module RpcClient {
  import opened Options

  /** `alive` is false once a connection-level failure has been seen: nothing more is delivered. */
  datatype Conn = Conn(alive: bool, torn: bool, stream: seq<nat>)

  const FreshConn := Conn(true, false, [])

  /** What becomes of one round trip. */
  datatype Fate =
    | Served           // the next frame is read in full and holds a result
    | Refused          // the next frame is read in full and holds an RPC error
    | Undecodable      // the next frame is read in full and cannot be decoded
    | Truncated        // the next frame is read in full and its CBOR ends too soon: looks like a closed connection
    | Lost             // the connection fails
    | CancelledEarly   // the context ends before any of the request is written
    | CancelledWriting // the context ends with part of the request written
    | CancelledMid     // the context ends after the request is written, before any of its reply is read
    | CancelledReading // the context ends with part of the reply read
    | CancelledLate    // the context ends after the reply is read; the result is dropped
  {
    /** The request or its reply is abandoned on the way. */
    predicate Interrupts() {
      CancelledWriting? || CancelledMid? || CancelledReading?
    }

    predicate Cancels() {
      CancelledEarly? || Interrupts() || CancelledLate?
    }
  }

  /** What the caller gets; `of` is the request, if any, that the delivered frame really answers. */
  datatype Outcome = Reply(of: Option<nat>) | RpcError(of: Option<nat>) | DecodeError | ConnError | Cancelled | ReconnectFailed

  /** `RoundTripRaw` of request `id`. */
  function RoundTrip(c: Conn, id: nat, fate: Fate): (r: (Conn, Outcome)) {
    var s := c.stream + [id];
    var read := c.(stream := s[1..]);
    var of := if c.torn then None else Some(s[0]);
    match fate
    case CancelledEarly => (c, Cancelled)
    case CancelledWriting => (c.(torn := true), Cancelled)
    case CancelledMid => (c.(stream := s), Cancelled)
    case CancelledReading => (read.(torn := true), Cancelled)
    case CancelledLate => (if c.alive then read else c, Cancelled)
    case Lost => (c.(alive := false), ConnError)
    case Served => if c.alive then (read, Reply(of)) else (c, ConnError)
    case Refused => if c.alive then (read, RpcError(of)) else (c, ConnError)
    case Undecodable => if c.alive then (read, DecodeError) else (c, ConnError)
    case Truncated => (if c.alive then read else c, ConnError)
  }

  /** A dial and the Initialize handshake on the new connection. */
  datatype Dial = Dial(connects: bool, handshake: Fate)

  const INITIALIZE: nat := 0

  /** `connectLocked`: a fresh connection, or none. */
  function Connect(d: Dial): (c: Option<Conn>) {
    if !d.connects then None
    else
      var (c, o) := RoundTrip(FreshConn, INITIALIZE, d.handshake);
      if o.Reply? then Some(c) else None
  }

  /** One RPC: its request and all that its environment does to it. `ctxDone`: the context has ended by the time it is looked at. */
  datatype Call = Call(id: nat, open: Dial, first: Fate, ctxDone: bool, reopen: Dial, retry: Fate)

  predicate ContextEnded(call: Call) {
    call.first.Cancels() || call.ctxDone
  }

  /** `doRPC`. */
  function DoRpc(conn: Option<Conn>, call: Call): (r: (Option<Conn>, Outcome)) {
    var c := if conn.None? then Connect(call.open) else conn;
    if c.None? then (None, ReconnectFailed)
    else
      var (c1, o1) := RoundTrip(c.value, call.id, call.first);
      if o1.Reply? then (Some(c1), o1)
      else if ContextEnded(call) then (None, o1)
      else if !o1.ConnError? then (Some(c1), o1)
      else
        var d := Connect(call.reopen);
        if d.None? then (None, ReconnectFailed)
        else
          var (c2, o2) := RoundTrip(d.value, call.id, call.retry);
          (Some(c2), o2)
  }

  function Run(conn: Option<Conn>, calls: seq<Call>): (r: (Option<Conn>, seq<Outcome>))
    decreases |calls|
  {
    if calls == [] then (conn, [])
    else
      var (c, o) := DoRpc(conn, calls[0]);
      var (last, os) := Run(c, calls[1..]);
      (last, [o] + os)
  }

  // ----- lockstep -----

  /** No reply to an earlier request is still to come, and both ends agree on where frames begin. */
  predicate InStep(conn: Option<Conn>) {
    conn.Some? && conn.value.alive ==> conn.value.stream == [] && !conn.value.torn
  }

  /** A frame handed to the caller answers the caller's own request. */
  predicate Answers(o: Outcome, id: nat) {
    o.Reply? || o.RpcError? ==> o.of == Some(id)
  }

  /** The call got as far as its second attempt on a new connection. */
  predicate Retries(conn: Option<Conn>, call: Call) {
    var c := if conn.None? then Connect(call.open) else conn;
    && c.Some?
    && RoundTrip(c.value, call.id, call.first).1.ConnError?
    && !ContextEnded(call)
    && Connect(call.reopen).Some?
  }

  /** The context ended between the first byte of the second attempt's request and the last of its reply: the one case without a discard. */
  predicate RetryInterrupted(conn: Option<Conn>, call: Call) {
    Retries(conn, call) && call.retry.Interrupts()
  }

  /** A dial leaves a connection if and only if it is made and the handshake is served; a refused handshake does not. */
  lemma ConnectIff(d: Dial)
    ensures Connect(d).Some? <==> d.connects && d.handshake.Served?
  {
  }

  lemma ConnectIsFresh(d: Dial)
    ensures Connect(d).Some? ==> Connect(d).value == FreshConn
  {
  }

  lemma RoundTripInStep(c: Conn, id: nat, fate: Fate)
    requires InStep(Some(c))
    ensures Answers(RoundTrip(c, id, fate).1, id)
    ensures InStep(Some(RoundTrip(c, id, fate).0)) <==> !(fate.Interrupts() && c.alive)
  {
  }

  /** From a client in step, a call returns its own reply, and leaves the client in step if and only if its retry was not interrupted. */
  lemma CallInStep(conn: Option<Conn>, call: Call)
    requires InStep(conn)
    ensures Answers(DoRpc(conn, call).1, call.id)
    ensures InStep(DoRpc(conn, call).0) <==> !RetryInterrupted(conn, call)
  {
    ConnectIsFresh(call.open);
    ConnectIsFresh(call.reopen);
    var c := if conn.None? then Connect(call.open) else conn;
    if c.Some? {
      RoundTripInStep(c.value, call.id, call.first);
      RoundTripInStep(FreshConn, call.id, call.retry);
    }
  }

  /** No call of the run has its retry interrupted. */
  predicate Uninterrupted(conn: Option<Conn>, calls: seq<Call>)
    decreases |calls|
  {
    calls == [] || (!RetryInterrupted(conn, calls[0]) && Uninterrupted(DoRpc(conn, calls[0]).0, calls[1..]))
  }

  predicate AllAnswered(calls: seq<Call>, os: seq<Outcome>)
    requires |calls| == |os|
  {
    forall i :: 0 <= i < |calls| ==> Answers(os[i], calls[i].id)
  }

  /** Over every run without an interrupted retry, every caller gets the reply to its own request. */
  lemma {:induction false} RunsAnswerTheirCallers(conn: Option<Conn>, calls: seq<Call>)
    requires InStep(conn) && Uninterrupted(conn, calls)
    ensures |Run(conn, calls).1| == |calls| && AllAnswered(calls, Run(conn, calls).1)
    ensures InStep(Run(conn, calls).0)
    decreases |calls|
  {
    if calls != [] {
      CallInStep(conn, calls[0]);
      RunsAnswerTheirCallers(DoRpc(conn, calls[0]).0, calls[1..]);
    }
  }

  /** Without a connection, a dial that is not both made and served ends the call. */
  lemma DialFails(call: Call)
    requires !(call.open.connects && call.open.handshake.Served?)
    ensures DoRpc(None, call) == (None, ReconnectFailed)
  {
  }

  /** A served dial puts the call where a fresh connection would. */
  lemma DialSucceeds(call: Call)
    requires call.open.connects && call.open.handshake.Served?
    ensures DoRpc(None, call) == DoRpc(Some(FreshConn), call)
  {
    ConnectIsFresh(call.open);
  }

  /** The first attempt fails in the way that is retried: the connection is lost, was lost before, or a reply ends too soon. */
  predicate Breaks(c: Conn, fate: Fate) {
    fate.Lost? || fate.Truncated? || (!c.alive && !fate.Cancels())
  }

  lemma RetriesIff(c: Conn, call: Call)
    ensures Retries(Some(c), call) <==> Breaks(c, call.first) && !call.ctxDone && call.reopen.connects && call.reopen.handshake.Served?
  {
  }

  /** After a broken first attempt, a redial that is not both made and served ends the call without a connection. */
  lemma RedialFails(c: Conn, call: Call)
    requires Breaks(c, call.first) && !call.ctxDone && !(call.reopen.connects && call.reopen.handshake.Served?)
    ensures DoRpc(Some(c), call) == (None, ReconnectFailed)
  {
  }

  /** A good redial keeps the new connection whatever comes of the second attempt: its reply, its error, or a failure. */
  lemma RetryOutcome(c: Conn, call: Call)
    requires Retries(Some(c), call)
    ensures var (c', o) := DoRpc(Some(c), call);
            && c'.Some?
            && (call.retry.Served? ==> c' == Some(FreshConn) && o == Reply(Some(call.id)))
            && (call.retry.Refused? ==> c' == Some(FreshConn) && o == RpcError(Some(call.id)))
            && (call.retry.Undecodable? ==> c' == Some(FreshConn) && o == DecodeError)
            && (call.retry.Lost? || call.retry.Truncated? ==> o == ConnError)
            && (call.retry.Cancels() ==> o == Cancelled)
  {
    ConnectIsFresh(call.reopen);
    assert ([] + [call.id])[1..] == [];
  }

  /** A call whose connection fails still gets its reply when the redial and the second attempt go well. */
  lemma RetryDelivers(conn: Option<Conn>, call: Call)
    requires Retries(conn, call) && call.retry.Served?
    ensures DoRpc(conn, call) == (Some(FreshConn), Reply(Some(call.id)))
  {
    ConnectIsFresh(call.open);
    ConnectIsFresh(call.reopen);
    assert ([] + [call.id])[1..] == [];
  }

  /**
   A first attempt that is answered is not repeated: a result keeps the connection, and so do an RPC error and an
   undecodable reply unless the context has ended; one cut short by the context gives the connection up.
   */
  lemma FirstAttempt(c: Conn, call: Call)
    requires c.alive && InStep(Some(c))
    ensures call.first.Served? ==> DoRpc(Some(c), call) == (Some(c), Reply(Some(call.id)))
    ensures call.first.Refused? ==> DoRpc(Some(c), call) == (if call.ctxDone then None else Some(c), RpcError(Some(call.id)))
    ensures call.first.Undecodable? ==> DoRpc(Some(c), call) == (if call.ctxDone then None else Some(c), DecodeError)
    ensures call.first.Cancels() ==> DoRpc(Some(c), call) == (None, Cancelled)
    ensures Breaks(c, call.first) && call.ctxDone ==> DoRpc(Some(c), call) == (None, ConnError)
  {
    assert ([] + [call.id])[1..] == [];
  }

  // ----- the condition is exact -----

  /** Whatever calls follow, short of an interrupted retry, their callers get their own replies. */
  ghost predicate StaysSafe(conn: Option<Conn>) {
    forall calls :: Uninterrupted(conn, calls) ==>
      var os := Run(conn, calls).1; |os| == |calls| && AllAnswered(calls, os)
  }

  /** A client can be trusted for all that follows if and only if it is in step. */
  lemma SafeIffInStep(conn: Option<Conn>)
    ensures StaysSafe(conn) <==> InStep(conn)
  {
    if InStep(conn) {
      forall calls | Uninterrupted(conn, calls)
        ensures var os := Run(conn, calls).1; |os| == |calls| && AllAnswered(calls, os)
      {
        RunsAnswerTheirCallers(conn, calls);
      }
    } else {
      var c := conn.value;
      var id := if c.stream == [] then 0 else c.stream[0] + 1;
      var call := Call(id, Dial(false, Served), Served, false, Dial(false, Served), Served);
      var o := DoRpc(conn, call).1;
      assert o.Reply? && o.of != Some(id);
      assert [call][1..] == [];
      assert Uninterrupted(conn, [call]);
      assert Run(conn, [call]).1 == [o] + [];
      assert !Answers(Run(conn, [call]).1[0], [call][0].id);
    }
  }

  /** So one call endangers its successors if and only if its retry is interrupted. */
  lemma EndangersIff(conn: Option<Conn>, call: Call)
    requires InStep(conn)
    ensures !StaysSafe(DoRpc(conn, call).0) <==> RetryInterrupted(conn, call)
  {
    CallInStep(conn, call);
    SafeIffInStep(DoRpc(conn, call).0);
  }

  /**
   Runs that go wrong, one for each way to be interrupted: the first call loses its connection, redials and is
   cancelled in its retry; the second gets the first's reply, or one that answers no request.
   */
  lemma InterruptedRetryMisdelivers(how: Fate)
    requires how.Interrupts()
    ensures var ok := Dial(true, Served);
            var calls := [Call(1, ok, Lost, false, ok, how), Call(2, ok, Served, false, ok, Served)];
            Run(None, calls).1 == [Cancelled, Reply(if how.CancelledMid? then Some(1) else None)]
  {
    var ok := Dial(true, Served);
    var a, b := Call(1, ok, Lost, false, ok, how), Call(2, ok, Served, false, ok, Served);
    ConnectIsFresh(ok);
    var c := Some(Conn(true, !how.CancelledMid?, if how.CancelledMid? then [1] else []));
    assert DoRpc(None, a) == (c, Cancelled) by {
      assert [] + [1] == [1] && [1][1..] == [];
    }
    var o := DoRpc(c, b).1;
    assert [a, b][1..] == [b] && [b][1..] == [];
    assert Run(c, [b]).1 == [o] + [];
  }

  // ----- the client as an object -----

  class Client {
    var conn: Option<Conn>

    constructor ()
      ensures conn == None
    {
      conn := None;
    }

    /** Whatever was outstanding or torn, every later call gets its own reply. */
    method Close()
      modifies this
      ensures conn == None && StaysSafe(conn)
    {
      conn := None;
      SafeIffInStep(conn);
    }

    method ConnectLocked(d: Dial) returns (ok: bool)
      modifies this
      ensures conn == Connect(d) && ok == conn.Some?
    {
      conn := None;
      if !d.connects {
        return false;
      }
      var (c, o) := RoundTrip(FreshConn, INITIALIZE, d.handshake);
      if !o.Reply? {
        return false;
      }
      conn := Some(c);
      ok := true;
    }

    method Do(call: Call) returns (o: Outcome)
      modifies this
      ensures (conn, o) == DoRpc(old(conn), call)
      ensures old(InStep(conn)) ==> Answers(o, call.id)
    {
      if InStep(conn) {
        CallInStep(conn, call);
      }
      if conn.None? {
        var ok := ConnectLocked(call.open);
        if !ok {
          return ReconnectFailed;
        }
      }
      var (c, res) := RoundTrip(conn.value, call.id, call.first);
      conn := Some(c);
      if res.Reply? {
        return res;
      }
      if ContextEnded(call) {
        conn := None;
        return res;
      }
      if !res.ConnError? {
        return res;
      }
      var ok := ConnectLocked(call.reopen);
      if !ok {
        return ReconnectFailed;
      }
      var (c2, res2) := RoundTrip(conn.value, call.id, call.retry);
      conn := Some(c2);
      o := res2;
    }
  }
}
