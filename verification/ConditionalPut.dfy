/**
The atomic conditional put of pkg/signatory/watermark/aws.go, and sequential
histories of such puts: the reference that the retry loop of gcp.go is compared with.
*/
module ConditionalPut {
  import opened Request
  import opened MemoryStore
  import opened Signing

  /** The ordering part of the condition expression, and `supersededBy` of gcp.go: no wrap-around here. */
  predicate SupersededBy(stored: Watermark, next: Watermark) {
    stored.level < next.level || (stored.level == next.level && stored.round < next.round)
  }

  predicate Condition(items: Store, k: Key, w: Watermark) {
    k !in items || SupersededBy(items[k], w)
  }

  /** One conditional put: the table after it, and whether the condition held. */
  function CondPut(items: Store, k: Key, w: Watermark): (r: (Store, bool)) {
    if Condition(items, k, w) then (items[k := w], true) else (items, false)
  }

  /** What the network does to a put. A lost request, a lost reply and a failed condition look the same to the caller. */
  datatype Fate = Delivered | RequestLost | ReplyLost

  /** The table after such a put, and the caller's answer: success is told only for a put that took effect. */
  function Served(items: Store, k: Key, w: Watermark, fate: Fate): (r: (Store, bool)) {
    (if fate.RequestLost? then items else CondPut(items, k, w).0, fate.Delivered? && Condition(items, k, w))
  }

  class Table {
    var items: Store

    constructor ()
      ensures items == map[]
    {
      items := map[];
    }

    /** `putItem`: every error reads as ErrWatermark. */
    method PutItem(k: Key, w: Watermark, fate: Fate) returns (ok: bool)
      modifies this
      ensures (items, ok) == Served(old(items), k, w, fate)
    {
      if fate.RequestLost? {
        return false;
      }
      ok := k !in items || SupersededBy(items[k], w);
      if ok {
        items := items[k := w];
      }
      if fate.ReplyLost? {
        ok := false;
      }
    }

    method IsSafeToSign(hash: Hash, pkh: string, m: Message, fate: Fate) returns (ok: bool)
      modifies this
      ensures m.Unguarded? ==> ok && items == old(items)
      ensures m.Consensus? && fate.Delivered? ==>
                (ok <==>
                 var k := Key(m.chain, pkh, m.kind);
                 && (k in old(items) ==>
                       m.level > old(items)[k].level || (m.level == old(items)[k].level && m.round > old(items)[k].round)))
      ensures m.Consensus? && !fate.Delivered? ==> !ok
      ensures m.Consensus? && ok ==>
                && Condition(old(items), KeyOf(pkh, m), NewWatermark(m, hash))
                && items == old(items)[KeyOf(pkh, m) := NewWatermark(m, hash)]
      ensures m.Consensus? && !ok ==> items == old(items) || (fate.ReplyLost? && items == old(items)[KeyOf(pkh, m) := NewWatermark(m, hash)])
    {
      if m.Unguarded? {
        return true;
      }
      ok := PutItem(KeyOf(pkh, m), NewWatermark(m, hash), fate);
    }
  }

  // ----- sequential histories -----

  datatype Put = Put(call: nat, key: Key, w: Watermark, ok: bool)

  /** The table after a history of puts. */
  function Replay(h: seq<Put>): (items: Store) {
    if h == [] then map[]
    else
      var p := h[|h| - 1];
      var items := Replay(h[..|h| - 1]);
      if p.ok then items[p.key := p.w] else items
  }

  /** Each put answers what the atomic put answers at its place. */
  predicate Legal(h: seq<Put>) {
    h == [] ||
    var p := h[|h| - 1];
    Legal(h[..|h| - 1]) && p.ok == Condition(Replay(h[..|h| - 1]), p.key, p.w)
  }

  lemma ExtendHistory(h: seq<Put>, p: Put)
    requires Legal(h) && p.ok == Condition(Replay(h), p.key, p.w)
    ensures Legal(h + [p])
    ensures Replay(h + [p]) == if p.ok then Replay(h)[p.key := p.w] else Replay(h)
  {
  }

  /** What the table holds is at or above every successful put of the history. */
  lemma {:induction false} TableIsHighest(h: seq<Put>, i: nat)
    requires Legal(h) && i < |h| && h[i].ok
    ensures h[i].key in Replay(h) && Covers(Replay(h)[h[i].key], h[i].w)
  {
    var n := |h| - 1;
    if i < n {
      TableIsHighest(h[..n], i);
    }
  }

  /** Successful puts under one key are strictly increasing: no two share a (level, round). */
  lemma {:induction false} SuccessesIncrease(h: seq<Put>, i: nat, j: nat)
    requires Legal(h) && i < j < |h| && h[i].ok && h[j].ok && h[i].key == h[j].key
    ensures Above(h[j].w, h[i].w)
  {
    var n := |h| - 1;
    if j < n {
      SuccessesIncrease(h[..n], i, j);
    } else {
      TableIsHighest(h[..n], i);
    }
  }

  // ----- agreement with the in-memory store -----

  /** The request repeats the message its key's watermark was made from. */
  predicate Repeats(store: Store, e: Entry, hash: Hash) {
    e.m.Consensus? && KeyOf(e.pkh, e.m) in store && store[KeyOf(e.pkh, e.m)] == NewWatermark(e.m, hash)
  }

  function PutStep(items: Store, e: Entry, hash: Hash): (r: (Store, bool)) {
    if e.m.Unguarded? then (items, true) else CondPut(items, KeyOf(e.pkh, e.m), NewWatermark(e.m, hash))
  }

  function PutRun(items: Store, es: seq<Entry>, hash: Hash): (r: (Store, seq<bool>))
    decreases |es|
  {
    if es == [] then (items, [])
    else
      var (items', ok) := PutStep(items, es[0], hash);
      var (last, oks) := PutRun(items', es[1..], hash);
      (last, [ok] + oks)
  }

  function MemRun(store: Store, es: seq<Entry>, hash: Hash): (r: (Store, seq<bool>))
    decreases |es|
  {
    if es == [] then (store, [])
    else
      var (store', ok) := Check(store, hash, es[0].pkh, es[0].m);
      var (last, oks) := MemRun(store', es[1..], hash);
      (last, [ok] + oks)
  }

  /** Which requests of the run are exact repeats of their key's last accepted message. */
  function RepeatRun(store: Store, es: seq<Entry>, hash: Hash): (r: seq<bool>)
    decreases |es|
  {
    if es == [] then []
    else [Repeats(store, es[0], hash)] + RepeatRun(Check(store, hash, es[0].pkh, es[0].m).0, es[1..], hash)
  }

  /** One request: same store afterwards; memory accepts what the put accepts, and exact repeats. */
  lemma StepsAgree(s: State, e: Entry, hash: Hash, ms: set<Message>)
    requires Inv(s, hash, ms, NonNegative) && Admissible([Guard(e)], hash, ms, NonNegative)
    ensures var (mem, ok) := Check(s.store, hash, e.pkh, e.m);
            && mem == PutStep(s.store, e, hash).0
            && (ok <==> PutStep(s.store, e, hash).1 || Repeats(s.store, e, hash))
    ensures Repeats(s.store, e, hash) ==> e in s.approved
  {
    assert Guard(e) in [Guard(e)];
    if e.m.Consensus? && KeyOf(e.pkh, e.m) in s.store {
      var k := KeyOf(e.pkh, e.m);
      var x :| x in s.approved && Backs(x, k, s.store[k], hash);
      ValidateNonNegative(NewWatermark(e.m, hash), s.store[k]);
      if Check(s.store, hash, e.pkh, e.m).1 {
        AcceptedRepeatsOrAdvances(s, e, hash, ms, NonNegative);
      }
    }
  }

  /**
   Fed the same requests from the empty state, the two stores hold the same watermarks at the end
   (hence after every prefix), and memory accepts exactly what the put accepts plus exact repeats.
   */
  lemma BackendsAgree(es: seq<Entry>, hash: Hash)
    requires CollisionFree(hash, set e | e in es :: e.m) && forall e :: e in es ==> MessageIn(NonNegative, e.m)
    ensures var (mem, memOks) := MemRun(map[], es, hash);
            var (items, putOks) := PutRun(map[], es, hash);
            mem == items && |memOks| == |es| && Agreement(memOks, putOks, RepeatRun(map[], es, hash))
  {
    RunsAgree(Init, es, hash, set e | e in es :: e.m);
  }

  predicate Agreement(mem: seq<bool>, put: seq<bool>, repeats: seq<bool>) {
    |mem| == |put| == |repeats| && forall i :: 0 <= i < |mem| ==> (mem[i] <==> put[i] || repeats[i])
  }

  lemma AgreementCons(mem: seq<bool>, put: seq<bool>, repeats: seq<bool>, m: bool, p: bool, r: bool)
    requires Agreement(mem, put, repeats) && (m <==> p || r)
    ensures Agreement([m] + mem, [p] + put, [r] + repeats)
  {
  }

  lemma {:induction false} RunsAgree(s: State, es: seq<Entry>, hash: Hash, ms: set<Message>)
    requires Inv(s, hash, ms, NonNegative) && CollisionFree(hash, ms)
    requires forall e :: e in es ==> e.m in ms && MessageIn(NonNegative, e.m)
    ensures var (mem, memOks) := MemRun(s.store, es, hash);
            var (items, putOks) := PutRun(s.store, es, hash);
            mem == items && |memOks| == |es| && Agreement(memOks, putOks, RepeatRun(s.store, es, hash))
    decreases |es|
  {
    if es != [] {
      StepsAgree(s, es[0], hash, ms);
      GuardKeepsInv(s, es[0], hash, ms, NonNegative);
      var s' := Step(s, Guard(es[0]), hash);
      RunsAgree(s', es[1..], hash, ms);
      AgreementCons(MemRun(s'.store, es[1..], hash).1, PutRun(s'.store, es[1..], hash).1, RepeatRun(s'.store, es[1..], hash),
                    Check(s.store, hash, es[0].pkh, es[0].m).1, PutStep(s.store, es[0], hash).1, Repeats(s.store, es[0], hash));
    }
  }
}
