/**
The in-memory watermark store of pkg/signatory/watermark/mem.go.

The Go code keeps three levels of maps (chain, delegate, request kind), creates the
levels that are missing and updates the inner ones through shared references.
`InMemory` has an object for each such map; `Stores` says which flat map, keyed by
all three, they stand for together.
*/
module MemoryStore {
  import opened Request
  import opened Options

  /** The check on the flat map: the state after it, and whether signing is allowed. */
  function Check(store: Store, hash: Hash, pkh: string, m: Message): (r: (Store, bool))
  {
    if m.Unguarded? then (store, true)
    else
      var k, w := KeyOf(pkh, m), NewWatermark(m, hash);
      if k in store && !Validate(w, store[k]) then (store, false)
      else (store[k := w], true)
  }

  /** A check changes at most the entry of its own request, and a refused one changes nothing. */
  lemma CheckChangesOwnEntry(store: Store, hash: Hash, pkh: string, m: Message, k: Key)
    requires m.Consensus? ==> k != KeyOf(pkh, m)
    ensures var r := Check(store, hash, pkh, m);
            (k in r.0 <==> k in store) && (k in store ==> r.0[k] == store[k]) && (!r.1 ==> r.0 == store)
  {
  }

  /** Another key, chain or kind: neither request sees the other. */
  predicate Unrelated(pkh: string, m: Message, pkh': string, m': Message) {
    m.Unguarded? || m'.Unguarded? || pkh != pkh' || m.chain != m'.chain || m.kind != m'.kind
  }

  /** A request is decided alike before and after an unrelated one. */
  lemma UnrelatedDoNotMatter(store: Store, hash: Hash, pkh: string, m: Message, pkh': string, m': Message)
    requires Unrelated(pkh, m, pkh', m')
    ensures Check(Check(store, hash, pkh, m).0, hash, pkh', m').1 == Check(store, hash, pkh', m').1
  {
  }

  /**
   The decision, on the messages themselves: without a watermark a request is accepted; right after an accepted request `a`
   of the same key, chain and kind, request `b` is accepted if and only if it has the same digest or is strictly past `a`.
   A request that is not guarded is always accepted and changes nothing.
   */
  lemma DecidedByLast(store: Store, hash: Hash, pkh: string, a: Message, b: Message)
    requires MessageIn(NonNegative, a) && MessageIn(NonNegative, b)
    ensures a.Unguarded? ==> Check(store, hash, pkh, a) == (store, true)
    ensures a.Consensus? && Key(a.chain, pkh, a.kind) !in store ==> Check(store, hash, pkh, a).1
    ensures a.Consensus? && b.Consensus? && a.chain == b.chain && a.kind == b.kind && Check(store, hash, pkh, a).1 ==>
              (Check(Check(store, hash, pkh, a).0, hash, pkh, b).1 <==>
               hash(a) == hash(b) || b.level > a.level || (b.level == a.level && b.round > a.round))
  {
  }

  // ----- nested maps as shared references -----

  type Requests = map<string, Watermark>

  /** `chain` and `pkh` record the one place the map is linked from. */
  class RequestMap {
    ghost const chain: string
    ghost const pkh: string
    var entries: Requests

    constructor (ghost chain: string, ghost pkh: string)
      ensures entries == map[] && this.chain == chain && this.pkh == pkh
    {
      this.chain, this.pkh := chain, pkh;
      entries := map[];
    }
  }

  class DelegateMap {
    ghost const chain: string
    var delegates: map<string, RequestMap>

    constructor (ghost chain: string)
      ensures delegates == map[] && this.chain == chain
    {
      this.chain := chain;
      delegates := map[];
    }
  }

  class InMemory {
    var chains: map<string, DelegateMap>
    ghost var Maps: set<DelegateMap>
    ghost var Rows: set<RequestMap>

    ghost predicate Linked(c: string)
      reads this
    {
      c in chains ==> chains[c] in Maps && chains[c].chain == c
    }

    ghost predicate HasRow(c: string, p: string)
      reads this, Maps
    {
      c in chains && chains[c] in Maps && p in chains[c].delegates
    }

    ghost predicate RowLinked(c: string, p: string)
      reads this, Maps
    {
      HasRow(c, p) ==> var q := chains[c].delegates[p]; q in Rows && q.chain == c && q.pkh == p
    }

    /** Every linked map sits in its own place: no two chains or delegates share one. */
    ghost predicate Valid()
      reads this, Maps
    {
      (forall c :: Linked(c)) && (forall c, p :: RowLinked(c, p))
    }

    /** What the nested maps hold under a key. */
    ghost function Lookup(k: Key): (w: Option<Watermark>)
      reads this, Maps, Rows
    {
      if HasRow(k.chain, k.pkh) && chains[k.chain].delegates[k.pkh] in Rows && k.kind in chains[k.chain].delegates[k.pkh].entries
      then Some(chains[k.chain].delegates[k.pkh].entries[k.kind])
      else None
    }

    /** The nested maps stand for the flat map `s`. */
    ghost predicate Stores(s: Store)
      reads this, Maps, Rows
    {
      forall k :: Lookup(k) == Get(s, k)
    }

    constructor ()
      ensures Valid() && Stores(map[]) && Maps == {} && Rows == {}
    {
      chains, Maps, Rows := map[], {}, {};
    }

    /** The delegate map of a chain, created and linked in when it is missing. */
    method ChainEntry(c: string, ghost s: Store) returns (d: DelegateMap)
      requires Valid() && Stores(s)
      modifies this
      ensures Valid() && Stores(s)
      ensures c in chains && chains[c] == d && d in Maps
      ensures fresh(Maps - old(Maps)) && Rows == old(Rows)
    {
      if c in chains {
        assert Linked(c);
        return chains[c];
      }
      d := new DelegateMap(c);
      chains := chains[c := d];
      Maps := Maps + {d};
      forall x
        ensures Linked(x)
      {
        assert old(Linked(x));
      }
      forall x, p
        ensures RowLinked(x, p)
      {
        assert old(Linked(x)) && old(RowLinked(x, p));
      }
      forall k
        ensures Lookup(k) == old(Lookup(k))
      {
        assert old(Linked(k.chain));
      }
    }

    /** The request map of a delegate, created and linked in when it is missing. */
    method DelegateEntry(c: string, p: string, d: DelegateMap, ghost s: Store) returns (q: RequestMap)
      requires Valid() && Stores(s) && c in chains && chains[c] == d
      modifies this`Rows, d
      ensures Valid() && Stores(s)
      ensures HasRow(c, p) && d.delegates[p] == q && q in Rows
      ensures fresh(Rows - old(Rows))
    {
      assert Linked(c) && RowLinked(c, p);
      if p in d.delegates {
        return d.delegates[p];
      }
      q := new RequestMap(c, p);
      d.delegates := d.delegates[p := q];
      Rows := Rows + {q};
      forall x
        ensures Linked(x)
      {
        assert old(Linked(x));
      }
      forall x, y
        ensures RowLinked(x, y)
      {
        assert old(Linked(x)) && old(RowLinked(x, y));
      }
      forall k
        ensures Lookup(k) == old(Lookup(k))
      {
        assert old(Linked(k.chain)) && old(RowLinked(k.chain, k.pkh));
      }
    }

    /** Overwrites one entry through the reference to its request map: the flat map changes under that key alone. */
    method Record(c: string, p: string, q: RequestMap, kind: string, w: Watermark, ghost s: Store)
      requires Valid() && Stores(s) && HasRow(c, p) && chains[c].delegates[p] == q && q in Rows
      modifies q
      ensures Valid() && Stores(s[Key(c, p, kind) := w])
    {
      q.entries := q.entries[kind := w];
      forall k
        ensures Lookup(k) == if k == Key(c, p, kind) then Some(w) else old(Lookup(k))
      {
        assert RowLinked(k.chain, k.pkh) && RowLinked(c, p);
      }
    }

    /** The nested maps before and after stand for flat maps related by `Check`. */
    method IsSafeToSign(hash: Hash, pkh: string, m: Message, ghost s: Store) returns (ok: bool)
      requires Valid() && Stores(s)
      modifies this, Maps, Rows
      ensures Valid() && fresh(Maps - old(Maps)) && fresh(Rows - old(Rows))
      ensures Stores(Check(s, hash, pkh, m).0) && ok == Check(s, hash, pkh, m).1
      ensures m.Consensus? ==> m.chain in chains
    {
      if m.Unguarded? {
        return true;
      }
      var d := ChainEntry(m.chain, s);
      var q := DelegateEntry(m.chain, pkh, d, s);
      var w := NewWatermark(m, hash);
      assert Lookup(KeyOf(pkh, m)) == Get(s, KeyOf(pkh, m));
      if m.kind in q.entries {
        if !Validate(w, q.entries[m.kind]) {
          return false;
        }
      }
      Record(m.chain, pkh, q, m.kind, w, s);
      ok := true;
    }

    /** The maps of one chain as a value, as they are written to its file. */
    method Snapshot(c: string, ghost s: Store) returns (t: Delegates)
      requires Valid() && Stores(s) && c in chains
      ensures Slice(t, s, c)
    {
      var d := chains[c];
      assert Linked(c);
      t := map p | p in d.delegates :: d.delegates[p].entries;
      forall p, q
        ensures GetIn(t, p, q) == Get(s, Key(c, p, q))
      {
        assert RowLinked(c, p) && Lookup(Key(c, p, q)) == Get(s, Key(c, p, q));
      }
    }

    /** Fills one fresh request map with decoded entries. */
    method Fill(c: string, p: string, q: RequestMap, row: Requests, ghost s: Store) returns (ghost s': Store)
      requires Valid() && Stores(s) && HasRow(c, p) && chains[c].delegates[p] == q && q in Rows
      modifies q
      ensures Valid() && Stores(s')
      ensures forall k :: Get(s', k) == if k.chain == c && k.pkh == p then GetRow(row, k.kind) else Get(s, k)
    {
      q.entries := row;
      s' := WithRow(s, c, p, row);
      forall k
        ensures Lookup(k) == if k.chain == c && k.pkh == p then GetRow(row, k.kind) else old(Lookup(k))
      {
        assert RowLinked(k.chain, k.pkh) && RowLinked(c, p);
      }
    }
  }

  function Get(s: Store, k: Key): (w: Option<Watermark>) {
    if k in s then Some(s[k]) else None
  }

  function GetRow(row: Requests, kind: string): (w: Option<Watermark>) {
    if kind in row then Some(row[kind]) else None
  }

  /** The flat map with one row replaced. */
  function WithRow(s: Store, c: string, p: string, row: Requests): (s': Store)
    ensures forall k :: Get(s', k) == if k.chain == c && k.pkh == p then GetRow(row, k.kind) else Get(s, k)
  {
    (map k | k in s && (k.chain != c || k.pkh != p) :: s[k]) + (map q | q in row :: Key(c, p, q) := row[q])
  }

  // ----- nested maps as values: the contents of the files -----

  type Delegates = map<string, Requests>
  type Tree = map<string, Delegates>

  function GetIn(d: Delegates, p: string, q: string): (w: Option<Watermark>) {
    if p in d then GetRow(d[p], q) else None
  }

  function GetAt(t: Tree, k: Key): (w: Option<Watermark>) {
    if k.chain in t then GetIn(t[k.chain], k.pkh, k.kind) else None
  }

  /** `d` holds what `s` holds for one chain. */
  ghost predicate Slice(d: Delegates, s: Store, c: string) {
    forall p, q :: GetIn(d, p, q) == Get(s, Key(c, p, q))
  }

  /** Nested values stand for the flat map. */
  ghost predicate Represents(t: Tree, s: Store) {
    forall k :: GetAt(t, k) == Get(s, k)
  }

  /** The in-memory maps of decoded files. */
  method Load(t: Tree) returns (mem: InMemory, ghost s: Store)
    ensures fresh(mem) && fresh(mem.Maps) && fresh(mem.Rows)
    ensures mem.Valid() && mem.Stores(s) && Represents(t, s)
  {
    mem := new InMemory();
    s := map[];
    var todo := t.Keys;
    while todo != {}
      invariant todo <= t.Keys && fresh(mem) && fresh(mem.Maps) && fresh(mem.Rows)
      invariant mem.Valid() && mem.Stores(s)
      invariant forall k :: Get(s, k) == if k.chain in todo then None else GetAt(t, k)
    {
      var c :| c in todo;
      s := LoadChain(mem, c, t[c], s);
      todo := todo - {c};
    }
  }

  /** The rows of a chain have been loaded, except those of the delegates still to do. */
  ghost predicate Partly(s: Store, s0: Store, c: string, delegates: Delegates, todo: set<string>) {
    forall k :: Get(s, k) == if k.chain == c then (if k.pkh in todo then None else GetIn(delegates, k.pkh, k.kind)) else Get(s0, k)
  }

  lemma OneMoreRow(s: Store, s': Store, s0: Store, c: string, delegates: Delegates, todo: set<string>, p: string)
    requires Partly(s, s0, c, delegates, todo) && p in todo && p in delegates
    requires forall k :: Get(s', k) == if k.chain == c && k.pkh == p then GetRow(delegates[p], k.kind) else Get(s, k)
    ensures Partly(s', s0, c, delegates, todo - {p})
  {
  }

  /** One delegate of a decoded file: its map is created if need be, and filled. */
  method LoadRow(mem: InMemory, c: string, p: string, d: DelegateMap, row: Requests, ghost s: Store) returns (ghost s': Store)
    requires mem.Valid() && mem.Stores(s) && c in mem.chains && mem.chains[c] == d && d in mem.Maps
    modifies mem`Rows, d, mem.Rows
    ensures mem.Valid() && mem.Stores(s') && fresh(mem.Rows - old(mem.Rows))
    ensures forall k :: Get(s', k) == if k.chain == c && k.pkh == p then GetRow(row, k.kind) else Get(s, k)
  {
    var q := mem.DelegateEntry(c, p, d, s);
    s' := mem.Fill(c, p, q, row, s);
  }

  method LoadChain(mem: InMemory, c: string, delegates: Delegates, ghost s0: Store) returns (ghost s: Store)
    requires mem.Valid() && mem.Stores(s0)
    requires forall k :: k in s0 ==> k.chain != c
    modifies mem, mem.Maps, mem.Rows
    ensures mem.Valid() && mem.Stores(s) && fresh(mem.Maps - old(mem.Maps)) && fresh(mem.Rows - old(mem.Rows))
    ensures forall k :: Get(s, k) == if k.chain == c then GetIn(delegates, k.pkh, k.kind) else Get(s0, k)
  {
    s := s0;
    var d := mem.ChainEntry(c, s);
    var todo := delegates.Keys;
    while todo != {}
      invariant todo <= delegates.Keys
      invariant mem.Valid() && mem.Stores(s) && fresh(mem.Maps - old(mem.Maps)) && fresh(mem.Rows - old(mem.Rows))
      invariant c in mem.chains && mem.chains[c] == d && d in mem.Maps
      invariant Partly(s, s0, c, delegates, todo)
    {
      var p :| p in todo;
      ghost var before := s;
      s := LoadRow(mem, c, p, d, delegates[p], s);
      OneMoreRow(before, s, s0, c, delegates, todo, p);
      todo := todo - {p};
    }
  }
}
