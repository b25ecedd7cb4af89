/**
The file-backed watermark store of pkg/signatory/watermark/file.go: the in-memory
maps, and one file per chain that is replaced by rename after each accepted request.

A run interleaves requests, failing writes (also ones that fail after the rename
took effect, pkg/utils/utils.go:166-181), crashes, restarts and vault calls.
*/
module FileStore {
  import opened Request
  import opened MemoryStore
  import opened Signing
  import opened Options

  /** What becomes of the write that follows an accepted check. */
  datatype WriteOutcome = Written | FailedBefore | FailedAfter | CrashedBefore | CrashedAfter {
    predicate Renamed() {
      Written? || FailedAfter? || CrashedAfter?
    }

    predicate Crashed() {
      CrashedBefore? || CrashedAfter?
    }
  }

  /** Replaces the file of one chain by the in-memory maps of that chain. */
  function Publish(disk: Store, mem: Store, chain: string): (d: Store)
    ensures forall k :: k in d <==> if k.chain == chain then k in mem else k in disk
    ensures forall k :: k in d ==> d[k] == if k.chain == chain then mem[k] else disk[k]
  {
    map k | k in disk.Keys + mem.Keys && (if k.chain == chain then k in mem else k in disk)
      :: if k.chain == chain then mem[k] else disk[k]
  }

  datatype Action =
    | Request(e: Entry, outcome: WriteOutcome)
    | VaultSign(e: Entry)
    | Crash
    | Restart

  /** `mem` is absent while the process is down. */
  datatype State = State(mem: Option<Store>, disk: Store, approved: set<Entry>, signed: seq<Entry>)

  function Start(disk: Store): State {
    State.State(Some(disk), disk, {}, [])
  }

  /** `File.IsSafeToSign`: check in memory, then write; the request is approved only when the write succeeds. */
  function Handle(s: State, e: Entry, o: WriteOutcome, hash: Hash): (s': State)
    requires s.mem.Some?
  {
    var (mem, ok) := Check(s.mem.value, hash, e.pkh, e.m);
    if e.m.Unguarded? then s.(approved := s.approved + {e})
    else if !ok then s
    else
      State.State(if o.Crashed() then None else Some(mem),
                  if o.Renamed() then Publish(s.disk, mem, e.m.chain) else s.disk,
                  if o.Written? then s.approved + {e} else s.approved,
                  s.signed)
  }

  function Step(s: State, a: Action, hash: Hash): (s': State) {
    match a
    case Request(e, o) => if s.mem.Some? then Handle(s, e, o, hash) else s
    case VaultSign(e) => if e in s.approved then s.(signed := s.signed + [e]) else s
    case Crash => s.(mem := None)
    case Restart => if s.mem.None? then s.(mem := Some(s.disk)) else s
  }

  function Run(s: State, acts: seq<Action>, hash: Hash): (s': State)
    decreases |acts|
  {
    if acts == [] then s else Run(Step(s, acts[0], hash), acts[1..], hash)
  }

  // ----- assumptions on a run -----

  /** A stored digest of one of the messages comes with that message's level and round. */
  ghost predicate Sound(w: Watermark, hash: Hash, ms: set<Message>) {
    forall m :: m in ms && m.Consensus? && w.hash == Some(hash(m)) ==> w == NewWatermark(m, hash)
  }

  ghost predicate SoundStore(s: Store, hash: Hash, ms: set<Message>, win: Window) {
    forall k :: k in s ==> Sound(s[k], hash, ms) && WatermarkIn(win, s[k])
  }

  ghost predicate Admits(a: Action, ms: set<Message>, win: Window) {
    a.Request? ==> a.e.m in ms && MessageIn(win, a.e.m)
  }

  ghost predicate Setting(hash: Hash, ms: set<Message>, win: Window) {
    CollisionFree(hash, ms) && win.Narrow()
  }

  // ----- the invariant -----

  /** Every entry of `low` is covered in `high`. */
  ghost predicate StoreCovers(high: Store, low: Store) {
    forall k :: k in low ==> k in high && Covers(high[k], low[k])
  }

  ghost predicate AllCovered(disk: Store, approved: set<Entry>, hash: Hash) {
    forall e :: e in approved ==> CoveredBy(disk, e, hash)
  }

  ghost predicate Distinct(approved: set<Entry>) {
    forall a, b :: a in approved && b in approved && SamePlace(a, b) ==> a == b
  }

  /** No approved message lies at or below a watermark the run started with, unless it is that very one. */
  ghost predicate Respects(approved: set<Entry>, disk0: Store, hash: Hash) {
    forall e :: e in approved && e.m.Consensus? && KeyOf(e.pkh, e.m) in disk0 ==>
      Covers(NewWatermark(e.m, hash), disk0[KeyOf(e.pkh, e.m)])
  }

  ghost predicate Inv(s: State, disk0: Store, hash: Hash, ms: set<Message>, win: Window) {
    && SoundStore(s.disk, hash, ms, win)
    && (s.mem.Some? ==> SoundStore(s.mem.value, hash, ms, win) && StoreCovers(s.mem.value, s.disk))
    && StoreCovers(s.disk, disk0)
    && AllCovered(s.disk, s.approved, hash)
    && Distinct(s.approved)
    && Respects(s.approved, disk0, hash)
    && Within(s.approved, ms)
    && forall e :: e in s.signed ==> e in s.approved
  }

  ghost predicate Within(approved: set<Entry>, ms: set<Message>) {
    forall e :: e in approved && e.m.Consensus? ==> e.m in ms
  }

  // ----- every step keeps it -----

  lemma StoreCoversTransitive(a: Store, b: Store, c: Store)
    requires StoreCovers(a, b) && StoreCovers(b, c)
    ensures StoreCovers(a, c)
  {
  }

  /** An accepted check repeats what memory holds or goes past it, and keeps memory sound. */
  lemma AcceptedCovers(mem: Store, e: Entry, hash: Hash, ms: set<Message>, win: Window)
    requires Setting(hash, ms, win) && SoundStore(mem, hash, ms, win)
    requires e.m in ms && MessageIn(win, e.m) && e.m.Consensus? && Check(mem, hash, e.pkh, e.m).1
    ensures var mem' := Check(mem, hash, e.pkh, e.m).0;
            SoundStore(mem', hash, ms, win) && StoreCovers(mem', mem) && mem'[KeyOf(e.pkh, e.m)] == NewWatermark(e.m, hash)
  {
    var k, w := KeyOf(e.pkh, e.m), NewWatermark(e.m, hash);
    if k in mem {
      ValidateInWindow(win, w, mem[k]);
    }
  }

  lemma PublishCovers(disk: Store, mem: Store, chain: string)
    requires StoreCovers(mem, disk)
    ensures StoreCovers(Publish(disk, mem, chain), disk) && StoreCovers(mem, Publish(disk, mem, chain))
  {
  }

  lemma ApprovalKeepsDistinct(disk: Store, approved: set<Entry>, e: Entry, hash: Hash, ms: set<Message>)
    requires CollisionFree(hash, ms) && Distinct(approved) && Within(approved, ms) && AllCovered(disk, approved, hash)
    requires e.m.Consensus? && e.m in ms && KeyOf(e.pkh, e.m) in disk && disk[KeyOf(e.pkh, e.m)] == NewWatermark(e.m, hash)
    ensures Distinct(approved + {e}) && AllCovered(disk, approved + {e}, hash)
  {
  }

  lemma CoveredStays(high: Store, low: Store, approved: set<Entry>, hash: Hash)
    requires StoreCovers(high, low) && AllCovered(low, approved, hash)
    ensures AllCovered(high, approved, hash)
  {
  }

  lemma HandleKeepsInv(s: State, disk0: Store, e: Entry, o: WriteOutcome, hash: Hash, ms: set<Message>, win: Window)
    requires Inv(s, disk0, hash, ms, win) && Setting(hash, ms, win) && e.m in ms && MessageIn(win, e.m)
    requires s.mem.Some? && e.m.Consensus? && Check(s.mem.value, hash, e.pkh, e.m).1
    ensures Inv(Handle(s, e, o, hash), disk0, hash, ms, win)
  {
    var mem := Check(s.mem.value, hash, e.pkh, e.m).0;
    var k := KeyOf(e.pkh, e.m);
    AcceptedCovers(s.mem.value, e, hash, ms, win);
    StoreCoversTransitive(mem, s.mem.value, s.disk);
    var disk := Publish(s.disk, mem, e.m.chain);
    PublishCovers(s.disk, mem, e.m.chain);
    if o.Renamed() {
      StoreCoversTransitive(disk, s.disk, disk0);
      CoveredStays(disk, s.disk, s.approved, hash);
      ApprovalKeepsDistinct(disk, s.approved, e, hash, ms);
      assert k in disk0 ==> Covers(disk[k], disk0[k]);
    }
  }

  lemma StepKeepsInv(s: State, disk0: Store, a: Action, hash: Hash, ms: set<Message>, win: Window)
    requires Inv(s, disk0, hash, ms, win) && Setting(hash, ms, win) && Admits(a, ms, win)
    ensures Inv(Step(s, a, hash), disk0, hash, ms, win)
  {
    match a
    case Request(e, o) =>
      if s.mem.Some? && e.m.Consensus? && Check(s.mem.value, hash, e.pkh, e.m).1 {
        HandleKeepsInv(s, disk0, e, o, hash, ms, win);
      }
    case _ =>
  }

  lemma {:induction false} RunKeepsInv(s: State, disk0: Store, acts: seq<Action>, hash: Hash, ms: set<Message>, win: Window)
    requires Inv(s, disk0, hash, ms, win) && Setting(hash, ms, win)
    requires forall a :: a in acts ==> Admits(a, ms, win)
    ensures Inv(Run(s, acts, hash), disk0, hash, ms, win)
    decreases |acts|
  {
    if acts != [] {
      StepKeepsInv(s, disk0, acts[0], hash, ms, win);
      RunKeepsInv(Step(s, acts[0], hash), disk0, acts[1..], hash, ms, win);
    }
  }

  /**
   Crash safety, over every run from any sound files: no two messages are signed at one place, every
   signed message is at or below the watermark on disk, memory is never behind disk, and nothing at or
   below a watermark that was on disk at the start is signed, except that very message.
   */
  lemma CrashSafety(disk0: Store, acts: seq<Action>, hash: Hash, ms: set<Message>, win: Window)
    requires Setting(hash, ms, win) && SoundStore(disk0, hash, ms, win)
    requires forall a :: a in acts ==> Admits(a, ms, win)
    ensures var s := Run(Start(disk0), acts, hash);
            && NoDoubleSigning(s.signed)
            && (forall e :: e in s.signed ==> CoveredBy(s.disk, e, hash))
            && (s.mem.Some? ==> StoreCovers(s.mem.value, s.disk))
            && Respects((set e | e in s.signed), disk0, hash)
  {
    RunKeepsInv(Start(disk0), disk0, acts, hash, ms, win);
  }

  /** The guard does not only refuse: a request past what memory holds, once written, is approved and on disk, and no other entry moves. */
  lemma AdvancingRequestIsApproved(s: State, e: Entry, hash: Hash, k: Key)
    requires s.mem.Some? && e.m.Consensus? && MessageIn(NonNegative, e.m)
    requires var key := KeyOf(e.pkh, e.m);
             key in s.mem.value ==> WatermarkIn(NonNegative, s.mem.value[key]) && Above(NewWatermark(e.m, hash), s.mem.value[key])
    ensures var s' := Step(s, Request(e, Written), hash);
            var key := KeyOf(e.pkh, e.m);
            && e in s'.approved && key in s'.disk && s'.disk[key] == NewWatermark(e.m, hash)
            && (k.chain != e.m.chain ==> (k in s'.disk <==> k in s.disk) && (k in s.disk ==> s'.disk[k] == s.disk[k]))
            && (k != key ==> s'.mem.Some? && (k in s'.mem.value <==> k in s.mem.value) &&
                             (k in s.mem.value ==> s'.mem.value[k] == s.mem.value[k]))
  {
  }

  /** A request is approved if and only if it needs no watermark, or passes the check and its write succeeds. */
  lemma ApprovedIff(s: State, e: Entry, o: WriteOutcome, hash: Hash)
    requires s.mem.Some? && e !in s.approved
    ensures e in Step(s, Request(e, o), hash).approved <==>
            e.m.Unguarded? || (Check(s.mem.value, hash, e.pkh, e.m).1 && o == Written)
    ensures forall x :: x in s.approved ==> x in Step(s, Request(e, o), hash).approved
  {
  }

  /**
   A write that fails leaves the watermark in memory: until the next restart the same message can be tried again, and no
   other one at its place gets through.
   */
  lemma FailedWriteIsRemembered(s: State, e: Entry, o: WriteOutcome, f: Entry, hash: Hash)
    requires s.mem.Some? && e.m.Consensus? && Check(s.mem.value, hash, e.pkh, e.m).1 && (o == FailedBefore || o == FailedAfter)
    requires SamePlace(e, f) && f != e && hash(f.m) != hash(e.m)
    ensures var s' := Step(s, Request(e, o), hash);
            && s'.mem.Some? && s'.approved == s.approved && (o == FailedBefore ==> s'.disk == s.disk)
            && e in Step(s', Request(e, Written), hash).approved
            && Step(s', Request(f, Written), hash) == s'
  {
  }

  /** After a crash the files alone decide: the watermark of the interrupted request is kept if and only if the rename took effect. */
  lemma CrashLeavesDisk(s: State, e: Entry, o: WriteOutcome, hash: Hash)
    requires s.mem.Some? && e.m.Consensus? && Check(s.mem.value, hash, e.pkh, e.m).1 && (o == CrashedBefore || o == CrashedAfter)
    ensures var s1 := Step(s, Request(e, o), hash);
            var s2 := Step(s1, Restart, hash);
            && s1.mem.None? && s1.approved == s.approved && s2.mem == Some(s1.disk) && s2.disk == s1.disk
            && (o == CrashedBefore ==> s1.disk == s.disk)
            && (o == CrashedAfter ==> s1.disk.Keys >= {Key(e.m.chain, e.pkh, e.m.kind)} &&
                                      s1.disk[Key(e.m.chain, e.pkh, e.m.kind)] == Watermark(e.m.level, e.m.round, Some(hash(e.m))))
  {
  }

  function Requests(es: seq<Entry>): (acts: seq<Action>) {
    seq(|es|, i requires 0 <= i < |es| => Request(es[i], Written))
  }

  function Guards(es: seq<Entry>): (acts: seq<Signing.Action>) {
    seq(|es|, i requires 0 <= i < |es| => Guard(es[i]))
  }

  lemma WrittenIsGuard(s: State, t: Signing.State, e: Entry, hash: Hash)
    requires s.mem == Some(t.store) && s.disk == t.store && s.approved == t.approved
    ensures var s', t' := Step(s, Request(e, Written), hash), Signing.Step(t, Guard(e), hash);
            s'.mem == Some(t'.store) && s'.disk == t'.store && s'.approved == t'.approved
  {
    if e.m.Consensus? {
      var mem := Check(t.store, hash, e.pkh, e.m).0;
      assert Publish(t.store, mem, e.m.chain) == mem;
    }
  }

  /** While no write fails, the file store is the in-memory store, and the files always hold what memory holds. */
  lemma {:induction false} FaultlessIsMemory(s: State, t: Signing.State, es: seq<Entry>, hash: Hash)
    requires s.mem == Some(t.store) && s.disk == t.store && s.approved == t.approved
    ensures var s', t' := Run(s, Requests(es), hash), Signing.Run(t, Guards(es), hash);
            s'.mem == Some(t'.store) && s'.disk == t'.store && s'.approved == t'.approved
    decreases |es|
  {
    if es != [] {
      WrittenIsGuard(s, t, es[0], hash);
      assert Requests(es)[1..] == Requests(es[1..]) && Guards(es)[1..] == Guards(es[1..]);
      FaultlessIsMemory(Step(s, Request(es[0], Written), hash), Signing.Step(t, Guard(es[0]), hash), es[1..], hash);
    }
  }

  // ----- the store as an object -----

  lemma RepresentsPublish(disk: Tree, d: Store, t: Delegates, m: Store, chain: string)
    requires Represents(disk, d) && Slice(t, m, chain)
    ensures Represents(disk[chain := t], Publish(d, m, chain))
  {
    forall k
      ensures GetAt(disk[chain := t], k) == Get(Publish(d, m, chain), k)
    {
      assert GetAt(disk, k) == Get(d, k);
      assert k.chain == chain ==> GetIn(t, k.pkh, k.kind) == Get(m, Key(chain, k.pkh, k.kind));
    }
  }

  /** What IsSafeToSign returns: nil, an error, or nothing because the process died. */
  datatype Reply = Nil | Error | NoReply

  class File {
    const mem: InMemory
    var disk: Tree

    constructor (mem: InMemory, files: Tree)
      ensures this.mem == mem && disk == files
    {
      this.mem := mem;
      disk := files;
    }

    /** The object is in the state `s` of the machine above, with the process up. */
    ghost predicate Models(s: State)
      reads this, mem, mem.Maps, mem.Rows
    {
      s.mem.Some? && mem.Valid() && mem.Stores(s.mem.value) && Represents(disk, s.disk)
    }

    /** Replaces the file of one chain by what memory holds. */
    method WriteChain(chain: string, ghost m: Store, ghost d: Store)
      requires mem.Valid() && mem.Stores(m) && chain in mem.chains && Represents(disk, d)
      modifies this`disk
      ensures Represents(disk, Publish(d, m, chain))
    {
      var data := mem.Snapshot(chain, m);
      RepresentsPublish(disk, d, data, m, chain);
      disk := disk[chain := data];
    }

    /** Memory and disk change as one step of the machine says; `nil` is returned exactly for an approval. */
    method IsSafeToSign(hash: Hash, e: Entry, o: WriteOutcome, ghost s: State) returns (r: Reply)
      requires Models(s)
      modifies this, mem, mem.Maps, mem.Rows
      ensures mem.Valid() && fresh(mem.Maps - old(mem.Maps)) && fresh(mem.Rows - old(mem.Rows))
      ensures var s' := Handle(s, e, o, hash);
              && Represents(disk, s'.disk)
              && (s'.mem.Some? ==> mem.Stores(s'.mem.value))
              && s'.approved == if r.Nil? then s.approved + {e} else s.approved
      ensures r.Nil? <==> e.m.Unguarded? || (Check(s.mem.value, hash, e.pkh, e.m).1 && o == Written)
      ensures r.NoReply? <==> e.m.Consensus? && Check(s.mem.value, hash, e.pkh, e.m).1 && o.Crashed()
    {
      if e.m.Unguarded? {
        return Nil;
      }
      var ok := mem.IsSafeToSign(hash, e.pkh, e.m, s.mem.value);
      if !ok {
        return Error;
      }
      ghost var m := Check(s.mem.value, hash, e.pkh, e.m).0;
      if o.Renamed() {
        WriteChain(e.m.chain, m, s.disk);
      }
      r := if o.Crashed() then NoReply else if o.Written? then Nil else Error;
    }
  }

  /** `NewFileWatermark` on existing files: everything on disk is loaded. */
  method Open(files: Tree) returns (f: File, ghost s: Store)
    ensures fresh(f) && f.disk == files && Represents(files, s) && f.Models(Start(s))
  {
    var mem;
    mem, s := Load(files);
    f := new File(mem, files);
  }
}
