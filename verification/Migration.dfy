/**
Start-up of the file store: loading, and migration of the two older layouts
(pkg/signatory/watermark/migration.go, pkg/signatory/watermark/file.go:79-161).

Version 0 files nest kind before delegate; version 1 files keep one watermark per
delegate with a numeric order. Decoded files are given as nested maps; `None` is a
directory that does not exist.
*/
module Migration {
  import opened Request
  import opened MemoryStore
  import Signing
  import opened FileStore
  import opened Options

  type V0File = map<string, map<string, Watermark>>
  type V0Files = map<string, V0File>

  datatype V1Watermark = V1Watermark(level: int32, round: Option<int32>, order: int, hash: Option<Digest>)
  type V1File = map<string, V1Watermark>
  type V1Files = map<string, V1File>

  // ----- version 0 -----

  predicate Has(t: map<string, map<string, Watermark>>, a: string, b: string) {
    a in t && b in t[a]
  }

  /** Inserting one entry, with the delegate's map created when it is missing. */
  function PutRequest(d: Delegates, pkh: string, kind: string, w: Watermark): Delegates {
    d[pkh := (if pkh in d then d[pkh] else map[])[kind := w]]
  }

  /** The entries of `out` are those of `kinds` with the two levels exchanged: none lost, added or changed. */
  ghost predicate Transposed(kinds: V0File, out: Delegates) {
    && (forall p, k :: Has(out, p, k) <==> Has(kinds, k, p))
    && (forall p, k :: Has(out, p, k) && Has(kinds, k, p) ==> out[p][k] == kinds[k][p])
    && (forall p :: p in out ==> exists k :: Has(out, p, k))
  }

  /** There is only one such map. */
  lemma TransposedIsUnique(kinds: V0File, a: Delegates, b: Delegates)
    requires Transposed(kinds, a) && Transposed(kinds, b)
    ensures a == b
  {
    TransposedRows(kinds, a, b);
    TransposedRows(kinds, b, a);
  }

  lemma TransposedRows(kinds: V0File, a: Delegates, b: Delegates)
    requires Transposed(kinds, a) && Transposed(kinds, b)
    ensures forall p :: p in a ==> p in b && a[p] == b[p]
  {
    forall p | p in a
      ensures p in b && a[p] == b[p]
    {
      var k :| Has(a, p, k);
      assert Has(kinds, k, p) && Has(b, p, k);
      assert forall q :: q in a[p] <==> Has(a, p, q);
      assert forall q :: q in b[p] <==> Has(b, p, q);
    }
  }

  /** Transposing twice gives back every entry. */
  lemma TransposedTwice(kinds: V0File, out: Delegates, back: V0File)
    requires Transposed(kinds, out) && Transposed(out, back)
    ensures forall k, p :: Has(back, k, p) <==> Has(kinds, k, p)
    ensures forall k, p :: Has(back, k, p) ==> back[k][p] == kinds[k][p]
  {
  }

  /** What has been inserted: all of the kinds in `done`, and of kind `kind` the delegates in `pkhs`. */
  ghost predicate Copied(kinds: V0File, done: set<string>, kind: string, pkhs: set<string>, out: Delegates) {
    && (forall p, k :: Has(out, p, k) <==> Has(kinds, k, p) && (k in done || (k == kind && p in pkhs)))
    && (forall p, k :: Has(out, p, k) && Has(kinds, k, p) ==> out[p][k] == kinds[k][p])
    && (forall p :: p in out ==> exists k :: Has(out, p, k))
  }

  lemma CopyOne(kinds: V0File, done: set<string>, kind: string, pkhs: set<string>, out: Delegates, p: string)
    requires Copied(kinds, done, kind, pkhs, out) && Has(kinds, kind, p)
    ensures Copied(kinds, done, kind, pkhs + {p}, PutRequest(out, p, kind, kinds[kind][p]))
  {
  }

  /** The inner loop of `tryV0`. */
  method CopyKind(kinds: V0File, ghost done: set<string>, kind: string, out0: Delegates) returns (out: Delegates)
    requires kind in kinds && Copied(kinds, done, kind, {}, out0)
    ensures Copied(kinds, done, kind, kinds[kind].Keys, out)
  {
    out := out0;
    var pkhs := kinds[kind].Keys;
    while pkhs != {}
      invariant pkhs <= kinds[kind].Keys
      invariant Copied(kinds, done, kind, kinds[kind].Keys - pkhs, out)
    {
      var p :| p in pkhs;
      CopyOne(kinds, done, kind, kinds[kind].Keys - pkhs, out, p);
      out := PutRequest(out, p, kind, kinds[kind][p]);
      assert kinds[kind].Keys - pkhs + {p} == kinds[kind].Keys - (pkhs - {p});
      pkhs := pkhs - {p};
    }
    assert kinds[kind].Keys - pkhs == kinds[kind].Keys;
  }

  /** The loops of `tryV0` over one file. */
  method Transpose(kinds: V0File) returns (out: Delegates)
    ensures Transposed(kinds, out)
  {
    out := map[];
    var todo := kinds.Keys;
    while todo != {}
      invariant todo <= kinds.Keys
      invariant forall kind :: Copied(kinds, kinds.Keys - todo, kind, {}, out)
    {
      var kind :| kind in todo;
      out := CopyKind(kinds, kinds.Keys - todo, kind, out);
      todo := todo - {kind};
    }
    assert Copied(kinds, kinds.Keys - todo, "", {}, out);
  }

  ghost predicate MigratesV0(files: V0Files, out: Tree) {
    out.Keys == files.Keys && forall c :: c in files ==> Transposed(files[c], out[c])
  }

  method TryV0(files: V0Files) returns (out: Tree)
    ensures MigratesV0(files, out)
  {
    out := map[];
    var todo := files.Keys;
    while todo != {}
      invariant todo <= files.Keys && out.Keys == files.Keys - todo
      invariant forall c :: c in out ==> Transposed(files[c], out[c])
    {
      var c :| c in todo;
      var d := Transpose(files[c]);
      out := out[c := d];
      todo := todo - {c};
    }
  }

  // ----- version 1 -----

  function KindOfOrder(order: int): string {
    if order == 0 then "block" else if order == 1 then "preendorsement" else "endorsement"
  }

  function UpgradeV1(v: V1Watermark): (w: Watermark) {
    Watermark(v.level, if v.round.Some? then v.round.value else 0, v.hash)
  }

  ghost predicate MigratesV1(files: V1Files, out: Tree) {
    && out.Keys == files.Keys
    && forall c :: c in files ==> UpgradedFile(files[c], out[c])
  }

  ghost predicate UpgradedFile(file: V1File, out: Delegates) {
    out.Keys == file.Keys && forall p :: p in file ==> out[p] == map[KindOfOrder(file[p].order) := UpgradeV1(file[p])]
  }

  method UpgradeFile(file: V1File) returns (out: Delegates)
    ensures UpgradedFile(file, out)
  {
    out := map[];
    var todo := file.Keys;
    while todo != {}
      invariant todo <= file.Keys && out.Keys == file.Keys - todo
      invariant forall p :: p in out ==> out[p] == map[KindOfOrder(file[p].order) := UpgradeV1(file[p])]
    {
      var p :| p in todo;
      var val := file[p];
      var req := "endorsement";
      if val.order == 0 {
        req := "block";
      } else if val.order == 1 {
        req := "preendorsement";
      }
      var w := Watermark(val.level, 0, None);
      if val.round.Some? {
        w := w.(round := val.round.value);
      }
      if val.hash.Some? {
        w := w.(hash := Some(val.hash.value));
      }
      out := out[p := map[req := w]];
      todo := todo - {p};
    }
  }

  method TryV1(files: V1Files) returns (out: Tree)
    ensures MigratesV1(files, out)
  {
    out := map[];
    var todo := files.Keys;
    while todo != {}
      invariant todo <= files.Keys && out.Keys == files.Keys - todo
      invariant forall c :: c in out ==> UpgradedFile(files[c], out[c])
    {
      var c :| c in todo;
      var d := UpgradeFile(files[c]);
      out := out[c := d];
      todo := todo - {c};
    }
  }

  // ----- start-up -----

  /** `writeAll`, run to completion. */
  method WriteAll(disk: Tree, chains: Tree) returns (disk': Tree)
    ensures disk' == disk + chains
  {
    disk' := disk;
    var todo := chains.Keys;
    while todo != {}
      invariant todo <= chains.Keys
      invariant disk'.Keys == disk.Keys + (chains.Keys - todo)
      invariant forall c :: c in disk' ==> disk'[c] == if c in chains && c !in todo then chains[c] else if c in disk then disk[c] else map[]
    {
      var c :| c in todo;
      disk' := disk'[c := chains[c]];
      todo := todo - {c};
    }
  }

  /** `NewFileWatermark`: current files win; otherwise version 1, otherwise version 0, is migrated and written out. */
  method NewFileWatermark(v2: Option<Tree>, v1: Option<V1Files>, v0: Option<V0Files>) returns (f: File, ghost s: Store)
    ensures Represents(f.disk, s) && f.Models(Start(s))
    ensures v2.Some? ==> f.disk == v2.value
    ensures v2.None? && v1.Some? ==> MigratesV1(v1.value, f.disk)
    ensures v2.None? && v1.None? && v0.Some? ==> MigratesV0(v0.value, f.disk)
    ensures v2.None? && v1.None? && v0.None? ==> f.disk == map[]
  {
    var chains: Tree := map[];
    if v2.Some? {
      chains := v2.value;
    } else if v1.Some? {
      var migrated := TryV1(v1.value);
      chains := WriteAll(map[], migrated);
      assert chains == migrated;
    } else if v0.Some? {
      var migrated := TryV0(v0.value);
      chains := WriteAll(map[], migrated);
      assert chains == migrated;
    }
    f, s := Open(chains);
  }

  // ----- protection survives -----

  /** Every signature of every run started on migrated version 0 files respects every watermark in them. */
  lemma V0MigrationProtects(files: V0Files, out: Tree, disk0: Store, acts: seq<Action>, hash: Hash, ms: set<Message>, win: Window, e: Signing.Entry)
    requires MigratesV0(files, out) && Represents(out, disk0)
    requires Setting(hash, ms, win) && SoundStore(disk0, hash, ms, win) && forall a :: a in acts ==> Admits(a, ms, win)
    requires e in Run(Start(disk0), acts, hash).signed && e.m.Consensus?
    requires e.m.chain in files && e.m.kind in files[e.m.chain] && e.pkh in files[e.m.chain][e.m.kind]
    ensures var w := files[e.m.chain][e.m.kind][e.pkh];
            e.m.level > w.level || (e.m.level == w.level && (e.m.round > w.round || (e.m.round == w.round && w.hash == Some(hash(e.m)))))
  {
    CrashSafety(disk0, acts, hash, ms, win);
    assert Has(files[e.m.chain], e.m.kind, e.pkh);
    assert Transposed(files[e.m.chain], out[e.m.chain]) && Has(out[e.m.chain], e.pkh, e.m.kind);
    assert GetAt(out, KeyOf(e.pkh, e.m)) == Get(disk0, KeyOf(e.pkh, e.m));
  }

  /** The round of a version 1 watermark; files older than rounds have none. */
  function RoundOf(v: V1Watermark): int32 {
    match v.round case None => 0 case Some(round) => round
  }

  /** A message is strictly past a version 1 watermark. */
  predicate PastV1(m: Message, v: V1Watermark)
    requires m.Consensus?
  {
    m.level > v.level || (m.level == v.level && m.round > RoundOf(v))
  }

  /** Every version 1 entry is found after migration, with its level, its round and its digest, under the name of its order. */
  lemma V1EntriesKept(files: V1Files, out: Tree, chain: string, pkh: string)
    requires MigratesV1(files, out) && chain in files && pkh in files[chain]
    ensures var v := files[chain][pkh];
            chain in out && pkh in out[chain] &&
            out[chain][pkh] == map[(match v.order case 0 => "block" case 1 => "preendorsement" case _ => "endorsement") :=
                                   Watermark(v.level, RoundOf(v), v.hash)]
  {
    assert UpgradedFile(files[chain], out[chain]);
  }

  /** The same for version 1 files: no block is signed unless it is past the block watermark of its key, or is that very one. */
  lemma V1MigrationProtectsBlocks(files: V1Files, out: Tree, disk0: Store, acts: seq<Action>, hash: Hash, ms: set<Message>, win: Window, e: Signing.Entry)
    requires MigratesV1(files, out) && Represents(out, disk0)
    requires Setting(hash, ms, win) && SoundStore(disk0, hash, ms, win) && forall a :: a in acts ==> Admits(a, ms, win)
    requires e in Run(Start(disk0), acts, hash).signed && e.m.Consensus? && e.m.kind == "block"
    requires e.m.chain in files && e.pkh in files[e.m.chain] && files[e.m.chain][e.pkh].order == 0
    ensures var v := files[e.m.chain][e.pkh];
            PastV1(e.m, v) || (e.m.level == v.level && e.m.round == RoundOf(v) && v.hash == Some(hash(e.m)))
  {
    CrashSafety(disk0, acts, hash, ms, win);
    V1EntriesKept(files, out, e.m.chain, e.pkh);
    assert GetAt(out, KeyOf(e.pkh, e.m)) == Get(disk0, KeyOf(e.pkh, e.m));
  }

  /** The name under which requests of an old order arrive today (signatory.go:139). */
  function LiveKind(order: int): string {
    if order == 0 then "block" else if order == 1 then "preattestation" else "attestation"
  }

  /**
   A live request at or below a migrated version 1 watermark of its own order is refused if and only if
   that order is block: the other orders are stored under names that live requests no longer use.
   */
  lemma V1ProtectsIff(files: V1Files, out: Tree, disk0: Store, hash: Hash, pkh: string, m: Message)
    requires MigratesV1(files, out) && Represents(out, disk0)
    requires m.Consensus? && MessageIn(NonNegative, m) && m.chain in files && pkh in files[m.chain]
    requires var v := files[m.chain][pkh];
             && m.kind == LiveKind(v.order) && v.level >= 0 && RoundOf(v) >= 0
             && !PastV1(m, v) && v.hash != Some(hash(m))
    ensures !Check(disk0, hash, pkh, m).1 <==> files[m.chain][pkh].order == 0
  {
    var v := files[m.chain][pkh];
    V1EntriesKept(files, out, m.chain, pkh);
    assert GetAt(out, KeyOf(pkh, m)) == Get(disk0, KeyOf(pkh, m));
    if v.order == 0 {
      ValidateNonNegative(NewWatermark(m, hash), Watermark(v.level, RoundOf(v), v.hash));
    } else {
      assert "endorsement"[0] == 'e' && "attestation"[0] == 'a' && |"preattestation"| == 14 && |"preendorsement"| == 14;
      assert "preattestation"[3] == 'a' && "preendorsement"[3] == 'e';
    }
  }

  /** The name under which requests of an old kind arrive today. */
  function LiveName(kind: string): string {
    if kind == "endorsement" then "attestation" else if kind == "preendorsement" then "preattestation" else kind
  }

  lemma RenamedIff(kind: string)
    ensures LiveName(kind) == kind <==> kind != "endorsement" && kind != "preendorsement"
  {
    assert "endorsement"[0] == 'e' && "attestation"[0] == 'a';
    assert "preendorsement"[3] == 'e' && "preattestation"[3] == 'a';
  }

  /**
   A live request at or below a migrated version 0 watermark of its kind, with no other entry under the name used today,
   is refused if and only if the kind has not been renamed since.
   */
  lemma V0ProtectsIff(files: V0Files, out: Tree, disk0: Store, hash: Hash, pkh: string, m: Message, kind: string)
    requires MigratesV0(files, out) && Represents(out, disk0)
    requires m.Consensus? && MessageIn(NonNegative, m) && m.chain in files && Has(files[m.chain], kind, pkh)
    requires m.kind == LiveName(kind) && (m.kind != kind ==> !Has(files[m.chain], m.kind, pkh))
    requires var w := files[m.chain][kind][pkh];
             w.level >= 0 && w.round >= 0 && m.level <= w.level && (m.level == w.level ==> m.round <= w.round) && w.hash != Some(hash(m))
    ensures !Check(disk0, hash, pkh, m).1 <==> kind != "endorsement" && kind != "preendorsement"
  {
    RenamedIff(kind);
    var file := files[m.chain];
    assert Transposed(file, out[m.chain]);
    assert Has(out[m.chain], pkh, m.kind) <==> Has(file, m.kind, pkh);
    assert GetAt(out, KeyOf(pkh, m)) == Get(disk0, KeyOf(pkh, m));
    if m.kind == kind {
      ValidateNonNegative(NewWatermark(m, hash), file[kind][pkh]);
    }
  }
}
