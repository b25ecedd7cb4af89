/**
Preparation of the per-key policy and the request filter, as in
pkg/signatory/signatory.go:153-218 and 680-866.

A deprecated configuration (`allowed_operations`, `allowed_kinds`) is still accepted, with
a warning that prints the `allow` block to write instead. The main lemma says exactly when
following that advice leaves the accepted requests unchanged.
*/
module Policy {
  import opened Options

  // ----- sorting -----

  predicate LessEq(a: string, b: string) {
    a == "" || (b != "" && (a[0] < b[0] || (a[0] == b[0] && LessEq(a[1..], b[1..]))))
  }

  predicate Ascending(s: seq<string>) {
    forall i :: 0 <= i < |s| - 1 ==> LessEq(s[i], s[i + 1])
  }

  function Insert(x: string, s: seq<string>): (r: seq<string>)
    ensures multiset(r) == multiset(s) + multiset{x}
    ensures r != [] && (r[0] == x || (s != [] && r[0] == s[0]))
  {
    if s == [] || LessEq(x, s[0]) then [x] + s
    else
      assert s == [s[0]] + s[1..];
      [s[0]] + Insert(x, s[1..])
  }

  /** `sort.Strings`. */
  function Sorted(s: seq<string>): (r: seq<string>)
    ensures multiset(r) == multiset(s)
  {
    if s == [] then []
    else
      assert s == [s[0]] + s[1..];
      Insert(s[0], Sorted(s[1..]))
  }

  lemma {:induction false} LessEqTotal(a: string, b: string)
    ensures LessEq(a, b) || LessEq(b, a)
  {
    if a != "" && b != "" && a[0] == b[0] {
      LessEqTotal(a[1..], b[1..]);
    }
  }

  lemma {:induction false} InsertAscending(x: string, s: seq<string>)
    requires Ascending(s)
    ensures Ascending(Insert(x, s))
  {
    if s != [] && !LessEq(x, s[0]) {
      LessEqTotal(x, s[0]);
      InsertAscending(x, s[1..]);
    }
  }

  lemma {:induction false} SortedAscending(s: seq<string>)
    ensures Ascending(Sorted(s))
  {
    if s != [] {
      SortedAscending(s[1..]);
      InsertAscending(s[0], Sorted(s[1..]));
    }
  }

  /** The strings agree up to place i, where the first has the smaller character. */
  predicate SmallerAt(a: string, b: string, i: nat) {
    i < |a| && i < |b| && a[i] < b[i] && a[..i] == b[..i]
  }

  lemma SmallerLater(x: char, a: string, b: string, i: nat)
    ensures SmallerAt([x] + a, [x] + b, i + 1) <==> SmallerAt(a, b, i)
  {
    var c, d := [x] + a, [x] + b;
    if i < |a| && i < |b| {
      assert c[..i + 1] == [x] + a[..i] && d[..i + 1] == [x] + b[..i];
      assert c[..i + 1][1..] == a[..i] && d[..i + 1][1..] == b[..i];
    }
  }

  lemma SmallerAgreesFirst(a: string, b: string, i: nat)
    requires SmallerAt(a, b, i) && i > 0
    ensures a[0] == b[0]
  {
    assert a[..i][0] == b[..i][0];
  }

  /** The order is the lexicographic one: a prefix comes first, otherwise the first difference decides. */
  lemma {:induction false} LessEqIff(a: string, b: string)
    ensures LessEq(a, b) <==> a <= b || exists i: nat :: SmallerAt(a, b, i)
  {
    forall i: nat | SmallerAt(a, b, i) && i > 0
      ensures a[0] == b[0]
    {
      SmallerAgreesFirst(a, b, i);
    }
    if a != "" && b != "" && a[0] == b[0] {
      LessEqIff(a[1..], b[1..]);
      assert a == [a[0]] + a[1..] && b == [a[0]] + b[1..];
      if i: nat :| SmallerAt(a[1..], b[1..], i) {
        SmallerLater(a[0], a[1..], b[1..], i);
      }
      if i: nat :| SmallerAt(a, b, i) {
        SmallerLater(a[0], a[1..], b[1..], i - 1);
      }
    } else if a != "" && b != "" && a[0] < b[0] {
      assert SmallerAt(a, b, 0);
    }
  }

  function Elements(s: seq<string>): (r: set<string>) {
    set x | x in s
  }

  lemma SortedElements(s: seq<string>)
    ensures Elements(Sorted(s)) == Elements(s)
  {
    forall x
      ensures x in Sorted(s) <==> x in s
    {
      assert x in Sorted(s) <==> x in multiset(Sorted(s));
      assert x in s <==> x in multiset(s);
    }
  }

  // ----- renames -----

  function RenameRequest(r: string): string {
    if r == "endorsement" then "attestation" else if r == "preendorsement" then "preattestation" else r
  }

  function RenameBase(b: string): string {
    if b == "endorsement" then "attestation"
    else if b == "preendorsement" then "preattestation"
    else if b == "double_endorsement_evidence" then "double_attestation_evidence"
    else if b == "double_preendorsement_evidence" then "double_preattestation_evidence"
    else b
  }

  /** `strings.Cut(s, ":")`: where the first colon is, or the length. */
  function Colon(s: string): (i: nat)
    ensures i <= |s| && (i < |s| ==> s[i] == ':') && forall k :: 0 <= k < i ==> s[k] != ':'
  {
    if s == "" || s[0] == ':' then 0 else Colon(s[1..]) + 1
  }

  function RenameOperation(o: string): string {
    RenameBase(o[..Colon(o)]) + o[Colon(o)..]
  }

  function Mapped(f: string -> string, s: seq<string>): (r: seq<string>)
    ensures |r| == |s|
  {
    seq(|s|, i requires 0 <= i < |s| => f(s[i]))
  }

  lemma MappedElements(f: string -> string, s: seq<string>)
    ensures Elements(Mapped(f, s)) == set x | x in s :: f(x)
  {
    forall x | x in s
      ensures f(x) in Mapped(f, s)
    {
      var i :| 0 <= i < |s| && s[i] == x;
      assert Mapped(f, s)[i] == f(x);
    }
  }

  /** `fixupRequests` and `fixupOperations` as functions. */
  function Fixup(f: string -> string, s: seq<string>): (r: seq<string>) {
    Sorted(Mapped(f, s))
  }

  /** Both work in place: rename every element, then sort. */
  method FixupInPlace(f: string -> string, a: array<string>)
    modifies a
    ensures a[..] == Fixup(f, old(a[..]))
    ensures Ascending(a[..])
  {
    var i := 0;
    while i < a.Length
      invariant i <= a.Length
      invariant forall k :: 0 <= k < i ==> a[k] == f(old(a[k]))
      invariant forall k :: i <= k < a.Length ==> a[k] == old(a[k])
    {
      a[i] := f(a[i]);
      i := i + 1;
    }
    assert a[..] == Mapped(f, old(a[..]));
    SortedAscending(a[..]);
    SortInPlace(a);
  }

  method SortInPlace(a: array<string>)
    modifies a
    ensures a[..] == Sorted(old(a[..]))
  {
    SameLength(a[..]);
    Overwrite(a, Sorted(a[..]));
  }

  method Overwrite(a: array<string>, s: seq<string>)
    requires |s| == a.Length
    modifies a
    ensures a[..] == s
  {
    var i := 0;
    while i < a.Length
      invariant i <= a.Length && forall k :: 0 <= k < i ==> a[k] == s[k]
    {
      a[i] := s[i];
      i := i + 1;
    }
  }

  lemma SameLength(s: seq<string>)
    ensures |Sorted(s)| == |s|
  {
    assert |multiset(Sorted(s))| == |multiset(s)|;
  }

  // ----- checks -----

  /** The request and operation kinds the protocol library knows. */
  datatype Known = Known(requests: set<string>, operations: set<string>)

  const BALLOTS := {"yay", "nay", "pass"}

  predicate KnownOperation(known: Known, kind: string) {
    if Colon(kind) < |kind| then
      kind[..Colon(kind)] == "ballot" && kind[Colon(kind) + 1..] in BALLOTS && "ballot" in known.operations
    else kind in known.operations
  }

  predicate RequestsOk(known: Known, s: seq<string>) {
    forall x :: x in s ==> x in known.requests
  }

  predicate OperationsOk(known: Known, s: seq<string>) {
    forall x :: x in s ==> KnownOperation(known, x)
  }

  // ----- preparation -----

  type Allow = map<string, seq<string>>

  datatype Config = Config(allow: Option<Allow>, operations: Option<seq<string>>, kinds: Option<seq<string>>,
                           chains: Option<seq<string>>, keys: Option<seq<string>>)

  datatype Prepared = Prepared(requests: seq<string>, ops: seq<string>, chains: Option<seq<string>>, keys: Option<seq<string>>)

  /** The order in which the keys of a Go map are visited: any. */
  predicate Visits(order: seq<string>, m: Allow) {
    Elements(order) == m.Keys
  }

  function Listed(o: Option<seq<string>>): seq<string> {
    if o.Some? then o.value else []
  }

  /** The request kinds of a configuration, renamed and sorted. */
  function Requests(c: Config, order: seq<string>): seq<string> {
    Fixup(RenameRequest, if c.allow.Some? then order else Listed(c.operations))
  }

  function Operations(c: Config): seq<string> {
    Fixup(RenameOperation,
          Sorted(if c.allow.Some? then (if "generic" in c.allow.value then c.allow.value["generic"] else [])
                 else Listed(c.kinds)))
  }

  /** `PreparePolicy` for one key; `None` is an error. */
  function Prepare(c: Config, order: seq<string>, known: Known): (r: Option<Prepared>) {
    if !RequestsOk(known, Requests(c, order)) || !OperationsOk(known, Operations(c)) then None
    else Some(Prepared(Requests(c, order), Operations(c), c.chains, c.keys))
  }

  /** The `allow` block that the deprecation warning prints. */
  function Suggested(c: Config): (m: Allow) {
    var m := map r | r in Requests(c, []) :: [];
    if c.kinds.Some? then m["generic" := Sorted(c.kinds.value)] else m
  }

  predicate Deprecated(c: Config) {
    c.allow.None? && (c.operations.Some? || c.kinds.Some?)
  }

  /** The configuration with the suggestion followed. */
  function Rewritten(c: Config): Config {
    Config(Some(Suggested(c)), None, None, c.chains, c.keys)
  }

  // ----- the filter -----

  datatype Operation = Ballot(vote: string) | Plain(kind: string)

  /** What is to be signed: `chain` for messages with a watermark, `ops` for generic operations. */
  datatype Msg = Consensus(kind: string, chain: string) | Generic(ops: seq<Operation>) | Other(kind: string)

  function KindOf(m: Msg): string {
    if m.Generic? then "generic" else m.kind
  }

  predicate OpAllowed(ops: seq<string>, op: Operation) {
    if op.Ballot? then "ballot" in ops || ("ballot:" + op.vote) in ops else op.kind in ops
  }

  predicate ChainAllowed(p: Prepared, m: Msg) {
    p.chains.Some? && m.Consensus? ==> m.chain in p.chains.value
  }

  predicate ClientAllowed(p: Prepared, client: Option<string>) {
    p.keys.Some? ==> client.Some? && client.value in p.keys.value
  }

  predicate Matches(p: Prepared, client: Option<string>, m: Msg) {
    && ChainAllowed(p, m)
    && ClientAllowed(p, client)
    && KindOf(m) in p.requests
    && (m.Generic? ==> forall op :: op in m.ops ==> OpAllowed(p.ops, op))
  }

  method InSlice(s: seq<string>, x: string) returns (found: bool)
    ensures found == (x in s)
  {
    var i := 0;
    while i < |s|
      invariant i <= |s| && x !in s[..i]
    {
      if s[i] == x {
        return true;
      }
      i := i + 1;
    }
    assert s[..i] == s;
    found := false;
  }

  /** `matchFilter`. */
  method MatchFilter(p: Prepared, client: Option<string>, m: Msg) returns (ok: bool)
    ensures ok == Matches(p, client, m)
  {
    if p.chains.Some? && m.Consensus? {
      var found := InSlice(p.chains.value, m.chain);
      if !found {
        return false;
      }
    }
    if p.keys.Some? {
      if client.None? {
        return false;
      }
      var allowed := InSlice(p.keys.value, client.value);
      if !allowed {
        return false;
      }
    }
    var found := InSlice(p.requests, KindOf(m));
    if !found {
      return false;
    }
    if m.Generic? {
      var i := 0;
      while i < |m.ops|
        invariant i <= |m.ops| && forall k :: 0 <= k < i ==> OpAllowed(p.ops, m.ops[k])
      {
        var op, allowed := m.ops[i], false;
        if op.Ballot? {
          var any := InSlice(p.ops, "ballot");
          var this_ := InSlice(p.ops, "ballot:" + op.vote);
          allowed := any || this_;
        } else {
          allowed := InSlice(p.ops, op.kind);
        }
        if !allowed {
          assert op in m.ops;
          return false;
        }
        i := i + 1;
      }
    }
    ok := true;
  }

  // ----- the filter sees only sets -----

  /** Order and repetition in the lists do not matter. */
  lemma MatchesBySets(p: Prepared, q: Prepared, client: Option<string>, m: Msg)
    requires Elements(p.requests) == Elements(q.requests) && Elements(p.ops) == Elements(q.ops)
    requires p.chains == q.chains && p.keys == q.keys
    ensures Matches(p, client, m) <==> Matches(q, client, m)
  {
    assert forall x :: x in p.requests <==> x in Elements(p.requests);
    assert forall x :: x in q.requests <==> x in Elements(q.requests);
    assert forall x :: x in p.ops <==> x in Elements(p.ops);
    assert forall x :: x in q.ops <==> x in Elements(q.ops);
  }

  lemma FixupElements(f: string -> string, s: seq<string>)
    ensures Elements(Fixup(f, s)) == set x | x in s :: f(x)
  {
    SortedElements(Mapped(f, s));
    MappedElements(f, s);
  }

  /** Renaming depends only on which names are listed. */
  lemma FixupBySets(f: string -> string, s: seq<string>, t: seq<string>)
    requires Elements(s) == Elements(t)
    ensures Elements(Fixup(f, s)) == Elements(Fixup(f, t))
  {
    FixupElements(f, s);
    FixupElements(f, t);
    assert forall x :: x in s <==> x in Elements(s);
    assert forall x :: x in t <==> x in Elements(t);
  }

  /** A request kind is allowed exactly when it is listed, under its present name or its deprecated one; deprecated names never match. */
  lemma RequestAllowedIff(s: seq<string>, r: string)
    ensures r in Fixup(RenameRequest, s) <==>
            && r !in {"endorsement", "preendorsement"}
            && (r in s || (r == "attestation" && "endorsement" in s) || (r == "preattestation" && "preendorsement" in s))
  {
    FixupElements(RenameRequest, s);
    assert r in Fixup(RenameRequest, s) <==> r in Elements(Fixup(RenameRequest, s));
    RenameRequestNames();
    if r in Fixup(RenameRequest, s) {
      var x :| x in s && RenameRequest(x) == r;
    }
    if r in s && r !in {"endorsement", "preendorsement"} {
      assert RenameRequest(r) == r;
    }
  }

  lemma RenameRequestNames()
    ensures RenameRequest("endorsement") == "attestation" && RenameRequest("preendorsement") == "preattestation"
    ensures "attestation" != "endorsement" && "attestation" != "preendorsement"
    ensures "preattestation" != "endorsement" && "preattestation" != "preendorsement"
  {
  }

  /** The ballot:yay form keeps its sub-kind, and only the four deprecated bases change. */
  lemma RenameOperationKeepsSubKind(base: string, sub: string)
    requires Colon(base) == |base|
    ensures RenameOperation(base + (":" + sub)) == RenameBase(base) + (":" + sub)
    ensures RenameOperation(base) == RenameBase(base) + ""
  {
    ColonAfter(base, sub);
    Parts(base, ":" + sub);
    Parts(base, "");
  }

  lemma Parts(a: string, b: string)
    ensures (a + b)[..|a|] == a && (a + b)[|a|..] == b && a[..|a|] == a && a[|a|..] == ""
  {
  }

  lemma {:induction false} ColonAfter(base: string, sub: string)
    requires Colon(base) == |base|
    ensures Colon(base + (":" + sub)) == |base|
  {
    var o := base + (":" + sub);
    if base != "" {
      assert o[1..] == base[1..] + (":" + sub);
      ColonAfter(base[1..], sub);
    }
  }

  predicate NoColon(s: string) {
    forall i :: 0 <= i < |s| ==> s[i] != ':'
  }

  /** The deprecated name of an operation kind, for those that have one. */
  function FormerName(kind: string): Option<string> {
    if kind == "attestation" then Some("endorsement")
    else if kind == "preattestation" then Some("preendorsement")
    else if kind == "double_attestation_evidence" then Some("double_endorsement_evidence")
    else if kind == "double_preattestation_evidence" then Some("double_preendorsement_evidence")
    else None
  }

  const DEPRECATED := {"endorsement", "preendorsement", "double_endorsement_evidence", "double_preendorsement_evidence"}

  lemma RenamedNames()
    ensures NoColon("attestation") && NoColon("preattestation") && NoColon("double_attestation_evidence") && NoColon("double_preattestation_evidence")
  {
  }

  lemma RenamedAreNotDeprecated()
    ensures "attestation" !in DEPRECATED && "preattestation" !in DEPRECATED
    ensures "double_attestation_evidence" !in DEPRECATED && "double_preattestation_evidence" !in DEPRECATED
  {
    assert "double_attestation_evidence"[7] == 'a' && "double_endorsement_evidence"[7] == 'e' && "double_preendorsement_evidence"[10] == 'e';
    assert "double_preattestation_evidence"[10] == 'a' && "preattestation"[3] == 'a' && "preendorsement"[3] == 'e' && "attestation"[0] == 'a';
    assert "double_preattestation_evidence"[7] == 'p' && "double_attestation_evidence"[0] == 'd' && "endorsement"[0] == 'e';
  }

  lemma RenameBaseIs(b: string, r: string)
    ensures RenameBase(b) == r <==> r !in DEPRECATED && (b == r || FormerName(r) == Some(b))
  {
    RenamedAreNotDeprecated();
  }

  lemma RenameBaseNoColon(b: string)
    requires NoColon(b)
    ensures NoColon(RenameBase(b))
  {
    RenamedNames();
  }

  /** A kind without sub-kind comes from one without. */
  lemma PlainFromPlain(x: string, r: string)
    requires NoColon(r)
    ensures RenameOperation(x) == r <==> NoColon(x) && RenameBase(x) == r
  {
    var i := Colon(x);
    var y := RenameBase(x[..i]) + x[i..];
    if i < |x| {
      assert y[|RenameBase(x[..i])|] == ':';
      assert x[i] == ':';
    } else {
      assert x[..i] == x && x[i..] == "" && y == RenameBase(x);
    }
  }

  lemma SameCut(a: string, b: string, c: string, d: string)
    requires NoColon(a) && NoColon(c) && a + (":" + b) == c + (":" + d)
    ensures a == c && b == d
  {
    var s, t := a + (":" + b), c + (":" + d);
    assert s[|a|] == ':' && t[|c|] == ':';
    assert forall i :: 0 <= i < |a| ==> s[i] == a[i];
    assert forall i :: 0 <= i < |c| ==> t[i] == c[i];
    assert |a| == |c|;
    assert s[..|a|] == a && t[..|c|] == c;
    assert s[|a| + 1..] == b && t[|c| + 1..] == d;
  }

  /** A kind with a sub-kind comes from one with that sub-kind. */
  lemma SubKindFromSubKind(x: string, base: string, sub: string)
    requires NoColon(base)
    ensures RenameOperation(x) == base + (":" + sub) <==> exists b :: x == b + (":" + sub) && NoColon(b) && RenameBase(b) == base
  {
    var i := Colon(x);
    RenameBaseNoColon(x[..i]);
    if RenameOperation(x) == base + (":" + sub) {
      var y := RenameBase(x[..i]);
      assert (y + x[i..])[|base|] == ':';
      assert forall k :: 0 <= k < |y| ==> (y + x[i..])[k] == y[k];
      assert i < |x|;
      var rest := x[i + 1..];
      assert x[i..] == ":" + rest;
      SameCut(y, rest, base, sub);
      assert x == x[..i] + (":" + sub);
    }
    if exists b :: x == b + (":" + sub) && NoColon(b) && RenameBase(b) == base {
      var b :| x == b + (":" + sub) && NoColon(b) && RenameBase(b) == base;
      assert Colon(b) == |b|;
      RenameOperationKeepsSubKind(b, sub);
    }
  }

  lemma FixupHas(f: string -> string, s: seq<string>, r: string)
    ensures r in Fixup(f, s) <==> exists x :: x in s && f(x) == r
  {
    FixupElements(f, s);
    assert r in Fixup(f, s) <==> r in Elements(Fixup(f, s));
  }

  /** An operation kind is allowed exactly when it is listed, under its present name or its deprecated one; deprecated names never match. */
  lemma OperationAllowedIff(s: seq<string>, kind: string)
    requires NoColon(kind)
    ensures kind in Fixup(RenameOperation, s) <==>
            kind !in DEPRECATED && (kind in s || (FormerName(kind).Some? && FormerName(kind).value in s))
  {
    FixupHas(RenameOperation, s, kind);
    FormerNamesNoColon(kind);
    forall x
      ensures RenameOperation(x) == kind <==> NoColon(x) && kind !in DEPRECATED && (x == kind || FormerName(kind) == Some(x))
    {
      PlainFromPlain(x, kind);
      RenameBaseIs(x, kind);
    }
  }

  lemma FormerNamesNoColon(kind: string)
    ensures FormerName(kind).Some? ==> NoColon(FormerName(kind).value)
  {
    assert NoColon("endorsement") && NoColon("preendorsement");
    assert NoColon("double_endorsement_evidence") && NoColon("double_preendorsement_evidence");
  }

  /** A vote is allowed exactly when ballots are listed, or ballots with that vote. */
  lemma BallotAllowedIff(s: seq<string>, vote: string)
    ensures OpAllowed(Fixup(RenameOperation, s), Ballot(vote)) <==> "ballot" in s || ("ballot" + (":" + vote)) in s
  {
    BallotName();
    OperationAllowedIff(s, "ballot");
    var r := "ballot" + (":" + vote);
    assert "ballot:" + vote == r;
    FixupHas(RenameOperation, s, r);
    forall x
      ensures RenameOperation(x) == r <==> x == r
    {
      SubKindFromSubKind(x, "ballot", vote);
      if RenameOperation(x) == r {
        var b :| x == b + (":" + vote) && NoColon(b) && RenameBase(b) == "ballot";
        RenameBaseIs(b, "ballot");
      }
      RenameBaseIs("ballot", "ballot");
    }
  }

  lemma BallotName()
    ensures NoColon("ballot") && "ballot" !in DEPRECATED && FormerName("ballot") == None
  {
    var b := "ballot";
    assert b[0] == 'b' && |b| == 6;
  }

  /** Which operation kinds a configuration may list: those the library knows, and ballots with one of the three votes. */
  lemma KnownOperationIff(known: Known, base: string, sub: string)
    requires NoColon(base)
    ensures KnownOperation(known, base) <==> base in known.operations
    ensures KnownOperation(known, base + (":" + sub)) <==>
            base == "ballot" && (sub == "yay" || sub == "nay" || sub == "pass") && "ballot" in known.operations
  {
    assert Colon(base) == |base|;
    ColonAfter(base, sub);
    var k := base + (":" + sub);
    assert k[..|base|] == base && k[|base| + 1..] == sub;
  }

  /** Renaming a list that is made of renamed names and of names that stay changes nothing. */
  lemma FixupTwice(f: string -> string, s: seq<string>, t: seq<string>, extra: set<string>)
    requires (forall x :: f(f(x)) == f(x)) && (forall x :: x in extra ==> f(x) == x)
    requires Elements(t) == Elements(Fixup(f, s)) + extra
    ensures Elements(Fixup(f, t)) == Elements(t)
  {
    FixupElements(f, s);
    FixupElements(f, t);
    forall x | x in t
      ensures f(x) == x
    {
      assert x in Elements(t);
    }
  }

  lemma RenameRequestFacts(r: string)
    ensures RenameRequest(RenameRequest(r)) == RenameRequest(r)
    ensures RenameRequest(r) == "generic" <==> r == "generic"
  {
  }

  lemma RenameRequestIdempotent()
    ensures forall r :: RenameRequest(RenameRequest(r)) == RenameRequest(r)
  {
  }

  function Extra(c: Config): set<string> {
    if c.kinds.Some? then {"generic"} else {}
  }

  lemma SuggestedKeys(c: Config)
    ensures Suggested(c).Keys == Elements(Requests(c, [])) + Extra(c)
  {
  }

  /** The suggestion allows the same requests, and generic ones as soon as kinds are listed. */
  lemma SuggestedRequests(c: Config, order: seq<string>)
    requires Deprecated(c) && Visits(order, Suggested(c))
    ensures Elements(Requests(Rewritten(c), order)) == Elements(Requests(c, [])) + Extra(c)
  {
    SuggestedKeys(c);
    RenameRequestIdempotent();
    RenameRequestFacts("generic");
    FixupTwice(RenameRequest, Listed(c.operations), order, Extra(c));
  }

  lemma SuggestedOperations(c: Config)
    requires Deprecated(c)
    ensures Elements(Operations(Rewritten(c))) == Elements(Operations(c))
  {
    var s := Listed(c.kinds);
    SortedElements(s);
    SortedElements(Sorted(s));
    if c.kinds.Some? {
      FixupBySets(RenameOperation, Sorted(Sorted(s)), Sorted(s));
    }
  }

  lemma ChecksBySets(known: Known, s: seq<string>, t: seq<string>, extra: set<string>)
    requires Elements(t) == Elements(s) + extra
    ensures RequestsOk(known, s) && extra <= known.requests ==> RequestsOk(known, t)
    ensures OperationsOk(known, s) && extra == {} ==> OperationsOk(known, t)
  {
    assert forall x :: x in t ==> x in Elements(t);
    assert forall x :: x in Elements(s) ==> x in s;
  }

  lemma RequestsStillKnown(c: Config, order: seq<string>, known: Known)
    requires Deprecated(c) && Visits(order, Suggested(c)) && "generic" in known.requests && RequestsOk(known, Requests(c, []))
    ensures RequestsOk(known, Requests(Rewritten(c), order))
  {
    SuggestedRequests(c, order);
    ChecksBySets(known, Requests(c, []), Requests(Rewritten(c), order), Extra(c));
  }

  lemma OperationsStillKnown(c: Config, known: Known)
    requires Deprecated(c) && OperationsOk(known, Operations(c))
    ensures OperationsOk(known, Operations(Rewritten(c)))
  {
    SuggestedOperations(c);
    ChecksBySets(known, Operations(c), Operations(Rewritten(c)), {});
  }

  /** Following the advice still prepares without error. */
  lemma RewriteStillPrepares(c: Config, order: seq<string>, known: Known)
    requires Deprecated(c) && Visits(order, Suggested(c)) && "generic" in known.requests
    requires Prepare(c, [], known).Some?
    ensures Prepare(Rewritten(c), order, known).Some?
  {
    RequestsStillKnown(c, order, known);
    OperationsStillKnown(c, known);
  }

  /** The two prepared policies accept the same requests. */
  ghost predicate SameMeaning(p: Prepared, q: Prepared) {
    forall client: Option<string>, m: Msg :: Matches(p, client, m) <==> Matches(q, client, m)
  }

  /** Adding generic to the requests changes nothing if and only if it was there, or no client is authorized. */
  lemma AddingGeneric(p: Prepared, q: Prepared, extra: set<string>)
    requires Elements(q.requests) == Elements(p.requests) + extra && extra <= {"generic"}
    requires Elements(q.ops) == Elements(p.ops) && p.chains == q.chains && p.keys == q.keys
    ensures SameMeaning(p, q) <==> extra == {} || "generic" in p.requests || p.keys == Some([])
  {
    assert forall x :: x in p.requests <==> x in Elements(p.requests);
    assert forall x :: x in q.requests <==> x in Elements(q.requests);
    if extra == {} || "generic" in p.requests {
      assert Elements(p.requests) == Elements(q.requests);
      forall client: Option<string>, m: Msg
        ensures Matches(p, client, m) <==> Matches(q, client, m)
      {
        MatchesBySets(p, q, client, m);
      }
    } else if p.keys != Some([]) {
      var client := if p.keys.None? then None else Some(p.keys.value[0]);
      assert Matches(q, client, Generic([])) && !Matches(p, client, Generic([]));
    }
  }

  lemma GenericRequested(c: Config)
    requires Deprecated(c)
    ensures "generic" in Requests(c, []) <==> "generic" in Listed(c.operations)
  {
    FixupElements(RenameRequest, Listed(c.operations));
    assert "generic" in Requests(c, []) <==> "generic" in Elements(Requests(c, []));
    if "generic" in Requests(c, []) {
      var x :| x in Listed(c.operations) && RenameRequest(x) == "generic";
      RenameRequestFacts(x);
    }
    RenameRequestFacts("generic");
  }

  /**
   The suggested rewrite preserves which requests are accepted if and only if no kinds are listed, or
   generic requests were already allowed, or no client is authorized at all.
   */
  lemma RewritePreservesIff(c: Config, order: seq<string>, known: Known)
    requires Deprecated(c) && Visits(order, Suggested(c)) && "generic" in known.requests
    requires Prepare(c, [], known).Some?
    ensures Prepare(Rewritten(c), order, known).Some?
    ensures SameMeaning(Prepare(c, [], known).value, Prepare(Rewritten(c), order, known).value) <==>
            c.kinds.None? || "generic" in Listed(c.operations) || c.keys == Some([])
  {
    RewriteStillPrepares(c, order, known);
    SuggestedRequests(c, order);
    SuggestedOperations(c);
    GenericRequested(c);
    AddingGeneric(Prepare(c, [], known).value, Prepare(Rewritten(c), order, known).value, Extra(c));
  }

  /** All that is asked of a request but its kind. */
  predicate OtherwiseAllowed(p: Prepared, client: Option<string>, m: Msg) {
    ChainAllowed(p, m) && ClientAllowed(p, client) && (m.Generic? ==> forall op :: op in m.ops ==> OpAllowed(p.ops, op))
  }

  /** What the configuration lists as request kinds: the keys of `allow`, or the deprecated list. */
  function ListedRequests(c: Config): set<string> {
    if c.allow.Some? then c.allow.value.Keys else set x | x in Listed(c.operations)
  }

  function ListedOperations(c: Config): seq<string> {
    if c.allow.Some? then (if "generic" in c.allow.value then c.allow.value["generic"] else []) else Listed(c.kinds)
  }

  /** The kind is listed under its present name or its deprecated one. */
  predicate KindListed(c: Config, kind: string) {
    && kind != "endorsement" && kind != "preendorsement"
    && (|| kind in ListedRequests(c)
        || (kind == "attestation" && "endorsement" in ListedRequests(c))
        || (kind == "preattestation" && "preendorsement" in ListedRequests(c)))
  }

  predicate ClientListed(c: Config, client: Option<string>) {
    c.keys.None? || (client.Some? && client.value in c.keys.value)
  }

  lemma KindPreparedIff(c: Config, order: seq<string>, kind: string)
    requires c.allow.Some? ==> Visits(order, c.allow.value)
    ensures kind in Requests(c, order) <==> KindListed(c, kind)
  {
    var s := if c.allow.Some? then order else Listed(c.operations);
    RequestAllowedIff(s, kind);
    forall x
      ensures x in s <==> x in ListedRequests(c)
    {
      assert c.allow.Some? ==> (x in s <==> x in Elements(order));
    }
  }

  /** A configuration is refused if and only if it lists a request or an operation kind that is not known under its present name. */
  lemma PreparesIff(c: Config, order: seq<string>, known: Known)
    requires c.allow.Some? ==> Visits(order, c.allow.value)
    ensures Prepare(c, order, known).Some? <==>
            && (forall x :: x in ListedRequests(c) ==> RenameRequest(x) in known.requests)
            && (forall x :: x in ListedOperations(c) ==> KnownOperation(known, RenameOperation(x)))
  {
    var s, t := if c.allow.Some? then order else Listed(c.operations), ListedOperations(c);
    forall x
      ensures x in s <==> x in ListedRequests(c)
    {
      assert c.allow.Some? ==> (x in s <==> x in Elements(order));
    }
    SortedElements(t);
    forall x
      ensures x in Sorted(t) <==> x in t
    {
      assert x in Sorted(t) <==> x in Elements(Sorted(t));
    }
    RequestsOkIff(known, s);
    OperationsOkIff(known, Sorted(t));
  }

  lemma RequestsOkIff(known: Known, s: seq<string>)
    ensures RequestsOk(known, Fixup(RenameRequest, s)) <==> forall x :: x in s ==> RenameRequest(x) in known.requests
  {
    forall r
      ensures r in Fixup(RenameRequest, s) <==> exists x :: x in s && RenameRequest(x) == r
    {
      FixupHas(RenameRequest, s, r);
    }
    forall x | x in s
      ensures RenameRequest(x) in Fixup(RenameRequest, s)
    {
    }
  }

  lemma OperationsOkIff(known: Known, s: seq<string>)
    ensures OperationsOk(known, Fixup(RenameOperation, s)) <==> forall x :: x in s ==> KnownOperation(known, RenameOperation(x))
  {
    forall r
      ensures r in Fixup(RenameOperation, s) <==> exists x :: x in s && RenameOperation(x) == r
    {
      FixupHas(RenameOperation, s, r);
    }
    forall x | x in s
      ensures RenameOperation(x) in Fixup(RenameOperation, s)
    {
    }
  }

  /**
   A request with a watermark is accepted if and only if its kind is listed, its chain is one of the configured ones or
   none are configured, and its client is authorized or none need be.
   */
  lemma ConsensusAcceptedIff(c: Config, order: seq<string>, known: Known, client: Option<string>, kind: string, chain: string)
    requires (c.allow.Some? ==> Visits(order, c.allow.value)) && Prepare(c, order, known).Some?
    ensures Matches(Prepare(c, order, known).value, client, Consensus(kind, chain)) <==>
            KindListed(c, kind) && ClientListed(c, client) && (c.chains.None? || chain in c.chains.value)
  {
    KindPreparedIff(c, order, kind);
  }

  predicate OperationListed(c: Config, op: Operation) {
    match op
    case Ballot(vote) => "ballot" in ListedOperations(c) || ("ballot" + (":" + vote)) in ListedOperations(c)
    case Plain(kind) =>
      && kind !in DEPRECATED
      && (kind in ListedOperations(c) || (FormerName(kind).Some? && FormerName(kind).value in ListedOperations(c)))
  }

  lemma OperationPreparedIff(c: Config, op: Operation)
    requires op.Plain? ==> NoColon(op.kind)
    ensures OpAllowed(Operations(c), op) <==> OperationListed(c, op)
  {
    var s := ListedOperations(c);
    SortedElements(s);
    forall x
      ensures x in Sorted(s) <==> x in s
    {
      assert x in Sorted(s) <==> x in Elements(Sorted(s));
    }
    match op
    case Ballot(vote) => BallotAllowedIff(Sorted(s), vote);
    case Plain(kind) => OperationAllowedIff(Sorted(s), kind);
  }

  /** A group of operations is accepted if and only if generic requests are listed, its client is authorized or none need be, and each operation is listed. */
  lemma GenericAcceptedIff(c: Config, order: seq<string>, known: Known, client: Option<string>, ops: seq<Operation>)
    requires (c.allow.Some? ==> Visits(order, c.allow.value)) && Prepare(c, order, known).Some?
    requires forall op :: op in ops && op.Plain? ==> NoColon(op.kind)
    ensures Matches(Prepare(c, order, known).value, client, Generic(ops)) <==>
            KindListed(c, "generic") && ClientListed(c, client) && forall op :: op in ops ==> OperationListed(c, op)
  {
    KindPreparedIff(c, order, "generic");
    forall op | op in ops
      ensures OpAllowed(Operations(c), op) <==> OperationListed(c, op)
    {
      OperationPreparedIff(c, op);
    }
  }

  /** What adding generic to the requests adds: generic requests of an authorized client whose operations are all allowed. */
  lemma AddedByGeneric(p: Prepared, q: Prepared, extra: set<string>, client: Option<string>, m: Msg)
    requires Elements(q.requests) == Elements(p.requests) + extra && extra <= {"generic"}
    requires Elements(q.ops) == Elements(p.ops) && p.chains == q.chains && p.keys == q.keys
    ensures Matches(p, client, m) ==> Matches(q, client, m)
    ensures Matches(q, client, m) && !Matches(p, client, m) <==>
            extra != {} && "generic" !in p.requests && KindOf(m) == "generic" && OtherwiseAllowed(p, client, m)
  {
    assert forall x :: x in p.requests <==> x in Elements(p.requests);
    assert forall x :: x in q.requests <==> x in Elements(q.requests);
    assert forall x :: x in p.ops <==> x in Elements(p.ops);
    assert forall x :: x in q.ops <==> x in Elements(q.ops);
  }

  /**
   Exactly what the suggested rewrite changes: nothing is lost, and what is newly accepted is, when kinds are listed and
   generic was not allowed, every generic request of an authorized client whose operations are all among those kinds.
   With an empty list of kinds that is the empty group alone.
   */
  lemma RewriteAdds(c: Config, order: seq<string>, known: Known, client: Option<string>, m: Msg)
    requires Deprecated(c) && Visits(order, Suggested(c)) && "generic" in known.requests
    requires Prepare(c, [], known).Some?
    ensures Prepare(Rewritten(c), order, known).Some?
    ensures var p, q := Prepare(c, [], known).value, Prepare(Rewritten(c), order, known).value;
            && (Matches(p, client, m) ==> Matches(q, client, m))
            && (Matches(q, client, m) && !Matches(p, client, m) <==>
                c.kinds.Some? && "generic" !in Listed(c.operations) && KindOf(m) == "generic" && OtherwiseAllowed(p, client, m))
            && (c.kinds == Some([]) && m.Generic? && Matches(q, client, m) && !Matches(p, client, m) ==> m == Generic([]))
  {
    RewriteStillPrepares(c, order, known);
    SuggestedRequests(c, order);
    SuggestedOperations(c);
    GenericRequested(c);
    AddedByGeneric(Prepare(c, [], known).value, Prepare(Rewritten(c), order, known).value, Extra(c), client, m);
    if c.kinds == Some([]) && m.Generic? && m.ops != [] {
      NoOperations(c, m.ops[0]);
      assert m.ops[0] in m.ops;
    }
  }

  lemma NoOperations(c: Config, op: Operation)
    requires c.allow.None? && c.kinds == Some([])
    ensures !OpAllowed(Operations(c), op)
  {
    SortedElements([]);
    FixupElements(RenameOperation, Sorted([]));
    assert forall x :: x in Operations(c) ==> x in Elements(Operations(c));
  }

  lemma WidensFor(c: Config, order: seq<string>, known: Known, kind: string)
    requires Deprecated(c) && Visits(order, Suggested(c)) && "generic" in known.requests && Prepare(c, [], known).Some?
    requires c.kinds == Some([kind]) && RenameOperation(kind) == kind && "generic" !in Listed(c.operations) && c.keys.None?
    ensures var p, q := Prepare(c, [], known).value, Prepare(Rewritten(c), order, known);
            q.Some? && !Matches(p, None, Generic([Plain(kind)])) && Matches(q.value, None, Generic([Plain(kind)]))
  {
    OneOperation(c, kind);
    RewriteAdds(c, order, known, None, Generic([Plain(kind)]));
  }

  lemma OneOperation(c: Config, kind: string)
    requires c.allow.None? && c.kinds == Some([kind]) && RenameOperation(kind) == kind
    ensures kind in Operations(c)
  {
    SortedElements([kind]);
    FixupElements(RenameOperation, Sorted([kind]));
    assert kind in Elements([kind]);
    assert kind in Elements(Operations(c));
  }

  lemma PlainKindKept(kind: string)
    requires (forall i :: 0 <= i < |kind| ==> kind[i] != ':') && RenameBase(kind) == kind
    ensures RenameOperation(kind) == kind
  {
    assert Colon(kind) == |kind|;
    assert kind[..|kind|] == kind;
  }

  lemma TransactionKept()
    ensures RenameOperation("transaction") == "transaction"
  {
    assert "transaction"[0] == 't';
    PlainKindKept("transaction");
  }

  /** A configuration the advice widens: it lists kinds but does not allow generic requests, and a transfer is newly accepted. */
  lemma RewriteCanWiden(order: seq<string>, known: Known)
    requires var c := Config(None, Some(["block"]), Some(["transaction"]), None, None);
             Visits(order, Suggested(c)) && "generic" in known.requests && Prepare(c, [], known).Some?
    ensures var c := Config(None, Some(["block"]), Some(["transaction"]), None, None);
            var p, q := Prepare(c, [], known).value, Prepare(Rewritten(c), order, known);
            var transfer := Generic([Plain("transaction")]);
            q.Some? && !Matches(p, None, transfer) && Matches(q.value, None, transfer)
  {
    TransactionKept();
    assert "block"[0] == 'b' && "generic"[0] == 'g';
    WidensFor(Config(None, Some(["block"]), Some(["transaction"]), None, None), order, known, "transaction");
  }
}
