/**
Keys held by the remote signer and the recovery of their handles, as in
pkg/vault/confidentialspace/confidentialspace.go.

The signer keeps imported keys in memory under numeric handles and forgets them
when it restarts. The vault keeps, for each key, its public key, the last handle
it was given and the encrypted blob to import it again from.
*/
module KeyHandles {
  import opened Options

  type Pub = string
  type Blob = string
  type Message = string
  type Handle = nat

  /** What the signer decrypts a blob to. */
  type Unseal = Blob -> Pub

  datatype Key = Key(pub: Pub, handle: Handle, blob: Option<Blob>)

  /** `table` is the signer's memory; `issued` records every handle it ever gave out. */
  datatype Signer = Signer(table: map<Handle, Pub>, issued: map<Handle, Pub>)

  datatype State = State(keys: seq<Key>, signer: Signer)

  /** An error of the signer is a chain of messages, outermost first. */
  datatype Error = Rpc(messages: seq<string>) | Transport

  datatype Reply = Signature(signer: Pub, of: Message) | Failed(error: Error)

  // ----- recognising a stale handle -----

  predicate IsSpace(c: char) {
    || c in {' ', '\t', '\n', '\r', '\U{0B}', '\U{0C}', '\U{85}', '\U{A0}', '\U{1680}'}
    || '\U{2000}' <= c <= '\U{200A}'
    || c in {'\U{2028}', '\U{2029}', '\U{202F}', '\U{205F}', '\U{3000}'}
  }

  function TrimLeft(s: string): (r: string) {
    if s != "" && IsSpace(s[0]) then TrimLeft(s[1..]) else s
  }

  function TrimRight(s: string): (r: string) {
    if s != "" && IsSpace(s[|s| - 1]) then TrimRight(s[..|s| - 1]) else s
  }

  function Lower(c: char): char {
    if 'A' <= c <= 'Z' then c + 32 as char else c
  }

  predicate EqualFold(a: string, b: string) {
    |a| == |b| && forall i :: 0 <= i < |a| ==> Lower(a[i]) == Lower(b[i])
  }

  predicate SaysInvalidHandle(message: string) {
    EqualFold(TrimRight(TrimLeft(message)), "invalid handle")
  }

  predicate IsStale(e: Error) {
    e.Rpc? && exists i :: 0 <= i < |e.messages| && SaysInvalidHandle(e.messages[i])
  }

  predicate AllSpace(s: string) {
    forall i :: 0 <= i < |s| ==> IsSpace(s[i])
  }

  lemma {:induction false} TrimLeftSplits(s: string) returns (pre: string)
    ensures AllSpace(pre) && s == pre + TrimLeft(s) && (TrimLeft(s) != "" ==> !IsSpace(TrimLeft(s)[0]))
  {
    pre := "";
    if s != "" && IsSpace(s[0]) {
      var more := TrimLeftSplits(s[1..]);
      pre := [s[0]] + more;
      assert s == [s[0]] + s[1..];
    }
  }

  lemma {:induction false} TrimRightSplits(s: string) returns (post: string)
    ensures AllSpace(post) && s == TrimRight(s) + post
  {
    post := "";
    if s != "" && IsSpace(s[|s| - 1]) {
      var n := |s| - 1;
      var more := TrimRightSplits(s[..n]);
      post := more + [s[n]];
      assert s == s[..n] + [s[n]];
    }
  }

  lemma {:induction false} TrimLeftOf(pre: string, t: string)
    requires AllSpace(pre) && t != "" && !IsSpace(t[0])
    ensures TrimLeft(pre + t) == t
  {
    if pre == "" {
      assert pre + t == t;
    } else {
      assert (pre + t)[1..] == pre[1..] + t;
      TrimLeftOf(pre[1..], t);
    }
  }

  lemma {:induction false} TrimRightOf(t: string, post: string)
    requires AllSpace(post) && t != "" && !IsSpace(t[|t| - 1])
    ensures TrimRight(t + post) == t
  {
    if post == "" {
      assert t + post == t;
    } else {
      var n := |post| - 1;
      assert (t + post)[..|t| + n] == t + post[..n];
      TrimRightOf(t, post[..n]);
    }
  }

  /** Letters in either case. */
  lemma FoldedEnds(w: string)
    requires EqualFold(w, "invalid handle")
    ensures |w| == 14 && !IsSpace(w[0]) && !IsSpace(w[13])
  {
    var t := "invalid handle";
    assert t[0] == 'i' && t[13] == 'e' && |t| == 14;
    assert Lower(w[0]) == 'i' && Lower(w[13]) == 'e';
  }

  lemma SaidInWords(message: string) returns (pre: string, w: string, post: string)
    requires SaysInvalidHandle(message)
    ensures message == pre + w + post && AllSpace(pre) && AllSpace(post) && EqualFold(w, "invalid handle")
  {
    var t := TrimLeft(message);
    pre := TrimLeftSplits(message);
    post := TrimRightSplits(t);
    w := TrimRight(t);
  }

  lemma WordsSayIt(pre: string, w: string, post: string)
    requires AllSpace(pre) && AllSpace(post) && EqualFold(w, "invalid handle")
    ensures SaysInvalidHandle(pre + w + post)
  {
    FoldedEnds(w);
    TrimRightOf(w, post);
    var t := w + post;
    assert t[0] == w[0];
    TrimLeftOf(pre, t);
    assert pre + w + post == pre + t;
  }

  /** A message says that the handle is invalid if and only if it does in so many words, in any case and with any space around. */
  lemma SaysInvalidHandleIff(message: string)
    ensures SaysInvalidHandle(message) <==>
            exists pre, w, post :: message == pre + w + post && AllSpace(pre) && AllSpace(post) && EqualFold(w, "invalid handle")
  {
    if SaysInvalidHandle(message) {
      var pre, w, post := SaidInWords(message);
    }
    forall pre, w, post | message == pre + w + post && AllSpace(pre) && AllSpace(post) && EqualFold(w, "invalid handle")
      ensures SaysInvalidHandle(message)
    {
      WordsSayIt(pre, w, post);
    }
  }

  /** White space is that of Unicode. */
  lemma SpaceIff(c: char)
    ensures IsSpace(c) <==>
            var n := c as int;
            9 <= n <= 13 || n in {0x20, 0x85, 0xA0, 0x1680, 0x2028, 0x2029, 0x202F, 0x205F, 0x3000} || 0x2000 <= n <= 0x200A
  {
  }

  /** The two are the same letter of the Latin alphabet in different cases. */
  predicate OtherCase(a: char, b: char) {
    ('A' <= a <= 'Z' && b == a + 32 as char) || ('A' <= b <= 'Z' && a == b + 32 as char)
  }

  /** Strings are alike if and only if they differ at most in the case of letters. */
  lemma EqualFoldIff(a: string, b: string)
    ensures EqualFold(a, b) <==> |a| == |b| && forall i :: 0 <= i < |a| ==> a[i] == b[i] || OtherCase(a[i], b[i])
  {
  }

  /** The walk down the chain of sources. */
  method IsStaleHandleError(e: Error) returns (stale: bool)
    ensures stale == IsStale(e)
  {
    if e.Transport? {
      return false;
    }
    var i := 0;
    while i < |e.messages|
      invariant i <= |e.messages|
      invariant forall k :: 0 <= k < i ==> !SaysInvalidHandle(e.messages[k])
    {
      if SaysInvalidHandle(e.messages[i]) {
        return true;
      }
      i := i + 1;
    }
    stale := false;
  }

  // ----- the signer -----

  function Restarted(g: Signer): Signer {
    g.(table := map[])
  }

  function Imported(g: Signer, keys: map<Handle, Pub>): Signer {
    Signer(g.table + keys, g.issued + keys)
  }

  const INVALID_HANDLE := Rpc(["signer error", "invalid handle"])

  /** A signing call: it may fail in any way at all; otherwise the table decides. */
  function SignRpc(g: Signer, h: Handle, m: Message, fault: Option<Error>): Reply {
    if fault.Some? then Failed(fault.value)
    else if h in g.table then Signature(g.table[h], m)
    else Failed(INVALID_HANDLE)
  }

  // ----- the vault -----

  /**
   What happens around the calls of one Sign: faults, signer restarts in between, the handle a re-import gets,
   and whether the signature that comes back can be decoded. `unseen` are the handles under which the signer took
   the key without the vault learning of it: the answer was lost, and the call failed or was silently repeated.
   */
  datatype Env = Env(fault1: Option<Error>, restart1: bool, unseen: set<Handle>, importFault: bool, handle: Handle,
                     restart2: bool, fault2: Option<Error>, decodes: bool)

  const Quiet := Env(None, false, {}, false, 0, false, None, true)

  datatype Signed = Signed(state: State, reply: Reply, signCalls: nat, importCalls: nat)

  function MaybeRestarted(g: Signer, restart: bool): Signer {
    if restart then Restarted(g) else g
  }

  /** A signature that cannot be decoded is an error. */
  function Decoded(r: Reply, decodes: bool): Reply {
    if r.Signature? && !decodes then Failed(Transport) else r
  }

  /** The same key under each of the handles. */
  function Under(hs: set<Handle>, p: Pub): map<Handle, Pub> {
    map h | h in hs :: p
  }

  /** `Sign` and, with the same shape, `ProvePossession` of key i. */
  function SignWith(s: State, i: nat, m: Message, env: Env, unseal: Unseal): (r: Signed)
    requires i < |s.keys|
  {
    var k := s.keys[i];
    var r1 := SignRpc(s.signer, k.handle, m, env.fault1);
    if !(r1.Failed? && IsStale(r1.error)) then Signed(s, Decoded(r1, env.decodes), 1, 0)
    else if k.blob.None? then Signed(s, Failed(Transport), 1, 0)
    else
      var p := unseal(k.blob.value);
      var g1 := Imported(MaybeRestarted(s.signer, env.restart1), Under(env.unseen, p));
      if env.importFault then Signed(s.(signer := g1), Failed(Transport), 1, 1)
      else
        var g2 := Imported(g1, map[env.handle := p]);
        var s2 := State(s.keys[i := k.(handle := env.handle)], MaybeRestarted(g2, env.restart2));
        Signed(s2, Decoded(SignRpc(s2.signer, env.handle, m, env.fault2), env.decodes), 2, 1)
  }

  datatype Action =
    | NewKey(pub: Pub, handle: Handle, blob: Option<Blob>)  // start-up, Import or Generate; kept even when storing the blob fails
    | Unseen(taken: map<Handle, Pub>)                       // keys that Import or Generate brought to the signer without learning of it
    | Sign(i: nat, m: Message, env: Env)
    | SignerRestart

  function Step(s: State, a: Action, unseal: Unseal): (s': State) {
    match a
    case NewKey(p, h, b) => State(s.keys + [Key(p, h, b)], Imported(s.signer, map[h := p]))
    case Unseen(taken) => s.(signer := Imported(s.signer, taken))
    case Sign(i, m, env) => if i < |s.keys| then SignWith(s, i, m, env, unseal).state else s
    case SignerRestart => s.(signer := Restarted(s.signer))
  }

  function Run(s: State, acts: seq<Action>, unseal: Unseal): (s': State)
    decreases |acts|
  {
    if acts == [] then s else Run(Step(s, acts[0], unseal), acts[1..], unseal)
  }

  const Init := State([], Signer(map[], map[]))

  lemma InvalidHandleIsStale()
    ensures IsStale(INVALID_HANDLE)
  {
    var m := "invalid handle";
    assert TrimLeft(m) == m;
    assert m[|m| - 1] == 'e';
    assert TrimRight(m) == m;
    assert SaysInvalidHandle(INVALID_HANDLE.messages[1]);
  }

  /** Any error that does not speak of an invalid handle ends the call: no import, no second attempt, nothing changed. */
  lemma OtherErrorsEnd(s: State, i: nat, m: Message, env: Env, unseal: Unseal)
    requires i < |s.keys| && env.fault1.Some? && !IsStale(env.fault1.value)
    ensures SignWith(s, i, m, env, unseal) == Signed(s, Failed(env.fault1.value), 1, 0)
  {
  }

  /**
   A signature is returned if and only if it can be decoded and either the first call succeeds on a live handle, or the
   handle is stale, the key's blob is imported again, and the second call succeeds before the signer forgets it.
   */
  lemma SignatureIff(s: State, i: nat, m: Message, env: Env, unseal: Unseal)
    requires i < |s.keys|
    ensures SignWith(s, i, m, env, unseal).reply.Signature? <==>
            && env.decodes
            && var live := s.keys[i].handle in s.signer.table;
               || (env.fault1.None? && live)
               || (&& (if env.fault1.Some? then IsStale(env.fault1.value) else !live)
                   && s.keys[i].blob.Some? && !env.importFault && !env.restart2 && env.fault2.None?)
  {
    InvalidHandleIsStale();
    var r := SignRpc(s.signer, s.keys[i].handle, m, env.fault1);
    if r.Failed? && IsStale(r.error) && s.keys[i].blob.Some? && !env.importFault {
      SecondAnswer(s, i, m, env, unseal);
    }
  }

  // ----- when a key signs only as itself -----

  /** Key i never signs as another key or anything but the message given, whatever happens around the call. */
  ghost predicate SignsOnlyAsItself(s: State, i: nat, unseal: Unseal)
    requires i < |s.keys|
  {
    forall m, env :: var r := SignWith(s, i, m, env, unseal).reply; r.Signature? ==> r == Signature(s.keys[i].pub, m)
  }

  /** The signer's entry under the handle, if any, is the key, and the blob, if any, decrypts to it. */
  predicate Sound(g: Signer, k: Key, unseal: Unseal) {
    && (k.handle in g.table ==> g.table[k.handle] == k.pub)
    && (k.blob.Some? ==> unseal(k.blob.value) == k.pub)
  }

  lemma LastImport(g: Signer, hs: set<Handle>, h: Handle, p: Pub)
    ensures var t := Imported(Imported(g, Under(hs, p)), map[h := p]).table; h in t && t[h] == p
  {
  }

  /** The answer after a successful re-import. */
  lemma SecondAnswer(s: State, i: nat, m: Message, env: Env, unseal: Unseal)
    requires i < |s.keys| && s.keys[i].blob.Some? && !env.importFault
    requires var r := SignRpc(s.signer, s.keys[i].handle, m, env.fault1); r.Failed? && IsStale(r.error)
    ensures SignWith(s, i, m, env, unseal).reply ==
            Decoded(if env.fault2.Some? then Failed(env.fault2.value)
                    else if env.restart2 then Failed(INVALID_HANDLE)
                    else Signature(unseal(s.keys[i].blob.value), m), env.decodes)
  {
    LastImport(MaybeRestarted(s.signer, env.restart1), env.unseen, env.handle, unseal(s.keys[i].blob.value));
  }

  lemma SignsOnlyAsItselfIff(s: State, i: nat, unseal: Unseal)
    requires i < |s.keys|
    ensures SignsOnlyAsItself(s, i, unseal) <==> Sound(s.signer, s.keys[i], unseal)
  {
    var k := s.keys[i];
    if SignsOnlyAsItself(s, i, unseal) {
      var r := SignRpc(s.signer, k.handle, "", None);
      assert r.Signature? ==> SignWith(s, i, "", Quiet, unseal).reply == r;
      var stale := Quiet.(fault1 := Some(INVALID_HANDLE));
      InvalidHandleIsStale();
      if k.blob.Some? {
        SecondAnswer(s, i, "", stale, unseal);
        assert SignWith(s, i, "", stale, unseal).reply == Signature(unseal(k.blob.value), "");
      }
    } else {
      var m, env :| var r := SignWith(s, i, m, env, unseal).reply; r.Signature? && r != Signature(k.pub, m);
      var r1 := SignRpc(s.signer, k.handle, m, env.fault1);
      if r1.Failed? && IsStale(r1.error) && k.blob.Some? && !env.importFault {
        SecondAnswer(s, i, m, env, unseal);
      }
    }
  }

  ghost predicate AllSignAsThemselves(s: State, unseal: Unseal) {
    forall i :: 0 <= i < |s.keys| ==> SignsOnlyAsItself(s, i, unseal)
  }

  predicate AllSound(s: State, unseal: Unseal) {
    forall i :: 0 <= i < |s.keys| ==> Sound(s.signer, s.keys[i], unseal)
  }

  lemma AllSoundIff(s: State, unseal: Unseal)
    ensures AllSignAsThemselves(s, unseal) <==> AllSound(s, unseal)
  {
    forall i | 0 <= i < |s.keys|
      ensures SignsOnlyAsItself(s, i, unseal) <==> Sound(s.signer, s.keys[i], unseal)
    {
      SignsOnlyAsItselfIff(s, i, unseal);
    }
  }

  // ----- over whole runs -----

  /** No key of another public key still holds one of the handles. */
  predicate Unclaimed(keys: seq<Key>, given: map<Handle, Pub>) {
    forall j :: 0 <= j < |keys| && keys[j].handle in given ==> keys[j].pub == given[keys[j].handle]
  }

  /** The vault asks the signer to import key i again. */
  predicate AsksToImport(s: State, i: nat, env: Env)
    requires i < |s.keys|
  {
    var r := SignRpc(s.signer, s.keys[i].handle, "", env.fault1);
    r.Failed? && IsStale(r.error) && s.keys[i].blob.Some?
  }

  /** The handles the signer has given to key i by the end of the call. */
  function Given(s: State, i: nat, env: Env): set<Handle>
    requires i < |s.keys|
  {
    if !AsksToImport(s, i, env) then {}
    else if env.importFault then env.unseen
    else if env.restart2 then {}
    else env.unseen + {env.handle}
  }

  /** The vault's keys at the end of the call. */
  function KeysAfter(s: State, i: nat, env: Env): seq<Key>
    requires i < |s.keys|
  {
    if AsksToImport(s, i, env) && !env.importFault then s.keys[i := s.keys[i].(handle := env.handle)] else s.keys
  }

  /**
   The signer gives out no handle, seen or unseen, that a key of another public key still holds, unless it forgets it
   again before the call is over, and a new key's blob is its own.
   */
  predicate Clean(s: State, a: Action, unseal: Unseal) {
    match a
    case NewKey(p, h, b) => Unclaimed(s.keys, map[h := p]) && (b.Some? ==> unseal(b.value) == p)
    case Unseen(taken) => Unclaimed(s.keys, taken)
    case Sign(i, m, env) => i < |s.keys| ==> Unclaimed(KeysAfter(s, i, env), Under(Given(s, i, env), s.keys[i].pub))
    case SignerRestart => true
  }

  predicate CleanRun(s: State, acts: seq<Action>, unseal: Unseal)
    decreases |acts|
  {
    acts == [] || (Clean(s, acts[0], unseal) && CleanRun(Step(s, acts[0], unseal), acts[1..], unseal))
  }

  /** In every state along the run each key signs only as itself. */
  ghost predicate SafeThroughout(s: State, acts: seq<Action>, unseal: Unseal)
    decreases |acts|
  {
    AllSignAsThemselves(s, unseal) && (acts == [] || SafeThroughout(Step(s, acts[0], unseal), acts[1..], unseal))
  }

  lemma NewKeySoundIff(s: State, p: Pub, h: Handle, b: Option<Blob>, unseal: Unseal)
    requires AllSound(s, unseal)
    ensures AllSound(Step(s, NewKey(p, h, b), unseal), unseal) <==> Clean(s, NewKey(p, h, b), unseal)
  {
    var s' := Step(s, NewKey(p, h, b), unseal);
    assert s'.keys[|s.keys|] == Key(p, h, b);
    assert forall j :: 0 <= j < |s.keys| ==> s'.keys[j] == s.keys[j];
  }

  lemma UnseenSoundIff(s: State, taken: map<Handle, Pub>, unseal: Unseal)
    requires AllSound(s, unseal)
    ensures AllSound(Step(s, Unseen(taken), unseal), unseal) <==> Unclaimed(s.keys, taken)
  {
  }

  lemma TwoImports(g: Signer, unseen: map<Handle, Pub>, h: Handle, p: Pub)
    ensures Imported(Imported(g, unseen), map[h := p]) == Imported(g, unseen[h := p])
  {
    OneMore(g.table, unseen, h, p);
    OneMore(g.issued, unseen, h, p);
  }

  lemma OneMore(t: map<Handle, Pub>, given: map<Handle, Pub>, h: Handle, p: Pub)
    ensures t + given + map[h := p] == t + given[h := p]
  {
  }

  lemma ImportSoundIff(s: State, p: Pub, h: Handle, b: Option<Blob>, unseen: map<Handle, Pub>, unseal: Unseal)
    requires AllSound(s, unseal)
    ensures AllSound(State(s.keys + [Key(p, h, b)], Imported(Imported(s.signer, unseen), map[h := p])), unseal) <==>
            Unclaimed(s.keys, unseen[h := p]) && (b.Some? ==> unseal(b.value) == p)
  {
    UnseenSoundIff(s, unseen[h := p], unseal);
    var s1 := Step(s, Unseen(unseen[h := p]), unseal);
    TwoImports(s.signer, unseen, h, p);
    OneMoreSoundIff(s1, Key(p, h, b), unseal);
  }

  lemma OneMoreSoundIff(s: State, k: Key, unseal: Unseal)
    requires k.handle in s.signer.table && s.signer.table[k.handle] == k.pub
    ensures AllSound(State(s.keys + [k], s.signer), unseal) <==> AllSound(s, unseal) && (k.blob.Some? ==> unseal(k.blob.value) == k.pub)
  {
    var keys := s.keys + [k];
    assert keys[|s.keys|] == k;
    assert forall j :: 0 <= j < |s.keys| ==> keys[j] == s.keys[j];
  }

  lemma Merged(t: map<Handle, Pub>, hs: set<Handle>, h: Handle, p: Pub)
    ensures t + Under({}, p) == t
    ensures t + Under(hs, p) + map[h := p] == t + Under(hs + {h}, p)
  {
  }

  /** What the signer still knows from before the call. */
  function Kept(s: State, i: nat, env: Env): map<Handle, Pub>
    requires i < |s.keys|
  {
    if AsksToImport(s, i, env) && (env.restart1 || (env.restart2 && !env.importFault)) then map[] else s.signer.table
  }

  /** The vault's keys and the signer's table after the call. */
  lemma SignLeaves(s: State, i: nat, m: Message, env: Env, unseal: Unseal)
    requires i < |s.keys| && (s.keys[i].blob.Some? ==> unseal(s.keys[i].blob.value) == s.keys[i].pub)
    ensures var s' := Step(s, Sign(i, m, env), unseal);
            s'.keys == KeysAfter(s, i, env) && s'.signer.table == Kept(s, i, env) + Under(Given(s, i, env), s.keys[i].pub)
  {
    Merged(Kept(s, i, env), env.unseen, env.handle, s.keys[i].pub);
    if AsksToImport(s, i, env) {
      assert SignRpc(s.signer, s.keys[i].handle, m, env.fault1).Failed?;
    }
  }

  lemma SignSoundIff(s: State, i: nat, m: Message, env: Env, unseal: Unseal)
    requires AllSound(s, unseal)
    ensures AllSound(Step(s, Sign(i, m, env), unseal), unseal) <==> Clean(s, Sign(i, m, env), unseal)
  {
    if i < |s.keys| {
      assert Sound(s.signer, s.keys[i], unseal);
      SignLeaves(s, i, m, env, unseal);
      var s' := Step(s, Sign(i, m, env), unseal);
      assert forall j :: 0 <= j < |s.keys| && j != i ==> s'.keys[j] == s.keys[j];
    }
  }

  lemma StepSoundIff(s: State, a: Action, unseal: Unseal)
    requires AllSound(s, unseal)
    ensures AllSound(Step(s, a, unseal), unseal) <==> Clean(s, a, unseal)
  {
    match a
    case NewKey(p, h, b) => NewKeySoundIff(s, p, h, b, unseal);
    case Unseen(taken) => UnseenSoundIff(s, taken, unseal);
    case Sign(i, m, env) => SignSoundIff(s, i, m, env, unseal);
    case SignerRestart =>
  }

  /**
   Over every interleaving of imports, seen or not, signings and restarts: all keys sign only as themselves all along if
   and only if no handle is given out that a key of another public key still holds, and every blob is its key's own.
   */
  lemma {:induction false} SafeIffClean(s: State, acts: seq<Action>, unseal: Unseal)
    requires AllSignAsThemselves(s, unseal)
    ensures SafeThroughout(s, acts, unseal) <==> CleanRun(s, acts, unseal)
    decreases |acts|
  {
    if acts != [] {
      var s' := Step(s, acts[0], unseal);
      AllSoundIff(s, unseal);
      AllSoundIff(s', unseal);
      StepSoundIff(s, acts[0], unseal);
      if AllSignAsThemselves(s', unseal) {
        SafeIffClean(s', acts[1..], unseal);
      } else {
        assert !SafeThroughout(s', acts[1..], unseal);
      }
    }
  }

  lemma {:induction false} CleanRunIsSound(s: State, acts: seq<Action>, unseal: Unseal)
    requires AllSound(s, unseal) && CleanRun(s, acts, unseal)
    ensures AllSound(Run(s, acts, unseal), unseal)
    decreases |acts|
  {
    if acts != [] {
      StepSoundIff(s, acts[0], unseal);
      CleanRunIsSound(Step(s, acts[0], unseal), acts[1..], unseal);
    }
  }

  /** After any clean run, a successful Sign is of the message, by the reference's own key, with at most two sign calls and one import. */
  lemma SignsWithOwnKey(acts: seq<Action>, i: nat, m: Message, env: Env, unseal: Unseal)
    requires CleanRun(Init, acts, unseal) && i < |Run(Init, acts, unseal).keys|
    ensures var s := Run(Init, acts, unseal);
            var r := SignWith(s, i, m, env, unseal);
            && (r.reply.Signature? ==> r.reply == Signature(s.keys[i].pub, m))
            && 1 <= r.signCalls <= 2 && r.importCalls <= 1 && (r.signCalls == 2 ==> r.importCalls == 1)
  {
    CleanRunIsSound(Init, acts, unseal);
    assert Sound(Run(Init, acts, unseal).signer, Run(Init, acts, unseal).keys[i], unseal);
  }

  lemma RecoversIn(s: State, i: nat, m: Message, env: Env, unseal: Unseal)
    requires i < |s.keys| && Sound(s.signer, s.keys[i], unseal)
    requires s.keys[i].handle !in s.signer.table && s.keys[i].blob.Some?
    requires env.fault1.None? && !env.importFault && !env.restart2 && env.fault2.None? && env.decodes
    ensures SignWith(s, i, m, env, unseal).reply == Signature(s.keys[i].pub, m)
  {
    InvalidHandleIsStale();
    SecondAnswer(s, i, m, env, unseal);
  }

  /** A lost handle is repaired: with a blob and no further fault the second attempt succeeds, under the right key. */
  lemma RecoversAfterRestart(acts: seq<Action>, i: nat, m: Message, env: Env, unseal: Unseal)
    requires CleanRun(Init, acts, unseal) && i < |Run(Init, acts, unseal).keys|
    requires var s := Run(Init, acts, unseal);
             s.keys[i].handle !in s.signer.table && s.keys[i].blob.Some?
    requires env.fault1.None? && !env.importFault && !env.restart2 && env.fault2.None? && env.decodes
    ensures var s := Run(Init, acts, unseal);
            SignWith(s, i, m, env, unseal).reply == Signature(s.keys[i].pub, m)
  {
    CleanRunIsSound(Init, acts, unseal);
    RecoversIn(Run(Init, acts, unseal), i, m, env, unseal);
  }

  /** A live handle is used as it is: one call, no import, nothing changed. */
  lemma LiveHandleSigns(acts: seq<Action>, i: nat, m: Message, env: Env, unseal: Unseal)
    requires CleanRun(Init, acts, unseal) && i < |Run(Init, acts, unseal).keys| && env.fault1.None? && env.decodes
    requires var s := Run(Init, acts, unseal); s.keys[i].handle in s.signer.table
    ensures var s := Run(Init, acts, unseal);
            SignWith(s, i, m, env, unseal) == Signed(s, Signature(s.keys[i].pub, m), 1, 0)
  {
    CleanRunIsSound(Init, acts, unseal);
    assert Sound(Run(Init, acts, unseal).signer, Run(Init, acts, unseal).keys[i], unseal);
  }

  // ----- signers that never reuse a handle -----

  /** A handle once given out for a key is not given out for another. */
  predicate MayIssue(g: Signer, given: map<Handle, Pub>) {
    forall h :: h in given && h in g.issued ==> g.issued[h] == given[h]
  }

  /** New keys come with their own blob if any, and handles are never reused for another key. */
  predicate Honest(s: State, a: Action, unseal: Unseal) {
    match a
    case NewKey(p, h, b) => MayIssue(s.signer, map[h := p]) && (b.Some? ==> unseal(b.value) == p)
    case Unseen(taken) => MayIssue(s.signer, taken)
    case Sign(i, m, env) =>
      i < |s.keys| && s.keys[i].blob.Some? ==> MayIssue(s.signer, Under(env.unseen + {env.handle}, unseal(s.keys[i].blob.value)))
    case SignerRestart => true
  }

  predicate HonestRun(s: State, acts: seq<Action>, unseal: Unseal)
    decreases |acts|
  {
    acts == [] || (Honest(s, acts[0], unseal) && HonestRun(Step(s, acts[0], unseal), acts[1..], unseal))
  }

  ghost predicate Inv(s: State, unseal: Unseal) {
    && (forall h :: h in s.signer.table ==> h in s.signer.issued && s.signer.issued[h] == s.signer.table[h])
    && (forall i :: 0 <= i < |s.keys| ==> KeyOk(s.signer, s.keys[i], unseal))
  }

  /** The key's handle was given out for it, and its blob decrypts to it. */
  predicate KeyOk(g: Signer, k: Key, unseal: Unseal) {
    && k.handle in g.issued && g.issued[k.handle] == k.pub
    && (k.blob.Some? ==> unseal(k.blob.value) == k.pub)
  }

  lemma StepKeepsInv(s: State, a: Action, unseal: Unseal)
    requires Inv(s, unseal) && Honest(s, a, unseal)
    ensures Inv(Step(s, a, unseal), unseal) && Clean(s, a, unseal)
  {
    match a
    case Sign(i, m, env) =>
      if i < |s.keys| {
        SignKeepsInv(s, i, m, env, unseal);
      }
    case _ =>
  }

  /** Taking keys under handles that may be given to them leaves every other key's handle its own. */
  lemma ImportKeepsKey(g: Signer, given: map<Handle, Pub>, k: Key, unseal: Unseal)
    requires MayIssue(g, given) && KeyOk(g, k, unseal)
    ensures KeyOk(Imported(g, given), k, unseal)
  {
  }

  /** All handles that a Sign may give to key i are its own to have. */
  lemma SignMayIssue(s: State, i: nat, m: Message, env: Env, unseal: Unseal) returns (given: map<Handle, Pub>)
    requires Inv(s, unseal) && Honest(s, Sign(i, m, env), unseal) && i < |s.keys| && AsksToImport(s, i, env)
    ensures given == Under(if env.importFault then env.unseen else env.unseen + {env.handle}, s.keys[i].pub)
    ensures MayIssue(s.signer, given)
  {
    given := Under(if env.importFault then env.unseen else env.unseen + {env.handle}, s.keys[i].pub);
    assert KeyOk(s.signer, s.keys[i], unseal);
  }

  lemma IssuedIsClean(s: State, i: nat, env: Env, given: map<Handle, Pub>, unseal: Unseal)
    requires Inv(s, unseal) && i < |s.keys| && AsksToImport(s, i, env) && MayIssue(s.signer, given)
    requires given == Under(if env.importFault then env.unseen else env.unseen + {env.handle}, s.keys[i].pub)
    ensures Unclaimed(KeysAfter(s, i, env), Under(Given(s, i, env), s.keys[i].pub))
  {
    assert forall j :: 0 <= j < |s.keys| ==> KeyOk(s.signer, s.keys[j], unseal);
  }

  lemma IssuedKeepsInv(s: State, i: nat, m: Message, env: Env, given: map<Handle, Pub>, unseal: Unseal)
    requires Inv(s, unseal) && i < |s.keys| && AsksToImport(s, i, env) && MayIssue(s.signer, given)
    requires given == Under(if env.importFault then env.unseen else env.unseen + {env.handle}, s.keys[i].pub)
    ensures Inv(Step(s, Sign(i, m, env), unseal), unseal)
  {
    assert KeyOk(s.signer, s.keys[i], unseal);
    SignIssues(s, i, m, env, unseal);
    SignLeaves(s, i, m, env, unseal);
    forall j | 0 <= j < |s.keys|
      ensures KeyOk(Imported(s.signer, given), s.keys[j], unseal)
    {
      ImportKeepsKey(s.signer, given, s.keys[j], unseal);
    }
  }

  lemma SignKeepsInv(s: State, i: nat, m: Message, env: Env, unseal: Unseal)
    requires Inv(s, unseal) && Honest(s, Sign(i, m, env), unseal) && i < |s.keys|
    ensures Inv(Step(s, Sign(i, m, env), unseal), unseal) && Clean(s, Sign(i, m, env), unseal)
  {
    if AsksToImport(s, i, env) {
      var given := SignMayIssue(s, i, m, env, unseal);
      IssuedIsClean(s, i, env, given, unseal);
      IssuedKeepsInv(s, i, m, env, given, unseal);
    } else {
      assert Step(s, Sign(i, m, env), unseal) == s;
    }
  }

  lemma SignIssues(s: State, i: nat, m: Message, env: Env, unseal: Unseal)
    requires i < |s.keys| && AsksToImport(s, i, env) && unseal(s.keys[i].blob.value) == s.keys[i].pub
    ensures Step(s, Sign(i, m, env), unseal).signer.issued ==
            s.signer.issued + Under(if env.importFault then env.unseen else env.unseen + {env.handle}, s.keys[i].pub)
  {
    Merged(s.signer.issued, env.unseen, env.handle, s.keys[i].pub);
    assert SignRpc(s.signer, s.keys[i].handle, m, env.fault1).Failed?;
  }

  /** If the signer never reuses a handle, the run is clean, and each key's handle was issued for it. */
  lemma {:induction false} HonestIsClean(s: State, acts: seq<Action>, unseal: Unseal)
    requires Inv(s, unseal) && HonestRun(s, acts, unseal)
    ensures CleanRun(s, acts, unseal) && Inv(Run(s, acts, unseal), unseal)
    decreases |acts|
  {
    if acts != [] {
      StepKeepsInv(s, acts[0], unseal);
      HonestIsClean(Step(s, acts[0], unseal), acts[1..], unseal);
    }
  }

  /** Under a signer that never reuses a handle, whatever is lost, every successful Sign is of the message and by the reference's own key. */
  lemma NeverReusedSignsWithOwnKey(acts: seq<Action>, i: nat, m: Message, env: Env, unseal: Unseal)
    requires HonestRun(Init, acts, unseal) && i < |Run(Init, acts, unseal).keys|
    ensures SafeThroughout(Init, acts, unseal)
    ensures var s := Run(Init, acts, unseal);
            var r := SignWith(s, i, m, env, unseal).reply;
            r.Signature? ==> r == Signature(s.keys[i].pub, m)
  {
    HonestIsClean(Init, acts, unseal);
    SafeIffClean(Init, acts, unseal);
    SignsWithOwnKey(acts, i, m, env, unseal);
  }

  // ----- a signer that does -----

  /** Two keys have been imported under handles 0 and 1, and the signer has restarted. */
  const BeforeReuse := State([Key("A", 0, Some("blob A")), Key("B", 1, Some("blob B"))],
                             Signer(map[], map[0 := "A", 1 := "B"]))

  lemma ReuseSetup(unseal: Unseal)
    ensures Run(Init, [NewKey("A", 0, Some("blob A")), NewKey("B", 1, Some("blob B")), SignerRestart], unseal) == BeforeReuse
  {
  }

  /** In any state: a key whose handle a re-import gives to another, seen or unseen, signs as that one from then on. */
  lemma ReimportSignsAsAnother(s: State, i: nat, first: Message, env: Env, j: nat, m: Message, unseal: Unseal)
    requires i < |s.keys| && j < |s.keys| && i != j && s.keys[j].handle in Given(s, i, env)
    requires s.keys[i].blob.Some? ==> unseal(s.keys[i].blob.value) == s.keys[i].pub
    ensures SignWith(Step(s, Sign(i, first, env), unseal), j, m, Quiet, unseal).reply == Signature(s.keys[i].pub, m)
  {
    SignLeaves(s, i, first, env, unseal);
    var s' := Step(s, Sign(i, first, env), unseal);
    assert s'.keys[j] == s.keys[j] && s'.signer.table[s.keys[j].handle] == s.keys[i].pub;
  }

  lemma LostHandleAsks(s: State, i: nat, env: Env)
    requires i < |s.keys| && s.keys[i].handle !in s.signer.table && s.keys[i].blob.Some? && env.fault1.None?
    ensures AsksToImport(s, i, env)
  {
    InvalidHandleIsStale();
  }

  /** Two keys of a restarted signer, and the handle of the first given to the second with the answer delivered or lost. */
  lemma SecondTakesFirst(s: State, env: Env, first: Message, second: Message, unseal: Unseal)
    requires |s.keys| == 2 && s.signer.table == map[] && s.keys[0].handle == 0
    requires s.keys[1].blob.Some? && unseal(s.keys[1].blob.value) == s.keys[1].pub
    requires env == Quiet || env == Quiet.(unseen := {0}, importFault := true)
    ensures var s' := Step(s, Sign(1, first, env), unseal);
            && |s'.keys| == 2 && s'.keys[0] == s.keys[0] && (env.importFault ==> s'.keys == s.keys)
            && SignWith(s', 0, second, Quiet, unseal).reply == Signature(s.keys[1].pub, second)
  {
    LostHandleAsks(s, 1, env);
    assert 0 in Given(s, 1, env);
    SignLeaves(s, 1, first, env, unseal);
    ReimportSignsAsAnother(s, 1, first, env, 0, second, unseal);
  }

  /** A signer that hands out old handles anew after a restart makes one key sign as another. */
  lemma ReusedHandleSignsAsAnother(unseal: Unseal)
    requires unseal("blob A") == "A" && unseal("blob B") == "B"
    ensures var s := Step(BeforeReuse, Sign(1, "first", Quiet), unseal);
            |s.keys| == 2 && s.keys[0].pub == "A" && SignWith(s, 0, "second", Quiet, unseal).reply == Signature("B", "second")
  {
    SecondTakesFirst(BeforeReuse, Quiet, "first", "second", unseal);
  }

  /** The same when the vault never hears of the handle: the re-import of B takes effect, its answer is lost, and A signs as B. */
  lemma UnseenImportSignsAsAnother(unseal: Unseal)
    requires unseal("blob A") == "A" && unseal("blob B") == "B"
    ensures var lost := Quiet.(unseen := {0}, importFault := true);
            var s := Step(BeforeReuse, Sign(1, "first", lost), unseal);
            s.keys == BeforeReuse.keys && SignWith(s, 0, "second", Quiet, unseal).reply == Signature("B", "second")
  {
    SecondTakesFirst(BeforeReuse, Quiet.(unseen := {0}, importFault := true), "first", "second", unseal);
  }

  /** The same for imports of new keys. */
  lemma ReissueSignsAsAnother(s: State, taken: map<Handle, Pub>, j: nat, m: Message, unseal: Unseal)
    requires j < |s.keys| && s.keys[j].handle in taken && s.keys[j].pub != taken[s.keys[j].handle]
    ensures SignWith(Step(s, Unseen(taken), unseal), j, m, Quiet, unseal).reply == Signature(taken[s.keys[j].handle], m)
  {
  }

  // ----- the vault as an object -----

  class Vault {
    var keys: seq<Key>
    var signer: Signer

    constructor ()
      ensures State(keys, signer) == Init
    {
      keys, signer := [], Signer(map[], map[]);
    }

    /**
     `Import` and one round of `Generate`; `unseen` are the keys the signer took without the vault learning of it. The new
     key is kept even if its blob cannot be stored, and can sign at once. All keys go on signing only as themselves if and
     only if none of the handles given out, seen or unseen, is one that a key of another public key still holds.
     */
    method Import(pub: Pub, handle: Handle, blob: Option<Blob>, unseen: map<Handle, Pub>, rejected: bool, stored: bool, ghost unseal: Unseal)
      returns (ok: bool)
      modifies this
      ensures ok <==> !rejected && stored
      ensures rejected ==> keys == old(keys)
      ensures !rejected ==> keys == old(keys) + [Key(pub, handle, blob)]
      ensures !rejected ==> forall m :: SignWith(State(keys, signer), |old(keys)|, m, Quiet, unseal).reply == Signature(pub, m)
      ensures old(AllSignAsThemselves(State(keys, signer), unseal)) ==>
                (AllSignAsThemselves(State(keys, signer), unseal) <==>
                 if rejected then Unclaimed(old(keys), unseen)
                 else Unclaimed(old(keys), unseen[handle := pub]) && (blob.Some? ==> unseal(blob.value) == pub))
    {
      ghost var s := State(keys, signer);
      signer := Imported(signer, unseen);
      AllSoundIff(s, unseal);
      if rejected {
        AllSoundIff(State(keys, signer), unseal);
        if AllSound(s, unseal) {
          UnseenSoundIff(s, unseen, unseal);
        }
        return false;
      }
      signer := Imported(signer, map[handle := pub]);
      keys := keys + [Key(pub, handle, blob)];
      AllSoundIff(State(keys, signer), unseal);
      if AllSound(s, unseal) {
        ImportSoundIff(s, pub, handle, blob, unseen, unseal);
      }
      ok := stored;
    }

    /** `reimportLocked`: updates the handle in place. */
    method Reimport(i: nat, env: Env, unseal: Unseal) returns (ok: bool)
      requires i < |keys|
      modifies this
      ensures ok <==> old(keys)[i].blob.Some? && !env.importFault
      ensures !ok ==> keys == old(keys)
      ensures ok ==> keys == old(keys)[i := old(keys)[i].(handle := env.handle)]
      ensures signer == if old(keys)[i].blob.None? then old(signer)
                        else
                          var p := unseal(old(keys)[i].blob.value);
                          var g := Imported(MaybeRestarted(old(signer), env.restart1), Under(env.unseen, p));
                          if ok then Imported(g, map[env.handle := p]) else g
    {
      if keys[i].blob.None? {
        return false;
      }
      var p := unseal(keys[i].blob.value);
      signer := Imported(MaybeRestarted(signer, env.restart1), Under(env.unseen, p));
      if env.importFault {
        return false;
      }
      signer := Imported(signer, map[env.handle := p]);
      keys := keys[i := keys[i].(handle := env.handle)];
      ok := true;
    }

    method Sign(i: nat, m: Message, env: Env, unseal: Unseal) returns (reply: Reply)
      requires i < |keys|
      modifies this
      ensures var r := SignWith(old(State(keys, signer)), i, m, env, unseal);
              State(keys, signer) == r.state && reply == r.reply
    {
      reply := SignRpc(signer, keys[i].handle, m, env.fault1);
      if reply.Failed? {
        var stale := IsStaleHandleError(reply.error);
        if stale {
          var ok := Reimport(i, env, unseal);
          if !ok {
            return Failed(Transport);
          }
          signer := MaybeRestarted(signer, env.restart2);
          reply := SignRpc(signer, keys[i].handle, m, env.fault2);
        }
      }
      if reply.Signature? && !env.decodes {
        reply := Failed(Transport);
      }
    }
  }
}
