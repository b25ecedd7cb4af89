/**
BIP32 paths in bytes and in text, as in pkg/vault/ledger/tezosapp/bip32.go, and the key ids
built on them (pkg/vault/ledger/vault.go:270-305, pkg/vault/ledger/tezosapp/tezosapp.go:100-129).
*/
module Bip32 {
  import opened ByteStrings
  import opened Options

  type uint32 = x: int | 0 <= x < 0x1_0000_0000

  type Path = seq<uint32>

  /** The bit that marks hardened derivation. */
  const HARDENED: uint32 := 0x8000_0000

  // ----- bytes -----

  function Components(p: Path): (b: Bytes)
    ensures |b| == 4 * |p|
  {
    if p == [] then [] else Components(p[..|p| - 1]) + BigEndian(p[|p| - 1], 4)
  }

  function PathBytes(p: Path): (b: Bytes) {
    [|p| % 256] + Components(p)
  }

  /** `Bytes`: fills the buffer component by component. */
  method ToBytes(p: Path) returns (data: Bytes)
    ensures data == PathBytes(p)
  {
    var buf := new byte[4 * |p| + 1](_ => 0);
    buf[0] := |p| % 256;
    var k, i := 0, 1;
    while k < |p|
      invariant k <= |p| && i == 4 * k + 1
      invariant buf[..i] == [|p| % 256] + Components(p[..k])
    {
      PutUint32(buf, i, p[k]);
      ComponentsMore(p, k);
      i := i + 4;
      k := k + 1;
    }
    TakeAllPath(p);
    data := buf[..];
  }

  lemma ComponentsMore(p: Path, k: nat)
    requires k < |p|
    ensures Components(p[..k + 1]) == Components(p[..k]) + BigEndian(p[k], 4)
  {
    assert p[..k + 1][..k] == p[..k];
  }

  lemma TakeAllPath(p: Path)
    ensures p[..|p|] == p
  {
  }

  method PutUint32(buf: array<byte>, i: nat, x: uint32)
    requires i + 4 <= buf.Length
    modifies buf
    ensures buf[..i + 4] == old(buf[..i]) + BigEndian(x, 4)
  {
    FourBytes(x);
    buf[i] := x / 0x100_0000;
    buf[i + 1] := x / 0x1_0000 % 256;
    buf[i + 2] := x / 0x100 % 256;
    buf[i + 3] := x % 256;
  }

  function Word32(b: Bytes): (x: uint32)
    requires |b| == 4
  {
    b[0] as int * 0x100_0000 + b[1] as int * 0x1_0000 + b[2] as int * 0x100 + b[3] as int
  }

  function Words(data: Bytes, n: nat): (p: Path)
    requires 1 + 4 * n <= |data|
    ensures |p| == n
  {
    seq(n, i requires 0 <= i < n => Word32(data[1 + 4 * i..5 + 4 * i]))
  }

  function FromBytesSpec(data: Bytes): (r: Option<Path>) {
    if data == [] || |data| < 1 + 4 * (data[0] as int) then None else Some(Words(data, data[0]))
  }

  /** `BIP32FromBytes`: nil on empty or short input. */
  method FromBytes(data: Bytes) returns (r: Option<Path>)
    ensures r == FromBytesSpec(data)
  {
    if |data| == 0 {
      return None;
    }
    var ln := data[0] as int;
    var i := 1;
    var res: Path := [];
    while |res| < ln
      invariant |res| <= ln && i == 1 + 4 * |res| <= |data|
      invariant res == Words(data, |res|)
      decreases ln - |res|
    {
      if i + 4 > |data| {
        return None;
      }
      res := res + [Word32(data[i..i + 4])];
      i := i + 4;
    }
    r := Some(res);
  }

  lemma Word32OfBytes(x: uint32)
    ensures Word32(BigEndian(x, 4)) == x
  {
    FourBytes(x);
    InBase256(x, x / 0x100, x / 0x1_0000, x / 0x100_0000);
  }

  lemma InBase256(x: nat, x1: nat, x2: nat, x3: nat)
    requires x1 == x / 0x100 && x2 == x / 0x1_0000 && x3 == x / 0x100_0000
    ensures x == x3 * 0x100_0000 + x2 % 256 * 0x1_0000 + x1 % 256 * 0x100 + x % 256
  {
    assert x == 256 * x1 + x % 256;
    assert x1 == 256 * x2 + x1 % 256;
    assert x2 == 256 * x3 + x2 % 256;
  }

  lemma {:induction false} ComponentAt(p: Path, i: nat)
    requires i < |p|
    ensures Components(p)[4 * i..4 * i + 4] == BigEndian(p[i], 4)
  {
    var n := |p| - 1;
    if i < n {
      ComponentAt(p[..n], i);
      SliceOfSum(Components(p[..n]), BigEndian(p[n], 4), 4 * i, 4 * i + 4);
    } else {
      SliceOfSum(Components(p[..n]), BigEndian(p[n], 4), 0, 0);
    }
  }

  lemma SliceAfterFirst(x: byte, b: Bytes, i: nat, j: nat)
    requires i <= j <= |b|
    ensures ([x] + b)[1 + i..1 + j] == b[i..j]
  {
  }

  lemma WordsOfPath(p: Path, n: nat)
    requires n <= |p|
    ensures Words(PathBytes(p), n) == p[..n]
  {
    var d := PathBytes(p);
    forall i: nat | i < n
      ensures Words(d, n)[i] == p[i]
    {
      ComponentAt(p, i);
      SliceAfterFirst(d[0], Components(p), 4 * i, 4 * i + 4);
      Word32OfBytes(p[i]);
    }
  }

  lemma CutPathIff(p: Path, n: nat)
    requires n == |p| % 256
    ensures n <= |p| && (p[..n] == p <==> |p| <= 255)
  {
  }

  /** Parsing the bytes of a path gives it back up to its length modulo 256: exactly it if and only if it has at most 255 components. */
  lemma BytesRoundTripIff(p: Path)
    ensures FromBytesSpec(PathBytes(p)) == Some(p[..|p| % 256])
    ensures FromBytesSpec(PathBytes(p)) == Some(p) <==> |p| <= 255
  {
    CutPathIff(p, |p| % 256);
    WordsOfPath(p, |p| % 256);
  }

  // ----- numbers in decimal -----

  function DigitChar(d: nat): char
    requires d < 10
  {
    '0' + d as char
  }

  predicate IsDigit(c: char) {
    '0' <= c <= '9'
  }

  function FormatUint(n: nat): (s: string)
    ensures s != "" && forall i :: 0 <= i < |s| ==> IsDigit(s[i])
  {
    if n < 10 then [DigitChar(n)] else FormatUint(n / 10) + [DigitChar(n % 10)]
  }

  function Value(s: string): (n: nat)
    requires forall i :: 0 <= i < |s| ==> IsDigit(s[i])
  {
    if s == "" then 0
    else
      assert IsDigit(s[|s| - 1]);
      10 * Value(s[..|s| - 1]) + (s[|s| - 1] - '0') as nat
  }

  /** `strconv.ParseUint(s, 10, 32)`: digits only, and in range. */
  function ParseUint(s: string): (r: Option<uint32>) {
    if s == "" || exists i :: 0 <= i < |s| && !IsDigit(s[i]) then None
    else if Value(s) < 0x1_0000_0000 then Some(Value(s)) else None
  }

  lemma {:induction false} ValueOfFormat(n: nat)
    ensures Value(FormatUint(n)) == n
  {
    if n >= 10 {
      ValueOfFormat(n / 10);
      assert FormatUint(n)[..|FormatUint(n)| - 1] == FormatUint(n / 10);
    }
  }

  // ----- text -----

  function ComponentString(x: uint32): (s: string) {
    if x >= HARDENED then FormatUint(x - HARDENED) + "'" else FormatUint(x)
  }

  function PathString(p: Path): (s: string) {
    if p == [] then ""
    else if |p| == 1 then ComponentString(p[0])
    else PathString(p[..|p| - 1]) + "/" + ComponentString(p[|p| - 1])
  }

  lemma {:induction false} PathStringNonEmpty(p: Path)
    ensures PathString(p) == "" <==> p == []
  {
  }

  /** The text with one more component. */
  function Joined(text: string, x: uint32): string {
    (if text == "" then "" else text + "/") + ComponentString(x)
  }

  lemma PathStringMore(p: Path, k: nat)
    requires k < |p|
    ensures PathString(p[..k + 1]) == Joined(PathString(p[..k]), p[k])
  {
    assert p[..k + 1][..k] == p[..k];
    PathStringNonEmpty(p[..k]);
  }

  /** One turn of `String`: a separator before every component but the first, an apostrophe after a hardened one. */
  method WriteComponent(text: string, component: uint32) returns (res: string)
    ensures res == Joined(text, component)
  {
    res := text;
    if |res| != 0 {
      res := res + "/";
    }
    var x, hardened := component, false;
    if x >= HARDENED {
      x := x - HARDENED;
      hardened := true;
    }
    ghost var before := res;
    res := res + FormatUint(x);
    if hardened {
      res := res + "'";
    }
    assert res == before + ComponentString(component);
  }

  method ToString(p: Path) returns (res: string)
    ensures res == PathString(p)
  {
    res := "";
    var k := 0;
    while k < |p|
      invariant k <= |p| && res == PathString(p[..k])
    {
      PathStringMore(p, k);
      res := WriteComponent(res, p[k]);
      k := k + 1;
    }
    assert p[..k] == p;
  }

  /** `strings.Split(s, "/")`. */
  function Split(s: string): (r: seq<string>)
    ensures r != []
  {
    if s == "" then [""]
    else
      var r := Split(s[1..]);
      if s[0] == '/' then [""] + r else [[s[0]] + r[0]] + r[1..]
  }

  /** `ParseBIP32` yields a path or nil; an empty component makes it panic. */
  datatype Parsed = Parsed(path: Path) | Nil | Panic

  function ParseComponent(s: string): (r: Parsed) {
    if s == "" then Panic
    else
      var last := s[|s| - 1];
      var hardened := last == '\'' || last == 'h';
      var v := ParseUint(if hardened then s[..|s| - 1] else s);
      if v.None? then Nil
      else Parsed([if hardened && v.value < HARDENED then v.value + HARDENED else v.value])
  }

  function ParseParts(parts: seq<string>): (r: Parsed) {
    if parts == [] then Parsed([])
    else
      var n := |parts| - 1;
      var r := ParseParts(parts[..n]);
      if !r.Parsed? then r
      else
        var c := ParseComponent(parts[n]);
        if c.Parsed? then Parsed(r.path + c.path) else c
  }

  function ParseSpec(src: string): (r: Parsed) {
    ParseParts(PathParts(src))
  }

  /** The components of the text, without a leading m. */
  function PathParts(src: string): (parts: seq<string>) {
    var parts := Split(src);
    if parts[0] == "m" then parts[1..] else parts
  }

  method ParseBip32(src: string) returns (r: Parsed)
    ensures r == ParseSpec(src)
  {
    var parts := Split(src);
    if parts[0] == "m" {
      parts := parts[1..];
    }
    var res: Path := [];
    var i := 0;
    while i < |parts|
      invariant i <= |parts| && ParseParts(parts[..i]) == Parsed(res)
    {
      var c := ParseComponent(parts[i]);
      ParseMore(parts, i);
      if !c.Parsed? {
        FirstFailure(parts, i + 1);
        return c;
      }
      res := res + c.path;
      i := i + 1;
    }
    assert parts[..i] == parts;
    r := Parsed(res);
  }

  lemma ParseMore(parts: seq<string>, i: nat)
    requires i < |parts| && ParseParts(parts[..i]).Parsed?
    ensures var c := ParseComponent(parts[i]);
            ParseParts(parts[..i + 1]) == if c.Parsed? then Parsed(ParseParts(parts[..i]).path + c.path) else c
  {
    assert parts[..i + 1][..i] == parts[..i];
  }

  /** The first component that fails decides the outcome. */
  lemma {:induction false} FirstFailure(parts: seq<string>, i: nat)
    requires i <= |parts| && !ParseParts(parts[..i]).Parsed?
    ensures ParseParts(parts) == ParseParts(parts[..i])
    decreases |parts|
  {
    var n := |parts| - 1;
    if i == |parts| {
      assert parts[..i] == parts;
    } else {
      assert parts[..n][..i] == parts[..i];
      FirstFailure(parts[..n], i);
    }
  }

  predicate IsNumber(d: string) {
    d != "" && (forall i :: 0 <= i < |d| ==> IsDigit(d[i])) && Value(d) < 0x1_0000_0000
  }

  /** A number below 2^32, perhaps followed by an apostrophe or an h. */
  predicate WellFormed(c: string) {
    IsNumber(c) || (c != "" && c[|c| - 1] in "'h" && IsNumber(c[..|c| - 1]))
  }

  lemma WellFormedIff(c: string)
    ensures ParseComponent(c).Parsed? <==> WellFormed(c)
    ensures ParseComponent(c) == Panic <==> c == ""
  {
    assert c != "" && IsNumber(c) ==> IsDigit(c[|c| - 1]);
  }

  predicate AllWellFormed(parts: seq<string>) {
    forall i :: 0 <= i < |parts| ==> WellFormed(parts[i])
  }

  /** Some component is empty and all before it are well formed. */
  predicate HasGap(parts: seq<string>) {
    exists i :: 0 <= i < |parts| && parts[i] == "" && AllWellFormed(parts[..i])
  }

  lemma {:induction false} PartsOutcome(parts: seq<string>)
    ensures ParseParts(parts).Parsed? <==> AllWellFormed(parts)
    ensures ParseParts(parts) == Panic <==> HasGap(parts)
  {
    if parts != [] {
      var n := |parts| - 1;
      PartsOutcome(parts[..n]);
      WellFormedIff(parts[n]);
      GapMore(parts);
    }
  }

  lemma GapMore(parts: seq<string>)
    requires parts != []
    ensures var n := |parts| - 1;
            && (AllWellFormed(parts) <==> AllWellFormed(parts[..n]) && WellFormed(parts[n]))
            && (HasGap(parts) <==> HasGap(parts[..n]) || (parts[n] == "" && AllWellFormed(parts[..n])))
  {
    var n := |parts| - 1;
    forall i | 0 <= i < n
      ensures parts[..n][..i] == parts[..i] && parts[..n][i] == parts[i]
    {
    }
  }

  /**
   What becomes of a text: a path if and only if all components are well formed, a panic if and only if the first that is
   not is empty, and nil otherwise.
   */
  lemma PanicsIff(src: string)
    ensures ParseSpec(src).Parsed? <==> AllWellFormed(PathParts(src))
    ensures ParseSpec(src) == Panic <==> HasGap(PathParts(src))
  {
    PartsOutcome(PathParts(src));
  }

  /** A trailing h means the same as a trailing apostrophe, and a leading m/ is dropped once. */
  lemma OtherSpellings(d: string, s: string)
    ensures ParseComponent(d + "h") == ParseComponent(d + "'")
    ensures Split(s)[0] != "m" ==> ParseSpec("m/" + s) == ParseSpec(s)
  {
    assert (d + "h")[..|d|] == d && (d + "'")[..|d|] == d;
    var t := "m/" + s;
    assert t[1..] == "/" + s && t[1..][1..] == s;
    assert Split(t[1..]) == [""] + Split(s);
    assert Split(t) == [['m'] + ""] + Split(s);
    assert Split(t)[1..] == Split(s);
  }

  /** A number stands for itself; a mark sets the highest bit. */
  lemma ComponentValue(d: string)
    requires IsNumber(d)
    ensures ParseComponent(d) == Parsed([Value(d)])
    ensures var v: uint32 := if Value(d) < 0x8000_0000 then Value(d) + 0x8000_0000 else Value(d);
            ParseComponent(d + "'") == Parsed([v]) && ParseComponent(d + "h") == Parsed([v])
  {
    assert IsDigit(d[|d| - 1]);
    MarkedValue(d, '\'');
    MarkedValue(d, 'h');
  }

  lemma MarkedValue(d: string, mark: char)
    requires IsNumber(d) && mark in "'h"
    ensures ParseComponent(d + [mark]) == Parsed([if Value(d) < 0x8000_0000 then Value(d) + 0x8000_0000 else Value(d)])
  {
    var s := d + [mark];
    assert s[|s| - 1] == mark && s[..|s| - 1] == d;
  }

  lemma DecimalExample()
    ensures FormatUint(1729) == "1729"
  {
    assert FormatUint(17) == "17" && FormatUint(172) == "172";
  }

  // ----- text round trip -----

  predicate NoSlash(s: string) {
    forall i :: 0 <= i < |s| ==> s[i] != '/'
  }

  lemma {:induction false} SplitPlain(s: string)
    requires NoSlash(s)
    ensures Split(s) == [s]
  {
    if s != "" {
      SplitPlain(s[1..]);
      assert s == [s[0]] + s[1..];
    }
  }

  lemma {:induction false} SplitAtLast(a: string, b: string)
    requires NoSlash(b)
    ensures Split(a + "/" + b) == Split(a) + [b]
  {
    var s := a + "/" + b;
    if a == "" {
      assert s[1..] == b;
      SplitPlain(b);
    } else {
      assert s[1..] == a[1..] + "/" + b;
      SplitAtLast(a[1..], b);
    }
  }

  lemma NumberRoundTrip(y: uint32)
    ensures ParseUint(FormatUint(y)) == Some(y)
  {
    ValueOfFormat(y);
  }

  /** A string of digits ends in a digit, has no slash and is not "m". */
  lemma DigitString(y: nat)
    ensures var d := FormatUint(y); NoSlash(d) && IsDigit(d[0]) && IsDigit(d[|d| - 1])
  {
  }

  lemma HardenedRoundTrip(d: string, y: uint32)
    requires d != "" && ParseUint(d) == Some(y) && y < HARDENED
    ensures ParseComponent(d + "'") == Parsed([y + HARDENED])
  {
  }

  lemma ComponentRoundTrip(x: uint32)
    ensures ParseComponent(ComponentString(x)) == Parsed([x])
    ensures NoSlash(ComponentString(x)) && ComponentString(x) != "m"
  {
    var y := if x >= HARDENED then x - HARDENED else x;
    NumberRoundTrip(y);
    DigitString(y);
    if x >= HARDENED {
      HardenedRoundTrip(FormatUint(y), y);
    }
  }

  function ComponentStrings(p: Path): (r: seq<string>) {
    seq(|p|, i requires 0 <= i < |p| => ComponentString(p[i]))
  }

  lemma LastComponentString(p: Path)
    requires p != []
    ensures var n := |p| - 1; ComponentStrings(p) == ComponentStrings(p[..n]) + [ComponentString(p[n])]
  {
  }

  lemma {:induction false} SplitPathString(p: Path)
    requires p != []
    ensures Split(PathString(p)) == ComponentStrings(p)
  {
    var n := |p| - 1;
    ComponentRoundTrip(p[n]);
    LastComponentString(p);
    if n == 0 {
      SplitPlain(PathString(p));
    } else {
      SplitPathString(p[..n]);
      SplitAtLast(PathString(p[..n]), ComponentString(p[n]));
    }
  }

  lemma LastOfPath(p: Path)
    requires p != []
    ensures p == p[..|p| - 1] + [p[|p| - 1]]
  {
  }

  lemma {:induction false} ParseComponents(p: Path, parts: seq<string>)
    requires |parts| == |p| && forall i :: 0 <= i < |p| ==> parts[i] == ComponentString(p[i])
    ensures ParseParts(parts) == Parsed(p)
  {
    if p != [] {
      var n := |p| - 1;
      ParseComponents(p[..n], parts[..n]);
      ComponentRoundTrip(p[n]);
      ParseMore(parts, n);
      assert parts[..n + 1] == parts;
      LastOfPath(p);
    }
  }

  /** Parsing the text of a path gives the path back if and only if it is not empty; the text of the empty path panics. */
  lemma TextRoundTripIff(p: Path)
    ensures ParseSpec(PathString(p)) == Parsed(p) <==> p != []
    ensures p == [] ==> ParseSpec(PathString(p)) == Panic
  {
    if p == [] {
      assert [""][..0] == [];
      assert ParseParts([""]) == Panic;
    } else {
      SplitPathString(p);
      ComponentRoundTrip(p[0]);
      ParseComponents(p, Split(PathString(p)));
    }
  }

  // ----- key ids -----

  datatype Derivation = Ed25519 | Secp256k1 | Secp256r1 | Bip32Ed25519

  function DerivationName(d: Derivation): string {
    match d
    case Ed25519 => "ed25519"
    case Secp256k1 => "secp256k1"
    case Secp256r1 => "P-256"
    case Bip32Ed25519 => "bip32-ed25519"
  }

  /** Unicode lower case, as far as it can produce the letters compared with: ASCII, the Kelvin sign and the dotted capital I. */
  function Lower(c: char): char {
    if 'A' <= c <= 'Z' then c + 32 as char
    else if c == '\U{212A}' then 'k'
    else if c == '\U{130}' then 'i'
    else c
  }

  function ToLower(s: string): (r: string)
    ensures |r| == |s|
  {
    seq(|s|, i requires 0 <= i < |s| => Lower(s[i]))
  }

  function DerivationFromString(s: string): (r: Option<Derivation>) {
    var l := ToLower(s);
    if l == "ed25519" then Some(Ed25519)
    else if l == "secp256k1" then Some(Secp256k1)
    else if l == "p-256" || l == "secp256r1" then Some(Secp256r1)
    else if l == "bip25519" || l == "bip32-ed25519" then Some(Bip32Ed25519)
    else None
  }

  lemma DerivationRoundTrip(d: Derivation)
    ensures DerivationFromString(DerivationName(d)) == Some(d) && NoSlash(DerivationName(d))
  {
  }

  datatype KeyId = KeyId(dt: Derivation, path: Path)

  datatype KeyResult = Key(id: KeyId) | BadKey | KeyPanic

  const ROOT: Path := [44 + HARDENED, 1729 + HARDENED]

  function KeyString(k: KeyId): (s: string) {
    DerivationName(k.dt) + "/" + PathString(k.path)
  }

  /** `strings.SplitN(s, "/", 2)`: what is before and after the first separator, if there is one. */
  function Cut(s: string): (r: Option<(string, string)>) {
    if s == "" then None
    else if s[0] == '/' then Some(("", s[1..]))
    else
      var r := Cut(s[1..]);
      if r.None? then None else Some(([s[0]] + r.value.0, r.value.1))
  }

  predicate AllHardened(p: Path) {
    forall i :: 0 <= i < |p| ==> p[i] >= HARDENED
  }

  function WithRoot(p: Path): (r: Path) {
    if ROOT <= p then p else ROOT + p
  }

  function KeySpec(s: string): (r: KeyResult) {
    var c := Cut(s);
    if c.None? then BadKey
    else
      var dt := DerivationFromString(c.value.0);
      if dt.None? then BadKey
      else
        match ParseSpec(c.value.1)
        case Panic => KeyPanic
        case Nil => BadKey
        case Parsed(p) =>
          if !AllHardened(p) || |WithRoot(p)| == 2 then BadKey else Key(KeyId(dt.value, WithRoot(p)))
  }

  method IsHardened(path: Path) returns (hardened: bool)
    ensures hardened == AllHardened(path)
  {
    var i := 0;
    while i < |path|
      invariant i <= |path| && forall k :: 0 <= k < i ==> path[k] >= HARDENED
    {
      if path[i] < HARDENED {
        return false;
      }
      i := i + 1;
    }
    hardened := true;
  }

  lemma BelowRootIff(path: Path)
    ensures ROOT <= path <==> |path| >= 2 && path[0] == ROOT[0] && path[1] == ROOT[1]
  {
  }

  /** `parseKeyID`. */
  method ParseKeyId(s: string) returns (r: KeyResult)
    ensures r == KeySpec(s)
  {
    var c := Cut(s);
    if c.None? {
      return BadKey;
    }
    var dt := DerivationFromString(c.value.0);
    if dt.None? {
      return BadKey;
    }
    var parsed := ParseBip32(c.value.1);
    if parsed.Panic? {
      return KeyPanic;
    }
    if parsed.Nil? {
      return BadKey;
    }
    var path := parsed.path;
    var hardened := IsHardened(path);
    if !hardened {
      return BadKey;
    }
    BelowRootIff(path);
    if |path| < 2 || path[0] != ROOT[0] || path[1] != ROOT[1] {
      path := ROOT + path;
    }
    if |path| == 2 {
      return BadKey;
    }
    r := Key(KeyId(dt.value, path));
  }

  lemma {:induction false} CutAtFirst(a: string, b: string)
    requires NoSlash(a)
    ensures Cut(a + "/" + b) == Some((a, b))
  {
    var s := a + "/" + b;
    if a == "" {
      assert s[1..] == b;
    } else {
      assert s[1..] == a[1..] + "/" + b;
      CutAtFirst(a[1..], b);
      assert a == [a[0]] + a[1..];
    }
  }

  lemma {:induction false} CutParts(s: string)
    ensures Cut(s).Some? ==> s == Cut(s).value.0 + "/" + Cut(s).value.1 && NoSlash(Cut(s).value.0)
  {
    if s != "" && s[0] != '/' {
      CutParts(s[1..]);
      assert s == [s[0]] + s[1..];
    }
  }

  /** A key id makes the process panic if and only if a known derivation type is followed by a path with a gap. */
  lemma KeyPanicsIff(s: string)
    ensures KeySpec(s) == KeyPanic <==>
            exists name, path :: s == name + "/" + path && NoSlash(name) && DerivationFromString(name).Some? && HasGap(PathParts(path))
  {
    CutParts(s);
    if Cut(s).Some? {
      PanicsIff(Cut(s).value.1);
    }
    if exists name, path :: s == name + "/" + path && NoSlash(name) && DerivationFromString(name).Some? && HasGap(PathParts(path)) {
      var name, path :| s == name + "/" + path && NoSlash(name) && DerivationFromString(name).Some? && HasGap(PathParts(path));
      CutAtFirst(name, path);
      PanicsIff(path);
    }
  }

  /** In particular a derivation type and a slash do. */
  lemma BareKeyPanics(d: Derivation)
    ensures KeySpec(DerivationName(d) + "/") == KeyPanic
  {
    DerivationRoundTrip(d);
    CutAtFirst(DerivationName(d), "");
    assert DerivationName(d) + "/" + "" == DerivationName(d) + "/";
    TextRoundTripIff([]);
  }

  /** The names under which derivation types are read, in any mixture of cases. */
  lemma DerivationSpellings(s: string, t: string)
    ensures DerivationFromString("ed25519") == Some(Ed25519) && DerivationFromString("secp256k1") == Some(Secp256k1)
    ensures DerivationFromString("p-256") == Some(Secp256r1) && DerivationFromString("secp256r1") == Some(Secp256r1)
    ensures DerivationFromString("SECP256\U{212A}1") == Some(Secp256k1) && DerivationFromString("B\U{130}P25519") == Some(Bip32Ed25519)
    ensures DerivationFromString("bip25519") == Some(Bip32Ed25519) && DerivationFromString("bip32-ed25519") == Some(Bip32Ed25519)
    ensures ToLower(s) == ToLower(t) ==> DerivationFromString(s) == DerivationFromString(t)
    ensures DerivationFromString(s).Some? ==> ToLower(s) in {"ed25519", "secp256k1", "p-256", "secp256r1", "bip25519", "bip32-ed25519"}
  {
    LowerNames();
    OddNames();
  }

  /** The Kelvin sign and the dotted capital I fold to ASCII letters. */
  lemma OddNames()
    ensures ToLower("SECP256\U{212A}1") == "secp256k1" && ToLower("B\U{130}P25519") == "bip25519"
  {
  }

  lemma LowerNames()
    ensures ToLower("ed25519") == "ed25519" && ToLower("secp256k1") == "secp256k1" && ToLower("p-256") == "p-256"
    ensures ToLower("secp256r1") == "secp256r1" && ToLower("bip25519") == "bip25519" && ToLower("bip32-ed25519") == "bip32-ed25519"
  {
  }

  /** 44'/1729' with both components hardened. */
  const TEZOS_ROOT: Path := [0x8000_002C, 0x8000_06C1]

  lemma RootIs()
    ensures ROOT == TEZOS_ROOT
  {
  }

  lemma KeyOfPath(name: string, text: string, d: Derivation, p: Path)
    requires NoSlash(name) && DerivationFromString(name) == Some(d) && ParseSpec(text) == Parsed(p)
    ensures KeySpec(name + "/" + text) ==
            if !AllHardened(p) || |WithRoot(p)| == 2 then BadKey else Key(KeyId(d, WithRoot(p)))
  {
    CutAtFirst(name, text);
  }

  lemma WithRootIs(p: Path)
    ensures WithRoot(p) == if TEZOS_ROOT <= p then p else TEZOS_ROOT + p
    ensures |WithRoot(p)| == 2 <==> p == TEZOS_ROOT || p == []
  {
    RootIs();
  }

  /**
   The key id of a derivation type and the text of a path: refused if a component is not hardened or the path is 44'/1729'
   itself; otherwise the path, put below 44'/1729' unless it is there already.
   */
  lemma KeyOfText(d: Derivation, p: Path)
    requires p != []
    ensures KeySpec(DerivationName(d) + "/" + PathString(p)) ==
            if (exists i :: 0 <= i < |p| && p[i] < 0x8000_0000) || p == TEZOS_ROOT then BadKey
            else Key(KeyId(d, if TEZOS_ROOT <= p then p else TEZOS_ROOT + p))
  {
    DerivationRoundTrip(d);
    TextRoundTripIff(p);
    KeyOfPath(DerivationName(d), PathString(p), d, p);
    WithRootIs(p);
    HardenedIff(p);
  }

  lemma HardenedIff(p: Path)
    ensures AllHardened(p) <==> !exists i :: 0 <= i < |p| && p[i] < 0x8000_0000
  {
  }

  /** An accepted key id is a hardened path strictly below 44'/1729'. */
  lemma KeyIdIsBelowRoot(s: string)
    requires KeySpec(s).Key?
    ensures var p := KeySpec(s).id.path; ROOT < p && AllHardened(p)
  {
    WithRootIsBelow(ParseSpec(Cut(s).value.1).path);
  }

  lemma WithRootIsBelow(p: Path)
    requires AllHardened(p) && |WithRoot(p)| != 2
    ensures ROOT < WithRoot(p) && AllHardened(WithRoot(p))
  {
  }

  lemma PrintedKeyParses(k: KeyId)
    requires ROOT < k.path && AllHardened(k.path)
    ensures KeySpec(KeyString(k)) == Key(k)
  {
    DerivationRoundTrip(k.dt);
    CutAtFirst(DerivationName(k.dt), PathString(k.path));
    TextRoundTripIff(k.path);
  }

  /** The printed form of every accepted key id is accepted again, as the same key id. */
  lemma KeyIdIsCanonical(s: string)
    requires KeySpec(s).Key?
    ensures KeySpec(KeyString(KeySpec(s).id)) == KeySpec(s)
  {
    KeyIdIsBelowRoot(s);
    PrintedKeyParses(KeySpec(s).id);
  }
}
