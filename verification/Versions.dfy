/**
 The versions file of the contract wrappers (core/gethwrappers/versions.go) as text: what `WriteVersionsDB`
 writes and what `ReadVersionsDB` makes of a file.
 */
module Versions {
  import opened SetFacts
  import opened Strings

  datatype ContractVersion = ContractVersion(hash: string, abiPath: string, binaryPath: string)

  datatype IntegratedVersion = IntegratedVersion(gethVersion: string, contractVersions: map<string, ContractVersion>)

  /** A blank line is an index out of range; the others are returned errors. */
  datatype ReadError = BlankLine | NoColon | BadGethLine | SecondGethVersion | BadLine | DuplicateTopic

  datatype ReadResult = Read(db: IntegratedVersion) | Failed(error: ReadError)

  const EMPTY := IntegratedVersion("", map[])

  const GETH_VERSION := "GETH_VERSION"

  // The library functions

  /** `unicode.IsSpace`. */
  predicate IsSpace(c: char) {
    var n := c as int;
    || 9 <= n <= 13 || n in {0x20, 0x85, 0xA0, 0x1680, 0x2028, 0x2029, 0x202F, 0x205F, 0x3000} || 0x2000 <= n <= 0x200A
  }

  predicate NoSpace(s: string) {
    forall i :: 0 <= i < |s| ==> !IsSpace(s[i])
  }

  function TokenLength(s: string): (n: nat)
    ensures n <= |s| && NoSpace(s[..n]) && (n == |s| || IsSpace(s[n]))
  {
    if s == "" || IsSpace(s[0]) then 0 else 1 + TokenLength(s[1..])
  }

  /** `strings.Fields`. */
  function Fields(s: string): (fields: seq<string>)
    ensures forall i :: 0 <= i < |fields| ==> fields[i] != "" && NoSpace(fields[i])
  {
    if s == "" then []
    else if IsSpace(s[0]) then Fields(s[1..])
    else [s[..TokenLength(s)]] + Fields(s[TokenLength(s)..])
  }

  function IndexOf(s: string, c: char): (i: nat)
    requires c in s
    ensures i < |s| && s[i] == c && c !in s[..i]
  {
    if s[0] == c then 0 else 1 + IndexOf(s[1..], c)
  }

  /** A line of `bufio.Scanner` goes without its carriage return. */
  function Chomp(line: string): string {
    if line != "" && line[|line| - 1] == '\r' then line[..|line| - 1] else line
  }

  function Lines(text: string): seq<string> {
    if text == "" then []
    else if '\n' !in text then [Chomp(text)]
    else [Chomp(text[..IndexOf(text, '\n')])] + Lines(text[IndexOf(text, '\n') + 1..])
  }

  // Writing

  function GethLine(version: string): string {
    GETH_VERSION + ": " + version
  }

  function VersionLine(name: string, v: ContractVersion): string {
    name + ": " + v.abiPath + " " + v.binaryPath + " " + v.hash
  }

  function Body(db: IntegratedVersion, names: seq<string>): string
    requires forall n :: n in names ==> n in db.contractVersions
  {
    if names == [] then "" else VersionLine(names[0], db.contractVersions[names[0]]) + "\n" + Body(db, names[1..])
  }

  /** Every package once. */
  ghost predicate IsListing(db: IntegratedVersion, names: seq<string>) {
    && (forall n :: n in names <==> n in db.contractVersions)
    && (forall i, j :: 0 <= i < j < |names| ==> names[i] != names[j])
  }

  function Text(db: IntegratedVersion, names: seq<string>): string
    requires forall n :: n in names ==> n in db.contractVersions
  {
    GethLine(db.gethVersion) + "\n" + Body(db, names)
  }

  function Itself(s: string): string {
    s
  }

  method Names(db: IntegratedVersion) returns (names: seq<string>)
    ensures IsListing(db, names)
  {
    names := [];
    var rest := db.contractVersions.Keys;
    while rest != {}
      invariant rest <= db.contractVersions.Keys
      invariant forall n :: n in names <==> n in db.contractVersions && n !in rest
      invariant forall i, j :: 0 <= i < j < |names| ==> names[i] != names[j]
      decreases rest
    {
      var n := PickAny(rest);
      rest := rest - {n};
      names := names + [n];
    }
  }

  lemma {:induction false} OccursOnce(names: seq<string>, n: string)
    requires forall i, j :: 0 <= i < j < |names| ==> names[i] != names[j]
    ensures multiset(names)[n] <= 1
  {
    if names != [] {
      var last := |names| - 1;
      assert names == names[..last] + [names[last]];
      OccursOnce(names[..last], n);
      if names[last] == n {
        assert n !in names[..last];
        assert multiset(names[..last])[n] == 0;
      }
    }
  }

  lemma SortedIsListing(db: IntegratedVersion, names: seq<string>, sorted: seq<string>)
    requires IsListing(db, names) && multiset(sorted) == multiset(names)
    ensures IsListing(db, sorted)
  {
    assert forall n :: n in sorted <==> n in multiset(names);
    forall i, j | 0 <= i < j < |sorted| ensures sorted[i] != sorted[j] {
      OccursOnce(names, sorted[i]);
      assert sorted == sorted[..j] + sorted[j..];
      assert sorted[..j][i] in multiset(sorted[..j]) && sorted[j..][0] in multiset(sorted[j..]);
    }
  }

  lemma BodyFirst(db: IntegratedVersion, names: seq<string>, i: nat)
    requires i < |names| && forall n :: n in names ==> n in db.contractVersions
    ensures Body(db, names[i..]) == VersionLine(names[i], db.contractVersions[names[i]]) + "\n"
        + Body(db, names[i + 1..])
  {
    assert names[i..][1..] == names[i + 1..];
  }

  lemma WritesLine(db: IntegratedVersion, names: seq<string>, i: nat, text: string)
    requires i < |names| && forall n :: n in names ==> n in db.contractVersions
    ensures text + (VersionLine(names[i], db.contractVersions[names[i]]) + "\n") + Body(db, names[i + 1..]) ==
        text + Body(db, names[i..])
  {
    BodyFirst(db, names, i);
    AppendAssociates(text, VersionLine(names[i], db.contractVersions[names[i]]) + "\n", Body(db, names[i + 1..]));
  }

  lemma AppendAssociates(a: string, b: string, c: string)
    ensures a + b + c == a + (b + c)
  {
  }

  /** The geth version first, then the packages in the order of their names. */
  method WriteVersionsDB(db: IntegratedVersion) returns (text: string)
    ensures exists names :: IsListing(db, names) && SortedByName(names, Itself) && text == Text(db, names)
  {
    var names := Names(db);
    var pkgNames := SortByName(names, Itself);
    SortedIsListing(db, names, pkgNames);
    text := WriteLines(db, pkgNames);
  }

  /** There is only one such order, so the file is a function of the record whatever order the map is walked in. */
  lemma {:induction false} OneListing(a: seq<string>, b: seq<string>)
    requires SortedByName(a, Itself) && SortedByName(b, Itself)
    requires forall i, j :: 0 <= i < j < |a| ==> a[i] != a[j]
    requires forall i, j :: 0 <= i < j < |b| ==> b[i] != b[j]
    requires forall n :: n in a <==> n in b
    ensures a == b
  {
    if b != [] {
      assert b[0] in b && b[0] in a;
    }
    if a != [] {
      assert a[0] in a && a[0] in b && b[0] in b && b[0] in a;
      LowestFirst(a, b[0]);
      LowestFirst(b, a[0]);
      LeqAntisymmetric(a[0], b[0]);
      assert a == [a[0]] + a[1..] && b == [b[0]] + b[1..];
      forall n ensures n in a[1..] <==> n in b[1..] {
        assert n in a <==> n == a[0] || n in a[1..];
        assert n in b <==> n == b[0] || n in b[1..];
      }
      OneListing(a[1..], b[1..]);
    }
  }

  lemma LowestFirst(s: seq<string>, n: string)
    requires SortedByName(s, Itself) && n in s
    ensures Leq(s[0], n)
  {
    var i :| 0 <= i < |s| && s[i] == n;
    if i == 0 {
      LeqTotal(n, n);
    } else {
      assert Leq(Itself(s[0]), Itself(s[i]));
    }
  }

  method WriteLines(db: IntegratedVersion, pkgNames: seq<string>) returns (text: string)
    requires forall n :: n in pkgNames ==> n in db.contractVersions
    ensures text == Text(db, pkgNames)
  {
    text := GethLine(db.gethVersion) + "\n";
    for i := 0 to |pkgNames|
      invariant text + Body(db, pkgNames[i..]) == Text(db, pkgNames)
    {
      WritesLine(db, pkgNames, i, text);
      text := text + (VersionLine(pkgNames[i], db.contractVersions[pkgNames[i]]) + "\n");
    }
    assert text + "" == text;
  }

  // Reading

  /** What one line does to what was read before it. */
  function Apply(rv: IntegratedVersion, text: string): ReadResult {
    var line := Fields(text);
    if line == [] then Failed(BlankLine)
    else if line[0][|line[0]| - 1] != ':' then Failed(NoColon)
    else
      var topic := line[0][..|line[0]| - 1];
      if topic == GETH_VERSION then
        if |line| != 2 then Failed(BadGethLine)
        else if rv.gethVersion != "" then Failed(SecondGethVersion)
        else Read(rv.(gethVersion := line[1]))
      else if |line| != 4 then Failed(BadLine)
      else if topic in rv.contractVersions then Failed(DuplicateTopic)
      else Read(rv.(contractVersions := rv.contractVersions[topic := ContractVersion(line[3], line[1], line[2])]))
  }

  function Parse(rv: IntegratedVersion, lines: seq<string>): ReadResult
    decreases |lines|
  {
    if lines == [] then Read(rv)
    else
      var r := Apply(rv, lines[0]);
      if r.Failed? then r else Parse(r.db, lines[1..])
  }

  method ReadVersionsDB(text: string) returns (r: ReadResult)
    ensures r == Parse(EMPTY, Lines(text))
  {
    var rv := EMPTY;
    var lines := Lines(text);
    for i := 0 to |lines|
      invariant Parse(rv, lines[i..]) == Parse(EMPTY, lines)
    {
      assert lines[i..][1..] == lines[i + 1..];
      var line := Fields(lines[i]);
      if |line| == 0 {
        return Failed(BlankLine);
      }
      if line[0][|line[0]| - 1] != ':' {
        return Failed(NoColon);
      }
      var topic := line[0][..|line[0]| - 1];
      if topic == GETH_VERSION {
        if |line| != 2 {
          return Failed(BadGethLine);
        }
        if rv.gethVersion != "" {
          return Failed(SecondGethVersion);
        }
        rv := rv.(gethVersion := line[1]);
      } else {
        if |line| != 4 {
          return Failed(BadLine);
        }
        if topic in rv.contractVersions {
          return Failed(DuplicateTopic);
        }
        rv := rv.(contractVersions := rv.contractVersions[topic := ContractVersion(line[3], line[1], line[2])]);
      }
    }
    r := Read(rv);
  }

  // The round trip

  lemma {:induction false} TokenLengthOf(token: string, rest: string)
    requires NoSpace(token) && (rest == "" || IsSpace(rest[0]))
    ensures TokenLength(token + rest) == |token|
  {
    if token == "" {
      assert token + rest == rest;
    } else {
      assert (token + rest)[1..] == token[1..] + rest;
      TokenLengthOf(token[1..], rest);
    }
  }

  lemma FirstField(token: string, rest: string)
    requires NoSpace(token) && token != ""
    ensures Fields(token + " " + rest) == [token] + Fields(rest)
    ensures Fields(token) == [token]
  {
    TokenLengthOf(token, " " + rest);
    assert token + " " + rest == token + (" " + rest);
    assert (token + (" " + rest))[|token|..] == " " + rest;
    assert (token + (" " + rest))[..|token|] == token;
    assert (" " + rest)[1..] == rest;
    TokenLengthOf(token, "");
    assert token + "" == token && token[..|token|] == token && token[|token|..] == "";
  }

  lemma NoNewline(s: string)
    requires NoSpace(s)
    ensures '\n' !in s && '\r' !in s
  {
  }

  lemma FirstLine(line: string, rest: string)
    requires '\n' !in line
    ensures Lines(line + "\n" + rest) == [Chomp(line)] + Lines(rest)
  {
    var text := line + "\n" + rest;
    assert text[..|line|] == line;
    IndexIs(text, '\n', |line|);
    assert text[|line| + 1..] == rest;
  }

  lemma {:induction false} IndexIs(s: string, c: char, i: nat)
    requires i < |s| && s[i] == c && c !in s[..i]
    ensures IndexOf(s, c) == i
  {
    if i > 0 {
      assert s[0] == s[..i][0];
      assert s[1..][..i - 1] == s[..i][1..];
      IndexIs(s[1..], c, i - 1);
    }
  }

  /** What a caller can check before writing: no white space anywhere, and the fields are there. */
  ghost predicate Writable(db: IntegratedVersion) {
    && NoSpace(db.gethVersion) && db.gethVersion != ""
    && (forall n :: n in db.contractVersions ==>
         n != GETH_VERSION && NoSpace(n) && WritableVersion(db.contractVersions[n]))
  }

  predicate WritableVersion(v: ContractVersion) {
    NoSpace(v.abiPath) && NoSpace(v.binaryPath) && NoSpace(v.hash) && v.abiPath != "" && v.binaryPath != ""
        && v.hash != ""
  }

  lemma ReadsGethLine(version: string, rest: string)
    requires NoSpace(version)
    ensures Lines(GethLine(version) + "\n" + rest) == [GethLine(version)] + Lines(rest)
    ensures Fields(GethLine(version)) == if version == "" then [GETH_VERSION + ":"] else [GETH_VERSION + ":", version]
  {
    var line, topic := GethLine(version), GETH_VERSION + ":";
    NoNewline(version);
    assert line == topic + " " + version;
    FirstLine(line, rest);
    FirstField(topic, version);
    if version != "" {
      FirstField(version, "");
    }
  }

  lemma FourFields(first: string, second: string, third: string, fourth: string)
    requires NoSpace(first) && NoSpace(second) && NoSpace(third) && NoSpace(fourth)
    requires first != "" && second != "" && third != "" && fourth != ""
    ensures Fields(first + " " + (second + " " + (third + " " + fourth))) == [first, second, third, fourth]
  {
    FirstField(first, second + " " + (third + " " + fourth));
    FirstField(second, third + " " + fourth);
    FirstField(third, fourth);
    FirstField(fourth, "");
  }

  lemma VersionLineShape(name: string, v: ContractVersion)
    ensures VersionLine(name, v) == name + ":" + " " + (v.abiPath + " " + (v.binaryPath + " " + v.hash))
  {
    assert ": " == ":" + " ";
  }

  lemma NoNewlineInLine(name: string, v: ContractVersion)
    requires NoSpace(name) && WritableVersion(v)
    ensures '\n' !in VersionLine(name, v) && Chomp(VersionLine(name, v)) == VersionLine(name, v)
  {
    NoNewline(name);
    NoNewline(v.abiPath);
    NoNewline(v.binaryPath);
    NoNewline(v.hash);
    var line := VersionLine(name, v);
    assert line[|line| - 1] == v.hash[|v.hash| - 1];
  }

  lemma ReadsVersionLine(name: string, v: ContractVersion, rest: string)
    requires NoSpace(name) && WritableVersion(v)
    ensures Lines(VersionLine(name, v) + "\n" + rest) == [VersionLine(name, v)] + Lines(rest)
    ensures Fields(VersionLine(name, v)) == [name + ":", v.abiPath, v.binaryPath, v.hash]
  {
    NoNewlineInLine(name, v);
    FirstLine(VersionLine(name, v), rest);
    VersionLineShape(name, v);
    FourFields(name + ":", v.abiPath, v.binaryPath, v.hash);
  }

  lemma AppliesVersionLine(rv: IntegratedVersion, name: string, v: ContractVersion)
    requires NoSpace(name) && WritableVersion(v) && name != GETH_VERSION && name !in rv.contractVersions
    ensures Apply(rv, VersionLine(name, v)) == Read(rv.(contractVersions := rv.contractVersions[name := v]))
  {
    ReadsVersionLine(name, v, "");
    assert (name + ":")[..|name + ":"| - 1] == name;
  }

  function AddAll(rv: IntegratedVersion, db: IntegratedVersion, names: seq<string>): IntegratedVersion
    requires forall n :: n in names ==> n in db.contractVersions
    decreases |names|
  {
    if names == [] then rv
    else AddAll(rv.(contractVersions := rv.contractVersions[names[0] := db.contractVersions[names[0]]]), db, names[1..])
  }

  lemma {:induction false} BodyIsReadBack(db: IntegratedVersion, rv: IntegratedVersion, names: seq<string>)
    requires Writable(db) && forall n :: n in names ==> n in db.contractVersions && n !in rv.contractVersions
    requires forall i, j :: 0 <= i < j < |names| ==> names[i] != names[j]
    ensures Parse(rv, Lines(Body(db, names))) == Read(AddAll(rv, db, names))
    decreases |names|
  {
    if names != [] {
      var name, rest := names[0], names[1..];
      var v := db.contractVersions[name];
      ReadsVersionLine(name, v, Body(db, rest));
      AppliesVersionLine(rv, name, v);
      ParseFirst(rv, VersionLine(name, v), Lines(Body(db, rest)));
      BodyIsReadBack(db, rv.(contractVersions := rv.contractVersions[name := v]), rest);
    }
  }

  lemma {:induction false} AddedAll(rv: IntegratedVersion, db: IntegratedVersion, names: seq<string>)
    requires forall n :: n in names ==> n in db.contractVersions
    requires forall n :: n in rv.contractVersions ==>
        n in db.contractVersions && rv.contractVersions[n] == db.contractVersions[n]
    ensures var all := AddAll(rv, db, names);
            && all.gethVersion == rv.gethVersion
            && (forall n :: n in all.contractVersions <==> n in rv.contractVersions || n in names)
            && (forall n :: n in all.contractVersions ==>
                 n in db.contractVersions && all.contractVersions[n] == db.contractVersions[n])
    decreases |names|
  {
    if names != [] {
      assert forall n :: n in names <==> n == names[0] || n in names[1..];
      AddedAll(rv.(contractVersions := rv.contractVersions[names[0] := db.contractVersions[names[0]]]), db, names[1..]);
    }
  }

  lemma ParseFirst(rv: IntegratedVersion, line: string, rest: seq<string>)
    requires Apply(rv, line).Read?
    ensures Parse(rv, [line] + rest) == Parse(Apply(rv, line).db, rest)
  {
    assert ([line] + rest)[1..] == rest;
  }

  lemma WritableIsReadBack(db: IntegratedVersion, names: seq<string>)
    requires Writable(db) && IsListing(db, names)
    ensures Parse(EMPTY, Lines(Text(db, names))) == Read(db)
  {
    var first := EMPTY.(gethVersion := db.gethVersion);
    ReadsGethLine(db.gethVersion, Body(db, names));
    AppliesGethLine(db.gethVersion);
    ParseFirst(EMPTY, GethLine(db.gethVersion), Lines(Body(db, names)));
    BodyIsReadBack(db, first, names);
    AllOfThem(db, first, names);
  }

  lemma AllOfThem(db: IntegratedVersion, first: IntegratedVersion, names: seq<string>)
    requires IsListing(db, names) && first == EMPTY.(gethVersion := db.gethVersion)
    ensures AddAll(first, db, names) == db
  {
    AddedAll(first, db, names);
    assert AddAll(first, db, names).contractVersions == db.contractVersions;
  }

  lemma AppliesGethLine(version: string)
    requires NoSpace(version) && version != ""
    ensures Apply(EMPTY, GethLine(version)) == Read(EMPTY.(gethVersion := version))
  {
    ReadsGethLine(version, "");
    assert (GETH_VERSION + ":")[..|GETH_VERSION|] == GETH_VERSION;
  }

  /** Whatever is read has no white space and no empty field, and is no second geth version. */
  ghost predicate Readable(db: IntegratedVersion) {
    && NoSpace(db.gethVersion)
    && (forall n :: n in db.contractVersions ==>
         n != GETH_VERSION && NoSpace(n) && WritableVersion(db.contractVersions[n]))
  }

  lemma {:induction false} ParsedIsReadable(rv: IntegratedVersion, lines: seq<string>)
    requires Readable(rv) && Parse(rv, lines).Read?
    ensures Readable(Parse(rv, lines).db)
    ensures rv.gethVersion != "" ==> Parse(rv, lines).db.gethVersion == rv.gethVersion
    decreases |lines|
  {
    if lines != [] {
      ParsedIsReadable(Apply(rv, lines[0]).db, lines[1..]);
    }
  }

  lemma NoGethVersionFails(db: IntegratedVersion, names: seq<string>)
    requires IsListing(db, names) && db.gethVersion == ""
    ensures Parse(EMPTY, Lines(Text(db, names))) == Failed(BadGethLine)
  {
    ReadsGethLine("", Body(db, names));
    assert (GETH_VERSION + ":")[..|GETH_VERSION|] == GETH_VERSION;
  }

  /**
   Reading back what was written yields the same record exactly when the geth version and every path and hash
   are non-empty, no string holds white space, and no package is called GETH_VERSION. In particular an empty
   binary path, which the type allows for, does not survive.
   */
  lemma RoundTrip(db: IntegratedVersion, names: seq<string>)
    requires IsListing(db, names)
    ensures Parse(EMPTY, Lines(Text(db, names))) == Read(db) <==> Writable(db)
  {
    if Writable(db) {
      WritableIsReadBack(db, names);
    } else if Parse(EMPTY, Lines(Text(db, names))) == Read(db) {
      ParsedIsReadable(EMPTY, Lines(Text(db, names)));
      NoGethVersionFails(db, names);
    }
  }
}
