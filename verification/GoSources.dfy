/** The names under which a profile may mention each Go source file, and why an
    accepted profile can be written again under the files' own paths. */
module GoSources {
  import opened Text
  import opened GoProfile
  import opened CoverageGate

  /** A package as `go list` reports it: its directory below the root, "" for
      the root itself, and the names of its files in that directory. */
  datatype Package = Package(importPath: string, directory: string, sourceFiles: seq<string>, generatedFiles: seq<string>)

  /** What a profile's name stands for. */
  datatype Owner = Owner(relative: string, importPath: string)

  function Relative(package: Package, name: string): string {
    if package.directory == "" then name else package.directory + "/" + name
  }

  function OwnerOf(package: Package, name: string): Owner {
    Owner(Relative(package, name), package.importPath)
  }

  /** The four names of a file: below the root, absolute, below the module, and
      below its package. */
  function KeysOf(modulePath: string, root: string, package: Package, name: string): set<string> {
    var relative := Relative(package, name);
    {relative, root + "/" + relative, modulePath + "/" + relative, package.importPath + "/" + name}
  }

  predicate FileName(name: string) {
    name != "" && '/' !in name
  }

  /** File names are single components, and an import path ends with the
      package's directory, so that what it can name lies there. */
  ghost predicate Listed(packages: seq<Package>) {
    forall p :: p in packages ==>
      && (forall n :: n in p.sourceFiles + p.generatedFiles ==> FileName(n))
      && (p.directory == "" || EndsWith(p.importPath, p.directory))
  }

  predicate EndsWith(s: string, end: string) {
    |s| >= |end| && s[|s| - |end|..] == end
  }

  // ---- The map ----

  /** One file's claim to one name. */
  datatype Claim = Claim(key: string, owner: Owner)

  ghost function ClaimsTo(keys: set<string>, owner: Owner): set<Claim> {
    set key | key in keys :: Claim(key, owner)
  }

  ghost function ClaimsOf(modulePath: string, root: string, package: Package, name: string): set<Claim> {
    ClaimsTo(KeysOf(modulePath, root, package, name), OwnerOf(package, name))
  }

  ghost function FileClaims(modulePath: string, root: string, package: Package, names: seq<string>): set<Claim> {
    set n, c | n in names && c in ClaimsOf(modulePath, root, package, n) :: c
  }

  ghost function Claims(modulePath: string, root: string, packages: seq<Package>): set<Claim> {
    set p, c | p in packages && c in FileClaims(modulePath, root, p, p.sourceFiles + p.generatedFiles) :: c
  }

  /** Two files, or one file in two packages, claim one name. */
  ghost predicate Ambiguous(claims: set<Claim>) {
    exists a, b :: a in claims && b in claims && a.key == b.key && a.owner != b.owner
  }

  ghost predicate IsMapOf(claims: set<Claim>, mapping: map<string, Owner>) {
    forall key, owner :: key in mapping && mapping[key] == owner <==> Claim(key, owner) in claims
  }

  function Paths(package: Package, names: seq<string>): set<string> {
    set n | n in names :: Relative(package, n)
  }

  function GeneratedIn(packages: seq<Package>): set<string> {
    set p, f | p in packages && f in Paths(p, p.generatedFiles) :: f
  }

  lemma MapIsUnambiguous(claims: set<Claim>, mapping: map<string, Owner>)
    requires IsMapOf(claims, mapping)
    ensures !Ambiguous(claims)
  {
  }

  lemma OneMoreClaim(claims: set<Claim>, mapping: map<string, Owner>, keys: set<string>, key: string, owner: Owner)
    requires IsMapOf(claims + ClaimsTo(keys, owner), mapping)
    ensures key !in mapping || mapping[key] == owner ==>
              IsMapOf(claims + ClaimsTo(keys + {key}, owner), mapping[key := owner])
    ensures key in mapping && mapping[key] != owner ==> Ambiguous(claims + ClaimsTo(keys + {key}, owner))
  {
    var all, more := claims + ClaimsTo(keys, owner), claims + ClaimsTo(keys + {key}, owner);
    assert more == all + {Claim(key, owner)};
    if key in mapping && mapping[key] != owner {
      assert Claim(key, mapping[key]) in more && Claim(key, owner) in more;
    }
  }

  /** Files one file's claims, one name after the other. */
  method AddFile(ghost claims: set<Claim>, before: map<string, Owner>, modulePath: string, root: string, package: Package, name: string)
    returns (ok: bool, mapping: map<string, Owner>)
    requires IsMapOf(claims, before)
    ensures ok <==> !Ambiguous(claims + ClaimsOf(modulePath, root, package, name))
    ensures ok ==> IsMapOf(claims + ClaimsOf(modulePath, root, package, name), mapping)
  {
    var keys, value := KeysOf(modulePath, root, package, name), OwnerOf(package, name);
    ghost var all, done := keys, {};
    mapping := before;
    assert claims + ClaimsTo({}, value) == claims;
    while keys != {}
      invariant keys + done == all && IsMapOf(claims + ClaimsTo(done, value), mapping)
      decreases |keys|
    {
      var key :| key in keys;
      OneMoreClaim(claims, mapping, done, key, value);
      if key in mapping && mapping[key] != value {
        MoreStaysAmbiguous(claims + ClaimsTo(done + {key}, value), claims + ClaimsTo(all, value));
        return false, mapping;
      }
      mapping := mapping[key := value];
      done := done + {key};
      keys := keys - {key};
    }
    assert done == all;
    MapIsUnambiguous(claims + ClaimsTo(all, value), mapping);
    ok := true;
  }

  method AddFiles(ghost claims: set<Claim>, before: map<string, Owner>, modulePath: string, root: string, package: Package,
                  names: seq<string>)
    returns (ok: bool, mapping: map<string, Owner>)
    requires IsMapOf(claims, before)
    ensures ok <==> !Ambiguous(claims + FileClaims(modulePath, root, package, names))
    ensures ok ==> IsMapOf(claims + FileClaims(modulePath, root, package, names), mapping)
  {
    mapping := before;
    assert claims + FileClaims(modulePath, root, package, []) == claims;
    for i := 0 to |names|
      invariant IsMapOf(claims + FileClaims(modulePath, root, package, names[..i]), mapping)
    {
      OneMoreFile(modulePath, root, package, names, i);
      ghost var now := claims + FileClaims(modulePath, root, package, names[..i]);
      ghost var own := ClaimsOf(modulePath, root, package, names[i]);
      ok, mapping := AddFile(now, mapping, modulePath, root, package, names[i]);
      assert now + own == claims + FileClaims(modulePath, root, package, names[..i + 1]);
      if !ok {
        MoreStaysAmbiguous(now + own, claims + FileClaims(modulePath, root, package, names));
        return;
      }
    }
    assert names[..|names|] == names;
    MapIsUnambiguous(claims + FileClaims(modulePath, root, package, names), mapping);
    ok := true;
  }

  lemma OneMoreFile(modulePath: string, root: string, package: Package, names: seq<string>, i: nat)
    requires i < |names|
    ensures FileClaims(modulePath, root, package, names[..i + 1]) ==
            FileClaims(modulePath, root, package, names[..i]) + ClaimsOf(modulePath, root, package, names[i])
    ensures FileClaims(modulePath, root, package, names[..i + 1]) <= FileClaims(modulePath, root, package, names)
  {
    assert names[..i + 1] == names[..i] + [names[i]];
  }

  lemma MoreStaysAmbiguous(some: set<Claim>, all: set<Claim>)
    requires Ambiguous(some) && some <= all
    ensures Ambiguous(all)
  {
  }

  lemma OneMorePackage(modulePath: string, root: string, packages: seq<Package>, i: nat)
    requires i < |packages|
    ensures Claims(modulePath, root, packages[..i + 1]) ==
            Claims(modulePath, root, packages[..i])
            + FileClaims(modulePath, root, packages[i], packages[i].sourceFiles + packages[i].generatedFiles)
    ensures Claims(modulePath, root, packages[..i + 1]) <= Claims(modulePath, root, packages)
    ensures GeneratedIn(packages[..i + 1]) == GeneratedIn(packages[..i])
                                             + Paths(packages[i], packages[i].generatedFiles)
  {
    assert packages[..i + 1] == packages[..i] + [packages[i]];
  }

  /** The map, or an error exactly when a name is ambiguous. */
  method ProfileFileMap(modulePath: string, packages: seq<Package>, root: string)
    returns (ok: bool, mapping: map<string, Owner>, generated: set<string>)
    ensures ok <==> !Ambiguous(Claims(modulePath, root, packages))
    ensures ok ==> IsMapOf(Claims(modulePath, root, packages), mapping) && generated == GeneratedIn(packages)
  {
    mapping, generated := map[], {};
    for i := 0 to |packages|
      invariant IsMapOf(Claims(modulePath, root, packages[..i]), mapping) && generated == GeneratedIn(packages[..i])
    {
      var package := packages[i];
      OneMorePackage(modulePath, root, packages, i);
      ghost var now := Claims(modulePath, root, packages[..i]);
      ok, mapping := AddFiles(now, mapping, modulePath, root, package, package.sourceFiles + package.generatedFiles);
      if !ok {
        MoreStaysAmbiguous(Claims(modulePath, root, packages[..i + 1]), Claims(modulePath, root, packages));
        return;
      }
      generated := generated + Paths(package, package.generatedFiles);
    }
    assert packages[..|packages|] == packages;
    MapIsUnambiguous(Claims(modulePath, root, packages), mapping);
    ok := true;
  }

  /** The four names, spelled out. */
  predicate IsNameOf(modulePath: string, root: string, package: Package, name: string, key: string) {
    var path := if package.directory == "" then name else package.directory + "/" + name;
    key == path || key == root + "/" + path || key == modulePath + "/" + path || key == package.importPath + "/" + name
  }

  ghost predicate IsFileOf(packages: seq<Package>, package: Package, name: string) {
    package in packages && (name in package.sourceFiles || name in package.generatedFiles)
  }

  /** The map takes a name to a file exactly if the name is one of the file's four. */
  lemma MapKnowsFourNames(modulePath: string, root: string, packages: seq<Package>, mapping: map<string, Owner>, key: string, owner: Owner)
    requires IsMapOf(Claims(modulePath, root, packages), mapping)
    ensures key in mapping && mapping[key] == owner <==>
            exists p, n :: IsFileOf(packages, p, n) && IsNameOf(modulePath, root, p, n, key)
                           && owner.importPath == p.importPath
                           && owner.relative == if p.directory == "" then n else p.directory + "/" + n
  {
    if key in mapping && mapping[key] == owner {
      var p, n := ClaimIsOfAFile(modulePath, root, packages, Claim(key, owner));
      assert IsFileOf(packages, p, n) && IsNameOf(modulePath, root, p, n, key);
    }
    if p, n :| IsFileOf(packages, p, n) && IsNameOf(modulePath, root, p, n, key) && owner.importPath == p.importPath
               && owner.relative == if p.directory == "" then n else p.directory + "/" + n {
      assert n in p.sourceFiles + p.generatedFiles && owner == OwnerOf(p, n);
      assert Claim(key, owner) in ClaimsOf(modulePath, root, p, n);
      assert Claim(key, owner) in FileClaims(modulePath, root, p, p.sourceFiles + p.generatedFiles);
    }
  }

  // ---- What the parser is given ----

  /** file_to_package: a later package wins. */
  function PackageMap(packages: seq<Package>): map<string, string> {
    if packages == [] then map[]
    else
      var last := packages[|packages| - 1];
      PackageMap(packages[..|packages| - 1])
      + map f | f in Paths(last, last.sourceFiles) :: last.importPath
  }

  function ImportPaths(packages: seq<Package>): (paths: seq<string>)
    ensures |paths| == |packages| && forall i :: 0 <= i < |paths| ==> paths[i] == packages[i].importPath
  {
    seq(|packages|, i requires 0 <= i < |packages| => packages[i].importPath)
  }

  function SourcesOf(packages: seq<Package>, mapping: map<string, Owner>): Sources {
    Sources(map key | key in mapping :: mapping[key].relative, GeneratedIn(packages), PackageMap(packages), ImportPaths(packages))
  }

  lemma {:induction false} PackageMapIs(packages: seq<Package>, file: string)
    ensures file in PackageMap(packages) <==> exists p :: p in packages && file in Paths(p, p.sourceFiles)
    ensures file in PackageMap(packages) ==> PackageMap(packages)[file] in ImportPaths(packages)
  {
    if packages != [] {
      var front, last := packages[..|packages| - 1], packages[|packages| - 1];
      assert packages == front + [last];
      PackageMapIs(front, file);
      assert forall x :: x in ImportPaths(front) ==> x in ImportPaths(packages);
      assert ImportPaths(packages)[|packages| - 1] == last.importPath;
    }
  }

  /** Under an unambiguous map, the owner of a source file is its package. */
  lemma OwnerIsThePackage(modulePath: string, root: string, packages: seq<Package>, mapping: map<string, Owner>, p: Package, n: string)
    requires IsMapOf(Claims(modulePath, root, packages), mapping) && p in packages && n in p.sourceFiles
    ensures Relative(p, n) in PackageMap(packages) && PackageMap(packages)[Relative(p, n)] == p.importPath
  {
    PackageMapIs(packages, Relative(p, n));
    var q, m := OwnerHasFile(packages, Relative(p, n));
    assert n in p.sourceFiles + p.generatedFiles && m in q.sourceFiles + q.generatedFiles;
    PathIsClaimed(modulePath, root, packages, p, n);
    PathIsClaimed(modulePath, root, packages, q, m);
  }

  lemma {:induction false} OwnerHasFile(packages: seq<Package>, file: string) returns (p: Package, n: string)
    requires file in PackageMap(packages)
    ensures p in packages && n in p.sourceFiles && Relative(p, n) == file && p.importPath == PackageMap(packages)[file]
  {
    var front, last := packages[..|packages| - 1], packages[|packages| - 1];
    assert packages == front + [last];
    if file in Paths(last, last.sourceFiles) {
      p := last;
      n :| n in last.sourceFiles && Relative(last, n) == file;
    } else {
      p, n := OwnerHasFile(front, file);
    }
  }

  lemma SourcesAreValid(packages: seq<Package>, mapping: map<string, Owner>)
    ensures SourcesOf(packages, mapping).Valid()
  {
    forall f | f in PackageMap(packages) ensures PackageMap(packages)[f] in ImportPaths(packages) {
      PackageMapIs(packages, f);
    }
  }

  lemma MapIsUnique(claims: set<Claim>, a: map<string, Owner>, b: map<string, Owner>)
    requires IsMapOf(claims, a) && IsMapOf(claims, b)
    ensures a == b
  {
    forall key ensures (key in a <==> key in b) && (key in a ==> a[key] == b[key]) {
      assert key in a ==> Claim(key, a[key]) in claims;
      assert key in b ==> Claim(key, b[key]) in claims;
    }
  }

  /** The whole reading of a profile.  It fails exactly when the header is bad,
      a name is ambiguous, or the rows are not acceptable under the map. */
  method ReadProfile(modulePath: string, packages: seq<Package>, root: string, lines: seq<string>)
    returns (report: Option<Report>, mapping: map<string, Owner>)
    ensures report.Some? ==> IsMapOf(Claims(modulePath, root, packages), mapping)
                             && Summarizes(SourcesOf(packages, mapping), lines, report.value)
    ensures report.None? ==> forall m, blocks ::
              IsMapOf(Claims(modulePath, root, packages), m) ==> !Accepted(SourcesOf(packages, m), lines, blocks)
  {
    mapping := map[];
    if !HasHeader(lines) {
      return None, mapping;
    }
    var ok, generated;
    ok, mapping, generated := ProfileFileMap(modulePath, packages, root);
    if !ok {
      forall m | IsMapOf(Claims(modulePath, root, packages), m) ensures false {
        MapIsUnambiguous(Claims(modulePath, root, packages), m);
      }
      return None, mapping;
    }
    SourcesAreValid(packages, mapping);
    report := ParseGoProfile(SourcesOf(packages, mapping), lines);
    forall m | IsMapOf(Claims(modulePath, root, packages), m) ensures m == mapping {
      MapIsUnique(Claims(modulePath, root, packages), m, mapping);
    }
  }

  // ---- Every name ends with the file's own path ----

  lemma EndsWithMore(front: string, end: string)
    ensures EndsWith(front + end, end)
  {
  }

  lemma KeysEndWithPath(modulePath: string, root: string, packages: seq<Package>, package: Package, name: string, key: string)
    requires Listed(packages) && package in packages && name in package.sourceFiles + package.generatedFiles
    requires key in KeysOf(modulePath, root, package, name)
    ensures Relative(package, name) != "" && EndsWith(key, Relative(package, name))
  {
    var relative := Relative(package, name);
    assert FileName(name);
    if key == root + "/" + relative {
      EndsWithMore(root + "/", relative);
    } else if key == modulePath + "/" + relative {
      EndsWithMore(modulePath + "/", relative);
    } else if key == package.importPath + "/" + name {
      if package.directory == "" {
        EndsWithMore(package.importPath + "/", name);
      } else {
        var cut := |package.importPath| - |package.directory|;
        assert package.importPath == package.importPath[..cut] + package.directory;
        assert key == package.importPath[..cut] + relative;
        EndsWithMore(package.importPath[..cut], relative);
      }
    }
  }

  lemma NoBackslashInEnd(key: string, end: string)
    requires EndsWith(key, end) && '\\' !in key
    ensures '\\' !in end && SlashesOnly(end) == end
  {
    assert forall c :: c in end ==> c in key[|key| - |end|..];
  }

  lemma SlashesOnlyHasNone(name: string)
    ensures '\\' !in SlashesOnly(name)
  {
  }

  lemma ClaimIsOfAFile(modulePath: string, root: string, packages: seq<Package>, claim: Claim) returns (p: Package, n: string)
    requires claim in Claims(modulePath, root, packages)
    ensures p in packages && n in p.sourceFiles + p.generatedFiles
    ensures claim.key in KeysOf(modulePath, root, p, n) && claim.owner == OwnerOf(p, n)
  {
    p :| p in packages && claim in FileClaims(modulePath, root, p, p.sourceFiles + p.generatedFiles);
    n :| n in p.sourceFiles + p.generatedFiles && claim in ClaimsOf(modulePath, root, p, n);
  }

  lemma PathIsClaimed(modulePath: string, root: string, packages: seq<Package>, p: Package, n: string)
    requires p in packages && n in p.sourceFiles + p.generatedFiles
    ensures Claim(Relative(p, n), OwnerOf(p, n)) in Claims(modulePath, root, packages)
  {
    var claim := Claim(Relative(p, n), OwnerOf(p, n));
    assert claim in ClaimsOf(modulePath, root, p, n);
    assert claim in FileClaims(modulePath, root, p, p.sourceFiles + p.generatedFiles);
  }

  /** A name that the map knows belongs to a file whose own path has no
      backslash, and is known as well. */
  lemma MappedFilesResolve(modulePath: string, root: string, packages: seq<Package>, mapping: map<string, Owner>, name: string)
    requires Listed(packages) && IsMapOf(Claims(modulePath, root, packages), mapping)
    requires SlashesOnly(name) in mapping
    ensures Resolves(SourcesOf(packages, mapping), mapping[SlashesOnly(name)].relative)
    ensures '\\' !in mapping[SlashesOnly(name)].relative
  {
    var key := SlashesOnly(name);
    var owner := mapping[key];
    var p, n := ClaimIsOfAFile(modulePath, root, packages, Claim(key, owner));
    KeysEndWithPath(modulePath, root, packages, p, n, key);
    SlashesOnlyHasNone(name);
    NoBackslashInEnd(key, owner.relative);
    PathIsClaimed(modulePath, root, packages, p, n);
  }

  lemma HitIsMapped(sources: Sources, line: string)
    requires ReadRow(sources, line).Hit?
    ensures ParseRow(line).Some?
    ensures var name := SlashesOnly(ParseRow(line).value.file);
            name in sources.fileMap && ReadRow(sources, line).block.file == sources.fileMap[name]
  {
  }

  lemma MentionedByARow(sources: Sources, rows: seq<string>, b: Block) returns (line: string)
    requires Mentions(Readings(sources, rows), b)
    ensures ReadRow(sources, line).Hit? && ReadRow(sources, line).block == b
  {
    var hit := if Hit(b, true) in Readings(sources, rows) then Hit(b, true) else Hit(b, false);
    ReadingsAreOfRows(sources, rows, hit);
    line :| line in rows && !Blank(line) && ReadRow(sources, line) == hit;
  }

  /** Every block of an accepted profile names its file by a path that the map
      resolves to that file. */
  lemma AcceptedFilesResolve(modulePath: string, root: string, packages: seq<Package>, mapping: map<string, Owner>,
                             lines: seq<string>, blocks: map<Block, bool>)
    requires Listed(packages) && IsMapOf(Claims(modulePath, root, packages), mapping)
    requires Accepted(SourcesOf(packages, mapping), lines, blocks)
    ensures forall b :: b in blocks ==> Resolves(SourcesOf(packages, mapping), b.file) && '\\' !in b.file
  {
    var sources := SourcesOf(packages, mapping);
    forall b | b in blocks ensures Resolves(sources, b.file) && '\\' !in b.file {
      var line := MentionedByARow(sources, lines[1..], b);
      HitIsMapped(sources, line);
      MappedFilesResolve(modulePath, root, packages, mapping, ParseRow(line).value.file);
    }
  }

  /** Merging loses nothing: whatever profile was accepted, the merged one is
      accepted with the same blocks, totals and package counts, each block in
      one row, none excluded and nothing left to deduplicate. */
  lemma MergedProfileIsTheProfile(modulePath: string, root: string, packages: seq<Package>, mapping: map<string, Owner>,
                                  lines: seq<string>, report: Report, order: seq<Block>)
    requires Listed(packages) && IsMapOf(Claims(modulePath, root, packages), mapping)
    requires Summarizes(SourcesOf(packages, mapping), lines, report) && Lists(order, report.blocks)
    ensures Summarizes(SourcesOf(packages, mapping), MergedProfile(order, report.blocks),
                       Report("set", report.unique, 0, report.unique, 0, report.sums, report.blocks))
  {
    AcceptedFilesResolve(modulePath, root, packages, mapping, lines, report.blocks);
    MergedProfileParsesBack(SourcesOf(packages, mapping), lines, report, order);
  }
}
