/** Bounded extraction of the pinned source archive. */
module Extraction {
  import opened Text
  import opened Streaming

  const MAX_MEMBERS := 100_000
  const MAX_FILE: int := 128 * 1024 * 1024
  const MAX_TOTAL: int := 768 * 1024 * 1024

  type Path = seq<string>

  datatype Kind = Directory | Regular | Special

  /** An archive member: its declared size, and what reading it really yields. */
  datatype Member = Member(name: string, kind: Kind, size: int, readable: bool, content: Bytes)

  datatype Reason =
    | TooManyMembers | Preempted | NonPortable | Unsafe | OutsideRoot | RootNotDirectory | Repeated
    | LinkOrSpecial | FileTooLarge | ArchiveTooLarge | Unreadable | FileSystem | Truncated | Oversized | RequiredMissing

  datatype Outcome = Extracted | Refused(reason: Reason)

  // ---- Member names ----

  predicate PlainPart(part: string) {
    part != "" && part != "." && part != ".." && '/' !in part && '\\' !in part && '\0' !in part
  }

  ghost predicate PlainPath(path: Path) {
    path != [] && forall part :: part in path ==> PlainPart(part)
  }

  function FirstSlash(name: string): (i: nat)
    ensures i <= |name| && (i < |name| ==> name[i] == '/') && '/' !in name[..i]
  {
    if name == "" || name[0] == '/' then 0 else FirstSlash(name[1..]) + 1
  }

  /** PurePosixPath(name).parts of a relative name: empty and "." parts vanish. */
  function Parts(name: string): Path
    decreases |name|
  {
    var cut := FirstSlash(name);
    var head := name[..cut];
    (if head == "" || head == "." then [] else [head]) + if cut == |name| then [] else Parts(name[cut + 1..])
  }

  datatype Place = Root | Inside(relative: Path) | Rejected(reason: Reason)

  function SafeRelativeMember(name: string, root: string): Place {
    if '\\' in name || '\0' in name then Rejected(NonPortable)
    else if (name != "" && name[0] == '/') || ".." in Parts(name) then Rejected(Unsafe)
    else if Parts(name) == [] || Parts(name)[0] != root then Rejected(OutsideRoot)
    else if |Parts(name)| == 1 then Root
    else Inside(Parts(name)[1..])
  }

  function JoinPath(path: Path): string {
    if path == [] then ""
    else if |path| == 1 then path[0]
    else path[0] + "/" + JoinPath(path[1..])
  }

  lemma {:induction false} PartsArePlain(name: string)
    requires '\\' !in name && '\0' !in name
    ensures forall part :: part in Parts(name) ==> part == ".." || PlainPart(part)
    decreases |name|
  {
    var cut := FirstSlash(name);
    if cut < |name| {
      PartsArePlain(name[cut + 1..]);
    }
  }

  lemma FirstSlashAfter(head: string, rest: string)
    requires '/' !in head
    ensures FirstSlash(head) == |head| && FirstSlash(head + "/" + rest) == |head|
  {
    var name := head + "/" + rest;
    if head != "" {
      FirstSlashAfter(head[1..], rest);
      assert name[1..] == head[1..] + "/" + rest;
    }
  }

  lemma PartsOfOne(head: string)
    requires PlainPart(head)
    ensures Parts(head) == [head]
  {
    FirstSlashAfter(head, "");
    assert head[..|head|] == head;
  }

  lemma PartsOfTwo(head: string, rest: string)
    requires PlainPart(head)
    ensures Parts(head + "/" + rest) == [head] + Parts(rest)
  {
    FirstSlashAfter(head, rest);
    var name := head + "/" + rest;
    assert name[..|head|] == head && name[|head| + 1..] == rest;
  }

  lemma {:induction false} PartsOfJoined(path: Path)
    requires PlainPath(path)
    ensures Parts(JoinPath(path)) == path
  {
    assert path[0] in path;
    if |path| > 1 {
      assert forall part :: part in path[1..] ==> part in path;
      PartsOfJoined(path[1..]);
      PartsOfTwo(path[0], JoinPath(path[1..]));
      assert path == [path[0]] + path[1..];
    } else {
      PartsOfOne(path[0]);
    }
  }

  /** Walking a path from a directory, with ".." going up. */
  function Resolve(directory: Path, path: Path): Path
    decreases |path|
  {
    if path == [] then directory
    else if path[0] == "." || path[0] == "" then Resolve(directory, path[1..])
    else if path[0] == ".." then Resolve(if directory == [] then [] else directory[..|directory| - 1], path[1..])
    else Resolve(directory + [path[0]], path[1..])
  }

  lemma {:induction false} PlainPathGoesDown(directory: Path, path: Path)
    requires forall part :: part in path ==> PlainPart(part)
    ensures Resolve(directory, path) == directory + path
    decreases |path|
  {
    if path == [] {
      assert directory + path == directory;
    } else {
      assert path[0] in path && forall part :: part in path[1..] ==> part in path;
      PlainPathGoesDown(directory + [path[0]], path[1..]);
      assert directory + [path[0]] + path[1..] == directory + path;
    }
  }

  /** An accepted member lands strictly beneath the destination. */
  lemma AcceptedMembersStayBeneath(name: string, root: string, destination: Path)
    ensures SafeRelativeMember(name, root).Inside? ==>
              var relative := SafeRelativeMember(name, root).relative;
              PlainPath(relative) && Resolve(destination, relative) == destination + relative
  {
    if SafeRelativeMember(name, root).Inside? {
      var relative := SafeRelativeMember(name, root).relative;
      PartsArePlain(name);
      assert forall part :: part in relative ==> part in Parts(name);
      PlainPathGoesDown(destination, relative);
    }
  }

  // ---- Exactly which names are accepted ----

  /** Whatever stands between the slashes of a name, empty and "." parts included. */
  ghost predicate SlashFree(parts: seq<string>) {
    parts != [] && forall part :: part in parts ==> '/' !in part
  }

  /** Every name is some such parts, joined. */
  lemma {:induction false} EveryNameIsJoined(name: string) returns (parts: seq<string>)
    ensures SlashFree(parts) && JoinPath(parts) == name
    decreases |name|
  {
    var cut := FirstSlash(name);
    parts := [name[..cut]];
    if cut < |name| {
      var rest := EveryNameIsJoined(name[cut + 1..]);
      parts := [name[..cut]] + rest;
      assert parts[1..] == rest && name == name[..cut] + "/" + name[cut + 1..];
    } else {
      assert name[..cut] == name;
    }
  }

  function KeptOne(part: string): Path {
    if part == "" || part == "." then [] else [part]
  }

  function Kept(parts: seq<string>): Path {
    if parts == [] then [] else KeptOne(parts[0]) + Kept(parts[1..])
  }

  lemma PartsOfHead(head: string, rest: string)
    requires '/' !in head
    ensures Parts(head) == KeptOne(head) && Parts(head + "/" + rest) == KeptOne(head) + Parts(rest)
  {
    FirstSlashAfter(head, rest);
    var name := head + "/" + rest;
    assert name[..|head|] == head && name[|head| + 1..] == rest && head[..|head|] == head;
  }

  /** PurePosixPath's parts are what is kept of them. */
  lemma {:induction false} PartsAreKept(parts: seq<string>)
    requires SlashFree(parts)
    ensures Parts(JoinPath(parts)) == Kept(parts)
  {
    assert parts[0] in parts;
    if |parts| == 1 {
      PartsOfHead(parts[0], "");
      assert Kept(parts[1..]) == [];
    } else {
      assert forall part :: part in parts[1..] ==> part in parts;
      PartsAreKept(parts[1..]);
      PartsOfHead(parts[0], JoinPath(parts[1..]));
    }
  }

  /** Walking what is kept is walking all of it. */
  lemma {:induction false} KeptWalksAlike(directory: Path, parts: seq<string>)
    ensures Resolve(directory, Kept(parts)) == Resolve(directory, parts)
    decreases |parts|
  {
    if parts != [] {
      var head := parts[0];
      var next := if head == "." || head == "" then directory
                  else if head == ".." then (if directory == [] then [] else directory[..|directory| - 1])
                  else directory + [head];
      KeptWalksAlike(next, parts[1..]);
      if KeptOne(head) == [] {
        assert Kept(parts) == Kept(parts[1..]);
      } else {
        assert Kept(parts) == [head] + Kept(parts[1..]) && Kept(parts)[1..] == Kept(parts[1..]);
      }
    }
  }

  lemma {:induction false} KeptHolds(parts: seq<string>, part: string)
    requires part != "" && part != "."
    ensures part in Kept(parts) <==> part in parts
  {
    if parts != [] {
      KeptHolds(parts[1..], part);
      assert parts == [parts[0]] + parts[1..];
    }
  }

  lemma AcceptedByParts(name: string, kept: Path, root: string)
    requires Parts(name) == kept
    ensures SafeRelativeMember(name, root).Inside? <==>
            && '\\' !in name && '\0' !in name && (name == "" || name[0] != '/') && ".." !in kept
            && |kept| > 1 && kept[0] == root
  {
  }

  /** A member is accepted exactly if its name is portable, relative, without
      "..", and lies below the root. */
  lemma AcceptedIff(parts: seq<string>, root: string)
    requires SlashFree(parts)
    ensures var name := JoinPath(parts);
            SafeRelativeMember(name, root).Inside? <==>
            && '\\' !in name && '\0' !in name && (name == "" || name[0] != '/') && ".." !in parts
            && |Kept(parts)| > 1 && Kept(parts)[0] == root
  {
    PartsAreKept(parts);
    KeptHolds(parts, "..");
    AcceptedByParts(JoinPath(parts), Kept(parts), root);
  }

  lemma AcceptedParts(parts: seq<string>, root: string)
    requires SlashFree(parts) && SafeRelativeMember(JoinPath(parts), root).Inside?
    ensures Kept(parts) == [root] + SafeRelativeMember(JoinPath(parts), root).relative
    ensures forall part :: part in Kept(parts) ==> PlainPart(part)
  {
    PartsAreKept(parts);
    AcceptedPathIs(JoinPath(parts), Kept(parts), root);
  }

  lemma AcceptedPathIs(name: string, kept: Path, root: string)
    requires Parts(name) == kept && SafeRelativeMember(name, root).Inside?
    ensures kept == [root] + SafeRelativeMember(name, root).relative
    ensures forall part :: part in kept ==> PlainPart(part)
  {
    PartsArePlain(name);
    assert kept == [kept[0]] + kept[1..];
  }

  /** And walking an accepted name from any directory leads to the root's place
      there, and from it to the accepted path. */
  lemma AcceptedNameWalksThere(parts: seq<string>, root: string, directory: Path)
    requires SlashFree(parts) && SafeRelativeMember(JoinPath(parts), root).Inside?
    ensures Resolve(directory, parts) == directory + ([root] + SafeRelativeMember(JoinPath(parts), root).relative)
  {
    AcceptedParts(parts, root);
    KeptWalksAlike(directory, parts);
    PlainPathGoesDown(directory, Kept(parts));
  }

  /** Every plain path below the root is accepted, for itself. */
  lemma PlainMembersAreAccepted(relative: Path, root: string)
    requires PlainPath(relative) && PlainPart(root)
    ensures SafeRelativeMember(JoinPath([root] + relative), root) == Inside(relative)
  {
    var path := [root] + relative;
    PartsOfJoined(path);
    JoinedIsPortable(path);
    assert path[1..] == relative && path[0] == root;
  }

  lemma {:induction false} JoinedIsPortable(path: Path)
    requires PlainPath(path)
    ensures '\\' !in JoinPath(path) && '\0' !in JoinPath(path)
    ensures JoinPath(path) != "" && JoinPath(path)[0] != '/'
  {
    assert path[0] in path;
    if |path| > 1 {
      assert forall part :: part in path[1..] ==> part in path;
      JoinedIsPortable(path[1..]);
    }
  }

  // ---- Extraction ----

  /** A file as it was written. */
  datatype Stored = Stored(path: Path, content: Bytes)

  function Sum(written: seq<Stored>): nat {
    if written == [] then 0 else Sum(written[..|written| - 1]) + |written[|written| - 1].content|
  }

  ghost function Apply(files: map<Path, Bytes>, written: seq<Stored>): map<Path, Bytes> {
    if written == [] then files
    else
      var last := written[|written| - 1];
      Apply(files, written[..|written| - 1])[last.path := last.content]
  }

  /** Each file is new, and written once. */
  ghost predicate WrittenOnce(files: map<Path, Bytes>, written: seq<Stored>) {
    && (forall i :: 0 <= i < |written| ==> written[i].path !in files)
    && (forall i, j :: 0 <= i < j < |written| ==> written[i].path != written[j].path)
  }

  ghost predicate Beneath(destination: Path, path: Path) {
    |destination| < |path| && path[..|destination|] == destination && PlainPath(path[|destination|..])
  }

  /** The regular files of an archive, placed beneath the destination. */
  ghost function FileOf(member: Member, destination: Path, root: string): seq<Stored> {
    var place := SafeRelativeMember(member.name, root);
    if place.Inside? && member.kind.Regular? then [Stored(destination + place.relative, member.content)] else []
  }

  ghost function FilesOf(members: seq<Member>, destination: Path, root: string): seq<Stored> {
    if members == [] then []
    else FilesOf(members[..|members| - 1], destination, root) + FileOf(members[|members| - 1], destination, root)
  }

  ghost function DeclaredSize(member: Member, root: string): int {
    if SafeRelativeMember(member.name, root).Inside? && member.kind.Regular? then member.size else 0
  }

  ghost function DeclaredTotal(members: seq<Member>, root: string): int {
    if members == [] then 0
    else DeclaredTotal(members[..|members| - 1], root) + DeclaredSize(members[|members| - 1], root)
  }

  ghost function PlaceOf(member: Member, root: string): set<Path> {
    var place := SafeRelativeMember(member.name, root);
    if place.Inside? then {place.relative} else {}
  }

  ghost function Places(members: seq<Member>, root: string): set<Path> {
    if members == [] then {} else Places(members[..|members| - 1], root) + PlaceOf(members[|members| - 1], root)
  }

  /** No two members share a place. */
  ghost predicate NoRepeats(members: seq<Member>, root: string) {
    members == [] || (
      && NoRepeats(members[..|members| - 1], root)
      && PlaceOf(members[|members| - 1], root) !! Places(members[..|members| - 1], root))
  }

  lemma ApplyKeeps(files: map<Path, Bytes>, written: seq<Stored>, path: Path)
    ensures path in Apply(files, written) <==> path in files || exists i :: 0 <= i < |written| && written[i].path == path
  {
  }

  /** Only new files beneath the destination were added, each written once, and
      together they stay under the cap. */
  ghost predicate Adds(before: map<Path, Bytes>, now: map<Path, Bytes>, written: seq<Stored>, destination: Path) {
    && now == Apply(before, written) && WrittenOnce(before, written) && Sum(written) <= MAX_TOTAL
    && forall w :: w in written ==> Beneath(destination, w.path)
  }

  lemma BeneathByParts(destination: Path, relative: Path)
    requires PlainPath(relative)
    ensures Beneath(destination, destination + relative)
  {
  }

  /** At most one file, at the member's place, where nothing was. */
  ghost predicate AtPlace(part: seq<Stored>, place: Place, destination: Path, files: map<Path, Bytes>) {
    |part| <= 1 && forall w :: w in part ==>
      place.Inside? && w.path == destination + place.relative && w.path !in files && Beneath(destination, w.path)
  }

  lemma AddsMore(before: map<Path, Bytes>, now: map<Path, Bytes>, written: seq<Stored>, part: seq<Stored>,
                 later: map<Path, Bytes>, place: Place, destination: Path)
    requires Adds(before, now, written, destination) && later == Apply(now, part)
    requires AtPlace(part, place, destination, now) && Sum(written) + Sum(part) <= MAX_TOTAL
    ensures Adds(before, later, written + part, destination) && Sum(written + part) == Sum(written) + Sum(part)
  {
    if part != [] {
      assert part[0] in part;
    }
    ApplyMore(before, written, part, if part == [] then [] else part[0].path, now);
  }

  lemma OneMoreMember(front: seq<Member>, last: Member, destination: Path, root: string)
    ensures var longer := front + [last];
            && FilesOf(longer, destination, root) == FilesOf(front, destination, root) + FileOf(last, destination, root)
            && DeclaredTotal(longer, root) == DeclaredTotal(front, root) + DeclaredSize(last, root)
            && Places(longer, root) == Places(front, root) + PlaceOf(last, root)
            && (NoRepeats(longer, root) <==> NoRepeats(front, root) && PlaceOf(last, root) !! Places(front, root))
  {
  }

  /** What has been written and counted is what the members so far declare. */
  ghost predicate Accounts(members: seq<Member>, destination: Path, root: string, written: seq<Stored>, total: int, seen: set<Path>) {
    && written == FilesOf(members, destination, root) && total == DeclaredTotal(members, root)
    && seen == Places(members, root) && NoRepeats(members, root)
  }

  lemma AccountsMore(front: seq<Member>, member: Member, destination: Path, root: string, written: seq<Stored>, total: int,
                     seen: set<Path>)
    requires Accounts(front, destination, root, written, total, seen) && PlaceOf(member, root) !! seen
    ensures Accounts(front + [member], destination, root, written + FileOf(member, destination, root),
                     total + DeclaredSize(member, root), seen + PlaceOf(member, root))
  {
    OneMoreMember(front, member, destination, root);
  }

  /** What the loop over the members keeps. */
  ghost predicate Progress(before: map<Path, Bytes>, now: map<Path, Bytes>, front: seq<Member>, destination: Path, root: string,
                           written: seq<Stored>, total: int, seen: set<Path>) {
    Adds(before, now, written, destination) && Sum(written) == total
    && Accounts(front, destination, root, written, total, seen)
  }

  lemma ProgressMore(before: map<Path, Bytes>, now: map<Path, Bytes>, front: seq<Member>, member: Member, destination: Path,
                     root: string, written: seq<Stored>, total: int, seen: set<Path>, part: seq<Stored>, later: map<Path, Bytes>)
    requires Progress(before, now, front, destination, root, written, total, seen)
    requires later == Apply(now, part) && AtPlace(part, SafeRelativeMember(member.name, root), destination, now)
    requires total + Sum(part) <= MAX_TOTAL && part == FileOf(member, destination, root)
    requires DeclaredSize(member, root) == Sum(part) && PlaceOf(member, root) !! seen
    ensures Progress(before, later, front + [member], destination, root, written + part, total + Sum(part),
                     seen + PlaceOf(member, root))
  {
    AddsMore(before, now, written, part, later, SafeRelativeMember(member.name, root), destination);
    AccountsMore(front, member, destination, root, written, total, seen);
  }

  // ---- Files against directories ----

  function Prefixes(path: Path): set<Path> {
    set k | 0 <= k <= |path| :: path[..k]
  }

  function Parent(path: Path): Path {
    if path == [] then [] else path[..|path| - 1]
  }

  /** No file lies on the way to the path, or at it. */
  predicate Clear(files: map<Path, Bytes>, path: Path) {
    forall k :: 0 <= k <= |path| ==> path[..k] !in files
  }

  predicate Below(outer: Path, inner: Path) {
    |outer| < |inner| && inner[..|outer|] == outer
  }

  predicate Placed(member: Member, root: string) {
    SafeRelativeMember(member.name, root).Inside?
  }

  function RelativeOf(member: Member, root: string): Path
    requires Placed(member, root)
  {
    SafeRelativeMember(member.name, root).relative
  }

  /** The directory that a member needs: itself, or where its file goes. */
  function DirectoryFor(member: Member, path: Path): Path {
    if member.kind.Directory? then path else Parent(path)
  }

  /** The directories a member makes, those above the destination included. */
  ghost function DirectoriesOf(member: Member, destination: Path, root: string): set<Path> {
    if Placed(member, root) then Prefixes(DirectoryFor(member, destination + RelativeOf(member, root))) else {}
  }

  /** Nothing about the member, nor about what is on the disk, stands in its way. */
  predicate MemberFits(member: Member, path: Path, files: map<Path, Bytes>, directories: set<Path>) {
    && Clear(files, path)
    && (member.kind.Directory?
        || (member.kind.Regular? && 0 <= member.size <= MAX_FILE && member.readable && |member.content| == member.size
            && path !in directories))
  }

  predicate Fits(member: Member, destination: Path, root: string, files: map<Path, Bytes>, directories: set<Path>) {
    match SafeRelativeMember(member.name, root)
    case Rejected(_) => false
    case Root => member.kind.Directory?
    case Inside(relative) => MemberFits(member, destination + relative, files, directories)
  }

  /** A regular file where another member needs a directory. */
  predicate Collide(file: Member, other: Member, root: string) {
    && Placed(file, root) && Placed(other, root) && file.kind.Regular?
    && Below(RelativeOf(file, root), RelativeOf(other, root))
  }

  /** What the archive, and the disk before it, must be like: every member fits
      by itself, no two share a place, no file is in the way of another member,
      whichever comes first, and the declared total stays under the cap. */
  ghost predicate Extractable(files: map<Path, Bytes>, directories: set<Path>, members: seq<Member>, destination: Path, root: string) {
    && (forall m :: m in members ==> Fits(m, destination, root, files, directories))
    && NoRepeats(members, root) && DeclaredTotal(members, root) <= MAX_TOTAL
    && (forall a, b :: a in members && b in members ==> !Collide(a, b, root))
  }

  /** What the loop tests before it takes a member. */
  ghost predicate NextFits(member: Member, destination: Path, root: string, seen: set<Path>, files: map<Path, Bytes>,
                           directories: set<Path>, total: int) {
    && PlaceOf(member, root) !! seen && Fits(member, destination, root, files, directories)
    && total + DeclaredSize(member, root) <= MAX_TOTAL
  }

  ghost predicate WritesAt(member: Member, destination: Path, root: string, p: Path) {
    Placed(member, root) && member.kind.Regular? && p == destination + RelativeOf(member, root)
  }

  /** The disk once the members have been extracted. */
  ghost predicate Layout(files: map<Path, Bytes>, directories: set<Path>, nowFiles: map<Path, Bytes>, nowDirectories: set<Path>,
                         members: seq<Member>, destination: Path, root: string) {
    && (forall p :: p in nowFiles <==> p in files || exists m :: m in members && WritesAt(m, destination, root, p))
    && (forall p :: p in nowDirectories <==> p in directories || exists m :: m in members && p in DirectoriesOf(m, destination, root))
  }

  lemma UnderDestination(destination: Path, a: Path, b: Path)
    ensures destination + a == destination + b <==> a == b
    ensures Below(destination + a, destination + b) <==> Below(a, b)
  {
    var x, y := destination + a, destination + b;
    assert x[|destination|..] == a && y[|destination|..] == b;
    if |a| < |b| {
      assert y[..|x|] == destination + b[..|a|];
      assert (destination + b[..|a|])[|destination|..] == b[..|a|];
    }
  }

  lemma InPrefixes(path: Path, p: Path)
    ensures p in Prefixes(path) <==> p == path || Below(p, path)
  {
    if p == path {
      assert path[..|path|] == path;
    }
  }

  lemma InParents(path: Path, p: Path)
    requires path != []
    ensures p in Prefixes(Parent(path)) <==> Below(p, path)
  {
    InPrefixes(Parent(path), p);
    if Below(p, path) && |p| < |path| - 1 {
      assert Parent(path)[..|p|] == path[..|p|];
    }
    if Below(p, Parent(path)) {
      assert Parent(path)[..|p|] == path[..|p|];
    }
  }

  lemma RelativeIsNotEmpty(name: string, root: string)
    requires SafeRelativeMember(name, root).Inside?
    ensures SafeRelativeMember(name, root).relative != []
  {
  }

  /** An earlier member makes the later one's path a directory exactly when the
      later one lies above it (or at it, if that is a directory). */
  lemma MakesPath(earlier: Member, destination: Path, root: string, relative: Path)
    requires Placed(earlier, root) && RelativeOf(earlier, root) != relative
    ensures destination + relative in DirectoriesOf(earlier, destination, root) <==> Below(relative, RelativeOf(earlier, root))
  {
    var at := destination + RelativeOf(earlier, root);
    RelativeIsNotEmpty(earlier.name, root);
    UnderDestination(destination, relative, RelativeOf(earlier, root));
    InPrefixes(at, destination + relative);
    InParents(at, destination + relative);
  }

  lemma {:induction false} PlacesHold(members: seq<Member>, root: string, relative: Path)
    ensures relative in Places(members, root) <==> exists m :: m in members && Placed(m, root) && RelativeOf(m, root) == relative
  {
    if members != [] {
      var front, last := members[..|members| - 1], members[|members| - 1];
      assert members == front + [last];
      PlacesHold(front, root, relative);
      assert relative in PlaceOf(last, root) <==> Placed(last, root) && RelativeOf(last, root) == relative;
      assert forall m :: m in members <==> m in front || m == last;
    }
  }

  lemma NothingAbove(files: map<Path, Bytes>, at: Path, path: Path)
    requires Clear(files, path) && at in files
    ensures !Below(at, path)
  {
  }

  /** A file stands in the member's way now iff it did before or an earlier member put it there. */
  lemma ClearNow(files: map<Path, Bytes>, nowFiles: map<Path, Bytes>, members: seq<Member>, member: Member, destination: Path, root: string)
    requires Placed(member, root) && RelativeOf(member, root) !in Places(members, root)
    requires forall p :: p in nowFiles <==> p in files || exists m :: m in members && WritesAt(m, destination, root, p)
    ensures var path := destination + RelativeOf(member, root);
            Clear(nowFiles, path) <==> Clear(files, path) && forall a :: a in members ==> !Collide(a, member, root)
  {
    var relative := RelativeOf(member, root);
    var path := destination + relative;
    PlacesHold(members, root, relative);
    if Clear(nowFiles, path) {
      forall a | a in members ensures !Collide(a, member, root) {
        if Placed(a, root) && a.kind.Regular? {
          var at := destination + RelativeOf(a, root);
          UnderDestination(destination, RelativeOf(a, root), relative);
          assert WritesAt(a, destination, root, at);
          NothingAbove(nowFiles, at, path);
        }
      }
    }
    if Clear(files, path) && forall a :: a in members ==> !Collide(a, member, root) {
      forall k | 0 <= k <= |path| ensures path[..k] !in nowFiles {
        forall a | a in members ensures !WritesAt(a, destination, root, path[..k]) {
          if Placed(a, root) && a.kind.Regular? {
            UnderDestination(destination, RelativeOf(a, root), relative);
            assert k == |path| ==> path[..k] == path;
          }
        }
      }
    }
  }

  lemma DirectoryNow(directories: set<Path>, nowDirectories: set<Path>, members: seq<Member>, member: Member, destination: Path, root: string)
    requires Placed(member, root) && member.kind.Regular? && RelativeOf(member, root) !in Places(members, root)
    requires forall p :: p in nowDirectories <==> p in directories || exists m :: m in members && p in DirectoriesOf(m, destination, root)
    ensures var path := destination + RelativeOf(member, root);
            path !in nowDirectories <==> path !in directories && forall a :: a in members ==> !Collide(member, a, root)
  {
    var relative := RelativeOf(member, root);
    PlacesHold(members, root, relative);
    forall a | a in members
      ensures destination + relative in DirectoriesOf(a, destination, root) <==> Collide(member, a, root)
    {
      if Placed(a, root) {
        MakesPath(a, destination, root, relative);
      }
    }
  }

  /** The loop's test of the next member, against the disk as it then is, is the
      declarative one against the disk as it was and the members before. */
  lemma FitsNow(files: map<Path, Bytes>, directories: set<Path>, nowFiles: map<Path, Bytes>, nowDirectories: set<Path>,
                members: seq<Member>, member: Member, destination: Path, root: string)
    requires Layout(files, directories, nowFiles, nowDirectories, members, destination, root)
    requires PlaceOf(member, root) !! Places(members, root)
    ensures Fits(member, destination, root, nowFiles, nowDirectories) <==>
            && Fits(member, destination, root, files, directories)
            && forall a :: a in members ==> !Collide(a, member, root) && !Collide(member, a, root)
  {
    if Placed(member, root) {
      ClearNow(files, nowFiles, members, member, destination, root);
      if member.kind.Regular? {
        DirectoryNow(directories, nowDirectories, members, member, destination, root);
      }
    }
  }

  lemma NextDecides(files: map<Path, Bytes>, directories: set<Path>, nowFiles: map<Path, Bytes>, nowDirectories: set<Path>,
                    front: seq<Member>, member: Member, destination: Path, root: string)
    requires Layout(files, directories, nowFiles, nowDirectories, front, destination, root)
    ensures Extractable(files, directories, front + [member], destination, root) <==>
            && Extractable(files, directories, front, destination, root)
            && NextFits(member, destination, root, Places(front, root), nowFiles, nowDirectories, DeclaredTotal(front, root))
  {
    OneMoreMember(front, member, destination, root);
    assert forall m :: m in front + [member] <==> m in front || m == member;
    if PlaceOf(member, root) !! Places(front, root) {
      FitsNow(files, directories, nowFiles, nowDirectories, front, member, destination, root);
    }
  }

  lemma ShorterIsExtractable(files: map<Path, Bytes>, directories: set<Path>, front: seq<Member>, last: Member,
                             destination: Path, root: string)
    requires Extractable(files, directories, front + [last], destination, root)
    ensures Extractable(files, directories, front, destination, root)
  {
    OneMoreMember(front, last, destination, root);
    assert last in front + [last] && forall m :: m in front ==> m in front + [last];
  }

  lemma {:induction false} PrefixIsExtractable(files: map<Path, Bytes>, directories: set<Path>, members: seq<Member>, i: nat,
                                                 destination: Path, root: string)
    requires i <= |members|
    ensures Extractable(files, directories, members, destination, root) ==>
              Extractable(files, directories, members[..i], destination, root)
    decreases |members|
  {
    if i == |members| {
      assert members[..i] == members;
    } else if Extractable(files, directories, members, destination, root) {
      var front := members[..|members| - 1];
      assert members == front + [members[|members| - 1]] && front[..i] == members[..i];
      ShorterIsExtractable(files, directories, front, members[|members| - 1], destination, root);
      PrefixIsExtractable(files, directories, front, i, destination, root);
    }
  }

  /** One more member extracted. */
  lemma LayoutMore(files: map<Path, Bytes>, directories: set<Path>, nowFiles: map<Path, Bytes>, nowDirectories: set<Path>,
                   front: seq<Member>, member: Member, destination: Path, root: string,
                   thenFiles: map<Path, Bytes>, thenDirectories: set<Path>)
    requires Layout(files, directories, nowFiles, nowDirectories, front, destination, root)
    requires thenFiles == Apply(nowFiles, FileOf(member, destination, root))
    requires thenDirectories == nowDirectories + DirectoriesOf(member, destination, root)
    ensures Layout(files, directories, thenFiles, thenDirectories, front + [member], destination, root)
  {
    assert forall m :: m in front + [member] <==> m in front || m == member;
    var file := FileOf(member, destination, root);
    if file != [] {
      assert file[..0] == [];
    }
    assert forall p :: p in thenFiles <==> p in nowFiles || WritesAt(member, destination, root, p);
  }

  /** Directories made are above the destination, at it, or beneath it. */
  ghost predicate MakesOnly(before: set<Path>, now: set<Path>, destination: Path) {
    before <= now && forall d :: d in now && d !in before ==> d in Prefixes(destination) || Beneath(destination, d)
  }

  lemma DirectoriesOfMember(member: Member, destination: Path, root: string, d: Path)
    requires d in DirectoriesOf(member, destination, root)
    ensures d in Prefixes(destination) || Beneath(destination, d)
  {
    var relative := RelativeOf(member, root);
    var path := destination + relative;
    AcceptedMembersStayBeneath(member.name, root, destination);
    assert d == path[..|d|];
    if |d| <= |destination| {
      assert d == destination[..|d|];
    } else {
      assert d[..|destination|] == destination && d[|destination|..] == relative[..|d| - |destination|];
    }
  }

  lemma MakesMore(before: set<Path>, now: set<Path>, later: set<Path>, member: Member, destination: Path, root: string)
    requires MakesOnly(before, now, destination) && now <= later <= now + DirectoriesOf(member, destination, root)
    ensures MakesOnly(before, later, destination)
  {
    forall d | d in later && d !in now ensures d in Prefixes(destination) || Beneath(destination, d) {
      DirectoriesOfMember(member, destination, root, d);
    }
  }

  /** What the loop over the members keeps of the whole disk. */
  ghost predicate DiskProgress(files: map<Path, Bytes>, directories: set<Path>, nowFiles: map<Path, Bytes>, nowDirectories: set<Path>,
                               front: seq<Member>, destination: Path, root: string,
                               written: seq<Stored>, total: int, seen: set<Path>) {
    && Progress(files, nowFiles, front, destination, root, written, total, seen)
    && Layout(files, directories, nowFiles, nowDirectories, front, destination, root)
    && MakesOnly(directories, nowDirectories, destination)
  }

  lemma DiskProgressMore(files: map<Path, Bytes>, directories: set<Path>, nowFiles: map<Path, Bytes>, nowDirectories: set<Path>,
                         front: seq<Member>, member: Member, destination: Path, root: string,
                         written: seq<Stored>, total: int, seen: set<Path>, part: seq<Stored>,
                         thenFiles: map<Path, Bytes>, thenDirectories: set<Path>)
    requires DiskProgress(files, directories, nowFiles, nowDirectories, front, destination, root, written, total, seen)
    requires thenFiles == Apply(nowFiles, part) && AtPlace(part, SafeRelativeMember(member.name, root), destination, nowFiles)
    requires total + Sum(part) <= MAX_TOTAL && part == FileOf(member, destination, root)
    requires DeclaredSize(member, root) == Sum(part) && PlaceOf(member, root) !! seen
    requires thenDirectories == nowDirectories + DirectoriesOf(member, destination, root)
    ensures DiskProgress(files, directories, thenFiles, thenDirectories, front + [member], destination, root, written + part,
                         total + Sum(part), seen + PlaceOf(member, root))
  {
    ProgressMore(files, nowFiles, front, member, destination, root, written, total, seen, part, thenFiles);
    LayoutMore(files, directories, nowFiles, nowDirectories, front, member, destination, root, thenFiles, thenDirectories);
    MakesMore(directories, nowDirectories, thenDirectories, member, destination, root);
  }

  /** A member that failed still left only what extraction may leave. */
  lemma FailedMember(files: map<Path, Bytes>, directories: set<Path>, nowFiles: map<Path, Bytes>, nowDirectories: set<Path>,
                     front: seq<Member>, member: Member, destination: Path, root: string,
                     written: seq<Stored>, total: int, seen: set<Path>, part: seq<Stored>,
                     thenFiles: map<Path, Bytes>, thenDirectories: set<Path>)
    requires DiskProgress(files, directories, nowFiles, nowDirectories, front, destination, root, written, total, seen)
    requires thenFiles == Apply(nowFiles, part) && AtPlace(part, SafeRelativeMember(member.name, root), destination, nowFiles)
    requires total + Sum(part) <= MAX_TOTAL
    requires nowDirectories <= thenDirectories <= nowDirectories + DirectoriesOf(member, destination, root)
    ensures Adds(files, thenFiles, written + part, destination) && MakesOnly(directories, thenDirectories, destination)
  {
    AddsMore(files, nowFiles, written, part, thenFiles, SafeRelativeMember(member.name, root), destination);
    MakesMore(directories, nowDirectories, thenDirectories, member, destination, root);
  }

  /** The way to a file is clear when that to its directory is, and the file is not there;
      and making that directory does not make the file's place one. */
  lemma ParentIsAbove(files: map<Path, Bytes>, directories: set<Path>, path: Path)
    requires path != []
    ensures Clear(files, path) <==> Clear(files, Parent(path)) && path !in files
    ensures path in directories + Prefixes(Parent(path)) <==> path in directories
  {
    InParents(path, path);
    assert path[..|path|] == path;
    forall k | 0 <= k < |path| ensures path[..k] == Parent(path)[..k] {
    }
  }

  function RequiredFiles(destination: Path): set<Path> {
    {destination + ["CMakeLists.txt"], destination + ["LICENSE"], destination + ["ggml", "CMakeLists.txt"]}
  }

  lemma PrefixGrows(content: Bytes, stored: Bytes, rest: Bytes, chunk: Bytes, part: Bytes)
    requires stored + rest == content && chunk <= rest && part <= chunk
    ensures stored + part <= content && (stored + chunk) + rest[|chunk|..] == content
  {
  }

  lemma TakenOneMore(members: seq<Member>, i: nat)
    requires i < |members|
    ensures members[..i + 1] == members[..i] + [members[i]]
  {
  }

  class Disk {
    var files: map<Path, Bytes>
    var directories: set<Path>
    /** On a quiet system no call fails of itself, and nothing of higher priority runs. */
    const quiet: bool

    /** Opens a file where nothing may exist (O_CREAT | O_EXCL); may also fail otherwise. */
    method Create(path: Path) returns (ok: bool)
      modifies `files
      ensures ok ==> path !in old(files) && files == old(files)[path := []]
      ensures !ok ==> files == old(files)
      ensures quiet ==> (ok <==> path !in old(files) && path !in directories)
    {
      var failed := Fails(quiet);
      ok := !failed && path !in files && path !in directories;
      if ok {
        files := files[path := []];
      }
    }

    /** Makes a directory and those above it, where they are not there yet. */
    method MakeDirectories(path: Path) returns (ok: bool)
      modifies `directories
      ensures old(directories) <= directories <= old(directories) + Prefixes(path)
      ensures ok ==> directories == old(directories) + Prefixes(path) && Clear(files, path)
      ensures quiet ==> (ok <==> Clear(files, path))
    {
      for k := 0 to |path| + 1
        invariant directories == old(directories) + set j | 0 <= j < k && j <= |path| :: path[..j]
        invariant forall j :: 0 <= j < k ==> path[..j] !in files
      {
        var failed := Fails(quiet);
        if failed || path[..k] in files {
          return false;
        }
        directories := directories + {path[..k]};
      }
      ok := true;
    }

    /** Writes a chunk in as many partial writes as the system takes. */
    method WriteAll(path: Path, chunk: Bytes) returns (ok: bool, ghost stored: Bytes)
      requires path in files
      modifies `files
      ensures stored <= chunk && (ok ==> stored == chunk) && (quiet ==> ok)
      ensures files == old(files)[path := old(files)[path] + stored]
    {
      var view := chunk;
      stored := [];
      ghost var begun := files[path];
      assert begun + stored == begun;
      while view != []
        invariant stored + view == chunk && files == old(files)[path := begun + stored]
        decreases |view|
      {
        var written: nat :| written <= |view| && (quiet ==> written > 0);
        if written == 0 {
          return false, stored;
        }
        files := files[path := files[path] + view[..written]];
        assert begun + stored + view[..written] == begun + (stored + view[..written]);
        stored, view := stored + view[..written], view[written..];
      }
      ok := true;
    }

    /** Copies one member's stream into its open file, in chunks. */
    method CopyMember(member: Member, path: Path, sinceBefore: nat, ghost before: seq<Event>)
      returns (reason: Option<Reason>, since: nat, ghost stored: Bytes, ghost trace: seq<Event>)
      requires path in files && files[path] == [] && member.size >= 0
      requires Watched(before) && SinceCheck(before) <= sinceBefore < RECHECK
      modifies `files
      ensures files == old(files)[path := stored]
      ensures stored <= member.content && |stored| <= member.size
      ensures reason.None? ==> stored == member.content && |stored| == member.size
      ensures quiet ==> (reason.None? <==> |member.content| == member.size)
      ensures Watched(trace) && before <= trace && (reason.None? ==> SinceCheck(trace) <= since < RECHECK)
    {
      var remaining, rest := member.size, member.content;
      since, stored, trace := sinceBefore, [], before;
      while remaining > 0
        invariant files == old(files)[path := stored] && stored + rest == member.content
        invariant 0 <= remaining == member.size - |stored|
        invariant Watched(trace) && before <= trace && SinceCheck(trace) <= since < RECHECK
      {
        var chunk := Read(rest, if remaining < CHUNK then remaining else CHUNK);
        if chunk == [] {
          return Some(Truncated), since, stored, trace;
        }
        var ok, part := WriteAll(path, chunk);
        PrefixGrows(member.content, stored, rest, chunk, part);
        stored := stored + part;
        if !ok {
          return Some(FileSystem), since, stored, trace;
        }
        rest, remaining, since := rest[|chunk|..], remaining - |chunk|, since + |chunk|;
        WatchedOneMore(trace, Moved(|chunk|));
        trace := trace + [Moved(|chunk|)];
        if since >= RECHECK {
          var blocked;
          blocked, trace := PriorityCheck(quiet, trace);
          if blocked {
            return Some(Preempted), since, stored, trace;
          }
          since := 0;
        }
      }
      reason := if rest != [] then Some(Oversized) else None;
    }

    /** One turn of the loop over the members, once its place is known. */
    method ExtractMember(member: Member, path: Path, totalBefore: nat, sinceBefore: nat, ghost before: seq<Event>)
      returns (reason: Option<Reason>, total: nat, since: nat, ghost written: seq<Stored>, ghost trace: seq<Event>)
      requires Watched(before) && SinceCheck(before) <= sinceBefore < RECHECK && totalBefore <= MAX_TOTAL && path != []
      modifies this
      ensures files == Apply(old(files), written) && |written| <= 1
      ensures forall w :: w in written ==> w.path == path && path !in old(files)
      ensures totalBefore + Sum(written) <= MAX_TOTAL
      ensures Watched(trace) && before <= trace
      ensures reason.None? ==> total <= MAX_TOTAL && SinceCheck(trace) <= since < RECHECK
      ensures reason.None? ==> if member.kind.Directory? then written == [] && total == totalBefore
                               else member.kind.Regular? && written == [Stored(path, member.content)] && |member.content| == member.size
                                    && 0 <= member.size <= MAX_FILE && total == totalBefore + member.size
      ensures old(directories) <= directories <= old(directories) + Prefixes(DirectoryFor(member, path))
      ensures reason.None? ==> directories == old(directories) + Prefixes(DirectoryFor(member, path))
      ensures quiet ==> (reason.None? <==> MemberFits(member, path, old(files), old(directories))
                                           && (member.kind.Regular? ==> totalBefore + member.size <= MAX_TOTAL))
    {
      total, since, written, trace := totalBefore, sinceBefore, [], before;
      if member.kind.Directory? {
        var made := MakeDirectories(path);
        return (if made then None else Some(FileSystem)), total, since, written, trace;
      }
      if !member.kind.Regular? {
        return Some(LinkOrSpecial), total, since, written, trace;
      }
      if member.size < 0 || member.size > MAX_FILE {
        return Some(FileTooLarge), total, since, written, trace;
      }
      if total + member.size > MAX_TOTAL {
        return Some(ArchiveTooLarge), total, since, written, trace;
      }
      total := total + member.size;
      var made := MakeDirectories(Parent(path));
      ParentIsAbove(files, old(directories), path);
      if !made {
        return Some(FileSystem), total, since, written, trace;
      }
      if !member.readable {
        return Some(Unreadable), total, since, written, trace;
      }
      var ok := Create(path);
      if !ok {
        return Some(FileSystem), total, since, written, trace;
      }
      ghost var stored;
      reason, since, stored, trace := CopyMember(member, path, since, trace);
      written := [Stored(path, stored)];
      assert written[..0] == [];
    }

    /** One turn of the loop over the members. */
    method ExtractNext(member: Member, destination: Path, root: string, seen: set<Path>, totalBefore: nat,
                       sinceBefore: nat, ghost before: seq<Event>)
      returns (reason: Option<Reason>, met: set<Path>, total: nat, since: nat, ghost part: seq<Stored>, ghost trace: seq<Event>)
      requires Watched(before) && SinceCheck(before) <= sinceBefore && totalBefore <= MAX_TOTAL
      modifies this
      ensures files == Apply(old(files), part) && AtPlace(part, SafeRelativeMember(member.name, root), destination, old(files))
      ensures totalBefore + Sum(part) <= MAX_TOTAL && Watched(trace)
      ensures reason.None? ==> SinceCheck(trace) <= since < RECHECK && part == FileOf(member, destination, root)
      ensures reason.None? ==> total == totalBefore + DeclaredSize(member, root) == totalBefore + Sum(part)
      ensures reason.None? ==> met == seen + PlaceOf(member, root) && PlaceOf(member, root) !! seen
      ensures old(directories) <= directories <= old(directories) + DirectoriesOf(member, destination, root)
      ensures reason.None? ==> directories == old(directories) + DirectoriesOf(member, destination, root)
      ensures quiet ==> (reason.None? <==> NextFits(member, destination, root, seen, old(files), old(directories), totalBefore))
    {
      met, total, since, part, trace := seen, totalBefore, sinceBefore, [], before;
      if since >= RECHECK {
        var blocked;
        blocked, trace := PriorityCheck(quiet, trace);
        if blocked {
          return Some(Preempted), met, total, since, part, trace;
        }
        since := 0;
      }
      var place := SafeRelativeMember(member.name, root);
      if place.Rejected? {
        return Some(place.reason), met, total, since, part, trace;
      }
      if place.Root? {
        reason := if member.kind.Directory? then None else Some(RootNotDirectory);
        return;
      }
      if place.relative in seen {
        return Some(Repeated), met, total, since, part, trace;
      }
      RelativeIsNotEmpty(member.name, root);
      met := seen + {place.relative};
      reason, total, since, part, trace := ExtractMember(member, destination + place.relative, total, since, trace);
      AcceptedMembersStayBeneath(member.name, root, destination);
      BeneathByParts(destination, place.relative);
    }

    /** One turn, with what it adds to the whole. */
    method ExtractTurn(ghost begun: map<Path, Bytes>, ghost made: set<Path>, ghost front: seq<Member>, member: Member,
                       destination: Path, root: string, seen: set<Path>, totalBefore: nat, sinceBefore: nat,
                       ghost writtenBefore: seq<Stored>, ghost before: seq<Event>)
      returns (reason: Option<Reason>, met: set<Path>, total: nat, since: nat, ghost written: seq<Stored>, ghost trace: seq<Event>)
      requires Watched(before) && SinceCheck(before) <= sinceBefore && totalBefore <= MAX_TOTAL
      requires DiskProgress(begun, made, files, directories, front, destination, root, writtenBefore, totalBefore, seen)
      requires quiet ==> Extractable(begun, made, front, destination, root)
      modifies this
      ensures Adds(begun, files, written, destination) && MakesOnly(made, directories, destination) && Watched(trace)
      ensures reason.None? ==> SinceCheck(trace) <= since
      ensures reason.None? ==>
                DiskProgress(begun, made, files, directories, front + [member], destination, root, written, total, met)
      ensures quiet ==> (reason.None? <==> Extractable(begun, made, front + [member], destination, root))
    {
      NextDecides(begun, made, files, directories, front, member, destination, root);
      ghost var part;
      reason, met, total, since, part, trace := ExtractNext(member, destination, root, seen, totalBefore, sinceBefore, before);
      written := writtenBefore + part;
      if reason.Some? {
        FailedMember(begun, made, old(files), old(directories), front, member, destination, root, writtenBefore, totalBefore, seen,
                     part, files, directories);
      } else {
        DiskProgressMore(begun, made, old(files), old(directories), front, member, destination, root, writtenBefore, totalBefore,
                         seen, part, files, directories);
      }
    }

    /** The loop over the members. */
    method ExtractMembers(members: seq<Member>, destination: Path, root: string)
      returns (reason: Option<Reason>, ghost written: seq<Stored>, ghost trace: seq<Event>)
      modifies this
      ensures Adds(old(files), files, written, destination) && MakesOnly(old(directories), directories, destination)
      ensures Watched(trace)
      ensures reason.None? ==> written == FilesOf(members, destination, root)
                               && Sum(written) == DeclaredTotal(members, root) && NoRepeats(members, root)
      ensures quiet ==> (reason.None? <==> Extractable(old(files), old(directories), members, destination, root))
    {
      reason, written, trace := None, [], [];
      var seen: set<Path>, total, since := {}, 0, RECHECK;
      ghost var front := [];
      for i := 0 to |members|
        invariant reason.None? && Watched(trace) && SinceCheck(trace) <= since && front == members[..i]
        invariant DiskProgress(old(files), old(directories), files, directories, front, destination, root, written, total, seen)
        invariant quiet ==> Extractable(old(files), old(directories), front, destination, root)
      {
        reason, seen, total, since, written, trace :=
          ExtractTurn(old(files), old(directories), front, members[i], destination, root, seen, total, since, written, trace);
        TakenOneMore(members, i);
        front := front + [members[i]];
        if reason.Some? {
          PrefixIsExtractable(old(files), old(directories), members, i + 1, destination, root);
          return;
        }
      }
      assert members[..|members|] == members;
    }

    method ExtractSource(members: seq<Member>, destination: Path, root: string)
      returns (outcome: Outcome, ghost written: seq<Stored>, ghost trace: seq<Event>)
      modifies this
      ensures Adds(old(files), files, written, destination) && Watched(trace)
      ensures MakesOnly(old(directories), directories, destination)
      ensures outcome.Extracted? ==> |members| <= MAX_MEMBERS && written == FilesOf(members, destination, root)
                                     && Sum(written) == DeclaredTotal(members, root) && NoRepeats(members, root)
                                     && trace != [] && trace[|trace| - 1] == Check && RequiredFiles(destination) <= files.Keys
      ensures quiet ==> (outcome.Extracted? <==>
                           && |members| <= MAX_MEMBERS
                           && Extractable(old(files), old(directories), members, destination, root)
                           && RequiredFiles(destination) <= Apply(old(files), FilesOf(members, destination, root)).Keys)
    {
      if |members| > MAX_MEMBERS {
        return Refused(TooManyMembers), [], [];
      }
      var reason;
      reason, written, trace := ExtractMembers(members, destination, root);
      if reason.Some? {
        return Refused(reason.value), written, trace;
      }
      var blocked;
      blocked, trace := PriorityCheck(quiet, trace);
      if blocked {
        return Refused(Preempted), written, trace;
      }
      var complete := HasRequired(destination);
      outcome := if complete then Extracted else Refused(RequiredMissing);
    }

    method HasRequired(destination: Path) returns (complete: bool)
      ensures complete <==> RequiredFiles(destination) <= files.Keys
    {
      complete := destination + ["CMakeLists.txt"] in files && destination + ["LICENSE"] in files
                  && destination + ["ggml", "CMakeLists.txt"] in files;
    }
  }

  /** One more file after those already written. */
  lemma ApplyOne(files: map<Path, Bytes>, written: seq<Stored>, w: Stored)
    requires WrittenOnce(files, written) && w.path !in Apply(files, written)
    ensures Apply(files, written + [w]) == Apply(files, written)[w.path := w.content]
    ensures WrittenOnce(files, written + [w]) && Sum(written + [w]) == Sum(written) + |w.content|
  {
    assert (written + [w])[..|written|] == written;
    ApplyKeeps(files, written, w.path);
  }

  lemma ApplyMore(files: map<Path, Bytes>, written: seq<Stored>, part: seq<Stored>, path: Path, now: map<Path, Bytes>)
    requires now == Apply(files, written) && WrittenOnce(files, written) && |part| <= 1
    requires forall w :: w in part ==> w.path == path && path !in now
    ensures Apply(files, written + part) == Apply(now, part) && WrittenOnce(files, written + part)
    ensures Sum(written + part) == Sum(written) + Sum(part)
  {
    if part == [] {
      assert written + part == written;
    } else {
      assert part == [part[0]] && part[0] in part && part[..0] == [];
      ApplyOne(files, written, part[0]);
    }
  }

  lemma {:induction false} AppliedContent(files: map<Path, Bytes>, written: seq<Stored>)
    requires WrittenOnce(files, written)
    ensures forall p :: p in files ==> p in Apply(files, written) && Apply(files, written)[p] == files[p]
    ensures forall w :: w in written ==> w.path in Apply(files, written) && Apply(files, written)[w.path] == w.content
  {
    if written != [] {
      var front, last := written[..|written| - 1], written[|written| - 1];
      assert forall i :: 0 <= i < |front| ==> front[i] == written[i];
      AppliedContent(files, front);
      assert forall w :: w in written ==> w in front || w == last;
      forall w | w in front ensures w.path != last.path {
        var i :| 0 <= i < |front| && front[i] == w;
        assert written[i].path != written[|written| - 1].path;
      }
    }
  }

  /** What extraction leaves on the disk: every file that was there is as it
      was, and every other file lies beneath the destination. */
  lemma ExtractionTouchesNothingElse(before: map<Path, Bytes>, now: map<Path, Bytes>, written: seq<Stored>, destination: Path)
    requires Adds(before, now, written, destination)
    ensures forall p :: p in before ==> p in now && now[p] == before[p]
    ensures forall p :: p in now && p !in before ==> Beneath(destination, p)
    ensures forall w :: w in written ==> w.path in now && now[w.path] == w.content
  {
    AppliedContent(before, written);
    forall p | p in now && p !in before ensures Beneath(destination, p) {
      ApplyKeeps(before, written, p);
      var i :| 0 <= i < |written| && written[i].path == p;
      assert written[i] in written;
    }
  }
}
