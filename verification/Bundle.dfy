/**
 Planning a release archive (`xtask/src/bundle.rs`): what the manifests of the shipped packages have
 to agree on, which files are planned, and which directories those need.
 */
module Bundle {
  import opened Names
  import Templates
  import opened Wrappers

  /** The documents beside the binaries. */
  const DOCUMENTS := ["LICENSE-MIT", "LICENSE-APACHE", "README.md"]

  // ---------------------------------------------------------------- paths

  /** Where the last separator of a path is. */
  function LastSlash(path: string): (at: Option<nat>)
    ensures at.None? ==> '/' !in path
    ensures at.Some? ==> at.value < |path| && path[at.value] == '/' && '/' !in path[at.value + 1..]
  {
    if path == "" then None
    else if path[|path| - 1] == '/' then Some(|path| - 1)
    else
      var before := LastSlash(path[..|path| - 1]);
      assert before.Some? ==> path[before.value + 1..] == path[..|path| - 1][before.value + 1..] + [path[|path| - 1]];
      before
  }

  lemma {:induction false} LastSlashIs(path: string, at: nat)
    requires at < |path| && path[at] == '/' && '/' !in path[at + 1..]
    ensures LastSlash(path) == Some(at)
  {
  }

  /** Everything before the last slash of `path`; nothing where it has none. */
  function Parent(path: string): (parent: string)
    ensures parent != "" ==> parent < path
  {
    match LastSlash(path)
    case Some(at) => path[..at]
    case None => ""
  }

  /** The segments of a path. */
  function Segments(path: string): seq<string>
    decreases |path|
  {
    match LastSlash(path)
    case Some(at) => Segments(path[..at]) + [path[at + 1..]]
    case None => [path]
  }

  /** Whether a path stays inside the archive: no segment is empty or steps out. */
  predicate Inside(path: string) {
    forall segment | segment in Segments(path) :: segment != "" && segment != "." && segment != ".."
  }

  /** A path inside the archive sits in a directory inside it. */
  lemma ParentIsInside(path: string)
    requires Inside(path)
    ensures Parent(path) == "" || Inside(Parent(path))
  {
    if LastSlash(path).Some? {
      var at := LastSlash(path).value;
      assert forall segment | segment in Segments(path[..at]) :: segment in Segments(path);
    }
  }

  /** Where a file of a directory goes. */
  function Beside(directory: string, name: string): string {
    if directory == "" then name else directory + "/" + name
  }

  /** A file in a directory has that directory as its parent, and one more segment than it. */
  lemma BesideIsIn(directory: string, name: string)
    requires '/' !in name
    ensures Parent(Beside(directory, name)) == directory
    ensures Segments(Beside(directory, name)) == (if directory == "" then [] else Segments(directory)) + [name]
  {
    var path := Beside(directory, name);
    if directory == "" {
      assert LastSlash(path).None?;
    } else {
      assert path[|directory|] == '/' && path[|directory| + 1..] == name;
      LastSlashIs(path, |directory|);
      assert path[..|directory|] == directory;
    }
  }

  /** A directory and every one above it, up to the top. */
  function Above(directory: string): set<string>
    decreases |directory|
  {
    if directory == "" then {} else {directory} + Above(Parent(directory))
  }

  lemma {:induction false} AboveIsClosed(directory: string)
    ensures forall above | above in Above(directory) ::
              above != "" && above <= directory && (Parent(above) == "" || Parent(above) in Above(directory))
    ensures directory == "" || Inside(directory) ==> forall above | above in Above(directory) :: Inside(above)
    decreases |directory|
  {
    hide Segments;
    if directory != "" {
      var parent := Parent(directory);
      AboveIsClosed(parent);
      if parent != "" { assert parent in Above(parent); }
      if Inside(directory) { ParentIsInside(directory); }
    }
  }

  // ---------------------------------------------------------------- packages

  /** The binstall table of a package: the keys this command reads. */
  datatype Binstall = Binstall(pkgUrl: string, pkgFmt: string, binDir: string)

  datatype Table = Absent | Unread | Read(binstall: Binstall)

  datatype Package = Package(name: string, version: string, repository: Option<string>, published: bool,
      binaries: seq<string>, table: Table)

  datatype Program = Program(path: string, package: string, binary: string, version: string)

  datatype Document = Document(name: string, path: string)

  datatype Plan = Plan(target: string, archive: string, programs: seq<Program>, documents: seq<Document>,
      directories: seq<string>)

  datatype BundleError =
    | Unannounced | Unreadable | Format | Template | ArchiveName | Archives | NothingShipped
    | Path | Directories | Twice

  predicate Ships(package: Package) {
    package.published && package.binaries != []
  }

  function ValuesOf(package: Package, target: string, bin: Option<string>): Templates.Values {
    Templates.Values(package.name, package.version, package.repository, target, bin)
  }

  predicate EndsWith(name: string, suffix: string) {
    |name| > |suffix| && name[|name| - |suffix|..] == suffix
  }

  /** Whether a file name is that of a gzipped tar archive and nothing a URL adds to it. */
  predicate ArchiveFile(name: string) {
    (EndsWith(name, ".tar.gz") || EndsWith(name, ".tgz")) && '?' !in name && '#' !in name
  }

  function FileName(url: string): string {
    match LastSlash(url)
    case Some(at) => url[at + 1..]
    case None => url
  }

  /** Whether the table of a shipped package can be read, and is of the format this command makes. */
  predicate Announced(package: Package) {
    package.table.Read? && package.table.binstall.pkgFmt == "tgz"
  }

  /** The archive a shipped package's URL names. */
  function ArchiveOf(package: Package, target: string): Option<string>
    requires Announced(package)
  {
    match Templates.Filled(package.table.binstall.pkgUrl, ValuesOf(package, target, None))
    case Ok(url) => if ArchiveFile(FileName(url)) then Some(FileName(url)) else None
    case Err(_) => None
  }

  /** Where a binary of a shipped package goes. */
  function PathOf(package: Package, binary: string, target: string): Option<string>
    requires Announced(package)
  {
    match Templates.Filled(package.table.binstall.binDir, ValuesOf(package, target, Some(binary)))
    case Ok(path) => Some(path)
    case Err(_) => None
  }

  /** Whether a shipped package names an archive and a place inside it for every binary. */
  predicate Placed(package: Package, target: string) {
    && Announced(package) && ArchiveOf(package, target).Some?
    && forall i :: 0 <= i < |package.binaries| ==>
         PathOf(package, package.binaries[i], target).Some?
             && Inside(PathOf(package, package.binaries[i], target).value)
  }

  function ProgramOf(package: Package, binary: string, target: string): Program {
    var path := if Announced(package) then PathOf(package, binary, target) else None;
    Program(if path.Some? then path.value else "", package.name, binary, package.version)
  }

  function ProgramsOf(package: Package, target: string): seq<Program> {
    seq(|package.binaries|, i requires 0 <= i < |package.binaries| => ProgramOf(package, package.binaries[i], target))
  }

  /** Every binary of every shipped package. */
  function AllPrograms(packages: seq<Package>, target: string): seq<Program> {
    if packages == [] then []
    else
      var last := packages[|packages| - 1];
      AllPrograms(packages[..|packages| - 1], target) + if Ships(last) then ProgramsOf(last, target) else []
  }

  // ---------------------------------------------------------------- the plan

  function Paths(programs: seq<Program>, documents: seq<Document>): seq<string> {
    seq(|programs|, i requires 0 <= i < |programs| => programs[i].path)
        + seq(|documents|, i requires 0 <= i < |documents| => documents[i].path)
  }

  function DocumentsIn(directory: string): seq<Document> {
    seq(|DOCUMENTS|, i requires 0 <= i < |DOCUMENTS| =>
      Document(DOCUMENTS[i], Beside(directory, DOCUMENTS[i])))
  }

  ghost predicate Distinct(paths: seq<string>) {
    forall i, j :: 0 <= i < j < |paths| ==> paths[i] != paths[j]
  }

  /** Programs in the order they are listed, by path. */
  ghost predicate ByPath(programs: seq<Program>) {
    forall i, j :: 0 <= i < j < |programs| ==> !Less(programs[j].path, programs[i].path)
  }

  /** Puts programs in order by path. */
  method Sort(programs: seq<Program>) returns (sorted: seq<Program>)
    ensures multiset(sorted) == multiset(programs) && ByPath(sorted)
  {
    sorted := [];
    for i := 0 to |programs|
      invariant multiset(sorted) == multiset(programs[..i]) && ByPath(sorted)
    {
      assert programs[..i + 1] == programs[..i] + [programs[i]];
      sorted := InsertByPath(sorted, programs[i]);
    }
    assert programs[..|programs|] == programs;
  }

  method InsertByPath(programs: seq<Program>, one: Program) returns (more: seq<Program>)
    requires ByPath(programs)
    ensures multiset(more) == multiset(programs) + multiset{one} && ByPath(more)
  {
    var k: nat := |programs|;
    while k > 0 && Less(one.path, programs[k - 1].path)
      invariant k <= |programs| && forall j | k <= j < |programs| :: Less(one.path, programs[j].path)
    {
      k := k - 1;
    }
    forall i | 0 <= i < k ensures !Less(one.path, programs[i].path) {
      if i < k - 1 { NotLessIsTransitive(programs[i].path, programs[k - 1].path, one.path); }
    }
    forall j | k <= j < |programs|
      ensures !Less(programs[j].path, one.path)
    {
      LessIsTotal(one.path, programs[j].path);
    }
    SplicedByPath(programs[..k], one, programs[k..]);
    assert programs == programs[..k] + programs[k..];
    more := programs[..k] + [one] + programs[k..];
  }

  lemma SplicedByPath(front: seq<Program>, one: Program, back: seq<Program>)
    requires ByPath(front + back)
    requires forall i | 0 <= i < |front| :: !Less(one.path, front[i].path)
    requires forall j | 0 <= j < |back| :: !Less(back[j].path, one.path)
    ensures ByPath(front + [one] + back)
  {
    hide Less;
    var whole, spliced := front + back, front + [one] + back;
    forall i, j | 0 <= i < j < |spliced| ensures !Less(spliced[j].path, spliced[i].path) {
      var i', j' := if i < |front| then i else i - 1, if j < |front| then j else j - 1;
      if i != |front| && j != |front| {
        assert spliced[i] == whole[i'] && spliced[j] == whole[j'];
      }
    }
  }

  /** Refuses two files at one path. */
  method RefuseTwice(paths: seq<string>) returns (distinct: bool)
    ensures distinct <==> Distinct(paths)
  {
    var seen: set<string> := {};
    for i := 0 to |paths|
      invariant Distinct(paths[..i]) && forall path :: path in seen <==> path in paths[..i]
    {
      assert paths[..i + 1] == paths[..i] + [paths[i]];
      if paths[i] in seen {
        ghost var j :| 0 <= j < i && paths[..i][j] == paths[i];
        assert paths[j] == paths[i];
        return false;
      }
      seen := seen + {paths[i]};
    }
    assert paths[..|paths|] == paths;
    return true;
  }

  /** Climbs from a directory to the top. */
  method Climb(directory: string) returns (found: set<string>)
    ensures found == Above(directory)
  {
    found := {};
    var at := directory;
    while at != ""
      invariant Above(directory) == found + Above(at)
      decreases |at|
    {
      found := found + {at};
      at := Parent(at);
    }
  }

  /** Every directory a file sits in, parents first. */
  method DirectoriesOf(paths: seq<string>) returns (directories: seq<string>)
    ensures Ascending(directories)
    ensures forall directory :: directory in directories <==>
              exists i :: 0 <= i < |paths| && directory in Above(Parent(paths[i]))
  {
    hide Above, Parent, Ascending;
    var found: set<string> := {};
    for i := 0 to |paths|
      invariant forall directory :: directory in found <==>
                exists k :: 0 <= k < i && directory in Above(Parent(paths[k]))
    {
      var more := Climb(Parent(paths[i]));
      found := found + more;
    }
    directories := InOrder(found);
  }

  /** The documents as planned entries below the binaries' directory. */
  method DocumentsBeside(programs: seq<Program>) returns (documents: Option<seq<Document>>)
    ensures match documents
            case Some(found) => OneDirectory(programs) && found == DocumentsIn(Parent(programs[0].path))
            case None => !OneDirectory(programs)
  {
    hide Parent, DocumentsIn, OneDirectory, Ascending;
    var directories: set<string> := {};
    for i := 0 to |programs|
      invariant forall directory :: directory in directories <==>
                exists k :: 0 <= k < i && Parent(programs[k].path) == directory
    {
      directories := directories + {Parent(programs[i].path)};
    }
    var listed := InOrder(directories);
    OneIsListed(programs, listed);
    return if |listed| != 1 then None else Some(DocumentsIn(listed[0]));
  }

  /** All binaries go to one directory exactly where one is listed. */
  lemma OneIsListed(programs: seq<Program>, listed: seq<string>)
    requires Ascending(listed)
    requires forall directory :: directory in listed <==>
             exists k :: 0 <= k < |programs| && Parent(programs[k].path) == directory
    ensures OneDirectory(programs) <==> |listed| == 1
    ensures |listed| == 1 ==> listed[0] == Parent(programs[0].path)
  {
    hide Parent, Less;
    if |listed| == 1 {
      assert listed[0] in listed;
      forall k | 0 <= k < |programs| ensures Parent(programs[k].path) == listed[0] {
        assert Parent(programs[k].path) in listed;
      }
    } else if OneDirectory(programs) {
      assert Parent(programs[0].path) in listed;
      assert listed[0] in listed && listed[1] in listed;
      assert Less(listed[0], listed[1]);
      NotBeforeItself(listed[0]);
    }
  }

  /** There are binaries, and all go to one directory. */
  ghost predicate OneDirectory(programs: seq<Program>) {
    programs != [] && forall one, other | one in programs && other in programs :: Parent(one.path) == Parent(other.path)
  }

  /** Of the binaries in order, the first without a place inside has none filled for it, or one that is not inside. */
  ghost predicate Misplaced(error: BundleError, package: Package, target: string)
    requires Announced(package)
  {
    exists i :: 0 <= i < |package.binaries| && IsMisplaced(error, package, i, target)
  }

  ghost predicate IsMisplaced(error: BundleError, package: Package, i: nat, target: string)
    requires Announced(package) && i < |package.binaries|
  {
    var path := PathOf(package, package.binaries[i], target);
    && (forall k | 0 <= k < i ::
          PathOf(package, package.binaries[k], target).Some?
              && Inside(PathOf(package, package.binaries[k], target).value))
    && (error == if path.None? then Template else Path) && (path.Some? ==> !Inside(path.value))
  }

  /** The binaries a package declares, where its table puts them. */
  method Programs(package: Package, target: string) returns (found: Result<seq<Program>, BundleError>)
    requires Announced(package) && ArchiveOf(package, target).Some?
    ensures found.Ok? <==> Placed(package, target)
    ensures found.Ok? ==> found.value == ProgramsOf(package, target)
    ensures found.Err? ==> Misplaced(found.error, package, target)
  {
    hide PathOf, ArchiveOf, Inside;
    var programs := [];
    for i := 0 to |package.binaries|
      invariant programs == ProgramsOf(package, target)[..i]
      invariant forall k :: 0 <= k < i ==>
                  PathOf(package, package.binaries[k], target).Some?
                      && Inside(PathOf(package, package.binaries[k], target).value)
    {
      var path := PathOf(package, package.binaries[i], target);
      if path.None? {
        assert IsMisplaced(Template, package, i, target);
        return Err(Template);
      }
      if !Inside(path.value) {
        assert IsMisplaced(Path, package, i, target);
        return Err(Path);
      }
      programs := programs + [Program(path.value, package.name, package.binaries[i], package.version)];
    }
    return Ok(programs);
  }

  /**
   Every shipped package is placed, and `archive` is what each of them names; it is nothing exactly where
   none ships.
   */
  ghost predicate Agree(packages: seq<Package>, target: string, archive: Option<string>) {
    && (archive.None? <==> forall i | 0 <= i < |packages| :: !Ships(packages[i]))
    && forall i | 0 <= i < |packages| && Ships(packages[i]) ::
        Placed(packages[i], target) && Fetches(packages[i], target, archive)
  }

  predicate Fetches(package: Package, target: string, archive: Option<string>) {
    Announced(package) && ArchiveOf(package, target) == archive
  }

  /** What the manifests must say for there to be one archive whose every path is read. */
  ghost predicate Plannable(packages: seq<Package>, target: string) {
    && (exists archive: string :: Agree(packages, target, Some(archive)))
    && OneDirectory(AllPrograms(packages, target))
    && DistinctFiles(AllPrograms(packages, target))
  }

  /** No two binaries go to one path, and none to a document's. */
  ghost predicate DistinctFiles(programs: seq<Program>) {
    && (forall i, j | 0 <= i < j < |programs| :: programs[i].path != programs[j].path)
    && forall program, document | program in programs && document in DocumentsIn(Parent(program.path)) ::
        program.path != document.path
  }

  /**
   Whether `plan` is the plan of `packages`: every shipped binary in the archive every shipped package
   names, and the documents beside them.
   */
  ghost predicate Plans(plan: Plan, packages: seq<Package>, target: string) {
    && plan.target == target
    && (forall i | 0 <= i < |packages| && Ships(packages[i]) :: Fetches(packages[i], target, Some(plan.archive)))
    && multiset(plan.programs) == multiset(AllPrograms(packages, target)) && ByPath(plan.programs)
    && OneDirectory(plan.programs) && plan.documents == DocumentsIn(Parent(plan.programs[0].path))
    && Ascending(plan.directories)
    && forall directory :: directory in plan.directories <==>
         exists i :: 0 <= i < |Paths(plan.programs, plan.documents)|
             && directory in Above(Parent(Paths(plan.programs, plan.documents)[i]))
  }

  /** Every path of the plan: its directories, its binaries and its documents. */
  function AllPaths(plan: Plan): seq<string> {
    plan.directories + Paths(plan.programs, plan.documents)
  }

  /**
   The archive can be written in order: every path is its own and inside it, and every entry's directory
   comes before it.
   */
  ghost predicate Writable(plan: Plan) {
    && Distinct(AllPaths(plan))
    && (forall i | 0 <= i < |AllPaths(plan)| :: Inside(AllPaths(plan)[i]))
    && (forall i | 0 <= i < |AllPaths(plan)| ::
          Parent(AllPaths(plan)[i]) == "" || Parent(AllPaths(plan)[i]) in AllPaths(plan)[..i])
  }

  // ---------------------------------------------------------------- planning

  /** What is listed twice is listed at two places. */
  lemma AtTwoPlaces<T>(s: seq<T>, one: T) returns (i: nat, j: nat)
    requires multiset(s)[one] >= 2
    ensures i < j < |s| && s[i] == one && s[j] == one
  {
    i :| 0 <= i < |s| && s[i] == one;
    assert s == s[..i] + [one] + s[i + 1..];
    assert multiset(s)[one] == multiset(s[..i])[one] + 1 + multiset(s[i + 1..])[one];
    if one in s[..i] {
      j := i;
      i :| 0 <= i < j && s[..j][i] == one;
    } else {
      var k :| 0 <= k < |s[i + 1..]| && s[i + 1..][k] == one;
      j := i + 1 + k;
    }
  }

  /** Putting programs in another order keeps their paths apart. */
  lemma PermutedPathsDiffer(programs: seq<Program>, others: seq<Program>)
    requires multiset(programs) == multiset(others)
    requires forall i, j | 0 <= i < j < |others| :: others[i].path != others[j].path
    ensures forall i, j | 0 <= i < j < |programs| :: programs[i].path != programs[j].path
  {
    forall i, j | 0 <= i < j < |programs| ensures programs[i].path != programs[j].path {
      var one, other := programs[i], programs[j];
      assert one in multiset(others) && other in multiset(others);
      if one == other {
        assert programs == programs[..j] + [one] + programs[j + 1..] && programs[..j][i] == one;
        assert multiset(programs)[one] == multiset(programs[..j])[one] + 1 + multiset(programs[j + 1..])[one];
        var k, l := AtTwoPlaces(others, one);
      } else {
        var k :| 0 <= k < |others| && others[k] == one;
        var l :| 0 <= l < |others| && others[l] == other;
        assert k != l;
      }
    }
  }

  /** The files are apart exactly when the binaries are, and none is at a document's path. */
  lemma FilesApart(programs: seq<Program>)
    requires OneDirectory(programs)
    ensures Distinct(Paths(programs, DocumentsIn(Parent(programs[0].path)))) <==> DistinctFiles(programs)
  {
    hide Parent, DocumentsIn;
    var documents := DocumentsIn(Parent(programs[0].path));
    var paths := Paths(programs, documents);
    assert forall i | 0 <= i < |programs| :: paths[i] == programs[i].path;
    assert forall i | 0 <= i < |documents| :: paths[|programs| + i] == documents[i].path;
    DocumentsApart(Parent(programs[0].path));
    if DistinctFiles(programs) {
      forall i, j | 0 <= i < j < |paths| ensures paths[i] != paths[j] {
        if i < |programs| <= j {
          assert programs[i] in programs && documents[j - |programs|] in DocumentsIn(Parent(programs[i].path));
        }
      }
    }
    if Distinct(paths) { FilesDiffer(programs, documents); }
  }

  lemma FilesDiffer(programs: seq<Program>, documents: seq<Document>)
    requires OneDirectory(programs) && documents == DocumentsIn(Parent(programs[0].path))
             && Distinct(Paths(programs, documents))
    ensures DistinctFiles(programs)
  {
    hide Parent, DocumentsIn;
    var paths := Paths(programs, documents);
    forall program, document | program in programs && document in DocumentsIn(Parent(program.path))
      ensures program.path != document.path
    {
      var i :| 0 <= i < |programs| && programs[i] == program;
      assert programs[0] in programs;
      var j :| 0 <= j < |documents| && documents[j] == document;
      assert paths[i] != paths[|programs| + j];
    }
    forall i, j | 0 <= i < j < |programs| ensures programs[i].path != programs[j].path { assert paths[i] != paths[j]; }
  }

  lemma DocumentsApart(directory: string)
    ensures |DocumentsIn(directory)| == 3
    ensures forall i, j | 0 <= i < j < 3 :: DocumentsIn(directory)[i].path != DocumentsIn(directory)[j].path
    ensures forall i | 0 <= i < 3 :: Parent(DocumentsIn(directory)[i].path) == directory
    ensures directory == "" || Inside(directory) ==> forall i | 0 <= i < 3 :: Inside(DocumentsIn(directory)[i].path)
  {
    hide Parent, Segments;
    var documents := DocumentsIn(directory);
    assert |DOCUMENTS[0]| == 11 && |DOCUMENTS[1]| == 14 && |DOCUMENTS[2]| == 9;
    forall i | 0 <= i < 3
      ensures Parent(documents[i].path) == directory
      ensures directory == "" || Inside(directory) ==> Inside(documents[i].path)
    {
      assert forall k | 0 <= k < |DOCUMENTS[i]| :: DOCUMENTS[i][k] != '/';
      BesideIsIn(directory, DOCUMENTS[i]);
    }
    assert forall i | 0 <= i < 3 ::
        |documents[i].path| == |DOCUMENTS[i]| + if directory == "" then 0 else |directory| + 1;
  }

  /**
   What keeps a package from the plan, where those before it fetch `archive`: the first thing read of it
   that does.
   */
  ghost predicate Keeps(error: BundleError, package: Package, target: string, archive: Option<string>) {
    if !package.table.Read? then error == if package.table.Absent? then Unannounced else Unreadable
    else if package.table.binstall.pkgFmt != "tgz" then error == Format
    else
      match Templates.Filled(package.table.binstall.pkgUrl, ValuesOf(package, target, None))
      case Err(_) => error == Template
      case Ok(url) =>
        if !ArchiveFile(FileName(url)) then error == ArchiveName
        else if archive.Some? && archive.value != FileName(url) then error == Archives
        else Misplaced(error, package, target)
  }

  /** Takes one package into the plan: nothing where it cannot agree with the packages before it. */
  method Taken(package: Package, target: string, archive: Option<string>)
    returns (taken: Result<(Option<string>, seq<Program>), BundleError>)
    requires Ships(package)
    ensures taken.Ok? <==> Placed(package, target) && (archive.None? || Fetches(package, target, archive))
    ensures taken.Ok? ==>
              taken.value.0.Some? && Fetches(package, target, taken.value.0)
              && taken.value.1 == ProgramsOf(package, target)
    ensures taken.Err? ==> Keeps(taken.error, package, target, archive)
  {
    hide ArchiveFile, FileName, Misplaced;
    if !package.table.Read? { return Err(if package.table.Absent? then Unannounced else Unreadable); }
    if package.table.binstall.pkgFmt != "tgz" { return Err(Format); }
    if Templates.Filled(package.table.binstall.pkgUrl, ValuesOf(package, target, None)).Err? { return Err(Template); }
    var named := ArchiveOf(package, target);
    if named.None? { return Err(ArchiveName); }
    if archive.Some? && archive != named { return Err(Archives); }
    var found := Programs(package, target);
    if found.Err? { return Err(found.error); }
    return Ok((named, found.value));
  }

  /**
   What keeps the packages from one archive: none ships, or of those that do, the first that cannot be taken
   after all before it.
   */
  ghost predicate KeptApart(error: BundleError, packages: seq<Package>, target: string) {
    || (error.NothingShipped? && forall i | 0 <= i < |packages| :: !Ships(packages[i]))
    || exists i: nat, archive :: IsKept(error, packages, i, target, archive)
  }

  ghost predicate IsKept(
    error: BundleError, packages: seq<Package>, i: nat, target: string, archive: Option<string>) {
    && i < |packages| && Ships(packages[i]) && Agree(packages[..i], target, archive)
    && Keeps(error, packages[i], target, archive)
  }

  /** The one archive and all the binaries of the shipped packages. */
  method Gathered(packages: seq<Package>, target: string)
    returns (gathered: Result<(string, seq<Program>), BundleError>)
    ensures gathered.Ok? <==> exists archive: string :: Agree(packages, target, Some(archive))
    ensures gathered.Ok? ==>
              Agree(packages, target, Some(gathered.value.0)) && gathered.value.1 == AllPrograms(packages, target)
    ensures gathered.Err? ==> KeptApart(gathered.error, packages, target)
  {
    hide Placed, Fetches, Ships, Keeps;
    var archive: Option<string> := None;
    var programs := [];
    for i := 0 to |packages|
      invariant Agree(packages[..i], target, archive)
      invariant programs == AllPrograms(packages[..i], target)
    {
      assert packages[..i + 1][..i] == packages[..i];
      if !Ships(packages[i]) { continue; }
      var taken := Taken(packages[i], target, archive);
      if taken.Err? {
        CannotAgree(packages, target, archive, i);
        assert IsKept(taken.error, packages, i, target, archive);
        return Err(taken.error);
      }
      if archive.Some? { FetchesOne(packages[i], target, archive, taken.value.0); }
      archive, programs := taken.value.0, programs + taken.value.1;
    }
    assert packages[..|packages|] == packages;
    if archive.None? { return Err(NothingShipped); }
    return Ok((archive.value, programs));
  }

  lemma FetchesOne(package: Package, target: string, archive: Option<string>, other: Option<string>)
    requires Fetches(package, target, archive) && Fetches(package, target, other)
    ensures archive == other
  {
  }

  lemma CannotAgree(packages: seq<Package>, target: string, archive: Option<string>, i: nat)
    requires i < |packages| && Ships(packages[i]) && Agree(packages[..i], target, archive)
    requires !Placed(packages[i], target) || (archive.Some? && !Fetches(packages[i], target, archive))
    ensures forall other: string :: !Agree(packages, target, Some(other))
  {
    hide Placed, Fetches, Ships;
    forall other: string ensures !Agree(packages, target, Some(other)) {
      if archive.Some? && Agree(packages, target, Some(other)) {
        var j :| 0 <= j < i && Ships(packages[..i][j]);
        assert packages[..i][j] == packages[j];
        FetchesOne(packages[j], target, archive, Some(other));
      }
    }
  }

  lemma {:induction false} ProgramsAreInside(packages: seq<Package>, target: string)
    requires forall i | 0 <= i < |packages| && Ships(packages[i]) :: Placed(packages[i], target)
    ensures forall program | program in AllPrograms(packages, target) :: Inside(program.path)
  {
    hide Inside, Ships;
    if packages != [] {
      ProgramsAreInside(packages[..|packages| - 1], target);
    }
  }

  lemma PermutedPlan(programs: seq<Program>, sorted: seq<Program>)
    requires multiset(programs) == multiset(sorted)
    ensures OneDirectory(programs) <==> OneDirectory(sorted)
    ensures DistinctFiles(programs) <==> DistinctFiles(sorted)
    ensures forall program :: program in programs <==> program in sorted
  {
    forall program ensures program in programs <==> program in sorted {
      assert program in multiset(programs) <==> program in multiset(sorted);
    }
    assert programs == [] <==> sorted == [] by { assert |multiset(programs)| == |multiset(sorted)|; }
    hide Parent, DocumentsIn;
    if DistinctFiles(programs) { PermutedPathsDiffer(sorted, programs); }
    if DistinctFiles(sorted) { PermutedPathsDiffer(programs, sorted); }
  }

  /**
   Files apart in one directory, and the directories above them, can be written in order: though only files
   are held apart, no directory is at a file's path.
   */
  lemma PlannedIsWritable(plan: Plan)
    requires OneDirectory(plan.programs) && plan.documents == DocumentsIn(Parent(plan.programs[0].path))
    requires Distinct(Paths(plan.programs, plan.documents))
    requires forall program | program in plan.programs :: Inside(program.path)
    requires Ascending(plan.directories)
    requires forall directory :: directory in plan.directories <==>
               exists i :: 0 <= i < |Paths(plan.programs, plan.documents)|
                   && directory in Above(Parent(Paths(plan.programs, plan.documents)[i]))
    ensures Writable(plan)
  {
    hide Inside, DocumentsIn, Parent;
    var files, all, home := Paths(plan.programs, plan.documents), AllPaths(plan), Parent(plan.programs[0].path);
    assert plan.programs[0] in plan.programs;
    ParentIsInside(plan.programs[0].path);
    DocumentsApart(home);
    forall i | 0 <= i < |files| ensures Parent(files[i]) == home && Inside(files[i]) {
      if i < |plan.programs| { assert plan.programs[i] in plan.programs; }
    }
    AboveIsClosed(home);
    assert forall directory :: directory in plan.directories <==> directory in Above(home) by {
      assert Parent(files[0]) == home;
    }
    PathsAreApart(plan, home);
    ParentsComeFirst(plan, home);
  }

  lemma PathsAreApart(plan: Plan, home: string)
    requires Distinct(Paths(plan.programs, plan.documents)) && Ascending(plan.directories)
    requires forall i | 0 <= i < |Paths(plan.programs, plan.documents)| ::
             Parent(Paths(plan.programs, plan.documents)[i]) == home
    requires forall directory | directory in plan.directories :: directory != "" && directory <= home
    ensures Distinct(AllPaths(plan))
  {
    hide Less;
    var files, all := Paths(plan.programs, plan.documents), AllPaths(plan);
    forall i, j | 0 <= i < j < |all| ensures all[i] != all[j] {
      if j < |plan.directories| {
        LessIsTotal(all[i], all[j]);
      } else if i < |plan.directories| {
        assert all[i] in plan.directories && |all[i]| <= |home|;
        assert Parent(files[j - |plan.directories|]) == home;
      }
    }
  }

  lemma ParentsComeFirst(plan: Plan, home: string)
    requires Ascending(plan.directories)
    requires forall i | 0 <= i < |Paths(plan.programs, plan.documents)| ::
             Parent(Paths(plan.programs, plan.documents)[i]) == home
    requires home == "" || home in plan.directories
    requires forall directory | directory in plan.directories ::
             Parent(directory) == "" || Parent(directory) in plan.directories
    ensures forall i | 0 <= i < |AllPaths(plan)| ::
            Parent(AllPaths(plan)[i]) == "" || Parent(AllPaths(plan)[i]) in AllPaths(plan)[..i]
  {
    hide Less;
    var all := AllPaths(plan);
    forall i | 0 <= i < |all| && Parent(all[i]) != "" ensures Parent(all[i]) in all[..i] {
      var parent := Parent(all[i]);
      if i < |plan.directories| {
        assert all[i] in plan.directories;
        PrefixIsLess(parent, all[i]);
      }
      var j :| 0 <= j < |plan.directories| && plan.directories[j] == parent;
      LessIsTotal(parent, all[i]);
      assert j < i;
      assert all[..i][j] == parent;
    }
  }

  /** Why a plan is refused: the packages are kept apart, or else their binaries, or else their files meet. */
  ghost predicate Refused(error: BundleError, packages: seq<Package>, target: string) {
    var programs := AllPrograms(packages, target);
    if forall archive: string :: !Agree(packages, target, Some(archive)) then KeptApart(error, packages, target)
    else if !OneDirectory(programs) then error == Directories
    else !DistinctFiles(programs) && error == Twice
  }

  /** Plans the archive of the shipped packages, or refuses for the first thing that keeps it from one. */
  method MakePlan(packages: seq<Package>, target: string) returns (plan: Result<Plan, BundleError>)
    ensures plan.Ok? <==> Plannable(packages, target)
    ensures plan.Ok? ==> Plans(plan.value, packages, target) && Writable(plan.value)
    ensures plan.Err? ==> Refused(plan.error, packages, target)
  {
    hide KeptApart;
    hide Agree, Distinct, DistinctFiles, OneDirectory, DocumentsIn, Above, Writable, Inside, Parent, Ascending, ByPath;
    var gathered := Gathered(packages, target);
    if gathered.Err? { return Err(gathered.error); }
    var (archive, programs) := gathered.value;
    var sorted := Sort(programs);
    PermutedPlan(programs, sorted);
    var documents := DocumentsBeside(sorted);
    if documents.None? { return Err(Directories); }
    FilesApart(sorted);
    var distinct := RefuseTwice(Paths(sorted, documents.value));
    if !distinct { return Err(Twice); }
    var directories := DirectoriesOf(Paths(sorted, documents.value));
    var made := Plan(target, archive, sorted, documents.value, directories);
    AgreedArePlaced(packages, target, archive);
    ProgramsAreInside(packages, target);
    PlannedIsWritable(made);
    return Ok(made);
  }

  lemma AgreedArePlaced(packages: seq<Package>, target: string, archive: string)
    requires Agree(packages, target, Some(archive))
    ensures forall i | 0 <= i < |packages| && Ships(packages[i]) :: Placed(packages[i], target)
    ensures forall i | 0 <= i < |packages| && Ships(packages[i]) :: Fetches(packages[i], target, Some(archive))
  {
  }

  // ---------------------------------------------------------------- what a plan says, in the manifests' own terms

  /** From one slash or end of the path to the next, with none between. */
  ghost predicate IsSegment(path: string, i: nat, j: nat) {
    && i <= j <= |path| && (i == 0 || path[i - 1] == '/') && (j == |path| || path[j] == '/')
    && forall k | i <= k < j :: path[k] != '/'
  }

  lemma {:induction false} SegmentsAre(path: string, segment: string)
    ensures segment in Segments(path) <==> exists i: nat, j: nat :: IsSegment(path, i, j) && path[i..j] == segment
    decreases |path|
  {
    var slash := LastSlash(path);
    if slash.None? {
      OneSegment(path, segment);
    } else {
      SegmentsAre(path[..slash.value], segment);
      SegmentsOfFront(path, slash.value, segment);
    }
  }

  lemma OneSegment(path: string, segment: string)
    requires '/' !in path
    ensures segment == path <==> exists i: nat, j: nat :: IsSegment(path, i, j) && path[i..j] == segment
  {
    assert IsSegment(path, 0, |path|) && path[0..|path|] == path;
    forall i: nat, j: nat | IsSegment(path, i, j) ensures i == 0 && j == |path| {}
  }

  lemma SegmentsOfFront(path: string, at: nat, segment: string)
    requires at < |path| && path[at] == '/' && '/' !in path[at + 1..]
    ensures (exists i: nat, j: nat :: IsSegment(path, i, j) && path[i..j] == segment) <==>
            segment == path[at + 1..]
            || exists i: nat, j: nat :: IsSegment(path[..at], i, j) && path[..at][i..j] == segment
  {
    LastIsSegment(path, at);
    forall i: nat, j: nat | IsSegment(path[..at], i, j)
      ensures IsSegment(path, i, j) && path[i..j] == path[..at][i..j]
    {
      FrontIsSegment(path, at, i, j);
    }
    forall i: nat, j: nat | IsSegment(path, i, j)
      ensures (i == at + 1 && j == |path|) || (IsSegment(path[..at], i, j) && path[i..j] == path[..at][i..j])
    {
      LastOrBefore(path, at, i, j);
    }
  }

  lemma LastIsSegment(path: string, at: nat)
    requires at < |path| && path[at] == '/' && '/' !in path[at + 1..]
    ensures IsSegment(path, at + 1, |path|) && path[at + 1..|path|] == path[at + 1..]
  {
    forall k | at + 1 <= k < |path| ensures path[k] != '/' { assert path[at + 1..][k - (at + 1)] == path[k]; }
  }

  lemma FrontIsSegment(path: string, at: nat, i: nat, j: nat)
    requires at < |path| && path[at] == '/' && IsSegment(path[..at], i, j)
    ensures IsSegment(path, i, j) && path[i..j] == path[..at][i..j]
  {
  }

  lemma LastOrBefore(path: string, at: nat, i: nat, j: nat)
    requires at < |path| && path[at] == '/' && '/' !in path[at + 1..] && IsSegment(path, i, j)
    ensures (i == at + 1 && j == |path|) || (IsSegment(path[..at], i, j) && path[i..j] == path[..at][i..j])
  {
    forall k | at + 1 <= k < |path| ensures path[k] != '/' { assert path[at + 1..][k - (at + 1)] == path[k]; }
  }

  /** A path is inside the archive where between slashes nothing is empty, `.` or `..`. */
  lemma InsideMeans(path: string)
    ensures Inside(path) <==>
            forall i: nat, j: nat | IsSegment(path, i, j) :: path[i..j] != "" && path[i..j] != "." && path[i..j] != ".."
  {
    hide Segments;
    forall segment ensures segment in Segments(path) <==>
        exists i: nat, j: nat :: IsSegment(path, i, j) && path[i..j] == segment
    {
      SegmentsAre(path, segment);
    }
    if !Inside(path) {
      var segment :| segment in Segments(path) && (segment == "" || segment == "." || segment == "..");
      var i: nat, j: nat :| IsSegment(path, i, j) && path[i..j] == segment;
    }
    forall i: nat, j: nat | IsSegment(path, i, j) ensures path[i..j] in Segments(path) {
      assert IsSegment(path, i, j) && path[i..j] == path[i..j];
    }
  }

  /** What sits in a directory, and what does not. */
  lemma ParentMeans(path: string, name: string)
    requires '/' !in name
    ensures forall directory :: Parent(directory + "/" + name) == directory
    ensures Parent(name) == ""
    ensures '/' in path ==> exists last :: path == Parent(path) + "/" + last && '/' !in last
  {
    forall directory ensures Parent(directory + "/" + name) == directory {
      var whole := directory + "/" + name;
      assert whole[|directory|] == '/' && whole[|directory| + 1..] == name && whole[..|directory|] == directory;
      LastSlashIs(whole, |directory|);
    }
    if '/' in path {
      var at := LastSlash(path).value;
      assert path == path[..at] + "/" + path[at + 1..];
    }
  }

  /** The directories above a path are what stands before a slash after it, however many follow. */
  lemma {:induction false} AboveMeans(directory: string, above: string)
    ensures above in Above(directory) <==> above != "" && (above == directory || above + "/" <= directory)
    decreases |directory|
  {
    hide Parent;
    if directory != "" {
      AboveMeans(Parent(directory), above);
      if above != "" { AboveItsParent(directory, above); }
    }
  }

  lemma AboveItsParent(path: string, above: string)
    requires above != ""
    ensures above + "/" <= path <==> above == Parent(path) || above + "/" <= Parent(path)
  {
    var slash := LastSlash(path);
    if slash.Some? {
      assert path == Parent(path) + "/" + path[slash.value + 1..];
      if above + "/" <= path { BeforeTheLast(path, slash.value, above); }
    } else {
      NoSlashNoPrefix(path, above);
    }
  }

  lemma NoSlashNoPrefix(path: string, above: string)
    requires '/' !in path
    ensures !(above + "/" <= path)
  {
    assert (above + "/")[|above|] == '/';
  }

  lemma BeforeTheLast(path: string, at: nat, above: string)
    requires at < |path| && path[at] == '/' && '/' !in path[at + 1..] && above + "/" <= path
    ensures above == path[..at] || above + "/" <= path[..at]
  {
    assert path[|above|] == '/';
    assert forall k | at < k < |path| :: path[k] == path[at + 1..][k - (at + 1)];
    assert path[..|above|] == above;
    if |above| < at { assert path[..at][..|above| + 1] == above + "/"; }
  }

  /** An archive's name: some stem and one of two endings, and nothing a URL goes on with. */
  ghost predicate NamesArchive(name: string) {
    (exists stem :: stem != "" && (name == stem + ".tar.gz" || name == stem + ".tgz")) && '?' !in name && '#' !in name
  }

  lemma ArchiveFileMeans(name: string)
    ensures ArchiveFile(name) <==> NamesArchive(name)
  {
    if EndsWith(name, ".tar.gz") { assert name == name[..|name| - 7] + ".tar.gz"; }
    if EndsWith(name, ".tgz") { assert name == name[..|name| - 4] + ".tgz"; }
    if stem :| stem != "" && name == stem + ".tar.gz" { assert EndsWith(name, ".tar.gz"); }
    if stem :| stem != "" && name == stem + ".tgz" { assert EndsWith(name, ".tgz"); }
  }

  /** What a template of the package's is filled to, with `bin` in place of a binary's name where it is one's. */
  ghost predicate FillsTo(package: Package, target: string, bin: Option<string>, template: string, text: string) {
    Templates.Filled(template, Templates.Values(package.name, package.version, package.repository, target, bin))
    == Ok(text)
  }

  /** The archive a shipped package fetches: the last part of its URL, in a table of the one format made. */
  ghost predicate FetchesFrom(package: Package, target: string, archive: string) {
    && package.table.Read? && package.table.binstall.pkgFmt == "tgz"
    && (exists url :: FillsTo(package, target, None, package.table.binstall.pkgUrl, url)
                      && (url == archive || EndsIn(url, archive)))
    && '/' !in archive && NamesArchive(archive)
  }

  ghost predicate EndsIn(url: string, name: string) {
    exists before :: url == before + "/" + name
  }

  lemma FileNameIsLast(url: string)
    ensures '/' !in FileName(url) && (url == FileName(url) || EndsIn(url, FileName(url)))
  {
    var at := LastSlash(url);
    if at.Some? { assert url == url[..at.value] + "/" + FileName(url); }
  }

  lemma LastIsFileName(before: string, name: string)
    requires '/' !in name
    ensures FileName(before + "/" + name) == name && FileName(name) == name
  {
    var url := before + "/" + name;
    assert url[|before|] == '/' && url[|before| + 1..] == name;
    LastSlashIs(url, |before|);
  }

  lemma FileNameMeans(url: string, name: string)
    ensures FileName(url) == name <==> '/' !in name && (url == name || EndsIn(url, name))
  {
    hide FileName;
    FileNameIsLast(url);
    if '/' !in name {
      LastIsFileName("", name);
      if before :| url == before + "/" + name { LastIsFileName(before, name); }
    }
  }

  lemma FetchesMeans(package: Package, target: string, archive: string)
    ensures Fetches(package, target, Some(archive)) <==> FetchesFrom(package, target, archive)
  {
    hide Templates.Filled, ArchiveFile, FileName, NamesArchive;
    ArchiveFileMeans(archive);
    if package.table.Read? {
      match Templates.Filled(package.table.binstall.pkgUrl, ValuesOf(package, target, None)) {
        case Ok(url) =>
          FileNameMeans(url, archive);
          assert FillsTo(package, target, None, package.table.binstall.pkgUrl, url);
        case Err(_) =>
      }
    }
  }

  /** Some binary of a published package goes there, where its table's directory is filled to. */
  ghost predicate Declares(package: Package, target: string, program: Program) {
    && package.published && package.table.Read? && package.table.binstall.pkgFmt == "tgz"
    && program.binary in package.binaries
    && FillsTo(package, target, Some(program.binary), package.table.binstall.binDir, program.path)
    && program.package == package.name && program.version == package.version
  }

  /** Published, with some binary. */
  ghost predicate IsShipped(package: Package) {
    package.published && |package.binaries| > 0
  }

  /** Between slashes nothing is empty, `.` or `..`. */
  ghost predicate StaysInside(path: string) {
    forall i: nat, j: nat | IsSegment(path, i, j) :: path[i..j] != "" && path[i..j] != "." && path[i..j] != ".."
  }

  ghost predicate GoesInside(package: Package, target: string, binary: string) {
    && package.table.Read?
    && exists path :: FillsTo(package, target, Some(binary), package.table.binstall.binDir, path) && StaysInside(path)
  }

  ghost predicate GoInside(package: Package, target: string) {
    forall binary | binary in package.binaries :: GoesInside(package, target, binary)
  }

  /**
   Packages agree on an archive exactly where some package is published with a binary, and every such package
   fetches that archive and puts every binary inside it.
   */
  lemma AgreeMeans(packages: seq<Package>, target: string, archive: string)
    ensures Agree(packages, target, Some(archive)) <==>
            && (exists i :: 0 <= i < |packages| && IsShipped(packages[i]))
            && forall i | 0 <= i < |packages| && IsShipped(packages[i]) ::
                 FetchesFrom(packages[i], target, archive) && GoInside(packages[i], target)
  {
    hide Placed, Fetches, FetchesFrom, GoInside;
    forall i | 0 <= i < |packages|
      ensures Placed(packages[i], target) && Fetches(packages[i], target, Some(archive)) <==>
              FetchesFrom(packages[i], target, archive) && GoInside(packages[i], target)
    {
      FetchesMeans(packages[i], target, archive);
      if Fetches(packages[i], target, Some(archive)) { PlacedMeans(packages[i], target, archive); }
    }
  }

  lemma PlacedMeans(package: Package, target: string, archive: string)
    requires Fetches(package, target, Some(archive))
    ensures Placed(package, target) <==> GoInside(package, target)
  {
    hide Templates.Filled, ArchiveOf, Inside, StaysInside;
    forall path ensures Inside(path) <==> StaysInside(path) { InsideStays(path); }
    if GoInside(package, target) {
      forall i | 0 <= i < |package.binaries|
        ensures PathOf(package, package.binaries[i], target).Some?
                && Inside(PathOf(package, package.binaries[i], target).value)
      {
        assert package.binaries[i] in package.binaries;
      }
    }
    if Placed(package, target) {
      forall binary | binary in package.binaries ensures GoesInside(package, target, binary) {
        var i :| 0 <= i < |package.binaries| && package.binaries[i] == binary;
        var path := PathOf(package, binary, target).value;
        assert FillsTo(package, target, Some(binary), package.table.binstall.binDir, path);
      }
    }
  }

  lemma InsideStays(path: string)
    ensures Inside(path) <==> StaysInside(path)
  {
    InsideMeans(path);
  }

  /** Every document, under its own name in the directory. */
  ghost predicate AreDocuments(documents: seq<Document>, directory: string) {
    var before := if directory == "" then "" else directory + "/";
    documents == [
      Document("LICENSE-MIT", before + "LICENSE-MIT"), Document("LICENSE-APACHE", before + "LICENSE-APACHE"),
      Document("README.md", before + "README.md")]
  }

  lemma DocumentsAre(directory: string)
    ensures AreDocuments(DocumentsIn(directory), directory)
  {
    assert "" + "LICENSE-MIT" == "LICENSE-MIT" && "" + "LICENSE-APACHE" == "LICENSE-APACHE"
           && "" + "README.md" == "README.md";
  }

  lemma {:induction false} ProgramsAreDeclared(packages: seq<Package>, target: string, program: Program)
    requires forall i | 0 <= i < |packages| && Ships(packages[i]) :: Placed(packages[i], target)
    ensures program in AllPrograms(packages, target) <==>
            exists i :: 0 <= i < |packages| && Declares(packages[i], target, program)
  {
    hide Declares, Placed, ProgramsOf;
    if packages != [] {
      var init, last := packages[..|packages| - 1], packages[|packages| - 1];
      ProgramsAreDeclared(init, target, program);
      assert packages == init + [last];
      ProgramsOfPackage(last, target, program);
      if i :| 0 <= i < |packages| && Declares(packages[i], target, program) && i < |init| {
        assert Declares(init[i], target, program);
      }
      if i :| 0 <= i < |init| && Declares(init[i], target, program) { assert Declares(packages[i], target, program); }
    }
  }

  lemma ProgramsOfPackage(package: Package, target: string, program: Program)
    requires Ships(package) ==> Placed(package, target)
    ensures Ships(package) && program in ProgramsOf(package, target) <==> Declares(package, target, program)
  {
    hide Templates.Filled, ArchiveOf, Inside;
    if Ships(package) {
      if program in ProgramsOf(package, target) {
        var i :| 0 <= i < |package.binaries| && program == ProgramsOf(package, target)[i];
      }
      if Declares(package, target, program) {
        var i :| 0 <= i < |package.binaries| && package.binaries[i] == program.binary;
        assert ProgramsOf(package, target)[i] == program;
      }
    }
  }

  /**
   What a plan holds, in the manifests' own terms: just the binaries published packages declare, each where its
   table fills to; the three documents beside them; the archive every such package fetches; and every directory
   some file is under.
   */
  lemma PlanHolds(plan: Plan, packages: seq<Package>, target: string)
    requires Plans(plan, packages, target)
    requires forall i | 0 <= i < |packages| && Ships(packages[i]) :: Placed(packages[i], target)
    ensures forall program :: program in plan.programs <==>
              exists i :: 0 <= i < |packages| && Declares(packages[i], target, program)
    ensures forall i | 0 <= i < |packages| && packages[i].published && |packages[i].binaries| > 0 ::
              FetchesFrom(packages[i], target, plan.archive)
    ensures AreDocuments(plan.documents, Parent(plan.programs[0].path))
    ensures forall directory :: directory in plan.directories <==>
              directory != "" && exists i :: 0 <= i < |Paths(plan.programs, plan.documents)|
                                             && directory + "/" <= Paths(plan.programs, plan.documents)[i]
  {
    assert plan.programs != [];
    hide Declares, FetchesFrom, Fetches, Placed, Above, Parent, DocumentsIn, AreDocuments, ByPath, OneDirectory;
    hide Ascending;
    DocumentsAre(Parent(plan.programs[0].path));
    forall program ensures program in plan.programs <==>
        exists i :: 0 <= i < |packages| && Declares(packages[i], target, program)
    {
      ProgramsAreDeclared(packages, target, program);
      assert program in multiset(plan.programs) <==> program in multiset(AllPrograms(packages, target));
    }
    forall i | 0 <= i < |packages| && packages[i].published && |packages[i].binaries| > 0
      ensures FetchesFrom(packages[i], target, plan.archive)
    {
      FetchesMeans(packages[i], target, plan.archive);
    }
    forall directory ensures directory in plan.directories <==>
        directory != "" && exists i :: 0 <= i < |Paths(plan.programs, plan.documents)|
                                       && directory + "/" <= Paths(plan.programs, plan.documents)[i]
    {
      AboveSomePath(Paths(plan.programs, plan.documents), directory);
    }
  }

  lemma AboveSomePath(paths: seq<string>, directory: string)
    ensures (exists i :: 0 <= i < |paths| && directory in Above(Parent(paths[i]))) <==>
            directory != "" && exists i :: 0 <= i < |paths| && directory + "/" <= paths[i]
  {
    hide Above, Parent;
    forall i | 0 <= i < |paths|
      ensures directory in Above(Parent(paths[i])) <==> directory != "" && directory + "/" <= paths[i]
    {
      AboveAPath(paths[i], directory);
    }
  }

  lemma AboveAPath(path: string, directory: string)
    ensures directory in Above(Parent(path)) <==> directory != "" && directory + "/" <= path
  {
    AboveMeans(Parent(path), directory);
    ParentMeans(path, "");
    var slash := LastSlash(path);
    if slash.Some? {
      assert path == Parent(path) + "/" + path[slash.value + 1..];
      if directory + "/" <= path { BeforeTheLast(path, slash.value, directory); }
    } else {
      NoSlashNoPrefix(path, directory);
    }
  }
}
