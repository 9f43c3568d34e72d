// A directory tree on the guest, as Brain init and import see it, and the fixed
// commands they run on one.

module VaultTree {
  import opened Options

  type Bytes = string

  datatype Kind = Precondition | Conflict | GuestCommand | GitFailure | Verification | Transport

  // Segments below a tree's root.
  type Path = seq<string>

  const CANONICAL_DIRECTORIES := ["inbox", "daily", "projects", "people", "meetings", "resources", "attachments"]
  const CANONICAL_FILES := ["README.md", "AGENTS.md", "todo.md"]

  // The embedded templates, one for each canonical file.
  type Scaffold = m: map<string, Bytes> | m.Keys == {"README.md", "AGENTS.md", "todo.md"}
    witness map["README.md" := "", "AGENTS.md" := "", "todo.md" := ""]

  // The canonical files as init writes them.
  function Templates(scaffold: Scaffold): map<Path, Bytes> {
    map[["README.md"] := scaffold["README.md"], ["AGENTS.md"] := scaffold["AGENTS.md"], ["todo.md"] := scaffold["todo.md"]]
  }

  // Files and directories below the root, the snapshots committed in its repository,
  // whether that has a remote, whether a symlink is anywhere in it, and whether the
  // root's owner, group and mode are the agent's own.
  datatype Tree = Tree(files: map<Path, Bytes>, dirs: set<Path>, commits: seq<map<Path, Bytes>>,
                       remote: bool, links: bool, secure: bool)

  const EMPTY := Tree(map[], {}, [], false, false, true)

  predicate IsEmpty(t: Tree) { t.files == map[] && t.dirs == {} && t.commits == [] && !t.links }

  // The canonical directories and files, each file its template, and nothing else; committed
  // once.
  predicate IsFreshBrain(t: Tree, scaffold: Scaffold) {
    && (forall p <- t.files :: |p| == 1 && p[0] in CANONICAL_FILES)
    && (forall name <- CANONICAL_FILES :: [name] in t.files && t.files[[name]] == scaffold[name])
    && (forall p <- t.dirs :: |p| == 1 && p[0] in CANONICAL_DIRECTORIES)
    && (forall name <- CANONICAL_DIRECTORIES :: [name] in t.dirs)
    && t.commits == [t.files] && !t.remote && !t.links && t.secure
  }

  // Something is in it, and a link is among it, or it has a remote, or another owner or mode.
  predicate Foreign(t: Tree) { !IsEmpty(t) && (t.links || t.remote || !t.secure) }

  predicate Exists(t: Tree, p: Path) { p in t.files || p in t.dirs }

  // What a file system guarantees of a tree: whatever has something below it is a
  // directory, and no directory is a file.
  predicate WellFormed(t: Tree) {
    && t.files.Keys !! t.dirs
    && (forall p <- t.files, i | 0 < i < |p| :: p[..i] in t.dirs)
    && (forall p <- t.dirs, i | 0 < i < |p| :: p[..i] in t.dirs)
  }

  predicate Clean(t: Tree) { t.commits != [] && t.commits[|t.commits| - 1] == t.files }

  // What a path holds: nothing, a symlink, a plain file, or a directory.
  datatype Place = Absent | Linked | Plain(bytes: Bytes) | There(tree: Tree)

  datatype VaultState = Initialized | Uninitialized | Drift

  predicate HasScaffold(t: Tree) {
    && (forall name <- CANONICAL_FILES :: [name] in t.files)
    && (forall name <- CANONICAL_DIRECTORIES :: [name] in t.dirs)
  }

  predicate Managed(t: Tree) { HasScaffold(t) && t.commits != [] && !t.remote && !t.links }

  // What a status inspection answers. It asks for a symlink, then for a directory, so a
  // plain file passes for nothing at all.
  function Classify(place: Place, native: bool): VaultState {
    match place
    case Linked => Drift
    case Absent => Uninitialized
    case Plain(_) => Uninitialized
    case There(t) =>
      if !t.secure || !native then Drift
      else if IsEmpty(t) then Uninitialized
      else if Managed(t) then Initialized
      else Drift
  }

  // The prefixes of a path, itself included.
  function Prefixes(p: Path): set<Path> { set i | 0 < i <= |p| :: p[..i] }

  // install -d <p>
  function InstallDir(t: Tree, p: Path): Option<Tree> {
    if exists q <- Prefixes(p) :: q in t.files then None
    else Some(t.(dirs := t.dirs + Prefixes(p)))
  }

  function InstallDirs(t: Tree, names: seq<string>): Option<Tree>
    decreases |names|
  {
    if names == [] then Some(t)
    else match InstallDir(t, [names[0]])
      case None => None
      case Some(next) => InstallDirs(next, names[1..])
  }

  lemma {:induction false} InstallDirsAdds(t: Tree, names: seq<string>)
    requires InstallDirs(t, names).Some?
    ensures var r := InstallDirs(t, names).value;
            r == t.(dirs := r.dirs) && t.dirs <= r.dirs && forall name <- names :: [name] in r.dirs
    decreases |names|
  {
    if names != [] {
      var next := InstallDir(t, [names[0]]).value;
      InstallDirsAdds(next, names[1..]);
      assert [names[0]][..1] == [names[0]];
      assert [names[0]] in next.dirs;
      forall name <- names
        ensures [name] in InstallDirs(t, names).value.dirs
      {
        if name != names[0] { assert name in names[1..]; }
      }
    }
  }

  // No file of one stands where the other has a directory.
  predicate Mixable(dst: Tree, src: Tree) {
    src.files.Keys !! dst.dirs && src.dirs !! dst.files.Keys
  }

  // cp -a <src>/. <dst>/
  function CopyOver(dst: Tree, src: Tree): Option<Tree> {
    if !Mixable(dst, src) then None
    else Some(dst.(files := dst.files + src.files, dirs := dst.dirs + src.dirs))
  }

  // cp -a --update=none-fail <src>/. <dst>/
  function CopyNew(dst: Tree, src: Tree): Option<Tree> {
    if !Mixable(dst, src) || !(src.files.Keys !! dst.files.Keys) then None else CopyOver(dst, src)
  }

  // The files of a tree that was put below a place.
  function Rebase(at: Path, files: map<Path, Bytes>): map<Path, Bytes> {
    map q | q in RebasedPaths(at, files) :: files[q[|at|..]]
  }

  function RebasedPaths(at: Path, files: map<Path, Bytes>): (r: set<Path>)
    ensures forall q <- r :: |at| <= |q| && q[..|at|] == at && q[|at|..] in files
  {
    set p | p in files :: at + p
  }

  lemma RebasedFiles(at: Path, files: map<Path, Bytes>)
    ensures forall p <- files :: at + p in Rebase(at, files) && Rebase(at, files)[at + p] == files[p]
    ensures forall q <- Rebase(at, files) :: |at| <= |q| && q[..|at|] == at && q[|at|..] in files
  {
    forall p <- files
      ensures at + p in Rebase(at, files) && Rebase(at, files)[at + p] == files[p]
    {
      assert (at + p)[|at|..] == p;
    }
  }

  // mv -T <src> <dst>/<at>, for a place that does not exist below a parent that does.
  function MoveInto(dst: Tree, src: Tree, at: Path): Option<Tree>
    requires at != []
  {
    if Exists(dst, at) || (|at| > 1 && at[..|at| - 1] !in dst.dirs) then None
    else Some(dst.(files := dst.files + Rebase(at, src.files),
                   dirs := dst.dirs + {at} + set d | d in src.dirs :: at + d))
  }

  // git add -A && git commit; a commit of nothing new fails.
  function CommitChanges(t: Tree): Option<Tree> {
    if t.files == map[] || Clean(t) then None else Some(t.(commits := t.commits + [t.files]))
  }

  // git add -A && git commit --allow-empty
  function Checkpoint(t: Tree): Tree { t.(commits := t.commits + [t.files]) }
}
