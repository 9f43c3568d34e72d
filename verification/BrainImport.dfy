// torio brain import: a host payload is staged, verified, built into a complete
// candidate beside the vault, and exchanged with it in one atomic step.

module BrainImport {
  import opened Options
  import opened VaultTree

  datatype ImportStep =
    | CollectSource | VerifyBootstrap | VerifyRoot | AcquireLock | InspectStatus | TestDestination
    | InspectPristine | CleanStaging | ReadSessionUser | MakeStaging | WriteManifest | CopyIn | AdoptPayload
    | InspectPayload | SumPayload | MakeCandidate | CopyVault | CommitCheckpoint | MakeParent | MovePayload
    | CopyPayload | DropPayload | CompleteDirectories | TestScaffold | WriteScaffold | InitGit | CommitSnapshot
    | InspectSnapshot | RefreshLock | Exchange | InspectFinal | ActivateSkill
    | ExchangeBack | CleanUp | ReleaseLock

  // What the transport left in the payload staging.
  datatype Node = File(bytes: Bytes) | Directory | Link | Special

  type Staged = map<Path, Node>

  // One file of the private manifest. A digest stands for the bytes it is of.
  datatype Entry = Entry(path: Path, bytes: Bytes)

  // Its paths are below the source's root, each once.
  type Manifest = m: seq<Entry> | (forall i, j :: 0 <= i < j < |m| ==> m[i].path != m[j].path) && forall e <- m :: e.path != []
    witness []

  function FilesOf(m: seq<Entry>): map<Path, Bytes> {
    if m == [] then map[] else FilesOf(m[..|m| - 1])[m[|m| - 1].path := m[|m| - 1].bytes]
  }

  function StagedFiles(s: Staged): map<Path, Bytes> { map p | p in s && s[p].File? :: s[p].bytes }

  function StagedTree(s: Staged): Tree {
    EMPTY.(files := StagedFiles(s), dirs := set p | p in s && s[p].Directory?)
  }

  // Nothing but directories and files, and the files are the manifest's, byte for byte.
  predicate Faithful(s: Staged, m: Manifest) {
    (forall p <- s :: s[p].File? || s[p].Directory?) && StagedFiles(s) == FilesOf(m)
  }

  // --- Verification of the staged payload ---

  predicate SumsMatch(s: Staged, m: Manifest) {
    forall e <- m :: e.path in s && s[e.path] == File(e.bytes)
  }

  lemma {:induction false} FilesOfManifest(m: seq<Entry>)
    requires forall i, j :: 0 <= i < j < |m| ==> m[i].path != m[j].path
    ensures |FilesOf(m)| == |m|
    ensures forall i :: 0 <= i < |m| ==> m[i].path in FilesOf(m) && FilesOf(m)[m[i].path] == m[i].bytes
    ensures forall p <- FilesOf(m) :: exists i :: 0 <= i < |m| && m[i].path == p
    decreases |m|
  {
    if m != [] {
      var front, last := m[..|m| - 1], m[|m| - 1];
      FilesOfManifest(front);
      forall p <- FilesOf(front)
        ensures p != last.path && exists i :: 0 <= i < |m| && m[i].path == p
      {
        var i :| 0 <= i < |front| && front[i].path == p;
        assert m[i] == front[i];
      }
      assert FilesOf(m) == FilesOf(front)[last.path := last.bytes];
      forall i | 0 <= i < |m|
        ensures m[i].path in FilesOf(m) && FilesOf(m)[m[i].path] == m[i].bytes
      {
        if i < |m| - 1 { assert front[i] == m[i]; }
      }
    }
  }

  lemma SubmapOfTheSameSizeIsEqual(small: map<Path, Bytes>, large: map<Path, Bytes>)
    requires |small| == |large|
    requires forall p <- small :: p in large && large[p] == small[p]
    ensures small == large
  {
    assert small.Keys <= large.Keys;
    SubsetOfTheSameSizeIsEqual(small.Keys, large.Keys);
  }

  lemma {:induction false} SubsetOfTheSameSizeIsEqual(small: set<Path>, large: set<Path>)
    requires small <= large && |small| == |large|
    ensures small == large
  {
    if extra :| extra in large && extra !in small {
      assert small <= large - {extra};
      SubsetIsNoLarger(small, large - {extra});
    }
  }

  lemma {:induction false} SubsetIsNoLarger(small: set<Path>, large: set<Path>)
    requires small <= large
    ensures |small| <= |large|
    decreases small
  {
    if small != {} {
      var p :| p in small;
      SubsetIsNoLarger(small - {p}, large - {p});
    }
  }

  /** No link, no special file, a matching count and every listed checksum present leave
      no room for a file that is missing, extra or altered. */
  lemma ChecksAreEnough(s: Staged, m: Manifest)
    ensures Faithful(s, m) <==>
            (forall p <- s :: s[p].File? || s[p].Directory?) && |StagedFiles(s)| == |m| && SumsMatch(s, m)
  {
    FilesOfManifest(m);
    if (forall p <- s :: s[p].File? || s[p].Directory?) && |StagedFiles(s)| == |m| && SumsMatch(s, m) {
      forall p <- FilesOf(m)
        ensures p in StagedFiles(s) && StagedFiles(s)[p] == FilesOf(m)[p]
      {
        var i :| 0 <= i < |m| && m[i].path == p;
        assert m[i] in m;
      }
      SubmapOfTheSameSizeIsEqual(FilesOf(m), StagedFiles(s));
    }
    if Faithful(s, m) {
      forall e <- m
        ensures e.path in s && s[e.path] == File(e.bytes)
      {
        assert e.path in StagedFiles(s);
      }
    }
  }

  // --- The candidate ---

  // Whether the vault holds exactly what init made and nobody has added to it.
  predicate Pristine(t: Tree, scaffold: Scaffold) {
    && Clean(t) && |t.commits| == 1
    && (forall p <- t.commits[0] :: |p| == 1 && p[0] in scaffold)
    && (forall name <- scaffold :: [name] in t.commits[0] && [name] in t.files && t.files[[name]] == scaffold[name])
  }

  function Conflicts(t: Tree, into: Path, m: seq<Entry>): nat {
    if m == [] then 0
    else Conflicts(t, into, m[..|m| - 1]) + if Exists(t, into + m[|m| - 1].path) then 1 else 0
  }

  // install -d of the target's parent when it is nested, then mv -T.
  function MoveContained(t: Tree, payload: Tree, into: Path): Option<Tree>
    requires into != []
  {
    var ready := if |into| > 1 then InstallDir(t, into[..|into| - 1]) else Some(t);
    match ready
    case None => None
    case Some(r) => MoveInto(r, payload, into)
  }

  function Placed(t: Tree, payload: Tree, into: Path, overwrite: bool): Option<Tree> {
    if into != [] then MoveContained(t, payload, into)
    else if overwrite then CopyOver(t, payload)
    else CopyNew(t, payload)
  }

  function Finish(t: Option<Tree>): Option<Tree> {
    match t
    case None => None
    case Some(ready) =>
      match CommitChanges(ready)
      case None => None
      case Some(done) => if done.remote then None else Some(done)
  }

  // A candidate for a vault that is already a Brain.
  function ExistingCandidate(vault: Tree, payload: Tree, into: Path, overwrite: bool): Option<Tree> {
    Finish(Placed(Checkpoint(vault), payload, into, overwrite))
  }

  function AddMissing(t: Tree, names: seq<string>, scaffold: Scaffold): Option<Tree>
    requires forall name <- names :: name in scaffold
    decreases |names|
  {
    if names == [] then Some(t)
    else if [names[0]] in t.files then AddMissing(t, names[1..], scaffold)
    else if [names[0]] in t.dirs then None
    else AddMissing(t.(files := t.files[[names[0]] := scaffold[names[0]]]), names[1..], scaffold)
  }

  function FirstPlaced(payload: Tree, into: Path): Option<Tree> {
    if into == [] then Some(payload) else MoveContained(EMPTY, payload, into)
  }

  // A candidate for a vault that is not a Brain yet.
  function FirstCandidate(payload: Tree, into: Path, scaffold: Scaffold): Option<Tree> {
    match FirstPlaced(payload, into)
    case None => None
    case Some(placed) => Completed(placed, scaffold)
  }

  function Completed(placed: Tree, scaffold: Scaffold): Option<Tree> {
    match InstallDirs(placed, CANONICAL_DIRECTORIES)
    case None => None
    case Some(complete) => Finish(AddMissing(complete, CANONICAL_FILES, scaffold))
  }

  // The candidate a run builds: what the vault holds decides how.
  function Candidate(vault: Place, m: Manifest, payload: Tree, into: Path, scaffold: Scaffold, native: bool): Option<Tree> {
    if Classify(vault, native) == Initialized
    then ExistingCandidate(vault.tree, payload, into, Replaces(vault.tree, m, into, scaffold))
    else FirstCandidate(payload, into, scaffold)
  }

  // A pristine scaffold gives way to a payload that conflicts with it.
  predicate Replaces(t: Tree, m: Manifest, into: Path, scaffold: Scaffold) {
    into == [] && Conflicts(t, into, m) > 0 && Pristine(t, scaffold)
  }

  // A Brain with none of the destination paths, or a pristine one.
  predicate HasRoom(t: Tree, m: Manifest, into: Path, scaffold: Scaffold) {
    if into != [] then !Exists(t, into) else Conflicts(t, into, m) == 0 || Pristine(t, scaffold)
  }

  // --- Room ---

  // Its files are the templates, byte for byte, and so is its one commit.
  predicate AsInitMadeIt(t: Tree, scaffold: Scaffold) { t.files == Templates(scaffold) && t.commits == [t.files] }

  // Where the payload is to go there is something.
  predicate InTheWay(t: Tree, m: Manifest, into: Path) {
    if into != [] then Exists(t, into) else exists e <- m :: Exists(t, e.path)
  }

  predicate Occupied(t: Tree, m: Manifest, into: Path, scaffold: Scaffold) {
    InTheWay(t, m, into) && !(into == [] && AsInitMadeIt(t, scaffold))
  }

  function ConflictingPaths(t: Tree, into: Path, m: seq<Entry>): set<Path> {
    set e | e in m && Exists(t, into + e.path) :: e.path
  }

  lemma PristineHoldsTheTemplates(t: Tree, scaffold: Scaffold)
    requires Pristine(t, scaffold)
    ensures AsInitMadeIt(t, scaffold)
  {
    var files := Templates(scaffold);
    assert t.commits == [t.files];
    forall p <- t.files
      ensures p in files && files[p] == t.files[p]
    {
      assert p == [p[0]];
    }
    assert t.files == files;
  }

  /** The check whether a Brain is still untouched passes exactly when its files are the
      templates, byte for byte, and so is its one commit. */
  lemma PristineIsAsMade(t: Tree, scaffold: Scaffold)
    ensures Pristine(t, scaffold) <==> AsInitMadeIt(t, scaffold)
  {
    if Pristine(t, scaffold) { PristineHoldsTheTemplates(t, scaffold); }
    if AsInitMadeIt(t, scaffold) {
      assert forall name <- scaffold :: name in {"README.md", "AGENTS.md", "todo.md"};
    }
  }

  lemma {:induction false} ConflictsAreCounted(t: Tree, into: Path, m: seq<Entry>)
    requires forall i, j :: 0 <= i < j < |m| ==> m[i].path != m[j].path
    ensures Conflicts(t, into, m) == |ConflictingPaths(t, into, m)|
    decreases |m|
  {
    if m != [] {
      var front, last := m[..|m| - 1], m[|m| - 1];
      ConflictsAreCounted(t, into, front);
      assert m == front + [last];
      assert last.path !in ConflictingPaths(t, into, front);
      assert ConflictingPaths(t, into, m)
             == ConflictingPaths(t, into, front) + if Exists(t, into + last.path) then {last.path} else {};
    }
  }

  /** A Brain has room for a payload exactly when nothing is where it is to go, or, for a
      payload that goes to the root, when the Brain is still exactly what init made. */
  lemma HasRoomExactly(t: Tree, m: Manifest, into: Path, scaffold: Scaffold)
    ensures HasRoom(t, m, into, scaffold) <==> !Occupied(t, m, into, scaffold)
    ensures Replaces(t, m, into, scaffold) <==> into == [] && InTheWay(t, m, into) && AsInitMadeIt(t, scaffold)
  {
    PristineIsAsMade(t, scaffold);
    if into == [] {
      ConflictsAreCounted(t, into, m);
      assert forall e <- m :: into + e.path == e.path;
      if e :| e in m && Exists(t, e.path) { assert e.path in ConflictingPaths(t, into, m); }
      if p :| p in ConflictingPaths(t, into, m) { assert InTheWay(t, m, into); }
    }
  }

  // --into names a contained data subdirectory, or nothing.
  predicate ValidInto(into: Path) {
    forall segment <- into :: segment !in {"", ".", "..", ".git", ".obsidian"}
                              && forall c <- segment :: c !in {'/', '\\', '\n', '\r', '\0'}
  }

  datatype TransferReport = TransferReport(dryRun: bool, files: nat, conflicts: nat)

  lemma {:induction false} AddMissingAdds(t: Tree, names: seq<string>, scaffold: Scaffold)
    requires forall name <- names :: name in scaffold
    requires AddMissing(t, names, scaffold).Some?
    ensures var r := AddMissing(t, names, scaffold).value;
            && r == t.(files := r.files)
            && (forall p <- t.files :: p in r.files && r.files[p] == t.files[p])
            && (forall name <- names :: [name] in r.files)
            && (forall p <- r.files | p !in t.files :: |p| == 1 && p[0] in names && r.files[p] == scaffold[p[0]])
    decreases |names|
  {
    if names != [] {
      var rest := names[1..];
      if [names[0]] in t.files {
        AddMissingAdds(t, rest, scaffold);
      } else {
        AddMissingAdds(t.(files := t.files[[names[0]] := scaffold[names[0]]]), rest, scaffold);
      }
      var r := AddMissing(t, names, scaffold).value;
      forall name <- names
        ensures [name] in r.files
      {
        if name != names[0] { assert name in rest; }
      }
    }
  }

  lemma RebaseAtRoot(files: map<Path, Bytes>)
    ensures Rebase([], files) == files
  {
    var r := Rebase([], files);
    RebasedFiles([], files);
    forall p <- files
      ensures p in r && r[p] == files[p]
    {
      assert [] + p == p;
    }
    forall q <- r
      ensures q in files
    {
      assert q[0..] == q;
    }
  }

  lemma PlacedAdds(t: Tree, payload: Tree, into: Path, overwrite: bool)
    requires Placed(t, payload, into, overwrite).Some?
    ensures var r := Placed(t, payload, into, overwrite).value;
            r == t.(files := t.files + Rebase(into, payload.files), dirs := r.dirs) && t.dirs <= r.dirs
  {
    if into == [] { RebaseAtRoot(payload.files); }
  }

  lemma FinishedAdds(vault: Tree, placed: Tree)
    requires placed == Checkpoint(vault).(files := placed.files, dirs := placed.dirs)
    ensures match Finish(Some(placed))
            case None => placed.files == map[] || placed.files == vault.files || vault.remote
            case Some(c) => placed.files != vault.files && !vault.remote
                            && c == vault.(files := placed.files, dirs := placed.dirs, commits := vault.commits + [vault.files, placed.files])
  {
    assert placed.commits[|placed.commits| - 1] == vault.files;
    assert placed.commits + [placed.files] == vault.commits + [vault.files, placed.files];
  }

  // What an existing Brain's candidate is, and when there is none.
  lemma ExistingCandidateIsWhole(vault: Tree, payload: Tree, into: Path, overwrite: bool)
    requires Placed(Checkpoint(vault), payload, into, overwrite).Some?
    ensures var files := vault.files + Rebase(into, payload.files);
            match ExistingCandidate(vault, payload, into, overwrite)
            case None => files == map[] || files == vault.files || vault.remote
            case Some(c) => files != vault.files && vault.dirs <= c.dirs && !vault.remote
                            && c == vault.(files := files, dirs := c.dirs, commits := vault.commits + [vault.files, files])
  {
    PlacedAdds(Checkpoint(vault), payload, into, overwrite);
    FinishedAdds(vault, Placed(Checkpoint(vault), payload, into, overwrite).value);
  }

  lemma ExistingCandidateIsABrain(vault: Tree, payload: Tree, into: Path, overwrite: bool)
    requires vault.secure && Managed(vault) && ExistingCandidate(vault, payload, into, overwrite).Some?
    ensures var c := ExistingCandidate(vault, payload, into, overwrite).value;
            c.secure && Managed(c) && Clean(c)
  {
    ExistingCandidateIsWhole(vault, payload, into, overwrite);
  }

  lemma FirstCandidateIsABrain(payload: Tree, into: Path, scaffold: Scaffold)
    requires FirstCandidate(payload, into, scaffold).Some?
    requires payload == EMPTY.(files := payload.files, dirs := payload.dirs)
    ensures var c := FirstCandidate(payload, into, scaffold).value;
            c.secure && Managed(c) && Clean(c)
  {
    FirstCandidateIsWhole(payload, into, scaffold);
  }

  /** On a native file system every finished candidate is a clean Brain. */
  lemma CandidateIsInitialized(vault: Place, m: Manifest, arrives: Staged, into: Path, scaffold: Scaffold, native: bool)
    ensures var built := Candidate(vault, m, StagedTree(arrives), into, scaffold, native);
            native && Classify(vault, native) != Drift && built.Some? ==>
              Classify(There(built.value), native) == Initialized && Clean(built.value)
  {
    var built := Candidate(vault, m, StagedTree(arrives), into, scaffold, native);
    if native && Classify(vault, native) != Drift && built.Some? {
      assert built.value.secure && Managed(built.value) && Clean(built.value) by {
        if Classify(vault, native) == Initialized {
          ExistingCandidateIsABrain(vault.tree, StagedTree(arrives), into, Replaces(vault.tree, m, into, scaffold));
        } else {
          FirstCandidateIsABrain(StagedTree(arrives), into, scaffold);
        }
      }
    }
  }

  lemma FirstPlacedIsThePayload(payload: Tree, into: Path)
    requires FirstPlaced(payload, into).Some? && payload == EMPTY.(files := payload.files, dirs := payload.dirs)
    ensures var r := FirstPlaced(payload, into).value;
            r == EMPTY.(files := Rebase(into, payload.files), dirs := r.dirs)
  {
    if into == [] {
      RebaseAtRoot(payload.files);
    } else {
      PlacedAdds(EMPTY, payload, into, false);
      assert map[] + Rebase(into, payload.files) == Rebase(into, payload.files);
    }
  }

  /** A first import is the payload below its destination plus the parts of the scaffold
      the payload does not bring, committed once. */
  lemma FirstCandidateIsWhole(payload: Tree, into: Path, scaffold: Scaffold)
    requires FirstCandidate(payload, into, scaffold).Some?
    requires payload == EMPTY.(files := payload.files, dirs := payload.dirs)
    ensures var c := FirstCandidate(payload, into, scaffold).value;
            && HasScaffold(c) && c.commits == [c.files] && !c.remote && !c.links && c.secure
            && (forall p <- payload.files :: into + p in c.files && c.files[into + p] == payload.files[p])
            && (forall p <- c.files | p !in Rebase(into, payload.files) :: Canonical(p) && c.files[p] == scaffold[p[0]])
  {
    FirstPlacedIsThePayload(payload, into);
    RebasedFiles(into, payload.files);
    var placed := FirstPlaced(payload, into).value;
    InstallDirsAdds(placed, CANONICAL_DIRECTORIES);
    var complete := InstallDirs(placed, CANONICAL_DIRECTORIES).value;
    AddMissingAdds(complete, CANONICAL_FILES, scaffold);
  }

  predicate Canonical(p: Path) { |p| == 1 && p[0] in CANONICAL_FILES }

  lemma PristineHoldsOnlyTheScaffold(t: Tree, scaffold: Scaffold)
    requires Pristine(t, scaffold)
    ensures forall p <- t.files :: Canonical(p)
  {
  }

  lemma NothingBelowAFreshPlace(t: Tree, into: Path, payload: map<Path, Bytes>)
    requires WellFormed(t) && into != [] && !Exists(t, into)
    ensures t.files.Keys !! Rebase(into, payload).Keys
  {
    RebasedFiles(into, payload);
    forall p <- t.files
      ensures p !in Rebase(into, payload)
    {
      if |p| == |into| { assert p == p[..|into|]; }
    }
  }

  // Which old files give way when files are added below a place.
  lemma OnlyCollisionsGiveWay(files: map<Path, Bytes>, into: Path, more: map<Path, Bytes>)
    ensures var all := files + Rebase(into, more);
            && all.Keys == files.Keys + Rebase(into, more).Keys
            && (forall p <- more :: into + p in all && all[into + p] == more[p])
            && (forall p <- files :: p in all && (all[p] == files[p] || p in Rebase(into, more)))
  {
    RebasedFiles(into, more);
  }

  // Without an untouched scaffold to replace, the payload goes where nothing is.
  lemma PayloadGoesToFreshPlaces(vault: Tree, m: Manifest, payload: Tree, into: Path, scaffold: Scaffold)
    requires WellFormed(vault) && HasRoom(vault, m, into, scaffold) && payload.files == FilesOf(m)
    requires !Replaces(vault, m, into, scaffold)
    requires Placed(Checkpoint(vault), payload, into, false).Some?
    ensures vault.files.Keys !! Rebase(into, FilesOf(m)).Keys
  {
    if into != [] {
      NothingBelowAFreshPlace(vault, into, FilesOf(m));
    } else {
      RebaseAtRoot(FilesOf(m));
    }
  }

  // What is in the candidate c: every payload file at its place, every old file as it was,
  // or a scaffold file that gave way, and nothing more; and both commits.
  predicate Conserves(vault: Tree, c: Tree, payload: map<Path, Bytes>, into: Path, untouched: bool) {
    && c.files.Keys == vault.files.Keys + Rebase(into, payload).Keys
    && (forall p <- payload :: into + p in c.files && c.files[into + p] == payload[p])
    && (forall p <- vault.files :: c.files[p] == vault.files[p] || (Canonical(p) && into == [] && untouched))
    && vault.dirs <= c.dirs
    && c.commits == vault.commits + [vault.files, c.files]
  }

  /** Importing into a Brain keeps every old file with its bytes, unless the whole Brain was
      an untouched scaffold; it puts every payload file at its place, adds nothing else, and
      leaves the old files in the history too. */
  lemma ImportConservesFiles(vault: Tree, m: Manifest, payload: Tree, into: Path, scaffold: Scaffold)
    requires WellFormed(vault) && HasRoom(vault, m, into, scaffold) && payload.files == FilesOf(m)
    requires ExistingCandidate(vault, payload, into, Replaces(vault, m, into, scaffold)).Some?
    ensures Conserves(vault, ExistingCandidate(vault, payload, into, Replaces(vault, m, into, scaffold)).value,
                      payload.files, into, AsInitMadeIt(vault, scaffold))
  {
    PristineIsAsMade(vault, scaffold);
    var overwrite := Replaces(vault, m, into, scaffold);
    ExistingCandidateIsWhole(vault, payload, into, overwrite);
    OnlyCollisionsGiveWay(vault.files, into, payload.files);
    if overwrite {
      PristineHoldsOnlyTheScaffold(vault, scaffold);
    } else {
      PayloadGoesToFreshPlaces(vault, m, payload, into, scaffold);
    }
  }

  lemma BrainHoldsFiles(vault: Tree, native: bool)
    requires Classify(There(vault), native) == Initialized
    ensures ["README.md"] in vault.files && !vault.remote
  {
    assert CANONICAL_FILES[0] in CANONICAL_FILES;
  }

  lemma AddsNothing(files: map<Path, Bytes>, into: Path, more: map<Path, Bytes>)
    ensures files + Rebase(into, more) == files <==>
            forall p <- more :: into + p in files && files[into + p] == more[p]
  {
    var r := Rebase(into, more);
    RebasedFiles(into, more);
    if files + r == files {
      forall p <- more
        ensures into + p in files && files[into + p] == more[p]
      {
        assert into + p in r && (files + r)[into + p] == more[p];
      }
    }
    if forall p <- more :: into + p in files && files[into + p] == more[p] {
      forall q <- r
        ensures q in files && files[q] == r[q]
      {
        assert q == into + q[|into|..];
      }
      assert files + r == files;
    }
  }

  /** Importing what the Brain already holds, byte for byte, leaves Git nothing to commit,
      and only then does a payload that has its place get no candidate. */
  lemma OnlyNewContentIsImported(vault: Tree, m: Manifest, arrives: Staged, into: Path, scaffold: Scaffold, native: bool)
    requires Classify(There(vault), native) == Initialized && Faithful(arrives, m)
    requires Placed(Checkpoint(vault), StagedTree(arrives), into, Replaces(vault, m, into, scaffold)).Some?
    ensures Candidate(There(vault), m, StagedTree(arrives), into, scaffold, native).Some? <==>
            exists p <- FilesOf(m) :: into + p !in vault.files || vault.files[into + p] != FilesOf(m)[p]
  {
    var payload, overwrite := StagedTree(arrives), Replaces(vault, m, into, scaffold);
    BrainHoldsFiles(vault, native);
    assert vault.files + Rebase(into, FilesOf(m)) != map[] by {
      assert ["README.md"] in vault.files + Rebase(into, FilesOf(m));
    }
    ExistingCandidateIsWhole(vault, payload, into, overwrite);
    AddsNothing(vault.files, into, FilesOf(m));
  }

  // What init makes and nobody has touched.
  function Untouched(scaffold: Scaffold): Tree {
    Tree(Templates(scaffold), set name <- CANONICAL_DIRECTORIES :: [name], [Templates(scaffold)], false, false, true)
  }

  // The payload of one file at the source's root, and what arrives of it.
  function OneFile(name: string, text: Bytes): Manifest { [Entry([name], text)] }

  function OneArrival(name: string, text: Bytes): Staged { map[[name] := File(text)] }

  lemma OneFileArrives(name: string, text: Bytes)
    ensures Faithful(OneArrival(name, text), OneFile(name, text))
    ensures FilesOf(OneFile(name, text)) == map[[name] := text]
    ensures StagedTree(OneArrival(name, text)) == EMPTY.(files := map[[name] := text])
  {
    var m := OneFile(name, text);
    assert m[..|m| - 1] == [];
    assert StagedFiles(OneArrival(name, text)) == map[[name] := text];
  }

  lemma OneFileConflicts(t: Tree, name: string, text: Bytes)
    requires [name] in t.files
    ensures Conflicts(t, ROOT, OneFile(name, text)) == 1
  {
    var m := OneFile(name, text);
    assert m[..|m| - 1] == [];
    assert ROOT + m[0].path == [name];
  }

  /** So a payload that is a file of the untouched scaffold is welcome, staged and verified,
      and then refused for having nothing to commit. */
  lemma ScaffoldItselfIsRefused(scaffold: Scaffold)
    ensures var vault, text := There(Untouched(scaffold)), scaffold["README.md"];
            var m, arrives := OneFile("README.md", text), OneArrival("README.md", text);
            && Classify(vault, true) == Initialized && Welcome(vault, m, ROOT, scaffold, true) && Faithful(arrives, m)
            && !Acceptable(vault, m, arrives, ROOT, scaffold, true)
  {
    var t, text := Untouched(scaffold), scaffold["README.md"];
    var m, arrives := OneFile("README.md", text), OneArrival("README.md", text);
    UntouchedIsABrain(scaffold);
    OneFileArrives("README.md", text);
    OneFileConflicts(t, "README.md", text);
    HeldFileIsRefused(t, m, arrives, scaffold);
  }

  lemma HeldFileIsRefused(t: Tree, m: Manifest, arrives: Staged, scaffold: Scaffold)
    requires Classify(There(t), true) == Initialized && Faithful(arrives, m)
    requires forall p <- FilesOf(m) :: p in t.files && t.files[p] == FilesOf(m)[p]
    ensures Candidate(There(t), m, StagedTree(arrives), ROOT, scaffold, true).None?
  {
    if Placed(Checkpoint(t), StagedTree(arrives), ROOT, Replaces(t, m, ROOT, scaffold)).Some? {
      OnlyNewContentIsImported(t, m, arrives, ROOT, scaffold, true);
      assert forall p <- FilesOf(m) :: ROOT + p == p;
    }
  }

  lemma UntouchedIsABrain(scaffold: Scaffold)
    ensures Classify(There(Untouched(scaffold)), true) == Initialized && Pristine(Untouched(scaffold), scaffold)
  {
    var t := Untouched(scaffold);
    forall name <- CANONICAL_DIRECTORIES
      ensures [name] in t.dirs
    {
    }
    assert t.files != map[] by { assert ["README.md"] in t.files; }
  }

  // --- What can be had back ---

  // A plain file is all there is at its path.
  const ROOT: Path := []

  // Whether all files of one moment can be had back from what a path holds: there were
  // none, or they are there, or in the history that is there.
  predicate Recoverable(files: map<Path, Bytes>, place: Place) {
    || files == map[]
    || match place
       case Absent => false
       case Linked => false
       case Plain(bytes) => files == map[ROOT := bytes]
       case There(t) => files == t.files || files in t.commits
  }

  ghost predicate Keeps(before: Place, after: Place) {
    forall files :: Recoverable(files, before) ==> Recoverable(files, after)
  }

  lemma RootIsNoFile(payload: Tree, into: Path, scaffold: Scaffold, m: Manifest)
    requires FirstCandidate(payload, into, scaffold).Some? && payload.files == FilesOf(m)
    requires payload == EMPTY.(files := payload.files, dirs := payload.dirs)
    ensures var c := FirstCandidate(payload, into, scaffold).value;
            ROOT !in c.files && c.commits == [c.files]
  {
    FirstCandidateIsWhole(payload, into, scaffold);
    RebasedFiles(into, payload.files);
    FilesOfManifest(m);
    assert into == [] ==> ROOT[|into|..] == ROOT;
    assert ROOT !in Rebase(into, payload.files);
  }

  lemma KeepsItself(place: Place)
    ensures Keeps(place, place)
  {
  }

  lemma BrainIsKept(t: Tree, payload: Tree, into: Path, overwrite: bool)
    requires ExistingCandidate(t, payload, into, overwrite).Some?
    ensures Keeps(There(t), There(ExistingCandidate(t, payload, into, overwrite).value))
  {
    assert Placed(Checkpoint(t), payload, into, overwrite).Some?;
    ExistingCandidateIsWhole(t, payload, into, overwrite);
    var c := ExistingCandidate(t, payload, into, overwrite).value;
    assert c.commits == t.commits + [t.files, c.files];
    assert forall files <- t.commits :: files in c.commits;
    assert t.files in c.commits;
  }

  lemma PlainFileIsLost(bytes: Bytes, payload: Tree, into: Path, scaffold: Scaffold, m: Manifest)
    requires FirstCandidate(payload, into, scaffold).Some? && payload.files == FilesOf(m)
    requires payload == EMPTY.(files := payload.files, dirs := payload.dirs)
    ensures !Keeps(Plain(bytes), There(FirstCandidate(payload, into, scaffold).value))
  {
    RootIsNoFile(payload, into, scaffold, m);
    var gone := map[ROOT := bytes];
    assert ROOT in gone && Recoverable(gone, Plain(bytes));
    assert !Recoverable(gone, There(FirstCandidate(payload, into, scaffold).value));
  }

  /** What takes the place of something keeps all its files and its whole history, with one
      exception: of a plain file at the vault's path nothing is kept. */
  lemma OnlyAPlainFileIsLost(was: Place, m: Manifest, arrives: Staged, into: Path, scaffold: Scaffold, native: bool)
    requires was != Absent && Classify(was, native) != Drift && Faithful(arrives, m)
    requires Candidate(was, m, StagedTree(arrives), into, scaffold, native).Some?
    ensures Keeps(was, There(Candidate(was, m, StagedTree(arrives), into, scaffold, native).value)) <==> !was.Plain?
  {
    if Classify(was, native) == Initialized {
      BrainIsKept(was.tree, StagedTree(arrives), into, Replaces(was.tree, m, into, scaffold));
    } else if was.Plain? {
      PlainFileIsLost(was.bytes, StagedTree(arrives), into, scaffold, m);
    } else {
      assert forall files :: Recoverable(files, was) ==> files == map[];
    }
  }

  lemma {:induction false} FreeDirectoriesInstall(t: Tree, names: seq<string>)
    requires forall name <- names :: [name] !in t.files
    ensures InstallDirs(t, names).Some?
    ensures forall d <- InstallDirs(t, names).value.dirs :: d in t.dirs || (|d| == 1 && d[0] in names)
    decreases |names|
  {
    if names != [] {
      var p := [names[0]];
      forall q <- Prefixes(p)
        ensures q == p
      {
      }
      FreeDirectoriesInstall(InstallDir(t, p).value, names[1..]);
    }
  }

  lemma {:induction false} FreeFilesAreAdded(t: Tree, names: seq<string>, scaffold: Scaffold)
    requires forall name <- names :: name in scaffold && [name] !in t.dirs
    ensures AddMissing(t, names, scaffold).Some?
    decreases |names|
  {
    if names != [] && [names[0]] in t.files {
      FreeFilesAreAdded(t, names[1..], scaffold);
    } else if names != [] {
      FreeFilesAreAdded(t.(files := t.files[[names[0]] := scaffold[names[0]]]), names[1..], scaffold);
    }
  }

  lemma NamesAreApart()
    ensures forall name <- CANONICAL_FILES :: name !in CANONICAL_DIRECTORIES
  {
  }

  lemma LooseFilesMakeAVault(payload: Tree, scaffold: Scaffold)
    requires payload.dirs == {} && payload.commits == [] && !payload.remote
    requires forall name <- CANONICAL_DIRECTORIES :: [name] !in payload.files
    ensures FirstCandidate(payload, ROOT, scaffold).Some?
  {
    FreeDirectoriesInstall(payload, CANONICAL_DIRECTORIES);
    var complete := InstallDirs(payload, CANONICAL_DIRECTORIES).value;
    InstallDirsAdds(payload, CANONICAL_DIRECTORIES);
    NamesAreApart();
    FreeFilesAreAdded(complete, CANONICAL_FILES, scaffold);
    LooseFilesAreCommitted(complete, scaffold);
  }

  lemma LooseFilesAreCommitted(complete: Tree, scaffold: Scaffold)
    requires complete.commits == [] && !complete.remote && AddMissing(complete, CANONICAL_FILES, scaffold).Some?
    ensures Finish(AddMissing(complete, CANONICAL_FILES, scaffold)).Some?
  {
    AddMissingAdds(complete, CANONICAL_FILES, scaffold);
    assert CANONICAL_FILES[0] in CANONICAL_FILES;
  }

  // What arrives for the root meets nothing there but directories where it has some itself.
  predicate MeetsNothing(arrives: Staged, t: Tree) {
    forall p <- arrives :: p !in t.files && (arrives[p].File? ==> p !in t.dirs)
  }

  /** Files that are new to a Brain are always accepted: at its root when nothing is in their
      way, and below a new name whatever there is. */
  lemma NewFilesAreAccepted(t: Tree, m: Manifest, arrives: Staged, into: Path, scaffold: Scaffold)
    requires WellFormed(t) && Classify(There(t), true) == Initialized && Faithful(arrives, m) && m != []
    requires if into == [] then MeetsNothing(arrives, t) else |into| == 1 && !Exists(t, into)
    ensures Acceptable(There(t), m, arrives, into, scaffold, true)
  {
    var payload := StagedTree(arrives);
    FilesOfManifest(m);
    var p := m[0].path;
    assert p in FilesOf(m) && p in arrives && arrives[p].File?;
    HasRoomExactly(t, m, into, scaffold);
    NewFilesHaveNoWayBarred(t, m, arrives, into);
    assert !Replaces(t, m, into, scaffold);
    if into != [] { NothingBelowAFreshPlace(t, into, payload.files); }
    RebasedFiles(into, payload.files);
    assert into == [] ==> into + p == p;
    assert into + p !in t.files;
    OnlyNewContentIsImported(t, m, arrives, into, scaffold, true);
  }

  lemma NewFilesHaveNoWayBarred(t: Tree, m: Manifest, arrives: Staged, into: Path)
    requires Faithful(arrives, m)
    requires if into == [] then MeetsNothing(arrives, t) else |into| == 1 && !Exists(t, into)
    ensures !InTheWay(t, m, into) && Placed(Checkpoint(t), StagedTree(arrives), into, false).Some?
  {
    FilesOfManifest(m);
    forall e <- m
      ensures e.path in arrives && arrives[e.path].File?
    {
      var i :| 0 <= i < |m| && m[i] == e;
      assert e.path in StagedFiles(arrives);
    }
  }

  /** The exception happens: an import of one note is accepted over any plain file. */
  lemma PlainFileGivesWay(bytes: Bytes, note: Bytes, scaffold: Scaffold)
    ensures Acceptable(Plain(bytes), OneFile("a.md", note), OneArrival("a.md", note), ROOT, scaffold, true)
  {
    OneFileArrives("a.md", note);
    LooseFilesMakeAVault(StagedTree(OneArrival("a.md", note)), scaffold);
  }

  // --- What an import may change ---

  // Every file of a tree is still there, byte for byte.
  predicate HasAllOf(place: Place, t: Tree) {
    place.There? && forall p <- t.files :: p in place.tree.files && place.tree.files[p] == t.files[p]
  }

  // A vault of one commit: the payload at its place and the templates it does not bring.
  predicate FirstImported(place: Place, payload: map<Path, Bytes>, into: Path, scaffold: Scaffold) {
    && place.There? && place.tree.commits == [place.tree.files]
    && (forall p <- payload :: into + p in place.tree.files && place.tree.files[into + p] == payload[p])
    && (forall name <- CANONICAL_FILES :: [name] in place.tree.files)
    && (forall p <- place.tree.files :: || (into <= p && p[|into|..] in payload)
                                        || (Canonical(p) && place.tree.files[p] == scaffold[p[0]]))
  }

  // The number of the manifest's files that are to go where something is, for a Brain.
  function ConflictsWith(place: Place, into: Path, m: Manifest, native: bool): nat {
    if place.There? && Classify(place, native) == Initialized then |ConflictingPaths(place.tree, into, m)| else 0
  }

  /** A dry run counts taken paths, a run refuses a destination that is there: so of a Brain's
      own empty inbox the one reports no conflict and the other is refused. */
  lemma DryRunDoesNotForetell(t: Tree, m: Manifest, scaffold: Scaffold)
    requires Classify(There(t), true) == Initialized && forall e <- m :: !Exists(t, ["inbox"] + e.path)
    ensures ConflictsWith(There(t), ["inbox"], m, true) == 0 && Occupied(t, m, ["inbox"], scaffold)
    ensures !Welcome(There(t), m, ["inbox"], scaffold, true)
  {
    assert CANONICAL_DIRECTORIES[0] == "inbox" && CANONICAL_DIRECTORIES[0] in CANONICAL_DIRECTORIES;
    HasRoomExactly(t, m, ["inbox"], scaffold);
    assert ConflictingPaths(t, ["inbox"], m) == {};
  }

  lemma FilesAreKept(was: Tree, m: Manifest, arrives: Staged, into: Path, scaffold: Scaffold, native: bool)
    requires WellFormed(was) && Classify(There(was), native) == Initialized
    requires Welcome(There(was), m, into, scaffold, native) && Faithful(arrives, m)
    requires Candidate(There(was), m, StagedTree(arrives), into, scaffold, native).Some?
    ensures var c := Candidate(There(was), m, StagedTree(arrives), into, scaffold, native).value;
            HasAllOf(There(c), was) || (into == [] && AsInitMadeIt(was, scaffold))
  {
    ImportConservesFiles(was, m, StagedTree(arrives), into, scaffold);
    PristineIsAsMade(was, scaffold);
  }

  lemma FirstIsImported(was: Place, m: Manifest, arrives: Staged, into: Path, scaffold: Scaffold, native: bool)
    requires Classify(was, native) == Uninitialized && Faithful(arrives, m)
    requires Candidate(was, m, StagedTree(arrives), into, scaffold, native).Some?
    ensures FirstImported(There(Candidate(was, m, StagedTree(arrives), into, scaffold, native).value), FilesOf(m), into, scaffold)
  {
    FirstCandidateIsWhole(StagedTree(arrives), into, scaffold);
    RebasedFiles(into, FilesOf(m));
  }

  // --- The guest and the run ---

  // One call of import.
  datatype Call = Call(m: Manifest, arrives: Staged, into: Path, dryRun: bool, faults: set<ImportStep>)

  // What a run would build, whether the vault and the payload are fit for it, and how many
  // paths it would report as taken.
  datatype Plan = Plan(built: Option<Tree>, fits: bool, taken: nat)

  function PlanOf(vault: Place, m: Manifest, arrives: Staged, into: Path, scaffold: Scaffold, native: bool): Plan {
    Plan(Candidate(vault, m, StagedTree(arrives), into, scaffold, native),
         Welcome(vault, m, into, scaffold, native) && Faithful(arrives, m),
         if into == [] then ConflictsWith(vault, [], m, native) else 0)
  }

  // What the deferred block runs. A run that is killed is one in which its last command
  // and all of these fail.
  const DEFERRED := {ExchangeBack, CleanUp, ReleaseLock}

  class Guest {
    const scaffold: Scaffold
    const native: bool
    var vault: Place
    var staging: Option<Staged>
    var candidate: Place
    var skillInstalled: bool
    // Every value the vault's path has had, oldest first.
    ghost var seen: seq<Place>

    constructor (scaffold: Scaffold, native: bool, vault: Place)
      ensures this.scaffold == scaffold && this.native == native && this.vault == vault && this.seen == [vault]
    {
      this.scaffold, this.native, this.vault := scaffold, native, vault;
      this.staging, this.candidate, this.skillInstalled := None, Absent, false;
      this.seen := [vault];
    }

    // Atomic exchange of what is at the vault with what is at the candidate. A failure
    // changes neither.
    method ExchangeImportCandidate(fails: bool) returns (ok: bool)
      modifies this`vault, this`candidate, this`seen
      ensures ok == (!fails && old(vault) != Absent && old(candidate) != Absent)
      ensures ok ==> vault == old(candidate) && candidate == old(vault) && seen == old(seen) + [vault]
      ensures !ok ==> vault == old(vault) && candidate == old(candidate) && seen == old(seen)
    {
      if fails || vault == Absent || candidate == Absent { return false; }
      vault, candidate := candidate, vault;
      seen := seen + [vault];
      return true;
    }

    method ImportConflicts(m: Manifest, into: Path) returns (conflicts: nat)
      requires vault.There?
      ensures conflicts == Conflicts(vault.tree, into, m)
    {
      conflicts := 0;
      for i := 0 to |m|
        invariant conflicts == Conflicts(vault.tree, into, m[..i])
      {
        assert m[..i + 1][..i] == m[..i];
        if Exists(vault.tree, into + m[i].path) { conflicts := conflicts + 1; }
      }
      assert m[..|m|] == m;
    }

    method VerifyGuestPayload(m: Manifest, faults: set<ImportStep>) returns (ok: bool)
      requires staging.Some?
      ensures ok <==> InspectPayload !in faults && SumPayload !in faults && Faithful(staging.value, m)
    {
      ChecksAreEnough(staging.value, m);
      ok := false;
      if InspectPayload in faults { return; }
      if exists p <- staging.value :: staging.value[p].Link? { return; }
      if exists p <- staging.value :: !staging.value[p].Directory? && !staging.value[p].File? { return; }
      if |StagedFiles(staging.value)| != |m| { return; }
      if SumPayload in faults { return; }
      ok := SumsMatch(staging.value, m);
    }

    // Clearing the staging also removes whatever an earlier run left at the candidate.
    method PrepareGuestImport(m: Manifest, arrives: Staged, faults: set<ImportStep>) returns (err: Option<Kind>)
      modifies this`staging, this`candidate
      ensures candidate == if CleanStaging in faults then old(candidate) else Absent
      ensures err.None? ==> staging == Some(arrives)
      ensures err.None? <==> Faithful(arrives, m) && forall step <- [CleanStaging, ReadSessionUser, MakeStaging, WriteManifest,
                                                                   CopyIn, AdoptPayload, InspectPayload, SumPayload] :: step !in faults
    {
      if CleanStaging in faults { return Some(GuestCommand); }
      staging, candidate := None, Absent;
      if ReadSessionUser in faults { return Some(GuestCommand); }
      if MakeStaging in faults { return Some(GuestCommand); }
      if WriteManifest in faults { return Some(GuestCommand); }
      if CopyIn in faults { return Some(Transport); }
      staging := Some(arrives);
      if AdoptPayload in faults { return Some(GuestCommand); }
      var ok := VerifyGuestPayload(m, faults);
      if !ok { return Some(Verification); }
      return None;
    }

    // Commits what is in the candidate and checks that it is a lone snapshot.
    method CommitCandidate(faults: set<ImportStep>) returns (err: Option<Kind>)
      requires candidate.There?
      modifies this`candidate
      ensures candidate.There?
      ensures err.None? <==> CommitSnapshot !in faults && InspectSnapshot !in faults && Finish(Some(old(candidate).tree)).Some?
      ensures err.None? ==> Finish(Some(old(candidate).tree)) == Some(candidate.tree)
    {
      var committed := CommitChanges(candidate.tree);
      if CommitSnapshot in faults || committed.None? { return Some(GitFailure); }
      candidate := There(committed.value);
      if InspectSnapshot in faults || candidate.tree.remote { return Some(GitFailure); }
      return None;
    }

    method MovePayloadIntoContainedCandidate(payload: Tree, into: Path, faults: set<ImportStep>) returns (err: Option<Kind>)
      requires candidate.There? && into != []
      modifies this`candidate
      ensures candidate.There?
      ensures err.None? <==> MovePayload !in faults && (|into| > 1 ==> MakeParent !in faults)
                             && MoveContained(old(candidate).tree, payload, into).Some?
      ensures err.None? ==> MoveContained(old(candidate).tree, payload, into) == Some(candidate.tree)
    {
      if |into| > 1 {
        var ready := InstallDir(candidate.tree, into[..|into| - 1]);
        if MakeParent in faults || ready.None? { return Some(GuestCommand); }
        candidate := There(ready.value);
      }
      var moved := MoveInto(candidate.tree, payload, into);
      if MovePayload in faults || moved.None? { return Some(GuestCommand); }
      candidate := There(moved.value);
      return None;
    }

    method BuildExistingImportCandidate(payload: Tree, into: Path, replacePristine: bool, faults: set<ImportStep>)
      returns (err: Option<Kind>)
      requires vault.There? && candidate == Absent
      modifies this`candidate
      ensures err.None? ==> candidate.There? && Some(candidate.tree) == ExistingCandidate(vault.tree, payload, into, replacePristine)
      ensures faults == {} && ExistingCandidate(vault.tree, payload, into, replacePristine).Some? ==> err.None?
    {
      if MakeCandidate in faults { return Some(GuestCommand); }
      candidate := There(EMPTY);
      if CopyVault in faults { return Some(GuestCommand); }
      candidate := vault;
      if CommitCheckpoint in faults { return Some(GitFailure); }
      candidate := There(Checkpoint(candidate.tree));
      if into != [] {
        err := MovePayloadIntoContainedCandidate(payload, into, faults);
        if err.Some? { return; }
      } else {
        var copied := if replacePristine then CopyOver(candidate.tree, payload) else CopyNew(candidate.tree, payload);
        if CopyPayload in faults || copied.None? { return Some(Conflict); }
        candidate := There(copied.value);
        if DropPayload in faults { return Some(GuestCommand); }
      }
      err := CommitCandidate(faults);
    }

    method CompleteScaffold(faults: set<ImportStep>) returns (err: Option<Kind>)
      requires candidate.There?
      modifies this`candidate
      ensures candidate.There?
      ensures err.None? ==> AddMissing(old(candidate).tree, CANONICAL_FILES, scaffold) == Some(candidate.tree)
      ensures faults == {} && AddMissing(old(candidate).tree, CANONICAL_FILES, scaffold).Some? ==> err.None?
    {
      for i := 0 to |CANONICAL_FILES|
        invariant candidate.There?
        invariant AddMissing(old(candidate).tree, CANONICAL_FILES, scaffold) == AddMissing(candidate.tree, CANONICAL_FILES[i..], scaffold)
      {
        var name := CANONICAL_FILES[i];
        if TestScaffold in faults { return Some(GuestCommand); }
        if [name] !in candidate.tree.files {
          if WriteScaffold in faults || [name] in candidate.tree.dirs { return Some(GuestCommand); }
          candidate := There(candidate.tree.(files := candidate.tree.files[[name] := scaffold[name]]));
        }
      }
      return None;
    }

    // The rest of a first candidate, once the payload is in it.
    method CompleteFirstCandidate(faults: set<ImportStep>) returns (err: Option<Kind>)
      requires candidate.There?
      modifies this`candidate
      ensures err.None? ==> candidate.There? && Completed(old(candidate).tree, scaffold) == Some(candidate.tree)
      ensures faults == {} && Completed(old(candidate).tree, scaffold).Some? ==> err.None?
    {
      var complete := InstallDirs(candidate.tree, CANONICAL_DIRECTORIES);
      if CompleteDirectories in faults || complete.None? { return Some(GuestCommand); }
      candidate := There(complete.value);
      err := CompleteScaffold(faults);
      if err.Some? { return; }
      if InitGit in faults { return Some(GitFailure); }
      err := CommitCandidate(faults);
    }

    method BuildFirstImportCandidate(payload: Tree, into: Path, faults: set<ImportStep>) returns (err: Option<Kind>)
      requires candidate == Absent
      modifies this`candidate
      ensures err.None? ==> candidate.There? && Some(candidate.tree) == FirstCandidate(payload, into, scaffold)
      ensures faults == {} && FirstCandidate(payload, into, scaffold).Some? ==> err.None?
    {
      if into == [] {
        if MovePayload in faults { return Some(GuestCommand); }
        candidate := There(payload);
      } else {
        if MakeCandidate in faults { return Some(GuestCommand); }
        candidate := There(EMPTY);
        err := MovePayloadIntoContainedCandidate(payload, into, faults);
        if err.Some? { return; }
      }
      err := CompleteFirstCandidate(faults);
    }

    // Whether there is a Brain to add to, and whether the payload has its place there.
    method Admit(m: Manifest, into: Path, faults: set<ImportStep>)
      returns (conflicts: nat, replacePristine: bool, err: Option<Kind>)
      ensures err.None? ==> Welcome(vault, m, into, scaffold, native)
                            && (Classify(vault, native) == Initialized ==> replacePristine == Replaces(vault.tree, m, into, scaffold))
      // What is where the payload is to go is refused, unless it is the scaffold init made.
      ensures Classify(vault, native) == Initialized && Occupied(vault.tree, m, into, scaffold) ==> err.Some?
      ensures err.None? ==> conflicts == if into == [] then ConflictsWith(vault, [], m, native) else 0
      ensures faults == {} && Welcome(vault, m, into, scaffold, native) ==> err.None?
    {
      conflicts, replacePristine, err := 0, false, None;
      if Classify(vault, native) == Initialized {
        HasRoomExactly(vault.tree, m, into, scaffold);
        ConflictsAreCounted(vault.tree, [], m);
      }
      if InspectStatus in faults { err := Some(GuestCommand); return; }
      var status := Classify(vault, native);
      if status == Drift { err := Some(Conflict); return; }
      if status == Initialized {
        if TestDestination in faults { err := Some(Transport); return; }
        if into != [] {
          if Exists(vault.tree, into) { conflicts, err := 1, Some(Conflict); return; }
        } else {
          conflicts := ImportConflicts(m, []);
          if conflicts > 0 {
            if InspectPristine in faults { err := Some(GuestCommand); return; }
            replacePristine := Pristine(vault.tree, scaffold);
            if !replacePristine { err := Some(Conflict); return; }
          }
        }
      }
    }

    method BuildImportCandidate(payload: Tree, m: Manifest, into: Path, replacePristine: bool, faults: set<ImportStep>)
      returns (err: Option<Kind>)
      requires Classify(vault, native) == Initialized ==> replacePristine == Replaces(vault.tree, m, into, scaffold)
      requires candidate == Absent
      modifies this`candidate
      ensures err.None? ==> candidate.There? && Candidate(vault, m, payload, into, scaffold, native) == Some(candidate.tree)
      ensures faults == {} && Candidate(vault, m, payload, into, scaffold, native).Some? ==> err.None?
    {
      if Classify(vault, native) == Initialized {
        err := BuildExistingImportCandidate(payload, into, replacePristine, faults);
      } else {
        err := BuildFirstImportCandidate(payload, into, faults);
      }
    }

    // Everything up to the exchange: the payload is admitted, staged and built into.
    method AdmitAndBuild(m: Manifest, arrives: Staged, into: Path, faults: set<ImportStep>, ghost plan: Plan)
      returns (conflicts: nat, err: Option<Kind>)
      requires plan == PlanOf(vault, m, arrives, into, scaffold, native)
      modifies this`staging, this`candidate
      ensures err.None? ==>
                && candidate.There? && plan.built == Some(candidate.tree) && plan.fits && conflicts == plan.taken
                && (native ==> Classify(candidate, native) == Initialized)
      ensures faults == {} && plan.fits && plan.built.Some? ==> err.None?
    {
      var replacePristine;
      conflicts, replacePristine, err := Admit(m, into, faults);
      if err.Some? { return; }
      err := PrepareGuestImport(m, arrives, faults);
      if err.Some? { return; }
      err := BuildImportCandidate(StagedTree(arrives), m, into, replacePristine, faults);
      CandidateIsInitialized(vault, m, arrives, into, scaffold, native);
    }

    method InspectAndActivate(faults: set<ImportStep>) returns (err: Option<Kind>)
      modifies this`skillInstalled
      ensures err.None? <==> InspectFinal !in faults && Classify(vault, native) == Initialized && ActivateSkill !in faults
      ensures skillInstalled == (old(skillInstalled) || err.None?)
    {
      if InspectFinal in faults { return Some(GuestCommand); }
      if Classify(vault, native) != Initialized { return Some(Verification); }
      if ActivateSkill in faults { return Some(GuestCommand); }
      skillInstalled := true;
      return None;
    }

    // Everything up to the deferred part. `swapped` says that the vault was exchanged
    // and the run did not get to its end.
    method ImportLocked(m: Manifest, arrives: Staged, into: Path, faults: set<ImportStep>, ghost plan: Plan)
      returns (conflicts: nat, err: Option<Kind>, swapped: bool)
      requires plan == PlanOf(vault, m, arrives, into, scaffold, native)
      modifies this
      ensures seen == old(seen) || Shown(plan.built, old(vault), old(seen), seen)
      ensures vault == if seen == old(seen) then old(vault) else seen[|seen| - 1]
      ensures seen == old(seen) ==> !swapped && err.Some?
      ensures err.None? ==> conflicts == plan.taken
      ensures seen != old(seen) ==>
                && candidate == old(vault) && vault.There? && swapped == err.Some? && plan.fits
                && (err.None? ==> InspectFinal !in faults && ActivateSkill !in faults && native && skillInstalled)
      ensures faults == {} && native && old(vault) != Absent && plan.fits && plan.built.Some? ==> err.None?
    {
      swapped := false;
      conflicts, err := AdmitAndBuild(m, arrives, into, faults, plan);
      if err.Some? { return; }
      err, swapped := ExchangeAndCheck(faults);
    }

    // The exchange, and what is checked and done once it is made.
    method ExchangeAndCheck(faults: set<ImportStep>) returns (err: Option<Kind>, swapped: bool)
      requires candidate != Absent
      modifies this`vault, this`candidate, this`seen, this`skillInstalled
      ensures if seen == old(seen) then vault == old(vault) && err.Some? && !swapped
              else && seen == old(seen) + [vault] && vault == old(candidate) && candidate == old(vault)
                   && old(vault) != Absent && swapped == err.Some?
      ensures err.None? ==> InspectFinal !in faults && ActivateSkill !in faults && Classify(vault, native) == Initialized
                            && skillInstalled
      ensures faults == {} && old(vault) != Absent && Classify(old(candidate), native) == Initialized ==> err.None?
    {
      swapped := false;
      if RefreshLock in faults { return Some(GuestCommand), false; }
      var exchanged := ExchangeImportCandidate(Exchange in faults);
      if !exchanged { return Some(Verification), false; }
      err := InspectAndActivate(faults);
      swapped := err.Some?;
    }

    // What the source defers: the vault goes back if the run failed after the exchange,
    // the staging is cleared, and the lock is released.
    method Settle(swapped: bool, failed: Option<Kind>, faults: set<ImportStep>) returns (err: Option<Kind>)
      requires swapped ==> failed.Some? && vault != Absent && candidate != Absent
      modifies this
      ensures err.None? <==> failed.None? && ReleaseLock !in faults
      ensures skillInstalled == old(skillInstalled)
      ensures if swapped && ExchangeBack !in faults
              then vault == old(candidate) && seen == old(seen) + [vault]
              else vault == old(vault) && seen == old(seen)
      ensures candidate == if swapped && ExchangeBack in faults then old(candidate)
                           else if CleanUp !in faults then Absent
                           else if swapped then old(vault) else old(candidate)
    {
      err := failed;
      var rollbackFailed := false;
      if swapped && err.Some? {
        var back := ExchangeImportCandidate(ExchangeBack in faults);
        if !back { err, rollbackFailed := Some(Verification), true; }
      }
      if CleanUp !in faults {
        staging := None;
        if !rollbackFailed { candidate := Absent; }
      }
      if err.None? && ReleaseLock in faults { err := Some(GuestCommand); }
    }

    // The run before the lock: None when it goes on.
    method Preflight(m: Manifest, into: Path, dryRun: bool, faults: set<ImportStep>)
      returns (report: TransferReport, err: Option<Kind>)
      ensures err.None? ==> ValidInto(into)
      ensures err.None? && !dryRun <==> Locks(m, into, dryRun, faults)
      ensures report.files == |m| && report.dryRun == dryRun
      ensures err.None? && dryRun ==>
                Classify(vault, native) != Drift && report.conflicts == ConflictsWith(vault, into, m, native)
    {
      report := TransferReport(dryRun, |m|, 0);
      err := None;
      if !ValidInto(into) { return report, Some(Precondition); }
      if CollectSource in faults { return report, Some(Precondition); }
      if VerifyBootstrap in faults { return report, Some(Precondition); }
      if VerifyRoot in faults { return report, Some(GuestCommand); }
      if dryRun {
        if InspectStatus in faults { return report, Some(GuestCommand); }
        match Classify(vault, native) {
          case Uninitialized =>
          case Initialized =>
            if TestDestination in faults { return report, Some(Transport); }
            var conflicts := ImportConflicts(m, into);
            ConflictsAreCounted(vault.tree, into, m);
            report := report.(conflicts := conflicts);
          case Drift => return report, Some(Conflict);
        }
      } else {
        if m == [] { return report, Some(Precondition); }
        if AcquireLock in faults { return report, Some(Conflict); }
      }
    }

    // The run from taking the lock to giving it back. `values` is how many the vault's path
    // has had since: none, the candidate, or the candidate and the old thing again.
    method ImportHolding(m: Manifest, arrives: Staged, into: Path, faults: set<ImportStep>, ghost plan: Plan)
      returns (conflicts: nat, err: Option<Kind>, ghost values: nat)
      requires plan == PlanOf(vault, m, arrives, into, scaffold, native)
      modifies this
      ensures values <= 2 && (values > 0 ==> plan.fits && plan.built.Some? && old(vault) != Absent)
      ensures values == 0 ==> seen == old(seen) && vault == old(vault) && err.Some?
      ensures values == 1 ==> seen == old(seen) + [There(plan.built.value)] && vault == There(plan.built.value)
      ensures values == 2 ==> seen == old(seen) + [There(plan.built.value), old(vault)] && vault == old(vault)
                              && err.Some? && ExchangeBack !in faults
      ensures values == 1 && err.None? ==> ReleaseLock !in faults
      ensures values == 1 ==> || (InspectFinal !in faults && ActivateSkill !in faults && native && skillInstalled)
                              || (ExchangeBack in faults && candidate == old(vault) && err.Some?)
      ensures err.None? ==> conflicts == plan.taken
      ensures values == 1 && CleanUp in faults ==> candidate == old(vault)
      ensures CleanUp !in faults ==>
                candidate == Absent || (candidate == old(vault) && ExchangeBack in faults && err.Some?)
      ensures faults == {} ==> (err.None? <==> native && old(vault) != Absent && plan.fits && plan.built.Some?)
    {
      var swapped;
      conflicts, err, swapped := ImportLocked(m, arrives, into, faults, plan);
      var exchanged := err.None? || swapped;
      assert exchanged <==> seen != old(seen);
      values := if !exchanged then 0 else if swapped && ExchangeBack !in faults then 2 else 1;
      ghost var shown := seen;
      assert exchanged ==> shown == old(seen) + [There(plan.built.value)];
      err := Settle(swapped, err, faults);
      assert values < 2 ==> seen == shown;
    }

    method RunImport(m: Manifest, arrives: Staged, into: Path, dryRun: bool, faults: set<ImportStep>, ghost plan: Plan)
      returns (report: TransferReport, err: Option<Kind>, ghost values: nat)
      requires plan == PlanOf(vault, m, arrives, into, scaffold, native)
      modifies this
      ensures dryRun ==> vault == old(vault) && candidate == old(candidate) && staging == old(staging) && seen == old(seen)
      ensures values <= 2 && (values > 0 ==> plan.fits && plan.built.Some? && old(vault) != Absent)
      ensures values == 0 ==> seen == old(seen) && vault == old(vault) && (err.Some? || dryRun)
      ensures values == 1 ==> seen == old(seen) + [There(plan.built.value)] && vault == There(plan.built.value)
      ensures values == 2 ==> seen == old(seen) + [There(plan.built.value), old(vault)] && vault == old(vault)
                              && err.Some? && ExchangeBack !in faults
      ensures values == 1 && err.None? ==> ReleaseLock !in faults
      ensures values == 1 ==> || (InspectFinal !in faults && ActivateSkill !in faults && native && skillInstalled)
                              || (ExchangeBack in faults && candidate == old(vault) && err.Some?)
      ensures values == 1 && CleanUp in faults ==> candidate == old(vault)
      ensures Locks(m, into, dryRun, faults) && CleanUp !in faults ==>
                candidate == Absent || (candidate == old(vault) && ExchangeBack in faults && err.Some?)
      ensures err.None? && !dryRun ==> Locks(m, into, dryRun, faults)
      ensures report.files == |m| && report.dryRun == dryRun
      ensures err.None? && dryRun ==>
                Classify(vault, native) != Drift && report.conflicts == ConflictsWith(vault, into, m, native)
      ensures err.None? && !dryRun ==> report.conflicts == plan.taken
      ensures faults == {} && !dryRun ==>
                (err.None? <==> ValidInto(into) && m != [] && native && old(vault) != Absent && plan.fits && plan.built.Some?)
    {
      values := 0;
      report, err := Preflight(m, into, dryRun, faults);
      if err.Some? || dryRun { return; }
      var conflicts;
      conflicts, err, values := ImportHolding(m, arrives, into, faults, plan);
      report := report.(conflicts := conflicts);
    }

    method Import(m: Manifest, arrives: Staged, into: Path, dryRun: bool, faults: set<ImportStep>)
      returns (report: TransferReport, err: Option<Kind>)
      modifies this
      ensures dryRun ==> vault == old(vault) && candidate == old(candidate) && staging == old(staging) && seen == old(seen)
      // The vault's path only ever held the old tree or the finished candidate.
      ensures var built := Candidate(old(vault), m, StagedTree(arrives), into, scaffold, native);
              && Outcome(built, old(vault), old(seen), err.None?, faults)
              && (err.None? && !dryRun ==> Shown(built, old(vault), old(seen), seen) && ReleaseLock !in faults)
      ensures seen != old(seen) ==> Welcome(old(vault), m, into, scaffold, native) && Faithful(arrives, m)
      ensures faults == {} && !dryRun ==>
                (err.None? <==> ValidInto(into) && m != [] && Acceptable(old(vault), m, arrives, into, scaffold, native))
      // Whatever an earlier run left at the candidate's path, this one removes it once it
      // has the lock, even when it refuses the payload.
      ensures Locks(m, into, dryRun, faults) && CleanUp !in faults ==>
                candidate == Absent || (candidate == old(vault) && ExchangeBack in faults && err.Some?)
      // A Brain's files and history survive every run; a successful one, which clears the
      // candidate's path, keeps what it found if and only if that was not a plain file.
      ensures err.None? && !dryRun && CleanUp !in faults ==> candidate == Absent
      ensures !old(vault).Plain? ==> Keeps(old(vault), vault)
      ensures err.None? && !dryRun ==> (Keeps(old(vault), vault) <==> !old(vault).Plain?)
      // No file of a Brain is changed or taken away, unless the Brain is exactly what init
      // made; a Brain that is not, with something where the payload is to go, is refused.
      ensures Classify(old(vault), native) == Initialized && WellFormed(old(vault).tree) ==>
                HasAllOf(vault, old(vault).tree) || (into == [] && AsInitMadeIt(old(vault).tree, scaffold))
      ensures !dryRun && Classify(old(vault), native) == Initialized && Occupied(old(vault).tree, m, into, scaffold) ==>
                err.Some? && vault == old(vault)
      ensures err.None? && !dryRun && Classify(old(vault), native) == Uninitialized ==>
                FirstImported(vault, FilesOf(m), into, scaffold)
      // A vault with a link in it, a remote, or another's ownership or mode is not touched.
      ensures old(vault).There? && Foreign(old(vault).tree) ==> err.Some? && vault == old(vault)
      // The report of a dry run counts the manifest's files whose path is taken.
      ensures report.files == |m| && report.dryRun == dryRun
      ensures err.None? && dryRun ==> report.conflicts == ConflictsWith(vault, into, m, native)
      ensures err.None? && !dryRun ==> report.conflicts == if into == [] then ConflictsWith(old(vault), [], m, native) else 0
      ensures err.None? && !dryRun && Classify(old(vault), native) == Initialized && WellFormed(old(vault).tree) ==>
                vault.There? && Conserves(old(vault).tree, vault.tree, FilesOf(m), into, AsInitMadeIt(old(vault).tree, scaffold))
    {
      ghost var plan := PlanOf(vault, m, arrives, into, scaffold, native);
      KeepsItself(vault);
      if Classify(vault, native) == Initialized { HasRoomExactly(vault.tree, m, into, scaffold); }
      if plan.fits && plan.built.Some? && vault != Absent {
        WhatIsShownKeeps(vault, m, arrives, into, scaffold, native);
        if Classify(vault, native) == Initialized && WellFormed(vault.tree) {
          FilesAreKept(vault.tree, m, arrives, into, scaffold, native);
        }
        if Classify(vault, native) == Uninitialized { FirstIsImported(vault, m, arrives, into, scaffold, native); }
        CandidateIsInitialized(vault, m, arrives, into, scaffold, native);
      }
      ghost var values;
      report, err, values := RunImport(m, arrives, into, dryRun, faults, plan);
    }

    /** However many imports follow one another, each failing or killed anywhere: no file a
        Brain ever held or committed is lost from its vault. */
    method Imports(calls: seq<Call>)
      requires !vault.Plain?
      modifies this
      ensures !vault.Plain? && Keeps(old(vault), vault)
      decreases |calls|
    {
      if calls == [] { return; }
      var _, _ := Import(calls[0].m, calls[0].arrives, calls[0].into, calls[0].dryRun, calls[0].faults);
      Imports(calls[1..]);
    }

    // The one value the vault's path had after `before` is the finished candidate.
    ghost predicate Shown(built: Option<Tree>, was: Place, before: seq<Place>, after: seq<Place>) {
      was != Absent && built.Some? && after == before + [There(built.value)]
    }

    // The vault's path had the finished candidate for a while, then the old tree again.
    ghost predicate Withdrawn(built: Option<Tree>, was: Place, before: seq<Place>, after: seq<Place>) {
      was != Absent && built.Some? && after == before + [There(built.value), was]
    }

    // What a run makes of the vault's path: nothing, the candidate, or the candidate and
    // back. It ends as the candidate only when the run came to its end, or could not go
    // back, and then the old tree is still at the candidate's path; so it is when the run
    // was killed after the exchange.
    ghost predicate Outcome(built: Option<Tree>, was: Place, before: seq<Place>, succeeded: bool, faults: set<ImportStep>)
      reads this
    {
      && (seen == before || Shown(built, was, before, seen) || Withdrawn(built, was, before, seen))
      && vault == (if seen == before then was else seen[|seen| - 1])
      && (Shown(built, was, before, seen) ==>
            || (InspectFinal !in faults && ActivateSkill !in faults && Classify(vault, native) == Initialized && skillInstalled)
            || (ExchangeBack in faults && candidate == was && !succeeded))
      && (DEFERRED <= faults && seen != before ==> candidate == was && Shown(built, was, before, seen))
    }
  }

  // Whether a run gets as far as the lock.
  predicate Locks(m: Manifest, into: Path, dryRun: bool, faults: set<ImportStep>) {
    !dryRun && ValidInto(into) && m != [] && faults !! {CollectSource, VerifyBootstrap, VerifyRoot, AcquireLock}
  }

  // Nothing there yet, or a Brain with room for the payload.
  predicate Welcome(vault: Place, m: Manifest, into: Path, scaffold: Scaffold, native: bool) {
    && Classify(vault, native) != Drift
    && (Classify(vault, native) == Initialized ==> HasRoom(vault.tree, m, into, scaffold))
  }

  lemma WhatIsShownKeeps(was: Place, m: Manifest, arrives: Staged, into: Path, scaffold: Scaffold, native: bool)
    requires was != Absent && Welcome(was, m, into, scaffold, native) && Faithful(arrives, m)
    requires Candidate(was, m, StagedTree(arrives), into, scaffold, native).Some?
    ensures var c := Candidate(was, m, StagedTree(arrives), into, scaffold, native).value;
            && (Keeps(was, There(c)) <==> !was.Plain?)
            && (Classify(was, native) == Initialized && WellFormed(was.tree) ==>
                  Conserves(was.tree, c, FilesOf(m), into, AsInitMadeIt(was.tree, scaffold)))
  {
    OnlyAPlainFileIsLost(was, m, arrives, into, scaffold, native);
    if Classify(was, native) == Initialized && WellFormed(was.tree) {
      ImportConservesFiles(was.tree, m, StagedTree(arrives), into, scaffold);
    }
  }

  // What an import needs of the vault, the payload and where it goes.
  predicate Acceptable(vault: Place, m: Manifest, arrives: Staged, into: Path, scaffold: Scaffold, native: bool) {
    && native && vault != Absent && Welcome(vault, m, into, scaffold, native)
    && Faithful(arrives, m)
    && Candidate(vault, m, StagedTree(arrives), into, scaffold, native).Some?
  }
}
