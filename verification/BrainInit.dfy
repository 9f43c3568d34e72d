// torio brain init: a fresh vault is built beside its place and moved there whole.

module BrainInit {
  import opened Options
  import opened SkillFiles
  import opened VaultTree

  datatype InitStep =
    | VerifyBootstrap | VerifyRoot | AcquireLock | Inspect | MakeVault | InspectAgain | RefreshLock | CleanStaging
    | MakeStaging | WriteFile(name: string) | InitGit | AddFiles | CommitFiles | InspectSnapshot | RefreshLockAgain
    | RemoveVault | Promote | InspectFinal
    | ProbeSkill | TestLegacy | RemoveLegacy | SweepLegacy | MakeCategory | MakeFolder
    | StageFile(skill: bool) | ProtectFile(skill: bool) | PromoteFile(skill: bool) | ProbeSkillAgain
    | DropStaging | ReleaseLock

  // What befalls a run: commands that fail, the command it is stopped before, and what a
  // concurrent writer has put at the vault's path by the time a command runs.
  datatype World = World(faults: set<InitStep>, killed: Option<InitStep>, writer: map<InitStep, Place>)

  const CALM := World({}, None, map[])

  datatype InitReport = InitReport(created: bool, skillUpdated: bool, state: VaultState)

  // --- What the vault's path keeps ---

  // Nothing at the path is lost: only nothing, or an empty directory, may become
  // something else. A directory may have its owner and mode repaired.
  predicate Keeps(before: Place, after: Place) {
    match before
    case Absent => true
    case Linked => after == before
    case Plain(_) => after == before
    case There(t) => IsEmpty(t) || after == before || after == There(t.(secure := true))
  }

  // Every command of the run itself keeps what it finds.
  ghost predicate Careful(before: seq<(Place, Place)>, after: seq<(Place, Place)>) {
    before <= after && forall i | |before| <= i < |after| :: Keeps(after[i].0, after[i].1)
  }

  // A place init can make a Brain of, or already one.
  predicate Recoverable(place: Place, native: bool) { native && !place.Plain? && Classify(place, native) != Drift }

  // The tree init builds.
  function ScaffoldTree(scaffold: Scaffold): Tree {
    EMPTY.(files := Templates(scaffold), dirs := set name | name in CANONICAL_DIRECTORIES :: [name],
           commits := [Templates(scaffold)])
  }

  lemma ScaffoldIsABrain(scaffold: Scaffold)
    ensures Managed(ScaffoldTree(scaffold)) && Clean(ScaffoldTree(scaffold)) && ScaffoldTree(scaffold).secure
  {
  }

  /** The tree init builds is the scaffold, file by file, and nothing else. */
  lemma ScaffoldIsFresh(scaffold: Scaffold)
    ensures IsFreshBrain(ScaffoldTree(scaffold), scaffold)
  {
    var t := ScaffoldTree(scaffold);
    forall name <- CANONICAL_FILES
      ensures [name] in t.files && t.files[[name]] == scaffold[name]
    {
      assert name == "README.md" || name == "AGENTS.md" || name == "todo.md";
    }
  }

  /** The branch that resumes a drifted but managed, secure vault on a native file system is
      never taken: such a vault is not in drift. */
  lemma ManagedVaultIsNeverInDrift(place: Place, native: bool)
    requires Classify(place, native) == Drift
    ensures !(place.There? && Managed(place.tree) && place.tree.secure && native)
  {
  }

  // install -d <vault>
  function MadeVault(place: Place): Option<Place> {
    match place
    case Absent => Some(There(EMPTY))
    case Linked => None
    case Plain(_) => None
    case There(t) => Some(There(t.(secure := true)))
  }

  // rmdir <vault>
  function RemovedVault(place: Place): Option<Place> {
    if place.There? && IsEmpty(place.tree) then Some(Absent) else None
  }

  // mv -T <staging> <vault>
  function Promoted(place: Place, staged: Tree): Option<Place> {
    if place == Absent || (place.There? && IsEmpty(place.tree)) then Some(There(staged)) else None
  }

  class Manager {
    const scaffold: Scaffold
    const native: bool
    const backend: Backend
    const payload: Payload
    var vault: Place
    var staging: Option<Tree>
    var home: Home
    var stopped: bool
    // The vault before and after every command of the run that changed it.
    ghost var changes: seq<(Place, Place)>

    constructor (scaffold: Scaffold, native: bool, backend: Backend, payload: Payload, vault: Place, staging: Option<Tree>, home: Home)
      ensures this.scaffold == scaffold && this.native == native && this.backend == backend && this.payload == payload
      ensures this.vault == vault && this.staging == staging && this.home == home && !stopped && changes == []
    {
      this.scaffold, this.native, this.backend, this.payload := scaffold, native, backend, payload;
      this.vault, this.staging, this.home, this.stopped, this.changes := vault, staging, home, false, [];
    }

    // One guest command is about to run: the writer has had its turn, and the run goes on
    // unless it is stopped here or the command fails.
    method Begin(step: InitStep, world: World) returns (ok: bool)
      modifies this`vault, this`stopped
      ensures stopped == (old(stopped) || world.killed == Some(step))
      ensures ok == (!stopped && step !in world.faults)
      ensures vault == if step in world.writer then world.writer[step] else old(vault)
    {
      if step in world.writer { vault := world.writer[step]; }
      if world.killed == Some(step) { stopped := true; }
      ok := !stopped && step !in world.faults;
    }

    // Puts the result of one command at the vault's path, if the command has one.
    method Change(result: Option<Place>) returns (ok: bool)
      requires result.Some? ==> Keeps(vault, result.value)
      modifies this`vault, this`changes
      ensures ok == result.Some?
      ensures vault == if ok then result.value else old(vault)
      ensures Careful(old(changes), changes)
    {
      ok := result.Some?;
      if ok {
        changes := changes + [(vault, result.value)];
        vault := result.value;
      }
    }

    // Makes sure there is a directory, and says what state it is in.
    method EnsureVault(world: World) returns (state: VaultState, err: Option<Kind>)
      modifies this`vault, this`stopped, this`changes
      ensures Careful(old(changes), changes)
      ensures world.writer == map[] ==>
                Keeps(old(vault), vault) && (Recoverable(old(vault), native) ==> Recoverable(vault, native))
                && (err.None? ==> state == Classify(vault, native) && vault != Absent && !vault.Plain?)
      ensures world.writer == map[] && old(vault) != Absent ==> vault == old(vault)
      ensures world == CALM && !old(stopped) ==>
                !stopped && (err.None? <==> !old(vault).Plain?)
                && vault == if old(vault) == Absent then There(EMPTY) else old(vault)
    {
      err := None;
      var ok := Begin(Inspect, world);
      state := Classify(vault, native);
      if !ok { return state, Some(GuestCommand); }
      if vault == Absent || vault.Plain? {
        ok := Begin(MakeVault, world);
        if !ok { return state, Some(GuestCommand); }
        ok := Change(MadeVault(vault));
        if !ok { return state, Some(GuestCommand); }
        ok := Begin(InspectAgain, world);
        state := Classify(vault, native);
        if !ok { return state, Some(GuestCommand); }
      }
    }

    method WriteFiles(world: World) returns (err: Option<Kind>)
      requires staging.Some? && staging.value.files == map[]
      modifies this`vault, this`stopped, this`staging
      ensures err.None? ==> staging == Some(old(staging).value.(files := Written(CANONICAL_FILES, scaffold)))
      ensures world.writer == map[] ==> vault == old(vault)
      ensures world == CALM && !old(stopped) ==> err.None? && !stopped
    {
      for i := 0 to |CANONICAL_FILES|
        invariant staging == Some(old(staging).value.(files := Written(CANONICAL_FILES[..i], scaffold)))
        invariant world.writer == map[] ==> vault == old(vault)
        invariant world == CALM && !old(stopped) ==> !stopped
      {
        var name := CANONICAL_FILES[i];
        var ok := Begin(WriteFile(name), world);
        if !ok { return Some(GuestCommand); }
        staging := Some(staging.value.(files := staging.value.files[[name] := scaffold[name]]));
        assert CANONICAL_FILES[..i + 1][..i] == CANONICAL_FILES[..i];
      }
      assert CANONICAL_FILES[..|CANONICAL_FILES|] == CANONICAL_FILES;
      err := None;
    }

    // Builds the scaffold in the staging directory and commits it there.
    method BuildStaging(world: World) returns (err: Option<Kind>)
      modifies this`vault, this`stopped, this`staging
      ensures err.None? ==> staging == Some(ScaffoldTree(scaffold))
      ensures world.writer == map[] ==> vault == old(vault)
      ensures world == CALM && !old(stopped) ==> err.None? && !stopped
    {
      var ok := Begin(RefreshLock, world);
      if !ok { return Some(GuestCommand); }
      ok := Begin(CleanStaging, world);
      if !ok { return Some(GuestCommand); }
      staging := None;
      ok := Begin(MakeStaging, world);
      if !ok { return Some(GuestCommand); }
      CanonicalDirectoriesInstall();
      staging := InstallDirs(EMPTY, CANONICAL_DIRECTORIES);
      err := WriteFiles(world);
      if err.Some? { return; }
      ok := Begin(InitGit, world);
      if !ok { return Some(GitFailure); }
      ok := Begin(AddFiles, world);
      if !ok { return Some(GitFailure); }
      ok := Begin(CommitFiles, world);
      if !ok { return Some(GitFailure); }
      ScaffoldCommits(scaffold);
      staging := CommitChanges(staging.value);
      ok := Begin(InspectSnapshot, world);
      if !ok { return Some(GitFailure); }
      ok := Begin(RefreshLockAgain, world);
      if !ok { return Some(GuestCommand); }
      err := None;
    }

    // Takes the empty directory away and moves the scaffold to its place.
    method PromoteStaging(world: World) returns (promoted: bool, err: Option<Kind>)
      requires staging == Some(ScaffoldTree(scaffold))
      modifies this`vault, this`stopped, this`staging, this`changes
      ensures Careful(old(changes), changes)
      ensures promoted == err.None?
      ensures promoted ==> staging == None
      ensures world.writer == map[] ==>
                && Keeps(old(vault), vault) && (Recoverable(old(vault), native) ==> Recoverable(vault, native))
                && (promoted ==> vault == There(ScaffoldTree(scaffold)))
      ensures world == CALM && !old(stopped) && RemovedVault(old(vault)).Some? ==> promoted && !stopped
    {
      ScaffoldIsABrain(scaffold);
      promoted := false;
      var ok := Begin(RemoveVault, world);
      if !ok { return false, Some(Conflict); }
      ok := Change(RemovedVault(vault));
      if !ok { return false, Some(Conflict); }
      ok := Begin(Promote, world);
      if !ok { return false, Some(GuestCommand); }
      ok := Change(Promoted(vault, staging.value));
      if !ok { return false, Some(GuestCommand); }
      staging := None;
      return true, None;
    }

    // Takes the superseded skill away, and its directory if that leaves it empty.
    method RemoveLegacySkill(world: World) returns (err: Option<Kind>)
      modifies this`vault, this`stopped, this`home
      ensures home == old(home).(legacy := home.legacy)
      ensures if backend.grouped then LegacyStep(old(home).legacy, home.legacy) else home == old(home)
      ensures err.None? && backend.grouped ==> !home.legacy.LegacyLink? && !HasLegacySkill(home.legacy)
      ensures HasLegacySkill(home.legacy) ==> home == old(home)
      ensures world.writer == map[] ==> vault == old(vault)
      ensures world == CALM && !old(stopped) ==>
                && !stopped && (err.None? <==> !backend.grouped || !old(home).legacy.LegacyLink?)
                && (err.None? && backend.grouped ==> home.legacy == Retired(old(home).legacy))
    {
      if !backend.grouped { return None; }
      var ok := Begin(TestLegacy, world);
      if !ok { return Some(GuestCommand); }
      if home.legacy.LegacyLink? { return Some(Conflict); }
      if !home.legacy.LegacyDir? { return None; }
      ok := Begin(RemoveLegacy, world);
      if !ok { return Some(GuestCommand); }
      home := home.(legacy := LegacyDir(false, home.legacy.more));
      ok := Begin(SweepLegacy, world);
      if ok && !home.legacy.more { home := home.(legacy := NoLegacy); }
      return None;
    }

    // One payload, written outside the skill root and moved to its place whole.
    method WriteSkillFile(main: bool, world: World) returns (err: Option<Kind>)
      modifies this`vault, this`stopped, this`home
      ensures var target := RealFile(if main then payload.skill else payload.description, true);
              var done := if main then old(home).(skill := target) else old(home).(description := target);
              && (if err.None? then home == done else home == old(home))
              && (err.None? ==> Filelike(if main then old(home).skill else old(home).description))
      ensures world.writer == map[] ==> vault == old(vault)
      ensures world == CALM && !old(stopped) ==>
                !stopped && (err.None? <==> Filelike(if main then old(home).skill else old(home).description))
    {
      var ok := Begin(StageFile(main), world);
      if !ok { return Some(GuestCommand); }
      ok := Begin(ProtectFile(main), world);
      if !ok { return Some(GuestCommand); }
      ok := Begin(PromoteFile(main), world);
      if !ok || !Filelike(if main then home.skill else home.description) { return Some(GuestCommand); }
      if main {
        home := home.(skill := RealFile(payload.skill, true));
      } else {
        home := home.(description := RealFile(payload.description, true));
      }
      return None;
    }

    // install -d of the category, or of the skill root, and then of the skill's folder.
    method MakeSkillDir(folder: bool, world: World) returns (err: Option<Kind>)
      modifies this`vault, this`stopped, this`home
      ensures var done := if folder then old(home).(folder := RealDir(true)) else old(home).(category := RealDir(true));
              && (if err.None? then home == done else home == old(home))
              && (err.None? ==> Dirlike(if folder then old(home).folder else old(home).category))
      ensures world.writer == map[] ==> vault == old(vault)
      ensures world == CALM && !old(stopped) ==>
                !stopped && (err.None? <==> Dirlike(if folder then old(home).folder else old(home).category))
    {
      var ok := Begin(if folder then MakeFolder else MakeCategory, world);
      if !ok || !Dirlike(if folder then home.folder else home.category) { return Some(GuestCommand); }
      if folder { home := home.(folder := RealDir(true)); } else { home := home.(category := RealDir(true)); }
      return None;
    }

    // The description and the skill, each in its directory.
    method WriteSkill(world: World) returns (err: Option<Kind>)
      requires backend.grouped ==> !HasLegacySkill(home.legacy)
      modifies this`vault, this`stopped, this`home
      ensures home == old(home).(category := home.category, folder := home.folder, skill := home.skill, description := home.description)
      ensures home.category in {old(home).category, RealDir(true)} && home.folder in {old(home).folder, RealDir(true)}
      ensures home.skill in {old(home).skill, RealFile(payload.skill, true)}
      ensures home.description == old(home).description
              || (backend.grouped && home.description == RealFile(payload.description, true))
      ensures err.None? ==> home == Finished(old(home), payload, backend)
      ensures world.writer == map[] ==> vault == old(vault)
      ensures world == CALM && !old(stopped) && (backend.grouped ==> !old(home).legacy.LegacyLink?) ==>
                !stopped && (err.None? <==> Clear(old(home), backend))
    {
      err := MakeSkillDir(false, world);
      if err.Some? { return; }
      if backend.grouped {
        err := WriteSkillFile(false, world);
        if err.Some? { return; }
      }
      err := MakeSkillDir(true, world);
      if err.Some? { return; }
      err := WriteSkillFile(true, world);
    }

    // Makes the retrieval skill the embedded one; a current one is left alone.
    method InstallSkill(world: World) returns (updated: bool, err: Option<Kind>)
      modifies this`vault, this`stopped, this`home
      ensures Advanced(old(home), home, payload, backend)
      ensures err.None? && backend.installable ==> Probe(home, payload, backend) == Current
      ensures err.None? ==> updated == (backend.installable && Probe(old(home), payload, backend) != Current)
      ensures err.None? && updated ==> home == Finished(old(home), payload, backend).(legacy := home.legacy)
      ensures err.None? && backend.installable ==> HasSkill(home, payload, backend)
      ensures backend.installable && LinkAtSkill(old(home), backend) ==> err.Some? && home == old(home)
      ensures world.writer == map[] ==> vault == old(vault)
      ensures world == CALM && !old(stopped) ==>
                !stopped && (err.None? <==> Ready(old(home), payload, backend))
    {
      updated, err := false, None;
      ProbeExactly(home, payload, backend);
      if !backend.installable { return; }
      var ok := Begin(ProbeSkill, world);
      if !ok { return false, Some(GuestCommand); }
      var found := Probe(home, payload, backend);
      if found == SymlinkOnPath { return false, Some(Conflict); }
      if found == Current { return; }
      err := RemoveLegacySkill(world);
      if err.Some? { return; }
      err := WriteSkill(world);
      if err.Some? { return; }
      ok := Begin(ProbeSkillAgain, world);
      if !ok { return false, Some(GuestCommand); }
      if Probe(home, payload, backend) != Current { return false, Some(Verification); }
      ProbeExactly(home, payload, backend);
      updated := true;
    }

    // The scaffold is built, moved to its place, and looked at there.
    method BuildAndPromote(world: World) returns (promoted: bool, state: VaultState, err: Option<Kind>)
      modifies this`vault, this`stopped, this`staging, this`changes
      ensures Careful(old(changes), changes)
      ensures err.None? ==> state == Initialized
      ensures world.writer == map[] ==>
                && Keeps(old(vault), vault) && (Recoverable(old(vault), native) ==> Recoverable(vault, native))
                && (err.None? ==> Classify(vault, native) == Initialized)
      ensures world == CALM && !old(stopped) && native && RemovedVault(old(vault)).Some? ==>
                err.None? && promoted && !stopped && vault.There? && IsFreshBrain(vault.tree, scaffold)
    {
      promoted, state := false, Uninitialized;
      err := BuildStaging(world);
      if err.Some? { return; }
      promoted, err := PromoteStaging(world);
      if err.Some? { return; }
      ScaffoldIsABrain(scaffold);
      ScaffoldIsFresh(scaffold);
      var ok := Begin(InspectFinal, world);
      state := Classify(vault, native);
      if !ok { err := Some(GuestCommand); return; }
      if state != Initialized { err := Some(Verification); return; }
    }

    // The run under the lock.
    method InitLocked(world: World) returns (report: InitReport, promoted: bool, err: Option<Kind>)
      modifies this
      ensures Careful(old(changes), changes)
      ensures world.writer == map[] ==>
                Keeps(old(vault), vault) && (Recoverable(old(vault), native) ==> Recoverable(vault, native))
      ensures err.None? ==> report.state == Initialized && (backend.installable ==> Probe(home, payload, backend) == Current)
      ensures Advanced(old(home), home, payload, backend)
      ensures err.None? && world.writer == map[] ==> Classify(vault, native) == Initialized
      ensures world == CALM && !old(stopped) ==>
                && !stopped
                && (err.None? <==> Recoverable(old(vault), native) && Ready(old(home), payload, backend))
                && (Recoverable(old(vault), native) ==> Classify(vault, native) == Initialized)
                && (report.created <==> native && Uninitial(old(vault)))
      ensures world.writer == map[] && Classify(old(vault), native) in {Initialized, Drift} ==> vault == old(vault)
      // What init makes is the scaffold, file by file; and a vault with a link in it, a
      // remote, or another's ownership or mode is not touched.
      ensures world == CALM && !old(stopped) && native && Uninitial(old(vault)) ==>
                vault.There? && IsFreshBrain(vault.tree, scaffold)
      ensures world.writer == map[] && old(vault).There? && Foreign(old(vault).tree) ==> err.Some? && vault == old(vault)
      ensures err.None? && backend.installable ==> HasSkill(home, payload, backend)
      ensures backend.installable && LinkAtSkill(old(home), backend) ==> err.Some? && home == old(home)
    {
      promoted := false;
      report := InitReport(false, false, Uninitialized);
      var state;
      state, err := EnsureVault(world);
      report := report.(state := state);
      if err.Some? { return; }
      if state == Drift { err := Some(Conflict); return; }
      if state == Uninitialized {
        promoted, state, err := BuildAndPromote(world);
        report := report.(created := promoted, state := state);
        if err.Some? { return; }
      }
      var updated;
      updated, err := InstallSkill(world);
      report := report.(skillUpdated := updated);
    }

    method Init(world: World) returns (report: InitReport, err: Option<Kind>)
      requires !stopped
      modifies this
      // Whatever a writer does and wherever the run fails or stops, no command of the run
      // loses what it finds at the vault's path.
      ensures Careful(old(changes), changes)
      // Without a writer the vault is kept, and stays a place init can finish.
      ensures world.writer == map[] ==>
                Keeps(old(vault), vault) && (Recoverable(old(vault), native) ==> Recoverable(vault, native))
      ensures world.writer == map[] && Classify(old(vault), native) in {Initialized, Drift} ==> vault == old(vault)
      // What init makes is the scaffold, file by file; and a vault with a link in it, a
      // remote, or another's ownership or mode is not touched.
      ensures world == CALM && !old(stopped) && native && Uninitial(old(vault)) ==>
                vault.There? && IsFreshBrain(vault.tree, scaffold)
      ensures world.writer == map[] && old(vault).There? && Foreign(old(vault).tree) ==> err.Some? && vault == old(vault)
      ensures err.None? && backend.installable ==> HasSkill(home, payload, backend)
      ensures backend.installable && LinkAtSkill(old(home), backend) ==> err.Some? && home == old(home)
      ensures err.None? && world.writer == map[] ==> Classify(vault, native) == Initialized
      ensures Advanced(old(home), home, payload, backend)
      ensures err.None? && backend.installable ==> Probe(home, payload, backend) == Current
      // Undisturbed, it ends with a Brain exactly when it could: whatever the staging
      // directory of an earlier run still holds.
      ensures world == CALM ==>
                && (err.None? <==> Recoverable(old(vault), native) && Ready(old(home), payload, backend))
                && (Recoverable(old(vault), native) ==> Classify(vault, native) == Initialized)
                && (report.created <==> native && Uninitial(old(vault)))
    {
      report := InitReport(false, false, Uninitialized);
      var ok := Begin(VerifyBootstrap, world);
      if !ok { return report, Some(Precondition); }
      ok := Begin(VerifyRoot, world);
      if !ok { return report, Some(GuestCommand); }
      ok := Begin(AcquireLock, world);
      if !ok { return report, Some(Conflict); }
      var promoted;
      report, promoted, err := InitLocked(world);
      // What the source defers.
      if !promoted {
        ok := Begin(DropStaging, world);
        if ok { staging := None; }
      }
      ok := Begin(ReleaseLock, world);
      if !ok && err.None? { err := Some(GuestCommand); }
    }
  }

  // Nothing, or a secure empty directory.
  predicate Uninitial(place: Place) { place == Absent || (place.There? && place.tree.secure && IsEmpty(place.tree)) }

  function Written(names: seq<string>, scaffold: Scaffold): map<Path, Bytes>
    requires forall name <- names :: name in scaffold
  {
    if names == [] then map[]
    else Written(names[..|names| - 1], scaffold)[[names[|names| - 1]] := scaffold[names[|names| - 1]]]
  }

  lemma ScaffoldCommits(scaffold: Scaffold)
    ensures var t := EMPTY.(files := Written(CANONICAL_FILES, scaffold),
                            dirs := set name | name in CANONICAL_DIRECTORIES :: [name]);
            CommitChanges(t) == Some(ScaffoldTree(scaffold))
  {
    var one, two, three := ["README.md"], ["README.md", "AGENTS.md"], CANONICAL_FILES;
    assert one[..0] == [] && two[..1] == one && three[..2] == two;
    assert Written(one, scaffold) == map[["README.md"] := scaffold["README.md"]];
    assert Written(two, scaffold) == Written(one, scaffold)[["AGENTS.md"] := scaffold["AGENTS.md"]];
    var files := ScaffoldTree(scaffold).files;
    assert Written(three, scaffold) == files;
    assert ["README.md"] in files;
    assert [] + [files] == [files];
  }

  lemma CanonicalDirectoriesInstall()
    ensures InstallDirs(EMPTY, CANONICAL_DIRECTORIES).Some?
    ensures InstallDirs(EMPTY, CANONICAL_DIRECTORIES).value == EMPTY.(dirs := set name | name in CANONICAL_DIRECTORIES :: [name])
  {
    FreshDirsInstall(EMPTY, CANONICAL_DIRECTORIES);
  }

  lemma {:induction false} FreshDirsInstall(t: Tree, names: seq<string>)
    requires t.files == map[]
    ensures InstallDirs(t, names) == Some(t.(dirs := t.dirs + set name | name in names :: [name]))
    decreases |names|
  {
    if names == [] {
      assert t.dirs + (set name | name in names :: [name]) == t.dirs;
    } else {
      var next := t.(dirs := t.dirs + Prefixes([names[0]]));
      assert [names[0]][..1] == [names[0]];
      assert Prefixes([names[0]]) == {[names[0]]};
      FreshDirsInstall(next, names[1..]);
      assert next.dirs + (set name | name in names[1..] :: [name]) == t.dirs + (set name | name in names :: [name]);
    }
  }

  /** A run stopped or failed anywhere leaves a place from which an undisturbed rerun makes
      a Brain, and what the first run found is still kept then. */
  method RerunFinishes(manager: Manager, first: World) returns (report: InitReport, err: Option<Kind>)
    requires !manager.stopped && first.writer == map[] && Recoverable(manager.vault, manager.native)
    requires Ready(manager.home, manager.payload, manager.backend)
    modifies manager
    ensures err.None? && Classify(manager.vault, manager.native) == Initialized && Keeps(old(manager.vault), manager.vault)
    ensures manager.backend.installable ==> Probe(manager.home, manager.payload, manager.backend) == Current
  {
    var interrupted, failure := manager.Init(first);
    AdvancingKeepsReady(old(manager.home), manager.home, manager.payload, manager.backend);
    manager.stopped := false;
    report, err := manager.Init(CALM);
  }
}
