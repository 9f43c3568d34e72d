// Any number of processes updating the shared registry: the advisory lock, the temporary
// file and its rename, and what a crash or a power loss leaves. A run is a sequence of
// atomic actions in any order; a process does at most one update.

module RegistryRuns {
  import opened Options
  import opened Projects
  import opened Registry

  type Pid = nat

  // What each process wants done to the list it reads.
  type Update = (Pid, seq<Project>) -> Result<seq<Project>>

  datatype Setting = Setting(form: Rule, legacy: Result<seq<Project>>, update: Update)

  // Bytes in the file cache, and whether they are on disk too.
  datatype Blob = Blob(content: Content, durable: bool)

  datatype Outcome = Unchanged | Written | Refused | Failed | Stopped

  datatype Phase =
    | Idle | Holding
    | Writing(next: seq<Project>) | Drafted(next: seq<Project>) | Filled(next: seq<Project>)
    | Synced(next: seq<Project>) | Closed(next: seq<Project>) | Renamed(next: seq<Project>)
    | Ended(outcome: Outcome)

  // The lock's holder; every value the registry file has had, the last one current; the
  // processes whose rename made each value but the first; temporary files; phases.
  datatype State = State(holder: Option<Pid>, files: seq<Option<Blob>>, commits: seq<Pid>,
                         temps: map<Pid, Blob>, phases: map<Pid, Phase>)

  datatype Action =
    | Lock(p: Pid) | Decide(p: Pid) | MakeTemp(p: Pid) | Fill(p: Pid) | Sync(p: Pid) | Close(p: Pid)
    | Rename(p: Pid) | Verify(p: Pid) | Fail(p: Pid, cleaned: bool) | Crash(p: Pid) | PowerLoss(kept: nat)

  function PhaseOf(s: State, p: Pid): Phase { if p in s.phases then s.phases[p] else Idle }

  predicate Active(phase: Phase) { !phase.Idle? && !phase.Ended? }

  predicate Preparing(phase: Phase) {
    phase.Writing? || phase.Drafted? || phase.Filled? || phase.Synced? || phase.Closed?
  }

  function File(s: State): Option<Blob>
    requires s.files != []
  {
    s.files[|s.files| - 1]
  }

  function ContentOf(file: Option<Blob>): Option<Content> {
    match file
    case None => None
    case Some(blob) => Some(blob.content)
  }

  function Listed(file: Option<Blob>, g: Setting): Result<seq<Project>> {
    ResolveRegistry(ContentOf(file), g.legacy, g.form)
  }

  // What a process that reads this file goes on to write; None when it writes nothing.
  function Wanted(file: Option<Blob>, p: Pid, g: Setting): Option<seq<Project>> {
    match Listed(file, g)
    case Err(_) => None
    case Ok(projects) =>
      match g.update(p, projects)
      case Err(_) => None
      case Ok(next) =>
        if next == projects then None
        else match Registry.Written(next, g.form)
          case Err(_) => None
          case Ok(sorted) => Some(sorted)
  }

  predicate LeavesAlone(file: Option<Blob>, p: Pid, g: Setting) {
    Listed(file, g).Ok? && g.update(p, Listed(file, g).value) == Listed(file, g)
  }

  function At(s: State, p: Pid, phase: Phase): State { s.(phases := s.phases[p := phase]) }

  function End(s: State, p: Pid, outcome: Outcome): State { At(s, p, Ended(outcome)).(holder := None) }

  function TornTemps(temps: map<Pid, Blob>): map<Pid, Blob> {
    map p | p in temps :: if temps[p].durable then temps[p] else Blob(Garbage, true)
  }

  function AfterLoss(file: Option<Blob>): Option<Blob> {
    match file
    case None => None
    case Some(blob) => if blob.durable then file else Some(Blob(Garbage, true))
  }

  function StoppedAll(phases: map<Pid, Phase>): map<Pid, Phase> {
    map p | p in phases :: if Active(phases[p]) then Ended(Stopped) else phases[p]
  }

  // An action that is not possible changes nothing.
  function Do(s: State, a: Action, g: Setting): State
    requires s.files != []
  {
    match a
    case Lock(p) =>
      if PhaseOf(s, p).Idle? && s.holder.None? then At(s, p, Holding).(holder := Some(p)) else s
    case Decide(p) =>
      if !PhaseOf(s, p).Holding? then s
      else if Wanted(File(s), p, g).Some? then At(s, p, Writing(Wanted(File(s), p, g).value))
      else End(s, p, if LeavesAlone(File(s), p, g) then Unchanged else Refused)
    case MakeTemp(p) =>
      if !PhaseOf(s, p).Writing? then s
      else At(s, p, Drafted(s.phases[p].next)).(temps := s.temps[p := Blob(Garbage, false)])
    case Fill(p) =>
      if !PhaseOf(s, p).Drafted? then s
      else At(s, p, Filled(s.phases[p].next)).(temps := s.temps[p := Blob(Render(s.phases[p].next), false)])
    case Sync(p) =>
      if !PhaseOf(s, p).Filled? || p !in s.temps then s
      else At(s, p, Synced(s.phases[p].next)).(temps := s.temps[p := s.temps[p].(durable := true)])
    case Close(p) =>
      if !PhaseOf(s, p).Synced? then s else At(s, p, Closed(s.phases[p].next))
    case Rename(p) =>
      if !PhaseOf(s, p).Closed? || p !in s.temps then s
      else At(s, p, Renamed(s.phases[p].next)).(files := s.files + [Some(s.temps[p])], commits := s.commits + [p],
                                                temps := s.temps - {p})
    case Verify(p) =>
      if !PhaseOf(s, p).Renamed? then s
      else End(s, p, if Listed(File(s), g) == Ok(s.phases[p].next) then Outcome.Written else Failed)
    case Fail(p, cleaned) =>
      if !Active(PhaseOf(s, p)) then s
      else End(s, p, Failed).(temps := if cleaned then s.temps - {p} else s.temps)
    case Crash(p) =>
      if !Active(PhaseOf(s, p)) then s else End(s, p, Stopped)
    case PowerLoss(kept) =>
      // Directory entries may go back to an earlier value, and bytes never synced are lost.
      var k := if kept < |s.commits| && |s.files| == |s.commits| + 1 then kept else |s.files| - 1;
      s.(holder := None, files := seq(k + 1, i requires 0 <= i <= k => AfterLoss(s.files[i])),
         commits := if k < |s.commits| then s.commits[..k] else s.commits,
         temps := TornTemps(s.temps), phases := StoppedAll(s.phases))
  }

  function Exec(s: State, actions: seq<Action>, g: Setting): (r: State)
    requires s.files != []
    ensures r.files != []
    decreases |actions|
  {
    if actions == [] then s else Do(Exec(s, actions[..|actions| - 1], g), actions[|actions| - 1], g)
  }

  predicate Initial(s: State) {
    && s.holder.None? && |s.files| == 1 && s.commits == [] && s.temps == map[] && s.phases == map[]
    && (File(s).Some? ==> File(s).value.durable)
  }

  // --- What every run keeps ---

  // Each value of the file is what the process that renamed it wanted of the value before.
  predicate Linear(s: State, g: Setting) {
    && |s.files| == |s.commits| + 1
    && (s.files[0].Some? ==> s.files[0].value.durable)
    && forall k :: 0 <= k < |s.commits| ==> Follows(s.files[k], s.commits[k], s.files[k + 1], g)
  }

  predicate Follows(before: Option<Blob>, p: Pid, after: Option<Blob>, g: Setting) {
    Wanted(before, p, g).Some? && after == Some(Blob(Render(Wanted(before, p, g).value), true))
  }

  // What a process in its critical section knows about the file and about its own temporary.
  predicate Prepared(s: State, p: Pid, g: Setting)
    requires s.files != []
  {
    var phase := PhaseOf(s, p);
    && (Preparing(phase) ==> Wanted(File(s), p, g) == Some(phase.next))
    && (phase.Filled? ==> p in s.temps && s.temps[p].content == Render(phase.next))
    && (phase.Synced? || phase.Closed? ==> p in s.temps && s.temps[p] == Blob(Render(phase.next), true))
    && (phase.Renamed? ==> File(s) == Some(Blob(Render(phase.next), true)) && Registrable(phase.next, EntryRule(g.form)))
  }

  predicate Safe(s: State, g: Setting) {
    && Linear(s, g)
    && (forall p :: p in s.phases && Active(s.phases[p]) ==> s.holder == Some(p) && Prepared(s, p, g))
    && (s.holder.Some? ==> Active(PhaseOf(s, s.holder.value)))
  }

  lemma PowerLossKeepsLinear(s: State, kept: nat, g: Setting)
    requires Safe(s, g)
    ensures Linear(Do(s, PowerLoss(kept), g), g)
    ensures Do(s, PowerLoss(kept), g).files <= s.files
  {
    forall i | 0 <= i < |s.files|
      ensures AfterLoss(s.files[i]) == s.files[i]
    {
      if i > 0 { assert Follows(s.files[i - 1], s.commits[i - 1], s.files[i - 1 + 1], g); }
    }
  }

  lemma RenameKeepsSafe(s: State, p: Pid, g: Setting)
    requires Safe(s, g)
    ensures Safe(Do(s, Rename(p), g), g)
  {
    var t := Do(s, Rename(p), g);
    if t != s {
      assert p in s.phases && Prepared(s, p, g);
      assert Follows(File(s), p, File(t), g);
      WantedIsValid(File(s), p, g);
      forall k | 0 <= k < |t.commits|
        ensures Follows(t.files[k], t.commits[k], t.files[k + 1], g)
      {
        if k < |s.commits| { assert Follows(s.files[k], s.commits[k], s.files[k + 1], g); }
      }
    }
  }

  lemma StepKeepsSafe(s: State, a: Action, g: Setting)
    requires Safe(s, g)
    ensures Safe(Do(s, a, g), g)
  {
    if a.PowerLoss? {
      PowerLossKeepsLinear(s, a.kept, g);
    } else if a.Rename? {
      RenameKeepsSafe(s, a.p, g);
    } else {
      LocalStepKeepsSafe(s, a, g);
    }
  }

  lemma OwnStepIsPrepared(s: State, a: Action, g: Setting)
    requires Safe(s, g) && !a.PowerLoss? && !a.Rename?
    ensures var t := Do(s, a, g); Active(PhaseOf(t, a.p)) ==> t.holder == Some(a.p) && Prepared(t, a.p, g)
  {
    if Active(PhaseOf(s, a.p)) { assert Prepared(s, a.p, g); }
  }

  lemma OtherStepIsNoMatter(s: State, a: Action, p: Pid, g: Setting)
    requires Safe(s, g) && !a.PowerLoss? && !a.Rename? && p != a.p
    ensures var t := Do(s, a, g); Active(PhaseOf(t, p)) ==> t.holder == Some(p) && Prepared(t, p, g)
  {
    if Active(PhaseOf(s, p)) { assert Prepared(s, p, g); }
  }

  lemma LocalStepKeepsSafe(s: State, a: Action, g: Setting)
    requires Safe(s, g) && !a.PowerLoss? && !a.Rename?
    ensures Safe(Do(s, a, g), g)
  {
    var t := Do(s, a, g);
    forall p | p in t.phases && Active(t.phases[p])
      ensures t.holder == Some(p) && Prepared(t, p, g)
    {
      if p == a.p { OwnStepIsPrepared(s, a, g); } else { OtherStepIsNoMatter(s, a, p, g); }
    }
  }

  /** In every run, with processes stopping anywhere and power failing anywhere, the file
      has only ever been its old self or a document one update made of the value before. */
  lemma {:induction false} EveryRunIsSafe(s: State, actions: seq<Action>, g: Setting)
    requires Initial(s)
    ensures Safe(Exec(s, actions, g), g) && Exec(s, actions, g).files[0] == s.files[0]
    decreases |actions|
  {
    if actions != [] {
      EveryRunIsSafe(s, actions[..|actions| - 1], g);
      var last := Exec(s, actions[..|actions| - 1], g);
      StepKeepsSafe(last, actions[|actions| - 1], g);
      if actions[|actions| - 1].PowerLoss? { PowerLossKeepsLinear(last, actions[|actions| - 1].kept, g); }
    }
  }

  /** Nobody reading at any moment sees anything but the old file or one complete, sorted
      and valid document. */
  lemma FileIsAlwaysWhole(s: State, actions: seq<Action>, g: Setting)
    requires Initial(s)
    ensures var file := File(Exec(s, actions, g));
            file == File(s)
            || (&& file.Some? && file.value.durable && file.value.content.Document?
                && file.value.content.version == SCHEMA_VERSION
                && SortedById(file.value.content.projects) && Registrable(file.value.content.projects, EntryRule(g.form)))
  {
    EveryRunIsSafe(s, actions, g);
    var t := Exec(s, actions, g);
    if t.commits != [] {
      var k := |t.commits| - 1;
      assert Follows(t.files[k], t.commits[k], t.files[k + 1], g);
      WantedIsValid(t.files[k], t.commits[k], g);
    }
  }

  lemma WantedIsValid(file: Option<Blob>, p: Pid, g: Setting)
    requires Wanted(file, p, g).Some?
    ensures SortedById(Wanted(file, p, g).value) && Registrable(Wanted(file, p, g).value, EntryRule(g.form))
  {
    var next := g.update(p, Listed(file, g).value).value;
    WrittenReadsBack(next, g.form);
  }

  // The updates of the committed processes, one after another.
  function Replay(file: Option<Blob>, commits: seq<Pid>, g: Setting): Option<Blob>
    decreases |commits|
  {
    if commits == [] then file
    else
      var before := Replay(file, commits[..|commits| - 1], g);
      match Wanted(before, commits[|commits| - 1], g)
      case None => before
      case Some(next) => Some(Blob(Render(next), true))
  }

  lemma {:induction false} LinearIsReplay(files: seq<Option<Blob>>, commits: seq<Pid>, g: Setting)
    requires |files| == |commits| + 1
    requires forall k :: 0 <= k < |commits| ==> Follows(files[k], commits[k], files[k + 1], g)
    ensures files[|commits|] == Replay(files[0], commits, g)
    decreases |commits|
  {
    if commits != [] {
      var k := |commits| - 1;
      forall j | 0 <= j < k
        ensures Follows(files[..k + 1][j], commits[..k][j], files[..k + 1][j + 1], g)
      {
        assert Follows(files[j], commits[j], files[j + 1], g);
      }
      LinearIsReplay(files[..k + 1], commits[..k], g);
      assert Follows(files[k], commits[k], files[k + 1], g);
    }
  }

  /** The file is the committed updates applied one after another, in lock order: none is
      lost and none is applied to a list it did not read. */
  lemma FileIsTheReplay(s: State, actions: seq<Action>, g: Setting)
    requires Initial(s)
    ensures var t := Exec(s, actions, g);
            File(t) == Replay(File(s), t.commits, g)
  {
    EveryRunIsSafe(s, actions, g);
    var t := Exec(s, actions, g);
    LinearIsReplay(t.files, t.commits, g);
  }

  // --- Who committed ---

  predicate Accounted(s: State) {
    && (forall i, j :: 0 <= i < j < |s.commits| ==> s.commits[i] != s.commits[j])
    && (forall p :: p in s.commits ==> p in s.phases
                                       && (s.phases[p].Renamed? || s.phases[p] in {Ended(Outcome.Written), Ended(Failed), Ended(Stopped)}))
    && (forall p :: p in s.phases && s.phases[p] == Ended(Outcome.Written) ==> p in s.commits)
    && (forall p :: p in s.phases && s.phases[p].Renamed? ==> p in s.commits)
  }

  lemma StepKeepsAccounts(s: State, a: Action, g: Setting)
    requires s.files != [] && Accounted(s) && !a.PowerLoss?
    ensures Accounted(Do(s, a, g)) && s.commits <= Do(s, a, g).commits
  {
    var t := Do(s, a, g);
    if a.Rename? && t != s {
      assert a.p !in s.commits;
      assert t.commits == s.commits + [a.p];
    } else {
      assert t.commits == s.commits;
    }
  }

  /** While the power stays on, an update that reports success is in the file's history once,
      one that was refused or changed nothing is not there, and no update is there twice. */
  lemma {:induction false} SuccessIsCommitted(s: State, actions: seq<Action>, g: Setting)
    requires Initial(s) && forall i :: 0 <= i < |actions| ==> !actions[i].PowerLoss?
    ensures var t := Exec(s, actions, g);
            && Accounted(t)
            && forall p :: p in t.phases ==>
                 && (t.phases[p] == Ended(Outcome.Written) ==> p in t.commits)
                 && (t.phases[p] in {Ended(Unchanged), Ended(Refused)} ==> p !in t.commits)
    decreases |actions|
  {
    if actions != [] {
      SuccessIsCommitted(s, actions[..|actions| - 1], g);
      StepKeepsAccounts(Exec(s, actions[..|actions| - 1], g), actions[|actions| - 1], g);
    }
  }

  lemma WhatIsWrittenIsListed(next: seq<Project>, g: Setting)
    requires Registrable(next, EntryRule(g.form))
    ensures Listed(Some(Blob(Render(next), true)), g) == Ok(next)
  {
    ValidDocumentsPassTheScan(next, g.form);
  }

  /** Reading back what was just renamed, still under the lock, always finds it: the update
      then reports success, and the next process reads exactly what was written. */
  lemma ReadBackSucceeds(s: State, p: Pid, g: Setting)
    requires Safe(s, g) && PhaseOf(s, p).Renamed?
    ensures var t := Do(s, Verify(p), g);
            PhaseOf(t, p) == Ended(Outcome.Written) && Listed(File(t), g) == Ok(PhaseOf(s, p).next)
  {
    assert Prepared(s, p, g);
    WhatIsWrittenIsListed(PhaseOf(s, p).next, g);
  }

  /** The legacy list counts until the first update that changes it, and then for nothing:
      that update moves all of it into the shared document. */
  lemma LegacyMovesWithTheFirstUpdate(s: State, actions: seq<Action>, g: Setting)
    requires Initial(s) && File(s).None? && g.legacy.Ok?
    ensures var t := Exec(s, actions, g);
            if t.commits == [] then Listed(File(t), g) == g.legacy
            else
              var moved := g.update(t.commits[0], g.legacy.value);
              && |t.files| > 1 && File(t).Some? && moved.Ok? && t.files[1].Some?
              && t.files[1].value.content == Render(SortById(moved.value))
  {
    EveryRunIsSafe(s, actions, g);
    var t := Exec(s, actions, g);
    if t.commits != [] {
      assert Follows(t.files[0], t.commits[0], t.files[0 + 1], g);
      assert Listed(t.files[0], g) == g.legacy;
      var k := |t.commits| - 1;
      assert Follows(t.files[k], t.commits[k], t.files[k + 1], g);
    }
  }
}
