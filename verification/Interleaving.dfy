// Syncs of different boxes running at once against one hub. Every Git command is one
// atomic step; boxes interleave freely, a run may stop between any two commands, the
// agent in a box writes and commits whenever no sync of its own box is under way, and
// the operator works in the hub with ordinary Git.

module Interleaving {
  import opened Options
  import opened GitHistory
  import opened BrainSync

  // How far a box's run has come. `stopped` remembers that the outbound merge conflicted.
  datatype Progress =
    | Idle
    | Captured                                // the vault is committed
    | Carried(bundle: Bundle)                 // the vault's bundle is on the host
    | SawNoHub(bundle: Bundle)
    | SawHub(bundle: Bundle)
    | Cloned                                  // the hub was made from this vault
    | Fetched                                 // the hub has the vault's history
    | MergingHub
    | AbortingHub
    | OutboundDone(stopped: bool)
    | CarriedIn(bundle: Bundle, stopped: bool)
    | FetchedIn(stopped: bool)
    | MergingVault(stopped: bool)
    | AbortingVault(stopped: bool)

  datatype Box = Box(vault: Repo, at: Progress)

  datatype State = State(hub: Option<Repo>, boxes: map<string, Box>)

  datatype Choice = Choice(content: nat, resolve: Resolver)

  datatype Action =
    | Advance(name: string, choice: Choice)   // the next command of the box's run
    | Stop(name: string)                      // a command fails, or the run ends here
    | AgentWrites(name: string)
    | AgentCommits(name: string, content: nat)
    | OperatorMerges(name: string, choice: Choice)
    | OperatorCommits(content: nat)

  function With(s: State, name: string, box: Box): State
  {
    s.(boxes := s.boxes[name := box])
  }

  function Do(s: State, a: Action): (s': State)
    ensures s'.boxes.Keys == s.boxes.Keys
  {
    match a
    case Advance(name, choice) => if name in s.boxes then Next(s, name, choice) else s
    case Stop(name) => if name in s.boxes then With(s, name, s.boxes[name].(at := Idle)) else s
    case AgentWrites(name) =>
      if name in s.boxes && s.boxes[name].at == Idle
      then With(s, name, Box(s.boxes[name].vault.(dirty := true), Idle)) else s
    case AgentCommits(name, content) =>
      if name in s.boxes && s.boxes[name].at == Idle
      then With(s, name, Box(CommitAll(s.boxes[name].vault, content), Idle)) else s
    case OperatorMerges(name, choice) =>
      if s.hub.Some? && name in s.hub.value.torio
      then s.(hub := Some(Merge(s.hub.value, s.hub.value.torio[name], choice.resolve).repo)) else s
    case OperatorCommits(content) =>
      if s.hub.Some? then s.(hub := Some(CommitAll(s.hub.value, content))) else s
  }

  function Next(s: State, name: string, choice: Choice): (s': State)
    requires name in s.boxes
    ensures s'.boxes.Keys == s.boxes.Keys
  {
    var box := s.boxes[name];
    var vault := box.vault;
    match box.at
    case Idle => With(s, name, Box(if Dirty(vault) then CommitAll(vault, choice.content) else vault, Captured))
    case Captured => With(s, name, Box(vault, Carried(BundleMain(vault))))
    case Carried(bundle) => With(s, name, Box(vault, if s.hub.Some? then SawHub(bundle) else SawNoHub(bundle)))
    case SawNoHub(bundle) =>
      // A clone refuses a directory another box has filled in the meantime.
      if s.hub.Some? then With(s, name, Box(vault, Idle))
      else With(s, name, Box(vault, Cloned)).(hub := Some(Clone(bundle)))
    case Cloned =>
      if s.hub.None? then With(s, name, Box(vault, Idle))
      else With(s, name, Box(vault, OutboundDone(false))).(hub := Some(s.hub.value.(hasRemote := false)))
    case SawHub(bundle) =>
      if s.hub.None? then With(s, name, Box(vault, Idle))
      else With(s, name, Box(vault, Fetched)).(hub := Some(Fetch(s.hub.value, bundle, name)))
    case Fetched =>
      if s.hub.None? || name !in s.hub.value.torio then With(s, name, Box(vault, Idle))
      else if CountRange(s.hub.value.main, s.hub.value.torio[name]) == 0 then With(s, name, Box(vault, OutboundDone(false)))
      else With(s, name, Box(vault, MergingHub))
    case MergingHub =>
      if s.hub.None? || name !in s.hub.value.torio then With(s, name, Box(vault, Idle))
      else
        var m := Merge(s.hub.value, s.hub.value.torio[name], choice.resolve);
        With(s, name, Box(vault, if m.succeeded then OutboundDone(false) else AbortingHub)).(hub := Some(m.repo))
    case AbortingHub =>
      if s.hub.None? || AbortMerge(s.hub.value).None? then With(s, name, Box(vault, Idle))
      else With(s, name, Box(vault, OutboundDone(true))).(hub := AbortMerge(s.hub.value))
    case OutboundDone(stopped) =>
      if s.hub.None? then With(s, name, Box(vault, Idle))
      else With(s, name, Box(vault, CarriedIn(BundleMain(s.hub.value), stopped)))
    case CarriedIn(bundle, stopped) => With(s, name, Box(Fetch(vault, bundle, HUB_REF), FetchedIn(stopped)))
    case FetchedIn(stopped) =>
      if HUB_REF !in vault.torio || CountRange(vault.main, vault.torio[HUB_REF]) == 0 then With(s, name, Box(vault, Idle))
      else With(s, name, Box(vault, MergingVault(stopped)))
    case MergingVault(stopped) =>
      if HUB_REF !in vault.torio then With(s, name, Box(vault, Idle))
      else
        var m := Merge(vault, vault.torio[HUB_REF], choice.resolve);
        With(s, name, Box(m.repo, if m.succeeded then Idle else AbortingVault(stopped)))
    case AbortingVault(stopped) =>
      var restored := AbortMerge(vault);
      With(s, name, Box(if restored.Some? then restored.value else vault, Idle))
  }

  function Exec(s: State, actions: seq<Action>): (s': State)
    ensures s'.boxes.Keys == s.boxes.Keys
    decreases |actions|
  {
    if actions == [] then s else Exec(Do(s, actions[0]), actions[1..])
  }

  // --- What every reachable state keeps ---

  // Histories one repository is known to be behind another on.
  ghost predicate Behind(c: Commit, r: Repo) { c in Ancestors(r.main) }

  // The hub's view of a box never runs ahead of the box, nor the box's of the hub.
  ghost predicate RefsTrail(s: State, name: string)
    requires name in s.boxes
  {
    var vault := s.boxes[name].vault;
    && (HUB_REF in vault.torio ==> s.hub.Some? && Behind(vault.torio[HUB_REF], s.hub.value))
    && (s.hub.Some? && name in s.hub.value.torio ==> Behind(s.hub.value.torio[name], vault))
  }

  // What a box's progress says about the two repositories.
  ghost predicate ProgressHolds(s: State, name: string)
    requires name in s.boxes
  {
    var vault := s.boxes[name].vault;
    match s.boxes[name].at
    case Idle => true
    case Captured => vault.mergeHead.None?
    case Carried(bundle) => vault.mergeHead.None? && bundle == BundleMain(vault)
    case SawNoHub(bundle) => vault.mergeHead.None? && bundle == BundleMain(vault)
    case SawHub(bundle) => vault.mergeHead.None? && bundle == BundleMain(vault) && s.hub.Some?
    case Cloned => vault.mergeHead.None? && s.hub.Some? && Behind(vault.main, s.hub.value)
    case Fetched => vault.mergeHead.None? && HubHolds(s, name)
    case MergingHub => vault.mergeHead.None? && HubHolds(s, name)
    case AbortingHub => vault.mergeHead.None? && s.hub.Some?
    case OutboundDone(stopped) =>
      vault.mergeHead.None? && s.hub.Some? && (!stopped ==> Behind(vault.main, s.hub.value))
    case CarriedIn(bundle, stopped) =>
      && vault.mergeHead.None? && s.hub.Some? && Behind(bundle.head, s.hub.value) && WholeBundle(bundle)
      && (!stopped ==> vault.main in Ancestors(bundle.head))
      && (HUB_REF in vault.torio ==> vault.torio[HUB_REF] in Ancestors(bundle.head))
    case FetchedIn(stopped) =>
      vault.mergeHead.None? && HUB_REF in vault.torio && (!stopped ==> vault.main in Ancestors(vault.torio[HUB_REF]))
    case MergingVault(stopped) =>
      vault.mergeHead.None? && HUB_REF in vault.torio && (!stopped ==> vault.main in Ancestors(vault.torio[HUB_REF]))
    case AbortingVault(stopped) => stopped
  }

  // The hub's ref for the box is at the commit the box's run captured.
  ghost predicate HubHolds(s: State, name: string)
    requires name in s.boxes
  {
    s.hub.Some? && name in s.hub.value.torio && s.hub.value.torio[name] == s.boxes[name].vault.main
  }

  ghost predicate Holds(s: State, name: string) {
    name in s.boxes && RefsTrail(s, name) && ProgressHolds(s, name)
  }

  ghost predicate Safe(s: State) {
    forall name <- s.boxes :: Holds(s, name)
  }

  ghost predicate Initial(s: State) {
    && (forall name <- s.boxes :: s.boxes[name].at == Idle && RefsTrail(s, name))
  }

  // What one step may do to the hub: it grows, and only the acting box's ref moves.
  ghost predicate HubGrows(before: Option<Repo>, after: Option<Repo>, actor: Option<string>) {
    && (before.Some? ==> after.Some? && KeepsHistory(before.value, after.value))
    && (before.Some? ==> forall name | actor != Some(name) :: SameRef(before.value, after.value, name))
    && (before.None? && after.Some? ==> after.value.torio == map[])
  }

  ghost predicate SameRef(before: Repo, after: Repo, name: string) {
    (name in after.torio <==> name in before.torio) && (name in before.torio ==> after.torio[name] == before.torio[name])
  }

  // A step by one box keeps what is known of another.
  lemma OthersAreUndisturbed(s: State, s': State, actor: Option<string>, name: string)
    requires Holds(s, name) && actor != Some(name)
    requires name in s'.boxes && s'.boxes[name] == s.boxes[name]
    requires HubGrows(s.hub, s'.hub, actor)
    ensures Holds(s', name)
  {
    if s.hub.Some? {
      assert SameRef(s.hub.value, s'.hub.value, name);
      AncestryIsTransitive(s.hub.value.main, s'.hub.value.main);
    }
  }

  lemma NextGrowsHub(s: State, name: string, choice: Choice)
    requires name in s.boxes
    ensures HubGrows(s.hub, Next(s, name, choice).hub, Some(name))
  {
    match s.boxes[name].at
    case MergingHub => HubMergeGrows(s, name, choice);
    case SawHub(bundle) => HubFetchGrows(s, name, choice);
    case SawNoHub(_) =>
    case Cloned =>
    case AbortingHub =>
    case _ => assert Next(s, name, choice).hub == s.hub;
  }

  lemma HubMergeGrows(s: State, name: string, choice: Choice)
    requires name in s.boxes && s.boxes[name].at.MergingHub?
    ensures HubGrows(s.hub, Next(s, name, choice).hub, Some(name))
  {
    if s.hub.Some? && name in s.hub.value.torio {
      MergeJoinsBothSides(s.hub.value, s.hub.value.torio[name], choice.resolve);
    }
  }

  lemma HubFetchGrows(s: State, name: string, choice: Choice)
    requires name in s.boxes && s.boxes[name].at.SawHub?
    ensures HubGrows(s.hub, Next(s, name, choice).hub, Some(name))
  {
  }

  // The box's own part of the invariant, step by step.
  lemma NextKeepsOwn(s: State, name: string, choice: Choice)
    requires Holds(s, name)
    ensures Holds(Next(s, name, choice), name)
    ensures KeepsHistory(s.boxes[name].vault, Next(s, name, choice).boxes[name].vault)
  {
    match s.boxes[name].at
    case Idle => CaptureKeepsOwn(s, name, choice);
    case Fetched => CountRangeIsZeroExactlyWhenReachable(s.hub.value.main, s.hub.value.torio[name]);
    case MergingHub => HubMergeKeepsOwn(s, name, choice);
    case MergingVault(stopped) => VaultMergeKeepsOwn(s, name, choice);
    case OutboundDone(stopped) =>
    case _ =>
  }

  lemma CaptureKeepsOwn(s: State, name: string, choice: Choice)
    requires Holds(s, name) && s.boxes[name].at.Idle?
    ensures Holds(Next(s, name, choice), name)
    ensures KeepsHistory(s.boxes[name].vault, Next(s, name, choice).boxes[name].vault)
  {
    CommitExtendsMain(s.boxes[name].vault, choice.content);
    AncestryIsTransitive(s.boxes[name].vault.main, Next(s, name, choice).boxes[name].vault.main);
  }

  lemma HubMergeKeepsOwn(s: State, name: string, choice: Choice)
    requires Holds(s, name) && s.boxes[name].at.MergingHub?
    ensures Holds(Next(s, name, choice), name)
  {
    var hub := s.hub.value;
    MergeJoinsBothSides(hub, hub.torio[name], choice.resolve);
    AncestryIsTransitive(hub.main, Merge(hub, hub.torio[name], choice.resolve).repo.main);
  }

  lemma VaultMergeKeepsOwn(s: State, name: string, choice: Choice)
    requires Holds(s, name) && s.boxes[name].at.MergingVault?
    ensures Holds(Next(s, name, choice), name)
    ensures KeepsHistory(s.boxes[name].vault, Next(s, name, choice).boxes[name].vault)
  {
    var vault := s.boxes[name].vault;
    var target := vault.torio[HUB_REF];
    MergeJoinsBothSides(vault, target, choice.resolve);
    AncestryIsTransitive(vault.main, Merge(vault, target, choice.resolve).repo.main);
    if vault.main in Ancestors(target) {
      MergeOfDescendantFastForwards(vault, target, choice.resolve);
    }
  }

  // Everyone's history only grows.
  ghost predicate NothingLost(s: State, s': State)
  {
    && (s.hub.Some? ==> s'.hub.Some? && KeepsHistory(s.hub.value, s'.hub.value))
    && (forall name <- s.boxes :: name in s'.boxes && KeepsHistory(s.boxes[name].vault, s'.boxes[name].vault))
  }

  lemma AdvanceIsSafe(s: State, name: string, choice: Choice)
    requires Safe(s) && name in s.boxes
    ensures Safe(Next(s, name, choice)) && NothingLost(s, Next(s, name, choice))
  {
    var s' := Next(s, name, choice);
    NextGrowsHub(s, name, choice);
    NextKeepsOwn(s, name, choice);
    forall other <- s.boxes
      ensures Holds(s', other) && KeepsHistory(s.boxes[other].vault, s'.boxes[other].vault)
    {
      if other != name {
        OnlyTheActorMoves(s, name, choice, other);
        OthersAreUndisturbed(s, s', Some(name), other);
      }
    }
  }

  lemma OnlyTheActorMoves(s: State, name: string, choice: Choice, other: string)
    requires name in s.boxes && other in s.boxes && other != name
    ensures Next(s, name, choice).boxes[other] == s.boxes[other]
  {
  }

  lemma AgentCommitIsSafe(s: State, name: string, content: nat)
    requires Safe(s) && name in s.boxes && s.boxes[name].at == Idle
    ensures var s' := Do(s, AgentCommits(name, content)); Safe(s') && NothingLost(s, s')
  {
    var s' := Do(s, AgentCommits(name, content));
    CommitExtendsMain(s.boxes[name].vault, content);
    AncestryIsTransitive(s.boxes[name].vault.main, s'.boxes[name].vault.main);
    forall other <- s.boxes
      ensures Holds(s', other)
    {
      assert Holds(s, other);
    }
  }

  lemma OperatorIsSafe(s: State, hub: Repo)
    requires Safe(s) && s.hub.Some? && KeepsHistory(s.hub.value, hub) && hub.torio == s.hub.value.torio
    ensures Safe(s.(hub := Some(hub))) && NothingLost(s, s.(hub := Some(hub)))
  {
    forall name <- s.boxes
      ensures Holds(s.(hub := Some(hub)), name)
    {
      OthersAreUndisturbed(s, s.(hub := Some(hub)), None, name);
    }
  }

  lemma StepIsSafe(s: State, a: Action)
    requires Safe(s)
    ensures Safe(Do(s, a)) && NothingLost(s, Do(s, a))
  {
    match a
    case Advance(name, choice) => if name in s.boxes { AdvanceIsSafe(s, name, choice); }
    case Stop(name) => OwnChangeIsSafe(s, a, name);
    case AgentWrites(name) => OwnChangeIsSafe(s, a, name);
    case AgentCommits(name, content) => if name in s.boxes && s.boxes[name].at == Idle { AgentCommitIsSafe(s, name, content); }
    case OperatorMerges(name, choice) => OperatorMergeIsSafe(s, name, choice);
    case OperatorCommits(content) =>
      if s.hub.Some? {
        CommitExtendsMain(s.hub.value, content);
        OperatorIsSafe(s, CommitAll(s.hub.value, content));
      }
  }

  lemma MergedHubGrows(hub: Repo, target: Commit, resolve: Resolver)
    ensures var merged := Merge(hub, target, resolve).repo;
            KeepsHistory(hub, merged) && merged.torio == hub.torio
  {
    MergeJoinsBothSides(hub, target, resolve);
    MergeKeepsRefs(hub, target, resolve);
  }

  lemma OperatorMergeIsSafe(s: State, name: string, choice: Choice)
    requires Safe(s)
    ensures var s' := Do(s, OperatorMerges(name, choice)); Safe(s') && NothingLost(s, s')
  {
    if s.hub.Some? && name in s.hub.value.torio {
      MergedHubGrows(s.hub.value, s.hub.value.torio[name], choice.resolve);
      OperatorIsSafe(s, Merge(s.hub.value, s.hub.value.torio[name], choice.resolve).repo);
    }
  }

  lemma OwnChangeIsSafe(s: State, a: Action, name: string)
    requires Safe(s) && (a == Stop(name) || a == AgentWrites(name))
    ensures Safe(Do(s, a)) && NothingLost(s, Do(s, a))
  {
    var s' := Do(s, a);
    forall other <- s.boxes
      ensures Holds(s', other)
    {
      assert Holds(s, other);
    }
  }

  lemma NothingLostIsTransitive(s: State, mid: State, end: State)
    requires NothingLost(s, mid) && NothingLost(mid, end)
    ensures NothingLost(s, end)
  {
    if s.hub.Some? {
      AncestryIsTransitive(mid.hub.value.main, end.hub.value.main);
    }
    forall name <- s.boxes
      ensures KeepsHistory(s.boxes[name].vault, end.boxes[name].vault)
    {
      AncestryIsTransitive(mid.boxes[name].vault.main, end.boxes[name].vault.main);
    }
  }

  /** For every interleaving, with any command failing and any run stopping anywhere: no
      commit a main could reach is ever lost, and every box's view of the hub is history
      the hub has. */
  lemma {:induction false} EveryInterleavingIsSafe(s: State, actions: seq<Action>)
    requires Safe(s)
    ensures Safe(Exec(s, actions)) && NothingLost(s, Exec(s, actions))
    decreases |actions|
  {
    if actions != [] {
      StepIsSafe(s, actions[0]);
      EveryInterleavingIsSafe(Do(s, actions[0]), actions[1..]);
      NothingLostIsTransitive(s, Do(s, actions[0]), Exec(s, actions));
    }
  }

  lemma InitialIsSafe(s: State)
    requires Initial(s)
    ensures Safe(s)
  {
  }

  // The two endings of a run that did not conflict on its way out.
  lemma ForwardEnding(r: State, name: string, choice: Choice)
    requires Holds(r, name) && (r.boxes[name].at == FetchedIn(false) || r.boxes[name].at == MergingVault(false))
    ensures var vault := r.boxes[name].vault; var box' := Next(r, name, choice).boxes[name];
            && HUB_REF in vault.torio
            && (box'.at == Idle ==> box'.vault == vault.(main := vault.torio[HUB_REF]))
            && (r.boxes[name].at == MergingVault(false) ==> box'.at == Idle)
  {
    var vault := r.boxes[name].vault;
    CountRangeIsZeroExactlyWhenReachable(vault.main, vault.torio[HUB_REF]);
    if vault.torio[HUB_REF] in Ancestors(vault.main) {
      AncestryIsAntisymmetric(vault.torio[HUB_REF], vault.main);
    }
    MergeOfDescendantFastForwards(vault, vault.torio[HUB_REF], choice.resolve);
  }

  /** In every reachable state a box that is undoing an inbound merge conflicted on the
      way out first; and a run that did not conflict on the way out moves its vault
      forward, onto the very hub commit it carried. */
  lemma InboundConflictNeedsOutbound(s: State, actions: seq<Action>, name: string, choice: Choice)
    requires Initial(s) && name in s.boxes
    ensures var r := Exec(s, actions); var box := r.boxes[name]; var box' := Next(r, name, choice).boxes[name];
            && (box.at.AbortingVault? ==> box.at.stopped)
            && (box.at == FetchedIn(false) || box.at == MergingVault(false) ==>
                  && HUB_REF in box.vault.torio
                  && (box'.at == Idle ==> box'.vault == box.vault.(main := box.vault.torio[HUB_REF]))
                  && (box.at == MergingVault(false) ==> box'.at == Idle))
  {
    InitialIsSafe(s);
    EveryInterleavingIsSafe(s, actions);
    var r := Exec(s, actions);
    assert Holds(r, name);
    if r.boxes[name].at == FetchedIn(false) || r.boxes[name].at == MergingVault(false) {
      ForwardEnding(r, name, choice);
    }
  }

  // A fetch that is about to run replaces history of what it brings.
  ghost predicate NextFetchIsForward(s: State, name: string)
    requires name in s.boxes
  {
    var box := s.boxes[name];
    && (box.at.SawHub? && s.hub.Some? && name in s.hub.value.torio ==>
          s.hub.value.torio[name] in Ancestors(box.at.bundle.head))
    && (box.at.CarriedIn? && HUB_REF in box.vault.torio ==>
          box.vault.torio[HUB_REF] in Ancestors(box.at.bundle.head))
  }

  /** No fetch ever has to move a ref sideways, so a refspec without a leading plus is
      enough on both sides. */
  lemma FetchesOnlyMoveForward(s: State, actions: seq<Action>, name: string)
    requires Initial(s) && name in s.boxes
    ensures NextFetchIsForward(Exec(s, actions), name)
  {
    var t := Exec(s, actions);
    assert name in t.boxes && Holds(t, name) by {
      InitialIsSafe(s);
      EveryInterleavingIsSafe(s, actions);
    }
  }
}
