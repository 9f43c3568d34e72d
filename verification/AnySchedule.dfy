// Syncs with nothing keeping them apart: any number of runs of the same box at once, sharing
// its staging directory, and the agent at work meanwhile. Every Git command of a sync may
// then come at any time, with any bundle ever made.

module AnySchedule {
  import opened Options
  import opened GitHistory
  import BrainSync
  import Interleaving

  type Name = string

  // The repositories, and every bundle that was ever made of a vault and of the hub.
  datatype State = State(hub: Option<Repo>, vaults: map<Name, Repo>, carried: set<(Name, Bundle)>, hubBundles: set<Bundle>)

  datatype Action =
    | Snapshot(name: Name, content: nat)          // a sync or the agent commits
    | Write(name: Name)                           // the agent writes
    | BundleVault(name: Name)
    | CloneHub(name: Name, bundle: Bundle)
    | DetachHub
    | FetchVault(name: Name, bundle: Bundle)
    | MergeHub(name: Name, resolve: Resolver)     // a sync or the operator merges
    | CommitHub(content: nat)                     // the operator commits
    | AbortHub
    | BundleHub
    | FetchHub(name: Name, bundle: Bundle)
    | MergeVault(name: Name, resolve: Resolver)
    | AbortVault(name: Name)

  function InVault(s: State, name: Name, vault: Repo): State { s.(vaults := s.vaults[name := vault]) }

  function InHub(s: State, hub: Repo): State { s.(hub := Some(hub)) }

  // A command that cannot be run changes nothing.
  function Do(s: State, a: Action): State {
    match a
    case Snapshot(name, content) => if name in s.vaults then InVault(s, name, CommitAll(s.vaults[name], content)) else s
    case Write(name) => if name in s.vaults then InVault(s, name, s.vaults[name].(dirty := true)) else s
    case BundleVault(name) =>
      if name in s.vaults then s.(carried := s.carried + {(name, BundleMain(s.vaults[name]))}) else s
    case CloneHub(name, bundle) => if s.hub.None? && (name, bundle) in s.carried then InHub(s, Clone(bundle)) else s
    case DetachHub => if s.hub.Some? then InHub(s, s.hub.value.(hasRemote := false)) else s
    case FetchVault(name, bundle) =>
      if s.hub.Some? && (name, bundle) in s.carried then InHub(s, Fetch(s.hub.value, bundle, name)) else s
    case MergeHub(name, resolve) =>
      if s.hub.Some? && name in s.hub.value.torio
      then InHub(s, Merge(s.hub.value, s.hub.value.torio[name], resolve).repo) else s
    case CommitHub(content) => if s.hub.Some? then InHub(s, CommitAll(s.hub.value, content)) else s
    case AbortHub => if s.hub.Some? && AbortMerge(s.hub.value).Some? then s.(hub := AbortMerge(s.hub.value)) else s
    case BundleHub => if s.hub.Some? then s.(hubBundles := s.hubBundles + {BundleMain(s.hub.value)}) else s
    case FetchHub(name, bundle) =>
      if name in s.vaults && bundle in s.hubBundles
      then InVault(s, name, Fetch(s.vaults[name], bundle, BrainSync.HUB_REF)) else s
    case MergeVault(name, resolve) =>
      if name in s.vaults && BrainSync.HUB_REF in s.vaults[name].torio
      then InVault(s, name, Merge(s.vaults[name], s.vaults[name].torio[BrainSync.HUB_REF], resolve).repo) else s
    case AbortVault(name) =>
      if name in s.vaults && AbortMerge(s.vaults[name]).Some? then InVault(s, name, AbortMerge(s.vaults[name]).value) else s
  }

  function Exec(s: State, actions: seq<Action>): State
    decreases |actions|
  {
    if actions == [] then s else Exec(Do(s, actions[0]), actions[1..])
  }

  // --- What every schedule keeps ---

  ghost predicate VaultHolds(s: State, name: Name)
    requires name in s.vaults
  {
    var vault := s.vaults[name];
    && Connected(vault)
    && (BrainSync.HUB_REF in vault.torio ==> s.hub.Some? && vault.torio[BrainSync.HUB_REF] in Ancestors(s.hub.value.main))
  }

  ghost predicate RefHolds(s: State, name: Name)
    requires s.hub.Some? && name in s.hub.value.torio
  {
    name in s.vaults && s.hub.value.torio[name] in Ancestors(s.vaults[name].main)
  }

  ghost predicate CarriedHolds(s: State, name: Name, bundle: Bundle) {
    name in s.vaults && WholeBundle(bundle) && bundle.head in Ancestors(s.vaults[name].main)
  }

  ghost predicate HubBundleHolds(s: State, bundle: Bundle) {
    s.hub.Some? && WholeBundle(bundle) && bundle.head in Ancestors(s.hub.value.main)
  }

  // Every repository has all history of its refs; no bundle and no ref is ahead of the main
  // it was made of.
  ghost predicate Safe(s: State) {
    && (forall name <- s.vaults :: VaultHolds(s, name))
    && (s.hub.Some? ==> Connected(s.hub.value) && forall name <- s.hub.value.torio :: RefHolds(s, name))
    && (forall c <- s.carried :: CarriedHolds(s, c.0, c.1))
    && (forall bundle <- s.hubBundles :: HubBundleHolds(s, bundle))
  }

  ghost predicate NothingLost(s: State, t: State) {
    && (s.hub.Some? ==> t.hub.Some? && KeepsHistory(s.hub.value, t.hub.value))
    && s.vaults.Keys == t.vaults.Keys && (forall name <- s.vaults :: KeepsHistory(s.vaults[name], t.vaults[name]))
  }

  // The vault is replaced by one that reaches all it reached.
  lemma VaultChangeIsSafe(s: State, name: Name, vault: Repo)
    requires Safe(s) && name in s.vaults && Connected(vault) && KeepsHistory(s.vaults[name], vault)
    requires BrainSync.HUB_REF in vault.torio ==>
               s.hub.Some? && vault.torio[BrainSync.HUB_REF] in Ancestors(s.hub.value.main)
    ensures Safe(InVault(s, name, vault)) && NothingLost(s, InVault(s, name, vault))
  {
    var t := InVault(s, name, vault);
    AncestryIsTransitive(s.vaults[name].main, vault.main);
    forall other <- t.vaults
      ensures VaultHolds(t, other)
    {
      if other != name { assert VaultHolds(s, other); }
    }
    if s.hub.Some? {
      forall other <- s.hub.value.torio
        ensures RefHolds(t, other)
      {
        assert RefHolds(s, other);
      }
    }
    forall c <- s.carried
      ensures CarriedHolds(t, c.0, c.1)
    {
      assert CarriedHolds(s, c.0, c.1);
    }
    forall bundle <- s.hubBundles
      ensures HubBundleHolds(t, bundle)
    {
      assert HubBundleHolds(s, bundle);
    }
  }

  lemma HubChangeIsSafe(s: State, hub: Repo)
    requires Safe(s) && Connected(hub) && (s.hub.Some? ==> KeepsHistory(s.hub.value, hub))
    requires forall name <- hub.torio :: name in s.vaults && hub.torio[name] in Ancestors(s.vaults[name].main)
    ensures Safe(InHub(s, hub)) && NothingLost(s, InHub(s, hub))
  {
    var t := InHub(s, hub);
    if s.hub.Some? { AncestryIsTransitive(s.hub.value.main, hub.main); }
    forall name <- t.vaults
      ensures VaultHolds(t, name)
    {
      assert VaultHolds(s, name);
    }
    forall name <- hub.torio
      ensures RefHolds(t, name)
    {
    }
    forall c <- s.carried
      ensures CarriedHolds(t, c.0, c.1)
    {
      assert CarriedHolds(s, c.0, c.1);
    }
    forall bundle <- s.hubBundles
      ensures HubBundleHolds(t, bundle)
    {
      assert HubBundleHolds(s, bundle);
    }
  }

  lemma SnapshotIsSafe(s: State, name: Name, content: nat)
    requires Safe(s) && name in s.vaults
    ensures var t := Do(s, Snapshot(name, content)); Safe(t) && NothingLost(s, t)
  {
    assert VaultHolds(s, name);
    CommitAllExtends(s.vaults[name], content);
    VaultChangeIsSafe(s, name, CommitAll(s.vaults[name], content));
  }

  lemma FetchHubIsSafe(s: State, name: Name, bundle: Bundle)
    requires Safe(s) && name in s.vaults && bundle in s.hubBundles
    ensures var t := Do(s, FetchHub(name, bundle)); Safe(t) && NothingLost(s, t)
  {
    assert VaultHolds(s, name) && HubBundleHolds(s, bundle);
    FetchIsConnected(s.vaults[name], bundle, BrainSync.HUB_REF);
    VaultChangeIsSafe(s, name, Fetch(s.vaults[name], bundle, BrainSync.HUB_REF));
  }

  lemma VaultWithSameRefsIsSafe(s: State, name: Name, vault: Repo)
    requires Safe(s) && name in s.vaults && Connected(vault) && KeepsHistory(s.vaults[name], vault)
    requires vault.torio == s.vaults[name].torio
    ensures Safe(InVault(s, name, vault)) && NothingLost(s, InVault(s, name, vault))
  {
    assert VaultHolds(s, name);
    VaultChangeIsSafe(s, name, vault);
  }

  lemma MergeVaultIsSafe(s: State, name: Name, resolve: Resolver)
    requires Safe(s) && name in s.vaults && BrainSync.HUB_REF in s.vaults[name].torio
    ensures var t := Do(s, MergeVault(name, resolve)); Safe(t) && NothingLost(s, t)
  {
    assert VaultHolds(s, name);
    var vault, target := s.vaults[name], s.vaults[name].torio[BrainSync.HUB_REF];
    MergeJoinsBothSides(vault, target, resolve);
    MergeKeepsConnection(vault, target, resolve);
    MergeKeepsRefs(vault, target, resolve);
    VaultWithSameRefsIsSafe(s, name, Merge(vault, target, resolve).repo);
  }

  lemma OwnVaultStepIsSafe(s: State, name: Name, a: Action)
    requires Safe(s) && name in s.vaults && (a == Write(name) || a == AbortVault(name))
    ensures Safe(Do(s, a)) && NothingLost(s, Do(s, a))
  {
    assert VaultHolds(s, name);
    var vault := s.vaults[name];
    if a.Write? { VaultChangeIsSafe(s, name, vault.(dirty := true)); }
    if a.AbortVault? && vault.mergeHead.Some? { VaultChangeIsSafe(s, name, vault.(mergeHead := None)); }
  }

  lemma FetchVaultIsSafe(s: State, name: Name, bundle: Bundle)
    requires Safe(s) && s.hub.Some? && (name, bundle) in s.carried
    ensures var t := Do(s, FetchVault(name, bundle)); Safe(t) && NothingLost(s, t)
  {
    assert CarriedHolds(s, (name, bundle).0, (name, bundle).1);
    FetchIsConnected(s.hub.value, bundle, name);
    var hub := Fetch(s.hub.value, bundle, name);
    forall other <- hub.torio
      ensures other in s.vaults && hub.torio[other] in Ancestors(s.vaults[other].main)
    {
      if other != name { assert RefHolds(s, other); }
    }
    HubChangeIsSafe(s, hub);
  }

  lemma CloneHubIsSafe(s: State, name: Name, bundle: Bundle)
    requires Safe(s) && s.hub.None? && (name, bundle) in s.carried
    ensures var t := Do(s, CloneHub(name, bundle)); Safe(t) && NothingLost(s, t)
  {
    assert CarriedHolds(s, (name, bundle).0, (name, bundle).1);
    HubChangeIsSafe(s, Clone(bundle));
  }

  lemma MergeHubIsSafe(s: State, name: Name, resolve: Resolver)
    requires Safe(s) && s.hub.Some? && name in s.hub.value.torio
    ensures var t := Do(s, MergeHub(name, resolve)); Safe(t) && NothingLost(s, t)
  {
    var hub, target := s.hub.value, s.hub.value.torio[name];
    MergeJoinsBothSides(hub, target, resolve);
    MergeKeepsConnection(hub, target, resolve);
    MergeKeepsRefs(hub, target, resolve);
    HubWithSameRefsIsSafe(s, Merge(hub, target, resolve).repo);
  }

  lemma SameRefs(s: State)
    requires Safe(s) && s.hub.Some?
    ensures forall name <- s.hub.value.torio ::
              name in s.vaults && s.hub.value.torio[name] in Ancestors(s.vaults[name].main)
  {
    forall name <- s.hub.value.torio
      ensures name in s.vaults && s.hub.value.torio[name] in Ancestors(s.vaults[name].main)
    {
      assert RefHolds(s, name);
    }
  }

  lemma HubWithSameRefsIsSafe(s: State, hub: Repo)
    requires Safe(s) && s.hub.Some? && Connected(hub) && KeepsHistory(s.hub.value, hub) && hub.torio == s.hub.value.torio
    ensures Safe(InHub(s, hub)) && NothingLost(s, InHub(s, hub))
  {
    SameRefs(s);
    HubChangeIsSafe(s, hub);
  }

  lemma OwnHubStepIsSafe(s: State, a: Action)
    requires Safe(s) && s.hub.Some? && (a.CommitHub? || a.AbortHub? || a.DetachHub?)
    ensures Safe(Do(s, a)) && NothingLost(s, Do(s, a))
  {
    SameRefs(s);
    var hub := s.hub.value;
    if a.CommitHub? {
      CommitAllExtends(hub, a.content);
      HubChangeIsSafe(s, CommitAll(hub, a.content));
    } else if a.DetachHub? {
      HubChangeIsSafe(s, hub.(hasRemote := false));
    } else if hub.mergeHead.Some? {
      HubChangeIsSafe(s, hub.(mergeHead := None));
    }
  }

  lemma BundlingIsSafe(s: State, a: Action)
    requires Safe(s) && (a.BundleVault? || a.BundleHub?)
    ensures Safe(Do(s, a)) && NothingLost(s, Do(s, a))
  {
    var t := Do(s, a);
    forall name <- t.vaults
      ensures VaultHolds(t, name)
    {
      assert VaultHolds(s, name);
    }
    if s.hub.Some? {
      forall name <- s.hub.value.torio
        ensures RefHolds(t, name)
      {
        assert RefHolds(s, name);
      }
    }
    forall c <- t.carried
      ensures CarriedHolds(t, c.0, c.1)
    {
      if c in s.carried { assert CarriedHolds(s, c.0, c.1); }
    }
    forall bundle <- t.hubBundles
      ensures HubBundleHolds(t, bundle)
    {
      if bundle in s.hubBundles { assert HubBundleHolds(s, bundle); }
    }
  }

  lemma StepIsSafe(s: State, a: Action)
    requires Safe(s)
    ensures Safe(Do(s, a)) && NothingLost(s, Do(s, a))
  {
    match a
    case Snapshot(name, content) => if name in s.vaults { SnapshotIsSafe(s, name, content); }
    case Write(name) => if name in s.vaults { OwnVaultStepIsSafe(s, name, a); }
    case BundleVault(_) => BundlingIsSafe(s, a);
    case CloneHub(name, bundle) => if s.hub.None? && (name, bundle) in s.carried { CloneHubIsSafe(s, name, bundle); }
    case DetachHub => if s.hub.Some? { OwnHubStepIsSafe(s, a); }
    case FetchVault(name, bundle) => if s.hub.Some? && (name, bundle) in s.carried { FetchVaultIsSafe(s, name, bundle); }
    case MergeHub(name, resolve) => if s.hub.Some? && name in s.hub.value.torio { MergeHubIsSafe(s, name, resolve); }
    case CommitHub(_) => if s.hub.Some? { OwnHubStepIsSafe(s, a); }
    case AbortHub => if s.hub.Some? { OwnHubStepIsSafe(s, a); }
    case BundleHub => BundlingIsSafe(s, a);
    case FetchHub(name, bundle) => if name in s.vaults && bundle in s.hubBundles { FetchHubIsSafe(s, name, bundle); }
    case MergeVault(name, resolve) =>
      if name in s.vaults && BrainSync.HUB_REF in s.vaults[name].torio { MergeVaultIsSafe(s, name, resolve); }
    case AbortVault(name) => if name in s.vaults { OwnVaultStepIsSafe(s, name, a); }
  }

  lemma LossIsTransitive(s: State, middle: State, t: State)
    requires NothingLost(s, middle) && NothingLost(middle, t)
    ensures NothingLost(s, t)
  {
    if s.hub.Some? { AncestryIsTransitive(middle.hub.value.main, t.hub.value.main); }
    forall name <- s.vaults
      ensures KeepsHistory(s.vaults[name], t.vaults[name])
    {
      AncestryIsTransitive(middle.vaults[name].main, t.vaults[name].main);
    }
  }

  /** In any order of the commands of any number of syncs, of the same box or of others, with
      bundles old or new and agents and the operator at work in between: no commit a main
      could reach is ever lost, no repository lacks history of a ref, and every ref under
      refs/torio/ trails the main it was taken from. */
  lemma {:induction false} EveryScheduleIsSafe(s: State, actions: seq<Action>)
    requires Safe(s)
    ensures Safe(Exec(s, actions)) && NothingLost(s, Exec(s, actions))
    decreases |actions|
  {
    if actions != [] {
      StepIsSafe(s, actions[0]);
      EveryScheduleIsSafe(Do(s, actions[0]), actions[1..]);
      LossIsTransitive(s, Do(s, actions[0]), Exec(s, actions));
    }
  }

  // --- Runs that are kept apart are such schedules ---

  // The bundle a run has in hand was made.
  predicate Made(s: State, name: Name, at: Interleaving.Progress) {
    match at
    case Carried(bundle) => (name, bundle) in s.carried
    case SawNoHub(bundle) => (name, bundle) in s.carried
    case SawHub(bundle) => (name, bundle) in s.carried
    case CarriedIn(bundle, _) => bundle in s.hubBundles
    case _ => true
  }

  // The same repositories, and every bundle that is in hand.
  ghost predicate Covers(s: State, i: Interleaving.State) {
    && s.hub == i.hub && s.vaults.Keys == i.boxes.Keys
    && forall name <- i.boxes :: s.vaults[name] == i.boxes[name].vault && Made(s, name, i.boxes[name].at)
  }

  // The command a step of a box's run is, if it is one at all.
  function Matching(i: Interleaving.State, name: Name, choice: Interleaving.Choice): seq<Action>
    requires name in i.boxes
  {
    match i.boxes[name].at
    case Idle => if BrainSync.Dirty(i.boxes[name].vault) then [Snapshot(name, choice.content)] else []
    case Captured => [BundleVault(name)]
    case SawNoHub(bundle) => [CloneHub(name, bundle)]
    case Cloned => [DetachHub]
    case SawHub(bundle) => [FetchVault(name, bundle)]
    case MergingHub => [MergeHub(name, choice.resolve)]
    case AbortingHub => [AbortHub]
    case OutboundDone(_) => [BundleHub]
    case CarriedIn(bundle, _) => [FetchHub(name, bundle)]
    case MergingVault(_) => [MergeVault(name, choice.resolve)]
    case AbortingVault(_) => [AbortVault(name)]
    case _ => []
  }

  // The command has the step's effect on the hub and on the box's own vault and bundle.
  lemma OwnStepMatches(s: State, i: Interleaving.State, name: Name, choice: Interleaving.Choice, a: Action)
    requires Covers(s, i) && name in i.boxes && Matching(i, name, choice) == [a]
    ensures var t, next := Do(s, a), Interleaving.Next(i, name, choice);
            && t.hub == next.hub && t.vaults == s.vaults[name := next.boxes[name].vault]
            && s.carried <= t.carried && s.hubBundles <= t.hubBundles && Made(t, name, next.boxes[name].at)
  {
    assert Made(s, name, i.boxes[name].at) && s.vaults[name] == i.boxes[name].vault;
    assert s.vaults == s.vaults[name := s.vaults[name]];
  }

  lemma IdleStepMatches(s: State, i: Interleaving.State, name: Name, choice: Interleaving.Choice)
    requires Covers(s, i) && name in i.boxes && Matching(i, name, choice) == []
    ensures var next := Interleaving.Next(i, name, choice);
            s.hub == next.hub && s.vaults[name] == next.boxes[name].vault && Made(s, name, next.boxes[name].at)
  {
  }

  /** Each step of a run in the machine that keeps a box's runs apart is at most one command
      here, with the same effect. */
  lemma RunsAreSchedules(s: State, i: Interleaving.State, name: Name, choice: Interleaving.Choice)
    requires Covers(s, i) && name in i.boxes
    ensures Covers(Exec(s, Matching(i, name, choice)), Interleaving.Next(i, name, choice))
  {
    var actions, next := Matching(i, name, choice), Interleaving.Next(i, name, choice);
    var t := Exec(s, actions);
    if actions == [] {
      IdleStepMatches(s, i, name, choice);
    } else {
      assert t == Exec(Do(s, actions[0]), actions[1..]) == Do(s, actions[0]);
      OwnStepMatches(s, i, name, choice, actions[0]);
    }
    forall other <- next.boxes
      ensures t.vaults[other] == next.boxes[other].vault && Made(t, other, next.boxes[other].at)
    {
      if other != name {
        Interleaving.OnlyTheActorMoves(i, name, choice, other);
        assert Made(s, other, i.boxes[other].at);
      }
    }
  }
}
