// The projects of the registry, and the operations that give a changed copy of them.

module Projects {
  import opened Options

  datatype Project = Project(id: string, name: string, remote: string)

  datatype Error =
    | Invalid(id: string) | TooMany | DuplicateId(id: string) | DuplicateRemote(owner: string) | NotFound(id: string)
    | BadSettings | Unreadable | StorageFailed

  datatype Result<T> = Ok(value: T) | Err(error: Error)

  // A document with projects; `settingsValid` says that its backend, operator key and
  // timeout pass the document's own check.
  datatype ConfigFile = ConfigFile(version: string, settingsValid: bool, projects: seq<Project>)

  const CONFIG_VERSION := "4"

  const MAX_PROJECTS := 64

  // What is asked of one entry: the shape of its id, label and remote.
  type Rule = Project -> bool

  // --- The invariant of a registry ---

  predicate UniqueIds(ps: seq<Project>) { forall i, j :: 0 <= i < j < |ps| ==> ps[i].id != ps[j].id }

  predicate Registrable(ps: seq<Project>, rule: Rule) {
    |ps| <= MAX_PROJECTS && UniqueIds(ps) && forall i :: 0 <= i < |ps| ==> rule(ps[i])
  }

  // What is wrong with the entry at i, when nothing is with those before it.
  predicate FaultAt(ps: seq<Project>, i: nat, rule: Rule, error: Error)
    requires i < |ps|
  {
    && UniqueIds(ps[..i]) && (forall j :: 0 <= j < i ==> rule(ps[j]))
    && error == (if !rule(ps[i]) then Invalid(ps[i].id) else DuplicateId(ps[i].id))
    && (rule(ps[i]) ==> exists j :: 0 <= j < i && ps[j].id == ps[i].id)
  }

  method ValidateProjects(ps: seq<Project>, rule: Rule) returns (err: Option<Error>)
    ensures err.None? <==> Registrable(ps, rule)
    ensures |ps| > 64 ==> err == Some(TooMany)
    ensures |ps| <= 64 && err.Some? ==> exists i :: 0 <= i < |ps| && FaultAt(ps, i, rule, err.value)
  {
    if |ps| > MAX_PROJECTS { return Some(TooMany); }
    var seen: set<string> := {};
    for i := 0 to |ps|
      invariant forall j :: 0 <= j < i ==> rule(ps[j]) && ps[j].id in seen
      invariant forall id <- seen :: exists j :: 0 <= j < i && ps[j].id == id
      invariant UniqueIds(ps[..i])
    {
      if !rule(ps[i]) {
        assert FaultAt(ps, i, rule, Invalid(ps[i].id));
        return Some(Invalid(ps[i].id));
      }
      if ps[i].id in seen {
        assert FaultAt(ps, i, rule, DuplicateId(ps[i].id));
        return Some(DuplicateId(ps[i].id));
      }
      seen := seen + {ps[i].id};
      assert ps[..i + 1] == ps[..i] + [ps[i]];
    }
    assert ps[..|ps|] == ps;
    return None;
  }

  // --- Adding, correcting and removing ---

  // Whether an existing project stands in the way of another one's remote.
  predicate SharesRemote(existing: Project, remote: string, allowDuplicate: bool) {
    !allowDuplicate && remote != "" && existing.remote == remote
  }

  predicate Clashes(existing: Project, p: Project, allowDuplicate: bool) {
    existing.id == p.id || SharesRemote(existing, p.remote, allowDuplicate)
  }

  predicate CanAdd(ps: seq<Project>, p: Project, allowDuplicate: bool, rule: Rule) {
    && rule(p) && (forall i :: 0 <= i < |ps| ==> !Clashes(ps[i], p, allowDuplicate))
    && Registrable(ps + [p], rule)
  }

  function Repointed(ps: seq<Project>, id: string, remote: string): (r: seq<Project>)
    ensures |r| == |ps|
    ensures forall i :: 0 <= i < |ps| ==> r[i] == if ps[i].id == id then ps[i].(remote := remote) else ps[i]
  {
    if ps == [] then []
    else Repointed(ps[..|ps| - 1], id, remote)
         + [if ps[|ps| - 1].id == id then ps[|ps| - 1].(remote := remote) else ps[|ps| - 1]]
  }

  lemma RepointedStep(ps: seq<Project>, i: nat, id: string, remote: string)
    requires i < |ps|
    ensures Repointed(ps[..i + 1], id, remote)
            == Repointed(ps[..i], id, remote) + [if ps[i].id == id then ps[i].(remote := remote) else ps[i]]
    ensures Has(ps[..i + 1], id) <==> Has(ps[..i], id) || ps[i].id == id
  {
    assert ps[..i + 1][..i] == ps[..i];
    assert ps[..i + 1] == ps[..i] + [ps[i]];
  }

  function Without(ps: seq<Project>, id: string): (r: seq<Project>)
    ensures forall p :: p in r <==> p in ps && p.id != id
  {
    if ps == [] then []
    else Without(ps[..|ps| - 1], id) + if ps[|ps| - 1].id == id then [] else [ps[|ps| - 1]]
  }

  lemma WithoutStep(ps: seq<Project>, i: nat, id: string)
    requires i < |ps|
    ensures Without(ps[..i + 1], id) == Without(ps[..i], id) + (if ps[i].id == id then [] else [ps[i]])
    ensures Has(ps[..i + 1], id) <==> Has(ps[..i], id) || ps[i].id == id
  {
    assert ps[..i + 1][..i] == ps[..i];
    assert ps[..i + 1] == ps[..i] + [ps[i]];
  }

  predicate Has(ps: seq<Project>, id: string) { exists p <- ps :: p.id == id }

  // The check of a whole document about to be written.
  method Validate(f: ConfigFile, rule: Rule) returns (err: Option<Error>)
    ensures err.None? <==> f.settingsValid && Registrable(f.projects, rule)
    ensures !f.settingsValid ==> err == Some(BadSettings)
  {
    if !f.settingsValid { return Some(BadSettings); }
    err := ValidateProjects(f.projects, rule);
  }

  method WithProject(f: ConfigFile, p: Project, allowDuplicate: bool, rule: Rule) returns (r: Result<ConfigFile>)
    ensures r.Ok? <==> CanAdd(f.projects, p, allowDuplicate, rule) && f.settingsValid
    ensures r.Ok? ==> r.value == ConfigFile(CONFIG_VERSION, true, f.projects + [p])
    ensures !rule(p) ==> r == Err(Invalid(p.id))
    // The first project in the way is the one the error names.
    ensures forall i :: 0 <= i < |f.projects| && rule(p) && Clashes(f.projects[i], p, allowDuplicate)
                        && (forall j :: 0 <= j < i ==> !Clashes(f.projects[j], p, allowDuplicate)) ==>
              r == Err(if f.projects[i].id == p.id then DuplicateId(p.id) else DuplicateRemote(f.projects[i].id))
  {
    var ps := f.projects;
    if !rule(p) { return Err(Invalid(p.id)); }
    for i := 0 to |ps|
      invariant forall j :: 0 <= j < i ==> !Clashes(ps[j], p, allowDuplicate)
    {
      if ps[i].id == p.id { return Err(DuplicateId(p.id)); }
      if !allowDuplicate && p.remote != "" && ps[i].remote == p.remote { return Err(DuplicateRemote(ps[i].id)); }
    }
    var out := f.(version := CONFIG_VERSION, projects := ps + [p]);
    var err := Validate(out, rule);
    return if err.Some? then Err(err.value) else Ok(out);
  }

  predicate CanRepoint(ps: seq<Project>, id: string, remote: string, allowDuplicate: bool, rule: Rule) {
    && Has(ps, id)
    && (forall i :: 0 <= i < |ps| && ps[i].id != id ==> !SharesRemote(ps[i], remote, allowDuplicate))
    && Registrable(Repointed(ps, id, remote), rule)
  }

  // What one entry asks of a correction.
  predicate Admits(p: Project, id: string, remote: string, allowDuplicate: bool, rule: Rule) {
    if p.id != id then !SharesRemote(p, remote, allowDuplicate) else rule(p.(remote := remote))
  }

  predicate AllAdmit(ps: seq<Project>, id: string, remote: string, allowDuplicate: bool, rule: Rule) {
    forall i :: 0 <= i < |ps| ==> Admits(ps[i], id, remote, allowDuplicate, rule)
  }

  // The first entry in the way of a correction.
  predicate RefusedAt(ps: seq<Project>, i: int, id: string, remote: string, allowDuplicate: bool, rule: Rule) {
    && 0 <= i < |ps| && !Admits(ps[i], id, remote, allowDuplicate, rule)
    && forall j :: 0 <= j < i ==> Admits(ps[j], id, remote, allowDuplicate, rule)
  }

  // What the error says: the entry's own rule, or whose remote it is.
  function RefusalOf(p: Project, id: string): Error { if p.id == id then Invalid(id) else DuplicateRemote(p.id) }

  lemma AdmittedAreRepointed(ps: seq<Project>, id: string, remote: string, allowDuplicate: bool, rule: Rule)
    requires AllAdmit(ps, id, remote, allowDuplicate, rule)
    ensures CanRepoint(ps, id, remote, allowDuplicate, rule) <==> Has(ps, id) && Registrable(Repointed(ps, id, remote), rule)
  {
  }

  lemma OnlyAdmittedAreRepointed(ps: seq<Project>, id: string, remote: string, allowDuplicate: bool, rule: Rule)
    requires CanRepoint(ps, id, remote, allowDuplicate, rule)
    ensures AllAdmit(ps, id, remote, allowDuplicate, rule)
  {
    forall i | 0 <= i < |ps|
      ensures Admits(ps[i], id, remote, allowDuplicate, rule)
    {
      assert Repointed(ps, id, remote)[i] == if ps[i].id == id then ps[i].(remote := remote) else ps[i];
    }
  }

  lemma FirstRefusal(ps: seq<Project>, i: nat, id: string, remote: string, allowDuplicate: bool, rule: Rule)
    requires RefusedAt(ps, i, id, remote, allowDuplicate, rule)
    ensures !AllAdmit(ps, id, remote, allowDuplicate, rule)
    ensures forall k :: RefusedAt(ps, k, id, remote, allowDuplicate, rule) ==> k == i
  {
  }

  lemma AdmitStep(ps: seq<Project>, i: nat, id: string, remote: string, allowDuplicate: bool, rule: Rule)
    requires i < |ps| && AllAdmit(ps[..i], id, remote, allowDuplicate, rule)
    ensures AllAdmit(ps[..i + 1], id, remote, allowDuplicate, rule) <==> Admits(ps[i], id, remote, allowDuplicate, rule)
    ensures !Admits(ps[i], id, remote, allowDuplicate, rule) ==>
              RefusedAt(ps, i, id, remote, allowDuplicate, rule) && !AllAdmit(ps, id, remote, allowDuplicate, rule)
  {
    assert forall j :: 0 <= j < i ==> ps[..i][j] == ps[j];
    assert forall j :: 0 <= j <= i ==> ps[..i + 1][j] == ps[j];
  }

  // The copy with the remote replaced, unless an entry is in its way.
  method Repoint(ps: seq<Project>, id: string, remote: string, allowDuplicate: bool, rule: Rule)
    returns (updated: seq<Project>, found: bool, err: Option<Error>)
    ensures err.None? <==> AllAdmit(ps, id, remote, allowDuplicate, rule)
    ensures err.None? ==> updated == Repointed(ps, id, remote) && (found <==> Has(ps, id))
    ensures err.Some? ==> exists i :: RefusedAt(ps, i, id, remote, allowDuplicate, rule) && err.value == RefusalOf(ps[i], id)
  {
    updated, found := [], false;
    for i := 0 to |ps|
      invariant updated == Repointed(ps[..i], id, remote)
      invariant found <==> Has(ps[..i], id)
      invariant AllAdmit(ps[..i], id, remote, allowDuplicate, rule)
    {
      var p := ps[i];
      RepointedStep(ps, i, id, remote);
      AdmitStep(ps, i, id, remote, allowDuplicate, rule);
      if p.id != id {
        if !allowDuplicate && remote != "" && p.remote == remote {
          return updated, found, Some(DuplicateRemote(p.id));
        }
        updated := updated + [p];
      } else {
        found := true;
        if !rule(p.(remote := remote)) {
          return updated, found, Some(Invalid(p.id));
        }
        updated := updated + [p.(remote := remote)];
      }
    }
    assert ps[..|ps|] == ps;
    err := None;
  }

  method WithUpdatedRemote(f: ConfigFile, id: string, remote: string, allowDuplicate: bool, rule: Rule) returns (r: Result<ConfigFile>)
    ensures r.Ok? <==> CanRepoint(f.projects, id, remote, allowDuplicate, rule) && f.settingsValid
    ensures r.Ok? ==> r.value == ConfigFile(CONFIG_VERSION, true, Repointed(f.projects, id, remote))
    ensures AllAdmit(f.projects, id, remote, allowDuplicate, rule) && !Has(f.projects, id) ==> r == Err(NotFound(id))
    ensures forall i :: RefusedAt(f.projects, i, id, remote, allowDuplicate, rule) ==>
              r == Err(if f.projects[i].id == id then Invalid(id) else DuplicateRemote(f.projects[i].id))
  {
    var ps := f.projects;
    var updated, found, err := Repoint(ps, id, remote, allowDuplicate, rule);
    if err.Some? {
      ghost var i :| RefusedAt(ps, i, id, remote, allowDuplicate, rule) && err.value == RefusalOf(ps[i], id);
      FirstRefusal(ps, i, id, remote, allowDuplicate, rule);
      if CanRepoint(ps, id, remote, allowDuplicate, rule) { OnlyAdmittedAreRepointed(ps, id, remote, allowDuplicate, rule); }
      return Err(err.value);
    }
    AdmittedAreRepointed(ps, id, remote, allowDuplicate, rule);
    if !found { return Err(NotFound(id)); }
    var out := f.(version := CONFIG_VERSION, projects := updated);
    err := Validate(out, rule);
    return if err.Some? then Err(err.value) else Ok(out);
  }

  method WithoutProject(f: ConfigFile, id: string, rule: Rule) returns (r: Result<ConfigFile>)
    ensures r.Ok? <==> Has(f.projects, id) && Registrable(Without(f.projects, id), rule) && f.settingsValid
    ensures r.Ok? ==> r.value == ConfigFile(CONFIG_VERSION, true, Without(f.projects, id))
    ensures !Has(f.projects, id) ==> r == Err(NotFound(id))
  {
    var ps := f.projects;
    var kept: seq<Project>, found := [], false;
    for i := 0 to |ps|
      invariant kept == Without(ps[..i], id)
      invariant found <==> Has(ps[..i], id)
    {
      WithoutStep(ps, i, id);
      if ps[i].id == id {
        found := true;
      } else {
        kept := kept + [ps[i]];
      }
    }
    assert ps[..|ps|] == ps;
    if !found { return Err(NotFound(id)); }
    var out := f.(version := CONFIG_VERSION, projects := kept);
    var err := Validate(out, rule);
    return if err.Some? then Err(err.value) else Ok(out);
  }

  // --- Laws ---

  lemma {:induction false} WithoutOthers(ps: seq<Project>, id: string)
    requires !Has(ps, id)
    ensures Without(ps, id) == ps
    decreases |ps|
  {
    if ps != [] {
      var front := ps[..|ps| - 1];
      assert ps == front + [ps[|ps| - 1]];
      assert forall p <- front :: p in ps;
      WithoutOthers(front, id);
    }
  }

  lemma {:induction false} WithoutKeepsUniqueIds(ps: seq<Project>, id: string, rule: Rule)
    requires Registrable(ps, rule)
    ensures Registrable(Without(ps, id), rule) && |Without(ps, id)| <= |ps|
    decreases |ps|
  {
    if ps != [] {
      var front, last := ps[..|ps| - 1], ps[|ps| - 1];
      WithoutKeepsUniqueIds(front, id, rule);
      forall i | 0 <= i < |Without(front, id)|
        ensures Without(front, id)[i].id != last.id
      {
        assert Without(front, id)[i] in front;
      }
    }
  }

  /** Removing from a valid registry needs nothing but the project: a removal is never
      refused for what the rest of the registry holds. */
  lemma RemovalIsAlwaysPossible(ps: seq<Project>, id: string, rule: Rule)
    requires Registrable(ps, rule) && Has(ps, id)
    ensures Registrable(Without(ps, id), rule) && !Has(Without(ps, id), id)
  {
    WithoutKeepsUniqueIds(ps, id, rule);
  }

  /** Removing a project that was just added gives the registry back, order included. */
  lemma RemovalUndoesAddition(ps: seq<Project>, p: Project, allowDuplicate: bool, rule: Rule)
    requires CanAdd(ps, p, allowDuplicate, rule)
    ensures Without(ps + [p], p.id) == ps
  {
    assert (ps + [p])[..|ps|] == ps;
    WithoutOthers(ps, p.id);
  }

  /** A project whose remote nobody else has can be put back after its removal. The order
      may change, the projects do not. */
  lemma AdditionUndoesRemoval(ps: seq<Project>, p: Project, rule: Rule)
    requires Registrable(ps, rule) && p in ps
    ensures CanAdd(Without(ps, p.id), p, false, rule) <==>
            forall q <- ps :: q == p || p.remote == "" || q.remote != p.remote
    ensures multiset(Without(ps, p.id) + [p]) == multiset(ps)
  {
    var rest := Without(ps, p.id);
    RemovalIsAlwaysPossible(ps, p.id, rule);
    WithoutOne(ps, p);
    assert |multiset(rest + [p])| == |multiset(ps)|;
    SameIdIsSame(ps, p);
    RoomAgain(ps, p, rule);
    if forall q <- ps :: q == p || p.remote == "" || q.remote != p.remote {
      forall i | 0 <= i < |rest|
        ensures !Clashes(rest[i], p, false)
      {
        assert rest[i] in rest;
      }
    }
    if CanAdd(rest, p, false, rule) {
      forall q <- ps | q != p && p.remote != ""
        ensures q.remote != p.remote
      {
        assert q in rest;
      }
    }
  }

  lemma RoomAgain(ps: seq<Project>, p: Project, rule: Rule)
    requires Registrable(ps, rule) && p in ps && |Without(ps, p.id)| + 1 == |ps|
    ensures Registrable(Without(ps, p.id) + [p], rule)
  {
    var rest := Without(ps, p.id);
    WithoutKeepsUniqueIds(ps, p.id, rule);
    forall i | 0 <= i < |rest|
      ensures rest[i].id != p.id
    {
      assert rest[i] in rest;
    }
  }

  lemma SameIdIsSame(ps: seq<Project>, p: Project)
    requires UniqueIds(ps) && p in ps
    ensures forall q <- ps :: q.id == p.id ==> q == p
  {
  }

  lemma {:induction false} WithoutOne(ps: seq<Project>, p: Project)
    requires UniqueIds(ps) && p in ps
    ensures multiset(Without(ps, p.id) + [p]) == multiset(ps)
    decreases |ps|
  {
    var front, last := ps[..|ps| - 1], ps[|ps| - 1];
    assert ps == front + [last];
    if last.id == p.id {
      assert !Has(front, p.id);
      WithoutOthers(front, p.id);
    } else {
      assert p in front;
      WithoutOne(front, p);
      assert multiset(Without(ps, p.id) + [p]) == multiset(Without(front, p.id)) + multiset{last} + multiset{p};
    }
  }

  /** A correction is undone by correcting back, and a second correction replaces the first. */
  lemma CorrectionsReplaceEachOther(ps: seq<Project>, id: string, first: string, second: string)
    ensures Repointed(Repointed(ps, id, first), id, second) == Repointed(ps, id, second)
    ensures (forall i :: 0 <= i < |ps| && ps[i].id == id ==> ps[i].remote == second) ==>
              Repointed(Repointed(ps, id, first), id, second) == ps
  {
  }

  /** A correction touches no id, no label and no other project, so only the rule for the
      one entry and the rule about shared remotes can refuse it. */
  lemma CorrectionKeepsTheRegistry(ps: seq<Project>, id: string, remote: string, allowDuplicate: bool, rule: Rule)
    requires Registrable(ps, rule)
    ensures CanRepoint(ps, id, remote, allowDuplicate, rule) <==>
            && Has(ps, id)
            && (forall i :: 0 <= i < |ps| && ps[i].id != id ==> !SharesRemote(ps[i], remote, allowDuplicate))
            && (forall i :: 0 <= i < |ps| && ps[i].id == id ==> rule(ps[i].(remote := remote)))
  {
    var r := Repointed(ps, id, remote);
    assert forall i :: 0 <= i < |r| ==> r[i].id == ps[i].id;
    assert UniqueIds(r);
    if Registrable(r, rule) {
      forall i | 0 <= i < |ps| && ps[i].id == id
        ensures rule(ps[i].(remote := remote))
      {
        assert r[i] == ps[i].(remote := remote);
      }
    }
  }

  /** With an explicit decision a shared remote is no obstacle: then only the entry's own rule,
      its id and the number of projects are. */
  lemma SharedRemotesCanBeAllowed(ps: seq<Project>, p: Project, remote: string, rule: Rule)
    requires Registrable(ps, rule)
    ensures CanAdd(ps, p, true, rule) <==> rule(p) && !Has(ps, p.id) && |ps| < 64
    ensures CanRepoint(ps, p.id, remote, true, rule) <==>
            Has(ps, p.id) && forall q <- ps :: q.id == p.id ==> rule(q.(remote := remote))
  {
    if Has(ps, p.id) {
      var i :| 0 <= i < |ps| && ps[i].id == p.id;
      assert Clashes(ps[i], p, true);
    }
    CorrectionKeepsTheRegistry(ps, p.id, remote, true, rule);
    if forall i :: 0 <= i < |ps| && ps[i].id == p.id ==> rule(ps[i].(remote := remote)) {
      forall q <- ps | q.id == p.id
        ensures rule(q.(remote := remote))
      {
        var i :| 0 <= i < |ps| && ps[i] == q;
      }
    }
  }

  predicate RemotesAreApart(ps: seq<Project>) {
    forall i, j :: 0 <= i < j < |ps| && ps[i].remote != "" ==> ps[i].remote != ps[j].remote
  }

  /** Without an explicit decision, no two projects ever come to share a remote. */
  lemma StrictOperationsKeepRemotesApart(ps: seq<Project>, p: Project, id: string, remote: string, rule: Rule)
    requires RemotesAreApart(ps) && UniqueIds(ps)
    ensures CanAdd(ps, p, false, rule) ==> RemotesAreApart(ps + [p])
    ensures CanRepoint(ps, id, remote, false, rule) ==> RemotesAreApart(Repointed(ps, id, remote))
  {
    if CanAdd(ps, p, false, rule) {
      forall i | 0 <= i < |ps|
        ensures !Clashes(ps[i], p, false)
      {
      }
    }
  }
}
