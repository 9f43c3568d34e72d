// What a committed update does, in terms of the projects listed before and after it and of
// what the caller asked for.

module RegistryUpdates {
  import opened Options
  import opened Projects
  import opened Registry
  import opened RegistryRuns
  import opened RegistryText
  import Secrets

  // These projects are what there is: the valid document's, or the legacy list's when there
  // is no document yet.
  predicate Holds(file: Option<Blob>, ps: seq<Project>, g: Setting) {
    match file
    case None => g.legacy == Ok(ps)
    case Some(blob) =>
      && blob.content.Document? && blob.content.projects == ps
      && (blob.content.version == "1" || blob.content.version == "2")
      && Registrable(ps, EntryRule(g.form)) && !Secrets.Trips(blob.content.text)
  }

  // A durable document of exactly these projects, sorted by id.
  ghost predicate Lists(file: Option<Blob>, ps: seq<Project>) {
    && file.Some? && file.value.durable && file.value.content.Document?
    && var listed := file.value.content.projects;
       && SortedById(listed) && |listed| == |ps| && (forall q :: q in listed <==> q in ps)
       && file.value.content.version == "2" && file.value.content.text == Text("2", listed)
  }

  lemma HeldIsListed(file: Option<Blob>, ps: seq<Project>, g: Setting)
    ensures Holds(file, ps, g) <==> Listed(file, g) == Ok(ps)
  {
  }

  lemma HeldOnce(file: Option<Blob>, g: Setting)
    ensures forall ps, qs :: Holds(file, ps, g) && Holds(file, qs, g) ==> ps == qs
    ensures Listed(file, g).Ok? <==> exists ps :: Holds(file, ps, g)
  {
    if Listed(file, g).Ok? { HeldIsListed(file, Listed(file, g).value, g); }
  }

  lemma WantedIsTheUpdate(file: Option<Blob>, ps: seq<Project>, p: Pid, g: Setting)
    requires Holds(file, ps, g)
    ensures Wanted(file, p, g).Some? <==>
            g.update(p, ps).Ok? && g.update(p, ps).value != ps && Registrable(g.update(p, ps).value, EntryRule(g.form))
    ensures Wanted(file, p, g).Some? ==>
              Lists(Some(Blob(Render(Wanted(file, p, g).value), true)), g.update(p, ps).value)
    ensures LeavesAlone(file, p, g) <==> g.update(p, ps) == Ok(ps)
  {
    HeldIsListed(file, ps, g);
    if g.update(p, ps).Ok? { WrittenReadsBack(g.update(p, ps).value, g.form); }
  }

  lemma WhatIsListedIsHeld(file: Option<Blob>, g: Setting)
    requires file.Some? && file.value.content.Document? && file.value.content == Render(file.value.content.projects)
    requires Registrable(file.value.content.projects, EntryRule(g.form))
    ensures Holds(file, file.value.content.projects, g)
  {
    ValidDocumentsPassTheScan(file.value.content.projects, g.form);
  }

  /** Each committed update was asked what to make of the projects there were just before it,
      and the document that took its place lists exactly its answer. */
  lemma CommitsApplyTheirUpdate(s: State, actions: seq<Action>, g: Setting, k: nat)
    requires Initial(s) && k < |Exec(s, actions, g).commits|
    ensures var t := Exec(s, actions, g);
            && |t.files| == |t.commits| + 1
            && (exists ps :: Holds(t.files[k], ps, g))
            && forall ps :: Holds(t.files[k], ps, g) ==>
                 var next := g.update(t.commits[k], ps);
                 && next.Ok? && next.value != ps && Registrable(next.value, EntryRule(g.form))
                 && Lists(t.files[k + 1], next.value)
  {
    EveryRunIsSafe(s, actions, g);
    var t := Exec(s, actions, g);
    assert Follows(t.files[k], t.commits[k], t.files[k + 1], g);
    HeldOnce(t.files[k], g);
    forall ps | Holds(t.files[k], ps, g)
      ensures g.update(t.commits[k], ps).Ok? && g.update(t.commits[k], ps).value != ps
      ensures Registrable(g.update(t.commits[k], ps).value, EntryRule(g.form))
      ensures Lists(t.files[k + 1], g.update(t.commits[k], ps).value)
    {
      WantedIsTheUpdate(t.files[k], ps, t.commits[k], g);
    }
  }

  // Updates that take no project away.
  ghost predicate OnlyAdds(g: Setting) {
    forall p, ps, q :: g.update(p, ps).Ok? && q in ps ==> q in g.update(p, ps).value
  }

  lemma CommittedIsHeld(s: State, actions: seq<Action>, g: Setting, k: nat)
    requires Initial(s) && 0 < k < |Exec(s, actions, g).files|
    ensures var file := Exec(s, actions, g).files[k];
            file.Some? && file.value.content.Document? && Holds(file, file.value.content.projects, g)
  {
    EveryRunIsSafe(s, actions, g);
    var t := Exec(s, actions, g);
    assert Follows(t.files[k - 1], t.commits[k - 1], t.files[k - 1 + 1], g);
    WantedIsValid(t.files[k - 1], t.commits[k - 1], g);
    WhatIsListedIsHeld(t.files[k], g);
  }

  lemma {:induction false} ListedStaysListed(s: State, actions: seq<Action>, g: Setting, q: Project, j: nat, k: nat)
    requires Initial(s) && OnlyAdds(g) && 0 < j <= k < |Exec(s, actions, g).files|
    requires var file := Exec(s, actions, g).files[j];
             file.Some? && file.value.content.Document? && q in file.value.content.projects
    ensures var file := Exec(s, actions, g).files[k];
            file.Some? && file.value.content.Document? && q in file.value.content.projects
    decreases k - j
  {
    if j < k {
      var t := Exec(s, actions, g);
      EveryRunIsSafe(s, actions, g);
      CommittedIsHeld(s, actions, g, j);
      CommitsApplyTheirUpdate(s, actions, g, j);
      var ps := t.files[j].value.content.projects;
      assert q in g.update(t.commits[j], ps).value;
      ListedStaysListed(s, actions, g, q, j + 1, k);
    }
  }

  /** When updates only add, what any committed update added to what it read is in the file at
      the end, and so is everything it read. */
  lemma NothingAddedIsLost(s: State, actions: seq<Action>, g: Setting, k: nat, ps: seq<Project>)
    requires Initial(s) && OnlyAdds(g) && k < |Exec(s, actions, g).commits|
    requires |Exec(s, actions, g).files| > k && Holds(Exec(s, actions, g).files[k], ps, g)
    ensures var t := Exec(s, actions, g);
            && g.update(t.commits[k], ps).Ok? && File(t).Some? && File(t).value.content.Document?
            && (forall q <- g.update(t.commits[k], ps).value :: q in File(t).value.content.projects)
            && (forall q <- ps :: q in File(t).value.content.projects)
  {
    var t := Exec(s, actions, g);
    CommitsApplyTheirUpdate(s, actions, g, k);
    CommittedIsHeld(s, actions, g, |t.files| - 1);
    forall q <- g.update(t.commits[k], ps).value
      ensures q in File(t).value.content.projects
    {
      ListedStaysListed(s, actions, g, q, k + 1, |t.files| - 1);
    }
  }
}
