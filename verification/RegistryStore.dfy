// One update of the registry, from taking the lock to reading the document back, as the
// actions of a run.

module RegistryStore {
  import opened Options
  import opened Projects
  import opened Registry
  import opened RegistryRuns
  import opened RegistryUpdates

  datatype Point = AtLock | AtRead | AtCreate | AtChmod | AtWrite | AtSync | AtClose | AtRename | AtVerify

  // A system call breaks, after which removing the temporary file may work or not; or the
  // process dies there.
  datatype Trouble = Breaks(cleaned: bool) | Dies

  predicate InWrite(point: Point) {
    point.AtCreate? || point.AtChmod? || point.AtWrite? || point.AtSync? || point.AtClose? || point.AtRename?
  }

  // The process gave up or died: the file is as it was and the lock is free.
  predicate GivenUp(before: State, after: State, p: Pid, trouble: map<Point, Trouble>) {
    && after.files == before.files && after.commits == before.commits && after.holder.None? && PhaseOf(after, p).Ended?
    && after.temps - {p} == before.temps - {p}
    && ((forall point <- trouble :: trouble[point] == Breaks(true)) ==> p !in after.temps)
  }

  // What becomes of the caller's answer to the projects there are: an error or an answer
  // that cannot be a registry leaves the file; the same list is no change; any other list is
  // the next file, unless something breaks before the rename.
  ghost predicate Answered(before: seq<Option<Blob>>, after: seq<Option<Blob>>, ps: seq<Project>, answer: Result<seq<Project>>,
                           trouble: map<Point, Trouble>, ok: bool, g: Setting) {
    if answer.Err? || (answer.value != ps && !Registrable(answer.value, EntryRule(g.form))) then !ok && after == before
    else if answer.value == ps then after == before && (ok <==> AtLock !in trouble && AtRead !in trouble)
    else if exists point <- trouble :: point != AtVerify then !ok && after == before
    else |after| == |before| + 1 && before <= after && Lists(after[|before|], answer.value) && (ok <==> trouble == map[])
  }

  lemma AnswerIsWanted(before: seq<Option<Blob>>, after: seq<Option<Blob>>, p: Pid, ps: seq<Project>,
                       trouble: map<Point, Trouble>, ok: bool, g: Setting)
    requires before != [] && Holds(before[|before| - 1], ps, g)
    requires var file := before[|before| - 1];
             && after == (if Wanted(file, p, g).Some? && (forall point <- trouble :: point.AtVerify?)
                          then before + [Some(Blob(Render(Wanted(file, p, g).value), true))] else before)
             && (ok <==> && AtLock !in trouble && AtRead !in trouble
                         && if Wanted(file, p, g).None? then LeavesAlone(file, p, g) else trouble == map[])
    ensures Answered(before, after, ps, g.update(p, ps), trouble, ok, g)
  {
    WantedIsTheUpdate(before[|before| - 1], ps, p, g);
  }

  class Store {
    const first: State
    const g: Setting
    var s: State
    ghost var ran: seq<Action>

    ghost predicate Valid()
      reads this
    {
      Initial(first) && s == Exec(first, ran, g)
    }

    constructor (first: State, g: Setting)
      requires Initial(first)
      ensures Valid() && s == first && this.first == first && this.g == g
    {
      this.first, this.g, this.s, this.ran := first, g, first, [];
    }

    method Take(a: Action)
      requires Valid()
      modifies this
      ensures Valid() && s == Do(old(s), a, g)
    {
      assert (ran + [a])[..|ran|] == ran;
      s := Do(s, a, g);
      ran := ran + [a];
    }

    // Reports whether the process goes on past this point.
    method Pass(p: Pid, point: Point, trouble: map<Point, Trouble>) returns (ok: bool)
      requires Valid() && Active(PhaseOf(s, p))
      modifies this
      ensures Valid()
      ensures ok == (point !in trouble)
      ensures if ok then s == old(s) else GivenUp(old(s), s, p, trouble)
    {
      ok := point !in trouble;
      if !ok {
        if trouble[point].Dies? { Take(Crash(p)); } else { Take(Action.Fail(p, trouble[point].cleaned)); }
      }
    }

    method CreateTemp(p: Pid, trouble: map<Point, Trouble>) returns (ok: bool)
      requires Valid() && PhaseOf(s, p).Writing?
      modifies this
      ensures Valid()
      ensures ok <==> AtCreate !in trouble && AtChmod !in trouble
      ensures ok ==> s == At(old(s), p, Drafted(old(s).phases[p].next)).(temps := old(s).temps[p := Blob(Garbage, false)])
      ensures !ok ==> GivenUp(old(s), s, p, trouble)
    {
      ok := Pass(p, AtCreate, trouble);
      if !ok { return; }
      Take(MakeTemp(p));
      ok := Pass(p, AtChmod, trouble);
    }

    method WriteTemp(p: Pid, trouble: map<Point, Trouble>) returns (ok: bool)
      requires Valid() && PhaseOf(s, p).Drafted?
      modifies this
      ensures Valid()
      ensures ok <==> AtWrite !in trouble
      ensures ok ==> s == At(old(s), p, Filled(old(s).phases[p].next)).(
                            temps := old(s).temps[p := Blob(Render(old(s).phases[p].next), false)])
      ensures !ok ==> GivenUp(old(s), s, p, trouble)
    {
      ok := Pass(p, AtWrite, trouble);
      if ok { Take(Fill(p)); }
    }

    method SyncTemp(p: Pid, trouble: map<Point, Trouble>) returns (ok: bool)
      requires Valid() && PhaseOf(s, p).Filled? && p in s.temps
      modifies this
      ensures Valid()
      ensures ok <==> AtSync !in trouble
      ensures ok ==> s == At(old(s), p, Synced(old(s).phases[p].next)).(
                            temps := old(s).temps[p := old(s).temps[p].(durable := true)])
      ensures !ok ==> GivenUp(old(s), s, p, trouble)
    {
      ok := Pass(p, AtSync, trouble);
      if ok { Take(Action.Sync(p)); }
    }

    method CloseTemp(p: Pid, trouble: map<Point, Trouble>) returns (ok: bool)
      requires Valid() && PhaseOf(s, p).Synced?
      modifies this
      ensures Valid()
      ensures ok <==> AtClose !in trouble
      ensures if ok then s == At(old(s), p, Closed(old(s).phases[p].next)) else GivenUp(old(s), s, p, trouble)
    {
      ok := Pass(p, AtClose, trouble);
      if ok { Take(Action.Close(p)); }
    }

    method RenameTemp(p: Pid, trouble: map<Point, Trouble>) returns (ok: bool)
      requires Valid() && PhaseOf(s, p).Closed? && p in s.temps
      modifies this
      ensures Valid()
      ensures ok <==> AtRename !in trouble
      ensures ok ==> s == At(old(s), p, Renamed(old(s).phases[p].next)).(
                            files := old(s).files + [Some(old(s).temps[p])], commits := old(s).commits + [p],
                            temps := old(s).temps - {p})
      ensures !ok ==> GivenUp(old(s), s, p, trouble)
    {
      ok := Pass(p, AtRename, trouble);
      if ok { Take(Rename(p)); }
    }

    // A temporary file with all of the document in the cache.
    method DraftTemp(p: Pid, trouble: map<Point, Trouble>) returns (ok: bool)
      requires Valid() && PhaseOf(s, p).Writing?
      modifies this
      ensures Valid()
      ensures ok <==> AtCreate !in trouble && AtChmod !in trouble && AtWrite !in trouble
      ensures ok ==> s == At(old(s), p, Filled(old(s).phases[p].next)).(
                            temps := old(s).temps[p := Blob(Render(old(s).phases[p].next), false)])
      ensures !ok ==> GivenUp(old(s), s, p, trouble)
    {
      ghost var next := s.phases[p].next;
      ok := CreateTemp(p, trouble);
      if !ok { return; }
      assert s.temps - {p} == old(s).temps - {p};
      ok := WriteTemp(p, trouble);
      if !ok { return; }
      assert s.temps == old(s).temps[p := Blob(Render(next), false)];
      assert s.phases == old(s).phases[p := Filled(next)];
    }

    // The first half of a private write: a temporary file with all of the document, on disk.
    method FillTemp(p: Pid, trouble: map<Point, Trouble>) returns (ok: bool)
      requires Valid() && PhaseOf(s, p).Writing?
      modifies this
      ensures Valid()
      ensures ok <==> AtCreate !in trouble && AtChmod !in trouble && AtWrite !in trouble && AtSync !in trouble
      ensures ok ==> s == At(old(s), p, Synced(old(s).phases[p].next)).(
                            temps := old(s).temps[p := Blob(Render(old(s).phases[p].next), true)])
      ensures !ok ==> GivenUp(old(s), s, p, trouble)
    {
      ghost var next := s.phases[p].next;
      ok := DraftTemp(p, trouble);
      if !ok { return; }
      assert s.temps - {p} == old(s).temps - {p};
      ok := SyncTemp(p, trouble);
      if !ok { return; }
      assert s.temps == old(s).temps[p := Blob(Render(next), true)];
      assert s.phases == old(s).phases[p := Synced(next)];
    }

    // Writes the document to a temporary file beside the registry and renames it over it.
    method WriteFilePrivate(p: Pid, trouble: map<Point, Trouble>) returns (ok: bool)
      requires Valid() && PhaseOf(s, p).Writing?
      modifies this
      ensures Valid()
      ensures ok <==> forall point <- trouble :: !InWrite(point)
      ensures ok ==> s == At(old(s), p, Renamed(old(s).phases[p].next)).(
                            files := old(s).files + [Some(Blob(Render(old(s).phases[p].next), true))],
                            commits := old(s).commits + [p], temps := old(s).temps - {p})
      ensures !ok ==> GivenUp(old(s), s, p, trouble)
    {
      ok := FillTemp(p, trouble);
      if !ok { return; }
      assert s.temps - {p} == old(s).temps - {p};
      ok := CloseTemp(p, trouble);
      if !ok { return; }
      ok := RenameTemp(p, trouble);
    }

    // Writes the document and reads it back.
    method WriteRegistry(p: Pid, trouble: map<Point, Trouble>) returns (ok: bool)
      requires Valid() && PhaseOf(s, p).Writing?
      modifies this
      ensures Valid() && s.holder.None?
      ensures var file := Some(Blob(Render(old(s).phases[p].next), true));
              && (ok <==> (forall point <- trouble :: !InWrite(point)) && AtVerify !in trouble
                          && Listed(file, g) == Ok(old(s).phases[p].next))
              && (if forall point <- trouble :: !InWrite(point)
                  then s.files == old(s).files + [file] && s.commits == old(s).commits + [p]
                  else s.files == old(s).files && s.commits == old(s).commits)
      ensures (forall point <- trouble :: trouble[point] == Breaks(true)) ==> s.temps - {p} == old(s).temps - {p}
    {
      ok := WriteFilePrivate(p, trouble);
      if !ok { return; }
      assert s.temps - {p} == old(s).temps - {p};
      ok := Pass(p, AtVerify, trouble);
      if !ok { return; }
      Take(Verify(p));
      ok := PhaseOf(s, p) == Ended(Outcome.Written);
    }

    // Reads the list, applies the update and says what is to be written.
    method ReadAndUpdate(p: Pid) returns (next: Option<seq<Project>>)
      requires Valid() && PhaseOf(s, p).Holding?
      modifies this
      ensures Valid() && next == Wanted(File(old(s)), p, g)
      ensures s == match next
                   case Some(list) => At(old(s), p, Writing(list))
                   case None => End(old(s), p, if LeavesAlone(File(old(s)), p, g) then Unchanged else Refused)
    {
      Take(Decide(p));
      next := if PhaseOf(s, p).Writing? then Some(s.phases[p].next) else None;
    }

    // Takes the lock, reads the list and decides what to write.
    method LockAndRead(p: Pid, trouble: map<Point, Trouble>) returns (ok: bool, next: Option<seq<Project>>)
      requires Valid() && s.holder.None? && PhaseOf(s, p).Idle?
      modifies this
      ensures Valid() && s.files == old(s).files && s.commits == old(s).commits && s.temps - {p} == old(s).temps - {p}
      ensures ok <==> AtLock !in trouble && AtRead !in trouble
      ensures ok ==> next == Wanted(File(old(s)), p, g) && s.temps == old(s).temps
      ensures ok && next.Some? ==> PhaseOf(s, p) == Writing(next.value)
      ensures !ok || next.None? ==> s.holder.None?
      ensures ok && next.None? ==>
                PhaseOf(s, p) == Ended(if LeavesAlone(File(old(s)), p, g) then Unchanged else Refused)
    {
      next := None;
      ok := AtLock !in trouble;
      if !ok { return; }
      Take(Lock(p));
      ok := Pass(p, AtRead, trouble);
      if ok { next := ReadAndUpdate(p); }
    }

    /** Alone at the lock, an update either leaves the file as it was or replaces it by the
        whole document it wanted, and it never keeps the lock. */
    method UpdateRegistry(p: Pid, trouble: map<Point, Trouble>) returns (ok: bool)
      requires Valid() && s.holder.None? && PhaseOf(s, p).Idle?
      modifies this
      ensures Valid() && s.holder.None?
      ensures if Wanted(File(old(s)), p, g).Some? && (forall point <- trouble :: point.AtVerify?)
              then && s.files == old(s).files + [Some(Blob(Render(Wanted(File(old(s)), p, g).value), true))]
                   && s.commits == old(s).commits + [p]
              else s.files == old(s).files && s.commits == old(s).commits
      ensures ok <==> && AtLock !in trouble && AtRead !in trouble
                      && match Wanted(File(old(s)), p, g)
                         case None => LeavesAlone(File(old(s)), p, g)
                         case Some(next) => trouble == map[]
      // And in the caller's terms.
      ensures forall ps :: Holds(File(old(s)), ps, g) ==> Answered(old(s).files, s.files, ps, g.update(p, ps), trouble, ok, g)
      ensures (forall ps :: !Holds(File(old(s)), ps, g)) ==> !ok && s.files == old(s).files
      ensures (forall point <- trouble :: trouble[point] == Breaks(true)) ==> s.temps - {p} == old(s).temps - {p}
    {
      ok := UpdateLocked(p, trouble);
      HeldOnce(File(old(s)), g);
      forall ps | Holds(File(old(s)), ps, g)
        ensures Answered(old(s).files, s.files, ps, g.update(p, ps), trouble, ok, g)
      {
        AnswerIsWanted(old(s).files, s.files, p, ps, trouble, ok, g);
      }
    }

    // The commands of an update, one after another.
    method UpdateLocked(p: Pid, trouble: map<Point, Trouble>) returns (ok: bool)
      requires Valid() && s.holder.None? && PhaseOf(s, p).Idle?
      modifies this
      ensures Valid() && s.holder.None?
      ensures if Wanted(File(old(s)), p, g).Some? && (forall point <- trouble :: point.AtVerify?)
              then && s.files == old(s).files + [Some(Blob(Render(Wanted(File(old(s)), p, g).value), true))]
                   && s.commits == old(s).commits + [p]
              else s.files == old(s).files && s.commits == old(s).commits
      ensures ok <==> && AtLock !in trouble && AtRead !in trouble
                      && match Wanted(File(old(s)), p, g)
                         case None => LeavesAlone(File(old(s)), p, g)
                         case Some(next) => trouble == map[]
      ensures (forall point <- trouble :: trouble[point] == Breaks(true)) ==> s.temps - {p} == old(s).temps - {p}
    {
      var next;
      ok, next := LockAndRead(p, trouble);
      if !ok { return; }
      if next.None? { return PhaseOf(s, p) == Ended(Unchanged); }
      WantedIsValid(File(old(s)), p, g);
      WhatIsWrittenIsListed(next.value, g);
      ok := WriteRegistry(p, trouble);
    }
  }
}
