// The status inspection of a vault: many commands, one after another, on a path that may
// change between any two of them.

module VaultStatus {
  import opened Options
  import opened VaultTree

  // What the commands answer. `empty` and `remote` can fail to, and `secure` is None when
  // there is nothing to look at.
  datatype Answers = Answers(link: bool, dir: bool, secure: Option<bool>, native: bool, empty: Option<bool>, links: bool,
                             file: string -> bool, folder: string -> bool, head: bool, remote: Option<bool>)

  datatype Status = Status(pathExists: bool, secure: bool, native: bool, managed: bool, state: VaultState)

  // The answers about one place that does not change meanwhile.
  ghost predicate Describes(a: Answers, place: Place, native: bool) {
    && a.link == place.Linked? && a.dir == place.There? && a.native == native
    && (place.There? ==>
          var t := place.tree;
          && a.secure == Some(t.secure) && a.empty == Some(IsEmpty(t)) && a.links == t.links
          && (forall name <- CANONICAL_FILES :: a.file(name) == ([name] in t.files))
          && (forall name <- CANONICAL_DIRECTORIES :: a.folder(name) == ([name] in t.dirs))
          && a.head == (t.commits != []) && a.remote == Some(t.remote))
  }

  // What init asks of a vault in drift before it resumes from it.
  predicate Resumable(s: Status) { s.managed && s.secure && s.native }

  method ScaffoldComplete(a: Answers) returns (complete: bool)
    ensures complete <==> (forall name <- CANONICAL_FILES :: a.file(name)) && forall name <- CANONICAL_DIRECTORIES :: a.folder(name)
  {
    complete := true;
    for i := 0 to |CANONICAL_FILES|
      invariant complete <==> forall j :: 0 <= j < i ==> a.file(CANONICAL_FILES[j])
    {
      if !a.file(CANONICAL_FILES[i]) { complete := false; }
    }
    ghost var filesComplete := complete;
    for i := 0 to |CANONICAL_DIRECTORIES|
      invariant complete <==> filesComplete && forall j :: 0 <= j < i ==> a.folder(CANONICAL_DIRECTORIES[j])
    {
      if !a.folder(CANONICAL_DIRECTORIES[i]) { complete := false; }
    }
  }

  /** Whatever happens at the path between the commands, a vault they find in drift is not
      one init resumes from, so its branch for that is dead, and one they find initialized
      is managed and secure on a native file system. When nothing happens, the state is the
      place's own. */
  method InspectStatus(a: Answers) returns (s: Status, ok: bool)
    ensures ok && s.state == Drift ==> !Resumable(s)
    ensures ok && s.state == Initialized ==> Resumable(s) && s.pathExists
    ensures forall place, native :: Describes(a, place, native) ==>
              && ok && s.state == Classify(place, native)
              && (s.pathExists <==> place.Linked? || place.There?)
              && (Resumable(s) <==> place.There? && s.state == Initialized)
  {
    s := Status(false, false, false, false, Uninitialized);
    if a.link { return s.(pathExists := true, state := Drift), true; }
    if !a.dir { return s, true; }
    s := s.(pathExists := true);
    if a.secure.None? { return s, false; }
    s := s.(secure := a.secure.value, native := a.native);
    if !s.secure || !s.native { return s.(state := Drift), true; }
    if a.empty.None? { return s, false; }
    if a.empty.value { return s, true; }
    var complete := ScaffoldComplete(a);
    if a.head && a.remote.None? { return s, false; }
    var hasRemote := a.head && a.remote.value;
    s := s.(managed := complete && a.head && !hasRemote && !a.links);
    s := s.(state := if !s.managed then Drift else Initialized);
    ok := true;
  }
}
