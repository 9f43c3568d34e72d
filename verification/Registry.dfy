// The shared registry document: how it is written, read back and resolved.

module Registry {
  import opened Options
  import Ordering
  import opened Projects
  import RegistryReading
  import opened RegistryText
  import Secrets

  // A file's text with the record it decodes to; Garbage is anything that does not decode.
  datatype Content = Document(text: string, version: string, projects: seq<Project>) | Garbage

  predicate ControlFree(s: string) {
    forall i :: 0 <= i < |s| ==> s[i] >= ' ' && !('\U{7F}' <= s[i] <= '\U{9F}') && s[i] != '\U{FFFD}'
  }

  // What is asked of one entry: no field of it looks like a secret or holds a control
  // character, and its id, label and remote have the right form.
  function EntryRule(form: Rule): Rule {
    (p: Project) => ControlFree(p.id) && ControlFree(p.name) && ControlFree(p.remote) && !Secretive(p) && form(p)
  }

  const SCHEMA_VERSION := "2"
  const READABLE_VERSIONS := {"1", "2"}

  function IdOf(p: Project): string { p.id }

  predicate SortedById(ps: seq<Project>) { Ordering.Sorted(ps, IdOf) }

  function SortById(ps: seq<Project>): (r: seq<Project>)
    ensures |r| == |ps|
    ensures forall q :: q in r <==> q in ps
  {
    Ordering.Sort(ps, IdOf)
  }

  /** Validating the sorted copy is validating the list. */
  lemma SortingKeepsValidity(ps: seq<Project>, rule: Rule)
    ensures Registrable(SortById(ps), rule) <==> Registrable(ps, rule)
  {
    assert UniqueIds(ps) <==> Ordering.UniqueKeys(ps, IdOf);
    assert UniqueIds(SortById(ps)) <==> Ordering.UniqueKeys(SortById(ps), IdOf);
    if UniqueIds(ps) {
      Ordering.SortingSorts(ps, IdOf);
      Ordering.SortedKeysAreUnique(SortById(ps), IdOf);
    }
    if UniqueIds(SortById(ps)) { Ordering.SortedFromUnique(ps, IdOf); }
    forall i | 0 <= i < |ps|
      ensures ps[i] in SortById(ps)
    {
      assert ps[i] in ps;
    }
    forall i | 0 <= i < |ps|
      ensures SortById(ps)[i] in ps
    {
      assert SortById(ps)[i] in SortById(ps);
    }
  }

  // --- Writing and reading ---

  function Render(ps: seq<Project>): Content { Document(Text(SCHEMA_VERSION, ps), SCHEMA_VERSION, ps) }

  // What a write persists, if it gets past validation.
  function Written(ps: seq<Project>, form: Rule): Result<seq<Project>> {
    if Registrable(SortById(ps), EntryRule(form)) then Ok(SortById(ps)) else Err(Unreadable)
  }

  // The whole text is scanned before anything in it is looked at.
  function ParseRegistry(content: Content, form: Rule): Result<seq<Project>> {
    match content
    case Garbage => Err(Unreadable)
    case Document(text, version, projects) =>
      if Secrets.Trips(text) || version !in READABLE_VERSIONS || !Registrable(projects, EntryRule(form))
      then Err(Unreadable)
      else Ok(projects)
  }

  // The shared document wins whenever it exists; until then the projects come from the
  // default instance's own document.
  function ResolveRegistry(shared: Option<Content>, legacy: Result<seq<Project>>, form: Rule): Result<seq<Project>> {
    match shared
    case Some(content) => ParseRegistry(content, form)
    case None => legacy
  }

  /** One set of projects gives one text, whatever the order they were attached in, and
      different sets give different texts. */
  lemma OneSetOneDocument(ps: seq<Project>, qs: seq<Project>, form: Rule)
    requires Registrable(ps, EntryRule(form)) && Registrable(qs, EntryRule(form))
    ensures Written(ps, form).Ok? && Written(qs, form).Ok?
    ensures Render(Written(ps, form).value).text == Render(Written(qs, form).value).text
            <==> forall p :: p in ps <==> p in qs
  {
    SortingKeepsValidity(ps, EntryRule(form));
    SortingKeepsValidity(qs, EntryRule(form));
    Ordering.SortingSorts(ps, IdOf);
    Ordering.SortingSorts(qs, IdOf);
    RegistryReading.TextTellsTheProjects(SCHEMA_VERSION, SortById(ps), SCHEMA_VERSION, SortById(qs));
    if forall p :: p in ps <==> p in qs {
      Ordering.SortedListsAreEqual(SortById(ps), SortById(qs), IdOf);
    }
    if SortById(ps) == SortById(qs) {
      assert forall p :: p in ps <==> p in SortById(ps);
    }
  }

  /** The scan of the whole text refuses no document whose entries are valid. */
  lemma ValidDocumentsPassTheScan(ps: seq<Project>, form: Rule)
    requires Registrable(ps, EntryRule(form))
    ensures !Secrets.Trips(Render(ps).text)
    ensures ParseRegistry(Render(ps), form) == Ok(ps)
  {
    var rule := EntryRule(form);
    forall i | 0 <= i < |ps|
      ensures Printable(ps[i]) && !Secretive(ps[i])
    {
      assert rule(ps[i]);
    }
    DocumentTripsExactlyWhenAFieldDoes(SCHEMA_VERSION, ps);
  }

  /** Every valid list can be written, and what is written reads back as the list sorted by
      id; nothing else can be written. */
  lemma WrittenReadsBack(ps: seq<Project>, form: Rule)
    ensures Written(ps, form).Ok? <==> Registrable(ps, EntryRule(form))
    ensures Written(ps, form).Ok? ==>
              && SortedById(SortById(ps)) && (forall p :: p in SortById(ps) <==> p in ps)
              && ParseRegistry(Render(Written(ps, form).value), form) == Ok(SortById(ps))
  {
    SortingKeepsValidity(ps, EntryRule(form));
    if Registrable(ps, EntryRule(form)) {
      Ordering.SortingSorts(ps, IdOf);
      ValidDocumentsPassTheScan(SortById(ps), form);
    }
  }

  /** Writing what was read from a written document gives the same document. */
  lemma RewritingChangesNothing(ps: seq<Project>, form: Rule)
    requires Registrable(ps, EntryRule(form))
    ensures Written(SortById(ps), form) == Written(ps, form)
  {
    SortingKeepsValidity(ps, EntryRule(form));
    Ordering.SortingSorts(ps, IdOf);
    SortingKeepsValidity(SortById(ps), EntryRule(form));
    Ordering.SortingSorts(SortById(ps), IdOf);
    Ordering.SortedListsAreEqual(SortById(SortById(ps)), SortById(ps), IdOf);
  }
}
