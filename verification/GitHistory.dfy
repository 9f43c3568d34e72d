// Git as torio brain sync relies on it: an acyclic graph of commits, repositories
// that are closed under ancestry, bundles that carry a whole closure, and merges
// that are up to date, a fast-forward, a new commit, or a conflict.

module Options {
  datatype Option<+T> = None | Some(value: T)
}

module GitHistory {
  import opened Options

  // A commit is named by the digest of what it holds. Digests are injective here,
  // so a commit is its parents together with the rest of its content.
  datatype Commit = Commit(parents: seq<Commit>, content: nat)

  // Everything reachable from c, c included.
  function Ancestors(c: Commit): (s: set<Commit>)
    ensures c in s
  {
    {c} + set p, a | p in c.parents && a in Ancestors(p) :: a
  }

  // git rev-list from..to
  function Range(from: Commit, to: Commit): set<Commit> { set c | c in Ancestors(to) && c !in Ancestors(from) }

  // git rev-list --count from..to
  function CountRange(from: Commit, to: Commit): nat { |Range(from, to)| }

  lemma {:induction false} AncestryIsTransitive(a: Commit, b: Commit)
    requires a in Ancestors(b)
    ensures Ancestors(a) <= Ancestors(b)
    decreases b
  {
    if a != b {
      var p :| p in b.parents && a in Ancestors(p);
      AncestryIsTransitive(a, p);
    }
  }

  // A proper ancestor is structurally smaller, which is why history has no cycle.
  lemma {:induction false} ProperAncestorIsSmaller(a: Commit, b: Commit)
    requires a in Ancestors(b) && a != b
    ensures a < b
    decreases b
  {
    var p :| p in b.parents && a in Ancestors(p);
    if a != p {
      ProperAncestorIsSmaller(a, p);
    }
  }

  lemma AncestryIsAntisymmetric(a: Commit, b: Commit)
    requires a in Ancestors(b) && b in Ancestors(a)
    ensures a == b
  {
    if a != b {
      ProperAncestorIsSmaller(a, b);
      ProperAncestorIsSmaller(b, a);
    }
  }

  lemma CountRangeIsZeroExactlyWhenReachable(from: Commit, to: Commit)
    ensures CountRange(from, to) == 0 <==> to in Ancestors(from)
  {
    if to in Ancestors(from) {
      AncestryIsTransitive(to, from);
      assert Range(from, to) == {};
    } else {
      assert to in Range(from, to);
    }
  }

  lemma AncestorsOfJoin(left: Commit, right: Commit, content: nat)
    ensures var joined := Commit([left, right], content);
            && Ancestors(joined) == {joined} + Ancestors(left) + Ancestors(right)
            && joined !in Ancestors(left) && joined !in Ancestors(right)
  {
    var joined := Commit([left, right], content);
    assert joined.parents[0] == left && joined.parents[1] == right;
    forall side | side in joined.parents
      ensures joined !in Ancestors(side)
    {
      assert side < joined;
      if joined in Ancestors(side) {
        AncestryIsAntisymmetric(joined, side);
        assert false;
      }
    }
  }

  lemma AncestorsOfChild(parent: Commit, content: nat)
    ensures Ancestors(Commit([parent], content)) == {Commit([parent], content)} + Ancestors(parent)
  {
    assert Commit([parent], content).parents[0] == parent;
  }

  // One repository. `torio` are the refs under refs/torio/. `mergeHead` is the
  // other side of a merge that stopped on a conflict, `dirty` says the worktree
  // has unsaved work, and `hasRemote` says a remote is configured.
  datatype Repo = Repo(objects: set<Commit>, main: Commit, torio: map<string, Commit>,
                       mergeHead: Option<Commit>, dirty: bool, hasRemote: bool)

  // Every ref, and the other side of an unfinished merge, has its whole history here.
  ghost predicate Connected(r: Repo) {
    && Ancestors(r.main) <= r.objects
    && (forall name <- r.torio :: Ancestors(r.torio[name]) <= r.objects)
    && (r.mergeHead.Some? ==> Ancestors(r.mergeHead.value) <= r.objects)
  }

  datatype Bundle = Bundle(head: Commit, commits: set<Commit>)

  ghost predicate WholeBundle(b: Bundle) {
    b.commits == Ancestors(b.head)
  }

  // git bundle create <file> main
  function BundleMain(r: Repo): Bundle {
    Bundle(r.main, Ancestors(r.main))
  }

  // git clone --branch main <bundle>; the clone records the bundle as its remote.
  function Clone(b: Bundle): Repo {
    Repo(b.commits, b.head, map[], None, false, true)
  }

  // git fetch <bundle> main:refs/torio/<name>
  function Fetch(r: Repo, b: Bundle, name: string): Repo {
    r.(objects := r.objects + b.commits, torio := r.torio[name := b.head])
  }

  // git add -A && git commit: concludes an unfinished merge when there is one.
  function CommitAll(r: Repo, content: nat): Repo {
    var parents := [r.main] + (if r.mergeHead.Some? then [r.mergeHead.value] else []);
    var made := Commit(parents, content);
    r.(objects := r.objects + {made}, main := made, mergeHead := None, dirty := false)
  }

  // A commit of everything unsaved in a repository: on its main, and on the other side of an
  // unfinished merge, with this content, and in neither history so far.
  predicate IsSnapshot(made: Commit, r: Repo, content: nat) {
    && made.content == content && |made.parents| == (if r.mergeHead.Some? then 2 else 1)
    && made.parents[0] == r.main && (r.mergeHead.Some? ==> made.parents[1] == r.mergeHead.value)
    && made !in Ancestors(r.main) && (r.mergeHead.Some? ==> made !in Ancestors(r.mergeHead.value))
  }

  // What a content merge of two heads makes: new content, or a conflict.
  type Resolver = (Commit, Commit) -> Option<nat>

  datatype MergeRun = MergeRun(succeeded: bool, repo: Repo)

  // git merge --no-edit --allow-unrelated-histories <target>
  function Merge(r: Repo, target: Commit, resolve: Resolver): MergeRun {
    if r.mergeHead.Some? then MergeRun(false, r)
    else if target in Ancestors(r.main) then MergeRun(true, r)
    else if r.main in Ancestors(target) then MergeRun(true, r.(main := target))
    else match resolve(r.main, target)
      case Some(content) =>
        var joined := Commit([r.main, target], content);
        MergeRun(true, r.(objects := r.objects + {joined}, main := joined))
      case None => MergeRun(false, r.(mergeHead := Some(target)))
  }

  // git merge --abort
  function AbortMerge(r: Repo): Option<Repo> {
    if r.mergeHead.Some? then Some(r.(mergeHead := None)) else None
  }

  // Whatever a repository could reach from main it still reaches.
  ghost predicate KeepsHistory(before: Repo, after: Repo) {
    before.main in Ancestors(after.main)
  }

  lemma KeepsHistoryMeaning(before: Repo, after: Repo)
    ensures KeepsHistory(before, after) <==> Ancestors(before.main) <= Ancestors(after.main)
  {
    if KeepsHistory(before, after) {
      AncestryIsTransitive(before.main, after.main);
    }
  }

  lemma FetchIsConnected(r: Repo, b: Bundle, name: string)
    requires Connected(r) && WholeBundle(b)
    ensures Connected(Fetch(r, b, name))
  {
  }

  lemma CommitExtendsMain(r: Repo, content: nat)
    ensures KeepsHistory(r, CommitAll(r, content))
  {
    var made := CommitAll(r, content).main;
    assert made.parents[0] == r.main;
    assert r.main in Ancestors(made.parents[0]);
  }

  lemma CommitAllExtends(r: Repo, content: nat)
    requires Connected(r)
    ensures Connected(CommitAll(r, content)) && KeepsHistory(r, CommitAll(r, content))
  {
    if r.mergeHead.Some? {
      AncestorsOfJoin(r.main, r.mergeHead.value, content);
      assert CommitAll(r, content).main == Commit([r.main, r.mergeHead.value], content);
    } else {
      AncestorsOfChild(r.main, content);
      assert CommitAll(r, content).main == Commit([r.main], content);
    }
  }

  lemma ChildIsNew(child: Commit, parent: Commit)
    requires parent in child.parents
    ensures child !in Ancestors(parent) && parent in Ancestors(child)
  {
    if child in Ancestors(parent) && child != parent { ProperAncestorIsSmaller(child, parent); }
  }

  /** Committing everything makes one new commit and leaves nothing unsaved. */
  lemma CommitAllCommits(r: Repo, content: nat)
    ensures var t := CommitAll(r, content);
            && IsSnapshot(t.main, r, content)
            && t == r.(objects := r.objects + {t.main}, main := t.main, mergeHead := None, dirty := false)
  {
    var made := CommitAll(r, content).main;
    assert made.parents[0] in made.parents;
    ChildIsNew(made, r.main);
    if r.mergeHead.Some? {
      assert made.parents[1] in made.parents;
      ChildIsNew(made, r.mergeHead.value);
    }
  }

  // A merge that succeeds reaches both sides and nothing that is not new; one
  // that fails leaves main where it was.
  lemma MergeJoinsBothSides(r: Repo, target: Commit, resolve: Resolver)
    ensures var m := Merge(r, target, resolve);
            && KeepsHistory(r, m.repo)
            && (m.succeeded ==>
                  && target in Ancestors(m.repo.main)
                  && m.repo.mergeHead == r.mergeHead == None
                  && Ancestors(m.repo.main) <= Ancestors(r.main) + Ancestors(target) + {m.repo.main})
            && (!m.succeeded ==> m.repo.main == r.main && m.repo.mergeHead.Some?)
  {
    if r.mergeHead.None? && resolve(r.main, target).Some? {
      AncestorsOfJoin(r.main, target, resolve(r.main, target).value);
    }
  }

  lemma MergeKeepsRefs(r: Repo, target: Commit, resolve: Resolver)
    ensures Merge(r, target, resolve).repo.torio == r.torio
  {
  }

  lemma MergeKeepsConnection(r: Repo, target: Commit, resolve: Resolver)
    requires Connected(r) && Ancestors(target) <= r.objects
    ensures Connected(Merge(r, target, resolve).repo)
  {
    if r.mergeHead.None? && resolve(r.main, target).Some? {
      AncestorsOfJoin(r.main, target, resolve(r.main, target).value);
    }
  }

  // With nothing unfinished in the way, a merge of a descendant is a fast-forward.
  lemma MergeOfDescendantFastForwards(r: Repo, target: Commit, resolve: Resolver)
    requires r.mergeHead.None? && r.main in Ancestors(target)
    ensures Merge(r, target, resolve) == MergeRun(true, r.(main := target))
  {
    if target in Ancestors(r.main) {
      AncestryIsAntisymmetric(r.main, target);
    }
  }
}
