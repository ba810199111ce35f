/**
 Which paths a candidate changed. A tree, the index and the worktree are maps from path to content;
 git's diffs are streams that mention every path on which the two sides differ.
 */
module GitPaths {
  import opened Wrappers
  import opened NameStatus

  type Path = string
  type Tree = map<Path, string>

  ghost predicate Differ(a: Tree, b: Tree, p: Path) {
    (p in a) != (p in b) || (p in a && a[p] != b[p])
  }

  datatype Repo = Repo(base: Tree, head: Tree, index: Tree, worktree: Tree, ignored: set<Path>)

  // The worktree as plain `git diff` sees it: only paths known to the index.
  ghost function Tracked(repo: Repo): Tree {
    map p | p in repo.worktree && p in repo.index :: repo.worktree[p]
  }

  ghost function Untracked(repo: Repo): set<Path> {
    set p | p in repo.worktree && p !in repo.index && p !in repo.ignored
  }

  // A name-status stream of `a` against `b`, with or without rename and copy detection: it is well
  // formed and mentions every differing path under the prefix.
  ghost predicate DiffStream(raw: string, a: Tree, b: Tree, prefix: string) {
    exists records :: AllWellFormed(records) && raw == Print(records)
                      && forall p :: prefix <= p && Differ(a, b, p) ==> p in PathsOf(records)
  }

  ghost predicate ListStream(raw: string, paths: set<Path>) {
    exists tokens :: raw == Terminated(tokens) && "" !in tokens
                     && (forall t :: t in tokens ==> NUL !in t)
                     && forall p :: p in tokens <==> p in paths
  }

  function PathSet(paths: seq<Path>): set<Path> {
    set p | p in paths
  }

  // The union of the four streams; None when one of them is malformed.
  function Collected(committed: string, cached: string, unstaged: string, untracked: string): Option<set<Path>> {
    if Read(committed).None? || Read(cached).None? || Read(unstaged).None?
       || Unterminated(untracked).None? || "" in Unterminated(untracked).value then None
    else Some(PathSet(PathsOf(Read(committed).value)) + PathSet(PathsOf(Read(cached).value))
              + PathSet(PathsOf(Read(unstaged).value)) + PathSet(Unterminated(untracked).value))
  }

  // `collect_local_changed_paths`; None is the `git.diff` failure. The sorted tuple is a set here.
  method CollectChangedPaths(committed: string, cached: string, unstaged: string, untracked: string)
    returns (r: Option<set<Path>>)
    ensures r == Collected(committed, cached, unstaged, untracked)
    ensures r.None? <==> Read(committed) == None || Read(cached) == None || Read(unstaged) == None
                         || Unterminated(untracked) == None || "" in Unterminated(untracked).value
    ensures r.Some? ==> forall p :: p in r.value <==>
              || p in PathsOf(Read(committed).value) || p in PathsOf(Read(cached).value)
              || p in PathsOf(Read(unstaged).value) || p in Unterminated(untracked).value
  {
    var c := ParseNameStatus(committed);
    if c.None? {
      return None;
    }
    var i := ParseNameStatus(cached);
    if i.None? {
      return None;
    }
    var w := ParseNameStatus(unstaged);
    if w.None? {
      return None;
    }
    var u := ParseNulPaths(untracked);
    if u.None? {
      return None;
    }
    return Some(PathSet(c.value) + PathSet(i.value) + PathSet(w.value) + PathSet(u.value));
  }

  lemma DiffStreamRead(raw: string, a: Tree, b: Tree, prefix: string)
    requires DiffStream(raw, a, b, prefix)
    ensures Read(raw).Some?
    ensures forall p :: prefix <= p && Differ(a, b, p) ==> p in PathsOf(Read(raw).value)
  {
    var records :| AllWellFormed(records) && raw == Print(records)
                   && forall p :: prefix <= p && Differ(a, b, p) ==> p in PathsOf(records);
    ReadPrint(records);
  }

  lemma ListStreamRead(raw: string, paths: set<Path>)
    requires ListStream(raw, paths)
    ensures Unterminated(raw).Some? && "" !in Unterminated(raw).value
    ensures forall p :: p in Unterminated(raw).value <==> p in paths
  {
    var tokens :| raw == Terminated(tokens) && "" !in tokens && (forall t :: t in tokens ==> NUL !in t)
                  && forall p :: p in tokens <==> p in paths;
    UnterminatedTerminated(tokens);
  }

  // The four streams git prints for a repository.
  ghost predicate ChangeStreams(repo: Repo, committed: string, cached: string, unstaged: string, untracked: string) {
    && DiffStream(committed, repo.base, repo.head, "")
    && DiffStream(cached, repo.head, repo.index, "")
    && DiffStream(unstaged, repo.index, Tracked(repo), "")
    && ListStream(untracked, Untracked(repo))
  }

  // The merge base and the worktree differ on `p`, and `p` is not an untracked file that git ignores.
  ghost predicate Changed(repo: Repo, p: Path) {
    Differ(repo.base, repo.worktree, p) && !(p in repo.worktree && p !in repo.index && p in repo.ignored)
  }

  // No change escapes: the streams of a repository are accepted, and every changed path is collected.
  lemma CollectMissesNothing(repo: Repo, committed: string, cached: string, unstaged: string, untracked: string)
    requires ChangeStreams(repo, committed, cached, unstaged, untracked)
    ensures var collected := Collected(committed, cached, unstaged, untracked);
      collected.Some? && forall p :: Changed(repo, p) ==> p in collected.value
  {
    DiffStreamRead(committed, repo.base, repo.head, "");
    DiffStreamRead(cached, repo.head, repo.index, "");
    DiffStreamRead(unstaged, repo.index, Tracked(repo), "");
    ListStreamRead(untracked, Untracked(repo));
    forall p | Changed(repo, p) ensures p in Collected(committed, cached, unstaged, untracked).value {
      if p in Untracked(repo) {
        assert p in Unterminated(untracked).value;
      } else {
        assert Differ(repo.base, repo.head, p) || Differ(repo.head, repo.index, p)
               || Differ(repo.index, Tracked(repo), p);
      }
    }
  }

  // ----- existing migrations are immutable

  const MIGRATION_PREFIX: string := "src/main/resources/db/migration/"

  datatype Migrations = Migrations(base: set<Path>, mutated: set<Path>)

  datatype MigrationVerdict = Unreported | Modified | Immutable

  // `validate_existing_migrations_immutable` after its four streams are read.
  function MigrationCheck(m: Migrations, changed: set<Path>): MigrationVerdict {
    if !(m.mutated <= changed) then Unreported
    else if m.base * m.mutated != {} then Modified
    else Immutable
  }

  // The three mutation streams of a repository, restricted to the migrations.
  ghost predicate MutationStreams(repo: Repo, committed: string, cached: string, unstaged: string) {
    && DiffStream(committed, repo.base, repo.head, MIGRATION_PREFIX)
    && DiffStream(cached, repo.head, repo.index, MIGRATION_PREFIX)
    && DiffStream(unstaged, repo.index, Tracked(repo), MIGRATION_PREFIX)
  }

  // What the streams say: `ls-tree` names the migrations of the merge base.
  ghost predicate MigrationStreams(repo: Repo, m: Migrations, committed: string, cached: string, unstaged: string) {
    && (forall p :: p in m.base <==> p in repo.base && MIGRATION_PREFIX <= p)
    && MutationStreams(repo, committed, cached, unstaged)
    && Read(committed).Some? && Read(cached).Some? && Read(unstaged).Some?
    && m.mutated == PathSet(PathsOf(Read(committed).value)) + PathSet(PathsOf(Read(cached).value))
                    + PathSet(PathsOf(Read(unstaged).value))
  }

  lemma UnmutatedAgrees(repo: Repo, m: Migrations, committed: string, cached: string, unstaged: string, p: Path)
    requires MigrationStreams(repo, m, committed, cached, unstaged) && MIGRATION_PREFIX <= p && p !in m.mutated
    ensures !Differ(repo.base, repo.head, p) && !Differ(repo.head, repo.index, p)
            && !Differ(repo.index, Tracked(repo), p)
  {
    DiffStreamRead(committed, repo.base, repo.head, MIGRATION_PREFIX);
    DiffStreamRead(cached, repo.head, repo.index, MIGRATION_PREFIX);
    DiffStreamRead(unstaged, repo.index, Tracked(repo), MIGRATION_PREFIX);
  }

  // Passing means that merge base, HEAD, index and worktree agree on every migration of the merge base.
  lemma PassedMigrationsAgree(
    repo: Repo, m: Migrations, committed: string, cached: string, unstaged: string, changed: set<Path>, p: Path)
    requires MigrationStreams(repo, m, committed, cached, unstaged) && MigrationCheck(m, changed) == Immutable
    requires p in repo.base && MIGRATION_PREFIX <= p
    ensures p in repo.head && p in repo.index && p in repo.worktree
    ensures repo.base[p] == repo.head[p] == repo.index[p] == repo.worktree[p]
  {
    assert p in m.base && p !in m.base * m.mutated;
    UnmutatedAgrees(repo, m, committed, cached, unstaged, p);
  }

  // Adding migrations is allowed: if base, HEAD, index and worktree agree on every migration of the merge base and the
  // streams mention only paths that differ, all of them reported, the check passes.
  lemma AddedMigrationsPass(
    repo: Repo, m: Migrations, committed: string, cached: string, unstaged: string, changed: set<Path>)
    requires MigrationStreams(repo, m, committed, cached, unstaged) && m.mutated <= changed
    requires forall p :: p in m.mutated ==>
               || Differ(repo.base, repo.head, p) || Differ(repo.head, repo.index, p)
               || Differ(repo.index, Tracked(repo), p)
    requires forall p :: p in repo.base && MIGRATION_PREFIX <= p ==>
               p in repo.head && p in repo.index && p in repo.worktree
               && repo.base[p] == repo.head[p] == repo.index[p] == repo.worktree[p]
    ensures MigrationCheck(m, changed) == Immutable
  {
    assert forall p :: p in m.base ==> p !in m.mutated;
  }

  // The three verdicts: a mutation that the collected paths lack is reported first.
  lemma MigrationVerdicts(m: Migrations, changed: set<Path>)
    ensures MigrationCheck(m, changed) == Unreported <==> exists p :: p in m.mutated && p !in changed
    ensures MigrationCheck(m, changed) == Immutable
       <==> forall p :: p in m.mutated ==> p in changed && p !in m.base
  {
    if m.mutated <= changed && MigrationCheck(m, changed) == Immutable {
      assert forall p :: p in m.base && p in m.mutated ==> p in m.base * m.mutated;
    }
  }
}
