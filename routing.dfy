/** How `add_to_orgs.py` and `add_to_repos.py` divide one five-column CSV
    between them. */
module Routing {
  import opened Http
  import AddToOrgs
  import AddToRepos

  /** Run over the same file, the two scripts split its five-column rows by
      the `/` test on the last column: each such row is handled by exactly
      one of them, and a row of any other width by neither. */
  lemma ExactlyOneScript(row: seq<string>, env: Env)
    ensures var byOrgs := !AddToOrgs.HandleRow(row, env).disposition.Skipped?;
      var byRepos := !AddToRepos.HandleRow(row, env).disposition.Skipped?;
      && (|row| == 5 ==> byOrgs != byRepos)
      && (|row| != 5 ==> !byOrgs && !byRepos)
  {
    AddToOrgs.RowRouting(row, env);
    AddToRepos.RowRouting(row, env);
  }
}
