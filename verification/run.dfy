/**
  The `main` flow of cmd/cli/pr/main.go from the branch queries up to the
  GitHub POST: resolve the branches, read the owner and repo, look the issue
  up, and assemble the endpoint and payload. Every failure is terminal, in the
  order the steps run. The git and JIRA outcomes are inputs.
 */
module Run {
  import opened Results
  import opened GoStrings
  import opened Git
  import opened RemoteUrl
  import opened Branches
  import opened PullRequests

  /** The flag and environment values the modelled steps read. */
  datatype Config = Config(issueKey: string, baseFlag: string, jiraBaseUrl: string)

  /** What the run does once the modelled steps are over. */
  datatype Plan =
    | Post(url: string, request: PullRequest)  // the POST to GitHub is made
    | Abort(error: Error)                      // `log.Fatalf` before any POST
    | Panic                                    // the nil source-branch dereference

  /**
    The steps in source order. A POST is planned exactly when every query it
    depends on succeeded; its payload carries the trimmed current branch as head,
    the flag or discovered default branch as base, and the fetched summary.
   */
  function PlanRun(cfg: Config, head: CmdResult, symref: CmdResult, remote: CmdResult,
                   summary: Result<string, string>): (p: Plan)
    ensures p.Post? <==>
              && head.Exited? && (cfg.baseFlag != [] || symref.Exited?)
              && RepoDetails(remote).Success? && summary.Success?
    ensures p.Post? ==>
              && p.request.draft
              && p.request.head == TrimSpace(head.stdout)
              && p.request.base == (if cfg.baseFlag != [] then cfg.baseFlag
                                    else LastSegment(TrimSpace(symref.stdout), '/'))
              && NamesIssue(p.request, cfg.issueKey, summary.value, cfg.jiraBaseUrl)
    ensures p.Post? ==>
              var repo := RepoDetails(remote).value;
              p.url == PullsUrl(repo.owner, repo.name) && repo.owner != [] && repo.name != []
    ensures p.Panic? <==> cfg.baseFlag == [] && head.Failed? && symref.Exited?
    ensures cfg.baseFlag != [] && head.Failed? ==> p == Abort(CurrentBranchUnavailable(head.cause))
    ensures cfg.baseFlag == [] && symref.Failed? ==> p == Abort(DefaultBranchUnavailable(symref.cause))
    ensures (&& head.Exited? && (cfg.baseFlag != [] || symref.Exited?)
             && RepoDetails(remote).Failure?) ==> p == Abort(RepoDetails(remote).error)
    ensures (&& summary.Failure? && head.Exited? && (cfg.baseFlag != [] || symref.Exited?)
             && RepoDetails(remote).Success?) ==> p == Abort(IssueFetchFailed(summary.error))
  {
    match ResolveBranches(cfg.baseFlag, head, symref)
    case Fatal(e) => Abort(e)
    case NilSourcePanic => Panic
    case Resolved(source, base) =>
      match RepoDetails(remote)
      case Failure(e) => Abort(e)
      case Success(repo) =>
        match summary
        case Failure(cause) => Abort(IssueFetchFailed(cause))
        case Success(text) =>
          Post(PullsUrl(repo.owner, repo.name), NewPullRequest(cfg.issueKey, text, cfg.jiraBaseUrl, source, base))
  }

  /** Branch failures are reported before the remote URL or the issue is looked at. */
  lemma BranchFailureComesFirst(cfg: Config, head: CmdResult, symref: CmdResult,
                                remote: CmdResult, summary: Result<string, string>)
    requires cfg.baseFlag != [] && head.Failed?
    ensures PlanRun(cfg, head, symref, remote, summary) == Abort(CurrentBranchUnavailable(head.cause))
  {
  }

  /** A failed issue lookup means no pull request is requested. */
  lemma IssueFailureMeansNoPost(cfg: Config, head: CmdResult, symref: CmdResult,
                                remote: CmdResult, cause: string)
    ensures !PlanRun(cfg, head, symref, remote, Failure(cause)).Post?
  {
  }

  /**
    End to end: on a checked-out branch of an SSH remote `git@<host>:<owner>/<repo>.git`,
    with no `-base` flag and origin's HEAD at `<prefix>/<default>`, a fetched
    summary becomes a draft pull request from that branch into `<default>`,
    posted to `<owner>/<repo>`.
   */
  lemma SshRunPostsDraft(cfg: Config, branch: string, prefix: string, default: string,
                         host: string, owner: string, name: string, summary: string)
    requires cfg.baseFlag == []
    requires Trimmed(branch)
    requires Trimmed(prefix + "/" + default) && '/' !in default
    requires ':' !in host && owner != [] && name != []
    requires '/' !in owner && '/' !in name && ':' !in owner && ':' !in name
    ensures PlanRun(cfg, Exited(branch + "\n"), Exited(prefix + "/" + default + "\n"),
                    Exited("git@" + host + ":" + owner + "/" + name + ".git" + "\n"), Success(summary))
            == Post(PullsUrl(owner, name),
                    PullRequest(Title(cfg.issueKey, summary), Body(cfg.jiraBaseUrl, cfg.issueKey), branch, default, true))
  {
    var url := "git@" + host + ":" + owner + "/" + name + ".git";
    assert url[0] == 'g' && url[|url| - 1] == 't';
    TrimSpaceTrailing(url, "\n");
    RepoDetailsOfTrimmed(url + "\n", url);
    SshStandardForm(host, owner, name);
    TrimSpaceTrailing(branch, "\n");
    DefaultBranchOfSymbolicRef(prefix, default, "\n");
    DefaultBranchIsLastSegment(prefix + "/" + default + "\n");
  }
}
