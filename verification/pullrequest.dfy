/**
  The request the program sends to GitHub (cmd/cli/pr/main.go): the JIRA issue
  URL it reads the summary from, the GitHub endpoint it posts to, and the
  pull-request payload, whose title carries the issue key in brackets and whose
  body links back to the issue.
 */
module PullRequests {
  import opened Results
  import opened GoStrings

  /** The `PullRequest` struct: the JSON body of the creation request. */
  datatype PullRequest = PullRequest(title: string, body: string, head: string, base: string, draft: bool)

  /** The JIRA REST resource of an issue. */
  function IssueUrl(jiraBaseUrl: string, issueKey: string): string {
    jiraBaseUrl + "/rest/api/3/issue/" + issueKey
  }

  /** The GitHub endpoint that creates pull requests in `owner/repo`. */
  function PullsUrl(owner: string, repo: string): string {
    "https://api.github.com/repos/" + owner + "/" + repo + "/pulls"
  }

  function Title(issueKey: string, summary: string): string {
    "[" + issueKey + "] " + summary
  }

  /** The browser link to the issue. */
  function Body(jiraBaseUrl: string, issueKey: string): string {
    jiraBaseUrl + "/browse/" + issueKey
  }

  /**
    The payload names the issue: the title is `[key] summary`, decodable when the
    key has no `]`, and the body is the base URL, `/browse/` and then the key.
   */
  predicate NamesIssue(pr: PullRequest, issueKey: string, summary: string, jiraBaseUrl: string) {
    && HasPrefix(pr.title, "[" + issueKey + "] ") && pr.title[|issueKey| + 3..] == summary
    && (']' !in issueKey ==> ParseTitle(pr.title) == Some((issueKey, summary)))
    && HasPrefix(pr.body, jiraBaseUrl + "/browse/") && pr.body[|jiraBaseUrl + "/browse/"|..] == issueKey
  }

  /**
    Reads a title back into its issue key and summary: the key runs from the
    opening `[` to the first `]`, which must be followed by a space.
   */
  function ParseTitle(title: string): Option<(string, string)> {
    if HasPrefix(title, "[") then
      var key := Split(title[1..], ']')[0];
      var rest := title[1 + |key|..];
      if HasPrefix(rest, "] ") then Some((key, rest[2..])) else None
    else
      None
  }

  /**
    The payload: the title and body both carry the issue key, the head is the
    source branch, the base is the resolved base branch, and the pull request
    is always opened as a draft.
   */
  function NewPullRequest(issueKey: string, summary: string, jiraBaseUrl: string, source: string, base: string)
    : (pr: PullRequest)
    ensures pr.draft
    ensures pr.head == source && pr.base == base
    ensures HasPrefix(pr.title, "[" + issueKey + "] ") && pr.title[|issueKey| + 3..] == summary
    ensures ']' !in issueKey ==> ParseTitle(pr.title) == Some((issueKey, summary))
    ensures '/' !in issueKey ==> LastSegment(pr.body, '/') == issueKey
    ensures HasPrefix(pr.body, jiraBaseUrl + "/browse/")
    ensures pr.body[|jiraBaseUrl + "/browse/"|..] == issueKey
  {
    TitleRoundTrip(issueKey, summary);
    BodyNamesIssue(jiraBaseUrl, issueKey);
    PullRequest(Title(issueKey, summary), Body(jiraBaseUrl, issueKey), source, base, true)
  }

  /** The title is decoded back into the key and summary it was built from. */
  lemma TitleRoundTrip(issueKey: string, summary: string)
    ensures ']' !in issueKey ==> ParseTitle(Title(issueKey, summary)) == Some((issueKey, summary))
  {
    if ']' !in issueKey {
      var title := Title(issueKey, summary);
      var after := " " + summary;
      assert title[1..] == issueKey + [']'] + after;
      SplitAround(issueKey, after, ']');
      SplitNoSeparator(issueKey, ']');
      assert title[1 + |issueKey|..] == "] " + summary;
    }
  }

  /** Distinct issues (or summaries) give distinct titles. */
  lemma TitleInjective(key1: string, summary1: string, key2: string, summary2: string)
    requires ']' !in key1 && ']' !in key2
    requires Title(key1, summary1) == Title(key2, summary2)
    ensures key1 == key2 && summary1 == summary2
  {
    TitleRoundTrip(key1, summary1);
    TitleRoundTrip(key2, summary2);
  }

  /**
    The format is ambiguous once a key contains `]`: the key `k] [k2` with
    summary `s` gives the same title as the key `k` with summary `[k2] s`.
   */
  lemma TitleBracketAmbiguity(k: string, k2: string, s: string)
    ensures Title(k + "] [" + k2, s) == Title(k, "[" + k2 + "] " + s)
    ensures k + "] [" + k2 != k
  {
    assert |k + "] [" + k2| > |k|;
  }

  /** The body starts with the JIRA base URL and ends with the key as its last path segment. */
  lemma BodyNamesIssue(jiraBaseUrl: string, issueKey: string)
    ensures HasPrefix(Body(jiraBaseUrl, issueKey), jiraBaseUrl + "/browse/")
    ensures Body(jiraBaseUrl, issueKey)[|jiraBaseUrl + "/browse/"|..] == issueKey
    ensures '/' !in issueKey ==> LastSegment(Body(jiraBaseUrl, issueKey), '/') == issueKey
  {
    var b := Body(jiraBaseUrl, issueKey);
    assert b[..|jiraBaseUrl + "/browse/"|] == jiraBaseUrl + "/browse/";
    if '/' !in issueKey {
      assert b == (jiraBaseUrl + "/browse") + ['/'] + issueKey;
      LastSegmentAfter(jiraBaseUrl + "/browse", issueKey, '/');
    }
  }

  /** The issue resource ends with the key as its last path segment. */
  lemma IssueUrlNamesIssue(jiraBaseUrl: string, issueKey: string)
    requires '/' !in issueKey
    ensures LastSegment(IssueUrl(jiraBaseUrl, issueKey), '/') == issueKey
  {
    assert IssueUrl(jiraBaseUrl, issueKey) == (jiraBaseUrl + "/rest/api/3/issue") + ['/'] + issueKey;
    LastSegmentAfter(jiraBaseUrl + "/rest/api/3/issue", issueKey, '/');
  }

  /** The endpoint's path ends `<owner>/<repo>/pulls`, so owner and repo are read back from it. */
  lemma PullsUrlNamesRepo(owner: string, repo: string)
    requires '/' !in owner && '/' !in repo
    ensures var parts := Split(PullsUrl(owner, repo), '/');
            |parts| >= 4 && parts[|parts| - 3] == owner && parts[|parts| - 2] == repo
            && parts[|parts| - 1] == "pulls"
  {
    assert PullsUrl(owner, repo) == "https://api.github.com/repos" + ['/'] + owner + ['/'] + repo + ['/'] + "pulls";
    SplitLastThree("https://api.github.com/repos", owner, repo, "pulls", '/');
  }
}
