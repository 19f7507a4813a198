# create-pr-from-jira, modelled in Dafny

`create-pr-from-jira` opens a draft GitHub pull request for the current git
branch. Its title and description come from a JIRA issue. The program does three
things. It asks `git` for the current branch, the remote's default branch and
the `remote.origin.url` setting. It reads the issue summary from JIRA's REST
API. It then posts `{title, body, head, base, draft}` to
`https://api.github.com/repos/<owner>/<repo>/pulls`.

This project models the string handling in `cmd/cli/pr/main.go` as pure
functions over `string` (sequences of code points). The git and JIRA
outcomes are parameters:

- `GoStrings`: the parts of Go's `strings` package the program uses
  (`HasPrefix`, `TrimSuffix`, `Split`, `TrimSpace`). `HasSuffix` is only the
  test inside `TrimSuffix`, and `Join` is
  the reference definition `Split` is proved against. `TrimSpace` trims the
  code points Go's `unicode.IsSpace` accepts.
- `Git`: a subprocess outcome (`Exited(stdout)` or `Failed(cause)`) and one
  error constructor per error the modelled code returns.
- `RemoteUrl`: `getGitHubRepoDetails`. An `https://` URL drops one `.git` and
  keeps the LAST two `/`-pieces. A `git@` URL drops one `.git` and needs
  exactly one `:`, then exactly one `/` after it. An empty owner or repo is an
  error naming the URL.
- `Branches`: `getCurrentBranch`, `getDefaultBranch`, and the base/source
  selection in `main`. The selection is modelled as written. The
  current-branch query and the default-branch query share one `err` variable.
  So when `-base` is empty, a failed current-branch query is overwritten by a
  successful default-branch query. The run then dereferences a nil source
  branch (`NilSourcePanic`; see `Branches.CurrentBranchFailureMasked`).
- `PullRequests`: the payload (`[KEY] summary`, `<jira>/browse/KEY`, head,
  base, always a draft) and the JIRA and GitHub URLs. A title parser inverts
  the title for keys without `]`; a key containing `]` can make two issues
  share a title, so the format is not injective in general. The key is read
  back from the body after `/browse/`.
- `Run`: the flow of `main` from the branch queries up to the POST. It yields
  `Post(url, request)`, `Abort(error)` or `Panic`.

`main.go` behaves as follows in three places a reader may not expect. A
one-piece HTTPS path takes the host as owner: `https://host/o` gives
(`host`, `o`). The "could not parse default branch" error cannot occur. A
failed current-branch query can end in a panic rather than an error message.

## Model

| member | source | states |
|---|---|---|
| GoStrings.TrimSuffix | cmd/cli/pr/main.go:54 | one trailing copy of the suffix is removed: the result plus the suffix is the input when the input ends with it, and otherwise the input is returned unchanged |
| GoStrings.Split | cmd/cli/pr/main.go:54 | there is one more piece than there are separators, no piece contains the separator, and joining the pieces with the separator gives back the input |
| GoStrings.SplitJoin | cmd/cli/pr/main.go:54 | Split inverts Join for every non-empty list of separator-free pieces |
| GoStrings.SplitAround | cmd/cli/pr/main.go:54 | splitting `a + sep + b` gives the pieces of `a` followed by the pieces of `b` |
| GoStrings.SplitNoSeparator | cmd/cli/pr/main.go:93 | a string without the separator splits into exactly itself |
| GoStrings.SplitOnce | cmd/cli/pr/main.go:60 | a string with exactly one separator splits into the two sides of it |
| GoStrings.LastSegmentIsSuffix | cmd/cli/pr/main.go:93-95 | the last piece contains no separator, and it is either the whole string or preceded by a separator at the end of the string |
| GoStrings.LastSegmentAfter | cmd/cli/pr/main.go:93-95 | the last piece of `p + sep + x`, for separator-free `x`, is `x` |
| GoStrings.TrimSpace | cmd/cli/pr/main.go:50 | the result neither starts nor ends with white space, and the input is the result with white space before and after it |
| GoStrings.TrimSpacePadded | cmd/cli/pr/main.go:50 | white space around a trimmed core is removed and the core returned unchanged; together with TrimSpace's contract this determines the result |
| GoStrings.TrimSpaceTrailing | cmd/cli/pr/main.go:50 | white space after a trimmed string, such as the newline ending a command's output, is dropped and the string returned unchanged |
| GoStrings.TrimSpaceTrimmed | cmd/cli/pr/main.go:83 | an already trimmed string is left alone, so trimming is idempotent |
| RemoteUrl.HttpsOwnerRepo | cmd/cli/pr/main.go:53-58 | the two pieces contain no `/`, and for an HTTPS URL a non-empty repo is found at the end of the URL after one `.git` is dropped, as `/owner/repo` |
| RemoteUrl.SshOwnerRepo | cmd/cli/pr/main.go:59-67 | the two pieces contain neither `/` nor `:`, and a non-empty owner means the URL, after one `.git` is dropped, has exactly one `:` and ends with `:owner/repo` |
| RemoteUrl.Candidate | cmd/cli/pr/main.go:51-68 | a URL starting with neither `https://` nor `git@` leaves owner and repo empty |
| RemoteUrl.ParseRemoteUrl | cmd/cli/pr/main.go:51-74 | a failure names the URL; a success has a non-empty owner and repo without `/`, at the end of the URL in the position its shape demands; any other scheme fails |
| RemoteUrl.RepoDetails | cmd/cli/pr/main.go:43-74 | a failed `git config` is reported with its cause; otherwise the outcome is that of parsing some trimmed string which, with white space around it, is the whole output; a success names a non-empty owner and repo |
| RemoteUrl.HttpsGuardHolds | cmd/cli/pr/main.go:55 | an HTTPS URL always has at least three `/`-pieces, so the `len(parts) >= 2` guard never fails |
| RemoteUrl.HttpsWithSuffix | cmd/cli/pr/main.go:53-58 | any HTTPS URL ending `/O/R.git`, with O and R non-empty and free of `/`, parses to exactly (O, R); R may itself end in `.git`, since only one suffix is dropped |
| RemoteUrl.HttpsWithoutSuffix | cmd/cli/pr/main.go:53-58 | the same for `/O/R` when R does not end in `.git` |
| RemoteUrl.HttpsStandardForm | cmd/cli/pr/main.go:53-58 | `https://H/O/R.git`, and `https://H/O/R` when R does not end in `.git`, parse to (O, R) for every host H |
| RemoteUrl.HttpsHostBecomesOwner | cmd/cli/pr/main.go:56-57 | `https://host/o` parses to owner `host` and repo `o`, because the last two pieces are taken |
| RemoteUrl.HttpsTrailingSlashRejected | cmd/cli/pr/main.go:53-71 | an HTTPS URL ending in `/` has an empty repo piece and is rejected |
| RemoteUrl.SshPath | cmd/cli/pr/main.go:59-71 | a `git@` URL with exactly one `:` succeeds exactly when the path after it splits into two non-empty `/`-pieces, which become owner and repo |
| RemoteUrl.SshStandardForm | cmd/cli/pr/main.go:59-67 | `git@H:O/R.git`, and `git@H:O/R` when R does not end in `.git`, parse to (O, R) when H has no `:` and O, R are non-empty without `/` or `:` |
| RemoteUrl.SshNestedPathRejected | cmd/cli/pr/main.go:62-71 | a `git@` URL whose path after the single `:` has other than exactly one `/` is rejected |
| RemoteUrl.SshThreePiecesExample | cmd/cli/pr/main.go:62-63 | `git@h:a/b/c` is rejected |
| RemoteUrl.RepoDetailsOfOutput | cmd/cli/pr/main.go:43-74 | output that is a trimmed URL with any white space before and after it (such as the closing newline) gives exactly the outcome of parsing that URL |
| Branches.CurrentBranch | cmd/cli/pr/main.go:77-84 | fails exactly when `git rev-parse` fails, with its cause; a success is trimmed and is the output with only white space removed before and after it |
| Branches.DefaultBranch | cmd/cli/pr/main.go:86-99 | fails only when `git symbolic-ref` fails (the parse error is unreachable); a success contains no `/` and is the whole trimmed output or follows its last `/` |
| Branches.DefaultBranchOfSymbolicRef | cmd/cli/pr/main.go:93-95 | output `<prefix>/<name>` followed by white space yields `<name>` |
| Branches.DefaultBranchExample | cmd/cli/pr/main.go:93-95 | `refs/remotes/origin/main` and a newline yield `main` |
| Branches.SelectBranches | cmd/cli/pr/main.go:152-155 | the source is set exactly when the current-branch query succeeds, and is then set to the trimmed output; with a flag the base is set to the flag and `err` is set to the current-branch query's error; without one, the base is set to the last `/`-segment of the trimmed default-branch output and `err` to the default-branch query's error, each exactly when that query succeeds or fails |
| Branches.ResolveBranches | cmd/cli/pr/main.go:152-159 | branches resolve exactly when the needed queries succeed, to the trimmed current branch and the flag or last segment of the default ref; the nil-source panic happens exactly when the flag is empty, the current-branch query fails and the default-branch query succeeds |
| Branches.OverrideIgnoresDefaultQuery | cmd/cli/pr/main.go:153-155 | with a non-empty `-base` flag, the default-branch outcome cannot change anything |
| Branches.CurrentBranchFailureMasked | cmd/cli/pr/main.go:152-159 | with no flag, a failed current-branch query followed by a successful default-branch query leaves `err` and the source nil and ends in the panic |
| Branches.BothFailuresReportDefault | cmd/cli/pr/main.go:152-157 | with no flag and both queries failing, the default-branch failure is the one reported |
| PullRequests.NewPullRequest | cmd/cli/pr/main.go:175-181 | always a draft; head is the source branch and base the resolved base; the title is `[`, the key, `] ` and then exactly the summary, and for a key without `]` it decodes back to the key and summary; the body is `<jira>/browse/` followed by exactly the key |
| PullRequests.TitleRoundTrip | cmd/cli/pr/main.go:176 | a title built from a key without `]` decodes back to exactly that key and summary |
| PullRequests.TitleInjective | cmd/cli/pr/main.go:176 | for keys without `]`, different keys or summaries never give the same title |
| PullRequests.TitleBracketAmbiguity | cmd/cli/pr/main.go:176 | the title format is not injective in general: a key containing `] [` gives the same title as a shorter key with a longer summary |
| PullRequests.BodyNamesIssue | cmd/cli/pr/main.go:177 | the body starts with the JIRA base URL and `/browse/`, what follows is exactly the issue key, and for a key without `/` that key is its last path segment |
| PullRequests.IssueUrlNamesIssue | cmd/cli/pr/main.go:102 | for a key without `/`, the JIRA issue resource ends with the issue key as its last path segment |
| PullRequests.PullsUrlNamesRepo | cmd/cli/pr/main.go:173 | the endpoint's last three path segments are the owner, the repo and `pulls` |
| Run.PlanRun | cmd/cli/pr/main.go:152-181 | a POST is planned exactly when every query it depends on succeeded; its URL names the parsed repo and its payload has the trimmed branch, the right base, the title `[key] summary` (decodable when the key has no `]`), the body `<jira>/browse/key` and a draft flag; the panic occurs exactly in the masked case; otherwise the first failing step is reported with its own error: the current branch (with a flag), the default branch (without one), the remote URL, then the issue lookup |
| Run.BranchFailureComesFirst | cmd/cli/pr/main.go:152-164 | with a flag, a failed current-branch query aborts the run before the remote or the issue is consulted |
| Run.IssueFailureMeansNoPost | cmd/cli/pr/main.go:167-170 | a failed JIRA lookup never leads to a POST |
| Run.SshRunPostsDraft | cmd/cli/pr/main.go:152-181 | end to end, with no flag and an SSH remote, the run posts a draft from the checked-out branch into the default branch of `owner/repo`, titled and described from the issue |

## Left out

- The `git` subprocesses (`exec.Command` at lines 44-48, 78-82 and 87-91) are not run. Each query's captured stdout or its failure is an input (`Git.CmdResult`).
- The JIRA request (lines 101-134) is left out: HTTP, Basic authentication, the status check and JSON decoding. Its outcome, the summary or a failure cause, is an input. Only its URL (`PullRequests.IssueUrl`) is modelled.
- The GitHub request (lines 183-211) is left out: JSON marshalling, headers, the 201 check and response decoding. The model ends at `Run.Post` with the URL and payload it would send.
- Flag parsing and the environment checks (lines 137-150) are left out. The issue key, `-base` value and JIRA base URL come in as `Run.Config`.
- The progress printing is left out, as are the exact texts of the `log.Fatalf` and `fmt.Errorf` messages. Errors carry the cause or the offending text, not the formatted message.
- The `baseBranch == nil` half of the test at line 153 is left out, because `flag.String` never returns nil. Only the empty-string test is modelled.
- Strings are sequences of Unicode code points. Go's byte strings, with UTF-8 decoding in `TrimSpace`, are not modelled, so invalid UTF-8 is out of scope.
- GoStrings.Split: modelled with a one-character separator only, because the program splits only on `/` and `:`.
