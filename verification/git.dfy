/** What the program learns from its `git` subprocesses, and the errors it reports. */
module Git {

  /** The outcome of `cmd.Output()`: the captured standard output, or the reason it failed. */
  datatype CmdResult = Exited(stdout: string) | Failed(cause: string)

  /** One constructor per `fmt.Errorf` the modelled code returns. */
  datatype Error =
    | RemoteUrlUnavailable(cause: string)       // `git config --get remote.origin.url` failed
    | UnparsableRemoteUrl(url: string)          // neither form yielded an owner and a repo
    | CurrentBranchUnavailable(cause: string)   // `git rev-parse --abbrev-ref HEAD` failed
    | DefaultBranchUnavailable(cause: string)   // `git symbolic-ref refs/remotes/origin/HEAD` failed
    | UnparsableDefaultBranch(output: string)   // no segment in the symbolic ref
    | IssueFetchFailed(cause: string)           // the JIRA lookup failed
}
