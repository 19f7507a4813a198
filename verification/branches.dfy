/**
  The branches of the pull request (cmd/cli/pr/main.go): the source branch is
  the current checkout, the base branch is the `-base` flag or, when that is
  empty, the last segment of the remote's symbolic HEAD.

  The selection is modelled exactly as written: both queries write the same
  `err` variable, so when the flag is empty a failed current-branch query is
  overwritten by a successful default-branch query, and the run goes on to
  dereference a nil source branch.
 */
module Branches {
  import opened Results
  import opened GoStrings
  import opened Git

  /** `getCurrentBranch`: the trimmed output of `git rev-parse --abbrev-ref HEAD`. */
  function CurrentBranch(head: CmdResult): (r: Result<string, Error>)
    ensures r.Failure? <==> head.Failed?
    ensures head.Failed? ==> r.error == CurrentBranchUnavailable(head.cause)
    ensures r.Success? ==> Trimmed(r.value) && |r.value| <= |head.stdout|
    ensures r.Success? ==> exists a, b :: AllSpace(a) && AllSpace(b) && head.stdout == a + r.value + b
  {
    match head
    case Failed(cause) => Failure(CurrentBranchUnavailable(cause))
    case Exited(out) => Success(TrimSpace(out))
  }

  /**
    `getDefaultBranch`: the last `/`-segment of the trimmed output of
    `git symbolic-ref refs/remotes/origin/HEAD`. The "could not parse" error is
    unreachable, because splitting always yields at least one piece.
   */
  function DefaultBranch(symref: CmdResult): (r: Result<string, Error>)
    ensures symref.Failed? ==> r == Failure(DefaultBranchUnavailable(symref.cause))
    ensures symref.Exited? ==> r.Success?
    ensures r.Success? ==> '/' !in r.value
    ensures r.Success? ==>
              var ref := TrimSpace(symref.stdout);
              r.value == ref || HasSuffix(ref, "/" + r.value)
  {
    match symref
    case Failed(cause) => Failure(DefaultBranchUnavailable(cause))
    case Exited(out) =>
      var ref := TrimSpace(out);
      var parts := Split(ref, '/');
      if |parts| > 0 then
        LastSegmentIsSuffix(ref, '/');
        Success(LastSegment(ref, '/'))
      else
        Failure(UnparsableDefaultBranch(out))
  }

  /** The usual output `refs/remotes/origin/<name>\n` yields `<name>`. */
  lemma DefaultBranchOfSymbolicRef(prefix: string, name: string, pad: string)
    requires '/' !in name
    requires Trimmed(prefix + "/" + name)
    requires AllSpace(pad)
    ensures DefaultBranch(Exited(prefix + "/" + name + pad)) == Success(name)
  {
    TrimSpaceTrailing(prefix + "/" + name, pad);
    LastSegmentAfter(prefix, name, '/');
    DefaultBranchIsLastSegment(prefix + "/" + name + pad);
  }

  lemma DefaultBranchIsLastSegment(out: string)
    ensures DefaultBranch(Exited(out)) == Success(LastSegment(TrimSpace(out), '/'))
  {
  }

  lemma DefaultBranchExample()
    ensures DefaultBranch(Exited("refs/remotes/origin/main\n")) == Success("main")
  {
    assert "refs/remotes/origin/main\n" == "refs/remotes/origin" + "/" + "main" + "\n";
    DefaultBranchOfSymbolicRef("refs/remotes/origin", "main", "\n");
  }

  /** The variables `sourceBranch`, `baseBranch` and `err` after the two queries. */
  datatype BranchState = BranchState(source: Option<string>, base: Option<string>, err: Option<Error>)

  /**
    The two queries as written: the current branch is always asked for; the
    default branch only when the `-base` flag is empty, and its outcome then
    replaces BOTH `baseBranch` and `err`.
   */
  function SelectBranches(baseFlag: string, head: CmdResult, symref: CmdResult): (st: BranchState)
    ensures st.source.Some? <==> head.Exited?
    ensures baseFlag != [] ==> st.base == Some(baseFlag) && (st.err.Some? <==> head.Failed?)
    ensures baseFlag == [] ==> (st.base.Some? <==> symref.Exited?) && (st.err.Some? <==> symref.Failed?)
    ensures st.err.None? ==> st.base.Some?
    ensures st.source.Some? ==> st.source.value == TrimSpace(head.stdout)
    ensures baseFlag == [] && symref.Exited? ==> st.base == Some(LastSegment(TrimSpace(symref.stdout), '/'))
    ensures baseFlag != [] && head.Failed? ==> st.err == Some(CurrentBranchUnavailable(head.cause))
    ensures baseFlag == [] && symref.Failed? ==> st.err == Some(DefaultBranchUnavailable(symref.cause))
  {
    var current := CurrentBranch(head);
    if baseFlag == [] then
      var default := DefaultBranch(symref);
      BranchState(current.ValueOrNil(), default.ValueOrNil(), default.ErrorOrNil())
    else
      BranchState(current.ValueOrNil(), Some(baseFlag), current.ErrorOrNil())
  }

  /** How the run continues after the `err` check and the first use of `*sourceBranch`. */
  datatype BranchOutcome =
    | Resolved(source: string, base: string)
    | Fatal(error: Error)      // `log.Fatalf` on a non-nil `err`
    | NilSourcePanic           // `err` is nil but `sourceBranch` is: the dereference panics

  function ResolveBranches(baseFlag: string, head: CmdResult, symref: CmdResult): (o: BranchOutcome)
    ensures o.Resolved? <==> head.Exited? && (baseFlag != [] || symref.Exited?)
    ensures o.Resolved? ==> o.source == TrimSpace(head.stdout)
    ensures o.Resolved? && baseFlag != [] ==> o.base == baseFlag
    ensures o.Resolved? && baseFlag == [] ==> o.base == LastSegment(TrimSpace(symref.stdout), '/')
    ensures o.NilSourcePanic? <==> baseFlag == [] && head.Failed? && symref.Exited?
    ensures o.Fatal? && baseFlag != [] ==> o.error == CurrentBranchUnavailable(head.cause)
    ensures o.Fatal? && baseFlag == [] ==> o.error == DefaultBranchUnavailable(symref.cause)
  {
    var st := SelectBranches(baseFlag, head, symref);
    if st.err.Some? then Fatal(st.err.value)
    else if st.source.None? then NilSourcePanic
    else Resolved(st.source.value, st.base.value)
  }

  /** With a `-base` flag the default-branch query has no influence: its outcome is never looked at. */
  lemma OverrideIgnoresDefaultQuery(baseFlag: string, head: CmdResult, symref1: CmdResult, symref2: CmdResult)
    requires baseFlag != []
    ensures ResolveBranches(baseFlag, head, symref1) == ResolveBranches(baseFlag, head, symref2)
    ensures SelectBranches(baseFlag, head, symref1) == SelectBranches(baseFlag, head, symref2)
  {
  }

  /**
    The masked failure: with no `-base` flag, a failed current-branch query
    followed by a successful default-branch query leaves `err` nil and
    `sourceBranch` nil, so the run panics instead of reporting the failure.
   */
  lemma CurrentBranchFailureMasked(head: CmdResult, symref: CmdResult)
    requires head.Failed? && symref.Exited?
    ensures SelectBranches([], head, symref).err.None?
    ensures SelectBranches([], head, symref).source.None?
    ensures ResolveBranches([], head, symref) == NilSourcePanic
  {
  }

  /** With no `-base` flag and both queries failing, only the default-branch failure is reported. */
  lemma BothFailuresReportDefault(head: CmdResult, symref: CmdResult)
    requires head.Failed? && symref.Failed?
    ensures ResolveBranches([], head, symref) == Fatal(DefaultBranchUnavailable(symref.cause))
  {
  }
}
