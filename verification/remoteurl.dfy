/**
  `getGitHubRepoDetails` (cmd/cli/pr/main.go): the GitHub owner and repository
  name read off the `remote.origin.url` setting. Two shapes are accepted:
  `https://…/<owner>/<repo>[.git]`, which keeps the LAST two `/`-pieces, and
  `git@<host>:<owner>/<repo>[.git]`, which needs exactly one `:` and then exactly
  one `/`. Anything else, or an empty owner or repo, is an error naming the URL.
 */
module RemoteUrl {
  import opened Results
  import opened GoStrings
  import opened Git

  datatype Repo = Repo(owner: string, name: string)

  /**
    The HTTPS branch: drop one `.git`, split on `/`, keep the last two pieces
    (left empty, Go's zero value, if there were fewer than two).
   */
  function HttpsOwnerRepo(url: string): (c: (string, string))
    ensures '/' !in c.0 && '/' !in c.1
    ensures HasPrefix(url, "https://") && c.1 != [] ==>
              HasSuffix(TrimSuffix(url, ".git"), "/" + c.0 + "/" + c.1)
  {
    var parts := Split(TrimSuffix(url, ".git"), '/');
    HttpsTail(url);
    if |parts| >= 2 then
      (parts[|parts| - 2], parts[|parts| - 1])
    else
      ([], [])
  }

  /**
    The SSH branch: drop one `.git`, require exactly one `:`, then exactly one
    `/` after it; the owner and repo are the two `/`-pieces (else left empty).
   */
  function SshOwnerRepo(url: string): (c: (string, string))
    ensures '/' !in c.0 && '/' !in c.1 && ':' !in c.0 && ':' !in c.1
    ensures c.0 != [] ==>
              && Count(TrimSuffix(url, ".git"), ':') == 1
              && HasSuffix(TrimSuffix(url, ".git"), ":" + c.0 + "/" + c.1)
  {
    var parts := Split(TrimSuffix(url, ".git"), ':');
    if |parts| == 2 then
      var sub := Split(parts[1], '/');
      if |sub| == 2 then
        SshTail(url);
        (sub[0], sub[1])
      else
        ([], [])
    else
      ([], [])
  }

  /**
    The owner and repo the URL's shape yields, empty when it has neither shape.
    Non-empty pieces sit at the end of the URL (after one `.git` is dropped):
    after a `/` in the HTTPS shape, after the only `:` in the SSH shape.
   */
  function Candidate(url: string): (c: (string, string))
    ensures '/' !in c.0 && '/' !in c.1
    ensures !HasPrefix(url, "https://") && !HasPrefix(url, "git@") ==> c == ([], [])
    ensures HasPrefix(url, "https://") && c.1 != [] ==>
              HasSuffix(TrimSuffix(url, ".git"), "/" + c.0 + "/" + c.1)
    ensures HasPrefix(url, "git@") && c.0 != [] ==>
              && ':' !in c.0 && ':' !in c.1
              && Count(TrimSuffix(url, ".git"), ':') == 1
              && HasSuffix(TrimSuffix(url, ".git"), ":" + c.0 + "/" + c.1)
  {
    SchemesExclusive(url);
    if HasPrefix(url, "https://") then
      HttpsOwnerRepo(url)
    else if HasPrefix(url, "git@") then
      SshOwnerRepo(url)
    else
      ([], [])
  }

  /** No URL has both shapes' prefixes. */
  lemma SchemesExclusive(url: string)
    ensures !(HasPrefix(url, "https://") && HasPrefix(url, "git@"))
  {
    if HasPrefix(url, "git@") {
      assert url[0] == url[..4][0] == 'g';
    }
  }

  /**
    Parses an already trimmed remote URL: the final check rejects an empty
    owner or repo, so every success names two non-empty pieces.
   */
  function ParseRemoteUrl(url: string): (r: Result<Repo, Error>)
    ensures r.Failure? ==> r.error == UnparsableRemoteUrl(url)
    ensures r.Success? ==> r.value.owner != [] && r.value.name != []
    ensures r.Success? ==> '/' !in r.value.owner && '/' !in r.value.name
    ensures !HasPrefix(url, "https://") && !HasPrefix(url, "git@") ==> r.Failure?
    ensures r.Success? && HasPrefix(url, "https://") ==>
              HasSuffix(TrimSuffix(url, ".git"), "/" + r.value.owner + "/" + r.value.name)
    ensures r.Success? && HasPrefix(url, "git@") ==>
              && ':' !in r.value.owner && ':' !in r.value.name
              && Count(TrimSuffix(url, ".git"), ':') == 1
              && HasSuffix(TrimSuffix(url, ".git"), ":" + r.value.owner + "/" + r.value.name)
  {
    var c := Candidate(url);
    if c.0 == [] || c.1 == [] then
      Failure(UnparsableRemoteUrl(url))
    else
      Success(Repo(c.0, c.1))
  }

  /** `getGitHubRepoDetails` as a whole: the subprocess outcome, trimmed, then parsed. */
  function RepoDetails(remote: CmdResult): (r: Result<Repo, Error>)
    ensures remote.Failed? ==> r == Failure(RemoteUrlUnavailable(remote.cause))
    ensures r.Success? ==> remote.Exited? && r.value.owner != [] && r.value.name != []
    ensures r.Failure? && remote.Exited? ==> r.error == UnparsableRemoteUrl(TrimSpace(remote.stdout))
    ensures remote.Exited? ==>
              exists a, u, b :: AllSpace(a) && AllSpace(b) && Trimmed(u) && remote.stdout == a + u + b
                                && r == ParseRemoteUrl(u)
  {
    match remote
    case Failed(cause) => Failure(RemoteUrlUnavailable(cause))
    case Exited(out) => ParseRemoteUrl(TrimSpace(out))
  }

  /** The text stays a URL of the HTTPS shape after `.git` is dropped: the suffix cannot eat into `https://`. */
  lemma HttpsPrefixSurvivesTrim(url: string)
    requires HasPrefix(url, "https://")
    ensures HasPrefix(TrimSuffix(url, ".git"), "https://")
  {
    if HasSuffix(url, ".git") {
      forall i | |url| - 4 <= i < |url|
        ensures url[i] != '/'
      {
        assert url[i] == url[|url| - 4..][i - (|url| - 4)];
      }
      assert url[7] == '/';
    }
  }

  /** The `len(parts) >= 2` guard never fails: an HTTPS URL always has at least three `/`-pieces. */
  lemma HttpsGuardHolds(url: string)
    requires HasPrefix(url, "https://")
    ensures |Split(TrimSuffix(url, ".git"), '/')| >= 3
  {
    var t := TrimSuffix(url, ".git");
    HttpsPrefixSurvivesTrim(url);
    assert t == "https:" + ['/'] + ([] + ['/'] + t[8..]);
    SplitAround("https:", [] + ['/'] + t[8..], '/');
    SplitAround([], t[8..], '/');
  }

  /** Where the last two pieces of an HTTPS URL sit in it. */
  lemma HttpsTail(url: string)
    ensures HasPrefix(url, "https://") ==>
              var parts := Split(TrimSuffix(url, ".git"), '/');
              |parts| >= 2 &&
              HasSuffix(TrimSuffix(url, ".git"), "/" + parts[|parts| - 2] + "/" + parts[|parts| - 1])
  {
    if HasPrefix(url, "https://") {
      var parts := Split(TrimSuffix(url, ".git"), '/');
      HttpsGuardHolds(url);
      JoinLastTwo(parts, '/');
    }
  }

  /** Where owner and repo sit in an SSH URL that has exactly one `:` and one `/` after it. */
  lemma SshTail(url: string)
    ensures var t := TrimSuffix(url, ".git");
            var parts := Split(t, ':');
            |parts| == 2 ==>
              var sub := Split(parts[1], '/');
              |sub| == 2 ==>
                && ':' !in sub[0] && ':' !in sub[1]
                && HasSuffix(t, ":" + sub[0] + "/" + sub[1])
  {
    var parts := Split(TrimSuffix(url, ".git"), ':');
    if |parts| == 2 {
      var sub := Split(parts[1], '/');
      if |sub| == 2 {
        JoinTwo(parts, ':');
        JoinTwo(sub, '/');
        AbsentFromPieces(sub[0], sub[1], '/', ':');
        SshSuffix(parts[0], sub[0], sub[1]);
      }
    }
  }

  lemma SshSuffix(user: string, owner: string, name: string)
    ensures HasSuffix(user + [':'] + (owner + ['/'] + name), ":" + owner + "/" + name)
  {
    assert user + [':'] + (owner + ['/'] + name) == user + (":" + owner + "/" + name);
    HasSuffixOfConcat(user, ":" + owner + "/" + name);
  }

  /** A `/` in front of a name that does not end in `.git` keeps the whole text from ending in `.git`. */
  lemma NoGitSuffixAcrossSlash(prefix: string, name: string)
    requires !HasSuffix(name, ".git")
    ensures !HasSuffix(prefix + "/" + name, ".git")
  {
    var s := prefix + "/" + name;
    if |name| >= 4 {
      assert name[|name| - 4..] == s[|s| - 4..];
    } else if |s| >= 4 {
      var k := |prefix| - (|s| - 4);
      assert s[|s| - 4..][k] == s[|prefix|] == '/';
    }
  }

  /**
    An HTTPS URL whose last two `/`-pieces are a non-empty owner and repo, followed
    by `.git`, parses to exactly those two; the repo may itself end in `.git`,
    since only one suffix is dropped.
   */
  lemma HttpsWithSuffix(prefix: string, owner: string, name: string)
    requires HasPrefix(prefix + "/" + owner + "/" + name + ".git", "https://")
    requires owner != [] && name != []
    requires '/' !in owner && '/' !in name
    ensures ParseRemoteUrl(prefix + "/" + owner + "/" + name + ".git") == Success(Repo(owner, name))
  {
    var url := prefix + "/" + owner + "/" + name + ".git";
    var t := prefix + "/" + owner + "/" + name;
    assert url == t + ".git";
    assert TrimSuffix(url, ".git") == t;
    HttpsLastPieces(prefix, owner, name);
    HttpsParsesTo(url, owner, name);
  }

  /** The same without the `.git` suffix, as long as the repo does not end in `.git` itself. */
  lemma HttpsWithoutSuffix(prefix: string, owner: string, name: string)
    requires HasPrefix(prefix + "/" + owner + "/" + name, "https://")
    requires owner != [] && name != []
    requires '/' !in owner && '/' !in name
    requires !HasSuffix(name, ".git")
    ensures ParseRemoteUrl(prefix + "/" + owner + "/" + name) == Success(Repo(owner, name))
  {
    var t := prefix + "/" + owner + "/" + name;
    NoGitSuffixAcrossSlash(prefix + "/" + owner, name);
    assert TrimSuffix(t, ".git") == t;
    HttpsLastPieces(prefix, owner, name);
    HttpsParsesTo(t, owner, name);
  }

  lemma HttpsLastPieces(prefix: string, owner: string, name: string)
    requires '/' !in owner && '/' !in name
    ensures var parts := Split(prefix + "/" + owner + "/" + name, '/');
            |parts| >= 2 && parts[|parts| - 2] == owner && parts[|parts| - 1] == name
  {
    SplitOnce(owner, name, '/');
    SplitAround(prefix, owner + ['/'] + name, '/');
    RegroupTwo(prefix, owner, name, '/');
  }

  /** The usual HTTPS remote, with or without `.git`, names its owner and repo. */
  lemma HttpsStandardForm(host: string, owner: string, name: string)
    requires owner != [] && name != []
    requires '/' !in owner && '/' !in name
    ensures ParseRemoteUrl("https://" + host + "/" + owner + "/" + name + ".git") == Success(Repo(owner, name))
    ensures !HasSuffix(name, ".git") ==>
              ParseRemoteUrl("https://" + host + "/" + owner + "/" + name) == Success(Repo(owner, name))
  {
    var prefix := "https://" + host;
    assert (prefix + "/" + owner + "/" + name + ".git")[..8] == "https://";
    HttpsWithSuffix(prefix, owner, name);
    if !HasSuffix(name, ".git") {
      assert (prefix + "/" + owner + "/" + name)[..8] == "https://";
      HttpsWithoutSuffix(prefix, owner, name);
    }
  }

  /** Because the last two pieces are taken, a URL with a single path piece reads the host as the owner. */
  lemma HttpsHostBecomesOwner(host: string, name: string)
    requires host != [] && name != []
    requires '/' !in host && '/' !in name
    requires !HasSuffix(name, ".git")
    ensures ParseRemoteUrl("https://" + host + "/" + name) == Success(Repo(host, name))
  {
    assert "https://" + host + "/" + name == "https:/" + "/" + host + "/" + name;
    assert ("https:/" + "/" + host + "/" + name)[..8] == "https://";
    HttpsWithoutSuffix("https:/", host, name);
  }

  /** A trailing `/` leaves the repo piece empty, so the URL is rejected. */
  lemma HttpsTrailingSlashRejected(url: string)
    requires HasPrefix(url, "https://") && HasSuffix(url, "/")
    ensures ParseRemoteUrl(url) == Failure(UnparsableRemoteUrl(url))
  {
    var p := url[..|url| - 1];
    assert url == p + ['/'] + [];
    assert url[|url| - 4..][3] == '/';
    SplitAround(p, [], '/');
    var parts := Split(url, '/');
    assert parts[|parts| - 1] == [];
  }

  /** An SSH URL with a single `:` is decided by the `/`-pieces of the path after it. */
  lemma SshPath(url: string, user: string, path: string)
    requires HasPrefix(url, "git@")
    requires TrimSuffix(url, ".git") == user + [':'] + path
    requires ':' !in user && ':' !in path
    ensures var sub := Split(path, '/');
            ParseRemoteUrl(url) ==
              if |sub| == 2 && sub[0] != [] && sub[1] != [] then Success(Repo(sub[0], sub[1]))
              else Failure(UnparsableRemoteUrl(url))
  {
    SshBranchDecides(url);
    SshCandidate(url, user, path);
  }

  /** An `https://` URL is decided by the last two `/`-pieces alone. */
  lemma HttpsBranchDecides(url: string)
    requires HasPrefix(url, "https://")
    ensures var parts := Split(TrimSuffix(url, ".git"), '/');
            && |parts| >= 2
            && ParseRemoteUrl(url) ==
                 if parts[|parts| - 2] != [] && parts[|parts| - 1] != [] then
                   Success(Repo(parts[|parts| - 2], parts[|parts| - 1]))
                 else
                   Failure(UnparsableRemoteUrl(url))
  {
    HttpsGuardHolds(url);
    assert Candidate(url) == HttpsOwnerRepo(url);
  }

  /** An HTTPS URL whose last two pieces are non-empty parses to exactly those. */
  lemma HttpsParsesTo(url: string, owner: string, name: string)
    requires HasPrefix(url, "https://") && owner != [] && name != []
    requires var parts := Split(TrimSuffix(url, ".git"), '/');
             |parts| >= 2 && parts[|parts| - 2] == owner && parts[|parts| - 1] == name
    ensures ParseRemoteUrl(url) == Success(Repo(owner, name))
  {
    HttpsBranchDecides(url);
  }

  /** A `git@` URL is decided by the SSH branch alone. */
  lemma SshBranchDecides(url: string)
    requires HasPrefix(url, "git@")
    ensures var c := SshOwnerRepo(url);
            ParseRemoteUrl(url) ==
              if c.0 != [] && c.1 != [] then Success(Repo(c.0, c.1)) else Failure(UnparsableRemoteUrl(url))
  {
    SchemesExclusive(url);
    assert Candidate(url) == SshOwnerRepo(url);
  }

  lemma SshCandidate(url: string, user: string, path: string)
    requires TrimSuffix(url, ".git") == user + [':'] + path
    requires ':' !in user && ':' !in path
    ensures var sub := Split(path, '/');
            SshOwnerRepo(url) == if |sub| == 2 then (sub[0], sub[1]) else ([], [])
  {
    SplitOnce(user, path, ':');
  }

  /**
    An SSH remote `git@<host>:<owner>/<repo>`, with or without `.git`, names its
    owner and repo when neither contains `/` or `:` and the host has no `:`.
   */
  lemma SshStandardForm(host: string, owner: string, name: string)
    requires ':' !in host
    requires owner != [] && name != []
    requires '/' !in owner && '/' !in name && ':' !in owner && ':' !in name
    ensures ParseRemoteUrl("git@" + host + ":" + owner + "/" + name + ".git") == Success(Repo(owner, name))
    ensures !HasSuffix(name, ".git") ==>
              ParseRemoteUrl("git@" + host + ":" + owner + "/" + name) == Success(Repo(owner, name))
  {
    var user := "git@" + host;
    var path := owner + ['/'] + name;
    var t := user + [':'] + path;
    SplitOnce(owner, name, '/');
    assert t == "git@" + host + ":" + owner + "/" + name;
    var url := t + ".git";
    assert url == "git@" + host + ":" + owner + "/" + name + ".git";
    HasSuffixOfConcat(t, ".git");
    assert url[..4] == "git@";
    SshPath(url, user, path);
    if !HasSuffix(name, ".git") {
      assert t == (user + [':'] + owner) + "/" + name;
      NoGitSuffixAcrossSlash(user + [':'] + owner, name);
      assert t[..4] == "git@";
      SshPath(t, user, path);
    }
  }

  /** An SSH path with other than exactly one `/` after the `:` (such as `a/b/c`) is rejected. */
  lemma SshNestedPathRejected(url: string, user: string, path: string)
    requires HasPrefix(url, "git@")
    requires TrimSuffix(url, ".git") == user + ":" + path
    requires ':' !in user && ':' !in path
    requires Count(path, '/') != 1
    ensures ParseRemoteUrl(url) == Failure(UnparsableRemoteUrl(url))
  {
    assert user + ":" + path == user + [':'] + path;
    SshPath(url, user, path);
  }

  /** The example from the SSH rule: `git@h:a/b/c` has three pieces after the colon. */
  lemma SshThreePiecesExample()
    ensures ParseRemoteUrl("git@h:a/b/c").Failure?
  {
    var url := "git@h:a/b/c";
    assert !HasSuffix(url, ".git");
    assert url == "git@h" + ":" + "a/b/c";
    SshNestedPathRejected(url, "git@h", "a/b/c");
  }

  /**
    White space around the URL, such as the newline ending the output of
    `git config`, does not change the outcome: the output is parsed as the URL.
   */
  lemma RepoDetailsOfOutput(lead: string, url: string, trail: string)
    requires AllSpace(lead) && AllSpace(trail) && Trimmed(url)
    ensures RepoDetails(Exited(lead + url + trail)) == ParseRemoteUrl(url)
  {
    TrimSpacePadded(lead, url, trail);
    RepoDetailsOfTrimmed(lead + url + trail, url);
  }

  lemma RepoDetailsOfTrimmed(out: string, url: string)
    requires TrimSpace(out) == url
    ensures RepoDetails(Exited(out)) == ParseRemoteUrl(url)
  {
  }
}
