/**
 * The string and list logic of the GitHub client: which repository the
 * `origin` remote names, which open issues are real issues, how a
 * pull request's title and body are written, and how the remote is turned
 * into a token-authenticated HTTPS URL before pushing. The git
 * subprocesses and the PyGithub calls are inputs and outputs here.
 */
module GitHub {
  import opened Wrappers
  import opened Strings

  /** The exceptions the client raises. */
  datatype Error =
    | ValueError(message: string)
    | RuntimeError(message: string)
    | IndexError  // `split(...)[1]` on a URL without the separator; not caught by the client

  const NotGitHub := "Not a GitHub repository"
  const NoRemote := "Could not get git remote URL"
  const NoToken := "GITHUB_TOKEN environment variable not set"

  const SshPrefix := "git@github.com:"
  const HttpsPrefix := "https://github.com/"
  const GitSuffix := ".git"

  // ---------------------------------------------------------------------
  // Issues
  // ---------------------------------------------------------------------

  /** An open issue as the GitHub API lists it: the attributes the client reads. */
  datatype ApiIssue = ApiIssue(
    number: int,
    title: string,
    body: Option<string>,
    labels: seq<string>,          // the labels' names
    pullRequest: bool,            // the API attached a `pull_request` (the entry is a PR)
    assignee: Option<string>,     // the assignee's login
    createdAt: int,               // creation time, carried as an opaque value
    url: string)

  /** The issue record the client hands to the picker and the agent integration. */
  datatype Issue = Issue(
    number: int,
    title: string,
    body: string,
    labels: seq<string>,
    assignee: Option<string>,
    createdAt: int,
    url: string)

  /** One listed entry as an issue record; a missing body becomes the empty text. */
  function ToIssue(a: ApiIssue): (r: Issue)
    ensures r.number == a.number && r.title == a.title && r.labels == a.labels
    ensures r.body == (if a.body.Some? then a.body.value else "")
  {
    Issue(a.number, a.title, if a.body.Some? then a.body.value else "", a.labels, a.assignee, a.createdAt, a.url)
  }

  /** The open issues that are not pull requests, in listing order. */
  function OpenIssues(listed: seq<ApiIssue>): seq<Issue> {
    if listed == [] then []
    else (if listed[0].pullRequest then [] else [ToIssue(listed[0])]) + OpenIssues(listed[1..])
  }

  /** Filtering distributes over concatenation, so the listing order is kept. */
  lemma {:induction false} OpenIssuesAppend(a: seq<ApiIssue>, b: seq<ApiIssue>)
    ensures OpenIssues(a + b) == OpenIssues(a) + OpenIssues(b)
  {
    if a == [] {
      assert a + b == b;
    } else {
      assert (a + b)[0] == a[0];
      assert (a + b)[1..] == a[1..] + b;
      OpenIssuesAppend(a[1..], b);
    }
  }

  /** An issue record is kept exactly when some listed entry that is not a pull request produced it. */
  lemma {:induction false} OpenIssuesMembers(listed: seq<ApiIssue>, x: Issue)
    ensures x in OpenIssues(listed) <==>
            exists i :: 0 <= i < |listed| && !listed[i].pullRequest && x == ToIssue(listed[i])
  {
    if listed != [] {
      OpenIssuesMembers(listed[1..], x);
      if x in OpenIssues(listed[1..]) {
        var i :| 0 <= i < |listed[1..]| && !listed[1..][i].pullRequest && x == ToIssue(listed[1..][i]);
        assert listed[i + 1] == listed[1..][i];
      }
      if exists i :: 0 <= i < |listed| && !listed[i].pullRequest && x == ToIssue(listed[i]) {
        var i :| 0 <= i < |listed| && !listed[i].pullRequest && x == ToIssue(listed[i]);
        if i > 0 {
          assert listed[1..][i - 1] == listed[i];
        }
      }
    }
  }

  /** Pull requests never reach the result, and at most every listed entry does. */
  lemma {:induction false} OpenIssuesCount(listed: seq<ApiIssue>)
    ensures |OpenIssues(listed)| <= |listed|
    ensures (forall i :: 0 <= i < |listed| ==> listed[i].pullRequest) ==> OpenIssues(listed) == []
    ensures (forall i :: 0 <= i < |listed| ==> !listed[i].pullRequest) ==> |OpenIssues(listed)| == |listed|
  {
    if listed != [] {
      OpenIssuesCount(listed[1..]);
    }
  }

  // ---------------------------------------------------------------------
  // The repository named by the `origin` remote
  // ---------------------------------------------------------------------

  /**
   * The part of a remote URL that names the repository, before `.git` is
   * dealt with: for `git@...` URLs the second `:`-separated field, for
   * all others the second `github.com/`-separated field.
   */
  function RemoteSegment(url: string): (r: Result<string, Error>)
    ensures r == Err(ValueError(NotGitHub)) <==> !Contains(url, "github.com")
    ensures r == Err(IndexError) <==>
              Contains(url, "github.com") && !Contains(url, if StartsWith(url, "git@") then ":" else "github.com/")
    ensures r.Ok? ==> !Contains(r.value, if StartsWith(url, "git@") then ":" else "github.com/")
    ensures r.Ok? ==>
              var sep := if StartsWith(url, "git@") then ":" else "github.com/";
              IsFirstField(url[IndexOf(url, sep).value + |sep|..], sep, r.value)
  {
    if !Contains(url, "github.com") then Err(ValueError(NotGitHub))
    else
      var sep := if StartsWith(url, "git@") then ":" else "github.com/";
      match SecondField(url, sep)
      case None => Err(IndexError)
      case Some(segment) => Ok(segment)
  }

  /** Python's `s.removesuffix('.git')`. */
  function StripGitSuffix(s: string): (r: string)
    ensures EndsWith(s, GitSuffix) ==> r + GitSuffix == s
    ensures !EndsWith(s, GitSuffix) ==> r == s
  {
    if EndsWith(s, GitSuffix) then s[..|s| - |GitSuffix|] else s
  }

  /**
   * The `owner/name` path `_setup_repo` looks up, from the output of
   * `git remote get-url origin` (`None` when git exits non-zero), with
   * every `.git` in the segment deleted, as the source's `replace` does.
   */
  function RepoFromRemoteAsWritten(remote: Option<string>): (r: Result<string, Error>)
    ensures remote.None? ==> r == Err(ValueError(NoRemote))
    ensures remote.Some? ==> (r == Err(ValueError(NotGitHub)) <==> !Contains(Strip(remote.value), "github.com"))
  {
    match remote
    case None => Err(ValueError(NoRemote))
    case Some(out) =>
      match RemoteSegment(Strip(out))
      case Err(e) => Err(e)
      case Ok(segment) => Ok(RemoveAll(segment, GitSuffix))
  }

  /**
   * The same with only a trailing `.git` removed: the repository path the
   * `owner/repo.git` comments on the SSH and HTTPS forms name.
   */
  function RepoFromRemote(remote: Option<string>): (r: Result<string, Error>)
    ensures remote.None? ==> r == Err(ValueError(NoRemote))
    ensures remote.Some? ==> (r == Err(ValueError(NotGitHub)) <==> !Contains(Strip(remote.value), "github.com"))
  {
    match remote
    case None => Err(ValueError(NoRemote))
    case Some(out) =>
      match RemoteSegment(Strip(out))
      case Err(e) => Err(e)
      case Ok(segment) => Ok(StripGitSuffix(segment))
  }

  /** Where a URL splits after a fixed prefix: a separator first found inside the prefix, never in the rest. */
  lemma {:induction false} SecondFieldAfterPrefix(pre: string, rest: string, sep: string)
    requires sep != [] && IndexOf(pre, sep) == Some(|pre| - |sep|) && !Contains(rest, sep)
    ensures SecondField(pre + rest, sep) == Some(rest)
  {
    var url := pre + rest;
    IndexOfExtend(pre, rest, sep);
    assert url[|pre|..] == rest;
    SecondFieldIsRest(url, sep, |pre| - |sep|);
  }

  lemma SshPrefixColon()
    ensures IndexOf(SshPrefix, ":") == Some(14)
  {
    assert SshPrefix[14] == ':' && ':' !in SshPrefix[0..14];
    assert OccursAt(SshPrefix, ":", 14);
    FirstByLastChar(SshPrefix, ":", 14);
  }

  lemma HttpsPrefixHost()
    ensures IndexOf(HttpsPrefix, "github.com/") == Some(8)
  {
    assert HttpsPrefix[8..19] == "github.com/" && '/' !in HttpsPrefix[10..18];
    assert OccursAt(HttpsPrefix, "github.com/", 8);
    FirstByLastChar(HttpsPrefix, "github.com/", 8);
  }

  lemma NoColonInSuffixed(path: string)
    requires ':' !in path
    ensures !Contains(path + GitSuffix, ":")
  {
    forall j ensures !OccursAt(path + GitSuffix, ":", j) {
      OccursAtChar(path + GitSuffix, ':', j);
    }
  }

  /** The SSH form splits at the colon that ends `git@github.com:`. */
  lemma {:induction false} SshSecondField(path: string)
    requires ':' !in path
    ensures SecondField(SshPrefix + path + GitSuffix, ":") == Some(path + GitSuffix)
  {
    SshPrefixColon();
    NoColonInSuffixed(path);
    assert SshPrefix + path + GitSuffix == SshPrefix + (path + GitSuffix);
    SecondFieldAfterPrefix(SshPrefix, path + GitSuffix, ":");
  }

  lemma {:induction false} SshSegment(path: string)
    requires ':' !in path
    ensures RemoteSegment(SshPrefix + path + GitSuffix) == Ok(path + GitSuffix)
  {
    var url := SshPrefix + path + GitSuffix;
    assert url[..15] == SshPrefix;
    assert url[4..14] == url[..15][4..14];
    assert OccursAt(url, "github.com", 4);
    assert url[..4] == "git@";
    SshSecondField(path);
  }

  /** The SSH remote `git@github.com:<path>.git` names `<path>`, for any path without a colon. */
  lemma {:induction false} RepoFromSshRemote(path: string)
    requires ':' !in path
    ensures RepoFromRemote(Some(SshPrefix + path + GitSuffix)) == Ok(path)
  {
    var url := SshPrefix + path + GitSuffix;
    StripUnpadded(url);
    SshSegment(path);
    assert (path + GitSuffix)[..|path|] == path;
  }

  /** `github.com/` cannot end inside `.git`, so it occurs in `<path>.git` only if it occurs in the path. */
  lemma {:induction false} NoHostInSuffixed(path: string)
    requires !Contains(path, "github.com/")
    ensures !Contains(path + GitSuffix, "github.com/")
  {
    var rest := path + GitSuffix;
    forall j | 0 <= j && j + 11 <= |rest| ensures !OccursAt(rest, "github.com/", j) {
      if j + 11 <= |path| {
        assert !OccursAt(path, "github.com/", j);
        assert rest[j..j + 11] == path[j..j + 11];
      } else {
        assert rest[j + 10] == GitSuffix[j + 10 - |path|];
        assert '/' !in GitSuffix;
        assert rest[j..j + 11][10] == rest[j + 10];
      }
    }
  }

  /** The HTTPS form splits at the `github.com/` that ends `https://github.com/`. */
  lemma {:induction false} HttpsSecondField(path: string)
    requires !Contains(path, "github.com/")
    ensures SecondField(HttpsPrefix + path + GitSuffix, "github.com/") == Some(path + GitSuffix)
  {
    HttpsPrefixHost();
    NoHostInSuffixed(path);
    assert HttpsPrefix + path + GitSuffix == HttpsPrefix + (path + GitSuffix);
    SecondFieldAfterPrefix(HttpsPrefix, path + GitSuffix, "github.com/");
  }

  lemma HttpsHost(path: string)
    ensures Contains(HttpsPrefix + path + GitSuffix, "github.com")
  {
    var url := HttpsPrefix + path + GitSuffix;
    assert url[..19] == HttpsPrefix;
    assert url[8..18] == url[..19][8..18];
    assert OccursAt(url, "github.com", 8);
  }

  lemma {:induction false} HttpsSegment(path: string)
    requires !Contains(path, "github.com/")
    ensures RemoteSegment(HttpsPrefix + path + GitSuffix) == Ok(path + GitSuffix)
  {
    var url := HttpsPrefix + path + GitSuffix;
    HttpsHost(path);
    assert !StartsWith(url, "git@") by {
      assert url[0] == 'h';
    }
    HttpsSecondField(path);
  }

  /** The HTTPS remote `https://github.com/<path>.git` names `<path>`, when `github.com/` does not occur in the path. */
  lemma {:induction false} RepoFromHttpsRemote(path: string)
    requires !Contains(path, "github.com/")
    ensures RepoFromRemote(Some(HttpsPrefix + path + GitSuffix)) == Ok(path)
  {
    var url := HttpsPrefix + path + GitSuffix;
    StripUnpadded(url);
    HttpsSegment(path);
    assert (path + GitSuffix)[..|path|] == path;
  }

  // ---------------------------------------------------------------------
  // The as-written `.git` removal against the intended one
  // ---------------------------------------------------------------------

  /** A GitHub Pages repository: its name itself contains `.git`. */
  const PagesPath := "octo/octo.github.io"

  lemma PagesOwnerKept(rest: string)
    ensures RemoveAll("octo/octo" + rest, GitSuffix) == "octo/octo" + RemoveAll(rest, GitSuffix)
  {
    var s := "octo/octo" + rest;
    assert '.' !in "octo/octo";
    forall j | 0 <= j < 9 ensures !OccursAt(s, GitSuffix, j) {
      assert s[j] == "octo/octo"[j];
      if j + 4 <= |s| {
        assert s[j..j + 4][0] == s[j];
      }
    }
    RemoveAllKeep("octo/octo", rest, GitSuffix);
  }

  lemma PagesNameRemoval()
    ensures RemoveAll(GitSuffix + "hub.io.git", GitSuffix) == "hub.io"
  {
    var s := GitSuffix + "hub.io.git";
    assert s[..4] == GitSuffix;
    assert s[4..] == "hub.io.git";
    PagesNameTail();
  }

  lemma PagesNameTail()
    ensures RemoveAll("hub.io.git", ".git") == "hub.io"
  {
    var p := "hub.io";
    assert p + GitSuffix == "hub.io.git";
    forall j | 0 <= j ensures !OccursAt(p, GitSuffix, j) {
      if j + 4 <= |p| {
        assert p[j..j + 4][0] == p[j] != '.';
      }
    }
    RemoveAllSuffix(p);
  }

  lemma PagesSegmentRemoval()
    ensures RemoveAll(PagesPath + GitSuffix, GitSuffix) == "octo/octohub.io"
  {
    var tail := GitSuffix + "hub.io.git";
    assert PagesPath + GitSuffix == "octo/octo" + tail;
    PagesOwnerKept(tail);
    PagesNameRemoval();
    assert "octo/octo" + "hub.io" == "octo/octohub.io";
  }

  /**
   * The remote `git@github.com:octo/octo.github.io.git` makes the client as
   * written look up `octo/octohub.io`, not the repository it names.
   */
  lemma SetupRepoPagesCounterexample()
    ensures RepoFromRemoteAsWritten(Some(SshPrefix + PagesPath + GitSuffix)) == Ok("octo/octohub.io")
    ensures RepoFromRemote(Some(SshPrefix + PagesPath + GitSuffix)) == Ok(PagesPath)
  {
    var url := SshPrefix + PagesPath + GitSuffix;
    assert ':' !in PagesPath;
    StripUnpadded(url);
    SshSegment(PagesPath);
    PagesSegmentRemoval();
    RepoFromSshRemote(PagesPath);
  }

  /**
   * Deleting every `.git` in one left-to-right pass can leave a `.git`
   * behind: the two halves around a deleted one join into a new one.
   */
  lemma RemovalCanLeaveGit()
    ensures RemoveAll(".g" + GitSuffix + "it" + GitSuffix, GitSuffix) == GitSuffix
  {
    var s := ".g" + GitSuffix + "it" + GitSuffix;
    assert s[0] == '.' && s[1] == 'g' && s[2] == '.';
    assert s[..4][2] != GitSuffix[2];
    assert s[1..][..4][0] != GitSuffix[0];
    assert s[2..][..4] == GitSuffix;
    assert s[6..] == "it" + GitSuffix;
    RemoveAllSuffix("it");
    assert s[1..][1..] == s[2..] && s[2..][4..] == s[6..];
    assert RemoveAll(s[2..], GitSuffix) == "it";
    assert RemoveAll(s[1..], GitSuffix) == [s[1]] + "it";
    assert RemoveAll(s, GitSuffix) == [s[0]] + ([s[1]] + "it");
  }

  /** So the repository path the client as written looks up can still contain `.git`. */
  lemma AsWrittenPathKeepsGit()
    ensures RepoFromRemoteAsWritten(Some(SshPrefix + (".g" + GitSuffix + "it") + GitSuffix)) == Ok(GitSuffix)
  {
    var path := ".g" + GitSuffix + "it";
    assert ':' !in path;
    StripUnpadded(SshPrefix + path + GitSuffix);
    SshSegment(path);
    RemovalCanLeaveGit();
  }

  /** Where the repository path holds no `.git` of its own, the as-written removal finds the right repository. */
  lemma {:induction false} AsWrittenAgreesOnPlainPaths(path: string)
    requires !Contains(path, GitSuffix)
    ensures ':' !in path ==>
              RepoFromRemoteAsWritten(Some(SshPrefix + path + GitSuffix)) == Ok(path) == RepoFromRemote(Some(SshPrefix + path + GitSuffix))
    ensures !Contains(path, "github.com/") ==>
              RepoFromRemoteAsWritten(Some(HttpsPrefix + path + GitSuffix)) == Ok(path) == RepoFromRemote(Some(HttpsPrefix + path + GitSuffix))
  {
    if ':' !in path {
      AsWrittenSsh(path);
    }
    if !Contains(path, "github.com/") {
      AsWrittenHttps(path);
    }
  }

  lemma {:induction false} AsWrittenSsh(path: string)
    requires !Contains(path, GitSuffix) && ':' !in path
    ensures RepoFromRemoteAsWritten(Some(SshPrefix + path + GitSuffix)) == Ok(path) == RepoFromRemote(Some(SshPrefix + path + GitSuffix))
  {
    RemoveAllSuffix(path);
    StripUnpadded(SshPrefix + path + GitSuffix);
    SshSegment(path);
    RepoFromSshRemote(path);
  }

  lemma {:induction false} AsWrittenHttps(path: string)
    requires !Contains(path, GitSuffix) && !Contains(path, "github.com/")
    ensures RepoFromRemoteAsWritten(Some(HttpsPrefix + path + GitSuffix)) == Ok(path) == RepoFromRemote(Some(HttpsPrefix + path + GitSuffix))
  {
    RemoveAllSuffix(path);
    StripUnpadded(HttpsPrefix + path + GitSuffix);
    HttpsSegment(path);
    RepoFromHttpsRemote(path);
  }

  /** `.git` has no proper border, so appending it to a text free of it adds exactly one occurrence, at the end. */
  lemma {:induction false} RemoveAllSuffix(p: string)
    requires !Contains(p, GitSuffix)
    ensures RemoveAll(p + GitSuffix, GitSuffix) == p
  {
    var s := p + GitSuffix;
    forall j | 0 <= j < |p| ensures !OccursAt(s, GitSuffix, j) {
      if j + 4 <= |p| {
        assert !OccursAt(p, GitSuffix, j);
        assert s[j..j + 4] == p[j..j + 4];
      } else {
        assert s[j + 1] == '.' || s[j + 2] == '.' || s[j + 3] == '.' by {
          assert s[|p|] == '.';
        }
        assert s[j..j + 4][1] == s[j + 1] && s[j..j + 4][2] == s[j + 2] && s[j..j + 4][3] == s[j + 3];
      }
    }
    RemoveAllKeep(p, GitSuffix, GitSuffix);
    assert RemoveAll(GitSuffix, GitSuffix) == "";
    assert s == p + GitSuffix;
  }

  // ---------------------------------------------------------------------
  // Token-authenticated remote
  // ---------------------------------------------------------------------

  /** `https://<token>@github.com/<path>.git`. */
  function TokenUrl(token: string, path: string): string {
    "https://" + token + "@github.com/" + path + GitSuffix
  }

  /**
   * The URL `_configure_git_auth` sets for `origin`, as written: the prefix
   * and every `.git` deleted from the remote, then the token URL built;
   * `None` when the remote is neither the SSH nor the HTTPS GitHub form
   * and is left alone.
   */
  function TokenRemoteAsWritten(token: string, url: string): (r: Option<string>)
    ensures r.Some? <==> StartsWith(url, SshPrefix) || StartsWith(url, HttpsPrefix)
    ensures r.Some? ==> StartsWith(r.value, "https://" + token + "@github.com/") && EndsWith(r.value, GitSuffix)
  {
    if StartsWith(url, SshPrefix) then Some(TokenUrl(token, RemoveAll(RemoveAll(url, SshPrefix), GitSuffix)))
    else if StartsWith(url, HttpsPrefix) then Some(TokenUrl(token, RemoveAll(RemoveAll(url, HttpsPrefix), GitSuffix)))
    else None
  }

  /** The same with the prefix cut off and only a trailing `.git` removed, as the comments on the two forms (`git@github.com:owner/repo.git` becomes `https://token@github.com/owner/repo.git`) describe. */
  function TokenRemote(token: string, url: string): (r: Option<string>)
    ensures r.Some? <==> StartsWith(url, SshPrefix) || StartsWith(url, HttpsPrefix)
    ensures r.Some? ==> StartsWith(r.value, "https://" + token + "@github.com/") && EndsWith(r.value, GitSuffix)
  {
    if StartsWith(url, SshPrefix) then Some(TokenUrl(token, StripGitSuffix(url[|SshPrefix|..])))
    else if StartsWith(url, HttpsPrefix) then Some(TokenUrl(token, StripGitSuffix(url[|HttpsPrefix|..])))
    else None
  }

  /** Both remote forms of one repository give the same token URL, which names that repository. */
  lemma TokenRemoteForms(token: string, path: string)
    ensures TokenRemote(token, SshPrefix + path + GitSuffix) == Some(TokenUrl(token, path))
    ensures TokenRemote(token, HttpsPrefix + path + GitSuffix) == Some(TokenUrl(token, path))
    ensures !EndsWith(path, GitSuffix) ==> TokenRemote(token, SshPrefix + path) == Some(TokenUrl(token, path))
    ensures !EndsWith(path, GitSuffix) ==> TokenRemote(token, HttpsPrefix + path) == Some(TokenUrl(token, path))
  {
    assert (SshPrefix + path + GitSuffix)[|SshPrefix|..] == path + GitSuffix;
    assert (HttpsPrefix + path + GitSuffix)[|HttpsPrefix|..] == path + GitSuffix;
    assert (SshPrefix + path)[|SshPrefix|..] == path;
    assert (HttpsPrefix + path)[|HttpsPrefix|..] == path;
    assert (path + GitSuffix)[..|path|] == path;
    assert (SshPrefix + path + GitSuffix)[..|SshPrefix|] == SshPrefix;
    assert (SshPrefix + path)[..|SshPrefix|] == SshPrefix;
    assert (HttpsPrefix + path + GitSuffix)[..|HttpsPrefix|] == HttpsPrefix;
    assert (HttpsPrefix + path)[..|HttpsPrefix|] == HttpsPrefix;
    assert (SshPrefix + path + GitSuffix)[0] == 'g';
    assert (SshPrefix + path)[0] == 'g';
  }

  /** The as-written rewrite sends the push for `octo/octo.github.io` to `octo/octohub.io`. */
  lemma TokenRemotePagesCounterexample(token: string)
    ensures TokenRemoteAsWritten(token, SshPrefix + PagesPath + GitSuffix) == Some(TokenUrl(token, "octo/octohub.io"))
    ensures TokenRemote(token, SshPrefix + PagesPath + GitSuffix) == Some(TokenUrl(token, PagesPath))
  {
    var url := SshPrefix + PagesPath + GitSuffix;
    var rest := PagesPath + GitSuffix;
    assert url == SshPrefix + rest;
    assert url[..|SshPrefix|] == SshPrefix;
    assert ':' !in rest;
    forall j | 0 <= j && j + 15 <= |rest| ensures !OccursAt(rest, SshPrefix, j) {
      assert rest[j + 14] != ':';
      assert rest[j..j + 15][14] == rest[j + 14];
    }
    assert url[..|SshPrefix|] == SshPrefix;
    assert url[|SshPrefix|..] == rest;
    RemoveAllAbsent(rest, SshPrefix);
    assert RemoveAll(url, SshPrefix) == rest;
    PagesSegmentRemoval();
    TokenRemoteForms(token, PagesPath);
  }

  /** `git@github.com:` ends in a colon, so it cannot occur in a text without one. */
  lemma SshPrefixAbsent(rest: string)
    requires ':' !in rest
    ensures !Contains(rest, SshPrefix)
  {
    forall j ensures !OccursAt(rest, SshPrefix, j) {
      if 0 <= j && j + 15 <= |rest| {
        assert rest[j..j + 15][14] == rest[j + 14];
      }
    }
  }

  /** `https://github.com/` holds `github.com/`, so it cannot occur in a text without that. */
  lemma HttpsPrefixAbsent(rest: string)
    requires !Contains(rest, "github.com/")
    ensures !Contains(rest, HttpsPrefix)
  {
    assert HttpsPrefix[8..19] == "github.com/";
    forall j ensures !OccursAt(rest, HttpsPrefix, j) {
      if 0 <= j && j + 19 <= |rest| {
        assert rest[j..j + 19][8..19] == rest[j + 8..j + 19];
        assert !OccursAt(rest, "github.com/", j + 8);
        assert rest[j..j + 19][8..19] != HttpsPrefix[8..19];
      }
    }
  }

  /** The as-written rewrite of an SSH remote deletes just the prefix and the trailing `.git` of a plain path. */
  lemma {:induction false} TokenRemoteAsWrittenSsh(token: string, path: string)
    requires !Contains(path, GitSuffix) && ':' !in path
    ensures TokenRemoteAsWritten(token, SshPrefix + path + GitSuffix) == Some(TokenUrl(token, path))
  {
    var rest := path + GitSuffix;
    var url := SshPrefix + rest;
    assert url == SshPrefix + path + GitSuffix;
    assert url[..|SshPrefix|] == SshPrefix && url[|SshPrefix|..] == rest;
    assert ':' !in rest;
    SshPrefixAbsent(rest);
    RemoveAllAbsent(rest, SshPrefix);
    assert RemoveAll(url, SshPrefix) == rest;
    RemoveAllSuffix(path);
  }

  /** The same for an HTTPS remote. */
  lemma {:induction false} TokenRemoteAsWrittenHttps(token: string, path: string)
    requires !Contains(path, GitSuffix) && !Contains(path, "github.com/")
    ensures TokenRemoteAsWritten(token, HttpsPrefix + path + GitSuffix) == Some(TokenUrl(token, path))
  {
    var rest := path + GitSuffix;
    var url := HttpsPrefix + rest;
    assert url == HttpsPrefix + path + GitSuffix;
    assert url[..|HttpsPrefix|] == HttpsPrefix && url[|HttpsPrefix|..] == rest;
    assert !StartsWith(url, SshPrefix) by {
      assert url[0] == 'h';
    }
    NoHostInSuffixed(path);
    HttpsPrefixAbsent(rest);
    RemoveAllAbsent(rest, HttpsPrefix);
    assert RemoveAll(url, HttpsPrefix) == rest;
    RemoveAllSuffix(path);
  }

  /** Where the repository path holds no `.git` of its own, the as-written rewrite sets the intended token URL. */
  lemma {:induction false} TokenRemoteAgreesOnPlainPaths(token: string, path: string)
    requires !Contains(path, GitSuffix)
    ensures ':' !in path ==>
              TokenRemoteAsWritten(token, SshPrefix + path + GitSuffix) == Some(TokenUrl(token, path)) == TokenRemote(token, SshPrefix + path + GitSuffix)
    ensures !Contains(path, "github.com/") ==>
              TokenRemoteAsWritten(token, HttpsPrefix + path + GitSuffix) == Some(TokenUrl(token, path)) == TokenRemote(token, HttpsPrefix + path + GitSuffix)
  {
    TokenRemoteForms(token, path);
    if ':' !in path {
      TokenRemoteAsWrittenSsh(token, path);
    }
    if !Contains(path, "github.com/") {
      TokenRemoteAsWrittenHttps(token, path);
    }
  }

  /**
   * `_configure_git_auth`: without a non-empty token it raises before the
   * remote is read; with one, the URL to set for `origin` (`None`: nothing
   * is set, also when `git remote get-url` fails and only a warning is
   * printed).
   */
  function ConfigureGitAuth(token: Option<string>, remote: Option<string>): (r: Result<Option<string>, Error>)
    ensures r.Err? <==> token.None? || token.value == ""
    ensures r.Err? ==> r.error == ValueError(NoToken)
    ensures r.Ok? ==> (remote.None? ==> r.value.None?) && (remote.Some? ==> r.value == TokenRemote(token.value, Strip(remote.value)))
  {
    if token.None? || token.value == "" then Err(ValueError(NoToken))
    else
      match remote
      case None => Ok(None)
      case Some(out) => Ok(TokenRemote(token.value, Strip(out)))
  }

  // ---------------------------------------------------------------------
  // Pull request text
  // ---------------------------------------------------------------------

  /** What `create_pull` is asked to open. */
  datatype PullRequest = PullRequest(title: string, body: string, head: string, base: string)

  /** The git and GitHub requests `create_pull_request` makes when it gets that far. */
  datatype PublishPlan = PublishPlan(setRemote: Option<string>, request: PullRequest)

  const PrFooter := "\n\n\U{1F916} Generated with [Claude Code](https://claude.ai/code)\n\nCo-Authored-By: Claude <noreply@anthropic.com>"

  /** `Fix issue #<n>: <title>`. */
  function PrTitle(issue: Issue): (r: string)
    ensures StartsWith(r, "Fix issue #" + Decimal(issue.number) + ": ")
    ensures EndsWith(r, issue.title)
    ensures |r| == |"Fix issue #" + Decimal(issue.number) + ": "| + |issue.title|
  {
    "Fix issue #" + Decimal(issue.number) + (": " + issue.title)
  }

  /** The title names the issue: different issue numbers or titles give different titles. */
  lemma PrTitleNamesIssue(a: Issue, b: Issue)
    requires PrTitle(a) == PrTitle(b)
    ensures a.number == b.number && a.title == b.title
  {
    NumberThenDelimiter("Fix issue #", a.number, ": " + a.title, b.number, ": " + b.title);
    assert (": " + a.title)[2..] == a.title;
  }

  /** The `## Changes Made` section with the change summary, and the heading of the issue text after it. */
  function ChangesMade(changes: string): string {
    "\n\n## Changes Made\n" + changes + "\n\n## Issue Description\n"
  }

  /**
   * The pull request body: the closing reference `Fixes #<n>`, then the
   * change summary under `## Changes Made`, then at most 500 characters of
   * the issue text under `## Issue Description`, then the footer, and
   * nothing else.
   */
  function PrBody(issue: Issue, changes: string): (r: string)
    ensures StartsWith(r, "Fixes #" + Decimal(issue.number) + "\n")
    ensures OccursAt(r, ChangesMade(changes), |"Fixes #" + Decimal(issue.number)|)
    ensures EndsWith(r, Truncate(issue.body, 500) + PrFooter)
    ensures |r| == |"Fixes #" + Decimal(issue.number)| + |ChangesMade(changes)| + |Truncate(issue.body, 500) + PrFooter|
  {
    var number := "Fixes #" + Decimal(issue.number);
    var after := PrBodyAfterNumber(issue, changes);
    Layout(number, [], ChangesMade(changes), Truncate(issue.body, 500) + PrFooter);
    assert [] + ChangesMade(changes) == ChangesMade(changes);
    StartsWithFirstOf(number, after);
    assert [after[0]] == "\n";
    number + after
  }

  /** Everything in the body after the issue number. */
  function PrBodyAfterNumber(issue: Issue, changes: string): (r: string)
    ensures r != [] && r[0] == '\n'
    ensures EndsWith(r, Truncate(issue.body, 500) + PrFooter)
  {
    ChangesMade(changes) + (Truncate(issue.body, 500) + PrFooter)
  }

  /** The body closes the issue it was written for. */
  lemma PrBodyNamesIssue(a: Issue, ca: string, b: Issue, cb: string)
    requires PrBody(a, ca) == PrBody(b, cb)
    ensures a.number == b.number
  {
    NumberThenDelimiter("Fixes #", a.number, PrBodyAfterNumber(a, ca), b.number, PrBodyAfterNumber(b, cb));
  }

  /**
   * `create_pull_request`: configure the token remote, push the branch
   * (`pushError` is the text of git's failure, if it failed) and ask for a
   * pull request from the branch into `main`.
   */
  function CreatePullRequest(branch: string, issue: Issue, changes: string,
                             token: Option<string>, remote: Option<string>, pushError: Option<string>): (r: Result<PublishPlan, Error>)
    ensures token.None? || token.value == "" ==> r == Err(ValueError(NoToken))
    ensures r.Ok? <==> ConfigureGitAuth(token, remote).Ok? && pushError.None?
    ensures r.Ok? ==> pushError.None? && r.value.request == PullRequest(PrTitle(issue), PrBody(issue, changes), branch, "main")
    ensures r.Ok? ==> r.value.setRemote == ConfigureGitAuth(token, remote).value
    ensures ConfigureGitAuth(token, remote).Ok? && pushError.Some? ==>
              r == Err(RuntimeError("Failed to push branch " + branch + ". Make sure your GitHub token has push permissions: " + pushError.value))
  {
    match ConfigureGitAuth(token, remote)
    case Err(e) => Err(e)
    case Ok(setRemote) =>
      if pushError.Some? then
        Err(RuntimeError("Failed to push branch " + branch + ". Make sure your GitHub token has push permissions: " + pushError.value))
      else
        Ok(PublishPlan(setRemote, PullRequest(PrTitle(issue), PrBody(issue, changes), branch, "main")))
  }

  // ---------------------------------------------------------------------
  // The client object
  // ---------------------------------------------------------------------

  /** The client: its token and the repository it resolved from `origin`. */
  class GitHubClient {
    const token: string
    var repo: Option<string>  // the `owner/name` handed to `get_repo`; None until resolved

    constructor (token: string)
      ensures this.token == token && repo == None
    {
      this.token := token;
      repo := None;
    }

    /**
     * `GitHubClient(token)`: the client is built and `_setup_repo` runs at
     * once, so an exception there means no client is returned.
     */
    static method Create(token: string, remote: Option<string>) returns (r: Result<GitHubClient, Error>)
      ensures r.Ok? <==> RepoFromRemote(remote).Ok?
      ensures r.Ok? ==> fresh(r.value) && r.value.token == token && r.value.repo == Some(RepoFromRemote(remote).value)
      ensures r.Err? ==> r.error == RepoFromRemote(remote).error
    {
      var client := new GitHubClient(token);
      var err := client.SetupRepo(remote);
      match err
      case Some(e) =>
        r := Err(e);
      case None =>
        r := Ok(client);
    }

    /**
     * `_setup_repo`, given the output of `git remote get-url origin`
     * (`None` when git exits non-zero): resolve the repository, or report
     * the exception and leave `repo` as it was.
     */
    method SetupRepo(remote: Option<string>) returns (err: Option<Error>)
      modifies this
      ensures RepoFromRemote(remote).Ok? ==> repo == Some(RepoFromRemote(remote).value) && err == None
      ensures RepoFromRemote(remote).Err? ==> repo == old(repo) && err == Some(RepoFromRemote(remote).error)
      ensures remote.None? ==> err == Some(ValueError(NoRemote))
    {
      match RepoFromRemote(remote)
      case Ok(path) =>
        repo := Some(path);
        err := None;
      case Err(e) =>
        err := Some(e);
    }

    /** `get_open_issues` over the entries the API listed: the issues that are not pull requests, in order. */
    method GetOpenIssues(listed: seq<ApiIssue>) returns (issues: seq<Issue>)
      ensures issues == OpenIssues(listed)
    {
      issues := [];
      for k := 0 to |listed|
        invariant issues == OpenIssues(listed[..k])
      {
        if !listed[k].pullRequest {
          issues := issues + [ToIssue(listed[k])];
        }
        assert listed[..k + 1] == listed[..k] + [listed[k]];
        OpenIssuesAppend(listed[..k], [listed[k]]);
      }
      assert listed[..|listed|] == listed;
    }
  }
}
