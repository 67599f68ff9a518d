/** The legacy rules repository cache (scripts/lib/repo.js): the cache folder is
    named `owner-repo` after the repository URL, and the clone-or-pull step is
    the one `CacheFolder` models. */
module LegacyRepo {
  import opened Wrappers
  import opened Strings
  import opened FileTree
  import opened CacheFolder
  import LegacyConfig

  /** `CACHE_DIR_NAME`: `.heymark/cache`, the same folder the current CLI uses. */
  const CACHE_DIR_NAME: Path := CACHE_BASE

  const GITHUB_HOST: string := "github.com"

  // ---------------------------------------------------------------------
  // sanitizeRepoName
  // ---------------------------------------------------------------------

  /** The end of the run of non-`/` characters that starts at `i`. */
  function RunEnd(s: string, i: nat): (j: nat)
    requires i <= |s|
    ensures i <= j <= |s|
    ensures forall k :: i <= k < j ==> s[k] != '/'
    ensures j < |s| ==> s[j] == '/'
    decreases |s| - i
  {
    if i == |s| || s[i] == '/' then i else RunEnd(s, i + 1)
  }

  /** `([^/]+\/[^/]+?)(?:\/|$)` tried at position `i`: a non-empty run, a `/`,
      and a non-empty run up to the next `/` or the end. The lazy second run
      still reaches the next `/`, since it may only stop in front of one. */
  function PairAt(s: string, i: nat): (r: Option<(string, string)>)
    requires i <= |s|
    ensures r.Some? ==> r.value.0 != [] && r.value.1 != [] && '/' !in r.value.0 && '/' !in r.value.1
  {
    var j := RunEnd(s, i);
    if i < j && j < |s| then
      var k := RunEnd(s, j + 1);
      if j + 1 < k then Some((s[i..j], s[j + 1..k])) else None
    else None
  }

  /** The leftmost match of the fallback pattern at or after `i`. */
  function FirstPair(s: string, i: nat): (r: Option<(string, string)>)
    requires i <= |s|
    ensures r.Some? ==> r.value.0 != [] && r.value.1 != [] && '/' !in r.value.0 && '/' !in r.value.1
    decreases |s| - i
  {
    if i == |s| then None
    else if PairAt(s, i).Some? then PairAt(s, i)
    else FirstPair(s, i + 1)
  }

  /** `github\.com[:/]` matches at position `i`. */
  predicate GithubAt(s: string, i: nat) {
    i + 11 <= |s| && s[i..i + 10] == GITHUB_HOST && (s[i + 10] == ':' || s[i + 10] == '/')
  }

  /** The leftmost match of `github\.com[:/]([^/]+\/[^/]+?)(?:\/|$)` at or after `i`. */
  function FirstGithubPair(s: string, i: nat): (r: Option<(string, string)>)
    requires i <= |s|
    ensures r.Some? ==> r.value.0 != [] && r.value.1 != [] && '/' !in r.value.0 && '/' !in r.value.1
    decreases |s| - i
  {
    if i == |s| then None
    else if GithubAt(s, i) && PairAt(s, i + 11).Some? then PairAt(s, i + 11)
    else FirstGithubPair(s, i + 1)
  }

  predicate SafeChar(c: char) {
    'a' <= c <= 'z' || 'A' <= c <= 'Z' || '0' <= c <= '9' || c == '.' || c == '_' || c == '-'
  }

  /** `s.replace(/[^a-zA-Z0-9._-]/g, "-")`. */
  function ReplaceUnsafe(s: string): (r: string)
    ensures |r| == |s|
    ensures forall i :: 0 <= i < |s| ==> r[i] == if SafeChar(s[i]) then s[i] else '-'
    ensures '/' !in r
  {
    var r := seq(|s|, i requires 0 <= i < |s| => if SafeChar(s[i]) then s[i] else '-');
    assert forall i :: 0 <= i < |r| ==> r[i] != '/';
    r
  }

  /** `a-b` from two parts without `/` is non-empty and holds no `/`. */
  lemma DashJoined(a: string, b: string)
    requires '/' !in a && '/' !in b
    ensures var r := a + "-" + b; r != [] && '/' !in r
  {
    var r := a + "-" + b;
    assert r[|a|] == '-';
    forall k | 0 <= k < |r| ensures r[k] != '/' {
      if k < |a| { assert r[k] == a[k]; }
      else if k > |a| { assert r[k] == b[k - |a| - 1]; }
    }
  }

  /** `sanitizeRepoName`: `owner-repo` from a GitHub URL, else from the first
      `a/b` pair, else the whole trimmed URL with unsafe characters replaced. */
  function SanitizeRepoName(url: string): (r: string)
    ensures r != [] && '/' !in r
  {
    var t := Trim(url);
    var s := StripGitSuffix(t);
    match FirstGithubPair(s, 0)
    case Some(pair) => DashJoined(pair.0, pair.1); pair.0 + "-" + pair.1
    case None =>
      match FirstPair(s, 0)
      case Some(pair) => DashJoined(pair.0, pair.1); pair.0 + "-" + pair.1
      case None => if s == [] then "repo" else ReplaceUnsafe(s)
  }

  /** A run that ends at `j`. */
  lemma {:induction false} RunEndIs(s: string, i: nat, j: nat)
    requires i <= j <= |s|
    requires forall k :: i <= k < j ==> s[k] != '/'
    requires j == |s| || s[j] == '/'
    ensures RunEnd(s, i) == j
    decreases j - i
  {
    if i < j {
      RunEndIs(s, i + 1, j);
    }
  }

  /** `owner/repo` written out at position `i`, up to the end of the text. */
  lemma PairAtEnd(s: string, i: nat, owner: string, repo: string)
    requires owner != [] && repo != [] && '/' !in owner && '/' !in repo
    requires i + |owner| + 1 + |repo| == |s| && s[i..] == owner + "/" + repo
    ensures PairAt(s, i) == Some((owner, repo))
  {
    var j := i + |owner|;
    forall k | i <= k < j ensures s[k] != '/' {
      assert s[k] == s[i..][k - i] == owner[k - i];
    }
    assert s[j] == s[i..][|owner|] == '/';
    RunEndIs(s, i, j);
    forall k | j + 1 <= k < |s| ensures s[k] != '/' {
      assert s[k] == s[i..][k - i] == repo[k - j - 1];
    }
    RunEndIs(s, j + 1, |s|);
    assert s[i..j] == s[i..][..|owner|] == owner;
    assert s[j + 1..] == s[i..][|owner| + 1..] == repo;
    assert s[j + 1..|s|] == s[j + 1..];
  }

  /** Positions where the host cannot start are skipped. */
  lemma {:induction false} SkipToGithub(s: string, i: nat, j: nat)
    requires i <= j < |s|
    requires forall k :: i <= k < j ==> !GithubAt(s, k)
    ensures FirstGithubPair(s, i) == FirstGithubPair(s, j)
    decreases j - i
  {
    if i < j {
      SkipToGithub(s, i + 1, j);
    }
  }

  /** No position of `scheme` can start `github.com`: it holds no `g`, or
      holds something other than `h` three places after each `g`. */
  predicate NoHostIn(scheme: string) {
    forall k :: 0 <= k < |scheme| ==> scheme[k] != 'g' || (k + 3 < |scheme| && scheme[k + 3] != 'h')
  }

  /** No match of the host starts inside a scheme that cannot spell it. */
  lemma NoHostAt(s: string, scheme: string, k: nat)
    requires NoHostIn(scheme) && |scheme| + 10 <= |s| && s[..|scheme|] == scheme && k < |scheme|
    requires s[|scheme|..|scheme| + 10] == GITHUB_HOST
    ensures !GithubAt(s, k)
  {
    var h := |scheme|;
    assert s[k] == scheme[k];
    assert s[k..k + 10][0] == s[k] && s[k..k + 10][3] == s[k + 3];
    if k + 3 < h {
      assert s[k + 3] == scheme[k + 3];
    } else {
      assert s[k + 3] == s[h..h + 10][k + 3 - h];
    }
  }

  /** A GitHub URL `<scheme><host><sep><owner>/<repo>` names the cache folder `owner-repo`. */
  lemma GithubPairOf(s: string, scheme: string, sep: char, owner: string, repo: string)
    requires sep == ':' || sep == '/'
    requires NoHostIn(scheme)
    requires owner != [] && repo != [] && '/' !in owner && '/' !in repo
    requires s == scheme + GITHUB_HOST + [sep] + owner + "/" + repo
    ensures FirstGithubPair(s, 0) == Some((owner, repo))
  {
    var h := |scheme|;
    assert s[..h] == scheme;
    forall k | 0 <= k < h ensures !GithubAt(s, k) {
      NoHostAt(s, scheme, k);
    }
    SkipToGithub(s, 0, h);
    assert s[h..h + 10] == GITHUB_HOST;
    assert s[h + 10] == sep;
    assert s[h + 11..] == owner + "/" + repo;
    PairAtEnd(s, h + 11, owner, repo);
  }

  /** The trimmed URL without its `.git` is the bare `<...>/<repo>`, whether or
      not the URL carried the suffix. */
  lemma StrippedUrl(base: string, repo: string, suffix: string)
    requires suffix == "" || suffix == ".git"
    requires repo != [] && '/' !in repo && !EndsWith(repo, ".git")
    requires |base| > |repo| && base[|base| - |repo| - 1..] == "/" + repo
    requires Trimmed(base + suffix)
    ensures StripGitSuffix(Trim(base + suffix)) == base
  {
    TrimOfTrimmed(base + suffix);
    if suffix == "" {
      assert base + suffix == base;
      if |base| >= 4 {
        if |repo| >= 4 {
          assert repo[|repo| - 4..] == base[|base| - 4..];
        } else {
          var slash := |base| - |repo| - 1;
          assert base[slash] == base[|base| - |repo| - 1..][0] == '/';
          assert base[|base| - 4..][slash - (|base| - 4)] == '/';
        }
      }
    } else {
      assert (base + suffix)[..|base + suffix| - 4] == base;
    }
  }

  function GithubUrl(scheme: string, sep: char, owner: string, repo: string): string {
    scheme + GITHUB_HOST + [sep] + owner + "/" + repo
  }

  /** `<scheme>github.com<sep><owner>/<repo><suffix>` gives `owner-repo`. */
  lemma SanitizeGithubForm(scheme: string, sep: char, owner: string, repo: string, suffix: string)
    requires sep == ':' || sep == '/'
    requires scheme != [] && !IsSpace(scheme[0]) && NoHostIn(scheme)
    requires suffix == "" || suffix == ".git"
    requires owner != [] && repo != [] && '/' !in owner && '/' !in repo
    requires !EndsWith(repo, ".git") && !IsSpace(repo[|repo| - 1])
    ensures SanitizeRepoName(GithubUrl(scheme, sep, owner, repo) + suffix) == owner + "-" + repo
  {
    var base := GithubUrl(scheme, sep, owner, repo);
    assert base[|base| - |repo| - 1..] == "/" + repo;
    assert Trimmed(base + suffix) by {
      assert (base + suffix)[0] == scheme[0];
      if suffix == "" {
        assert (base + suffix)[|base + suffix| - 1] == repo[|repo| - 1];
      }
    }
    StrippedUrl(base, repo, suffix);
    GithubPairOf(base, scheme, sep, owner, repo);
  }

  lemma HttpsSpelling(owner: string, repo: string)
    ensures "https://github.com/" + owner + "/" + repo == GithubUrl("https://", '/', owner, repo)
  {
  }

  lemma SshSpelling(owner: string, repo: string)
    ensures "git@github.com:" + owner + "/" + repo == GithubUrl("git@", ':', owner, repo)
  {
  }

  /** `https://github.com/org/repo`, as the sanitiser documents, gives `org-repo`, with or without `.git`. */
  lemma SanitizeHttpsUrl(owner: string, repo: string)
    requires owner != [] && repo != [] && '/' !in owner && '/' !in repo
    requires !EndsWith(repo, ".git") && !IsSpace(repo[|repo| - 1])
    ensures SanitizeRepoName("https://github.com/" + owner + "/" + repo) == owner + "-" + repo
    ensures SanitizeRepoName("https://github.com/" + owner + "/" + repo + ".git") == owner + "-" + repo
  {
    HttpsSpelling(owner, repo);
    var url := GithubUrl("https://", '/', owner, repo);
    assert url + "" == url;
    SanitizeGithubForm("https://", '/', owner, repo, "");
    SanitizeGithubForm("https://", '/', owner, repo, ".git");
  }

  /** `git@github.com:org/repo.git`, as the sanitiser documents, gives `org-repo`, with or without `.git`. */
  lemma SanitizeSshUrl(owner: string, repo: string)
    requires owner != [] && repo != [] && '/' !in owner && '/' !in repo
    requires !EndsWith(repo, ".git") && !IsSpace(repo[|repo| - 1])
    ensures SanitizeRepoName("git@github.com:" + owner + "/" + repo) == owner + "-" + repo
    ensures SanitizeRepoName("git@github.com:" + owner + "/" + repo + ".git") == owner + "-" + repo
  {
    SshSpelling(owner, repo);
    var url := GithubUrl("git@", ':', owner, repo);
    assert url + "" == url;
    SanitizeGithubForm("git@", ':', owner, repo, "");
    SanitizeGithubForm("git@", ':', owner, repo, ".git");
  }

  /** Unlike the current CLI's clone folder, the legacy one keeps the owner:
      the same repository name under two owners gets two folders. */
  lemma SanitizeKeepsOwner(owner1: string, owner2: string, repo: string)
    requires owner1 != owner2
    requires owner1 != [] && owner2 != [] && repo != [] && '/' !in owner1 && '/' !in owner2 && '/' !in repo
    requires !EndsWith(repo, ".git") && !IsSpace(repo[|repo| - 1])
    ensures SanitizeRepoName("https://github.com/" + owner1 + "/" + repo)
         != SanitizeRepoName("https://github.com/" + owner2 + "/" + repo)
  {
    SanitizeHttpsUrl(owner1, repo);
    SanitizeHttpsUrl(owner2, repo);
    OwnerDashRepoInjective(owner1, owner2, repo);
  }

  lemma OwnerDashRepoInjective(owner1: string, owner2: string, repo: string)
    requires '/' !in owner1 && '/' !in owner2 && owner1 != owner2
    ensures owner1 + "-" + repo != owner2 + "-" + repo
  {
    var a, b := owner1 + "-" + repo, owner2 + "-" + repo;
    if |owner1| == |owner2| {
      assert a[..|owner1|] == owner1 && b[..|owner2|] == owner2;
    } else {
      assert |a| != |b|;
    }
  }

  /** Without a `/` neither pattern matches anywhere. */
  lemma {:induction false} NoPairWithoutSlash(s: string, i: nat)
    requires i <= |s| && '/' !in s
    ensures FirstPair(s, i) == None && FirstGithubPair(s, i) == None
    decreases |s| - i
  {
    if i < |s| {
      assert RunEnd(s, i) == |s|;
      NoPairWithoutSlash(s, i + 1);
    }
  }

  /** A URL without `/` names the folder after the whole trimmed text, `.git`
      dropped and unsafe characters replaced, or `repo` when nothing is left. */
  lemma SanitizeWithoutSlash(url: string)
    requires '/' !in url
    ensures var s := StripGitSuffix(Trim(url));
      SanitizeRepoName(url) == if s == [] then "repo" else ReplaceUnsafe(s)
  {
    var lead, trail := TrimSplit(url);
    var t := Trim(url);
    assert forall k :: 0 <= k < |t| ==> t[k] == url[|lead| + k];
    var s := StripGitSuffix(t);
    assert forall k :: 0 <= k < |s| ==> s[k] == t[k];
    NoPairWithoutSlash(s, 0);
  }

  /** No position starts a `github.com` match: the GitHub pattern fails. */
  lemma {:induction false} NoGithubPair(s: string, i: nat)
    requires i <= |s| && forall k :: i <= k < |s| ==> !GithubAt(s, k)
    ensures FirstGithubPair(s, i) == None
    decreases |s| - i
  {
    if i < |s| {
      NoGithubPair(s, i + 1);
    }
  }

  /** On another host, `host/owner/repo` names the folder `host-owner`: the
      fallback pattern takes the first pair, so two repositories of one owner
      there share a cache folder. */
  lemma SanitizeOtherHost(host: string, owner: string, repo: string)
    requires host != [] && owner != [] && repo != []
    requires '/' !in host && '/' !in owner && '/' !in repo
    requires var s := host + "/" + owner + "/" + repo;
      Trimmed(s) && !EndsWith(s, ".git") && forall k :: 0 <= k < |s| ==> !GithubAt(s, k)
    ensures SanitizeRepoName(host + "/" + owner + "/" + repo) == host + "-" + owner
  {
    var s := host + "/" + owner + "/" + repo;
    TrimOfTrimmed(s);
    NoGithubPair(s, 0);
    var j := |host|;
    var k := j + 1 + |owner|;
    forall m | 0 <= m < j ensures s[m] != '/' {
      assert s[m] == host[m];
    }
    assert s[j] == '/';
    RunEndIs(s, 0, j);
    forall m | j + 1 <= m < k ensures s[m] != '/' {
      assert s[m] == owner[m - j - 1];
    }
    assert s[k] == '/';
    RunEndIs(s, j + 1, k);
    assert s[0..j] == host && s[j + 1..k] == owner;
    assert PairAt(s, 0) == Some((host, owner));
  }

  // ---------------------------------------------------------------------
  // getRulesDirFromRepo
  // ---------------------------------------------------------------------

  datatype RepoError = RepoCloneFailed | RulesDirNotFound(subDir: string)

  /** `path.join(cacheBase, repoName)`. */
  function RepoClone(url: string): (p: Path)
    ensures Under(CACHE_DIR_NAME, p)
  {
    CACHE_DIR_NAME + Segments(SanitizeRepoName(url))
  }

  /** `config.branch || "main"`; an absent branch is modelled as `""`. */
  function RepoBranch(c: LegacyConfig.RuleBookConfig): (b: string)
    ensures b != [] && (c.branch != [] ==> b == c.branch)
  {
    if c.branch != [] then c.branch else LegacyConfig.DEFAULT_BRANCH
  }

  function RepoOutcome(t: Tree, c: LegacyConfig.RuleBookConfig, git: Git): GitOutcome {
    git(Request(t, RepoClone(c.rulesSource), c.rulesSource, RepoBranch(c)))
  }

  function RepoTree(t: Tree, c: LegacyConfig.RuleBookConfig, git: Git): Tree {
    Fetch(t, CACHE_DIR_NAME, RepoClone(c.rulesSource), RepoOutcome(t, c, git))
  }

  /** What `getRulesDirFromRepo` returns: the rules folder, which is a folder
      inside the clone, or why the command stops. */
  function RepoResult(t: Tree, c: LegacyConfig.RuleBookConfig, git: Git): (r: Result<Path, RepoError>)
    ensures r == Failure(RepoCloneFailed) <==> CloneFails(t, RepoClone(c.rulesSource), RepoOutcome(t, c, git))
    ensures r.Failure? && r.error.RulesDirNotFound? ==> r.error.subDir == c.rulesSourceDir
    ensures r.Success? ==>
              && r.value == SkillsFolder(RepoClone(c.rulesSource), c.rulesSourceDir)
              && Under(RepoClone(c.rulesSource), r.value)
              && r.value in RepoTree(t, c, git) && RepoTree(t, c, git)[r.value].Dir?
  {
    var clone := RepoClone(c.rulesSource);
    if CloneFails(t, clone, RepoOutcome(t, c, git)) then Failure(RepoCloneFailed)
    else
      var dir := SkillsFolder(clone, c.rulesSourceDir);
      var u := RepoTree(t, c, git);
      if dir in u && u[dir].Dir? then Success(dir) else Failure(RulesDirNotFound(c.rulesSourceDir))
  }

  /** `getRulesDirFromRepo`. */
  method GetRulesDirFromRepo(fs: FileSystem, c: LegacyConfig.RuleBookConfig, git: Git) returns (r: Result<Path, RepoError>)
    modifies fs
    ensures fs.tree == RepoTree(old(fs.tree), c, git)
    ensures r == RepoResult(old(fs.tree), c, git)
  {
    var branch := RepoBranch(c);
    var clone := RepoClone(c.rulesSource);
    var ok := CloneOrPull(fs, CACHE_DIR_NAME, clone, c.rulesSource, branch, git);
    if !ok {
      return Failure(RepoCloneFailed);
    }
    var dir := SkillsFolder(clone, c.rulesSourceDir);
    if !fs.IsDir(dir) {
      return Failure(RulesDirNotFound(c.rulesSourceDir));
    }
    r := Success(dir);
  }

  /** With no sub-folder configured and a clone that succeeds, the rules folder is the clone. */
  lemma FreshCloneIsRulesDir(t: Tree, c: LegacyConfig.RuleBookConfig, git: Git)
    requires c.rulesSourceDir == [] && RepoClone(c.rulesSource) !in t
    requires RepoOutcome(t, c, git).Fetched?
    ensures RepoResult(t, c, git) == Success(RepoClone(c.rulesSource))
  {
    var clone := RepoClone(c.rulesSource);
    var made := Mkdirs(Mkdirs(t, CACHE_DIR_NAME), clone);
    assert clone[..|clone|] == clone;
    assert clone in made && made[clone] == Dir;
  }
}
