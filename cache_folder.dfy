/** The local clone of the linked skill repository (src/skill-repo/cache-folder.js):
    where it lives, how `git clone` and `git pull` change it, and how the
    skills are read out of it. Git is an oracle: it answers each request
    with the repository's files, or fails. */
module CacheFolder {
  import opened Wrappers
  import opened Strings
  import opened FileTree
  import opened SkillFileParser
  import ConfigFile

  /** `.heymark/cache`, relative to the project root. */
  const CACHE_BASE: Path := [ConfigFile.HEYMARK_DIR, ConfigFile.CACHE_DIR]

  /** What the CLI asks git to do. */
  datatype GitRequest =
    | Clone(url: string, branch: string, dir: Path)  // git clone --depth 1 --branch <branch> <url> <dir>
    | Pull(dir: Path, branch: string)                // git fetch, checkout ., pull origin <branch>

  /** The files of the requested branch, relative to the clone folder, or a failure. */
  datatype GitOutcome = Fetched(snapshot: Tree) | FetchFailed

  type Git = GitRequest -> GitOutcome

  // ---------------------------------------------------------------------
  // Where the clone lives
  // ---------------------------------------------------------------------

  /** `name.endsWith(".git") ? name.slice(0, -4) : name`. */
  function StripGitSuffix(name: string): string {
    if EndsWith(name, ".git") then name[..|name| - 4] else name
  }

  /** The folder name `getCloneFolderPath` derives: the last `/` piece of the
      trimmed URL (`repo` when that is empty), without one trailing `.git`. */
  function CloneDirName(repoUrl: string): (r: string)
    ensures '/' !in r
  {
    var pieces := Split(Trim(repoUrl), '/');
    var last := pieces[|pieces| - 1];
    StripGitSuffix(if last == "" then "repo" else last)
  }

  /** `path.join(cwd, ".heymark", "cache", dirName)`. */
  function CloneFolder(repoUrl: string): (p: Path)
    ensures Under(CACHE_BASE, p) && |p| <= |CACHE_BASE| + 1
  {
    var seg := Segments(CloneDirName(repoUrl));
    assert |seg| <= 1 by {
      CloneDirNameOneSegment(CloneDirName(repoUrl));
    }
    CACHE_BASE + seg
  }

  /** A name without `/` is at most one path segment. */
  lemma CloneDirNameOneSegment(name: string)
    requires '/' !in name
    ensures |Segments(name)| <= 1
  {
    assert IndexOf(name, '/') == -1;
    assert Split(name, '/') == [name];
    assert [name][1..] == [] && Keep([]) == [];
  }

  /** The name taken from a URL whose last `/` piece is `name`. */
  lemma CloneDirNameOfLastPiece(prefix: string, name: string)
    requires '/' !in name && Trimmed(prefix + "/" + name)
    ensures CloneDirName(prefix + "/" + name) == StripGitSuffix(if name == "" then "repo" else name)
  {
    var url := prefix + "/" + name;
    TrimOfTrimmed(url);
    assert Trim(url) == url;
    assert url == prefix + ['/'] + name;
    LastPiece(prefix, name, '/');
    var pieces := Split(url, '/');
    assert pieces[|pieces| - 1] == name;
  }

  /** The clone folder is named after the repository alone: the same repository
      name under two owners, or on two hosts, shares one clone folder. */
  lemma CloneFolderIgnoresOwner(owner1: string, owner2: string, name: string)
    requires '/' !in name
    requires Trimmed(owner1 + "/" + name) && Trimmed(owner2 + "/" + name)
    ensures CloneFolder(owner1 + "/" + name) == CloneFolder(owner2 + "/" + name)
  {
    CloneDirNameOfLastPiece(owner1, name);
    CloneDirNameOfLastPiece(owner2, name);
  }

  /** Both spellings of a URL, with and without `.git`, share a clone folder. */
  lemma CloneFolderDropsGitSuffix(prefix: string, name: string)
    requires '/' !in name && name != [] && !EndsWith(name, ".git")
    requires Trimmed(prefix + "/" + name) && Trimmed(prefix + "/" + (name + ".git"))
    ensures CloneFolder(prefix + "/" + (name + ".git")) == CloneFolder(prefix + "/" + name)
  {
    CloneDirNameOfLastPiece(prefix, name);
    CloneDirNameOfLastPiece(prefix, name + ".git");
    assert (name + ".git")[..|name + ".git"| - 4] == name;
  }

  /** A URL ending in a bare `.git` piece clones into the cache folder itself. */
  lemma BareGitPieceIsCacheBase(prefix: string)
    requires Trimmed(prefix + "/" + ".git")
    ensures CloneFolder(prefix + "/" + ".git") == CACHE_BASE
  {
    CloneDirNameOfLastPiece(prefix, ".git");
    assert StripGitSuffix(".git") == "";
    assert Split("", '/') == [""];
  }

  // ---------------------------------------------------------------------
  // Clone or refresh
  // ---------------------------------------------------------------------

  /** The fetched files placed under `dir`; the snapshot's own root is `dir` itself. */
  function Graft(t: Tree, dir: Path, snapshot: Tree): (r: Tree)
    ensures forall p :: p in snapshot && p != [] ==> dir + p in r && r[dir + p] == snapshot[p]
    ensures forall q :: q in t && !(Under(dir, q) && q != dir) ==> q in r && r[q] == t[q]
    ensures forall q :: q in r ==> q in t || (Under(dir, q) && q != dir)
    ensures forall q :: q in r && q !in t && |dir| <= |q| ==> q[|dir|..] in snapshot
  {
    var keys := set p | p in snapshot && p != [] :: dir + p;
    var added := map q | q in keys && |dir| <= |q| && q[|dir|..] in snapshot :: snapshot[q[|dir|..]];
    assert forall q :: q in keys ==> Under(dir, q) && q != dir;
    assert forall p :: p in snapshot && p != [] ==> dir + p in keys && (dir + p)[|dir|..] == p;
    t + added
  }

  /** Everything strictly beneath `dir` goes; `dir` itself stays. */
  function ClearInside(t: Tree, dir: Path): (r: Tree)
    ensures forall q :: q in r <==> q in t && !(Under(dir, q) && q != dir)
    ensures forall q :: q in r ==> r[q] == t[q]
  {
    map q | q in t && !(Under(dir, q) && q != dir) :: t[q]
  }

  /** The request made for a clone folder: a clone when it is missing, a pull otherwise. */
  function Request(t: Tree, clone: Path, url: string, branch: string): GitRequest {
    if clone !in t then Clone(url, branch, clone) else Pull(clone, branch)
  }

  /** A missing clone folder cannot be filled in: the command stops. */
  predicate CloneFails(t: Tree, clone: Path, outcome: GitOutcome) {
    clone !in t && outcome.FetchFailed?
  }

  /** The tree after the clone-or-pull step. A failed clone leaves the cache
      base created; a failed pull, or a "clone folder" that is not a folder
      (so the pull cannot run in it), leaves the tree as it was. A pull
      replaces the folder's contents with the fetched branch. */
  function Fetch(t: Tree, base: Path, clone: Path, outcome: GitOutcome): Tree {
    if clone !in t then
      var withBase := Mkdirs(t, base);
      match outcome
      case Fetched(snapshot) => Graft(Mkdirs(withBase, clone), clone, snapshot)
      case FetchFailed => withBase
    else if t[clone].Dir? && outcome.Fetched? then
      Graft(ClearInside(t, clone), clone, outcome.snapshot)
    else t
  }

  /** The clone-or-pull step of `writeCache` (and of the legacy `getRulesDirFromRepo`). */
  method CloneOrPull(fs: FileSystem, base: Path, clone: Path, url: string, branch: string, git: Git)
    returns (ok: bool)
    modifies fs
    ensures ok <==> !CloneFails(old(fs.tree), clone, git(Request(old(fs.tree), clone, url, branch)))
    ensures fs.tree == Fetch(old(fs.tree), base, clone, git(Request(old(fs.tree), clone, url, branch)))
  {
    if !fs.Exists(clone) {
      fs.MkdirP(base);
      var outcome := git(Clone(url, branch, clone));
      if outcome.FetchFailed? {
        return false;
      }
      fs.MkdirP(clone);
      fs.tree := Graft(fs.tree, clone, outcome.snapshot);
    } else {
      var outcome := git(Pull(clone, branch));
      if fs.IsDir(clone) && outcome.Fetched? {
        fs.tree := Graft(ClearInside(fs.tree, clone), clone, outcome.snapshot);
      }
    }
    ok := true;
  }

  /** Nothing outside the clone folder changes, except the folders made on
      the way to it. */
  lemma FetchFrame(t: Tree, base: Path, clone: Path, outcome: GitOutcome, q: Path)
    requires Under(base, clone)
    requires q in t && !(Under(clone, q) && q != clone)
    ensures q in Fetch(t, base, clone, outcome) && Fetch(t, base, clone, outcome)[q] == t[q]
  {
  }

  /** Every entry the step adds is a folder on the way to the clone or lies inside it. */
  lemma FetchAddsOnlyAlongClone(t: Tree, base: Path, clone: Path, outcome: GitOutcome, q: Path)
    requires Under(base, clone)
    requires q in Fetch(t, base, clone, outcome) && q !in t
    ensures Under(q, clone) || Under(clone, q)
  {
    if clone !in t {
      var withBase := Mkdirs(t, base);
      if q in withBase {
        assert Under(q, base);
        assert clone[..|q|] == base[..|q|];
      }
    }
  }

  /** After a successful fetch the clone folder is a folder holding every fetched file. */
  lemma FetchedFilesPresent(t: Tree, base: Path, clone: Path, snapshot: Tree, p: Path)
    requires Under(base, clone) && clone != []
    requires clone !in t || t[clone].Dir?
    requires p in snapshot && p != []
    ensures var r := Fetch(t, base, clone, Fetched(snapshot));
      && clone in r && r[clone].Dir?
      && clone + p in r && r[clone + p] == snapshot[p]
  {
    if clone !in t {
      var withBase := Mkdirs(t, base);
      var made := Mkdirs(withBase, clone);
      assert clone[..|clone|] == clone;
      assert clone in made;
      if clone !in withBase {
        assert made[clone] == Dir;
      } else if clone !in t {
        assert withBase[clone] == Dir;
      }
    }
  }

  /** A pull leaves in the clone folder exactly the fetched files: files the
      branch no longer holds are gone. */
  lemma PullReplacesContents(t: Tree, base: Path, clone: Path, snapshot: Tree, p: Path)
    requires clone in t && t[clone].Dir? && p != []
    ensures clone + p in Fetch(t, base, clone, Fetched(snapshot)) <==> p in snapshot
  {
    assert Under(clone, clone + p) && (clone + p)[|clone|..] == p;
    assert clone + p !in ClearInside(t, clone);
  }

  /** Once a clone has succeeded, the next run pulls instead of cloning again. */
  lemma CloneThenPull(t: Tree, base: Path, clone: Path, url: string, branch: string, git: Git)
    requires Under(base, clone) && clone != []
    requires !CloneFails(t, clone, git(Request(t, clone, url, branch)))
    ensures Request(Fetch(t, base, clone, git(Request(t, clone, url, branch))), clone, url, branch) == Pull(clone, branch)
  {
    var r := Fetch(t, base, clone, git(Request(t, clone, url, branch)));
    if clone !in t {
      var made := Mkdirs(Mkdirs(t, base), clone);
      assert clone[..|clone|] == clone;
      assert clone in made;
    }
  }

  // ---------------------------------------------------------------------
  // writeCache and readCache
  // ---------------------------------------------------------------------

  datatype CacheError =
    | NotLinked                   // no usable .heymark/config.json
    | CloneFailed                 // git clone failed
    | FolderNotFound(folder: string)
    | SkillsUnreadable(error: ReadError)

  datatype CacheRead = CacheRead(config: ConfigFile.Config, skillsFolder: Path, skills: seq<Skill>)

  /** `config.branch || "main"`. */
  function CacheBranch(c: ConfigFile.Config): (b: string)
    ensures b != []
    ensures c.branch != [] ==> b == c.branch
  {
    if c.branch != [] then c.branch else ConfigFile.DEFAULT_BRANCH
  }

  /** The folder the skills are read from: the configured sub-folder of the clone, or the clone itself. */
  function SkillsFolder(clone: Path, folder: string): (p: Path)
    ensures Under(clone, p)
    ensures folder == [] ==> p == clone
  {
    if folder != [] then clone + Segments(folder) else clone
  }

  /** What git answers for the linked repository. */
  function CacheOutcome(t: Tree, c: ConfigFile.Config, git: Git): GitOutcome {
    git(Request(t, CloneFolder(c.repoUrl), c.repoUrl, CacheBranch(c)))
  }

  /** The tree after `writeCache`: unchanged when the project is not linked. */
  function CacheTree(t: Tree, git: Git): Tree {
    match ConfigFile.ReadConfig(t)
    case None => t
    case Some(c) => Fetch(t, CACHE_BASE, CloneFolder(c.repoUrl), CacheOutcome(t, c, git))
  }

  /** `fs.readdirSync(p)` may list the children of `p` in this order. */
  ghost predicate IsListing(t: Tree, p: Path, names: seq<string>) {
    (forall n :: n in names <==> n in Children(t, p)) && Distinct(names)
  }

  /** `names` is a listing `readCache` may see of the skills folder. */
  ghost predicate ListedAfter(t: Tree, git: Git, names: seq<string>) {
    match ConfigFile.ReadConfig(t)
    case None => names == []
    case Some(c) => IsListing(CacheTree(t, git), SkillsFolder(CloneFolder(c.repoUrl), c.folder), names)
  }

  /** The skills read from a folder, given one of its listings. */
  function SkillsAt(t: Tree, p: Path, names: seq<string>): Result<seq<Skill>, ReadError> {
    ReadSkillFiles(Some(names), FilesIn(t, p))
  }

  /** What `readCache` returns, given the listing it sees. */
  function CacheResult(t: Tree, git: Git, names: seq<string>): (r: Result<CacheRead, CacheError>)
    ensures r == Failure(NotLinked) <==> ConfigFile.ReadConfig(t).None?
    ensures r == Failure(CloneFailed) <==>
              ConfigFile.ReadConfig(t).Some?
              && CloneFails(t, CloneFolder(ConfigFile.ReadConfig(t).value.repoUrl),
                            CacheOutcome(t, ConfigFile.ReadConfig(t).value, git))
    ensures r.Failure? && r.error.FolderNotFound? ==>
              ConfigFile.ReadConfig(t).Some? && r.error.folder == ConfigFile.ReadConfig(t).value.folder
    ensures r.Success? ==>
              var c := ConfigFile.ReadConfig(t).value;
              && ConfigFile.ReadConfig(t).Some?
              && r.value.config == c
              && r.value.skillsFolder == SkillsFolder(CloneFolder(c.repoUrl), c.folder)
              && r.value.skillsFolder in CacheTree(t, git) && CacheTree(t, git)[r.value.skillsFolder].Dir?
              && SkillsAt(CacheTree(t, git), r.value.skillsFolder, names) == Success(r.value.skills)
  {
    match ConfigFile.ReadConfig(t)
    case None => Failure(NotLinked)
    case Some(c) =>
      var clone := CloneFolder(c.repoUrl);
      if CloneFails(t, clone, CacheOutcome(t, c, git)) then Failure(CloneFailed)
      else
        var folder := SkillsFolder(clone, c.folder);
        match FolderResult(CacheTree(t, git), folder, c.folder, names)
        case Failure(e) => Failure(e)
        case Success(skills) => Success(CacheRead(c, folder, skills))
  }

  /** The folder check and `readSkillFiles` at the end of `readCache`. */
  function FolderResult(u: Tree, folder: Path, configured: string, names: seq<string>): (r: Result<seq<Skill>, CacheError>)
    ensures r.Failure? ==> r.error.FolderNotFound? || r.error.SkillsUnreadable?
    ensures r.Failure? && r.error.FolderNotFound? ==> r.error.folder == configured && !(folder in u && u[folder].Dir?)
    ensures r.Success? ==> folder in u && u[folder].Dir? && SkillsAt(u, folder, names) == Success(r.value)
  {
    if !(folder in u && u[folder].Dir?) then Failure(FolderNotFound(configured))
    else
      match SkillsAt(u, folder, names)
      case Failure(e) => Failure(SkillsUnreadable(e))
      case Success(skills) => Success(skills)
  }

  /** The tail of `readCache`: is the skills folder a directory, and what do its files hold. */
  method ReadFolder(fs: FileSystem, folder: Path, configured: string) returns (r: Result<seq<Skill>, CacheError>)
    ensures exists names :: IsListing(fs.tree, folder, names) && r == FolderResult(fs.tree, folder, configured, names)
  {
    if !fs.IsDir(folder) {
      ghost var listed := fs.ReadDir(folder);
      assert IsListing(fs.tree, folder, listed);
      return Failure(FolderNotFound(configured));
    }
    var names := fs.ReadDir(folder);
    assert IsListing(fs.tree, folder, names);
    var skills := SkillsAt(fs.tree, folder, names);
    if skills.Failure? {
      return Failure(SkillsUnreadable(skills.error));
    }
    r := Success(skills.value);
  }

  /** Every listing of a folder yields the same skills. */
  lemma SkillsAtAnyListing(t: Tree, p: Path, l1: seq<string>, l2: seq<string>)
    requires IsListing(t, p, l1) && IsListing(t, p, l2)
    ensures SkillsAt(t, p, l1) == SkillsAt(t, p, l2)
  {
    DistinctSameElements(l1, l2);
    ReadSkillFilesOrderIndependent(l1, l2, FilesIn(t, p));
  }

  /** The order in which the filesystem lists the skills folder does not change what `readCache` returns. */
  lemma CacheResultAnyListing(t: Tree, git: Git, l1: seq<string>, l2: seq<string>)
    requires ListedAfter(t, git, l1) && ListedAfter(t, git, l2)
    ensures CacheResult(t, git, l1) == CacheResult(t, git, l2)
  {
    match ConfigFile.ReadConfig(t)
    case None =>
    case Some(c) =>
      var u := CacheTree(t, git);
      var folder := SkillsFolder(CloneFolder(c.repoUrl), c.folder);
      SkillsAtAnyListing(u, folder, l1, l2);
      assert FolderResult(u, folder, c.folder, l1) == FolderResult(u, folder, c.folder, l2);
  }

  /** `readCache` (which starts with `writeCache`). Not being linked stops the
      command before git runs; a failed clone stops it; a pull failure is
      ignored and the cached copy is read. */
  method ReadCache(fs: FileSystem, git: Git) returns (r: Result<CacheRead, CacheError>)
    modifies fs
    ensures fs.tree == CacheTree(old(fs.tree), git)
    ensures exists names :: ListedAfter(old(fs.tree), git, names) && r == CacheResult(old(fs.tree), git, names)
  {
    ghost var t := fs.tree;
    var config := ConfigFile.ReadConfig(fs.tree);
    if config.None? {
      assert ListedAfter(t, git, []) && Failure(NotLinked) == CacheResult(t, git, []);
      return Failure(NotLinked);
    }
    var c := config.value;
    var branch := CacheBranch(c);
    var clone := CloneFolder(c.repoUrl);
    var ok := CloneOrPull(fs, CACHE_BASE, clone, c.repoUrl, branch, git);
    assert fs.tree == CacheTree(t, git);
    var folder := SkillsFolder(clone, c.folder);
    if !ok {
      ghost var listed := fs.ReadDir(folder);
      assert ListedAfter(t, git, listed) && Failure(CloneFailed) == CacheResult(t, git, listed);
      return Failure(CloneFailed);
    }
    var read := ReadFolder(fs, folder, c.folder);
    ghost var names :| IsListing(fs.tree, folder, names) && read == FolderResult(fs.tree, folder, c.folder, names);
    assert ListedAfter(t, git, names);
    if read.Failure? {
      return Failure(read.error);
    }
    r := Success(CacheRead(c, folder, read.value));
  }

  /** A fresh clone reads back: a file at the top of the fetched branch is
      among the files `readCache` reads when no sub-folder is configured. */
  lemma FreshCloneReadsSnapshot(t: Tree, c: ConfigFile.Config, snapshot: Tree, name: string)
    requires CloneFolder(c.repoUrl) !in t
    requires name != [] && [name] in snapshot && snapshot[[name]].File?
    ensures var clone := CloneFolder(c.repoUrl);
      name in FilesIn(Fetch(t, CACHE_BASE, clone, Fetched(snapshot)), clone)
      && FilesIn(Fetch(t, CACHE_BASE, clone, Fetched(snapshot)), clone)[name] == snapshot[[name]].text
  {
    var clone := CloneFolder(c.repoUrl);
    var r := Fetch(t, CACHE_BASE, clone, Fetched(snapshot));
    FetchedFilesPresent(t, CACHE_BASE, clone, snapshot, [name]);
    assert (clone + [name])[..|clone|] == clone && (clone + [name])[|clone|] == name;
    assert name in Children(r, clone);
  }
}
