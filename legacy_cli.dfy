/** The legacy entry points: `main` of scripts/sync.js (with `init`,
    `resolveRulesDir` and the clean, preview and generate branches) and the
    `link`, `sync` and `clean` commands of scripts/cli.js. The registry is
    the one under scripts/tools; loading the rule files from a folder is
    passed in as `Loader`. */
module LegacyCli {
  import opened Wrappers
  import opened Strings
  import opened FileTree
  import opened SkillFileParser
  import opened Adapters
  import opened ToolOps
  import SelectTools
  import CacheFolder
  import LegacyConfig
  import LegacyRepo
  import LegacyArgs
  import Commands

  const INIT_SUBCOMMAND: string := "init"

  /** `loadRules`: the rules found in a folder of a tree. */
  type Loader = (Tree, Path) -> seq<Skill>

  /** Why a legacy command stops. */
  datatype MainError =
    | Args(argsError: LegacyArgs.CliError)
    | RulesSourceNotSet                 // neither `--source` nor a loadable config
    | Repo(repoError: LegacyRepo.RepoError)
    | NotLinked                         // cli.js: no loadable config
    | Selection(selectError: SelectTools.SelectError)

  /** What a run that does not stop reports. */
  datatype Outcome =
    | Initialized
    | Linked
    | Helped
    | CleanedTools(toolCount: nat)
    | Previewed(tools: seq<string>, rules: nat)
    | Synced(counts: seq<nat>)

  /** The tree a run leaves and its outcome. */
  datatype Ran = Ran(tree: Tree, result: Result<Outcome, MainError>)

  // ---------------------------------------------------------------------
  // init (scripts/sync.js) and link (scripts/cli.js)
  // ---------------------------------------------------------------------

  /** The object `runInit` hands to `writeConfig`. */
  function InitInput(a: LegacyArgs.RepoArgs): LegacyConfig.RuleBookInput {
    LegacyConfig.RuleBookInput(Some(a.url), a.branch, Some(a.dir))
  }

  /** The configuration a successful `init` saves, as `loadConfig` reads it. */
  function SavedConfig(a: LegacyArgs.RepoArgs): LegacyConfig.RuleBookConfig {
    LegacyConfig.RuleBookConfig(a.url, if a.branch.Some? && a.branch.value != [] then a.branch.value else LegacyConfig.DEFAULT_BRANCH, a.dir)
  }

  function InitRun(t: Tree, args: seq<string>): Ran {
    match LegacyArgs.RepoArgsOf(args, LegacyArgs.INIT_DIR)
    case Failure(e) => Ran(t, Failure(Args(e)))
    case Success(a) => Ran(LegacyConfig.LegacyConfigWritten(t, InitInput(a)), Success(Initialized))
  }

  /** `runInit`. */
  method RunInit(fs: FileSystem, args: seq<string>) returns (r: Result<Outcome, MainError>)
    modifies fs
    ensures Ran(fs.tree, r) == InitRun(old(fs.tree), args)
  {
    var parsed := LegacyArgs.ParseInitArgs(args);
    if parsed.Failure? {
      return Failure(Args(parsed.error));
    }
    var _ := LegacyConfig.WriteLegacyConfig(fs, InitInput(parsed.value));
    r := Success(Initialized);
  }

  /** A non-blank URL saved by `init` loads back with its branch (or `main`)
      and folder; a URL that trims to nothing saves a config that does not
      load. */
  lemma InitThenLoad(t: Tree, args: seq<string>)
    requires LegacyArgs.RepoArgsOf(args, LegacyArgs.INIT_DIR).Success?
    ensures var a := LegacyArgs.RepoArgsOf(args, LegacyArgs.INIT_DIR).value;
      && (a.url != [] ==> LegacyConfig.LoadConfig(InitRun(t, args).tree) == Some(SavedConfig(a)))
      && (a.url == [] ==> LegacyConfig.LoadConfig(InitRun(t, args).tree).None?)
  {
    var a := LegacyArgs.RepoArgsOf(args, LegacyArgs.INIT_DIR).value;
    TrimBlank(a.url);
    TrimOfTrimmed(a.url);
    TrimOfTrimmed(a.dir);
    if a.branch.Some? {
      TrimOfTrimmed(a.branch.value);
    }
    if a.url != [] {
      LegacyConfig.LoadAfterWrite(t, InitInput(a));
    }
  }

  /** `init <url> [--branch b] [--dir d] ...` as typed, then `loadConfig`:
      the trimmed URL with the last branch and directory given. */
  lemma InitTypedThenLoad(t: Tree, url: string, opts: seq<LegacyArgs.RepoOption>)
    requires Trimmed(url) && url != [] && !StartsWith(url, "--")
    requires forall i :: 0 <= i < |opts| ==> opts[i].value != []
    ensures LegacyConfig.LoadConfig(InitRun(t, [url] + LegacyArgs.RenderRepoOptions(opts, LegacyArgs.INIT_DIR)).tree)
            == Some(SavedConfig(LegacyArgs.ApplyRepoOptions(opts, LegacyArgs.RepoArgs(url, None, ""))))
  {
    var args := [url] + LegacyArgs.RenderRepoOptions(opts, LegacyArgs.INIT_DIR);
    TrimOfTrimmed(url);
    LegacyArgs.RepoArgsRoundTrip(url, opts, LegacyArgs.INIT_DIR);
    InitThenLoad(t, args);
  }

  /** What `runLink` of scripts/cli.js hands to `writeConfig`: an object
      with `repoUrl` and `folder`, so `rulesSource` and `rulesSourceDir`
      are absent. */
  function CliLinkInputAsWritten(a: LegacyArgs.RepoArgs): LegacyConfig.RuleBookInput {
    LegacyConfig.RuleBookInput(None, a.branch, None)
  }

  function CliLinkRunAsWritten(t: Tree, args: seq<string>): Ran {
    match LegacyArgs.LinkArgsOf(args)
    case Failure(e) => Ran(t, Failure(Args(e)))
    case Success(a) => Ran(LegacyConfig.LegacyConfigWritten(t, CliLinkInputAsWritten(a)), Success(Linked))
  }

  /** Whatever `link` is given, the config it writes does not load. */
  lemma CliLinkNotLoadable(t: Tree, args: seq<string>)
    requires LegacyArgs.LinkArgsOf(args).Success?
    ensures LegacyConfig.LoadConfig(CliLinkRunAsWritten(t, args).tree).None?
  {
    LegacyConfig.WriteWithoutSourceUnloadable(t, CliLinkInputAsWritten(LegacyArgs.LinkArgsOf(args).value));
  }

  /** `runLink` with the URL and folder passed under the names `writeConfig`
      reads. */
  function CliLinkRun(t: Tree, args: seq<string>): Ran {
    match LegacyArgs.LinkArgsOf(args)
    case Failure(e) => Ran(t, Failure(Args(e)))
    case Success(a) => Ran(LegacyConfig.LegacyConfigWritten(t, InitInput(a)), Success(Linked))
  }

  method CliRunLink(fs: FileSystem, args: seq<string>) returns (r: Result<Outcome, MainError>)
    modifies fs
    ensures Ran(fs.tree, r) == CliLinkRun(old(fs.tree), args)
  {
    var parsed := LegacyArgs.ParseLinkArgs(args);
    if parsed.Failure? {
      return Failure(Args(parsed.error));
    }
    var _ := LegacyConfig.WriteLegacyConfig(fs, InitInput(parsed.value));
    r := Success(Linked);
  }

  /** A URL saved by `link` loads back trimmed, with its branch (or `main`)
      and folder, once it is not blank. */
  lemma CliLinkThenLoad(t: Tree, args: seq<string>)
    requires LegacyArgs.LinkArgsOf(args).Success?
    requires !AllSpace(LegacyArgs.LinkArgsOf(args).value.url)
    ensures var a := LegacyArgs.LinkArgsOf(args).value;
      LegacyConfig.LoadConfig(CliLinkRun(t, args).tree)
      == Some(LegacyConfig.RuleBookConfig(Trim(a.url), if a.branch.Some? && a.branch.value != [] then a.branch.value else LegacyConfig.DEFAULT_BRANCH, Trim(a.dir)))
  {
    var a := LegacyArgs.LinkArgsOf(args).value;
    if a.branch.Some? {
      TrimOfTrimmed(a.branch.value);
    }
    LegacyConfig.LoadAfterWrite(t, InitInput(a));
  }

  /** The samples repository URL is not blank, so `link --samples` saves a
      config that loads. */
  lemma SamplesUrlNotBlank()
    ensures !AllSpace(LegacyArgs.SAMPLES_REPO_URL)
  {
    var u := LegacyArgs.SAMPLES_REPO_URL;
    assert u[|u| - 1] == 't';
  }

  // ---------------------------------------------------------------------
  // resolveRulesDir and main (scripts/sync.js)
  // ---------------------------------------------------------------------

  /** The configuration `resolveRulesDir` clones: a non-empty `--source`
      with no branch and the repository root, else the saved one. */
  function RulesConfig(o: LegacyArgs.SyncOptions, t: Tree): (r: Option<LegacyConfig.RuleBookConfig>)
    ensures r.None? <==> (o.source.None? || o.source.value == []) && LegacyConfig.LoadConfig(t).None?
    ensures o.source.Some? && o.source.value != [] ==>
              r.Some? && r.value.rulesSource == o.source.value && r.value.rulesSourceDir == []
              && LegacyRepo.RepoBranch(r.value) == LegacyConfig.DEFAULT_BRANCH
    ensures (o.source.None? || o.source.value == []) ==> r == LegacyConfig.LoadConfig(t)
  {
    if o.source.Some? && o.source.value != [] then Some(LegacyConfig.RuleBookConfig(o.source.value, "", ""))
    else LegacyConfig.LoadConfig(t)
  }

  function ResolveRun(t: Tree, o: LegacyArgs.SyncOptions, git: CacheFolder.Git): (Tree, Result<Path, MainError>) {
    match RulesConfig(o, t)
    case None => (t, Failure(RulesSourceNotSet))
    case Some(c) =>
      (LegacyRepo.RepoTree(t, c, git),
       match LegacyRepo.RepoResult(t, c, git)
       case Failure(e) => Failure(Repo(e))
       case Success(dir) => Success(dir))
  }

  /** `resolveRulesDir` followed by the "Rules source not set" exit. */
  method ResolveRulesDir(fs: FileSystem, o: LegacyArgs.SyncOptions, git: CacheFolder.Git) returns (r: Result<Path, MainError>)
    modifies fs
    ensures (fs.tree, r) == ResolveRun(old(fs.tree), o, git)
  {
    var c: Option<LegacyConfig.RuleBookConfig>;
    if o.source.Some? && o.source.value != "" {
      c := Some(LegacyConfig.RuleBookConfig(o.source.value, "", ""));
    } else {
      c := LegacyConfig.LoadConfig(fs.tree);
    }
    if c.None? {
      return Failure(RulesSourceNotSet);
    }
    var dir := LegacyRepo.GetRulesDirFromRepo(fs, c.value, git);
    if dir.Failure? {
      return Failure(Repo(dir.error));
    }
    r := Success(dir.value);
  }

  /** The clean, preview and generate branches of `main`, on the tree after
      the fetch, once the rules are loaded. */
  function ModeRun(u: Tree, o: LegacyArgs.SyncOptions, rules: seq<Skill>): Ran
    requires Commands.InRegistry(LEGACY_TOOLS, o.tools)
  {
    var swept := Commands.Swept(u, LEGACY_TOOLS, o.tools, SkillNames(rules));
    if o.clean then Ran(swept.tree, Success(CleanedTools(|o.tools|)))
    else if o.preview then Ran(u, Success(Previewed(o.tools, |rules|)))
    else Ran(Commands.GeneratedAll(swept.tree, LEGACY_TOOLS, o.tools, rules),
             Success(Synced(Commands.Counts(|o.tools|, rules))))
  }

  /** What `main` of scripts/sync.js does with `args`. */
  function MainRun(t: Tree, args: seq<string>, git: CacheFolder.Git, load: Loader): Ran {
    if args != [] && args[0] == INIT_SUBCOMMAND then InitRun(t, args[1..])
    else
      match LegacyArgs.SyncArgsOf(args, Keys(LEGACY_TOOLS))
      case Failure(e) => Ran(t, Failure(Args(e)))
      case Success(o) =>
        if o.help then Ran(t, Success(Helped))
        else
          var (u, dir) := ResolveRun(t, o, git);
          match dir
          case Failure(e) => Ran(u, Failure(e))
          case Success(d) => ModeRun(u, o, load(u, d))
  }

  /** The mode branches of `main`. */
  method RunModes(fs: FileSystem, o: LegacyArgs.SyncOptions, rules: seq<Skill>) returns (r: Result<Outcome, MainError>)
    requires Commands.InRegistry(LEGACY_TOOLS, o.tools)
    modifies fs
    ensures Ran(fs.tree, r) == ModeRun(old(fs.tree), o, rules)
  {
    var names := SkillNames(rules);
    if o.clean {
      var _ := Commands.Cleaner(fs, LEGACY_TOOLS, o.tools, names);
      return Success(CleanedTools(|o.tools|));
    }
    if o.preview {
      return Success(Previewed(o.tools, |rules|));
    }
    var _ := Commands.Cleaner(fs, LEGACY_TOOLS, o.tools, names);
    var counts := Commands.GenerateAll(fs, LEGACY_TOOLS, o.tools, rules);
    r := Success(Synced(counts));
  }

  /** `main` of scripts/sync.js over an explicit argument list. */
  method LegacyMain(fs: FileSystem, args: seq<string>, git: CacheFolder.Git, load: Loader) returns (r: Result<Outcome, MainError>)
    modifies fs
    ensures Ran(fs.tree, r) == MainRun(old(fs.tree), args, git, load)
  {
    if |args| > 0 && args[0] == INIT_SUBCOMMAND {
      r := RunInit(fs, args[1..]);
      return;
    }
    var parsed := LegacyArgs.ParseArgs(args, Keys(LEGACY_TOOLS));
    if parsed.Failure? {
      return Failure(Args(parsed.error));
    }
    var o := parsed.value;
    if o.help {
      return Success(Helped);
    }
    var dir := ResolveRulesDir(fs, o, git);
    if dir.Failure? {
      return Failure(dir.error);
    }
    var rules := load(fs.tree, dir.value);
    r := RunModes(fs, o, rules);
  }

  /** The options `main` acts on, when it gets past parsing and help. */
  predicate ActsOn(args: seq<string>, o: LegacyArgs.SyncOptions) {
    && !(args != [] && args[0] == INIT_SUBCOMMAND)
    && LegacyArgs.SyncArgsOf(args, Keys(LEGACY_TOOLS)) == Success(o)
    && !o.help
  }

  /** Help and every parsing failure leave the tree as it was. */
  lemma HelpOrBadArgsWriteNothing(t: Tree, args: seq<string>, git: CacheFolder.Git, load: Loader)
    requires !(args != [] && args[0] == INIT_SUBCOMMAND)
    requires LegacyArgs.SyncArgsOf(args, Keys(LEGACY_TOOLS)).Failure? || LegacyArgs.SyncArgsOf(args, Keys(LEGACY_TOOLS)).value.help
    ensures MainRun(t, args, git, load).tree == t
    ensures MainRun(t, args, git, load).result.Failure? <==> LegacyArgs.SyncArgsOf(args, Keys(LEGACY_TOOLS)).Failure?
  {
  }

  /** Preview writes nothing outside the cache folder. */
  lemma PreviewKeepsProject(t: Tree, args: seq<string>, o: LegacyArgs.SyncOptions, git: CacheFolder.Git, load: Loader, q: Path)
    requires ActsOn(args, o) && o.preview && !o.clean
    requires q in t && !Under(LegacyRepo.CACHE_DIR_NAME, q)
    ensures q in MainRun(t, args, git, load).tree && MainRun(t, args, git, load).tree[q] == t[q]
  {
    match RulesConfig(o, t) {
      case None =>
      case Some(c) =>
        var clone := LegacyRepo.RepoClone(c.rulesSource);
        Commands.UnderTrans(LegacyRepo.CACHE_DIR_NAME, clone, q);
        CacheFolder.FetchFrame(t, LegacyRepo.CACHE_DIR_NAME, clone, LegacyRepo.RepoOutcome(t, c, git), q);
    }
  }

  /** Clean mode only removes files of the fetched tree, and afterwards no
      selected tool has an output left for a loaded rule. */
  lemma CleanModeOnlyRemoves(t: Tree, args: seq<string>, o: LegacyArgs.SyncOptions, git: CacheFolder.Git, load: Loader)
    requires ActsOn(args, o) && o.clean
    ensures var (u, dir) := ResolveRun(t, o, git);
      dir.Success? ==>
        var after := MainRun(t, args, git, load).tree;
        var names := SkillNames(load(u, dir.value));
        && Commands.SubTree(after, u)
        && forall i :: 0 <= i < |o.tools| ==> Commands.Clear(after, Lookup(LEGACY_TOOLS, o.tools[i]), names)
  {
    var (u, dir) := ResolveRun(t, o, git);
    if dir.Success? {
      Commands.SweptClears(u, LEGACY_TOOLS, o.tools, SkillNames(load(u, dir.value)));
    }
  }

  /** A plain run writes, for every selected tool, the rendered file of every
      loaded rule whose name no later rule repeats. */
  lemma SyncModeWritesEveryRule(t: Tree, args: seq<string>, o: LegacyArgs.SyncOptions, git: CacheFolder.Git, load: Loader, k: nat, i: nat)
    requires ActsOn(args, o) && !o.clean && !o.preview
    requires ResolveRun(t, o, git).1.Success? && k < |o.tools|
    requires var (u, dir) := ResolveRun(t, o, git);
      var rules := load(u, dir.value);
      && i < |rules|
      && (forall j :: i <= j < |rules| ==> SingleSegment(rules[j].name))
      && (forall j :: i < j < |rules| ==> rules[j].name != rules[i].name)
    ensures var (u, dir) := ResolveRun(t, o, git);
      var rules := load(u, dir.value);
      var tool := Lookup(LEGACY_TOOLS, o.tools[k]);
      var after := MainRun(t, args, git, load).tree;
      OutputFile(tool, rules[i].name) in after && after[OutputFile(tool, rules[i].name)] == File(Render(tool.renderer, rules[i]))
  {
    var (u, dir) := ResolveRun(t, o, git);
    var rules := load(u, dir.value);
    Commands.RegistriesApart();
    RegistriesFlat();
    Commands.GeneratedAllWrites(Commands.Swept(u, LEGACY_TOOLS, o.tools, SkillNames(rules)).tree, LEGACY_TOOLS, o.tools, rules, k, i);
  }

  // ---------------------------------------------------------------------
  // runSync and runClean (scripts/cli.js)
  // ---------------------------------------------------------------------

  /** The tool keys `runSync` and `runClean` act on: registry keys only. */
  function CliSelection(args: seq<string>): (r: Result<seq<string>, SelectTools.SelectError>)
    ensures r.Success? ==> Commands.InRegistry(LEGACY_TOOLS, r.value)
  {
    var r := SelectTools.ResolveSelectedTools(args, Keys(LEGACY_TOOLS), SelectTools.OwnKeys);
    assert r.Success? ==> forall i :: 0 <= i < |r.value| ==> r.value[i] in r.value;
    r
  }

  /** `sync constructor` as written: the property-access (truthiness) test accepts the
      inherited name and the run goes on to a missing adapter; the own-key
      lookup of `CliSelection` reports it as unknown. */
  lemma CliInheritedNameSelected()
    ensures SelectTools.ResolveSelectedTools(["constructor"], Keys(LEGACY_TOOLS), SelectTools.WithInherited) == Success(["constructor"])
    ensures CliSelection(["constructor"]) == Failure(SelectTools.Unknown(["constructor"]))
  {
    var keys := Keys(LEGACY_TOOLS);
    assert "constructor" !in keys;
    SelectTools.ConstructorNormal();
    assert SelectTools.NormalizeArgs(["constructor"]) == ["constructor"];
    assert !SelectTools.HasComma(["constructor"]);
    SelectTools.InheritedNameSelected(keys);
  }

  /** `runSync` (or, with `clean`, `runClean`) of scripts/cli.js with the
      rules of the linked repository given: selection first, then the linked
      config, then every selected tool is cleaned before any is generated. */
  function CliRun(t: Tree, args: seq<string>, rules: seq<Skill>, clean: bool): Ran {
    match CliSelection(args)
    case Failure(e) => Ran(t, Failure(Selection(e)))
    case Success(selected) =>
      if LegacyConfig.LoadConfig(t).None? then Ran(t, Failure(NotLinked))
      else
        var swept := Commands.Swept(t, LEGACY_TOOLS, selected, SkillNames(rules));
        if clean then Ran(swept.tree, Success(CleanedTools(|selected|)))
        else Ran(Commands.GeneratedAll(swept.tree, LEGACY_TOOLS, selected, rules),
                 Success(Synced(Commands.Counts(|selected|, rules))))
  }

  method CliRunCommand(fs: FileSystem, args: seq<string>, rules: seq<Skill>, clean: bool) returns (r: Result<Outcome, MainError>)
    modifies fs
    ensures Ran(fs.tree, r) == CliRun(old(fs.tree), args, rules, clean)
  {
    var selected := CliSelection(args);
    if selected.Failure? {
      return Failure(Selection(selected.error));
    }
    if LegacyConfig.LoadConfig(fs.tree).None? {
      return Failure(NotLinked);
    }
    var names := SkillNames(rules);
    var _ := Commands.Cleaner(fs, LEGACY_TOOLS, selected.value, names);
    if clean {
      return Success(CleanedTools(|selected.value|));
    }
    var counts := Commands.GenerateAll(fs, LEGACY_TOOLS, selected.value, rules);
    r := Success(Synced(counts));
  }

  /** `clean` of scripts/cli.js only removes files, and afterwards no selected
      tool has an output left for a rule. */
  lemma CliCleanOnlyRemoves(t: Tree, args: seq<string>, rules: seq<Skill>)
    requires CliSelection(args).Success? && LegacyConfig.LoadConfig(t).Some?
    ensures Commands.SubTree(CliRun(t, args, rules, true).tree, t)
    ensures forall i :: 0 <= i < |CliSelection(args).value| ==>
              Commands.Clear(CliRun(t, args, rules, true).tree, Lookup(LEGACY_TOOLS, CliSelection(args).value[i]), SkillNames(rules))
  {
    CliCleanTree(t, args, rules);
    Commands.SweptClears(t, LEGACY_TOOLS, CliSelection(args).value, SkillNames(rules));
  }

  lemma CliCleanTree(t: Tree, args: seq<string>, rules: seq<Skill>)
    requires CliSelection(args).Success? && LegacyConfig.LoadConfig(t).Some?
    ensures CliRun(t, args, rules, true).tree == Commands.Swept(t, LEGACY_TOOLS, CliSelection(args).value, SkillNames(rules)).tree
  {
  }

  /** Without a linked config, `sync` and `clean` of scripts/cli.js stop
      with the tree unchanged. */
  lemma CliNeedsLink(t: Tree, args: seq<string>, rules: seq<Skill>, clean: bool)
    requires LegacyConfig.LoadConfig(t).None?
    ensures CliRun(t, args, rules, clean).tree == t
    ensures CliRun(t, args, rules, clean).result.Failure?
  {
  }
}
