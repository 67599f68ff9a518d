/** Argument parsing of the legacy command lines: `parseLinkArgs`
    (scripts/cli.js), and `parseToolList`, `parseArgs` and `parseInitArgs`
    (scripts/sync.js). Each loop is a method proved equal to a function that
    reads the arguments from a position on; the lemmas render options as a
    user types them and parse them back. */
module LegacyArgs {
  import opened Wrappers
  import opened Strings
  import SelectTools

  const OPTION_BRANCH: string := "--branch"
  const SHORT_BRANCH: string := "-b"
  const OPTION_SAMPLES: string := "--samples"
  const SAMPLES_REPO_URL: string := "https://github.com/MosslandOpenDevs/heymark.git"
  const SAMPLES_FOLDER: string := "samples"

  const OPTION_TOOLS: string := "--tools"
  const SHORT_TOOLS: string := "-t"
  const OPTION_SOURCE: string := "--source"
  const SHORT_SOURCE: string := "-s"
  const OPTION_CLEAN: string := "--clean"
  const SHORT_CLEAN: string := "-c"
  const OPTION_PREVIEW: string := "--preview"
  const SHORT_PREVIEW: string := "-p"
  const OPTION_HELP: string := "--help"
  const SHORT_HELP: string := "-h"

  /** The option naming a sub-directory of the repository. */
  datatype DirOption = DirOption(long: string, short: string)
  /** `link` in scripts/cli.js. */
  const LINK_FOLDER: DirOption := DirOption("--folder", "-f")
  /** `init` in scripts/sync.js. */
  const INIT_DIR: DirOption := DirOption("--dir", "-d")

  predicate KnownDirOption(d: DirOption) {
    d == LINK_FOLDER || d == INIT_DIR
  }

  /** Why argument parsing stops the command. */
  datatype CliError =
    | SamplesCombined            // `--samples` together with other arguments
    | MissingRepoUrl             // no URL, an empty one, or an option in its place
    | MissingValue(option: string)
    | UnknownOption(option: string)
    | EmptyToolList              // `--tools` naming no tool
    | UnknownTools(names: seq<string>)

  // ---------------------------------------------------------------------
  // parseLinkArgs / parseInitArgs
  // ---------------------------------------------------------------------

  /** A repository URL with its branch (absent when not given: the branch
      default these scripts import is not defined) and sub-directory. */
  datatype RepoArgs = RepoArgs(url: string, branch: Option<string>, dir: string)

  predicate TrimmedArgs(a: RepoArgs) {
    Trimmed(a.dir) && (a.branch.Some? ==> Trimmed(a.branch.value))
  }

  /** The option loop from position `i` on, with `acc` what it has read. */
  function RepoOptions(args: seq<string>, d: DirOption, i: nat, acc: RepoArgs): (r: Result<RepoArgs, CliError>)
    requires i <= |args|
    ensures r.Failure? ==> r.error.MissingValue? || r.error.UnknownOption?
    ensures r.Success? ==> r.value.url == acc.url
    ensures r.Success? && TrimmedArgs(acc) ==> TrimmedArgs(r.value)
    decreases |args| - i
  {
    if i == |args| then Success(acc)
    else if args[i] == OPTION_BRANCH || args[i] == SHORT_BRANCH then
      if i + 1 < |args| && args[i + 1] != [] then RepoOptions(args, d, i + 2, acc.(branch := Some(Trim(args[i + 1]))))
      else Failure(MissingValue(OPTION_BRANCH))
    else if args[i] == d.long || args[i] == d.short then
      if i + 1 < |args| && args[i + 1] != [] then RepoOptions(args, d, i + 2, acc.(dir := Trim(args[i + 1])))
      else Failure(MissingValue(d.long))
    else Failure(UnknownOption(args[i]))
  }

  /** A URL first, then the options; the URL is trimmed. */
  function RepoArgsOf(args: seq<string>, d: DirOption): (r: Result<RepoArgs, CliError>)
    ensures r == Failure(MissingRepoUrl) <==> args == [] || args[0] == [] || StartsWith(args[0], "--")
    ensures r.Success? ==> r.value.url == Trim(args[0]) && TrimmedArgs(r.value)
  {
    if args == [] || args[0] == [] || StartsWith(args[0], "--") then Failure(MissingRepoUrl)
    else
      TrimOfTrimmed("");
      RepoOptions(args, d, 1, RepoArgs(Trim(args[0]), None, ""))
  }

  /** The loop shared by `parseLinkArgs` and `parseInitArgs`. */
  method ParseRepoArgs(args: seq<string>, d: DirOption) returns (r: Result<RepoArgs, CliError>)
    ensures r == RepoArgsOf(args, d)
  {
    if |args| == 0 || args[0] == "" || StartsWith(args[0], "--") {
      return Failure(MissingRepoUrl);
    }
    var branch: Option<string> := None;
    var dir := "";
    var i := 1;
    while i < |args|
      invariant 1 <= i <= |args|
      invariant RepoOptions(args, d, i, RepoArgs(Trim(args[0]), branch, dir)) == RepoArgsOf(args, d)
      decreases |args| - i
    {
      var arg := args[i];
      if arg == OPTION_BRANCH || arg == SHORT_BRANCH {
        if i + 1 >= |args| || args[i + 1] == "" {
          return Failure(MissingValue(OPTION_BRANCH));
        }
        branch := Some(Trim(args[i + 1]));
        i := i + 2;
      } else if arg == d.long || arg == d.short {
        if i + 1 >= |args| || args[i + 1] == "" {
          return Failure(MissingValue(d.long));
        }
        dir := Trim(args[i + 1]);
        i := i + 2;
      } else {
        return Failure(UnknownOption(arg));
      }
    }
    r := Success(RepoArgs(Trim(args[0]), branch, dir));
  }

  /** What `parseLinkArgs` returns: `--samples` alone selects the sample
      repository and its `samples` folder. */
  function LinkArgsOf(args: seq<string>): (r: Result<RepoArgs, CliError>)
    ensures args == [OPTION_SAMPLES] ==> r == Success(RepoArgs(SAMPLES_REPO_URL, None, SAMPLES_FOLDER))
    ensures r == Failure(SamplesCombined) <==> args != [OPTION_SAMPLES] && OPTION_SAMPLES in args
    ensures OPTION_SAMPLES !in args ==> r == RepoArgsOf(args, LINK_FOLDER)
  {
    if args == [OPTION_SAMPLES] then Success(RepoArgs(SAMPLES_REPO_URL, None, SAMPLES_FOLDER))
    else if OPTION_SAMPLES in args then Failure(SamplesCombined)
    else RepoArgsOf(args, LINK_FOLDER)
  }

  /** `parseLinkArgs`. */
  method ParseLinkArgs(args: seq<string>) returns (r: Result<RepoArgs, CliError>)
    ensures r == LinkArgsOf(args)
  {
    if |args| == 1 && args[0] == OPTION_SAMPLES {
      return Success(RepoArgs(SAMPLES_REPO_URL, None, SAMPLES_FOLDER));
    }
    if OPTION_SAMPLES in args {
      return Failure(SamplesCombined);
    }
    r := ParseRepoArgs(args, LINK_FOLDER);
  }

  /** `parseInitArgs`. */
  method ParseInitArgs(args: seq<string>) returns (r: Result<RepoArgs, CliError>)
    ensures r == RepoArgsOf(args, INIT_DIR)
  {
    r := ParseRepoArgs(args, INIT_DIR);
  }

  /** An option as a user types it, in its long or short spelling. */
  datatype RepoOption = BranchOption(short: bool, value: string) | DirOptionGiven(short: bool, value: string)

  function RenderRepoOptions(opts: seq<RepoOption>, d: DirOption): (r: seq<string>)
    ensures |r| == 2 * |opts|
  {
    if opts == [] then []
    else
      var o := opts[0];
      var flag := match o
        case BranchOption(short, _) => if short then SHORT_BRANCH else OPTION_BRANCH
        case DirOptionGiven(short, _) => if short then d.short else d.long;
      [flag, o.value] + RenderRepoOptions(opts[1..], d)
  }

  /** The options applied in order: a later one overwrites an earlier one. */
  function ApplyRepoOptions(opts: seq<RepoOption>, acc: RepoArgs): RepoArgs {
    if opts == [] then acc
    else
      var next := match opts[0]
        case BranchOption(_, v) => acc.(branch := Some(Trim(v)))
        case DirOptionGiven(_, v) => acc.(dir := Trim(v));
      ApplyRepoOptions(opts[1..], next)
  }

  /** The directory options of `link` and `init` are not branch options. */
  lemma DirOptionsDiffer(d: DirOption)
    requires KnownDirOption(d)
    ensures d.long != OPTION_BRANCH && d.long != SHORT_BRANCH
    ensures d.short != OPTION_BRANCH && d.short != SHORT_BRANCH
  {
    assert d.long[2] != OPTION_BRANCH[2];
    assert d.short[1] != SHORT_BRANCH[1];
    assert |d.long| != |SHORT_BRANCH| && |d.short| != |OPTION_BRANCH|;
  }

  /** Options rendered and parsed back give the values applied in order. */
  lemma {:induction false} RepoOptionsRendered(pre: seq<string>, opts: seq<RepoOption>, d: DirOption, acc: RepoArgs)
    requires KnownDirOption(d)
    requires forall i :: 0 <= i < |opts| ==> opts[i].value != []
    ensures RepoOptions(pre + RenderRepoOptions(opts, d), d, |pre|, acc) == Success(ApplyRepoOptions(opts, acc))
    decreases |opts|
  {
    var args := pre + RenderRepoOptions(opts, d);
    if opts == [] {
      assert args == pre;
    } else {
      DirOptionsDiffer(d);
      var o := opts[0];
      var rest := RenderRepoOptions(opts[1..], d);
      var next := pre + args[|pre|..|pre| + 2];
      assert args == next + rest;
      assert args[|pre| + 1] == o.value;
      var acc' := match o
        case BranchOption(_, v) => acc.(branch := Some(Trim(v)))
        case DirOptionGiven(_, v) => acc.(dir := Trim(v));
      RepoOptionsRendered(next, opts[1..], d, acc');
    }
  }

  /** A URL followed by options parses to the trimmed URL and the last
      branch and directory given. */
  lemma RepoArgsRoundTrip(url: string, opts: seq<RepoOption>, d: DirOption)
    requires KnownDirOption(d) && url != [] && !StartsWith(url, "--")
    requires forall i :: 0 <= i < |opts| ==> opts[i].value != []
    ensures RepoArgsOf([url] + RenderRepoOptions(opts, d), d) == Success(ApplyRepoOptions(opts, RepoArgs(Trim(url), None, "")))
  {
    RepoOptionsRendered([url], opts, d, RepoArgs(Trim(url), None, ""));
  }

  // ---------------------------------------------------------------------
  // parseToolList
  // ---------------------------------------------------------------------

  /** `parseToolList`: split on commas, trim, lowercase, drop empty pieces;
      a list that names nothing is fatal. */
  function ToolList(raw: string): (r: Result<seq<string>, CliError>)
    ensures r.Failure? ==> r.error == EmptyToolList
    ensures r.Success? ==> r.value != [] && forall i :: 0 <= i < |r.value| ==> r.value[i] != []
    ensures r.Success? ==> |r.value| <= |Split(raw, ',')|
    // fatal exactly when every comma piece is blank; otherwise the normalised pieces, in order
    ensures r.Failure? <==> forall j :: 0 <= j < |Split(raw, ',')| ==> IsBlank(Split(raw, ',')[j])
    ensures r.Success? ==> r.value == SelectTools.NormalizeArgs(Split(raw, ','))
  {
    SelectTools.NormalizeArgsEmpty(Split(raw, ','));
    var parsed := SelectTools.NormalizeArgs(Split(raw, ','));
    if parsed == [] then Failure(EmptyToolList) else Success(parsed)
  }

  /** A comma-joined list of pieces parses to their normalised non-blank forms,
      in order, or fails when every piece is blank. */
  lemma ToolListOfPieces(pieces: seq<string>)
    requires pieces != [] && forall i :: 0 <= i < |pieces| ==> ',' !in pieces[i]
    ensures ToolList(Join(pieces, ",")) ==
      if forall i :: 0 <= i < |pieces| ==> IsBlank(pieces[i]) then Failure(EmptyToolList)
      else Success(SelectTools.NormalizeArgs(pieces))
  {
    assert "," == [','];
    SplitJoin(pieces, ',');
  }

  /** A name that trimming and lowercasing leave as it is. */
  predicate PlainName(n: string) {
    n != [] && ',' !in n && ToLower(Trim(n)) == n
  }

  lemma {:induction false} NormalizePlainNames(names: seq<string>)
    requires forall i :: 0 <= i < |names| ==> PlainName(names[i])
    ensures SelectTools.NormalizeArgs(names) == names
    decreases |names|
  {
    if names != [] {
      NormalizePlainNames(names[1..]);
      assert names == [names[0]] + names[1..];
    }
  }

  /** Joining plain tool names with commas and parsing gives them back. */
  lemma ToolListRoundTrip(names: seq<string>)
    requires names != [] && forall i :: 0 <= i < |names| ==> PlainName(names[i])
    ensures ToolList(Join(names, ",")) == Success(names)
  {
    SplitJoin(names, ',');
    assert [','] == ",";
    NormalizePlainNames(names);
  }

  lemma JoinNonEmpty(parts: seq<string>, sep: string)
    requires parts != [] && parts[0] != []
    ensures Join(parts, sep) != []
  {
  }

  // ---------------------------------------------------------------------
  // parseArgs
  // ---------------------------------------------------------------------

  datatype SyncOptions = SyncOptions(tools: seq<string>, clean: bool, preview: bool, help: bool, source: Option<string>)

  /** The defaults: every registry tool, no mode, no source. */
  function Defaults(keys: seq<string>): SyncOptions {
    SyncOptions(keys, false, false, false, None)
  }

  /** The option loop of `parseArgs` from position `i` on; a flag once set
      stays set, a later `--tools` or `--source` replaces an earlier one. */
  function OptionsFrom(args: seq<string>, i: nat, o: SyncOptions): (r: Result<SyncOptions, CliError>)
    requires i <= |args|
    ensures r.Failure? ==> r.error.MissingValue? || r.error.UnknownOption? || r.error.EmptyToolList?
    ensures r.Success? ==> (o.clean ==> r.value.clean) && (o.preview ==> r.value.preview) && (o.help ==> r.value.help)
    decreases |args| - i
  {
    if i == |args| then Success(o)
    else
      var arg := args[i];
      if arg == OPTION_TOOLS || arg == SHORT_TOOLS then
        if i + 1 < |args| && args[i + 1] != [] then
          match ToolList(args[i + 1])
          case Failure(e) => Failure(e)
          case Success(tools) => OptionsFrom(args, i + 2, o.(tools := tools))
        else Failure(MissingValue(OPTION_TOOLS))
      else if arg == OPTION_CLEAN || arg == SHORT_CLEAN then OptionsFrom(args, i + 1, o.(clean := true))
      else if arg == OPTION_PREVIEW || arg == SHORT_PREVIEW then OptionsFrom(args, i + 1, o.(preview := true))
      else if arg == OPTION_SOURCE || arg == SHORT_SOURCE then
        if i + 1 < |args| && args[i + 1] != [] then OptionsFrom(args, i + 2, o.(source := Some(Trim(args[i + 1]))))
        else Failure(MissingValue(OPTION_SOURCE))
      else if arg == OPTION_HELP || arg == SHORT_HELP then OptionsFrom(args, i + 1, o.(help := true))
      else Failure(UnknownOption(arg))
  }

  /** What `parseArgs` returns when a tool name counts as known under
      `lookup`: the source tests the truthiness of a property access on the registry object,
      so inherited names pass as written (`WithInherited`). */
  function SyncArgsWith(args: seq<string>, keys: seq<string>, lookup: SelectTools.Lookup): (r: Result<SyncOptions, CliError>)
    ensures args == [] ==> r == Success(Defaults(keys))
    ensures r.Success? ==> forall i :: 0 <= i < |r.value.tools| ==> SelectTools.Known(keys, r.value.tools[i], lookup)
    ensures r.Failure? && r.error.UnknownTools? ==> r.error.names != [] && forall x :: x in r.error.names ==> !SelectTools.Known(keys, x, lookup)
  {
    match OptionsFrom(args, 0, Defaults(keys))
    case Failure(e) => Failure(e)
    case Success(o) =>
      AllKnown(keys, keys, lookup);
      var invalid := SelectTools.Unknowns(o.tools, keys, lookup);
      if invalid != [] then Failure(UnknownTools(invalid))
      else
        assert forall i :: 0 <= i < |o.tools| ==> o.tools[i] !in invalid;
        Success(o)
  }

  /** What `parseArgs` returns with the registry's own keys, as evidently
      intended: the options, once every tool named is a registry key. */
  function SyncArgsOf(args: seq<string>, keys: seq<string>): (r: Result<SyncOptions, CliError>)
    ensures args == [] ==> r == Success(Defaults(keys))
    ensures r.Success? ==> forall i :: 0 <= i < |r.value.tools| ==> r.value.tools[i] in keys
    ensures r.Failure? && r.error.UnknownTools? ==> r.error.names != [] && forall x :: x in r.error.names ==> x !in keys
  {
    SyncArgsWith(args, keys, SelectTools.OwnKeys)
  }

  /** `-t constructor` names no tool, yet the lookup as written accepts it
      (the run then fails on the missing adapter); the own-key lookup
      reports it as unknown. */
  lemma SyncInheritedToolAccepted(keys: seq<string>)
    requires "constructor" !in keys
    ensures SyncArgsWith([SHORT_TOOLS, "constructor"], keys, SelectTools.WithInherited) == Success(Defaults(keys).(tools := ["constructor"]))
    ensures SyncArgsOf([SHORT_TOOLS, "constructor"], keys) == Failure(UnknownTools(["constructor"]))
  {
    var o := Defaults(keys).(tools := ["constructor"]);
    OptionsOfInherited(keys);
    assert "constructor" in SelectTools.PROTOTYPE_NAMES;
    var own := SelectTools.Unknowns(o.tools, keys, SelectTools.OwnKeys);
    assert "constructor" in own;
    assert own == ["constructor"] by {
      assert |own| <= 1;
    }
  }

  /** `-t constructor` parses to the defaults with that one tool. */
  lemma OptionsOfInherited(keys: seq<string>)
    ensures OptionsFrom([SHORT_TOOLS, "constructor"], 0, Defaults(keys)) == Success(Defaults(keys).(tools := ["constructor"]))
  {
    SelectTools.ConstructorNormal();
    ToolListRoundTrip(["constructor"]);
    assert Join(["constructor"], ",") == "constructor";
    var args := [SHORT_TOOLS, "constructor"];
    var o := Defaults(keys).(tools := ["constructor"]);
    assert OptionsFrom(args, 2, o) == Success(o);
  }

  /** Tool names that are all registry keys leave nothing unknown. */
  lemma AllKnown(tools: seq<string>, keys: seq<string>, lookup: SelectTools.Lookup)
    ensures (forall i :: 0 <= i < |tools| ==> tools[i] in keys) ==> SelectTools.Unknowns(tools, keys, lookup) == []
  {
    var u := SelectTools.Unknowns(tools, keys, lookup);
    if u != [] {
      assert u[0] in u;
    }
  }

  /** `parseArgs`, over an explicit argument list. */
  method ParseArgs(args: seq<string>, keys: seq<string>) returns (r: Result<SyncOptions, CliError>)
    ensures r == SyncArgsOf(args, keys)
  {
    var config := Defaults(keys);
    var i := 0;
    while i < |args|
      invariant i <= |args|
      invariant OptionsFrom(args, i, config) == OptionsFrom(args, 0, Defaults(keys))
      decreases |args| - i
    {
      var arg := args[i];
      if arg == OPTION_TOOLS || arg == SHORT_TOOLS {
        if i + 1 >= |args| || args[i + 1] == "" {
          return Failure(MissingValue(OPTION_TOOLS));
        }
        var tools := ToolList(args[i + 1]);
        if tools.Failure? {
          return Failure(tools.error);
        }
        config := config.(tools := tools.value);
        i := i + 2;
      } else if arg == OPTION_CLEAN || arg == SHORT_CLEAN {
        config := config.(clean := true);
        i := i + 1;
      } else if arg == OPTION_PREVIEW || arg == SHORT_PREVIEW {
        config := config.(preview := true);
        i := i + 1;
      } else if arg == OPTION_SOURCE || arg == SHORT_SOURCE {
        if i + 1 >= |args| || args[i + 1] == "" {
          return Failure(MissingValue(OPTION_SOURCE));
        }
        config := config.(source := Some(Trim(args[i + 1])));
        i := i + 2;
      } else if arg == OPTION_HELP || arg == SHORT_HELP {
        config := config.(help := true);
        i := i + 1;
      } else {
        return Failure(UnknownOption(arg));
      }
    }
    var invalid := SelectTools.Unknowns(config.tools, keys, SelectTools.OwnKeys);
    if invalid != [] {
      return Failure(UnknownTools(invalid));
    }
    r := Success(config);
  }

  /** An option of `parseArgs` as a user types it (long spellings). */
  datatype SyncFlag = ToolsFlag(names: seq<string>) | SourceFlag(url: string) | CleanFlag | PreviewFlag | HelpFlag

  predicate WellFormed(f: SyncFlag) {
    match f
    case ToolsFlag(names) => names != [] && forall i :: 0 <= i < |names| ==> PlainName(names[i])
    case SourceFlag(url) => url != []
    case _ => true
  }

  function RenderFlag(f: SyncFlag): seq<string> {
    match f
    case ToolsFlag(names) => [OPTION_TOOLS, Join(names, ",")]
    case SourceFlag(url) => [OPTION_SOURCE, url]
    case CleanFlag => [OPTION_CLEAN]
    case PreviewFlag => [OPTION_PREVIEW]
    case HelpFlag => [OPTION_HELP]
  }

  function RenderFlags(flags: seq<SyncFlag>): seq<string> {
    if flags == [] then [] else RenderFlag(flags[0]) + RenderFlags(flags[1..])
  }

  function ApplyFlag(f: SyncFlag, o: SyncOptions): SyncOptions {
    match f
    case ToolsFlag(names) => o.(tools := names)
    case SourceFlag(url) => o.(source := Some(Trim(url)))
    case CleanFlag => o.(clean := true)
    case PreviewFlag => o.(preview := true)
    case HelpFlag => o.(help := true)
  }

  function ApplyFlags(flags: seq<SyncFlag>, o: SyncOptions): SyncOptions {
    if flags == [] then o else ApplyFlags(flags[1..], ApplyFlag(flags[0], o))
  }

  /** A typed `--tools` list is read back as the names it joins. */
  lemma ToolsFlagRendered(args: seq<string>, i: nat, names: seq<string>, o: SyncOptions)
    requires i + 1 < |args| && args[i] == OPTION_TOOLS && args[i + 1] == Join(names, ",")
    requires names != [] && forall k :: 0 <= k < |names| ==> PlainName(names[k])
    ensures OptionsFrom(args, i, o) == OptionsFrom(args, i + 2, o.(tools := names))
  {
    JoinNonEmpty(names, ",");
    ToolListRoundTrip(names);
  }

  /** A typed option at position `i` is read back as itself. */
  lemma FlagAt(args: seq<string>, i: nat, f: SyncFlag, o: SyncOptions)
    requires WellFormed(f)
    requires i + |RenderFlag(f)| <= |args| && args[i..i + |RenderFlag(f)|] == RenderFlag(f)
    ensures OptionsFrom(args, i, o) == OptionsFrom(args, i + |RenderFlag(f)|, ApplyFlag(f, o))
  {
    assert args[i] == args[i..i + |RenderFlag(f)|][0];
    match f {
      case ToolsFlag(names) =>
        assert args[i + 1] == args[i..i + 2][1];
        ToolsFlagRendered(args, i, names, o);
      case SourceFlag(url) =>
        assert args[i + 1] == args[i..i + 2][1];
      case CleanFlag =>
      case PreviewFlag =>
      case HelpFlag =>
    }
  }

  /** The option loop stops with what it has gathered at the end of the args. */
  lemma OptionsAtEnd(args: seq<string>, o: SyncOptions)
    ensures OptionsFrom(args, |args|, o) == Success(o)
  {
  }

  /** A suffix made of two parts splits at the first part's length. */
  lemma SuffixParts(args: seq<string>, i: nat, a: seq<string>, b: seq<string>)
    requires i <= |args| && args[i..] == a + b
    ensures i + |a| <= |args| && args[i..i + |a|] == a && args[i + |a|..] == b
  {
    assert args[i..i + |a|] == args[i..][..|a|];
    assert args[i + |a|..] == args[i..][|a|..];
  }

  /** Typed options rendered from position `i` to the end parse back to the
      options applied in order. */
  lemma {:induction false} OptionsRenderedAt(args: seq<string>, i: nat, flags: seq<SyncFlag>, o: SyncOptions)
    requires forall k :: 0 <= k < |flags| ==> WellFormed(flags[k])
    requires i <= |args| && args[i..] == RenderFlags(flags)
    ensures OptionsFrom(args, i, o) == Success(ApplyFlags(flags, o))
    decreases |flags|
  {
    if flags == [] {
      assert |args[i..]| == 0;
      OptionsAtEnd(args, o);
    } else {
      var f := flags[0];
      SuffixParts(args, i, RenderFlag(f), RenderFlags(flags[1..]));
      FlagAt(args, i, f, o);
      OptionsRenderedAt(args, i + |RenderFlag(f)|, flags[1..], ApplyFlag(f, o));
    }
  }

  /** Typed options parse back to the options applied in order. */
  lemma OptionsRendered(pre: seq<string>, flags: seq<SyncFlag>, o: SyncOptions)
    requires forall i :: 0 <= i < |flags| ==> WellFormed(flags[i])
    ensures OptionsFrom(pre + RenderFlags(flags), |pre|, o) == Success(ApplyFlags(flags, o))
  {
    var args := pre + RenderFlags(flags);
    assert args[|pre|..] == RenderFlags(flags);
    OptionsRenderedAt(args, |pre|, flags, o);
  }

  /** Typed options with registry tool names parse to the options applied
      in order over the defaults. */
  lemma SyncArgsRoundTrip(flags: seq<SyncFlag>, keys: seq<string>)
    requires forall i :: 0 <= i < |flags| ==> WellFormed(flags[i])
    requires forall i :: 0 <= i < |ApplyFlags(flags, Defaults(keys)).tools| ==> ApplyFlags(flags, Defaults(keys)).tools[i] in keys
    ensures SyncArgsOf(RenderFlags(flags), keys) == Success(ApplyFlags(flags, Defaults(keys)))
  {
    OptionsRendered([], flags, Defaults(keys));
    assert [] + RenderFlags(flags) == RenderFlags(flags);
    AllKnown(ApplyFlags(flags, Defaults(keys)).tools, keys, SelectTools.OwnKeys);
  }
}
