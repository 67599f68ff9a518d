/** `heymark link <repo-url> [--branch <name>] [--folder <path>]`
    (src/commands/link/index.js and its flag handlers): the flag loop, the
    configuration it builds and the write of that configuration. */
module LinkCommand {
  import opened Wrappers
  import opened Strings
  import opened FileTree
  import ConfigFile

  /** A flag handler: the configuration key it fills and its two spellings. */
  datatype FlagHandler = FlagHandler(key: string, long: string, short: string)

  /** flags/branch.js. */
  const BRANCH_FLAG: FlagHandler := FlagHandler("branch", "--branch", "-b")
  /** flags/folder.js is not part of this model; its handler is taken to
      mirror flags/branch.js under the spellings the help text gives. */
  const FOLDER_FLAG: FlagHandler := FlagHandler("folder", "--folder", "-f")
  const HANDLERS: seq<FlagHandler> := [BRANCH_FLAG, FOLDER_FLAG]

  datatype LinkError =
    | MissingRepoUrl           // no URL, an empty one, or a flag in its place
    | MissingValue(key: string) // a flag without a (non-empty) value after it
    | UnknownFlag(flag: string)
    | ConfigRejected           // `writeConfig` refused the configuration

  /** A handler's `is(flag)`. */
  predicate Is(h: FlagHandler, flag: string) {
    flag == h.long || flag == h.short
  }

  datatype Parsed = Parsed(value: string, advance: nat)

  /** A handler's `parse(flags, index)`: the argument after the flag,
      trimmed, and one argument consumed; a missing or empty one is fatal. */
  function Parse(h: FlagHandler, flags: seq<string>, index: nat): (r: Result<Parsed, LinkError>)
    ensures r.Success? <==> index + 1 < |flags| && flags[index + 1] != []
    ensures r.Success? ==> Trimmed(r.value.value) && r.value.advance == 1
    ensures r.Failure? ==> r.error == MissingValue(h.key)
  {
    if index + 1 < |flags| && flags[index + 1] != [] then Success(Parsed(Trim(flags[index + 1]), 1))
    else Failure(MissingValue(h.key))
  }

  /** `handlers.find((h) => h.is(flag))`. */
  function FindHandler(handlers: seq<FlagHandler>, flag: string): (r: Option<FlagHandler>)
    ensures r.None? <==> forall i :: 0 <= i < |handlers| ==> !Is(handlers[i], flag)
    ensures r.Some? ==> r.value in handlers && Is(r.value, flag)
    ensures handlers != [] && Is(handlers[0], flag) ==> r == Some(handlers[0])
  {
    if handlers == [] then None
    else if Is(handlers[0], flag) then Some(handlers[0])
    else
      assert forall i :: 1 <= i < |handlers| ==> handlers[i] == handlers[1..][i - 1];
      FindHandler(handlers[1..], flag)
  }

  function HandlerKeys(handlers: seq<FlagHandler>): (r: seq<string>)
    ensures |r| == |handlers| && forall i :: 0 <= i < |handlers| ==> r[i] == handlers[i].key
  {
    seq(|handlers|, i requires 0 <= i < |handlers| => handlers[i].key)
  }

  lemma KeyOf(handlers: seq<FlagHandler>, h: FlagHandler)
    requires h in handlers
    ensures h.key in HandlerKeys(handlers)
  {
    var i :| 0 <= i < |handlers| && handlers[i] == h;
    assert HandlerKeys(handlers)[i] == h.key;
  }

  /** The result of the `parseFlags` loop from position `i` on, with `acc`
      the keys filled so far: a later flag overwrites an earlier one. */
  function ParseFlagsFrom(flags: seq<string>, handlers: seq<FlagHandler>, i: nat, acc: map<string, string>)
    : (r: Result<map<string, string>, LinkError>)
    requires i <= |flags|
    ensures r.Success? ==> forall k :: k in r.value ==> k in acc || k in HandlerKeys(handlers)
    ensures r.Success? && (forall k :: k in acc ==> Trimmed(acc[k])) ==>
              forall k :: k in r.value ==> Trimmed(r.value[k])
    ensures r.Success? ==> forall k :: k in acc ==> k in r.value
    ensures i == |flags| ==> r == Success(acc)
    ensures r.Failure? ==> r.error.UnknownFlag? || r.error.MissingValue?
    decreases |flags| - i
  {
    if i == |flags| then Success(acc)
    else
      match FindHandler(handlers, flags[i])
      case None => Failure(UnknownFlag(flags[i]))
      case Some(h) =>
        match Parse(h, flags, i)
        case Failure(e) => Failure(e)
        case Success(p) =>
          KeyOf(handlers, h);
          ParseFlagsFrom(flags, handlers, i + 1 + p.advance, acc[h.key := p.value])
  }

  /** `parseFlags`. */
  method ParseFlags(flags: seq<string>, handlers: seq<FlagHandler>) returns (r: Result<map<string, string>, LinkError>)
    ensures r == ParseFlagsFrom(flags, handlers, 0, map[])
  {
    var result: map<string, string> := map[];
    var i := 0;
    while i < |flags|
      invariant i <= |flags|
      invariant ParseFlagsFrom(flags, handlers, i, result) == ParseFlagsFrom(flags, handlers, 0, map[])
      decreases |flags| - i
    {
      var handler := FindHandler(handlers, flags[i]);
      if handler.None? {
        return Failure(UnknownFlag(flags[i]));
      }
      var parsed := Parse(handler.value, flags, i);
      if parsed.Failure? {
        return Failure(parsed.error);
      }
      result := result[handler.value.key := parsed.value.value];
      i := i + 1 + parsed.value.advance;
    }
    r := Success(result);
  }

  // ---------------------------------------------------------------------
  // Flags as a user writes them
  // ---------------------------------------------------------------------

  /** One flag with its value, in its long or short spelling. */
  datatype Setting = Setting(handler: FlagHandler, short: bool, value: string)

  function Spelling(s: Setting): string {
    if s.short then s.handler.short else s.handler.long
  }

  function Render(settings: seq<Setting>): (r: seq<string>)
    ensures |r| == 2 * |settings|
  {
    if settings == [] then [] else [Spelling(settings[0]), settings[0].value] + Render(settings[1..])
  }

  /** The keys the settings fill, each with its last value trimmed. */
  function Expected(settings: seq<Setting>, acc: map<string, string>): map<string, string> {
    if settings == [] then acc
    else Expected(settings[1..], acc[settings[0].handler.key := Trim(settings[0].value)])
  }

  /** Each spelling of a known flag is claimed by its own handler. */
  lemma FindsOwnHandler(s: Setting)
    requires s.handler in HANDLERS
    ensures FindHandler(HANDLERS, Spelling(s)) == Some(s.handler)
  {
    assert HANDLERS[0] == BRANCH_FLAG && HANDLERS[1] == FOLDER_FLAG;
    assert HANDLERS[1..] == [FOLDER_FLAG];
  }

  /** Rendering settings and parsing them back fills each key with the last
      value given for it, trimmed. */
  lemma {:induction false} ParseRendered(pre: seq<string>, settings: seq<Setting>, acc: map<string, string>)
    requires forall i :: 0 <= i < |settings| ==> settings[i].handler in HANDLERS && settings[i].value != []
    ensures ParseFlagsFrom(pre + Render(settings), HANDLERS, |pre|, acc) == Success(Expected(settings, acc))
    decreases |settings|
  {
    if settings == [] {
      assert pre + Render(settings) == pre;
    } else {
      var s := settings[0];
      var flags := pre + Render(settings);
      var next := pre + [Spelling(s), s.value];
      assert flags == next + Render(settings[1..]);
      assert flags[|pre|] == Spelling(s) && flags[|pre| + 1] == s.value;
      FindsOwnHandler(s);
      ParseRendered(next, settings[1..], acc[s.handler.key := Trim(s.value)]);
    }
  }

  // ---------------------------------------------------------------------
  // parseConfig and runLink
  // ---------------------------------------------------------------------

  /** What `parseConfig(flags)` returns: the URL trimmed, the branch or
      `main`, the folder or empty. */
  function LinkConfig(flags: seq<string>): (r: Result<ConfigFile.Config, LinkError>)
    ensures r == Failure(MissingRepoUrl) <==> flags == [] || flags[0] == [] || StartsWith(flags[0], "--")
    ensures r.Success? ==> r.value.repoUrl == Trim(flags[0])
    ensures r.Success? ==> Trimmed(r.value.branch) && r.value.branch != [] && Trimmed(r.value.folder)
  {
    if flags == [] || flags[0] == [] || StartsWith(flags[0], "--") then Failure(MissingRepoUrl)
    else
      match ParseFlagsFrom(flags[1..], HANDLERS, 0, map[])
      case Failure(e) => Failure(e)
      case Success(parsed) =>
        TrimOfTrimmed(ConfigFile.DEFAULT_BRANCH);
        TrimOfTrimmed("");
        var branch := if "branch" in parsed && parsed["branch"] != [] then parsed["branch"] else ConfigFile.DEFAULT_BRANCH;
        var folder := if "folder" in parsed then parsed["folder"] else "";
        Success(ConfigFile.Config(Trim(flags[0]), branch, folder))
  }

  /** `parseConfig`. */
  method ParseConfig(flags: seq<string>) returns (r: Result<ConfigFile.Config, LinkError>)
    ensures r == LinkConfig(flags)
  {
    if |flags| == 0 || flags[0] == "" || StartsWith(flags[0], "--") {
      return Failure(MissingRepoUrl);
    }
    var parsed := ParseFlags(flags[1..], HANDLERS);
    if parsed.Failure? {
      return Failure(parsed.error);
    }
    var branch := if "branch" in parsed.value && parsed.value["branch"] != "" then parsed.value["branch"] else ConfigFile.DEFAULT_BRANCH;
    var folder := if "folder" in parsed.value then parsed.value["folder"] else "";
    r := Success(ConfigFile.Config(Trim(flags[0]), branch, folder));
  }

  /** A configuration built from trimmed fields with a branch normalises to
      itself exactly when its URL is not empty. */
  lemma RecordNormalizes(c: ConfigFile.Config)
    requires Trimmed(c.repoUrl) && Trimmed(c.branch) && c.branch != [] && Trimmed(c.folder)
    ensures ConfigFile.NormalizeConfig(ConfigFile.AsRecord(c)) == if c.repoUrl == [] then None else Some(c)
  {
    var rec := ConfigFile.AsRecord(c);
    TrimOfTrimmed(c.repoUrl);
    TrimOfTrimmed(c.branch);
    TrimOfTrimmed(c.folder);
    TrimBlank(c.repoUrl);
    TrimBlank(c.branch);
    assert StringField(rec, "repoUrl") == Some(c.repoUrl);
    assert StringField(rec, "branch") == Some(c.branch);
    assert StringField(rec, "folder") == Some(c.folder);
  }

  /** The tree after `runLink(flags)`. */
  function Linked(t: Tree, flags: seq<string>): Tree {
    match LinkConfig(flags)
    case Failure(_) => t
    case Success(c) => ConfigFile.ConfigWritten(t, ConfigFile.AsRecord(c))
  }

  /** `runLink`: parse, then `writeConfig`; the configuration read back
      afterwards is the one parsed. */
  method RunLink(fs: FileSystem, flags: seq<string>) returns (r: Result<Path, LinkError>)
    modifies fs
    ensures fs.tree == Linked(old(fs.tree), flags)
    ensures r.Failure? <==> LinkConfig(flags).Failure? || LinkConfig(flags).value.repoUrl == []
    ensures r.Success? ==> r.value == ConfigFile.CONFIG_PATH && ConfigFile.ReadConfig(fs.tree) == Some(LinkConfig(flags).value)
  {
    var config := ParseConfig(flags);
    if config.Failure? {
      return Failure(config.error);
    }
    RecordNormalizes(config.value);
    var written := ConfigFile.WriteConfig(fs, ConfigFile.AsRecord(config.value));
    if written.Failure? {
      return Failure(ConfigRejected);
    }
    ConfigFile.WriteThenRead(old(fs.tree), ConfigFile.AsRecord(config.value));
    r := Success(written.value);
  }

  /** A link with a URL and flags as a user writes them stores the URL
      trimmed and the last branch and folder given, defaulted as
      `parseConfig` does. */
  lemma LinkThenRead(t: Tree, url: string, settings: seq<Setting>)
    requires url != [] && !StartsWith(url, "--") && Trim(url) != []
    requires forall i :: 0 <= i < |settings| ==> settings[i].handler in HANDLERS && settings[i].value != []
    ensures var m := Expected(settings, map[]);
      ConfigFile.ReadConfig(Linked(t, [url] + Render(settings))) == Some(ConfigFile.Config(
        Trim(url),
        if "branch" in m && m["branch"] != [] then m["branch"] else ConfigFile.DEFAULT_BRANCH,
        if "folder" in m then m["folder"] else ""))
  {
    var flags := [url] + Render(settings);
    assert flags[1..] == [] + Render(settings);
    ParseRendered([], settings, map[]);
    var c := LinkConfig(flags).value;
    RecordNormalizes(c);
    ConfigFile.WriteThenRead(t, ConfigFile.AsRecord(c));
  }

  /** A URL of only whitespace passes `parseConfig` but `writeConfig`
      rejects it, after creating `.heymark`: an earlier configuration stays. */
  lemma BlankUrlKeepsConfig(t: Tree, flags: seq<string>)
    requires LinkConfig(flags).Success? && Trim(flags[0]) == []
    ensures ConfigFile.ReadConfig(Linked(t, flags)) == ConfigFile.ReadConfig(t)
    ensures [ConfigFile.HEYMARK_DIR] in Linked(t, flags)
  {
    RecordNormalizes(LinkConfig(flags).value);
    var dirs := if [ConfigFile.HEYMARK_DIR] in t then t else Mkdirs(t, [ConfigFile.HEYMARK_DIR]);
    if [ConfigFile.HEYMARK_DIR] !in t {
      assert [ConfigFile.HEYMARK_DIR][..1] == [ConfigFile.HEYMARK_DIR];
    }
  }
}
