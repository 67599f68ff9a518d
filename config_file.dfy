/** The link configuration of the current CLI (src/skill-repo/config-file.js):
    normalising an untyped record that may use legacy field names, the
    payload `writeConfig` stores, and `readConfig`'s null-on-failure read. */
module ConfigFile {
  import opened Wrappers
  import opened Strings
  import opened FileTree

  const HEYMARK_DIR: string := ".heymark"
  const CONFIG_FILE: string := "config.json"
  const CACHE_DIR: string := "cache"
  const DEFAULT_BRANCH: string := "main"

  /** `.heymark/config.json`, relative to the project root. */
  const CONFIG_PATH: Path := [HEYMARK_DIR, CONFIG_FILE]

  datatype Config = Config(repoUrl: string, branch: string, folder: string)

  datatype ConfigError = InvalidConfig

  /** `typeof raw[k] === "string" && raw[k].trim()`: the trimmed field when it
      is a string with something besides whitespace. */
  function NonBlankField(raw: Json, k: string): (r: Option<string>)
    ensures r.Some? <==> StringField(raw, k).Some? && !AllSpace(StringField(raw, k).value)
    ensures r.Some? ==> r.value == Trim(StringField(raw, k).value) && r.value != [] && Trimmed(r.value)
  {
    match StringField(raw, k)
    case None => None
    case Some(s) =>
      TrimBlank(s);
      if Trim(s) != [] then Some(Trim(s)) else None
  }

  /** `typeof raw[k] === "string" ? raw[k].trim() : undefined`. */
  function TrimmedField(raw: Json, k: string): (r: Option<string>)
    ensures r.Some? <==> StringField(raw, k).Some?
    ensures r.Some? ==> r.value == Trim(StringField(raw, k).value)
  {
    match StringField(raw, k)
    case None => None
    case Some(s) => Some(Trim(s))
  }

  /** `parseRawConfig`. */
  function NormalizeConfig(raw: Json): (r: Option<Config>)
    ensures !raw.JObj? ==> r.None?
    ensures r.Some? ==> r.value.repoUrl != [] && Trimmed(r.value.repoUrl)
    ensures r.Some? ==> r.value.branch != [] && Trimmed(r.value.branch)
    ensures r.Some? ==> Trimmed(r.value.folder)
  {
    if !raw.JObj? then None
    else
      var repoUrl :=
        if NonBlankField(raw, "repoUrl").Some? then NonBlankField(raw, "repoUrl").value
        else if NonBlankField(raw, "skillSource").Some? then NonBlankField(raw, "skillSource").value
        else if NonBlankField(raw, "rulesSource").Some? then NonBlankField(raw, "rulesSource").value
        else "";
      if repoUrl == "" then None
      else
        var branch := if NonBlankField(raw, "branch").Some? then NonBlankField(raw, "branch").value else DEFAULT_BRANCH;
        var folder :=
          if TrimmedField(raw, "folder").Some? then TrimmedField(raw, "folder").value
          else if TrimmedField(raw, "skillSourceDir").Some? then TrimmedField(raw, "skillSourceDir").value
          else if TrimmedField(raw, "rulesSourceDir").Some? then TrimmedField(raw, "rulesSourceDir").value
          else "";
        Some(Config(repoUrl, branch, folder))
  }

  /** The repository aliases, in the order they are consulted. */
  const REPO_ALIASES: seq<string> := ["repoUrl", "skillSource", "rulesSource"]

  /** The folder aliases, in the order they are consulted. */
  const FOLDER_ALIASES: seq<string> := ["folder", "skillSourceDir", "rulesSourceDir"]

  /** A record is accepted exactly when it is an object and one of the
      repository aliases holds a non-blank string; the first such alias
      supplies the trimmed `repoUrl`. */
  lemma RepoUrlFromFirstAlias(raw: Json)
    ensures NormalizeConfig(raw).Some? <==>
      raw.JObj? && exists i :: 0 <= i < |REPO_ALIASES| && NonBlankField(raw, REPO_ALIASES[i]).Some?
    ensures forall i ::
      (0 <= i < |REPO_ALIASES| && NormalizeConfig(raw).Some? && NonBlankField(raw, REPO_ALIASES[i]).Some? &&
       (forall j :: 0 <= j < i ==> NonBlankField(raw, REPO_ALIASES[j]).None?)) ==>
        NormalizeConfig(raw).value.repoUrl == Trim(StringField(raw, REPO_ALIASES[i]).value)
  {
    var a, b, c := NonBlankField(raw, "repoUrl"), NonBlankField(raw, "skillSource"), NonBlankField(raw, "rulesSource");
    assert REPO_ALIASES[0] == "repoUrl" && REPO_ALIASES[1] == "skillSource" && REPO_ALIASES[2] == "rulesSource";
    NormalizeRepoUrl(raw);
    forall i | 0 <= i < |REPO_ALIASES| && NormalizeConfig(raw).Some? && NonBlankField(raw, REPO_ALIASES[i]).Some? &&
       (forall j :: 0 <= j < i ==> NonBlankField(raw, REPO_ALIASES[j]).None?)
      ensures NormalizeConfig(raw).value.repoUrl == Trim(StringField(raw, REPO_ALIASES[i]).value)
    {
      if i > 0 { assert a.None?; }
      if i > 1 { assert b.None?; }
    }
  }

  /** `parseRawConfig` takes the repository from the first non-blank alias. */
  lemma NormalizeRepoUrl(raw: Json)
    ensures var a, b, c := NonBlankField(raw, "repoUrl"), NonBlankField(raw, "skillSource"), NonBlankField(raw, "rulesSource");
      && (NormalizeConfig(raw).Some? <==> raw.JObj? && (a.Some? || b.Some? || c.Some?))
      && (NormalizeConfig(raw).Some? ==>
            NormalizeConfig(raw).value.repoUrl == if a.Some? then a.value else if b.Some? then b.value else c.value)
  {
  }

  /** The branch depends only on the `branch` field, whichever alias gave the
      repository: its trimmed value when non-blank, else `main`. */
  lemma BranchDefault(raw: Json)
    requires NormalizeConfig(raw).Some?
    ensures NormalizeConfig(raw).value.branch == DEFAULT_BRANCH <==>
      StringField(raw, "branch").None? || AllSpace(StringField(raw, "branch").value) ||
      Trim(StringField(raw, "branch").value) == DEFAULT_BRANCH
    ensures StringField(raw, "branch").Some? && !AllSpace(StringField(raw, "branch").value) ==>
      NormalizeConfig(raw).value.branch == Trim(StringField(raw, "branch").value)
  {
  }

  /** The folder comes from the first folder alias that is a string at all:
      a blank `folder` still hides `skillSourceDir` and `rulesSourceDir`. */
  lemma FolderFromFirstString(raw: Json)
    requires NormalizeConfig(raw).Some?
    ensures (forall i :: 0 <= i < |FOLDER_ALIASES| ==> StringField(raw, FOLDER_ALIASES[i]).None?) ==>
      NormalizeConfig(raw).value.folder == ""
    ensures forall i ::
      (0 <= i < |FOLDER_ALIASES| && StringField(raw, FOLDER_ALIASES[i]).Some? &&
       (forall j :: 0 <= j < i ==> StringField(raw, FOLDER_ALIASES[j]).None?)) ==>
        NormalizeConfig(raw).value.folder == Trim(StringField(raw, FOLDER_ALIASES[i]).value)
  {
    assert FOLDER_ALIASES[0] == "folder";
    assert FOLDER_ALIASES[1] == "skillSourceDir";
    assert FOLDER_ALIASES[2] == "rulesSourceDir";
  }

  /** A configuration as the plain object `{ repoUrl, branch, folder }`. */
  function AsRecord(c: Config): Json {
    JObj(map["repoUrl" := JStr(c.repoUrl), "branch" := JStr(c.branch), "folder" := JStr(c.folder)])
  }

  /** The object `writeConfig` serialises: `repoUrl` and `branch` always,
      `folder` only when it is not empty. */
  function Payload(c: Config): (p: Json)
    ensures p.JObj? && StringField(p, "repoUrl") == Some(c.repoUrl)
    ensures c.branch != [] ==> StringField(p, "branch") == Some(c.branch)
    ensures c.branch == [] ==> StringField(p, "branch") == Some(DEFAULT_BRANCH)
    ensures "folder" in p.fields <==> c.folder != []
    ensures c.folder != [] ==> StringField(p, "folder") == Some(c.folder)
    ensures forall k :: k in p.fields ==> k == "repoUrl" || k == "branch" || k == "folder"
  {
    var base := map["repoUrl" := JStr(c.repoUrl), "branch" := JStr(if c.branch != [] then c.branch else DEFAULT_BRANCH)];
    JObj(if c.folder != [] then base["folder" := JStr(c.folder)] else base)
  }

  /** Normalising what normalisation produced gives it back. */
  lemma NormalizeIdempotent(raw: Json)
    requires NormalizeConfig(raw).Some?
    ensures NormalizeConfig(AsRecord(NormalizeConfig(raw).value)) == NormalizeConfig(raw)
  {
    var c := NormalizeConfig(raw).value;
    var rec := AsRecord(c);
    TrimOfTrimmed(c.repoUrl);
    TrimOfTrimmed(c.branch);
    TrimOfTrimmed(c.folder);
    TrimBlank(c.repoUrl);
    TrimBlank(c.branch);
    assert NonBlankField(rec, "repoUrl") == Some(c.repoUrl);
    assert NonBlankField(rec, "branch") == Some(c.branch);
    assert TrimmedField(rec, "folder") == Some(c.folder);
  }

  /** Normalising the written payload gives the same configuration as
      normalising the input. */
  lemma PayloadNormalizes(raw: Json)
    requires NormalizeConfig(raw).Some?
    ensures NormalizeConfig(Payload(NormalizeConfig(raw).value)) == NormalizeConfig(raw)
  {
    var c := NormalizeConfig(raw).value;
    var p := Payload(c);
    TrimOfTrimmed(c.repoUrl);
    TrimOfTrimmed(c.branch);
    TrimOfTrimmed(c.folder);
    TrimBlank(c.repoUrl);
    TrimBlank(c.branch);
    assert NonBlankField(p, "repoUrl") == Some(c.repoUrl);
    assert NonBlankField(p, "branch") == Some(c.branch);
    assert "skillSourceDir" !in p.fields && "rulesSourceDir" !in p.fields;
    if c.folder != [] {
      assert TrimmedField(p, "folder") == Some(c.folder);
    } else {
      assert TrimmedField(p, "folder").None?;
    }
  }

  /** `readConfig`: no file, a directory, or text the model does not hold as
      JSON all read as null; a JSON value reads as its normalisation. */
  function ReadConfig(t: Tree): (r: Option<Config>)
    ensures CONFIG_PATH !in t ==> r.None?
    ensures CONFIG_PATH in t && t[CONFIG_PATH].JsonFile? ==> r == NormalizeConfig(t[CONFIG_PATH].value)
    ensures CONFIG_PATH in t && !t[CONFIG_PATH].JsonFile? ==> r.None?
  {
    if CONFIG_PATH !in t then None
    else match t[CONFIG_PATH]
      case JsonFile(v) => NormalizeConfig(v)
      case _ => None
  }

  /** The tree after `writeConfig(raw)`: `.heymark` is created first, even
      when the input is then rejected. */
  function ConfigWritten(t: Tree, raw: Json): Tree {
    var dirs := if [HEYMARK_DIR] in t then t else Mkdirs(t, [HEYMARK_DIR]);
    match NormalizeConfig(raw)
    case None => dirs
    case Some(c) => dirs[CONFIG_PATH := JsonFile(Payload(c))]
  }

  /** `writeConfig`: fails, as the source's `throw`, when the input does not
      normalise. */
  method WriteConfig(fs: FileSystem, raw: Json) returns (r: Result<Path, ConfigError>)
    modifies fs
    ensures r.Failure? <==> NormalizeConfig(raw).None?
    ensures r.Success? ==> r.value == CONFIG_PATH
    ensures fs.tree == ConfigWritten(old(fs.tree), raw)
  {
    if !fs.Exists([HEYMARK_DIR]) {
      fs.MkdirP([HEYMARK_DIR]);
    }
    var data := NormalizeConfig(raw);
    if data.None? {
      return Failure(InvalidConfig);
    }
    var payload := map["repoUrl" := JStr(data.value.repoUrl),
                       "branch" := JStr(if data.value.branch != [] then data.value.branch else DEFAULT_BRANCH)];
    if data.value.folder != [] {
      payload := payload["folder" := JStr(data.value.folder)];
    }
    fs.WriteJson(CONFIG_PATH, JObj(payload));
    r := Success(CONFIG_PATH);
  }

  /** Reading back what `writeConfig` wrote gives the normalised input, so
      `repoUrl` survives and branch and folder come back default-filled. */
  lemma WriteThenRead(t: Tree, raw: Json)
    requires NormalizeConfig(raw).Some?
    ensures ReadConfig(ConfigWritten(t, raw)) == NormalizeConfig(raw)
  {
    PayloadNormalizes(raw);
  }

  /** A rejected write leaves any earlier configuration readable as before. */
  lemma RejectedWriteKeepsConfig(t: Tree, raw: Json)
    requires NormalizeConfig(raw).None?
    ensures ReadConfig(ConfigWritten(t, raw)) == ReadConfig(t)
  {
  }
}
