/** The legacy configuration (scripts/lib/config.js): `loadConfig` knows only
    `rulesSource`, `branch` and `rulesSourceDir`; `writeConfig` stores what
    its caller passed, defaulting the branch. */
module LegacyConfig {
  import opened Wrappers
  import opened Strings
  import opened FileTree
  import ConfigFile

  datatype RuleBookConfig = RuleBookConfig(rulesSource: string, branch: string, rulesSourceDir: string)

  /** What a caller hands to `writeConfig`; an absent field is `undefined`. */
  datatype RuleBookInput = RuleBookInput(rulesSource: Option<string>, branch: Option<string>, rulesSourceDir: Option<string>)

  const CONFIG_PATH: Path := ConfigFile.CONFIG_PATH
  const DEFAULT_BRANCH: string := "main"

  /** The normalisation inside `loadConfig`, on a parsed JSON value. */
  function LoadValue(data: Json): (r: Option<RuleBookConfig>)
    ensures r.Some? <==> StringField(data, "rulesSource").Some? && !AllSpace(StringField(data, "rulesSource").value)
    ensures r.Some? ==> r.value.rulesSource == Trim(StringField(data, "rulesSource").value) && r.value.rulesSource != []
    ensures r.Some? ==> r.value.branch != [] && Trimmed(r.value.branch) && Trimmed(r.value.rulesSourceDir)
  {
    match StringField(data, "rulesSource")
    case None => None
    case Some(source) =>
      TrimBlank(source);
      if Trim(source) == [] then None
      else
        var branch :=
          match StringField(data, "branch")
          case Some(b) => if Trim(b) != [] then Trim(b) else DEFAULT_BRANCH
          case None => DEFAULT_BRANCH;
        var dir :=
          match StringField(data, "rulesSourceDir")
          case Some(d) => Trim(d)
          case None => "";
        Some(RuleBookConfig(Trim(source), branch, dir))
  }

  /** `loadConfig`: null when the file is absent or does not hold usable JSON. */
  function LoadConfig(t: Tree): (r: Option<RuleBookConfig>)
    ensures CONFIG_PATH !in t ==> r.None?
    ensures CONFIG_PATH in t && !t[CONFIG_PATH].JsonFile? ==> r.None?
  {
    if CONFIG_PATH !in t then None
    else match t[CONFIG_PATH]
      case JsonFile(v) => LoadValue(v)
      case _ => None
  }

  /** Only `rulesSource` names the repository: the current CLI's `repoUrl`
      and `skillSource` are not read. */
  lemma LoadIgnoresNewNames(data: Json)
    requires StringField(data, "rulesSource").None?
    ensures LoadValue(data).None?
  {
  }

  /** The object `writeConfig` serialises: `rulesSource` as given (an
      `undefined` one is dropped by `JSON.stringify`), `branch || "main"`, and
      `rulesSourceDir` only when truthy. */
  function LegacyPayload(c: RuleBookInput): (p: Json)
    ensures p.JObj?
    ensures StringField(p, "rulesSource") == c.rulesSource
    ensures StringField(p, "branch") == Some(if c.branch.Some? && c.branch.value != [] then c.branch.value else DEFAULT_BRANCH)
    ensures StringField(p, "rulesSourceDir").Some? <==> c.rulesSourceDir.Some? && c.rulesSourceDir.value != []
    ensures StringField(p, "rulesSourceDir").Some? ==> StringField(p, "rulesSourceDir") == c.rulesSourceDir
  {
    var branch := if c.branch.Some? && c.branch.value != [] then c.branch.value else DEFAULT_BRANCH;
    var source: map<string, Json> := if c.rulesSource.Some? then map["rulesSource" := JStr(c.rulesSource.value)] else map[];
    var withSource := source["branch" := JStr(branch)];
    var withDir :=
      if c.rulesSourceDir.Some? && c.rulesSourceDir.value != [] then withSource["rulesSourceDir" := JStr(c.rulesSourceDir.value)]
      else withSource;
    JObj(withDir)
  }

  function LegacyConfigWritten(t: Tree, c: RuleBookInput): Tree {
    var dirs := if [ConfigFile.HEYMARK_DIR] in t then t else Mkdirs(t, [ConfigFile.HEYMARK_DIR]);
    dirs[CONFIG_PATH := JsonFile(LegacyPayload(c))]
  }

  /** `writeConfig`. */
  method WriteLegacyConfig(fs: FileSystem, c: RuleBookInput) returns (path: Path)
    modifies fs
    ensures path == CONFIG_PATH
    ensures fs.tree == LegacyConfigWritten(old(fs.tree), c)
  {
    if !fs.Exists([ConfigFile.HEYMARK_DIR]) {
      fs.MkdirP([ConfigFile.HEYMARK_DIR]);
    }
    var toWrite: map<string, Json> := map[];
    if c.rulesSource.Some? {
      toWrite := map["rulesSource" := JStr(c.rulesSource.value)];
    }
    toWrite := toWrite["branch" := JStr(if c.branch.Some? && c.branch.value != [] then c.branch.value else DEFAULT_BRANCH)];
    if c.rulesSourceDir.Some? && c.rulesSourceDir.value != [] {
      toWrite := toWrite["rulesSourceDir" := JStr(c.rulesSourceDir.value)];
    }
    fs.WriteJson(CONFIG_PATH, JObj(toWrite));
    path := CONFIG_PATH;
  }

  /** Loading what was written gives the source trimmed, the branch trimmed
      or `main`, and the directory trimmed or empty. */
  lemma LoadAfterWrite(t: Tree, c: RuleBookInput)
    requires c.rulesSource.Some? && !AllSpace(c.rulesSource.value)
    ensures LoadConfig(LegacyConfigWritten(t, c)) == Some(RuleBookConfig(
      Trim(c.rulesSource.value),
      if c.branch.Some? && Trim(c.branch.value) != [] then Trim(c.branch.value) else DEFAULT_BRANCH,
      if c.rulesSourceDir.Some? then Trim(c.rulesSourceDir.value) else ""))
  {
    var w := LegacyConfigWritten(t, c);
    assert CONFIG_PATH in w && w[CONFIG_PATH] == JsonFile(LegacyPayload(c));
    LoadPayload(c);
  }

  /** The normalisation of `loadConfig` applied to the object `writeConfig` builds. */
  lemma LoadPayload(c: RuleBookInput)
    requires c.rulesSource.Some? && !AllSpace(c.rulesSource.value)
    ensures LoadValue(LegacyPayload(c)) == Some(RuleBookConfig(
      Trim(c.rulesSource.value),
      if c.branch.Some? && Trim(c.branch.value) != [] then Trim(c.branch.value) else DEFAULT_BRANCH,
      if c.rulesSourceDir.Some? then Trim(c.rulesSourceDir.value) else ""))
  {
    if c.branch.Some? && c.branch.value == [] {
      assert AllSpace(c.branch.value);
      TrimBlank(c.branch.value);
    }
    TrimOfTrimmed(DEFAULT_BRANCH);
    if c.rulesSourceDir.Some? && c.rulesSourceDir.value == [] {
      assert AllSpace(c.rulesSourceDir.value);
      TrimBlank(c.rulesSourceDir.value);
    }
  }

  /** A write without `rulesSource` cannot be loaded back. */
  lemma WriteWithoutSourceUnloadable(t: Tree, c: RuleBookInput)
    requires c.rulesSource.None?
    ensures LoadConfig(LegacyConfigWritten(t, c)).None?
  {
  }
}
