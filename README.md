# heymark, modelled in Dafny

heymark keeps one set of Markdown "skill" documents in a Git repository and
turns them into the files that several AI coding tools read: Cursor `.mdc`
rules, GitHub Copilot `.instructions.md` files, and `SKILL.md` folders for
Antigravity, Claude Code and Codex. This project models the two generations
of that logic, the current `src/` tree and the legacy `scripts/` tree:

- **Skill documents** (`skill_file_parser.dfy`, `skill_round_trip.dfy`).
  - The optional `---` header is split from the body, exactly as the lazy
    header regex does it.
  - Header lines are parsed as `key: value`, with quote stripping and
    `true`/`false` coercion.
  - The typed fields fall back to the file's base name.
  - A folder listing is filtered to `.md` names and sorted.
  - The generated `SKILL.md` text is proved to parse back to the skill it came
    from.
- **Configuration**.
  - `config_file.dfy` models `.heymark/config.json` with its legacy field
    aliases.
  - `legacy_config.dfy` models the older `rulesSource` format.
  - Both read the raw JSON value as a field map; writing goes through a
    `FileSystem` class.
- **Cache and clone**.
  - `cache_folder.dfy` derives the clone folder name and runs the clone-or-pull
    state machine, then resolves the skills folder.
  - `legacy_repo.dfy` does the same for the older `owner-repo` naming.
  - Git is a function parameter, an oracle that either fails or yields a
    snapshot of the repository.
- **Tool adapters**.
  - `adapters.dfy` holds the content renderers, the output paths and both tool
    registries.
  - `tool_ops.dfy` holds `generate` and `clean` as methods over the
    `FileSystem`. There are two clean policies: whole-root removal (the `src/`
    helpers and legacy Codex) and per-name removal (the other legacy adapters).
- **Commands**.
  - `select_tools.dfy` models tool selection for both generations.
  - `commands.dfy` models the cleaner loop and the `sync` and `clean`
    commands.
  - `link_command.dfy` models `link`, with its flag handlers.
  - `legacy_args.dfy` and `legacy_cli.dfy` model the legacy argument parsers
    and the command sequencing of `scripts/sync.js` and `scripts/cli.js`.

The filesystem is a map from paths (sequences of segments) to `Dir`, `File`
and `JsonFile` entries (`file_tree.dfy`). The class `FileTree.FileSystem` owns
that map and offers the few operations the source uses (`mkdir -p`, write,
recursive remove, unlink, list).

Fatal exits (`process.exit(1)`, thrown errors) become `Failure` values. A
command that fails leaves the tree as it was at the failing step, which is
what an exit does.

Where the code and the project's own description differ, the model follows
the code:

- A skill's `description` falls back to the file base name, not to `name`.
- The current `writeConfig` always writes `branch`.
- In `scripts/`, `DEFAULT_BRANCH` is imported from a module that does not
  export it, so it is `undefined`. A branch that is never set is therefore
  written as `"main"` by the legacy `writeConfig`. The link `--samples` shortcut
  yields an absent branch, which also becomes `"main"` on write.

## Model

| member | source | states |
|---|---|---|
| SkillFileParser.HeaderStart | src/skill-repo/skill-file-parser.js:5 | The opening fence is `---` followed by `\n` or `\r\n`; the result is its length, or 0 when the text does not open with a fence |
| SkillFileParser.FirstClose | src/skill-repo/skill-file-parser.js:5 | The lazy `([\s\S]+?)` group ends at the first closing fence at or after the given position; no earlier position closes, and None means no position closes |
| SkillFileParser.MatchFrontmatter | src/skill-repo/skill-file-parser.js:5-13 | The header matches iff the text opens with a `---` fence and a closing fence follows with a non-empty header block before it; an unclosed fence does not match |
| SkillFileParser.Unquote | src/skill-repo/skill-file-parser.js:23-28 | A value wrapped in matching `"` or `'` loses exactly the outer pair of quotes; any other value is unchanged |
| SkillFileParser.Coerce | src/skill-repo/skill-file-parser.js:30-32 | Exactly `true` and `false` become booleans (in both directions); every other value stays the same string |
| SkillFileParser.ParseLine | src/skill-repo/skill-file-parser.js:17-18 | A header line is ignored exactly when it has no `:` |
| SkillFileParser.ParseKeyValueLine | src/skill-repo/skill-file-parser.js:17-32 | For `k:v` with no `:` in `k`, the key is `k` trimmed and the value is `v` trimmed, unquoted and coerced, so values may contain `:` |
| SkillFileParser.AddLine | src/skill-repo/skill-file-parser.js:16-33 | A parsed line sets its key and leaves every other key alone; a line without `:`, or one whose key is `__proto__` (the inherited setter ignores primitive values), changes nothing |
| SkillFileParser.LastLineWins | src/skill-repo/skill-file-parser.js:16-33 | A repeated key other than `__proto__` keeps the value of the last line that defines it |
| SkillFileParser.ProtoKeyNeverStored | src/skill-repo/skill-file-parser.js:30-32 | Whatever the header lines, `__proto__` never becomes a metadata key |
| SkillFileParser.UndefinedKeyAbsent | src/skill-repo/skill-file-parser.js:16-33 | A key that no header line defines is absent from the metadata |
| SkillFileParser.ParseDocument | src/skill-repo/skill-file-parser.js:7-36 | The body is always trimmed; text without an opening fence, or with an opening fence that is never closed, gives empty metadata and the whole text trimmed |
| SkillFileParser.ParseFrontmatter | src/skill-repo/skill-file-parser.js:7-36 | The line-by-line loop that fills the metadata dictionary computes exactly `ParseDocument` |
| SkillFileParser.ApplyHeaderLine | src/skill-repo/skill-file-parser.js:16-33 | One step of the `forEach` (index of `:`, slice, trim, unquote, store) equals `AddLine` |
| SkillFileParser.StripQuotes | src/skill-repo/skill-file-parser.js:23-28 | The in-place reassignment of `value` equals `Unquote` |
| SkillFileParser.StoreValue | src/skill-repo/skill-file-parser.js:30-32 | Storing a value overwrites the key with the coerced value, except under `__proto__`, where nothing is stored |
| SkillFileParser.ReadSkillFile | src/skill-repo/skill-file-parser.js:38-56 | `name`/`description` come from a non-empty string header value, else the base name (so never empty when the base name is not); `globs` is the header string value, else `""`; `alwaysApply` iff the header value is boolean true; body and metadata are the parsed ones |
| SkillFileParser.SkillFileNames | src/skill-repo/skill-file-parser.js:64-66 | Keeps exactly the listing entries ending in `.md`, each at most as often as listed |
| SkillFileParser.SkillFileNamesCount | src/skill-repo/skill-file-parser.js:64-66 | The filter keeps each `.md` name as many times as it is listed and drops every other name |
| SkillFileParser.ReadAll | src/skill-repo/skill-file-parser.js:74 | One skill per name, in order, each read from that file's text; an unreadable name is reported |
| SkillFileParser.ReadSkillFiles | src/skill-repo/skill-file-parser.js:58-75 | A missing folder or no `.md` entry is fatal (each iff); success gives one skill per `.md` entry, sorted by file name, each parsed from its file |
| SkillFileParser.ReadSkillFilesOrderIndependent | src/skill-repo/skill-file-parser.js:64-67 | Because the names are sorted, the result does not depend on the order in which the directory is listed |
| SkillRoundTrip.MatchSkillContent | src/skill-repo/skill-file-parser.js:5 | On generated `SKILL.md` text the header regex captures exactly the name and description lines and the rest as body |
| SkillRoundTrip.ParseSkillContent | src/tools/antigravity/index.js:4-13 | Parsing the generated `SKILL.md` text gives metadata `{name, description}` and the trimmed body |
| SkillRoundTrip.SkillContentRoundTrip | src/tools/antigravity/index.js:4-13 | Reading back a generated `SKILL.md` restores name, description and trimmed body, with empty globs and `alwaysApply` false |
| ConfigFile.NonBlankField | src/skill-repo/config-file.js:16-23 | A field counts only when it is a string that is not blank; its value is then trimmed and non-empty |
| ConfigFile.TrimmedField | src/skill-repo/config-file.js:34-41 | Any string field counts, even a blank one, and is trimmed |
| ConfigFile.NormalizeConfig | src/skill-repo/config-file.js:9-44 | A non-object is rejected; an accepted config has a non-empty trimmed URL and branch and a trimmed folder |
| ConfigFile.RepoUrlFromFirstAlias | src/skill-repo/config-file.js:16-27 | A config is accepted iff one of `repoUrl`, `skillSource`, `rulesSource` is a non-blank string; the URL is the trimmed value of the first such alias |
| ConfigFile.BranchDefault | src/skill-repo/config-file.js:29-32 | The branch is the trimmed `branch` when that is a non-blank string, else `main`, whichever alias gave the URL |
| ConfigFile.FolderFromFirstString | src/skill-repo/config-file.js:34-41 | The folder is the trimmed value of the first of `folder`, `skillSourceDir`, `rulesSourceDir` that is a string, even a blank one; else `""` |
| ConfigFile.NormalizeIdempotent | src/skill-repo/config-file.js:9-44 | Normalising a normalised config gives it back unchanged |
| ConfigFile.Payload | src/skill-repo/config-file.js:58-64 | The payload always holds `repoUrl` and `branch`, holds `folder` iff it is non-empty, and holds no other key |
| ConfigFile.PayloadNormalizes | src/skill-repo/config-file.js:46-64 | Normalising the written payload equals normalising the input |
| ConfigFile.ReadConfig | src/skill-repo/config-file.js:70-82 | An absent or non-JSON config file reads as no config; otherwise the read is the normalised value |
| ConfigFile.WriteConfig | src/skill-repo/config-file.js:46-68 | Fails iff the input does not normalise; creates `.heymark` first either way; on success writes the payload at the config path |
| ConfigFile.WriteThenRead | src/skill-repo/config-file.js:46-82 | Reading after a successful write returns the normalised input |
| ConfigFile.RejectedWriteKeepsConfig | src/skill-repo/config-file.js:52-55 | A rejected write leaves whatever config was there readable as before |
| CacheFolder.CloneDirName | src/skill-repo/cache-folder.js:8-11 | The clone folder name never contains `/` |
| CacheFolder.CloneFolder | src/skill-repo/cache-folder.js:8-12 | The clone folder lies directly inside `.heymark/cache` (or is that folder itself) |
| CacheFolder.CloneDirNameOfLastPiece | src/skill-repo/cache-folder.js:9-10 | The name is the last `/`-piece of the URL, `repo` when that piece is empty, minus one trailing `.git` |
| CacheFolder.CloneFolderIgnoresOwner | src/skill-repo/cache-folder.js:9 | URLs that differ only before the last `/` share one cache folder |
| CacheFolder.CloneFolderDropsGitSuffix | src/skill-repo/cache-folder.js:10 | `…/name.git` and `…/name` share one cache folder |
| CacheFolder.BareGitPieceIsCacheBase | src/skill-repo/cache-folder.js:9-11 | A URL whose last piece is exactly `.git` resolves to the cache folder itself |
| CacheFolder.CloneOrPull | src/skill-repo/cache-folder.js:41-55 | With no clone folder it creates the cache base and clones, and fails iff the clone fails; with a clone folder it pulls and never fails |
| CacheFolder.FetchFrame | src/skill-repo/cache-folder.js:41-55 | Clone and pull change nothing outside the clone folder |
| CacheFolder.FetchAddsOnlyAlongClone | src/skill-repo/cache-folder.js:41-55 | Every new entry lies inside the clone folder or on the way to it |
| CacheFolder.FetchedFilesPresent | src/skill-repo/cache-folder.js:41-48 | After a successful fetch the clone folder is a directory holding every file of the snapshot |
| CacheFolder.PullReplacesContents | src/skill-repo/cache-folder.js:49-55 | A successful pull leaves the clone holding exactly the snapshot |
| CacheFolder.CloneThenPull | src/skill-repo/cache-folder.js:41-55 | After a successful first clone the next fetch is a pull of the same branch |
| CacheFolder.CacheBranch | src/skill-repo/cache-folder.js:37 | The branch used is the config branch, or `main` when that is empty |
| CacheFolder.SkillsFolder | src/skill-repo/cache-folder.js:63-64 | The skills folder is inside the clone folder, and is the clone folder when no folder is configured |
| CacheFolder.CacheResult | src/skill-repo/cache-folder.js:60-73 | No config gives NotLinked before any fetch; a failed first clone is fatal; a missing or non-directory skills folder is fatal; success reads the skills from the resolved folder of the fetched tree |
| CacheFolder.CacheResultAnyListing | src/skill-repo/cache-folder.js:70 | The outcome does not depend on the order of the directory listing |
| CacheFolder.ReadCache | src/skill-repo/cache-folder.js:60-73 | The method's new tree and result are those of the fetch-then-read specification |
| CacheFolder.ReadFolder | src/skill-repo/cache-folder.js:64-70 | A skills folder that is not a directory is reported by its configured name; otherwise the result is `readSkillFiles` over one listing of the folder |
| CacheFolder.FreshCloneReadsSnapshot | src/skill-repo/cache-folder.js:41-48 | A first clone makes every top-level file of the repository readable in the clone folder |
| Adapters.DropEmpty | src/tools/copilot/index.js:13 | Keeps only the non-empty entries, each taken from the input list; the result is empty exactly when every entry is empty |
| Adapters.DropEmptyConcat | src/tools/copilot/index.js:13 | Filtering a concatenation is the concatenation of the filtered parts, so kept entries keep their order |
| Adapters.DropEmptySingle | src/tools/copilot/index.js:13 | A single entry is kept iff it is not empty (with the concatenation lemma this fixes the result for every list) |
| Adapters.NonBlankPieces | src/tools/copilot/index.js:9-14 | Each result is a trimmed non-empty piece of the input; the result is empty iff every piece is blank |
| Adapters.NonBlankPiecesConcat | src/tools/copilot/index.js:9-14 | Pieces of a concatenation are handled part by part, in order |
| Adapters.NonBlankPiecesSingle | src/tools/copilot/index.js:9-14 | One piece gives its trimmed text, or nothing when it is blank |
| Adapters.NormalizeGlobs | scripts/tools/copilot.js:14-25 | Never empty; each glob is trimmed and non-empty; all-blank input gives `["**"]`; any other input gives exactly the trimmed non-blank comma pieces |
| Adapters.NormalizeGlobsOfPieces | scripts/tools/copilot.js:14-25 | For any pieces joined by `,`, the result is `["**"]` when every piece is blank and otherwise the pieces trimmed, blanks dropped, in order |
| Adapters.NonBlankPiecesOfClean | src/tools/copilot/index.js:9-14 | Pieces that are already trimmed and non-empty pass through unchanged |
| Adapters.NormalizeGlobsOfJoin | scripts/tools/copilot.js:14-25 | Joining clean globs with `,` and normalising gives them back, or `["**"]` for none |
| Adapters.GlobLines | src/tools/copilot/index.js:15-17 | One `  - "<glob>"` line per glob, in order |
| Adapters.InstructionsContent | src/tools/copilot/index.js:8-20 | Copilot text opens with `applyTo:` and no `---` fence, then one `  - "<glob>"` line per normalised glob joined by newlines, then the closing fence, a blank line, the body and a newline |
| Adapters.RuleHeaderLines | src/tools/cursor/index.js:8-16 | Cursor's header is `---`, the unescaped description line, a globs line only when globs is non-empty, `alwaysApply: true/false`, `---` |
| Adapters.Target | src/tools/skill-per-file.js:8-11 | A skill's entry is the tool root joined with the entry name, split at `/` as `path.join` does; it always lies inside the root, and a plain name under a flat layout gives exactly one segment below the root |
| Adapters.OutputFile | src/tools/skill-per-folder.js:7-9 | The written file is the skill's entry or lies inside it |
| Adapters.Keys | src/commands/select-tools.js:4 | The registry keys, in registry order |
| Adapters.Lookup | src/commands/cleaner.js:6 | `tools[key]` for a registry key is the registry's tool with that key |
| ToolOps.SkillNames | src/commands/clean/index.js:9 | The names of the skills, in order |
| ToolOps.TargetInjective | src/tools/cursor/index.js:4-6 | Two plain (single-segment) skill names map to the same entry only when they are equal |
| ToolOps.TargetsApart | src/tools/skill-per-folder.js:7-9 | For plain names, no skill's entry lies inside another skill's entry or file |
| ToolOps.OutputFilesApart | src/tools/skill-per-folder.js:7-9 | Two different plain names have different output files |
| ToolOps.Generate | src/tools/skill-per-file.js:4-14 | Generate (file or folder per skill) changes the tree to its specification and returns the number of skills |
| ToolOps.GenerateFrame | src/tools/skill-per-file.js:8-11 | Generate changes nothing outside the tool's root, and inside it touches only the entries of the given skills |
| ToolOps.GenerateWrites | src/tools/skill-per-folder.js:6-9 | A skill's output file holds its rendered text when no later skill writes the same file (the last write wins) |
| ToolOps.GenerateWritesPlain | src/tools/skill-per-file.js:8-11 | With plain names, a skill whose name no later skill repeats has its rendered text in its output file |
| ToolOps.GenerateNothing | src/tools/skill-per-file.js:5-6 | With no skills, file-per-skill still creates its root; folder-per-skill changes nothing |
| ToolOps.RemoveRoot | src/tools/skill-per-file.js:16-24 | An absent root gives `[]` and no change; a present root is removed with everything beneath it and reported as `[root]` |
| ToolOps.Clean | scripts/tools/claude.js:40-52 | Clean changes the tree and reports the removed paths exactly as its specification says |
| ToolOps.RemoveNamesShrinks | scripts/tools/cursor.js:39-51 | Per-name clean only removes entries and changes no surviving one |
| ToolOps.RemoveNamesFrame | scripts/tools/copilot.js:55-61 | Entries that are not inside a named skill's entry survive |
| ToolOps.RemoveNamesClears | scripts/tools/copilot.js:52-64 | After per-name clean no named entry exists |
| ToolOps.RemoveNamesClearsInside | scripts/tools/claude.js:40-46 | For plain names, removing a skill directory removes everything beneath it |
| ToolOps.RemoveNamesReports | scripts/tools/antigravity.js:28-40 | For plain names, the report lists exactly the named entries that existed, and never lists a path twice |
| ToolOps.NestedNameReportedOnce | scripts/tools/claude.js:40-49 | Names `a` and `a/b` join to nested folders; removing `a` takes `a/b` with it, so only `a` is reported |
| ToolOps.RemoveNamesSilent | scripts/tools/cursor.js:42-48 | A per-name clean that reports nothing changed nothing, and none of the named entries existed |
| ToolOps.CleanedReports | scripts/tools/cursor.js:39-51 | A clean reports nothing iff there was nothing to remove: no root for whole-root clean, no named entry for per-name clean |
| ToolOps.CleanedKeeps | src/tools/skill-per-file.js:16-24 | A clean never adds or removes a path outside its tool's root |
| ToolOps.RemoveNamesNothing | scripts/tools/cursor.js:42-48 | When no named entry exists, clean reports nothing and changes nothing |
| ToolOps.CleanTwice | scripts/tools/cursor.js:44-48 | A second clean with the same names reports `[]` and changes nothing |
| ToolOps.CleanAfterGenerate | scripts/tools/claude.js:28-52 | Clean after generate removes every generated file (per-name clean: for plain names), and everything outside the tool's root is as before the generate |
| Commands.RegistriesApart | src/tools/constants.js:3-42 | No tool's root lies inside another tool's root, in both registries |
| Commands.LookupsApart | src/tools/constants.js:3-42 | Two different keys name tools whose roots do not nest |
| Commands.Swept | src/commands/cleaner.js:1-23 | The number of tools counted is at most the number selected |
| Commands.Dirty | src/commands/cleaner.js:6-7 | Exactly the selected keys whose tool still has something to clean |
| Commands.SweptCount | src/commands/cleaner.js:5-16 | With roots that do not nest, the count is exactly the number of distinct selected tools that had something to clean beforehand |
| Commands.ClearAcrossSweep | src/commands/cleaner.js:5-16 | Sweeping other tools neither clears nor dirties a tool that is not selected |
| Commands.Cleaner | src/commands/cleaner.js:1-23 | The loop's new tree and count are those of the specification |
| Commands.SweptShrinks | src/commands/cleaner.js:5-16 | The cleaner only removes entries and changes no surviving one |
| Commands.SweptClears | src/commands/cleaner.js:5-16 | The cleaner only removes, and afterwards no selected tool has anything left to clean |
| Commands.SweptWhenClear | src/commands/cleaner.js:7 | When no selected tool has anything to clean, the count is 0 and the tree is unchanged |
| Commands.SweepTwice | src/commands/cleaner.js:1-23 | A second cleaner run counts 0 and changes nothing |
| Commands.OtherToolKeeps | src/commands/sync/index.js:23-27 | A tool's generate leaves another tool's output files alone when the two roots do not nest |
| Commands.GeneratedAllWrites | src/commands/sync/index.js:23-27 | After the generate loop every selected tool (repeats allowed) holds the rendered file of every plain-named skill that no later skill renames to the same name |
| Commands.GenerateAll | src/commands/sync/index.js:23-27 | The loop gives every selected tool the full skill list; each count is the number of skills |
| Commands.SelectedInRegistry | src/commands/select-tools.js:22-30 | A successful selection names only registry tools |
| Commands.RunSync | src/commands/sync/index.js:7-31 | A selection error fails before the cache is touched; otherwise the run equals cache-read, then clean, then generate |
| Commands.SyncSelected | src/commands/sync/index.js:9-27 | After selection, the run equals its specification for the listed skills folder |
| Commands.SyncWritesEverySkill | src/commands/sync/index.js:7-31 | After a successful sync every selected tool holds the rendered file of every plain-named skill that no later skill repeats |
| Commands.CleanRun | src/commands/clean/index.js:5-13 | The reported count is at most the number of selected tools |
| Commands.CleanRunCount | src/commands/clean/index.js:5-13 | `clean` succeeds iff the cache read succeeds, and then reports exactly the number of selected tools that had something to clean in the fetched tree |
| Commands.RunClean | src/commands/clean/index.js:5-13 | A selection error fails before the cache is touched; otherwise the run equals cache-read then clean, with nothing generated |
| Commands.CleanSelected | src/commands/clean/index.js:7-10 | After selection, the run equals its specification for the listed skills folder |
| SelectTools.Dedup | src/commands/select-tools.js:30 | The same elements, with no repeats |
| SelectTools.DedupKeepsFirstOccurrenceOrder | src/commands/select-tools.js:30 | Elements keep the order of their first occurrence |
| SelectTools.DedupOfDistinct | src/commands/select-tools.js:30 | A list without repeats is unchanged |
| SelectTools.DedupIdempotent | src/commands/select-tools.js:30 | De-duplicating twice equals de-duplicating once |
| SelectTools.Unknowns | src/commands/select-tools.js:22 | Exactly the flags that the registry does not know |
| SelectTools.Select | src/commands/select-tools.js:3-31 | No flags or `.` alone give all keys; any comma is fatal (checked first); `.` with other flags is fatal; unknown names are fatal and listed; otherwise the de-duplicated flags |
| SelectTools.SelectTools | src/commands/select-tools.js:3-31 | With own-key lookup, every selected key is a registry key, without repeats, and a named selection holds exactly the flags |
| SelectTools.InheritedNameSelected | src/commands/select-tools.js:22 | As written, `constructor` passes validation; with own-key lookup it is rejected |
| SelectTools.SelectAgrees | src/commands/select-tools.js:22 | For names that are not inherited object properties, the corrected and as-written selections agree |
| SelectTools.NormalizeArgs | scripts/cli.js:194 | Every normalised name is non-blank, and there are no more names than args |
| SelectTools.NormalizeArgsMembers | scripts/cli.js:194 | The names are exactly the trimmed lower-case forms of the args that are not blank |
| SelectTools.NormalizeArgsConcat | scripts/cli.js:194 | Normalising a concatenation normalises each part, so names keep argument order |
| SelectTools.NormalizeArgsSingle | scripts/cli.js:194 | One argument gives its trimmed lower-case form, or nothing when it is blank |
| SelectTools.NormalizeArgsEmpty | scripts/cli.js:194 | No name survives exactly when every argument is blank |
| SelectTools.ResolveSelectedTools | scripts/cli.js:188-227 | All keys when no arg survives trimming; a comma is fatal; `all` is fatal; every selected key is known |
| SelectTools.ResolveIgnoresCaseAndSpace | scripts/cli.js:194 | Selection sees only trimmed, lower-cased names |
| SelectTools.NormalizeArgsIdempotent | scripts/cli.js:194 | Normalising normalised args changes nothing |
| LinkCommand.Parse | src/commands/link/flags/branch.js:9-16 | Succeeds iff a non-empty next element exists (taken even if it looks like a flag); the value is trimmed and advance is 1; else fatal for the handler's key |
| LinkCommand.FindHandler | src/commands/link/index.js:11 | The first handler whose `is` accepts the flag, or none iff no handler accepts it |
| LinkCommand.FindsOwnHandler | src/commands/link/flags/branch.js:5-7 | A handler's own spelling finds that handler |
| LinkCommand.ParseFlagsFrom | src/commands/link/index.js:7-22 | Only handler keys are stored; stored values are trimmed; an unknown flag or a missing value is fatal |
| LinkCommand.ParseFlags | src/commands/link/index.js:7-22 | The loop with its manually advanced index computes `ParseFlagsFrom` from the start |
| LinkCommand.ParseRendered | src/commands/link/index.js:7-22 | Parsing rendered `flag value` pairs stores each value, a later repeat overwriting an earlier one |
| LinkCommand.LinkConfig | src/commands/link/index.js:24-40 | A missing first flag, or one starting with `--`, is fatal (iff); the URL is trimmed; branch defaults to `main`; folder is trimmed |
| LinkCommand.ParseConfig | src/commands/link/index.js:24-40 | The method computes `LinkConfig` |
| LinkCommand.RecordNormalizes | src/commands/link/index.js:35-39 | The parsed record passes the config normaliser unchanged when its URL is non-empty |
| LinkCommand.RunLink | src/commands/link/index.js:42-44 | Fails iff parsing fails or the trimmed URL is empty; on success the saved config reads back as the parsed one |
| LinkCommand.LinkThenRead | src/commands/link/index.js:42-44 | Link followed by read gives the trimmed URL, the last `--branch` value or `main`, and the last `--folder` value or `""` |
| LinkCommand.BlankUrlKeepsConfig | src/commands/link/index.js:24-44 | A blank URL passes the first check, then the write is rejected and the old config stays |
| LegacyConfig.LoadValue | scripts/lib/config.js:29-39 | Accepted iff `rulesSource` is a non-blank string; the fields are trimmed, with branch `main` when it is not a non-blank string |
| LegacyConfig.LoadConfig | scripts/lib/config.js:23-43 | An absent or non-JSON file loads as no config |
| LegacyConfig.LoadIgnoresNewNames | scripts/lib/config.js:30-32 | Without `rulesSource` nothing loads, whatever other names are present |
| LegacyConfig.LegacyPayload | scripts/lib/config.js:56-62 | `rulesSource` as given, untrimmed; `branch` always, `main` when falsy; `rulesSourceDir` iff it is truthy |
| LegacyConfig.WriteLegacyConfig | scripts/lib/config.js:50-65 | Writes the payload at the config path and returns that path |
| LegacyConfig.LoadAfterWrite | scripts/lib/config.js:33-39 | Load after write gives the trimmed source, the trimmed branch or `main`, and the trimmed directory or `""` |
| LegacyConfig.WriteWithoutSourceUnloadable | scripts/lib/config.js:56-62 | A config written without `rulesSource` cannot be loaded |
| LegacyRepo.ReplaceUnsafe | scripts/lib/repo.js:21 | Every character outside `[A-Za-z0-9._-]` becomes `-`; the others stay |
| LegacyRepo.SanitizeRepoName | scripts/lib/repo.js:14-22 | The cache name is never empty and never contains `/` |
| LegacyRepo.SanitizeWithoutSlash | scripts/lib/repo.js:14-21 | A URL with no `/` matches neither pattern: the trimmed text minus `.git`, unsafe characters replaced by `-`, or `repo` when that is empty |
| LegacyRepo.SanitizeOtherHost | scripts/lib/repo.js:17-19 | For `host/owner/repo` on a host other than GitHub, the fallback pattern takes the first two pieces: `host-owner` |
| LegacyRepo.SanitizeGithubForm | scripts/lib/repo.js:14-22 | A GitHub URL (either separator, with or without `.git`) yields `owner-repo` |
| LegacyRepo.SanitizeHttpsUrl | scripts/lib/repo.js:14-22 | `https://github.com/owner/repo[.git]` yields `owner-repo` |
| LegacyRepo.SanitizeSshUrl | scripts/lib/repo.js:14-22 | `git@github.com:owner/repo[.git]` yields `owner-repo` |
| LegacyRepo.SanitizeKeepsOwner | scripts/lib/repo.js:17-19 | Same repository name under different owners gives different cache folders |
| LegacyRepo.RepoClone | scripts/lib/repo.js:36-38 | The clone path lies inside `.heymark/cache` |
| LegacyRepo.RepoBranch | scripts/lib/repo.js:33 | The configured branch, or `main` when it is empty |
| LegacyRepo.RepoResult | scripts/lib/repo.js:31-70 | A failed first clone is fatal (iff); a missing or non-directory rules directory is fatal; success is the clone path plus `subDir`, an existing directory |
| LegacyRepo.GetRulesDirFromRepo | scripts/lib/repo.js:31-70 | The method's new tree and result are those of the specification |
| LegacyRepo.FreshCloneIsRulesDir | scripts/lib/repo.js:40-69 | A successful first clone with no `subDir` makes the clone itself the rules directory |
| LegacyArgs.RepoOptions | scripts/cli.js:131-153 | The option loop keeps the URL and keeps the values trimmed; it fails only with a missing value or an unknown option |
| LegacyArgs.RepoArgsOf | scripts/sync.js:155-193 | A missing URL, or one starting with `--`, is fatal (iff); the URL is trimmed; branch and directory values are trimmed |
| LegacyArgs.ParseRepoArgs | scripts/sync.js:168-192 | The loop with its manual index computes `RepoArgsOf` |
| LegacyArgs.LinkArgsOf | scripts/cli.js:104-156 | `--samples` alone gives the samples repository and folder; `--samples` with anything else is fatal (iff); otherwise it is the URL-and-options parser with `--folder` |
| LegacyArgs.ParseLinkArgs | scripts/cli.js:104-156 | The method computes `LinkArgsOf` |
| LegacyArgs.ParseInitArgs | scripts/sync.js:155-193 | The method computes `RepoArgsOf` with `--dir` |
| LegacyArgs.RepoOptionsRendered | scripts/sync.js:168-190 | Rendered option pairs parse back to their values, a later repeat winning |
| LegacyArgs.RepoArgsRoundTrip | scripts/sync.js:155-193 | A URL followed by rendered options parses to the trimmed URL with those options applied |
| LegacyArgs.ToolList | scripts/sync.js:50-61 | Fatal exactly when every comma piece is blank; otherwise the trimmed lower-case non-blank pieces (`NormalizeArgs` of the split), a non-empty list of non-empty names |
| LegacyArgs.ToolListOfPieces | scripts/sync.js:50-61 | For any pieces joined by `,`, the result fails when every piece is blank and otherwise is the pieces normalised, in order |
| LegacyArgs.ToolListRoundTrip | scripts/sync.js:50-61 | Joining plain lower-case names with `,` and parsing gives them back |
| LegacyArgs.OptionsFrom | scripts/sync.js:73-97 | The loop fails only with a missing value, an unknown option or an empty tool list; flags once set stay set |
| LegacyArgs.SyncArgsWith | scripts/sync.js:63-107 | Under a given name lookup: no args give the defaults; every selected tool is known to the lookup; an unknown-tools error lists only names it does not know, at least one |
| LegacyArgs.SyncArgsOf | scripts/sync.js:63-107 | Corrected to own keys: no args give the defaults; every selected tool is a registry key; an unknown-tools error lists only names outside the registry |
| LegacyArgs.SyncInheritedToolAccepted | scripts/sync.js:99 | As written, `-t constructor` is accepted as a tool; with own-key lookup it is reported as unknown |
| LegacyArgs.ParseArgs | scripts/sync.js:63-107 | The loop computes `SyncArgsOf` |
| LegacyArgs.OptionsRenderedAt | scripts/sync.js:73-97 | Flags rendered from any position to the end of the args parse back to their effect applied in order |
| LegacyArgs.OptionsRendered | scripts/sync.js:73-97 | Rendered flags parse back to their effect, a later `--tools` or `--source` overwriting an earlier one |
| LegacyArgs.SyncArgsRoundTrip | scripts/sync.js:63-107 | Rendered flags naming registry tools parse to the defaults with those flags applied |
| LegacyCli.RunInit | scripts/sync.js:195-197 | `init` writes the parsed config, or fails on bad arguments without writing |
| LegacyCli.InitThenLoad | scripts/sync.js:195-197 | After a successful `init` the saved config loads back trimmed and defaulted; a blank URL leaves nothing loadable |
| LegacyCli.InitTypedThenLoad | scripts/sync.js:155-197 | `init <url> <options>` loads back as the URL with those options applied |
| LegacyCli.CliLinkNotLoadable | scripts/cli.js:158-160 | As written, a successful `link` saves a config that `loadConfig` rejects |
| LegacyCli.CliRunLink | scripts/cli.js:158-160 | The corrected `link` writes the parsed URL, branch and folder under the names the writer reads |
| LegacyCli.CliLinkThenLoad | scripts/cli.js:104-160 | After the corrected `link` the config loads back as the trimmed URL, branch or `main`, and folder |
| LegacyCli.RulesConfig | scripts/sync.js:213-220 | No config iff there is neither `--source` nor a saved config; `--source` overrides with branch `main` and dir `""` |
| LegacyCli.ResolveRulesDir | scripts/sync.js:213-223 | The method's new tree and result are those of the specification |
| LegacyCli.RunModes | scripts/sync.js:277-306 | Clean mode only cleans; preview writes nothing; otherwise clean then generate |
| LegacyCli.LegacyMain | scripts/sync.js:238-310 | `init` is dispatched before parsing; then parse, help, rules source, fetch, and the chosen mode |
| LegacyCli.HelpOrBadArgsWriteNothing | scripts/sync.js:246-252 | Bad arguments or `--help` change nothing, and the run fails exactly for bad arguments |
| LegacyCli.PreviewKeepsProject | scripts/sync.js:285-293 | Preview changes nothing outside the rules cache |
| LegacyCli.CleanModeOnlyRemoves | scripts/sync.js:277-283 | Clean mode only removes, and leaves no selected tool anything to clean |
| LegacyCli.SyncModeWritesEveryRule | scripts/sync.js:295-306 | The default mode leaves, in every selected tool (repeats allowed), the rendered file of every plain-named rule that no later rule repeats |
| LegacyCli.CliSelection | scripts/cli.js:259 | A successful selection names only legacy registry tools |
| LegacyCli.CliInheritedNameSelected | scripts/cli.js:219 | As written, `constructor` passes the tool check; with own-key lookup it is rejected as unknown |
| LegacyCli.CliRunCommand | scripts/cli.js:258-300 | Selection, then the linked-config check, then clean, then generate for `sync`, exactly as its specification says |
| LegacyCli.CliCleanOnlyRemoves | scripts/cli.js:285-300 | `clean` only removes, and leaves no selected tool anything to clean |
| LegacyCli.CliNeedsLink | scripts/cli.js:176-186 | Without a loadable config, `sync` and `clean` fail and change nothing |

## Left out

- I/O failures beyond those the source handles (unreadable files other than skill files, permission errors, full disks) are not modelled.
- JSON text is not modelled. Parsing and `JSON.stringify` are left out; configs are field maps, and a file that does not parse is a non-JSON entry.
- Console output is not modelled: progress lines, `[Done]` summaries, printed removed paths and error message text. Errors are typed values.
- Help, status and banner text are UI only, and are left out (`src/commands/help/index.js`, `showHelp` and `runStatus` in `scripts/`).
- The command dispatch in `src/index.js` and in `main` of `scripts/cli.js` is left out: it only maps the first argument to a command.
- Tool discovery is runtime plumbing and is left out (`src/tools/loader.js`, `src/alias.js`, `discoverTools`). The two registries `TOOLS` and `LEGACY_TOOLS` are passed explicitly instead.
- Git is an oracle. Clone and pull commands, credentials and network are left out. A pull is modelled as replacing the clone's contents with the fetched snapshot. A failed pull keeps the old clone, as the source does.
- Paths are sequences of segments. `Adapters.Target` splits the joined name at `/` and drops empty and `.` segments, as `path.join` does; `..` and absolute segments are not resolved.
- ToolOps.TargetInjective, ToolOps.TargetsApart, ToolOps.RemoveNamesReports, ToolOps.RemoveNamesClearsInside: stated for plain names (non-empty, no `/`, not `.` or `..`) under a suffix without `/`, because `path.join` makes other names nest or collapse (`ToolOps.NestedNameReportedOnce` shows `a` and `a/b`).
- ToolOps.CleanAfterGenerate, ToolOps.CleanAfterGenerateRemoves: for per-name clean, stated for plain names only, for the same reason.
- Commands.GeneratedAllWrites, Commands.SyncWritesEverySkill, LegacyCli.SyncModeWritesEveryRule: stated for plain-named skills that no later skill repeats; a repeated or nested name is overwritten by the later write.
- A `mkdirSync` or `writeFileSync` that meets an entry of the other kind (a file where a folder is needed, or the reverse) throws in the source; the model's `mkdir -p` keeps the existing entry and the write replaces it.
- The legacy per-name clean reports `path.join(SKILLS_DIR, name)` strings relative to the project; the model reports the removed paths themselves.
- `ToLower` folds only ASCII letters; JavaScript's Unicode case mapping is not modelled.
- Strings.LexLe: compares characters as code points, while JavaScript's default `sort` compares UTF-16 code units. The two orders differ only between a character above U+FFFF (a surrogate pair, such as an emoji) and one in U+E000..U+FFFF; such file names may sort differently.
- LegacyRepo.ReplaceUnsafe: replaces one character with one `-`. The source's regex has no `u` flag and works on UTF-16 code units, so a character above U+FFFF becomes `--` there.
- `src/commands/link/flags/folder.js` is not part of this model's sources. The folder handler is assumed to have the shape of the branch handler, keyed `folder` and spelled `--folder`/`-f`.
- The rules loader `scripts/lib/parser.js` is not part of this model's sources. It is a parameter (`LegacyCli.Loader`) or an input rule list.
- `getLinkedRulesDir` is imported by `scripts/cli.js` but not exported by `scripts/lib/repo.js`. As written, its `sync` and `clean` throw once the config has loaded. `LegacyCli.CliRunCommand` takes the loaded rules as an input instead, and nothing about rule resolution in `scripts/cli.js` is claimed.
- Concurrency and partial writes (a crash between clean and generate) are not modelled.

## Findings

| source | as written | input that shows it | evidently intended | confidence | as-written member | corrected member |
|---|---|---|---|---|---|---|
| src/commands/select-tools.js:22 | Tool names are validated with `!availableTools[tool]`, which also accepts names inherited from `Object.prototype` | `heymark sync constructor` selects `constructor`, and `tools["constructor"].clean` is not a function | Accept only the registry's own keys and report `constructor` as unknown | high, not executed | SelectTools.InheritedNameSelected | SelectTools.SelectTools |
| scripts/cli.js:160 | `runLink` passes `{repoUrl, branch, folder}` to a `writeConfig` that reads `rulesSource` and `rulesSourceDir`, so the saved file has only `branch` | `heymark link https://github.com/org/repo` saves a config that `loadConfig` rejects, and every later `sync` reports no linked repository | Save the URL and folder under the names the legacy reader loads | medium, not executed | LegacyCli.CliLinkNotLoadable | LegacyCli.CliLinkThenLoad |
| scripts/sync.js:99 | `--tools` names are checked with `!availableTools[tool]`, which accepts inherited properties | `node scripts/sync.js -t constructor` passes parsing, and the later `tools["constructor"].clean` call throws | Report `constructor` as an unknown tool | high, not executed | LegacyArgs.SyncInheritedToolAccepted | LegacyArgs.SyncArgsOf |
| scripts/cli.js:219 | Selected tools are checked with `!availableTools[tool]`, which accepts inherited properties | `heymark sync constructor` in the legacy CLI selects `constructor` | Report `constructor` as an unknown tool | high, not executed | LegacyCli.CliInheritedNameSelected | LegacyCli.CliSelection |
