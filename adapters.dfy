/** The tool adapters, current (src/tools) and legacy (scripts/tools): how each tool names
    its output and renders a skill into the header its tool reads. */
module Adapters {
  import opened Strings
  import opened FileTree
  import opened SkillFileParser

  const DEFAULT_GLOB: string := "**"
  const SKILL_FILE_NAME: string := "SKILL.md"
  const INSTRUCTIONS_SUFFIX: string := ".instructions.md"
  const RULE_SUFFIX: string := ".mdc"

  /** Which header a tool writes. */
  datatype Renderer =
    | Instructions  // Copilot: an `applyTo:` glob list and a closing `---`
    | Rule          // Cursor: description, optional globs, alwaysApply
    | SkillDoc      // Antigravity, Claude Code, Codex: name and description

  /** One file per skill, named `<name><suffix>`, or one folder per skill
      holding a file called `fileName`. */
  datatype Layout = FilePerSkill(suffix: string) | FolderPerSkill(fileName: string)

  /** `clean` removes the whole output root, or only the entries of the named skills. */
  datatype CleanMode = WholeRoot | PerName

  datatype Tool = Tool(
    key: string,
    name: string,
    output: string,
    root: Path,
    layout: Layout,
    renderer: Renderer,
    cleanMode: CleanMode)

  // ---------------------------------------------------------------------
  // Rendering
  // ---------------------------------------------------------------------

  /** Each piece trimmed (the `.map((g) => g.trim())` step). */
  function TrimAll(pieces: seq<string>): (r: seq<string>)
    ensures |r| == |pieces|
    ensures forall j :: 0 <= j < |r| ==> r[j] == Trim(pieces[j]) && Trimmed(r[j])
  {
    seq(|pieces|, j requires 0 <= j < |pieces| => Trim(pieces[j]))
  }

  /** The non-empty entries, in order (the `.filter(Boolean)` step). */
  function DropEmpty(xs: seq<string>): (r: seq<string>)
    ensures forall i :: 0 <= i < |r| ==> r[i] != [] && r[i] in xs
    ensures r == [] <==> forall j :: 0 <= j < |xs| ==> xs[j] == []
    ensures |r| <= |xs|
  {
    if xs == [] then []
    else
      var rest := DropEmpty(xs[1..]);
      assert forall j :: 1 <= j < |xs| ==> xs[j] == xs[1..][j - 1];
      if xs[0] == [] then rest else [xs[0]] + rest
  }

  /** Filtering a concatenation filters each part, so the kept entries stay in order. */
  lemma {:induction false} DropEmptyConcat(a: seq<string>, b: seq<string>)
    ensures DropEmpty(a + b) == DropEmpty(a) + DropEmpty(b)
    decreases |a|
  {
    if a != [] {
      var head := if a[0] == [] then [] else [a[0]];
      assert (a + b)[0] == a[0];
      assert (a + b)[1..] == a[1..] + b;
      assert DropEmpty(a + b) == head + DropEmpty(a[1..] + b);
      assert DropEmpty(a) == head + DropEmpty(a[1..]);
      DropEmptyConcat(a[1..], b);
    } else {
      assert a + b == b;
    }
  }

  /** One entry is kept iff it is not empty. */
  lemma DropEmptySingle(x: string)
    ensures DropEmpty([x]) == if x == [] then [] else [x]
  {
    assert [x][1..] == [];
  }

  /** A list with no empty entry is kept whole. */
  lemma {:induction false} DropEmptyOfNonEmpty(xs: seq<string>)
    requires forall i :: 0 <= i < |xs| ==> xs[i] != []
    ensures DropEmpty(xs) == xs
    decreases |xs|
  {
    if xs != [] {
      DropEmptyOfNonEmpty(xs[1..]);
    }
  }

  /** The trimmed, non-empty pieces of a comma-separated list, in order. */
  function NonBlankPieces(pieces: seq<string>): (r: seq<string>)
    ensures forall i :: 0 <= i < |r| ==> r[i] != [] && Trimmed(r[i])
    ensures forall i :: 0 <= i < |r| ==> exists j :: 0 <= j < |pieces| && r[i] == Trim(pieces[j])
    ensures r == [] <==> forall j :: 0 <= j < |pieces| ==> Trim(pieces[j]) == []
  {
    var trimmed := TrimAll(pieces);
    var r := DropEmpty(trimmed);
    assert forall i :: 0 <= i < |r| ==> exists j :: 0 <= j < |trimmed| && r[i] == trimmed[j];
    r
  }

  /** Trimming and filtering a concatenation handles each part on its own. */
  lemma NonBlankPiecesConcat(a: seq<string>, b: seq<string>)
    ensures NonBlankPieces(a + b) == NonBlankPieces(a) + NonBlankPieces(b)
  {
    var ta, tb, t := TrimAll(a), TrimAll(b), TrimAll(a + b);
    forall i | 0 <= i < |t| ensures t[i] == (ta + tb)[i] {
      if i < |a| {
        assert (a + b)[i] == a[i];
      } else {
        assert (a + b)[i] == b[i - |a|];
      }
    }
    assert t == ta + tb;
    DropEmptyConcat(ta, tb);
  }

  /** One piece gives its trimmed text, or nothing when it is blank. */
  lemma NonBlankPiecesSingle(p: string)
    ensures NonBlankPieces([p]) == if IsBlank(p) then [] else [Trim(p)]
  {
    assert TrimAll([p]) == [Trim(p)];
    DropEmptySingle(Trim(p));
  }

  /** `normalizeGlobs`: the comma-separated globs, or `["**"]` when none remain. */
  function NormalizeGlobs(globs: string): (r: seq<string>)
    ensures |r| >= 1
    ensures forall i :: 0 <= i < |r| ==> r[i] != [] && Trimmed(r[i])
    ensures (forall j :: 0 <= j < |Split(globs, ',')| ==> IsBlank(Split(globs, ',')[j])) ==> r == [DEFAULT_GLOB]
    ensures !(forall j :: 0 <= j < |Split(globs, ',')| ==> IsBlank(Split(globs, ',')[j])) ==>
              r == NonBlankPieces(Split(globs, ','))
  {
    if globs == [] then
      assert Split(globs, ',') == [globs];
      [DEFAULT_GLOB]
    else
      var g := NonBlankPieces(Split(globs, ','));
      if g == [] then [DEFAULT_GLOB] else g
  }

  /** Blank pieces between commas are dropped and the others are trimmed, in
      order, whatever spaces surround them. */
  lemma NormalizeGlobsOfPieces(pieces: seq<string>)
    requires pieces != [] && forall i :: 0 <= i < |pieces| ==> ',' !in pieces[i]
    ensures NormalizeGlobs(Join(pieces, ",")) ==
      if forall i :: 0 <= i < |pieces| ==> IsBlank(pieces[i]) then [DEFAULT_GLOB] else NonBlankPieces(pieces)
  {
    assert "," == [','];
    SplitJoin(pieces, ',');
  }

  /** Globs written comma-separated come back unchanged. */
  lemma NonBlankPiecesOfClean(gs: seq<string>)
    requires forall i :: 0 <= i < |gs| ==> gs[i] != [] && Trimmed(gs[i])
    ensures NonBlankPieces(gs) == gs
  {
    forall i | 0 <= i < |gs| ensures TrimAll(gs)[i] == gs[i] {
      TrimOfTrimmed(gs[i]);
    }
    assert TrimAll(gs) == gs;
    DropEmptyOfNonEmpty(gs);
  }

  lemma JoinNotEmpty(parts: seq<string>, sep: string)
    requires parts != [] && parts[0] != []
    ensures Join(parts, sep) != []
  {
    if |parts| > 1 {
      assert |Join(parts, sep)| >= |parts[0]|;
    }
  }

  lemma NormalizeGlobsOfJoin(gs: seq<string>)
    requires forall i :: 0 <= i < |gs| ==> gs[i] != [] && Trimmed(gs[i]) && ',' !in gs[i]
    ensures NormalizeGlobs(Join(gs, ",")) == if gs == [] then [DEFAULT_GLOB] else gs
  {
    if gs != [] {
      var text := Join(gs, [',']);
      assert "," == [','];
      JoinNotEmpty(gs, [',']);
      SplitJoin(gs, ',');
      assert Split(text, ',') == gs;
      NonBlankPiecesOfClean(gs);
      assert NormalizeGlobs(text) == NonBlankPieces(gs);
    }
  }

  function GlobLines(globs: seq<string>): (r: seq<string>)
    ensures |r| == |globs|
    ensures forall i :: 0 <= i < |globs| ==> r[i] == "  - \"" + globs[i] + "\""
  {
    seq(|globs|, i requires 0 <= i < |globs| => "  - \"" + globs[i] + "\"")
  }

  /** A text built as head, middle and tail starts with the head and ends with the tail. */
  lemma FramedText(head: string, mid: string, tail: string)
    ensures StartsWith(head + mid + tail, head) && EndsWith(head + mid + tail, tail)
  {
    var t := head + mid + tail;
    assert t[..|head|] == head;
    assert t[|t| - |tail|..] == tail;
  }

  lemma ApplyToIsNotFence(t: string)
    requires StartsWith(t, "applyTo:\n")
    ensures !StartsWith(t, "---")
  {
    assert t[0] == t[..9][0];
  }

  /** Copilot's `createContent` / `createInstructionContent`: an `applyTo:`
      list with no opening fence, then the body. */
  function InstructionsContent(skill: Skill): (r: string)
    ensures StartsWith(r, "applyTo:\n") && !StartsWith(r, "---")
    ensures EndsWith(r, "\n---" + "\n\n" + skill.body + "\n")
    // between the `applyTo:` line and the closing fence, one line per normalised glob
    ensures |r| >= 9 + |"\n---" + "\n\n" + skill.body + "\n"|
    ensures r[9..|r| - |"\n---" + "\n\n" + skill.body + "\n"|] == Join(GlobLines(NormalizeGlobs(skill.globs)), "\n")
  {
    var head := "applyTo:\n";
    var tail := "\n---" + "\n\n" + skill.body + "\n";
    var text := head + Join(GlobLines(NormalizeGlobs(skill.globs)), "\n") + tail;
    FramedText(head, Join(GlobLines(NormalizeGlobs(skill.globs)), "\n"), tail);
    ApplyToIsNotFence(text);
    text
  }

  function BoolText(b: bool): string {
    if b then "true" else "false"
  }

  /** Cursor's header lines: the globs line only when there are globs. */
  function RuleHeaderLines(skill: Skill): (r: seq<string>)
    ensures |r| == if skill.globs == [] then 4 else 5
    ensures r[0] == "---" && r[1] == "description: \"" + skill.description + "\""
    ensures skill.globs != [] ==> r[2] == "globs: \"" + skill.globs + "\""
    ensures r[|r| - 2] == "alwaysApply: " + BoolText(skill.alwaysApply) && r[|r| - 1] == "---"
  {
    ["---", "description: \"" + skill.description + "\""]
    + (if skill.globs != [] then ["globs: \"" + skill.globs + "\""] else [])
    + ["alwaysApply: " + BoolText(skill.alwaysApply), "---"]
  }

  function RuleContent(skill: Skill): string {
    Join(RuleHeaderLines(skill), "\n") + "\n\n" + skill.body + "\n"
  }

  /** The `SKILL.md` text shared by Antigravity, Claude Code and Codex. */
  function SkillContent(skill: Skill): string {
    Join(["---", "name: " + skill.name, "description: \"" + skill.description + "\"", "---"], "\n")
    + "\n\n" + skill.body + "\n"
  }

  function Render(r: Renderer, skill: Skill): string {
    match r
    case Instructions => InstructionsContent(skill)
    case Rule => RuleContent(skill)
    case SkillDoc => SkillContent(skill)
  }

  // ---------------------------------------------------------------------
  // Paths
  // ---------------------------------------------------------------------

  /** The name of a skill's entry: the skill name with the per-file suffix,
      or the bare name for a folder. */
  function EntryName(tool: Tool, skillName: string): string {
    match tool.layout
    case FilePerSkill(suffix) => skillName + suffix
    case FolderPerSkill(_) => skillName
  }

  /** A per-file suffix that is not empty and holds no `/`, so a plain skill
      name keeps its entry one segment long. */
  predicate FlatLayout(tool: Tool) {
    tool.layout.FilePerSkill? ==> tool.layout.suffix != [] && '/' !in tool.layout.suffix
  }

  predicate FlatLayouts(tools: seq<Tool>) {
    forall i :: 0 <= i < |tools| ==> FlatLayout(tools[i])
  }

  lemma EntryOfSingle(tool: Tool, skillName: string)
    requires FlatLayout(tool) && SingleSegment(skillName)
    ensures SingleSegment(EntryName(tool, skillName))
  {
    if tool.layout.FilePerSkill? {
      var e := EntryName(tool, skillName);
      assert e[..|skillName|] == skillName;
    }
  }

  /** The entry a skill owns under the tool's root, its file or its folder,
      as `path.join(root, entry)` finds it: the entry name splits at `/`
      and empty and `.` segments vanish. A plain name under a flat layout
      gives exactly one segment. */
  function Target(tool: Tool, skillName: string): (p: Path)
    ensures Under(tool.root, p)
    ensures FlatLayout(tool) && SingleSegment(skillName) ==> p == tool.root + [EntryName(tool, skillName)]
  {
    var entry := EntryName(tool, skillName);
    assert FlatLayout(tool) && SingleSegment(skillName) ==> Segments(entry) == [entry] by {
      if FlatLayout(tool) && SingleSegment(skillName) {
        EntryOfSingle(tool, skillName);
        SegmentsOfSingle(entry);
      }
    }
    var p := tool.root + Segments(entry);
    assert p[..|tool.root|] == tool.root;
    p
  }

  /** The file written for a skill. */
  function OutputFile(tool: Tool, skillName: string): (p: Path)
    ensures Under(Target(tool, skillName), p)
  {
    match tool.layout
    case FilePerSkill(_) => Target(tool, skillName)
    case FolderPerSkill(fileName) => Target(tool, skillName) + [fileName]
  }

  // ---------------------------------------------------------------------
  // Registries
  // ---------------------------------------------------------------------

  /** The adapters under src/tools, keyed as `loadTools` keys them. */
  const ANTIGRAVITY := Tool("antigravity", "Antigravity", ".agent/skills/*/SKILL.md",
                            [".agent", "skills"], FolderPerSkill(SKILL_FILE_NAME), SkillDoc, WholeRoot)
  const CLAUDE_CODE := Tool("claude-code", "Claude Code", ".claude/skills/*/SKILL.md",
                            [".claude", "skills"], FolderPerSkill(SKILL_FILE_NAME), SkillDoc, WholeRoot)
  const CODEX := Tool("codex", "Codex", ".agents/skills/*/SKILL.md",
                      [".agents", "skills"], FolderPerSkill(SKILL_FILE_NAME), SkillDoc, WholeRoot)
  const COPILOT := Tool("copilot", "Copilot", ".github/instructions/*.instructions.md",
                        [".github", "instructions"], FilePerSkill(INSTRUCTIONS_SUFFIX), Instructions, WholeRoot)
  const CURSOR := Tool("cursor", "Cursor", ".cursor/rules/*.mdc",
                       [".cursor", "rules"], FilePerSkill(RULE_SUFFIX), Rule, WholeRoot)

  const TOOLS: seq<Tool> := [ANTIGRAVITY, CLAUDE_CODE, CODEX, COPILOT, CURSOR]

  /** The legacy adapters under scripts/tools, keyed by file name in sorted order. */
  const LEGACY_TOOLS: seq<Tool> := [
    Tool("antigravity", "Antigravity", ".agent/skills/*/SKILL.md",
         [".agent", "skills"], FolderPerSkill(SKILL_FILE_NAME), SkillDoc, PerName),
    Tool("claude", "Claude Code", ".claude/skills/*/SKILL.md",
         [".claude", "skills"], FolderPerSkill(SKILL_FILE_NAME), SkillDoc, PerName),
    Tool("codex", "OpenAI Codex", ".agents/skills/*/SKILL.md",
         [".agents", "skills"], FolderPerSkill(SKILL_FILE_NAME), SkillDoc, WholeRoot),
    Tool("copilot", "GitHub Copilot", ".github/instructions/*.instructions.md",
         [".github", "instructions"], FilePerSkill(INSTRUCTIONS_SUFFIX), Instructions, PerName),
    Tool("cursor", "Cursor", ".cursor/rules/*.mdc",
         [".cursor", "rules"], FilePerSkill(RULE_SUFFIX), Rule, PerName)
  ]

  /** Every adapter's layout is flat. */
  lemma RegistriesFlat()
    ensures FlatLayouts(TOOLS) && FlatLayouts(LEGACY_TOOLS)
  {
  }

  function Keys(tools: seq<Tool>): (r: seq<string>)
    ensures |r| == |tools|
    ensures forall i :: 0 <= i < |tools| ==> r[i] == tools[i].key
  {
    seq(|tools|, i requires 0 <= i < |tools| => tools[i].key)
  }

  /** `registry[key]` for a key the registry holds. */
  function Lookup(tools: seq<Tool>, key: string): (t: Tool)
    requires key in Keys(tools)
    ensures t in tools && t.key == key
  {
    if tools[0].key == key then tools[0] else Lookup(tools[1..], key)
  }
}
