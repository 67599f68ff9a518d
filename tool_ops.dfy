/** What the adapters do to the project tree: the `generate` loops of the
    one-file-per-skill and one-folder-per-skill helpers, and the two `clean`
    strategies (remove the whole output root, or remove each named skill's
    entry). Each method is tied to a function of the old tree; the lemmas say
    what those functions write, keep and remove. */
module ToolOps {
  import opened Strings
  import opened FileTree
  import opened SkillFileParser
  import opened Adapters

  /** The tree a `clean` leaves behind and the paths it reports as removed. */
  datatype Cleaning = Cleaning(tree: Tree, removed: seq<Path>)

  function SkillNames(skills: seq<Skill>): (r: seq<string>)
    ensures |r| == |skills|
    ensures forall i :: 0 <= i < |skills| ==> r[i] == skills[i].name
  {
    seq(|skills|, i requires 0 <= i < |skills| => skills[i].name)
  }

  // ---------------------------------------------------------------------
  // Where a skill's output lives
  // ---------------------------------------------------------------------

  lemma SuffixCancel(a: string, b: string, s: string)
    requires a + s == b + s
    ensures a == b
  {
    assert |a| == |b|;
    assert a == (a + s)[..|a|];
    assert b == (b + s)[..|b|];
  }

  /** Skill names whose entries are single segments. */
  predicate PlainNames(tool: Tool, names: seq<string>) {
    FlatLayout(tool) && forall j :: 0 <= j < |names| ==> SingleSegment(names[j])
  }

  /** Two plain skill names share an entry only when they are the same name. */
  lemma TargetInjective(tool: Tool, a: string, b: string)
    requires FlatLayout(tool) && SingleSegment(a) && SingleSegment(b)
    requires Target(tool, a) == Target(tool, b)
    ensures a == b
  {
    var k := |tool.root|;
    assert Target(tool, a)[k] == Target(tool, b)[k];
    match tool.layout
    case FilePerSkill(suffix) =>
      SuffixCancel(a, b, suffix);
    case FolderPerSkill(_) =>
  }

  /** A plain skill name's entry contains another plain name's entry or
      output file only when the names agree. */
  lemma TargetsApart(tool: Tool, a: string, b: string)
    requires FlatLayout(tool) && SingleSegment(a) && SingleSegment(b)
    ensures Under(Target(tool, a), Target(tool, b)) ==> a == b
    ensures Under(Target(tool, a), OutputFile(tool, b)) ==> a == b
  {
    var ta, tb, ob := Target(tool, a), Target(tool, b), OutputFile(tool, b);
    if Under(ta, tb) {
      assert ta == tb[..|ta|] == tb;
      TargetInjective(tool, a, b);
    }
    if Under(ta, ob) {
      assert ob[..|tb|] == tb;
      assert ta == ob[..|ta|] == tb;
      TargetInjective(tool, a, b);
    }
  }

  /** Different plain names are written to different files. */
  lemma OutputFilesApart(tool: Tool, a: string, b: string)
    requires FlatLayout(tool) && SingleSegment(a) && SingleSegment(b) && a != b
    ensures OutputFile(tool, a) != OutputFile(tool, b)
  {
    TargetsApart(tool, a, b);
    assert Under(Target(tool, a), OutputFile(tool, a));
  }

  /** A path leading to a skill's entry leads to the root or lies inside it. */
  lemma PrefixOfTarget(tool: Tool, n: string, q: Path)
    ensures Under(q, Target(tool, n)) ==> Under(q, tool.root) || Under(tool.root, q)
  {
    var p := Target(tool, n);
    if Under(q, p) {
      if |q| <= |tool.root| {
        assert q == p[..|q|] == tool.root[..|q|];
      } else {
        assert tool.root == p[..|tool.root|] == q[..|tool.root|];
      }
    }
  }

  /** Anything inside a skill's entry lies inside the tool's root. */
  lemma TargetInsideRoot(tool: Tool, n: string, q: Path)
    requires Under(Target(tool, n), q)
    ensures Under(tool.root, q)
  {
    var p := Target(tool, n);
    assert q[..|tool.root|] == p[..|tool.root|] == tool.root;
  }

  // ---------------------------------------------------------------------
  // generate
  // ---------------------------------------------------------------------

  /** One iteration of a `generate` loop: the per-folder helper first creates
      the skill's folder; both then write the rendered skill. */
  function WriteSkill(t: Tree, tool: Tool, skill: Skill): Tree {
    var dirs := if tool.layout.FolderPerSkill? then Mkdirs(t, Target(tool, skill.name)) else t;
    dirs[OutputFile(tool, skill.name) := File(Render(tool.renderer, skill))]
  }

  /** The loop over the skills, in order. */
  function WriteSkills(t: Tree, tool: Tool, skills: seq<Skill>): Tree
    decreases |skills|
  {
    if skills == [] then t
    else WriteSkill(WriteSkills(t, tool, skills[..|skills| - 1]), tool, skills[|skills| - 1])
  }

  /** The per-file helper creates its directory before the loop; the
      per-folder helper does not. */
  function Prepared(t: Tree, tool: Tool): Tree {
    if tool.layout.FilePerSkill? then Mkdirs(t, tool.root) else t
  }

  /** The tree after `generate(skills)`. */
  function Generated(t: Tree, tool: Tool, skills: seq<Skill>): Tree {
    WriteSkills(Prepared(t, tool), tool, skills)
  }

  /** `generate` of skill-per-file.js and skill-per-folder.js, which every
      adapter's `generate` calls, and the legacy adapters' own loops. */
  method Generate(fs: FileSystem, tool: Tool, skills: seq<Skill>) returns (count: nat)
    modifies fs
    ensures fs.tree == Generated(old(fs.tree), tool, skills)
    ensures count == |skills|
  {
    if tool.layout.FilePerSkill? {
      fs.MkdirP(tool.root);
    }
    ghost var start := fs.tree;
    for i := 0 to |skills|
      invariant fs.tree == WriteSkills(start, tool, skills[..i])
    {
      var skill := skills[i];
      ghost var before := fs.tree;
      if tool.layout.FolderPerSkill? {
        fs.MkdirP(Target(tool, skill.name));
      }
      fs.WriteFile(OutputFile(tool, skill.name), Render(tool.renderer, skill));
      assert fs.tree == WriteSkill(before, tool, skill);
      WriteSkillsSnoc(start, tool, skills, i);
    }
    assert skills[..|skills|] == skills;
    count := |skills|;
  }

  lemma WriteSkillsSnoc(t: Tree, tool: Tool, skills: seq<Skill>, i: nat)
    requires i < |skills|
    ensures WriteSkills(t, tool, skills[..i + 1]) == WriteSkill(WriteSkills(t, tool, skills[..i]), tool, skills[i])
  {
    assert skills[..i + 1][..i] == skills[..i];
  }

  /** The writes never remove or change anything except the skills' entries,
      what lies inside them, and the folders on the way to them. */
  lemma {:induction false} WriteSkillsFrame(t: Tree, tool: Tool, skills: seq<Skill>, q: Path)
    requires forall j :: 0 <= j < |skills| ==> !Under(Target(tool, skills[j].name), q) && !Under(q, Target(tool, skills[j].name))
    ensures q in WriteSkills(t, tool, skills) <==> q in t
    ensures q in t ==> WriteSkills(t, tool, skills)[q] == t[q]
    decreases |skills|
  {
    if skills != [] {
      var init := skills[..|skills| - 1];
      var s := skills[|skills| - 1];
      WriteSkillsFrame(t, tool, init, q);
      assert Under(Target(tool, s.name), OutputFile(tool, s.name));
    }
  }

  /** `generate` only writes: an entry outside every generated skill's entry
      (and not an ancestor of the root, which the helpers may create) is
      exactly as it was, so other skills' files and folders under the root
      survive. */
  lemma GenerateFrame(t: Tree, tool: Tool, skills: seq<Skill>, q: Path)
    requires !Under(q, tool.root)
    requires forall j :: 0 <= j < |skills| ==> !Under(Target(tool, skills[j].name), q) && !Under(q, Target(tool, skills[j].name))
    ensures q in Generated(t, tool, skills) <==> q in t
    ensures q in t ==> Generated(t, tool, skills)[q] == t[q]
  {
    WriteSkillsFrame(Prepared(t, tool), tool, skills, q);
  }

  /** Each skill's output file holds its rendering unless a later skill
      writes the same file: the last write wins. */
  lemma {:induction false} WriteSkillsLastWins(t: Tree, tool: Tool, skills: seq<Skill>, i: nat)
    requires i < |skills|
    requires forall j :: i < j < |skills| ==> OutputFile(tool, skills[j].name) != OutputFile(tool, skills[i].name)
    ensures OutputFile(tool, skills[i].name) in WriteSkills(t, tool, skills)
    ensures WriteSkills(t, tool, skills)[OutputFile(tool, skills[i].name)] == File(Render(tool.renderer, skills[i]))
    decreases |skills|
  {
    var init := skills[..|skills| - 1];
    var s := skills[|skills| - 1];
    var u := WriteSkills(t, tool, init);
    assert WriteSkills(t, tool, skills) == WriteSkill(u, tool, s);
    if i < |skills| - 1 {
      assert init[i] == skills[i];
      WriteSkillsLastWins(t, tool, init, i);
      WriteSkillKeeps(u, tool, s, OutputFile(tool, skills[i].name));
    } else {
      WriteSkillSets(u, tool, s);
    }
  }

  /** One skill's write leaves its rendering in its output file. */
  lemma WriteSkillSets(u: Tree, tool: Tool, s: Skill)
    ensures var w := WriteSkill(u, tool, s);
      OutputFile(tool, s.name) in w && w[OutputFile(tool, s.name)] == File(Render(tool.renderer, s))
  {
  }

  /** One skill's write keeps every other file as it was. */
  lemma WriteSkillKeeps(u: Tree, tool: Tool, s: Skill, q: Path)
    requires q in u && q != OutputFile(tool, s.name)
    ensures q in WriteSkill(u, tool, s) && WriteSkill(u, tool, s)[q] == u[q]
  {
  }

  lemma GenerateWrites(t: Tree, tool: Tool, skills: seq<Skill>, i: nat)
    requires i < |skills|
    requires forall j :: i < j < |skills| ==> OutputFile(tool, skills[j].name) != OutputFile(tool, skills[i].name)
    ensures OutputFile(tool, skills[i].name) in Generated(t, tool, skills)
    ensures Generated(t, tool, skills)[OutputFile(tool, skills[i].name)] == File(Render(tool.renderer, skills[i]))
  {
    WriteSkillsLastWins(Prepared(t, tool), tool, skills, i);
  }

  /** For plain names under a flat layout, a skill's output file holds its
      rendering unless a later skill has the same name. */
  lemma GenerateWritesPlain(t: Tree, tool: Tool, skills: seq<Skill>, i: nat)
    requires FlatLayout(tool) && i < |skills|
    requires forall j :: i <= j < |skills| ==> SingleSegment(skills[j].name)
    requires forall j :: i < j < |skills| ==> skills[j].name != skills[i].name
    ensures OutputFile(tool, skills[i].name) in Generated(t, tool, skills)
    ensures Generated(t, tool, skills)[OutputFile(tool, skills[i].name)] == File(Render(tool.renderer, skills[i]))
  {
    forall j | i < j < |skills| ensures OutputFile(tool, skills[j].name) != OutputFile(tool, skills[i].name) {
      OutputFilesApart(tool, skills[j].name, skills[i].name);
    }
    GenerateWrites(t, tool, skills, i);
  }

  /** Every skill's entry and output file exist after the loop, and so does
      the root once something was written. */
  lemma WriteSkillsCreates(t: Tree, tool: Tool, skills: seq<Skill>)
    requires tool.root != []
    ensures var w := WriteSkills(t, tool, skills);
      forall j :: 0 <= j < |skills| ==> OutputFile(tool, skills[j].name) in w && Target(tool, skills[j].name) in w
    ensures tool.root in t || (skills != [] && tool.layout.FolderPerSkill?) ==> tool.root in WriteSkills(t, tool, skills)
  {
    forall j | 0 <= j < |skills|
      ensures OutputFile(tool, skills[j].name) in WriteSkills(t, tool, skills)
      ensures Target(tool, skills[j].name) in WriteSkills(t, tool, skills)
    {
      WriteSkillsCreatesAt(t, tool, skills, j);
    }
    WriteSkillsRoot(t, tool, skills);
  }

  /** The entry and output file of the skill at `j` exist after the loop. */
  lemma {:induction false} WriteSkillsCreatesAt(t: Tree, tool: Tool, skills: seq<Skill>, j: nat)
    requires tool.root != [] && j < |skills|
    ensures var w := WriteSkills(t, tool, skills);
      OutputFile(tool, skills[j].name) in w && Target(tool, skills[j].name) in w
    decreases |skills|
  {
    var init := skills[..|skills| - 1];
    var s := skills[|skills| - 1];
    var u := WriteSkills(t, tool, init);
    assert WriteSkills(t, tool, skills) == WriteSkill(u, tool, s);
    if j < |skills| - 1 {
      WriteSkillsCreatesAt(t, tool, init, j);
      assert init[j] == skills[j];
    }
    WriteSkillCreates(u, tool, s);
  }

  /** The root survives the loop, and the per-folder helper creates it. */
  lemma {:induction false} WriteSkillsRoot(t: Tree, tool: Tool, skills: seq<Skill>)
    requires tool.root != []
    ensures tool.root in t || (skills != [] && tool.layout.FolderPerSkill?) ==> tool.root in WriteSkills(t, tool, skills)
    decreases |skills|
  {
    if skills != [] {
      var init := skills[..|skills| - 1];
      var u := WriteSkills(t, tool, init);
      assert WriteSkills(t, tool, skills) == WriteSkill(u, tool, skills[|skills| - 1]);
      WriteSkillsRoot(t, tool, init);
      WriteSkillCreates(u, tool, skills[|skills| - 1]);
    }
  }

  /** One skill's write keeps every path and adds the skill's target, its
      file and, for the per-folder helper, the tool's root. */
  lemma WriteSkillCreates(u: Tree, tool: Tool, s: Skill)
    requires tool.root != []
    ensures var w := WriteSkill(u, tool, s);
      && (forall p :: p in u ==> p in w)
      && OutputFile(tool, s.name) in w && Target(tool, s.name) in w
      && (tool.layout.FolderPerSkill? ==> tool.root in w)
  {
    var p := Target(tool, s.name);
    if tool.layout.FolderPerSkill? {
      assert p[..|p|] == p;
      assert p[..|tool.root|] == tool.root;
    }
  }

  /** With no skills, the per-folder helper leaves the tree alone while the
      per-file helper still creates its directory. */
  lemma GenerateNothing(t: Tree, tool: Tool)
    requires tool.root != []
    ensures tool.layout.FolderPerSkill? ==> Generated(t, tool, []) == t
    ensures tool.layout.FilePerSkill? ==> tool.root in Generated(t, tool, [])
  {
    if tool.layout.FilePerSkill? {
      assert tool.root[..|tool.root|] == tool.root;
    }
  }

  // ---------------------------------------------------------------------
  // clean
  // ---------------------------------------------------------------------

  /** The wholesale `clean` of skill-per-file.js (and legacy codex.js). */
  function RemoveRoot(t: Tree, root: Path): (r: Cleaning)
    ensures root !in t ==> r == Cleaning(t, [])
    ensures root in t ==> r.removed == [root]
    ensures root in t ==> forall q :: q in r.tree <==> q in t && !Under(root, q)
    ensures forall q :: q in r.tree ==> q in t && r.tree[q] == t[q]
  {
    if root in t then Cleaning(RemoveTree(t, root), [root]) else Cleaning(t, [])
  }

  /** One iteration of a per-name `clean`: an existing file is unlinked, an
      existing folder removed recursively. */
  function RemoveNamed(t: Tree, tool: Tool, name: string): Cleaning {
    var p := Target(tool, name);
    if p !in t then Cleaning(t, [])
    else if tool.layout.FilePerSkill? then Cleaning(t - {p}, [p])
    else Cleaning(RemoveTree(t, p), [p])
  }

  /** The per-name loop, in `names` order. */
  function RemoveNames(t: Tree, tool: Tool, names: seq<string>): Cleaning
    decreases |names|
  {
    if names == [] then Cleaning(t, [])
    else
      var c := RemoveNames(t, tool, names[..|names| - 1]);
      var d := RemoveNamed(c.tree, tool, names[|names| - 1]);
      Cleaning(d.tree, c.removed + d.removed)
  }

  function Cleaned(t: Tree, tool: Tool, names: seq<string>): Cleaning {
    match tool.cleanMode
    case WholeRoot => RemoveRoot(t, tool.root)
    case PerName => RemoveNames(t, tool, names)
  }

  /** Every adapter's `clean(names, cwd)`: the current adapters remove their
      root and ignore the names; the legacy per-name adapters remove each
      named skill's file or folder that exists. */
  method Clean(fs: FileSystem, tool: Tool, names: seq<string>) returns (removed: seq<Path>)
    modifies fs
    ensures Cleaning(fs.tree, removed) == Cleaned(old(fs.tree), tool, names)
  {
    match tool.cleanMode {
      case WholeRoot =>
        if !fs.Exists(tool.root) {
          return [];
        }
        fs.RemoveRecursive(tool.root);
        removed := [tool.root];
      case PerName =>
        removed := [];
        ghost var start := fs.tree;
        for i := 0 to |names|
          invariant Cleaning(fs.tree, removed) == RemoveNames(start, tool, names[..i])
        {
          var p := Target(tool, names[i]);
          ghost var d := RemoveNamed(fs.tree, tool, names[i]);
          ghost var done := removed;
          if fs.Exists(p) {
            if tool.layout.FilePerSkill? {
              fs.Unlink(p);
            } else {
              fs.RemoveRecursive(p);
            }
            removed := removed + [p];
          }
          assert fs.tree == d.tree && removed == done + d.removed;
          RemoveNamesSnoc(start, tool, names, i);
        }
        assert names[..|names|] == names;
    }
  }

  lemma RemoveNamesSnoc(t: Tree, tool: Tool, names: seq<string>, i: nat)
    requires i < |names|
    ensures var c := RemoveNames(t, tool, names[..i]);
      var d := RemoveNamed(c.tree, tool, names[i]);
      RemoveNames(t, tool, names[..i + 1]) == Cleaning(d.tree, c.removed + d.removed)
  {
    assert names[..i + 1][..i] == names[..i];
  }

  /** A per-name clean only removes entries. */
  lemma {:induction false} RemoveNamesShrinks(t: Tree, tool: Tool, names: seq<string>)
    ensures forall q :: q in RemoveNames(t, tool, names).tree ==> q in t && RemoveNames(t, tool, names).tree[q] == t[q]
    decreases |names|
  {
    if names != [] {
      RemoveNamesShrinks(t, tool, names[..|names| - 1]);
    }
  }

  /** A per-name clean keeps everything outside the named skills' entries. */
  lemma {:induction false} RemoveNamesFrame(t: Tree, tool: Tool, names: seq<string>, q: Path)
    requires q in t
    requires forall j :: 0 <= j < |names| ==> !Under(Target(tool, names[j]), q)
    ensures q in RemoveNames(t, tool, names).tree
    decreases |names|
  {
    if names != [] {
      var init := names[..|names| - 1];
      assert forall j :: 0 <= j < |init| ==> init[j] == names[j];
      RemoveNamesFrame(t, tool, init, q);
      var c := RemoveNames(t, tool, init);
      var p := Target(tool, names[|names| - 1]);
      assert RemoveNames(t, tool, names).tree == RemoveNamed(c.tree, tool, names[|names| - 1]).tree;
      assert !Under(p, q);
      assert p != q by {
        assert Under(p, p);
      }
    }
  }

  /** After a per-name clean no named entry is left. */
  lemma {:induction false} RemoveNamesClears(t: Tree, tool: Tool, names: seq<string>)
    ensures forall j :: 0 <= j < |names| ==> Target(tool, names[j]) !in RemoveNames(t, tool, names).tree
    decreases |names|
  {
    if names != [] {
      var init := names[..|names| - 1];
      RemoveNamesClears(t, tool, init);
      var c := RemoveNames(t, tool, init);
      var last := Target(tool, names[|names| - 1]);
      var u := RemoveNamed(c.tree, tool, names[|names| - 1]).tree;
      assert RemoveNames(t, tool, names).tree == u;
      assert Under(last, last);
      assert last !in u;
      assert forall q :: q in u ==> q in c.tree;
      forall j | 0 <= j < |names| - 1 ensures Target(tool, names[j]) !in u {
        assert init[j] == names[j];
      }
    }
  }

  /** A folder that existed and is named is removed with everything in it. */
  lemma {:induction false} RemoveNamesClearsInside(t: Tree, tool: Tool, names: seq<string>, n: string, q: Path)
    requires tool.layout.FolderPerSkill? && PlainNames(tool, names)
    requires n in names && Target(tool, n) in t && Under(Target(tool, n), q)
    ensures q !in RemoveNames(t, tool, names).tree
    decreases |names|
  {
    var init := names[..|names| - 1];
    var c := RemoveNames(t, tool, init);
    RemoveNamesShrinks(c.tree, tool, [names[|names| - 1]]);
    assert [names[|names| - 1]][..0] == [];
    assert PlainNames(tool, init);
    if n in init {
      RemoveNamesClearsInside(t, tool, init, n, q);
    } else {
      assert n == names[|names| - 1];
      forall j | 0 <= j < |init| ensures !Under(Target(tool, init[j]), Target(tool, n)) {
        TargetsApart(tool, init[j], n);
      }
      RemoveNamesFrame(t, tool, init, Target(tool, n));
    }
  }

  predicate NoRepeats(ps: seq<Path>) {
    forall i, j :: 0 <= i < j < |ps| ==> ps[i] != ps[j]
  }

  /** A per-name clean reports exactly the named entries that existed, each once. */
  lemma RemoveNamesReports(t: Tree, tool: Tool, names: seq<string>)
    requires PlainNames(tool, names)
    ensures var r := RemoveNames(t, tool, names).removed;
      forall p :: p in r <==> p in t && exists j :: 0 <= j < |names| && p == Target(tool, names[j])
    ensures NoRepeats(RemoveNames(t, tool, names).removed)
  {
    RemoveNamesReported(t, tool, names);
    RemoveNamesNoRepeats(t, tool, names);
  }

  /** A name that `path.join` places inside an earlier name's folder is gone
      by its turn: cleaning `a` and `a/b` removes and reports `a` alone. */
  lemma NestedNameReportedOnce(t: Tree, tool: Tool)
    requires tool.layout.FolderPerSkill?
    requires tool.root + ["a"] in t && tool.root + ["a", "b"] in t
    ensures Target(tool, "a/b") == tool.root + ["a", "b"]
    ensures RemoveNames(t, tool, ["a", "a/b"]).removed == [tool.root + ["a"]]
  {
    assert IndexOf("a/b", '/') == 1;
    assert Split("a/b", '/') == ["a", "b"] by {
      assert "a/b"[2..] == "b" && "a/b"[..1] == "a";
      assert IndexOf("b", '/') == -1;
      assert Split("b", '/') == ["b"];
      assert Split("a/b", '/') == ["a/b"[..1]] + Split("a/b"[2..], '/');
    }
    assert Keep(["a", "b"]) == ["a", "b"] by {
      assert ["a", "b"][1..] == ["b"];
      assert ["b"][1..] == [];
    }
    var a := tool.root + ["a"];
    var ab := tool.root + ["a", "b"];
    assert Target(tool, "a") == a;
    assert ["a", "a/b"][..1] == ["a"];
    assert ["a"][..0] == [];
    var c := RemoveNames(t, tool, ["a"]);
    assert c == Cleaning(RemoveTree(t, a), [a]);
    assert ab[..|a|] == a;
    assert ab !in c.tree;
  }

  /** The reported paths are exactly the named targets that existed. */
  lemma RemoveNamesReported(t: Tree, tool: Tool, names: seq<string>)
    requires PlainNames(tool, names)
    ensures var r := RemoveNames(t, tool, names).removed;
      forall p :: p in r <==> p in t && exists j :: 0 <= j < |names| && p == Target(tool, names[j])
  {
    var r := RemoveNames(t, tool, names).removed;
    forall p | p in r ensures p in t && exists j :: 0 <= j < |names| && p == Target(tool, names[j]) {
      var j := RemovedIsNamed(t, tool, names, p);
    }
    forall p | p in t && exists j :: 0 <= j < |names| && p == Target(tool, names[j]) ensures p in r {
      var j :| 0 <= j < |names| && p == Target(tool, names[j]);
      NamedIsRemoved(t, tool, names, j);
    }
  }

  /** Every reported path is a named target that existed. */
  lemma {:induction false} RemovedIsNamed(t: Tree, tool: Tool, names: seq<string>, p: Path) returns (j: nat)
    requires p in RemoveNames(t, tool, names).removed
    ensures p in t && j < |names| && p == Target(tool, names[j])
    decreases |names|
  {
    var init := names[..|names| - 1];
    var c := RemoveNames(t, tool, init);
    if p in c.removed {
      j := RemovedIsNamed(t, tool, init, p);
      assert init[j] == names[j];
    } else {
      RemoveNamesShrinks(t, tool, init);
      j := |names| - 1;
    }
  }

  /** Every named target that existed is reported. */
  lemma {:induction false} NamedIsRemoved(t: Tree, tool: Tool, names: seq<string>, j: nat)
    requires PlainNames(tool, names)
    requires j < |names| && Target(tool, names[j]) in t
    ensures Target(tool, names[j]) in RemoveNames(t, tool, names).removed
    decreases |names|
  {
    var init := names[..|names| - 1];
    var c := RemoveNames(t, tool, init);
    var p := Target(tool, names[j]);
    assert RemoveNames(t, tool, names).removed == c.removed + RemoveNamed(c.tree, tool, names[|names| - 1]).removed;
    assert PlainNames(tool, init);
    if j < |init| {
      assert init[j] == names[j];
      NamedIsRemoved(t, tool, init, j);
    } else if p !in c.tree {
      if forall i :: 0 <= i < |init| ==> !Under(Target(tool, init[i]), p) {
        RemoveNamesFrame(t, tool, init, p);
      }
      var i :| 0 <= i < |init| && Under(Target(tool, init[i]), p);
      TargetsApart(tool, init[i], names[j]);
      NamedIsRemoved(t, tool, init, i);
    }
  }

  /** No path is reported twice. */
  lemma {:induction false} RemoveNamesNoRepeats(t: Tree, tool: Tool, names: seq<string>)
    ensures NoRepeats(RemoveNames(t, tool, names).removed)
    decreases |names|
  {
    if names != [] {
      var init := names[..|names| - 1];
      var p := Target(tool, names[|names| - 1]);
      RemoveNamesNoRepeats(t, tool, init);
      var c := RemoveNames(t, tool, init);
      var d := RemoveNamed(c.tree, tool, names[|names| - 1]);
      var r := c.removed + d.removed;
      assert RemoveNames(t, tool, names).removed == r;
      if p in c.tree {
        RemoveNamesClears(t, tool, init);
        assert p !in c.removed by {
          if p in c.removed {
            var j := RemovedIsNamed(t, tool, init, p);
          }
        }
        assert d.removed == [p];
        forall i, j | 0 <= i < j < |r| ensures r[i] != r[j] {
          assert r[i] == c.removed[i];
          if j < |c.removed| {
            assert r[j] == c.removed[j];
          } else {
            assert r[j] == p;
          }
        }
      } else {
        assert d.removed == [];
        assert r == c.removed;
      }
    }
  }

  /** Cleaning a tree that holds none of the tool's output changes nothing
      and reports nothing. */
  lemma {:induction false} RemoveNamesNothing(t: Tree, tool: Tool, names: seq<string>)
    requires forall j :: 0 <= j < |names| ==> Target(tool, names[j]) !in t
    ensures RemoveNames(t, tool, names) == Cleaning(t, [])
    decreases |names|
  {
    if names != [] {
      var init := names[..|names| - 1];
      assert forall j :: 0 <= j < |init| ==> init[j] == names[j];
      RemoveNamesNothing(t, tool, init);
    }
  }

  /** A per-name clean that reports nothing found none of the named entries
      and left the tree as it was. */
  lemma {:induction false} RemoveNamesSilent(t: Tree, tool: Tool, names: seq<string>)
    requires RemoveNames(t, tool, names).removed == []
    ensures RemoveNames(t, tool, names).tree == t
    ensures forall j :: 0 <= j < |names| ==> Target(tool, names[j]) !in t
    decreases |names|
  {
    if names != [] {
      var init := names[..|names| - 1];
      var c := RemoveNames(t, tool, init);
      var d := RemoveNamed(c.tree, tool, names[|names| - 1]);
      assert RemoveNames(t, tool, names) == Cleaning(d.tree, c.removed + d.removed);
      assert c.removed == [] && d.removed == [];
      RemoveNamesSilent(t, tool, init);
      var p := Target(tool, names[|names| - 1]);
      assert p !in c.tree && d.tree == c.tree;
      assert p !in t;
      forall j | 0 <= j < |names| ensures Target(tool, names[j]) !in t {
        if j < |init| {
          assert init[j] == names[j];
        } else {
          assert j == |names| - 1;
        }
      }
    }
  }

  /** A `clean` reports something exactly when the tree held something it
      removes. */
  lemma CleanedReports(t: Tree, tool: Tool, names: seq<string>)
    ensures Cleaned(t, tool, names).removed == [] <==>
      match tool.cleanMode
      case WholeRoot => tool.root !in t
      case PerName => forall j :: 0 <= j < |names| ==> Target(tool, names[j]) !in t
  {
    if tool.cleanMode.PerName? {
      if RemoveNames(t, tool, names).removed == [] {
        RemoveNamesSilent(t, tool, names);
      }
      if forall j :: 0 <= j < |names| ==> Target(tool, names[j]) !in t {
        RemoveNamesNothing(t, tool, names);
      }
    }
  }

  /** A `clean` keeps every entry outside the tool's root. */
  lemma CleanedKeeps(t: Tree, tool: Tool, names: seq<string>, q: Path)
    requires !Under(tool.root, q)
    ensures q in Cleaned(t, tool, names).tree <==> q in t
  {
    if tool.cleanMode.PerName? {
      RemoveNamesShrinks(t, tool, names);
      if q in t {
        forall j | 0 <= j < |names| ensures !Under(Target(tool, names[j]), q) {
          if Under(Target(tool, names[j]), q) {
            TargetInsideRoot(tool, names[j], q);
          }
        }
        RemoveNamesFrame(t, tool, names, q);
      }
    }
  }

  /** A second `clean` with the same names removes nothing and reports `[]`. */
  lemma CleanTwice(t: Tree, tool: Tool, names: seq<string>)
    ensures var once := Cleaned(t, tool, names);
      Cleaned(once.tree, tool, names) == Cleaning(once.tree, [])
  {
    match tool.cleanMode
    case WholeRoot =>
      var once := RemoveRoot(t, tool.root);
      if tool.root in t {
        assert Under(tool.root, tool.root);
      }
    case PerName =>
      RemoveNamesClears(t, tool, names);
      RemoveNamesNothing(RemoveNames(t, tool, names).tree, tool, names);
  }

  /** A `clean` after `generate` leaves none of the written files, and the
      tree outside the tool's root and the root's ancestors is as it was
      before `generate`. */
  lemma CleanAfterGenerate(t: Tree, tool: Tool, skills: seq<Skill>)
    requires tool.root != []
    requires tool.cleanMode.PerName? ==> PlainNames(tool, SkillNames(skills))
    ensures var after := Cleaned(Generated(t, tool, skills), tool, SkillNames(skills)).tree;
      forall j :: 0 <= j < |skills| ==> OutputFile(tool, skills[j].name) !in after
    ensures var after := Cleaned(Generated(t, tool, skills), tool, SkillNames(skills)).tree;
      forall q :: !Under(q, tool.root) && !Under(tool.root, q) ==>
        (q in after <==> q in t) && (q in t ==> after[q] == t[q])
  {
    CleanAfterGenerateRemoves(t, tool, skills);
    CleanAfterGenerateFrame(t, tool, skills);
  }

  lemma CleanAfterGenerateRemoves(t: Tree, tool: Tool, skills: seq<Skill>)
    requires tool.root != []
    requires tool.cleanMode.PerName? ==> PlainNames(tool, SkillNames(skills))
    ensures var after := Cleaned(Generated(t, tool, skills), tool, SkillNames(skills)).tree;
      forall j :: 0 <= j < |skills| ==> OutputFile(tool, skills[j].name) !in after
  {
    var g := Generated(t, tool, skills);
    var names := SkillNames(skills);
    var after := Cleaned(g, tool, names).tree;
    WriteSkillsCreates(Prepared(t, tool), tool, skills);
    if tool.layout.FilePerSkill? {
      assert tool.root[..|tool.root|] == tool.root;
    }
    forall j | 0 <= j < |skills| ensures OutputFile(tool, skills[j].name) !in after {
      var n := skills[j].name;
      assert Under(Target(tool, n), OutputFile(tool, n));
      TargetInsideRoot(tool, n, OutputFile(tool, n));
      if tool.cleanMode.PerName? {
        RemoveNamesClears(g, tool, names);
        assert names[j] == n;
        if tool.layout.FolderPerSkill? {
          RemoveNamesClearsInside(g, tool, names, n, OutputFile(tool, n));
        }
      }
    }
  }

  lemma CleanAfterGenerateFrame(t: Tree, tool: Tool, skills: seq<Skill>)
    requires tool.root != []
    ensures var after := Cleaned(Generated(t, tool, skills), tool, SkillNames(skills)).tree;
      forall q :: !Under(q, tool.root) && !Under(tool.root, q) ==>
        (q in after <==> q in t) && (q in t ==> after[q] == t[q])
  {
    var g := Generated(t, tool, skills);
    var names := SkillNames(skills);
    var after := Cleaned(g, tool, names).tree;
    forall q | !Under(q, tool.root) && !Under(tool.root, q)
      ensures (q in after <==> q in t) && (q in t ==> after[q] == t[q])
    {
      forall j | 0 <= j < |skills|
        ensures !Under(Target(tool, skills[j].name), q) && !Under(q, Target(tool, skills[j].name))
      {
        if Under(Target(tool, skills[j].name), q) {
          TargetInsideRoot(tool, skills[j].name, q);
        }
        PrefixOfTarget(tool, skills[j].name, q);
      }
      GenerateFrame(t, tool, skills, q);
      if tool.cleanMode.PerName? {
        RemoveNamesShrinks(g, tool, names);
        if q in g {
          forall j | 0 <= j < |names| ensures !Under(Target(tool, names[j]), q) {
            if Under(Target(tool, names[j]), q) {
              TargetInsideRoot(tool, names[j], q);
            }
          }
          RemoveNamesFrame(g, tool, names, q);
        }
      }
    }
  }
}
