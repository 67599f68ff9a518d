/** The `sync` and `clean` commands (src/commands/sync, src/commands/clean)
    and the `cleaner` loop they share (src/commands/cleaner.js). The tool
    registry is an explicit sequence of adapters; a selected key is looked up
    in it as `context.tools[toolKey]`. */
module Commands {
  import opened Wrappers
  import opened Strings
  import opened FileTree
  import opened SkillFileParser
  import opened Adapters
  import opened ToolOps
  import SelectTools
  import CacheFolder

  /** Every selected key names a tool of the registry. */
  predicate InRegistry(tools: seq<Tool>, selected: seq<string>) {
    forall i :: 0 <= i < |selected| ==> selected[i] in Keys(tools)
  }

  lemma InRegistryPrefix(tools: seq<Tool>, selected: seq<string>, n: nat)
    requires InRegistry(tools, selected) && n <= |selected|
    ensures InRegistry(tools, selected[..n])
  {
    forall i | 0 <= i < n ensures selected[..n][i] in Keys(tools) {
      assert selected[..n][i] == selected[i];
    }
  }

  /** No two tools of the registry write under roots one of which contains
      the other. */
  predicate RootsApart(tools: seq<Tool>) {
    forall i, j :: 0 <= i < |tools| && 0 <= j < |tools| && i != j ==> !Under(tools[i].root, tools[j].root)
  }

  lemma HeadsDiffer(a: Path, b: Path)
    requires a != [] && b != [] && a[0] != b[0]
    ensures !Under(a, b)
  {
  }

  /** Tools whose roots start with pairwise different directories are apart. */
  lemma ApartByHeads(tools: seq<Tool>, heads: seq<string>)
    requires |tools| == |heads|
    requires forall i :: 0 <= i < |tools| ==> tools[i].root != [] && tools[i].root[0] == heads[i]
    requires forall i, j :: 0 <= i < |heads| && 0 <= j < |heads| && i != j ==> heads[i] != heads[j]
    ensures RootsApart(tools)
  {
    forall i, j | 0 <= i < |tools| && 0 <= j < |tools| && i != j
      ensures !Under(tools[i].root, tools[j].root)
    {
      HeadsDiffer(tools[i].root, tools[j].root);
    }
  }

  /** The first directories of the registries' roots, in registry order. */
  const ROOT_HEADS: seq<string> := [".agent", ".claude", ".agents", ".github", ".cursor"]

  lemma RootHeadsDistinct()
    ensures forall i, j :: 0 <= i < |ROOT_HEADS| && 0 <= j < |ROOT_HEADS| && i != j ==> ROOT_HEADS[i] != ROOT_HEADS[j]
  {
  }

  /** Both registries keep their tools apart: the roots start with
      different directories. */
  lemma RegistriesApart()
    ensures RootsApart(TOOLS)
    ensures RootsApart(LEGACY_TOOLS)
  {
    RootHeadsDistinct();
    assert forall i :: 0 <= i < 5 ==> TOOLS[i].root != [] && TOOLS[i].root[0] == ROOT_HEADS[i];
    ApartByHeads(TOOLS, ROOT_HEADS);
    assert forall i :: 0 <= i < 5 ==> LEGACY_TOOLS[i].root != [] && LEGACY_TOOLS[i].root[0] == ROOT_HEADS[i];
    ApartByHeads(LEGACY_TOOLS, ROOT_HEADS);
  }

  /** Tools looked up under different keys are apart. */
  lemma LookupsApart(tools: seq<Tool>, k1: string, k2: string)
    requires RootsApart(tools) && k1 in Keys(tools) && k2 in Keys(tools) && k1 != k2
    ensures !Under(Lookup(tools, k1).root, Lookup(tools, k2).root)
  {
    var i :| 0 <= i < |tools| && tools[i] == Lookup(tools, k1);
    var j :| 0 <= j < |tools| && tools[j] == Lookup(tools, k2);
  }

  lemma UnderTrans(x: Path, y: Path, z: Path)
    ensures Under(x, y) && Under(y, z) ==> Under(x, z)
  {
    if Under(x, y) && Under(y, z) {
      assert z[..|y|][..|x|] == z[..|x|];
    }
  }

  /** Two prefixes of one path are nested. */
  lemma PrefixesNest(x: Path, y: Path, q: Path)
    ensures Under(x, q) && Under(y, q) ==> Under(x, y) || Under(y, x)
  {
    if Under(x, q) && Under(y, q) {
      if |x| <= |y| {
        assert y[..|x|] == q[..|y|][..|x|];
      } else {
        assert x[..|y|] == q[..|x|][..|y|];
      }
    }
  }

  /** `t` is `u` with some entries removed. */
  predicate SubTree(t: Tree, u: Tree) {
    forall q :: q in t ==> q in u && t[q] == u[q]
  }

  /** Nothing a `clean(names)` of `tool` would remove is left in `t`. */
  predicate Clear(t: Tree, tool: Tool, names: seq<string>) {
    match tool.cleanMode
    case WholeRoot => tool.root !in t
    case PerName => forall j :: 0 <= j < |names| ==> Target(tool, names[j]) !in t
  }

  /** Removing more keeps a clear tool clear. */
  lemma ClearShrinks(u: Tree, t: Tree, tool: Tool, names: seq<string>)
    requires SubTree(u, t) && Clear(t, tool, names)
    ensures Clear(u, tool, names)
  {
  }

  /** A sub-tree of a sub-tree is a sub-tree. */
  lemma SubTreeTrans(a: Tree, b: Tree, c: Tree)
    requires SubTree(a, b) && SubTree(b, c)
    ensures SubTree(a, c)
  {
  }

  /** A `clean` only removes, and leaves its tool clear. */
  lemma CleanedClears(t: Tree, tool: Tool, names: seq<string>)
    ensures SubTree(Cleaned(t, tool, names).tree, t)
    ensures Clear(Cleaned(t, tool, names).tree, tool, names)
  {
    match tool.cleanMode
    case WholeRoot =>
      if tool.root in t {
        assert Under(tool.root, tool.root);
      }
    case PerName =>
      RemoveNamesShrinks(t, tool, names);
      RemoveNamesClears(t, tool, names);
  }

  /** On a clear tree a `clean` removes and reports nothing. */
  lemma CleanedWhenClear(t: Tree, tool: Tool, names: seq<string>)
    requires Clear(t, tool, names)
    ensures Cleaned(t, tool, names) == Cleaning(t, [])
  {
    if tool.cleanMode.PerName? {
      RemoveNamesNothing(t, tool, names);
    }
  }

  // ---------------------------------------------------------------------
  // cleaner
  // ---------------------------------------------------------------------

  /** The tree after the `cleaner` loop and the number of tools it counted. */
  datatype Sweep = Sweep(tree: Tree, count: nat)

  /** The selected tools cleaned in selection order, each with the same
      names; a tool counts when its `clean` reported something. */
  function Swept(t: Tree, tools: seq<Tool>, selected: seq<string>, names: seq<string>): (r: Sweep)
    requires InRegistry(tools, selected)
    ensures r.count <= |selected|
    decreases |selected|
  {
    if selected == [] then Sweep(t, 0)
    else
      InRegistryPrefix(tools, selected, |selected| - 1);
      var s := Swept(t, tools, selected[..|selected| - 1], names);
      var c := Cleaned(s.tree, Lookup(tools, selected[|selected| - 1]), names);
      Sweep(c.tree, s.count + if c.removed == [] then 0 else 1)
  }

  /** `cleaner(tools, selectedTools, skillNames, cwd)`. */
  method Cleaner(fs: FileSystem, tools: seq<Tool>, selected: seq<string>, names: seq<string>) returns (count: nat)
    requires InRegistry(tools, selected)
    modifies fs
    ensures Sweep(fs.tree, count) == Swept(old(fs.tree), tools, selected, names)
  {
    count := 0;
    ghost var start := fs.tree;
    for i := 0 to |selected|
      invariant InRegistry(tools, selected[..i])
      invariant Sweep(fs.tree, count) == Swept(start, tools, selected[..i], names)
    {
      InRegistryPrefix(tools, selected, i + 1);
      assert selected[..i + 1][..i] == selected[..i];
      var cleanedPaths := Clean(fs, Lookup(tools, selected[i]), names);
      if cleanedPaths != [] {
        count := count + 1;
      }
    }
    assert selected[..|selected|] == selected;
  }

  /** A sweep only removes entries. */
  lemma {:induction false} SweptShrinks(t: Tree, tools: seq<Tool>, selected: seq<string>, names: seq<string>)
    requires InRegistry(tools, selected)
    ensures SubTree(Swept(t, tools, selected, names).tree, t)
    decreases |selected|
  {
    if selected != [] {
      var n := |selected| - 1;
      InRegistryPrefix(tools, selected, n);
      var s := Swept(t, tools, selected[..n], names);
      SweptShrinks(t, tools, selected[..n], names);
      var tool := Lookup(tools, selected[n]);
      CleanedClears(s.tree, tool, names);
      SubTreeTrans(Cleaned(s.tree, tool, names).tree, s.tree, t);
    }
  }

  /** After a sweep every selected tool is clear, and the sweep only removed. */
  lemma {:induction false} SweptClears(t: Tree, tools: seq<Tool>, selected: seq<string>, names: seq<string>)
    requires InRegistry(tools, selected)
    ensures SubTree(Swept(t, tools, selected, names).tree, t)
    ensures forall i :: 0 <= i < |selected| ==> Clear(Swept(t, tools, selected, names).tree, Lookup(tools, selected[i]), names)
    decreases |selected|
  {
    SweptShrinks(t, tools, selected, names);
    if selected != [] {
      var n := |selected| - 1;
      InRegistryPrefix(tools, selected, n);
      var init := selected[..n];
      SweptClears(t, tools, init, names);
      var s := Swept(t, tools, init, names);
      var tool := Lookup(tools, selected[n]);
      CleanedClears(s.tree, tool, names);
      var u := Cleaned(s.tree, tool, names).tree;
      assert Swept(t, tools, selected, names).tree == u;
      AllClearShrinks(u, s.tree, tools, selected, n, names);
      forall i | 0 <= i < |selected| ensures Clear(u, Lookup(tools, selected[i]), names) {
        if i == n {
          assert Clear(u, tool, names);
        }
      }
    }
  }

  /** Removing more keeps the first `n` selected tools clear. */
  lemma AllClearShrinks(u: Tree, t: Tree, tools: seq<Tool>, selected: seq<string>, n: nat, names: seq<string>)
    requires n <= |selected| && InRegistry(tools, selected) && SubTree(u, t)
    requires InRegistry(tools, selected[..n])
    requires forall i :: 0 <= i < n ==> Clear(t, Lookup(tools, selected[..n][i]), names)
    ensures forall i :: 0 <= i < n ==> Clear(u, Lookup(tools, selected[i]), names)
  {
    forall i | 0 <= i < n ensures Clear(u, Lookup(tools, selected[i]), names) {
      assert selected[..n][i] == selected[i];
      ClearShrinks(u, t, Lookup(tools, selected[i]), names);
    }
  }

  /** A sweep over tools that are all clear changes nothing and counts nothing. */
  lemma {:induction false} SweptWhenClear(t: Tree, tools: seq<Tool>, selected: seq<string>, names: seq<string>)
    requires InRegistry(tools, selected)
    requires forall i :: 0 <= i < |selected| ==> Clear(t, Lookup(tools, selected[i]), names)
    ensures Swept(t, tools, selected, names) == Sweep(t, 0)
    decreases |selected|
  {
    if selected != [] {
      var n := |selected| - 1;
      InRegistryPrefix(tools, selected, n);
      var init := selected[..n];
      forall i | 0 <= i < n ensures Clear(t, Lookup(tools, init[i]), names) {
        assert init[i] == selected[i];
      }
      SweptWhenClear(t, tools, init, names);
      CleanedWhenClear(t, Lookup(tools, selected[n]), names);
    }
  }

  /** The selected keys whose tool still holds something its `clean` would
      remove. */
  function Dirty(t: Tree, tools: seq<Tool>, selected: seq<string>, names: seq<string>): (r: set<string>)
    requires InRegistry(tools, selected)
    ensures forall k :: k in r <==> k in selected && !Clear(t, Lookup(tools, k), names)
  {
    set k | k in selected && k in Keys(tools) && !Clear(t, Lookup(tools, k), names)
  }

  /** A sweep over other tools keeps everything under a tool's root when the
      roots are apart. */
  lemma {:induction false} SweptKeepsUnder(t: Tree, tools: seq<Tool>, selected: seq<string>, names: seq<string>, x: string, q: Path)
    requires InRegistry(tools, selected) && RootsApart(tools)
    requires x in Keys(tools) && x !in selected && Under(Lookup(tools, x).root, q)
    ensures q in Swept(t, tools, selected, names).tree <==> q in t
    decreases |selected|
  {
    if selected != [] {
      var n := |selected| - 1;
      InRegistryPrefix(tools, selected, n);
      var init := selected[..n];
      assert x !in init;
      SweptKeepsUnder(t, tools, init, names, x, q);
      var s := Swept(t, tools, init, names);
      var tool := Lookup(tools, selected[n]);
      assert Swept(t, tools, selected, names).tree == Cleaned(s.tree, tool, names).tree;
      LookupsApart(tools, x, selected[n]);
      LookupsApart(tools, selected[n], x);
      PrefixesNest(Lookup(tools, x).root, tool.root, q);
      CleanedKeeps(s.tree, tool, names, q);
    }
  }

  /** A tool outside the selection is as clear after the sweep as before. */
  lemma ClearAcrossSweep(t: Tree, tools: seq<Tool>, selected: seq<string>, names: seq<string>, x: string)
    requires InRegistry(tools, selected) && RootsApart(tools)
    requires x in Keys(tools) && x !in selected
    ensures Clear(Swept(t, tools, selected, names).tree, Lookup(tools, x), names) <==> Clear(t, Lookup(tools, x), names)
  {
    var tool := Lookup(tools, x);
    assert Under(tool.root, tool.root);
    SweptKeepsUnder(t, tools, selected, names, x, tool.root);
    forall j | 0 <= j < |names|
      ensures Target(tool, names[j]) in Swept(t, tools, selected, names).tree <==> Target(tool, names[j]) in t
    {
      SweptKeepsUnder(t, tools, selected, names, x, Target(tool, names[j]));
    }
  }

  /** The `cleaner` count is the number of distinct selected tools that had
      something to remove: a repeated tool finds nothing the second time. */
  lemma {:induction false} SweptCount(t: Tree, tools: seq<Tool>, selected: seq<string>, names: seq<string>)
    requires InRegistry(tools, selected) && RootsApart(tools)
    ensures Swept(t, tools, selected, names).count == |Dirty(t, tools, selected, names)|
    decreases |selected|
  {
    if selected == [] {
      assert Dirty(t, tools, selected, names) == {};
    } else {
      var n := |selected| - 1;
      InRegistryPrefix(tools, selected, n);
      SweptCount(t, tools, selected[..n], names);
      SweptStep(t, tools, selected, names);
      DirtyStep(t, tools, selected, names);
    }
  }

  /** One more tool adds one to the count when it is new and not clear. */
  lemma SweptStep(t: Tree, tools: seq<Tool>, selected: seq<string>, names: seq<string>)
    requires InRegistry(tools, selected) && RootsApart(tools) && selected != []
    ensures var n := |selected| - 1;
      InRegistry(tools, selected[..n]) &&
      Swept(t, tools, selected, names).count == Swept(t, tools, selected[..n], names).count
        + if selected[n] !in selected[..n] && !Clear(t, Lookup(tools, selected[n]), names) then 1 else 0
  {
    var n := |selected| - 1;
    InRegistryPrefix(tools, selected, n);
    var init := selected[..n];
    var x := selected[n];
    var s := Swept(t, tools, init, names);
    var tool := Lookup(tools, x);
    var c := Cleaned(s.tree, tool, names);
    assert Swept(t, tools, selected, names).count == s.count + if c.removed == [] then 0 else 1;
    CleanedReports(s.tree, tool, names);
    if x in init {
      SweptClears(t, tools, init, names);
      var i :| 0 <= i < |init| && init[i] == x;
      assert Clear(s.tree, tool, names);
    } else {
      ClearAcrossSweep(t, tools, init, names, x);
    }
  }

  /** One more tool adds one dirty key when it is new and not clear. */
  lemma DirtyStep(t: Tree, tools: seq<Tool>, selected: seq<string>, names: seq<string>)
    requires InRegistry(tools, selected) && selected != []
    ensures var n := |selected| - 1;
      InRegistry(tools, selected[..n]) &&
      |Dirty(t, tools, selected, names)| == |Dirty(t, tools, selected[..n], names)|
        + if selected[n] !in selected[..n] && !Clear(t, Lookup(tools, selected[n]), names) then 1 else 0
  {
    var n := |selected| - 1;
    InRegistryPrefix(tools, selected, n);
    var init := selected[..n];
    var x := selected[n];
    var before := Dirty(t, tools, init, names);
    var after := Dirty(t, tools, selected, names);
    assert selected == init + [x];
    assert forall k :: k in selected <==> k in init || k == x;
    if x !in init && !Clear(t, Lookup(tools, x), names) {
      assert after == before + {x};
      assert x !in before;
    } else {
      assert after == before;
    }
  }

  /** Running `clean` twice: the second sweep removes nothing and counts 0. */
  lemma SweepTwice(t: Tree, tools: seq<Tool>, selected: seq<string>, names: seq<string>)
    requires InRegistry(tools, selected)
    ensures var once := Swept(t, tools, selected, names).tree;
      Swept(once, tools, selected, names) == Sweep(once, 0)
  {
    SweptClears(t, tools, selected, names);
    SweptWhenClear(Swept(t, tools, selected, names).tree, tools, selected, names);
  }

  // ---------------------------------------------------------------------
  // Generating for every selected tool
  // ---------------------------------------------------------------------

  /** The `generate` loop of `runSync`: each selected tool, in order, with
      the full skill list. */
  function GeneratedAll(t: Tree, tools: seq<Tool>, selected: seq<string>, skills: seq<Skill>): Tree
    requires InRegistry(tools, selected)
    decreases |selected|
  {
    if selected == [] then t
    else
      InRegistryPrefix(tools, selected, |selected| - 1);
      Generated(GeneratedAll(t, tools, selected[..|selected| - 1], skills), Lookup(tools, selected[|selected| - 1]), skills)
  }

  /** A later tool's `generate` keeps an earlier tool's output file. */
  lemma OtherToolKeeps(t: Tree, a: Tool, b: Tool, skills: seq<Skill>, n: string)
    requires !Under(a.root, b.root) && !Under(b.root, a.root)
    ensures var q := OutputFile(a, n);
      (q in Generated(t, b, skills) <==> q in t) && (q in t ==> Generated(t, b, skills)[q] == t[q])
  {
    var q := OutputFile(a, n);
    assert Under(a.root, Target(a, n));
    UnderTrans(a.root, Target(a, n), q);
    UnderTrans(a.root, q, b.root);
    forall j | 0 <= j < |skills|
      ensures !Under(Target(b, skills[j].name), q) && !Under(q, Target(b, skills[j].name))
    {
      var p := Target(b, skills[j].name);
      UnderTrans(b.root, p, q);
      PrefixesNest(a.root, b.root, q);
      UnderTrans(a.root, q, p);
      PrefixesNest(a.root, b.root, p);
    }
    GenerateFrame(t, b, skills, q);
  }

  /** `OtherToolKeeps` for two tools looked up under different keys. */
  lemma KeyedToolKeeps(t: Tree, tools: seq<Tool>, ka: string, kb: string, skills: seq<Skill>, n: string)
    requires RootsApart(tools) && ka in Keys(tools) && kb in Keys(tools) && ka != kb
    ensures var q := OutputFile(Lookup(tools, ka), n);
      (q in Generated(t, Lookup(tools, kb), skills) <==> q in t) && (q in t ==> Generated(t, Lookup(tools, kb), skills)[q] == t[q])
  {
    LookupsApart(tools, ka, kb);
    LookupsApart(tools, kb, ka);
    OtherToolKeeps(t, Lookup(tools, ka), Lookup(tools, kb), skills, n);
  }

  /** After the loop, each selected tool's output file for a plain skill
      name holds that skill's rendering (the later skill wins when two share
      a name). */
  lemma {:induction false} GeneratedAllWrites(t: Tree, tools: seq<Tool>, selected: seq<string>, skills: seq<Skill>, k: nat, i: nat)
    requires InRegistry(tools, selected) && RootsApart(tools) && FlatLayouts(tools)
    requires k < |selected| && i < |skills|
    requires forall j :: i <= j < |skills| ==> SingleSegment(skills[j].name)
    requires forall j :: i < j < |skills| ==> skills[j].name != skills[i].name
    ensures var tool := Lookup(tools, selected[k]);
      var g := GeneratedAll(t, tools, selected, skills);
      OutputFile(tool, skills[i].name) in g && g[OutputFile(tool, skills[i].name)] == File(Render(tool.renderer, skills[i]))
    decreases |selected|
  {
    var n := |selected| - 1;
    InRegistryPrefix(tools, selected, n);
    var init := selected[..n];
    var tool := Lookup(tools, selected[k]);
    var last := Lookup(tools, selected[n]);
    var prev := GeneratedAll(t, tools, init, skills);
    var g := Generated(prev, last, skills);
    assert GeneratedAll(t, tools, selected, skills) == g;
    var q := OutputFile(tool, skills[i].name);
    var text := File(Render(tool.renderer, skills[i]));
    if k == n || selected[k] == selected[n] {
      // the last tool, or a repeat of it that writes the same text again
      GenerateWritesPlain(prev, tool, skills, i);
      assert q in g && g[q] == text;
    } else {
      assert init[k] == selected[k];
      GeneratedAllWrites(t, tools, init, skills, k, i);
      assert q in prev && prev[q] == text;
      KeyedToolKeeps(prev, tools, selected[k], selected[n], skills, skills[i].name);
      assert q in g && g[q] == text;
    }
  }

  /** Per-tool counts as `runSync` reports them: what `generate` returned. */
  function Counts(n: nat, skills: seq<Skill>): (r: seq<nat>)
    ensures |r| == n && forall i :: 0 <= i < n ==> r[i] == |skills|
  {
    seq(n, _ => |skills|)
  }

  // ---------------------------------------------------------------------
  // runSync and runClean
  // ---------------------------------------------------------------------

  datatype CommandError =
    | Selection(error: SelectTools.SelectError)
    | Cache(cause: CacheFolder.CacheError)

  /** The tree and the outcome of a command run. */
  datatype Run<T> = Run(tree: Tree, result: Result<T, CommandError>)

  /** `runSync` once the tools are selected and `readCache` has seen the
      listing `listing`: clean every selected tool, then generate each. */
  function SyncRun(t: Tree, tools: seq<Tool>, selected: seq<string>, git: CacheFolder.Git, listing: seq<string>): (r: Run<seq<nat>>)
    requires InRegistry(tools, selected)
  {
    var fetched := CacheFolder.CacheTree(t, git);
    match CacheFolder.CacheResult(t, git, listing)
    case Failure(e) => Run(fetched, Failure(Cache(e)))
    case Success(read) =>
      var swept := Swept(fetched, tools, selected, SkillNames(read.skills)).tree;
      Run(GeneratedAll(swept, tools, selected, read.skills), Success(Counts(|selected|, read.skills)))
  }

  /** `runSync(flags, context)`. Selection comes first: when it fails,
      nothing is fetched or written. */
  method RunSync(fs: FileSystem, tools: seq<Tool>, flags: seq<string>, git: CacheFolder.Git) returns (r: Result<seq<nat>, CommandError>)
    modifies fs
    ensures SelectTools.SelectTools(flags, Keys(tools)).Failure? ==>
              r == Failure(Selection(SelectTools.SelectTools(flags, Keys(tools)).error)) && fs.tree == old(fs.tree)
    ensures SelectTools.SelectTools(flags, Keys(tools)).Success? ==>
              var selected := SelectTools.SelectTools(flags, Keys(tools)).value;
              && InRegistry(tools, selected)
              && exists listing :: CacheFolder.ListedAfter(old(fs.tree), git, listing)
                   && Run(fs.tree, r) == SyncRun(old(fs.tree), tools, selected, git, listing)
  {
    var selection := SelectTools.SelectTools(flags, Keys(tools));
    if selection.Failure? {
      return Failure(Selection(selection.error));
    }
    SelectedInRegistry(tools, flags);
    r := SyncSelected(fs, tools, selection.value, git);
  }

  /** `runSync` from `readCache` on. */
  method SyncSelected(fs: FileSystem, tools: seq<Tool>, selected: seq<string>, git: CacheFolder.Git) returns (r: Result<seq<nat>, CommandError>)
    requires InRegistry(tools, selected)
    modifies fs
    ensures exists listing :: CacheFolder.ListedAfter(old(fs.tree), git, listing)
              && Run(fs.tree, r) == SyncRun(old(fs.tree), tools, selected, git, listing)
  {
    ghost var t := fs.tree;
    var read := CacheFolder.ReadCache(fs, git);
    ghost var listing :| CacheFolder.ListedAfter(t, git, listing) && read == CacheFolder.CacheResult(t, git, listing);
    if read.Failure? {
      r := Failure(Cache(read.error));
      assert Run(fs.tree, r) == SyncRun(t, tools, selected, git, listing);
      return;
    }
    var skills := read.value.skills;
    var _ := Cleaner(fs, tools, selected, SkillNames(skills));
    var counts := GenerateAll(fs, tools, selected, skills);
    r := Success(counts);
    assert Run(fs.tree, r) == SyncRun(t, tools, selected, git, listing);
  }

  /** The `generate` loop of `runSync`. */
  method GenerateAll(fs: FileSystem, tools: seq<Tool>, selected: seq<string>, skills: seq<Skill>) returns (counts: seq<nat>)
    requires InRegistry(tools, selected)
    modifies fs
    ensures fs.tree == GeneratedAll(old(fs.tree), tools, selected, skills)
    ensures counts == Counts(|selected|, skills)
  {
    ghost var start := fs.tree;
    counts := [];
    for i := 0 to |selected|
      invariant InRegistry(tools, selected[..i])
      invariant fs.tree == GeneratedAll(start, tools, selected[..i], skills)
      invariant counts == Counts(i, skills)
    {
      InRegistryPrefix(tools, selected, i + 1);
      assert selected[..i + 1][..i] == selected[..i] && selected[..i + 1][i] == selected[i];
      var count := Generate(fs, Lookup(tools, selected[i]), skills);
      assert counts + [count] == Counts(i + 1, skills);
      counts := counts + [count];
    }
    assert selected[..|selected|] == selected;
  }

  /** The keys `selectTools` returns all name registry tools. */
  lemma SelectedInRegistry(tools: seq<Tool>, flags: seq<string>)
    ensures SelectTools.SelectTools(flags, Keys(tools)).Success? ==>
              InRegistry(tools, SelectTools.SelectTools(flags, Keys(tools)).value)
  {
  }

  /** Every selected tool ends up holding every skill's rendering. */
  lemma SyncWritesEverySkill(t: Tree, tools: seq<Tool>, selected: seq<string>, git: CacheFolder.Git,
                             listing: seq<string>, k: nat, i: nat)
    requires InRegistry(tools, selected) && RootsApart(tools) && FlatLayouts(tools)
    requires CacheFolder.CacheResult(t, git, listing).Success?
    requires var skills := CacheFolder.CacheResult(t, git, listing).value.skills;
      && k < |selected| && i < |skills|
      && (forall j :: i <= j < |skills| ==> SingleSegment(skills[j].name))
      && (forall j :: i < j < |skills| ==> skills[j].name != skills[i].name)
    ensures var skills := CacheFolder.CacheResult(t, git, listing).value.skills;
      var tool := Lookup(tools, selected[k]);
      var after := SyncRun(t, tools, selected, git, listing).tree;
      OutputFile(tool, skills[i].name) in after && after[OutputFile(tool, skills[i].name)] == File(Render(tool.renderer, skills[i]))
  {
    var read := CacheFolder.CacheResult(t, git, listing).value;
    var swept := Swept(CacheFolder.CacheTree(t, git), tools, selected, SkillNames(read.skills)).tree;
    GeneratedAllWrites(swept, tools, selected, read.skills, k, i);
  }

  /** `runClean` once the tools are selected and `readCache` has seen
      `listing`: only the cleaner runs, and its count is reported. */
  function CleanRun(t: Tree, tools: seq<Tool>, selected: seq<string>, git: CacheFolder.Git, listing: seq<string>): (r: Run<nat>)
    requires InRegistry(tools, selected)
    ensures r.result.Success? ==> r.result.value <= |selected|
  {
    var fetched := CacheFolder.CacheTree(t, git);
    match CacheFolder.CacheResult(t, git, listing)
    case Failure(e) => Run(fetched, Failure(Cache(e)))
    case Success(read) =>
      var s := Swept(fetched, tools, selected, SkillNames(read.skills));
      Run(s.tree, Success(s.count))
  }

  /** The count `runClean` reports is the number of distinct selected tools
      that held something of the cached skills' names. */
  lemma CleanRunCount(t: Tree, tools: seq<Tool>, selected: seq<string>, git: CacheFolder.Git, listing: seq<string>)
    requires InRegistry(tools, selected) && RootsApart(tools)
    ensures var r := CleanRun(t, tools, selected, git, listing).result;
      r.Success? <==> CacheFolder.CacheResult(t, git, listing).Success?
    ensures var r := CleanRun(t, tools, selected, git, listing).result;
      r.Success? ==> r.value == |Dirty(CacheFolder.CacheTree(t, git), tools, selected,
                                       SkillNames(CacheFolder.CacheResult(t, git, listing).value.skills))|
  {
    if CacheFolder.CacheResult(t, git, listing).Success? {
      var read := CacheFolder.CacheResult(t, git, listing).value;
      SweptCount(CacheFolder.CacheTree(t, git), tools, selected, SkillNames(read.skills));
    }
  }

  /** `runClean(flags, context)`. */
  method RunClean(fs: FileSystem, tools: seq<Tool>, flags: seq<string>, git: CacheFolder.Git) returns (r: Result<nat, CommandError>)
    modifies fs
    ensures SelectTools.SelectTools(flags, Keys(tools)).Failure? ==>
              r == Failure(Selection(SelectTools.SelectTools(flags, Keys(tools)).error)) && fs.tree == old(fs.tree)
    ensures SelectTools.SelectTools(flags, Keys(tools)).Success? ==>
              var selected := SelectTools.SelectTools(flags, Keys(tools)).value;
              && InRegistry(tools, selected)
              && exists listing :: CacheFolder.ListedAfter(old(fs.tree), git, listing)
                   && Run(fs.tree, r) == CleanRun(old(fs.tree), tools, selected, git, listing)
  {
    var selection := SelectTools.SelectTools(flags, Keys(tools));
    if selection.Failure? {
      return Failure(Selection(selection.error));
    }
    SelectedInRegistry(tools, flags);
    r := CleanSelected(fs, tools, selection.value, git);
  }

  /** `runClean` from `readCache` on. */
  method CleanSelected(fs: FileSystem, tools: seq<Tool>, selected: seq<string>, git: CacheFolder.Git) returns (r: Result<nat, CommandError>)
    requires InRegistry(tools, selected)
    modifies fs
    ensures exists listing :: CacheFolder.ListedAfter(old(fs.tree), git, listing)
              && Run(fs.tree, r) == CleanRun(old(fs.tree), tools, selected, git, listing)
  {
    ghost var t := fs.tree;
    var read := CacheFolder.ReadCache(fs, git);
    ghost var listing :| CacheFolder.ListedAfter(t, git, listing) && read == CacheFolder.CacheResult(t, git, listing);
    if read.Failure? {
      r := Failure(Cache(read.error));
      assert Run(fs.tree, r) == CleanRun(t, tools, selected, git, listing);
      return;
    }
    var cleanedCount := Cleaner(fs, tools, selected, SkillNames(read.value.skills));
    r := Success(cleanedCount);
    assert Run(fs.tree, r) == CleanRun(t, tools, selected, git, listing);
  }
}
