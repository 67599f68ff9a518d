/** The part of the filesystem the CLI touches, as a map from paths (sequences
    of segments, relative to the project root) to entries. JSON files are kept
    as their parsed value; any other file is kept as text. */
module FileTree {
  import opened Wrappers
  import opened Strings

  type Path = seq<string>

  /** A JSON value, as `JSON.parse` returns it. */
  datatype Json =
    | JNull
    | JBool(b: bool)
    | JNum(n: int)
    | JStr(s: string)
    | JArr(items: seq<Json>)
    | JObj(fields: map<string, Json>)

  /** `typeof v[k] === "string" ? v[k] : undefined` on a parsed JSON value;
      only objects have named fields. */
  function StringField(v: Json, k: string): (r: Option<string>)
    ensures r.Some? <==> v.JObj? && k in v.fields && v.fields[k].JStr?
    ensures r.Some? ==> r.value == v.fields[k].s
  {
    if v.JObj? && k in v.fields && v.fields[k].JStr? then Some(v.fields[k].s) else None
  }

  datatype Entry = Dir | File(text: string) | JsonFile(value: Json)

  type Tree = map<Path, Entry>

  /** `q` is `p` or lies beneath it. */
  predicate Under(p: Path, q: Path) {
    |p| <= |q| && q[..|p|] == p
  }

  /** `fs.mkdirSync(p, { recursive: true })`: every missing ancestor of `p`
      and `p` itself become directories; existing entries are kept. */
  function Mkdirs(t: Tree, p: Path): (r: Tree)
    ensures forall q :: q in t ==> q in r && r[q] == t[q]
    ensures forall k :: 1 <= k <= |p| ==> p[..k] in r
    ensures forall q :: q in r && q !in t ==> r[q] == Dir && q != [] && Under(q, p)
    decreases |p|
  {
    if p == [] then t
    else
      var u := Mkdirs(t, p[..|p| - 1]);
      assert forall k :: 1 <= k < |p| ==> p[..|p| - 1][..k] == p[..k];
      assert forall q :: q in u && q !in t ==> Under(q, p) by {
        forall q | q in u && q !in t ensures Under(q, p) {
          assert Under(q, p[..|p| - 1]);
          assert p[..|p| - 1][..|q|] == p[..|q|];
        }
      }
      assert p[..|p|] == p;
      if p in u then u else u[p := Dir]
  }

  /** `fs.rmSync(p, { recursive: true })`: `p` and everything beneath it go. */
  function RemoveTree(t: Tree, p: Path): (r: Tree)
    ensures forall q :: q in r <==> q in t && !Under(p, q)
    ensures forall q :: q in r ==> r[q] == t[q]
  {
    map q | q in t && !Under(p, q) :: t[q]
  }

  /** The names `fs.readdirSync(p)` lists. */
  function Children(t: Tree, p: Path): set<string> {
    set q | q in t && |q| == |p| + 1 && q[..|p|] == p :: q[|p|]
  }

  /** The text of every regular file directly inside `p`, by name. */
  function FilesIn(t: Tree, p: Path): map<string, string> {
    map n | n in Children(t, p) && p + [n] in t && t[p + [n]].File? :: t[p + [n]].text
  }

  /** `path.join` over a relative path written with `/`: empty and `.`
      segments disappear. */
  function Segments(s: string): (r: Path)
    ensures forall i :: 0 <= i < |r| ==> r[i] != "" && r[i] != "." && '/' !in r[i]
  {
    Keep(Split(s, '/'))
  }

  /** A name `path.join` keeps as exactly one segment: not empty, not `.`
      or `..`, and without `/`. */
  predicate SingleSegment(n: string) {
    n != [] && n != "." && n != ".." && '/' !in n
  }

  lemma SegmentsOfSingle(n: string)
    requires SingleSegment(n)
    ensures Segments(n) == [n]
  {
    assert IndexOf(n, '/') == -1;
    assert Split(n, '/') == [n];
    assert [n][1..] == [];
    assert Keep([n]) == [n] + Keep([]);
  }

  function Keep(parts: seq<string>): (r: Path)
    requires forall i :: 0 <= i < |parts| ==> '/' !in parts[i]
    ensures forall i :: 0 <= i < |r| ==> r[i] != "" && r[i] != "." && '/' !in r[i]
  {
    if parts == [] then []
    else if parts[0] == "" || parts[0] == "." then Keep(parts[1..])
    else [parts[0]] + Keep(parts[1..])
  }

  /** The filesystem, changed in place by the CLI's `fs` calls. */
  class FileSystem {
    var tree: Tree

    constructor (t: Tree)
      ensures tree == t
    {
      tree := t;
    }

    /** `fs.existsSync(p)`. */
    predicate Exists(p: Path)
      reads this
    {
      p in tree
    }

    /** `fs.existsSync(p) && fs.statSync(p).isDirectory()`. */
    predicate IsDir(p: Path)
      reads this
    {
      p in tree && tree[p].Dir?
    }

    method MkdirP(p: Path)
      modifies this
      ensures tree == Mkdirs(old(tree), p)
    {
      tree := Mkdirs(tree, p);
    }

    /** `fs.writeFileSync(p, text)`. */
    method WriteFile(p: Path, text: string)
      modifies this
      ensures tree == old(tree)[p := File(text)]
    {
      tree := tree[p := File(text)];
    }

    /** `fs.writeFileSync(p, JSON.stringify(value))`. */
    method WriteJson(p: Path, value: Json)
      modifies this
      ensures tree == old(tree)[p := JsonFile(value)]
    {
      tree := tree[p := JsonFile(value)];
    }

    /** `fs.rmSync(p, { recursive: true, force: true })`. */
    method RemoveRecursive(p: Path)
      modifies this
      ensures tree == RemoveTree(old(tree), p)
    {
      tree := RemoveTree(tree, p);
    }

    /** `fs.unlinkSync(p)`. */
    method Unlink(p: Path)
      modifies this
      ensures tree == old(tree) - {p}
    {
      tree := tree - {p};
    }

    /** `fs.readdirSync(p)`: every child once, in an order the model leaves open. */
    method ReadDir(p: Path) returns (names: seq<string>)
      ensures forall n :: n in names <==> n in Children(tree, p)
      ensures forall i, j :: 0 <= i < j < |names| ==> names[i] != names[j]
    {
      var rest := Children(tree, p);
      names := [];
      while rest != {}
        invariant forall n :: n in names ==> n in Children(tree, p) && n !in rest
        invariant forall n :: n in Children(tree, p) ==> n in names || n in rest
        invariant rest <= Children(tree, p)
        invariant forall i, j :: 0 <= i < j < |names| ==> names[i] != names[j]
        decreases rest
      {
        var n :| n in rest;
        names := names + [n];
        rest := rest - {n};
      }
    }
  }
}
