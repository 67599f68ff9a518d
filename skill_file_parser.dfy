/** Skill documents (src/skill-repo/skill-file-parser.js): an optional
    `---`-delimited header of flat `key: value` lines, then the body. */
module SkillFileParser {
  import opened Wrappers
  import opened Strings

  const SKILL_FILE_EXTENSION: string := ".md"

  /** A header value: after quote stripping, `true`/`false` become booleans. */
  datatype MetaValue = Str(s: string) | Bool(b: bool)

  /** The own properties of the `metadata` object. */
  type Metadata = map<string, MetaValue>

  /** Assigning a string or boolean to `metadata["__proto__"]` goes through the
      inherited `__proto__` setter, which ignores values that are not objects,
      so this key never becomes an own property. */
  const PROTO_KEY: string := "__proto__"

  datatype Document = Document(metadata: Metadata, body: string)

  datatype Skill = Skill(
    fileName: string,
    name: string,
    description: string,
    globs: string,
    alwaysApply: bool,
    metadata: Metadata,
    body: string)

  datatype ReadError = SkillsFolderMissing | NoSkillFiles | Unreadable(fileName: string)

  // ---------------------------------------------------------------------
  // The regular expression /^---\r?\n([\s\S]+?)\r?\n---\r?\n?([\s\S]*)$/
  // ---------------------------------------------------------------------

  /** Where the header text starts: after `---\r\n` or `---\n`; 0 when the
      text does not open with a delimiter line. */
  function HeaderStart(c: string): (s: nat)
    ensures s == 0 || s == 4 || s == 5
    ensures s <= |c|
    ensures s == 5 <==> StartsWith(c, "---\r\n")
    ensures s == 4 <==> StartsWith(c, "---\n")
  {
    assert StartsWith(c, "---\r\n") ==> c[3] == '\r';
    assert StartsWith(c, "---\n") ==> c[3] == '\n';
    if StartsWith(c, "---\r\n") then 5
    else if StartsWith(c, "---\n") then 4
    else 0
  }

  /** The lazy header group may end at `p`: a closing `\r\n---` or `\n---` starts there. */
  predicate CloseAt(c: string, p: nat) {
    p <= |c| && (StartsWith(c[p..], "\r\n---") || StartsWith(c[p..], "\n---"))
  }

  /** The first position at or after `p` where the header may close. */
  function FirstClose(c: string, p: nat): (r: Option<nat>)
    requires p <= |c|
    ensures r.Some? ==> p <= r.value <= |c| && CloseAt(c, r.value)
    ensures r.Some? ==> forall q :: p <= q < r.value ==> !CloseAt(c, q)
    ensures r.None? ==> forall q :: p <= q <= |c| ==> !CloseAt(c, q)
    decreases |c| - p
  {
    if CloseAt(c, p) then Some(p)
    else if p == |c| then None
    else FirstClose(c, p + 1)
  }

  /** The two groups of the match: the header block and the rest after the
      closing delimiter and its optional line break; None when nothing matches. */
  function MatchFrontmatter(c: string): (r: Option<(string, string)>)
    ensures r.Some? ==> HeaderStart(c) > 0 && |r.value.0| >= 1
    ensures r.Some? ==> StartsWith(c, "---")
    ensures r.Some? <==> HeaderStart(c) > 0 && exists p :: HeaderStart(c) < p <= |c| && CloseAt(c, p)
  {
    var s := HeaderStart(c);
    if s == 0 || s == |c| then None
    else
      match FirstClose(c, s + 1)
      case None => None
      case Some(p) =>
        var q := if c[p] == '\r' then p + 5 else p + 4;
        var q1 := if q < |c| && c[q] == '\r' then q + 1 else q;
        var q2 := if q1 < |c| && c[q1] == '\n' then q1 + 1 else q1;
        Some((c[s..p], c[q2..]))
  }

  // ---------------------------------------------------------------------
  // Header lines
  // ---------------------------------------------------------------------

  function DropCR(line: string): string {
    if |line| > 0 && line[|line| - 1] == '\r' then line[..|line| - 1] else line
  }

  /** `block.split(/\r?\n/)`: split at each line feed; a carriage return just
      before a line feed belongs to the separator. */
  function HeaderLines(block: string): (r: seq<string>)
    ensures |r| >= 1
  {
    var pieces := Split(block, '\n');
    seq(|pieces|, i requires 0 <= i < |pieces| =>
      if i < |pieces| - 1 then DropCR(pieces[i]) else pieces[i])
  }

  /** The value opens and closes with the same kind of quote (one character
      that is a quote counts as both). */
  predicate IsQuoted(v: string) {
    |v| >= 1 && ((v[0] == '"' && v[|v| - 1] == '"') || (v[0] == '\'' && v[|v| - 1] == '\''))
  }

  /** `value.slice(1, -1)` on a quoted value. */
  function Unquote(v: string): (r: string)
    ensures IsQuoted(v) && |v| >= 2 ==> v == [v[0]] + r + [v[0]]
    ensures IsQuoted(v) && |v| == 1 ==> r == ""
    ensures !IsQuoted(v) ==> r == v
  {
    if IsQuoted(v) then
      if |v| >= 2 then v[1..|v| - 1] else ""
    else v
  }

  function Coerce(v: string): (r: MetaValue)
    ensures r == Bool(true) <==> v == "true"
    ensures r == Bool(false) <==> v == "false"
    ensures r.Str? ==> r.s == v
  {
    if v == "true" then Bool(true)
    else if v == "false" then Bool(false)
    else Str(v)
  }

  /** One header line: key before the first colon, value after it, both trimmed;
      lines without a colon carry nothing. */
  function ParseLine(line: string): (r: Option<(string, MetaValue)>)
    ensures r.None? <==> ':' !in line
  {
    var i := IndexOf(line, ':');
    if i == -1 then None
    else Some((Trim(line[..i]), Coerce(Unquote(Trim(line[i + 1..])))))
  }

  /** The effect of one header line on the metadata gathered so far. */
  function AddLine(m: Metadata, line: string): (r: Metadata)
    ensures ParseLine(line).None? ==> r == m
    ensures ParseLine(line).Some? && ParseLine(line).value.0 == PROTO_KEY ==> r == m
    ensures ParseLine(line).Some? && ParseLine(line).value.0 != PROTO_KEY ==> var (k, v) := ParseLine(line).value;
      && k in r && r[k] == v
      && forall k' :: k' != k ==> (k' in r <==> k' in m) && (k' in m ==> r[k'] == m[k'])
  {
    match ParseLine(line)
    case None => m
    case Some((k, v)) => if k == PROTO_KEY then m else m[k := v]
  }

  /** A line parsed as `(k, v)` with `k` other than `__proto__` stores `v` under `k`. */
  lemma AddParsedLine(m: Metadata, line: string, k: string, v: MetaValue)
    requires ParseLine(line) == Some((k, v)) && k != PROTO_KEY
    ensures AddLine(m, line) == m[k := v]
  {
  }

  /** The header as the source's `forEach` leaves it after every line. */
  function MetadataOf(lines: seq<string>): Metadata
  {
    if lines == [] then map[]
    else AddLine(MetadataOf(lines[..|lines| - 1]), lines[|lines| - 1])
  }

  /** `line` stores a value under `k`. */
  predicate Defines(line: string, k: string) {
    ParseLine(line).Some? && ParseLine(line).value.0 == k && k != PROTO_KEY
  }

  /** A key keeps the value of the last line that defines it (`__proto__` is
      never stored: see `ProtoKeyNeverStored`). */
  lemma {:induction false} LastLineWins(lines: seq<string>, i: nat, k: string, v: MetaValue)
    requires i < |lines| && ParseLine(lines[i]) == Some((k, v)) && k != PROTO_KEY
    requires forall j :: i < j < |lines| ==> !Defines(lines[j], k)
    ensures k in MetadataOf(lines) && MetadataOf(lines)[k] == v
    decreases |lines|
  {
    if i < |lines| - 1 {
      var init := lines[..|lines| - 1];
      LaterLinesOfPrefix(lines, init, i, k);
      LastLineWins(init, i, k, v);
      KeptByLastLine(lines, k);
    } else {
      AddParsedLine(MetadataOf(lines[..|lines| - 1]), lines[i], k, v);
    }
  }

  lemma LaterLinesOfPrefix(lines: seq<string>, init: seq<string>, i: nat, k: string)
    requires i < |lines| - 1 && init == lines[..|lines| - 1]
    requires forall j :: i < j < |lines| ==> !Defines(lines[j], k)
    ensures forall j :: i < j < |init| ==> !Defines(init[j], k)
  {
    forall j | i < j < |init| ensures !Defines(init[j], k) {
      assert init[j] == lines[j];
    }
  }

  lemma KeptByLastLine(lines: seq<string>, k: string)
    requires lines != [] && !Defines(lines[|lines| - 1], k)
    ensures (k in MetadataOf(lines) <==> k in MetadataOf(lines[..|lines| - 1]))
    ensures k in MetadataOf(lines) ==> MetadataOf(lines)[k] == MetadataOf(lines[..|lines| - 1])[k]
  {
    AddLineKeeps(MetadataOf(lines[..|lines| - 1]), lines[|lines| - 1], k);
  }

  /** A line that does not define `k` leaves `k` as it was. */
  lemma AddLineKeeps(m: Metadata, line: string, k: string)
    requires !Defines(line, k)
    ensures (k in AddLine(m, line) <==> k in m) && (k in m ==> AddLine(m, line)[k] == m[k])
  {
  }

  /** A key no line defines is absent from the metadata. */
  lemma {:induction false} UndefinedKeyAbsent(lines: seq<string>, k: string)
    requires forall j :: 0 <= j < |lines| ==> !Defines(lines[j], k)
    ensures k !in MetadataOf(lines)
    decreases |lines|
  {
    if lines != [] {
      var init := lines[..|lines| - 1];
      assert forall j :: 0 <= j < |init| ==> init[j] == lines[j];
      UndefinedKeyAbsent(init, k);
      assert !Defines(lines[|lines| - 1], k);
    }
  }

  /** A `__proto__: value` line leaves the metadata without that key. */
  lemma ProtoKeyNeverStored(lines: seq<string>)
    ensures PROTO_KEY !in MetadataOf(lines)
  {
    UndefinedKeyAbsent(lines, PROTO_KEY);
  }

  /** The key is the text before the first colon; the value may hold further colons. */
  lemma ParseKeyValueLine(k: string, v: string)
    requires ':' !in k
    ensures ParseLine(k + ":" + v) == Some((Trim(k), Coerce(Unquote(Trim(v)))))
  {
    var line := k + ":" + v;
    assert line[|k|] == ':';
    assert line[..|k|] == k;
    assert IndexOf(line, ':') == |k|;
    assert line[|k| + 1..] == v;
  }

  /** What `parseFrontmatter` returns for `content`. */
  function ParseDocument(c: string): (r: Document)
    ensures Trimmed(r.body)
    ensures !StartsWith(c, "---") ==> r == Document(map[], Trim(c))
    ensures HeaderStart(c) == 0 || (forall p :: HeaderStart(c) < p <= |c| ==> !CloseAt(c, p)) ==>
              r == Document(map[], Trim(c))
  {
    match MatchFrontmatter(c)
    case None => Document(map[], Trim(c))
    case Some((block, rest)) => Document(MetadataOf(HeaderLines(block)), Trim(rest))
  }

  /** The `forEach` callback of `parseFrontmatter`, applied to one line. */
  method ApplyHeaderLine(metadata: Metadata, line: string) returns (r: Metadata)
    ensures r == AddLine(metadata, line)
  {
    var separatorIndex := IndexOf(line, ':');
    if separatorIndex == -1 {
      return metadata;
    }
    var key := Trim(line[..separatorIndex]);
    var value := Trim(line[separatorIndex + 1..]);
    value := StripQuotes(value);
    r := StoreValue(metadata, key, value);
  }

  /** Surrounding quotes of the same kind are removed. */
  method StripQuotes(value: string) returns (v: string)
    ensures v == Unquote(value)
  {
    v := value;
    if |value| >= 1
      && ((value[0] == '"' && value[|value| - 1] == '"') || (value[0] == '\'' && value[|value| - 1] == '\''))
    {
      v := if |value| >= 2 then value[1..|value| - 1] else "";
    }
  }

  /** The last step of the callback: `true`/`false` are stored as booleans;
      an assignment to `__proto__` hits the inherited setter and stores nothing. */
  method StoreValue(metadata: Metadata, key: string, value: string) returns (r: Metadata)
    ensures key == PROTO_KEY ==> r == metadata
    ensures key != PROTO_KEY ==> r == metadata[key := Coerce(value)]
  {
    if key == PROTO_KEY {
      r := metadata;
    } else if value == "true" {
      r := metadata[key := Bool(true)];
    } else if value == "false" {
      r := metadata[key := Bool(false)];
    } else {
      r := metadata[key := Str(value)];
    }
  }

  /** The `forEach` over the header lines of `parseFrontmatter`. */
  method CollectMetadata(lines: seq<string>) returns (metadata: Metadata)
    ensures metadata == MetadataOf(lines)
  {
    metadata := map[];
    var i := 0;
    while i < |lines|
      invariant 0 <= i <= |lines|
      invariant metadata == MetadataOf(lines[..i])
    {
      assert lines[..i + 1][..i] == lines[..i];
      assert MetadataOf(lines[..i + 1]) == AddLine(MetadataOf(lines[..i]), lines[i]);
      metadata := ApplyHeaderLine(metadata, lines[i]);
      i := i + 1;
    }
    assert lines[..|lines|] == lines;
  }

  /** `parseFrontmatter`: the header lines fill the metadata one by one. */
  method ParseFrontmatter(content: string) returns (doc: Document)
    ensures doc == ParseDocument(content)
  {
    var m := MatchFrontmatter(content);
    if m.None? {
      return Document(map[], Trim(content));
    }
    var block, rest := m.value.0, m.value.1;
    var metadata := CollectMetadata(HeaderLines(block));
    doc := Document(metadata, Trim(rest));
  }

  // ---------------------------------------------------------------------
  // Skill records
  // ---------------------------------------------------------------------

  /** `path.basename(fileName, ".md")` for a directory entry name. */
  function BaseName(fileName: string): string {
    if EndsWith(fileName, SKILL_FILE_EXTENSION) then fileName[..|fileName| - |SKILL_FILE_EXTENSION|]
    else fileName
  }

  predicate IsNonEmptyStr(v: MetaValue) { v.Str? && v.s != "" }

  /** `readSkillFile`: map the parsed header onto the typed fields. */
  function ReadSkillFile(fileName: string, raw: string): (skill: Skill)
    ensures var doc := ParseDocument(raw);
      && skill.fileName == fileName
      && skill.metadata == doc.metadata
      && skill.body == doc.body
    // a missing, blank or non-string name or description falls back to the base name
    ensures var md := ParseDocument(raw).metadata;
      && ("name" in md && md["name"].Str? && md["name"].s != [] ==> skill.name == md["name"].s)
      && (!("name" in md && md["name"].Str? && md["name"].s != []) ==> skill.name == BaseName(fileName))
      && ("description" in md && md["description"].Str? && md["description"].s != [] ==> skill.description == md["description"].s)
      && (!("description" in md && md["description"].Str? && md["description"].s != []) ==> skill.description == BaseName(fileName))
    ensures BaseName(fileName) != [] ==> skill.name != [] && skill.description != []
    ensures var md := ParseDocument(raw).metadata;
      && ("globs" in md && md["globs"].Str? ==> skill.globs == md["globs"].s)
      && (!("globs" in md && md["globs"].Str?) ==> skill.globs == "")
      && (skill.alwaysApply <==> "alwaysApply" in md && md["alwaysApply"] == Bool(true))
  {
    var doc := ParseDocument(raw);
    var md := doc.metadata;
    var base := BaseName(fileName);
    Skill(
      fileName,
      if "name" in md && IsNonEmptyStr(md["name"]) then md["name"].s else base,
      if "description" in md && IsNonEmptyStr(md["description"]) then md["description"].s else base,
      if "globs" in md && md["globs"].Str? then md["globs"].s else "",
      "alwaysApply" in md && md["alwaysApply"] == Bool(true),
      md,
      doc.body)
  }

  function SkillFileNames(listing: seq<string>): (r: seq<string>)
    ensures forall i :: 0 <= i < |r| ==> EndsWith(r[i], SKILL_FILE_EXTENSION)
    ensures forall x :: x in r <==> x in listing && EndsWith(x, SKILL_FILE_EXTENSION)
    ensures multiset(r) <= multiset(listing)
  {
    if listing == [] then []
    else
      var rest := SkillFileNames(listing[1..]);
      assert listing == [listing[0]] + listing[1..];
      if EndsWith(listing[0], SKILL_FILE_EXTENSION) then [listing[0]] + rest else rest
  }

  /** The index of the first name with no readable file, or `|names|`. */
  function FirstMissing(names: seq<string>, files: map<string, string>): (k: nat)
    ensures k <= |names|
    ensures forall i :: 0 <= i < k ==> names[i] in files
    ensures k < |names| ==> names[k] !in files
  {
    if names == [] || names[0] !in files then 0
    else 1 + FirstMissing(names[1..], files)
  }

  /** `files.map(readSkillFile)`: the first unreadable name aborts the map. */
  function ReadAll(names: seq<string>, files: map<string, string>): (r: Result<seq<Skill>, ReadError>)
    ensures r.Success? ==> |r.value| == |names|
    ensures r.Success? ==> forall i :: 0 <= i < |names| ==>
              names[i] in files && r.value[i] == ReadSkillFile(names[i], files[names[i]])
    ensures r.Success? ==> forall i :: 0 <= i < |names| ==> r.value[i].fileName == names[i]
    ensures r.Success? ==> FileNames(r.value) == names
    ensures r.Failure? ==> r.error.Unreadable? && r.error.fileName in names && r.error.fileName !in files
  {
    var k := FirstMissing(names, files);
    if k < |names| then Failure(Unreadable(names[k]))
    else
      var skills := seq(|names|, i requires 0 <= i < |names| && names[i] in files => ReadSkillFile(names[i], files[names[i]]));
      assert forall i :: 0 <= i < |names| ==> FileNames(skills)[i] == names[i];
      Success(skills)
  }

  function FileNames(skills: seq<Skill>): (r: seq<string>)
    ensures |r| == |skills|
    ensures forall i :: 0 <= i < |skills| ==> r[i] == skills[i].fileName
  {
    seq(|skills|, i requires 0 <= i < |skills| => skills[i].fileName)
  }

  /** `readSkillFiles`: `listing` is the folder's directory listing in whatever
      order the filesystem returns it (None when the folder is missing);
      `files` holds the text of each readable regular file. */
  function ReadSkillFiles(listing: Option<seq<string>>, files: map<string, string>): (r: Result<seq<Skill>, ReadError>)
    ensures r == Failure(SkillsFolderMissing) <==> listing.None?
    ensures r == Failure(NoSkillFiles) <==>
              listing.Some? && forall x :: x in listing.value ==> !EndsWith(x, SKILL_FILE_EXTENSION)
    ensures r.Success? ==> listing.Some? && Sorted(FileNames(r.value))
    ensures r.Success? ==> multiset(FileNames(r.value)) == multiset(SkillFileNames(listing.value))
    ensures r.Success? ==> forall i :: 0 <= i < |r.value| ==>
              r.value[i].fileName in files
              && r.value[i] == ReadSkillFile(r.value[i].fileName, files[r.value[i].fileName])
    ensures r.Failure? && r.error.Unreadable? ==> listing.Some? && r.error.fileName in listing.value
    ensures r.Failure? && r.error.Unreadable? ==>
              EndsWith(r.error.fileName, SKILL_FILE_EXTENSION) && r.error.fileName !in files
  {
    if listing.None? then Failure(SkillsFolderMissing)
    else
      var names := Sort(SkillFileNames(listing.value));
      SortedSkillFileNames(listing.value);
      if |names| == 0 then Failure(NoSkillFiles)
      else
        ReadAll(names, files)
  }

  /** The sorted `.md` names: empty exactly when the listing has no `.md`
      entry, and each one an `.md` entry of the listing. */
  lemma SortedSkillFileNames(listing: seq<string>)
    ensures var names := Sort(SkillFileNames(listing));
      && (names == [] <==> forall x :: x in listing ==> !EndsWith(x, SKILL_FILE_EXTENSION))
      && forall x :: x in names ==> x in listing && EndsWith(x, SKILL_FILE_EXTENSION)
  {
    var all := SkillFileNames(listing);
    var names := Sort(all);
    if names == [] {
      assert |all| == |multiset(names)| == 0;
    } else {
      assert names[0] in multiset(all);
    }
    forall x | x in names ensures x in listing && EndsWith(x, SKILL_FILE_EXTENSION) {
      assert x in multiset(names);
      assert x in multiset(all);
    }
  }

  /** How many times each name survives the `.md` filter. */
  lemma {:induction false} SkillFileNamesCount(listing: seq<string>, x: string)
    ensures multiset(SkillFileNames(listing))[x] ==
              if EndsWith(x, SKILL_FILE_EXTENSION) then multiset(listing)[x] else 0
  {
    if listing != [] {
      SkillFileNamesCount(listing[1..], x);
      var rest := SkillFileNames(listing[1..]);
      assert listing == [listing[0]] + listing[1..];
      assert multiset(listing) == multiset([listing[0]]) + multiset(listing[1..]);
      if EndsWith(listing[0], SKILL_FILE_EXTENSION) {
        assert SkillFileNames(listing) == [listing[0]] + rest;
        assert multiset(SkillFileNames(listing)) == multiset([listing[0]]) + multiset(rest);
      } else {
        assert SkillFileNames(listing) == rest;
      }
    }
  }

  /** The skills read do not depend on the order of the directory listing. */
  lemma ReadSkillFilesOrderIndependent(l1: seq<string>, l2: seq<string>, files: map<string, string>)
    requires multiset(l1) == multiset(l2)
    ensures ReadSkillFiles(Some(l1), files) == ReadSkillFiles(Some(l2), files)
  {
    var a, b := SkillFileNames(l1), SkillFileNames(l2);
    forall x ensures multiset(a)[x] == multiset(b)[x] {
      SkillFileNamesCount(l1, x);
      SkillFileNamesCount(l2, x);
    }
    assert multiset(a) == multiset(b);
    SortedUnique(Sort(a), Sort(b));
  }
}
