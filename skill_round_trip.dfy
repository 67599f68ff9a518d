/** A `SKILL.md` written by the Antigravity, Claude Code or Codex adapter reads
    back, through the skill document parser, as the skill it was written from. */
module SkillRoundTrip {
  import opened Wrappers
  import opened Strings
  import opened SkillFileParser
  import opened Adapters

  predicate SingleLine(s: string) {
    '\n' !in s && '\r' !in s
  }

  /** The lazy header group ends at the first place a closing delimiter may start. */
  lemma {:induction false} FirstCloseIs(c: string, from: nat, p: nat)
    requires from <= p <= |c| && CloseAt(c, p)
    requires forall q :: from <= q < p ==> !CloseAt(c, q)
    ensures FirstClose(c, from) == Some(p)
    decreases p - from
  {
    if from < p {
      FirstCloseIs(c, from + 1, p);
    }
  }

  /** A position holding neither a carriage return nor a line feed cannot close the header. */
  lemma NoCloseAtPlainChar(c: string, q: nat)
    requires q < |c| && c[q] != '\n' && c[q] != '\r'
    ensures !CloseAt(c, q)
  {
    assert c[q..][0] == c[q];
  }

  /** The parts of the generated text: two header lines and the framing around them. */
  lemma SkillContentShape(skill: Skill, l1: string, l2: string)
    requires l1 == "name: " + skill.name
    requires l2 == "description: \"" + skill.description + "\""
    ensures SkillContent(skill) == "---\n" + (l1 + "\n" + l2) + "\n---" + "\n\n" + skill.body + "\n"
  {
    assert Join([l2, "---"], "\n") == l2 + "\n" + "---";
    assert Join([l1, l2, "---"], "\n") == l1 + "\n" + (l2 + "\n" + "---");
    assert Join(["---", l1, l2, "---"], "\n") == "---" + "\n" + (l1 + "\n" + (l2 + "\n" + "---"));
  }

  /** Inside the generated header no position closes it early. */
  lemma NoEarlyClose(c: string, header: string, l1: string, l2: string, rest: string)
    requires header == l1 + "\n" + l2 && c == "---\n" + header + rest
    requires SingleLine(l1) && SingleLine(l2) && l2 != [] && l2[0] != '-'
    ensures forall q :: 5 <= q < 4 + |header| ==> !CloseAt(c, q)
  {
    forall q | 5 <= q < 4 + |header| ensures !CloseAt(c, q) {
      var k := q - 4;
      assert c[q] == header[k];
      if k < |l1| {
        assert header[k] == l1[k];
        NoCloseAtPlainChar(c, q);
      } else if k == |l1| {
        assert c[q + 1] == header[k + 1] == l2[0];
        assert c[q..][1] == c[q + 1];
      } else {
        assert header[k] == l2[k - |l1| - 1];
        NoCloseAtPlainChar(c, q);
      }
    }
  }

  /** A match closing with `\n---\n` at `p` captures the text before `p` and
      everything after the closing line. */
  lemma MatchClosedAt(c: string, p: nat)
    requires HeaderStart(c) == 4 && 4 < |c|
    requires 5 <= p && p + 4 < |c| && FirstClose(c, 5) == Some(p)
    requires c[p] == '\n' && c[p + 4] == '\n'
    ensures MatchFrontmatter(c) == Some((c[4..p], c[p + 5..]))
  {
  }

  /** The opening line of framed text, and what follows it. */
  lemma FramedOpen(c: string, header: string, tail: string)
    requires c == "---\n" + header + tail
    ensures HeaderStart(c) == 4
    ensures c[4..4 + |header|] == header && c[4 + |header|..] == tail
  {
    assert c[..4] == "---\n";
  }

  /** The closing line `---` after the header, then a blank line and the body. */
  lemma FramedClose(c: string, p: nat, body: string)
    requires p <= |c| && c[p..] == "\n---" + "\n\n" + body + "\n"
    ensures CloseAt(c, p) && p + 4 < |c| && c[p] == '\n' && c[p + 4] == '\n'
    ensures c[p + 5..] == "\n" + body + "\n"
  {
    assert c[p..][..4] == "\n---";
    assert c[p] == c[p..][0];
    assert c[p + 4] == c[p..][4];
    assert c[p + 5..] == c[p..][5..];
  }

  /** Text framed as `---`, a header with no early close, `---`, a blank line
      and a body: the regular expression captures the header and the rest. */
  lemma MatchFramed(c: string, header: string, body: string)
    requires c == "---\n" + header + ("\n---" + "\n\n" + body + "\n")
    requires header != []
    requires forall q :: 5 <= q < 4 + |header| ==> !CloseAt(c, q)
    ensures MatchFrontmatter(c) == Some((header, "\n" + body + "\n"))
  {
    var p := 4 + |header|;
    FramedOpen(c, header, "\n---" + "\n\n" + body + "\n");
    FramedClose(c, p, body);
    FirstCloseIs(c, 5, p);
    MatchClosedAt(c, p);
  }

  /** The regular expression splits the generated text into the header lines and the rest. */
  lemma MatchSkillContent(skill: Skill, l1: string, l2: string)
    requires l1 == "name: " + skill.name
    requires l2 == "description: \"" + skill.description + "\""
    requires SingleLine(skill.name) && SingleLine(skill.description)
    ensures MatchFrontmatter(SkillContent(skill)) == Some((l1 + "\n" + l2, "\n" + skill.body + "\n"))
  {
    var header := l1 + "\n" + l2;
    var tail := "\n---" + "\n\n" + skill.body + "\n";
    var c := SkillContent(skill);
    SkillContentShape(skill, l1, l2);
    assert c == "---\n" + header + tail;
    HeaderLinesSingle(skill.name, skill.description);
    assert l2[0] == 'd';
    NoEarlyClose(c, header, l1, l2, tail);
    MatchFramed(c, header, skill.body);
  }

  /** The header block splits into its two lines. */
  lemma HeaderLinesOfTwo(l1: string, l2: string)
    requires SingleLine(l1) && SingleLine(l2) && l1 != []
    ensures HeaderLines(l1 + "\n" + l2) == [l1, l2]
  {
    assert Join([l1, l2], "\n") == l1 + "\n" + l2;
    SplitJoin([l1, l2], '\n');
  }

  lemma NameLineShape(n: string)
    ensures "name: " + n == "name" + ":" + (" " + n)
  {
  }

  lemma DescriptionLineShape(d: string)
    ensures "description: \"" + d + "\"" == "description" + ":" + (" " + ("\"" + d + "\""))
  {
  }

  lemma TrimAfterSpace(v: string)
    requires v != [] && Trimmed(v)
    ensures Trim(" " + v) == v
  {
    assert " " + v == " " + v + "";
    TrimOfPadded(" ", v, "");
  }

  lemma UnquoteQuoted(d: string)
    ensures IsQuoted("\"" + d + "\"") && Unquote("\"" + d + "\"") == d
  {
    var quoted := "\"" + d + "\"";
    assert quoted[1..|quoted| - 1] == d;
  }

  /** A generated `key: value` line parses to the key and the unquoted, coerced value. */
  lemma ParseFieldLine(k: string, v: string)
    requires ':' !in k && Trimmed(k) && v != [] && Trimmed(v)
    ensures ParseLine(k + ":" + (" " + v)) == Some((k, Coerce(Unquote(v))))
  {
    ParseKeyValueLine(k, " " + v);
    TrimOfTrimmed(k);
    TrimAfterSpace(v);
  }

  lemma NameKey()
    ensures ':' !in "name" && Trimmed("name")
  {
  }

  lemma DescriptionKey()
    ensures ':' !in "description" && Trimmed("description")
  {
  }

  lemma ParseNameLine(n: string)
    requires n != [] && Trimmed(n) && !IsQuoted(n)
    ensures ParseLine("name: " + n) == Some(("name", Coerce(n)))
  {
    NameLineShape(n);
    NameKey();
    ParseFieldLine("name", n);
  }

  lemma ParseDescriptionLine(d: string)
    ensures ParseLine("description: \"" + d + "\"") == Some(("description", Coerce(d)))
  {
    var quoted := "\"" + d + "\"";
    DescriptionLineShape(d);
    DescriptionKey();
    UnquoteQuoted(d);
    assert quoted[0] == '"' && quoted[|quoted| - 1] == '"';
    ParseFieldLine("description", quoted);
  }

  lemma MetadataOfTwo(l1: string, l2: string)
    ensures MetadataOf([l1, l2]) == AddLine(AddLine(map[], l1), l2)
  {
    var two := [l1, l2];
    var one := [l1];
    assert two[..|two| - 1] == one;
    assert one[..|one| - 1] == [];
    assert MetadataOf(one) == AddLine(MetadataOf([]), l1);
  }

  /** The two header lines store the name and the description. */
  lemma SkillMetadata(n: string, d: string)
    requires n != [] && Trimmed(n) && !IsQuoted(n)
    requires SingleLine(n) && SingleLine(d)
    ensures MetadataOf(HeaderLines("name: " + n + "\n" + ("description: \"" + d + "\"")))
         == map["name" := Coerce(n), "description" := Coerce(d)]
  {
    var l1 := "name: " + n;
    var l2 := "description: \"" + d + "\"";
    HeaderLinesSingle(n, d);
    HeaderLinesOfTwo(l1, l2);
    MetadataOfTwo(l1, l2);
    ParseNameLine(n);
    ParseDescriptionLine(d);
    KeysNotProto();
    AddParsedLine(map[], l1, "name", Coerce(n));
    AddParsedLine(map["name" := Coerce(n)], l2, "description", Coerce(d));
  }

  lemma KeysNotProto()
    ensures "name" != PROTO_KEY && "description" != PROTO_KEY
  {
    assert |"name"| != |PROTO_KEY| && |"description"| != |PROTO_KEY|;
  }

  lemma HeaderLinesSingle(n: string, d: string)
    requires SingleLine(n) && SingleLine(d)
    ensures SingleLine("name: " + n) && SingleLine("description: \"" + d + "\"")
    ensures "name: " + n != []
  {
  }

  /** A text the regular expression matches parses to the header block's metadata and the trimmed rest. */
  lemma ParseOfMatch(c: string, block: string, rest: string)
    requires MatchFrontmatter(c) == Some((block, rest))
    ensures ParseDocument(c) == Document(MetadataOf(HeaderLines(block)), Trim(rest))
  {
  }

  /** A text whose header is the two generated lines parses to their metadata and its trimmed rest. */
  lemma ParseMatched(c: string, n: string, d: string, body: string)
    requires n != [] && Trimmed(n) && !IsQuoted(n)
    requires SingleLine(n) && SingleLine(d)
    requires MatchFrontmatter(c) == Some(("name: " + n + "\n" + ("description: \"" + d + "\""), "\n" + body + "\n"))
    ensures ParseDocument(c) == Document(map["name" := Coerce(n), "description" := Coerce(d)], Trim(body))
  {
    var block := "name: " + n + "\n" + ("description: \"" + d + "\"");
    var rest := "\n" + body + "\n";
    ParseOfMatch(c, block, rest);
    SkillMetadata(n, d);
    NewlinePadding(body);
  }

  lemma NewlinePadding(body: string)
    ensures Trim("\n" + body + "\n") == Trim(body)
  {
    assert IsSpace("\n"[0]);
    TrimPadded("\n", body, "\n");
  }

  /** The document parsed back from the generated text. */
  lemma ParseSkillContent(skill: Skill)
    requires skill.name != [] && Trimmed(skill.name) && !IsQuoted(skill.name)
    requires SingleLine(skill.name) && SingleLine(skill.description)
    ensures ParseDocument(SkillContent(skill)) == Document(
              map["name" := Coerce(skill.name), "description" := Coerce(skill.description)],
              Trim(skill.body))
  {
    MatchSkillContent(skill, "name: " + skill.name, "description: \"" + skill.description + "\"");
    ParseMatched(SkillContent(skill), skill.name, skill.description, skill.body);
  }

  /** Writing a skill with `SkillContent` and reading the file back recovers its
      name, description and trimmed body; the header carries no globs and no
      `alwaysApply`. */
  lemma SkillContentRoundTrip(fileName: string, skill: Skill)
    requires skill.name != [] && Trimmed(skill.name) && !IsQuoted(skill.name)
    requires skill.name != "true" && skill.name != "false"
    requires skill.description != [] && skill.description != "true" && skill.description != "false"
    requires SingleLine(skill.name) && SingleLine(skill.description)
    ensures var back := ReadSkillFile(fileName, SkillContent(skill));
      && back.name == skill.name
      && back.description == skill.description
      && back.body == Trim(skill.body)
      && back.globs == ""
      && !back.alwaysApply
  {
    var c := SkillContent(skill);
    ParseSkillContent(skill);
    var md := ParseDocument(c).metadata;
    assert md == map["name" := Coerce(skill.name), "description" := Coerce(skill.description)];
    assert md["name"] == Str(skill.name) && md["description"] == Str(skill.description);
    assert "globs" !in md && "alwaysApply" !in md;
    var back := ReadSkillFile(fileName, c);
    assert back.name == skill.name && back.description == skill.description;
  }
}
