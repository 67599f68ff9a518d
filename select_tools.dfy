/** Which tools a `sync` or `clean` run acts on: `selectTools`
    (src/commands/select-tools.js) and the legacy `resolveSelectedTools`
    (scripts/cli.js), which trims and lowercases its arguments first. */
module SelectTools {
  import opened Wrappers
  import opened Strings

  /** The token that selects every tool. */
  const ALL_TOOLS_TOKEN: string := "."
  /** The legacy CLI rejects this word and points to `.` instead. */
  const TARGET_ALL: string := "all"

  /** The properties every plain JavaScript object inherits from
      `Object.prototype`. Looking one of them up in the tool registry
      (`availableTools[name]`) yields a truthy value. */
  const PROTOTYPE_NAMES: seq<string> := [
    "constructor", "__defineGetter__", "__defineSetter__", "hasOwnProperty",
    "__lookupGetter__", "__lookupSetter__", "isPrototypeOf", "propertyIsEnumerable",
    "toString", "valueOf", "__proto__", "toLocaleString"]

  /** How a name is checked against the registry: as one of its own keys, or
      by a property lookup that also sees inherited properties. */
  datatype Lookup = OwnKeys | WithInherited

  predicate Known(keys: seq<string>, name: string, lookup: Lookup) {
    name in keys || (lookup == WithInherited && name in PROTOTYPE_NAMES)
  }

  datatype SelectError =
    | CommaSeparated             // a flag holds a comma
    | DotNotAlone                // `.` together with other flags
    | AllNotSupported            // legacy only: the word `all`
    | Unknown(names: seq<string>)

  // ---------------------------------------------------------------------
  // De-duplication
  // ---------------------------------------------------------------------

  /** The index of the first occurrence of `x` in `s`. */
  function FirstIndex(s: seq<string>, x: string): (i: nat)
    requires x in s
    ensures i < |s| && s[i] == x
    ensures forall k :: 0 <= k < i ==> s[k] != x
  {
    if s[0] == x then 0 else 1 + FirstIndex(s[1..], x)
  }

  /** `Array.from(new Set(s))`: each name once, where it first occurs. */
  function Dedup(s: seq<string>): (r: seq<string>)
    ensures forall x :: x in r <==> x in s
    ensures Distinct(r)
    ensures |r| <= |s|
  {
    if s == [] then []
    else
      var init := s[..|s| - 1];
      var last := s[|s| - 1];
      assert s == init + [last];
      var r := Dedup(init);
      if last in r then r else r + [last]
  }

  lemma FirstIndexOfPrefix(s: seq<string>, n: nat, x: string)
    requires n <= |s| && x in s[..n]
    ensures FirstIndex(s, x) == FirstIndex(s[..n], x)
  {
    var i := FirstIndex(s[..n], x);
    assert s[i] == x;
    assert FirstIndex(s, x) <= i;
    var j := FirstIndex(s, x);
    assert s[..n][j] == s[j];
  }

  /** The names come out in the order of their first occurrence. */
  lemma {:induction false} DedupKeepsFirstOccurrenceOrder(s: seq<string>)
    ensures forall i, j :: 0 <= i < j < |Dedup(s)| ==> FirstIndex(s, Dedup(s)[i]) < FirstIndex(s, Dedup(s)[j])
    decreases |s|
  {
    if s != [] {
      var init := s[..|s| - 1];
      var last := s[|s| - 1];
      assert s == init + [last];
      var r0 := Dedup(init);
      DedupKeepsFirstOccurrenceOrder(init);
      forall k | 0 <= k < |r0|
        ensures FirstIndex(s, r0[k]) == FirstIndex(init, r0[k]) < |init|
      {
        assert init == s[..|s| - 1];
        FirstIndexOfPrefix(s, |s| - 1, r0[k]);
      }
      var r := Dedup(s);
      if last !in r0 {
        assert last !in init;
        assert FirstIndex(s, last) == |s| - 1;
        assert r == r0 + [last];
        forall i, j | 0 <= i < j < |r| ensures FirstIndex(s, r[i]) < FirstIndex(s, r[j]) {
          assert r[i] == r0[i];
          assert FirstIndex(s, r0[i]) < |init|;
          if j < |r0| {
            assert r[j] == r0[j];
            assert FirstIndex(init, r0[i]) < FirstIndex(init, r0[j]);
            assert FirstIndex(s, r0[j]) == FirstIndex(init, r0[j]);
          } else {
            assert r[j] == last;
          }
        }
      } else {
        assert r == r0;
      }
    }
  }

  /** Names that are already distinct come back unchanged. */
  lemma {:induction false} DedupOfDistinct(s: seq<string>)
    requires Distinct(s)
    ensures Dedup(s) == s
    decreases |s|
  {
    if s != [] {
      var init := s[..|s| - 1];
      assert s == init + [s[|s| - 1]];
      assert Distinct(init);
      DedupOfDistinct(init);
    }
  }

  lemma DedupIdempotent(s: seq<string>)
    ensures Dedup(Dedup(s)) == Dedup(s)
  {
    DedupOfDistinct(Dedup(s));
  }

  // ---------------------------------------------------------------------
  // selectTools
  // ---------------------------------------------------------------------

  /** The flags that fail the registry check, in order. */
  function Unknowns(flags: seq<string>, keys: seq<string>, lookup: Lookup): (r: seq<string>)
    ensures forall x :: x in r <==> x in flags && !Known(keys, x, lookup)
    ensures |r| <= |flags|
  {
    if flags == [] then []
    else
      var rest := Unknowns(flags[1..], keys, lookup);
      assert flags == [flags[0]] + flags[1..];
      if Known(keys, flags[0], lookup) then rest else [flags[0]] + rest
  }

  predicate HasComma(flags: seq<string>) {
    exists i :: 0 <= i < |flags| && ',' in flags[i]
  }

  /** `selectTools`, with the registry check as `lookup` says. */
  function Select(flags: seq<string>, keys: seq<string>, lookup: Lookup): (r: Result<seq<string>, SelectError>)
    ensures flags == [] ==> r == Success(keys)
    ensures r == Failure(CommaSeparated) <==> HasComma(flags)
    ensures r == Failure(DotNotAlone) <==> !HasComma(flags) && ALL_TOOLS_TOKEN in flags && |flags| > 1
    ensures r.Failure? ==> !r.error.AllNotSupported?
    ensures r.Failure? && r.error.Unknown? ==>
              && !HasComma(flags) && ALL_TOOLS_TOKEN !in flags
              && r.error.names != []
              && forall x :: x in r.error.names <==> x in flags && !Known(keys, x, lookup)
    ensures r.Success? && flags != [] && ALL_TOOLS_TOKEN !in flags ==>
              && (forall x :: x in flags ==> Known(keys, x, lookup))
              && r.value == Dedup(flags)
    ensures r.Success? && (flags == [] || ALL_TOOLS_TOKEN in flags) ==> r.value == keys
    ensures r.Success? ==> forall k :: k in r.value ==> Known(keys, k, lookup)
  {
    if flags == [] then Success(keys)
    else if HasComma(flags) then Failure(CommaSeparated)
    else if ALL_TOOLS_TOKEN in flags then
      if |flags| > 1 then Failure(DotNotAlone) else Success(keys)
    else
      var invalid := Unknowns(flags, keys, lookup);
      if invalid != [] then Failure(Unknown(invalid))
      else
        assert forall x :: x in flags ==> Known(keys, x, lookup) by {
          forall x | x in flags ensures Known(keys, x, lookup) {
            assert x !in invalid;
          }
        }
        Success(Dedup(flags))
  }

  /** `selectTools` as written: `!availableTools[tool]` also accepts the
      names every object inherits. */
  function SelectToolsAsWritten(flags: seq<string>, keys: seq<string>): Result<seq<string>, SelectError> {
    Select(flags, keys, WithInherited)
  }

  /** `selectTools` checking the registry's own keys, as evidently intended;
      the commands use this one. Every name it returns is a registry key,
      each once when the registry keys are distinct. */
  function SelectTools(flags: seq<string>, keys: seq<string>): (r: Result<seq<string>, SelectError>)
    ensures r.Success? ==> forall k :: k in r.value ==> k in keys
    ensures r.Success? && Distinct(keys) ==> Distinct(r.value)
    ensures r.Success? && flags != [] && ALL_TOOLS_TOKEN !in flags ==>
              forall k :: k in r.value <==> k in flags
  {
    Select(flags, keys, OwnKeys)
  }

  /** `constructor` is already trimmed and lower case. */
  lemma ConstructorNormal()
    ensures ToLower(Trim("constructor")) == "constructor"
  {
    var c := "constructor";
    TrimOfTrimmed(c);
    assert forall k :: 0 <= k < |c| ==> 'a' <= c[k] <= 'z';
    assert ToLower(c) == c;
  }

  /** The inherited name `constructor` passes the check as written, though it
      names no tool. */
  lemma InheritedNameSelected(keys: seq<string>)
    requires "constructor" !in keys
    ensures SelectToolsAsWritten(["constructor"], keys) == Success(["constructor"])
    ensures SelectTools(["constructor"], keys) == Failure(Unknown(["constructor"]))
  {
    var flags := ["constructor"];
    assert !HasComma(flags) by {
      assert ',' !in flags[0];
    }
    assert Dedup(flags) == flags by {
      assert flags[..0] == [];
    }
    assert Unknowns(flags, keys, OwnKeys) == ["constructor"] by {
      assert flags[1..] == [];
    }
  }

  /** The two checks agree on every flag list that names no inherited property. */
  lemma {:induction false} UnknownsAgree(flags: seq<string>, keys: seq<string>)
    requires forall x :: x in flags ==> x !in PROTOTYPE_NAMES
    ensures Unknowns(flags, keys, OwnKeys) == Unknowns(flags, keys, WithInherited)
    decreases |flags|
  {
    if flags != [] {
      assert forall x :: x in flags[1..] ==> x in flags;
      UnknownsAgree(flags[1..], keys);
    }
  }

  lemma SelectAgrees(flags: seq<string>, keys: seq<string>)
    requires forall x :: x in flags ==> x !in PROTOTYPE_NAMES
    ensures SelectTools(flags, keys) == SelectToolsAsWritten(flags, keys)
  {
    UnknownsAgree(flags, keys);
  }

  // ---------------------------------------------------------------------
  // Legacy resolveSelectedTools
  // ---------------------------------------------------------------------

  /** `toolArgs.map((tool) => tool.trim().toLowerCase()).filter(Boolean)`. */
  function NormalizeArgs(args: seq<string>): (r: seq<string>)
    ensures forall i :: 0 <= i < |r| ==> r[i] != []
    ensures |r| <= |args|
  {
    if args == [] then []
    else
      var x := ToLower(Trim(args[0]));
      if x == [] then NormalizeArgs(args[1..]) else [x] + NormalizeArgs(args[1..])
  }

  /** The normalised list holds exactly the non-blank normalised arguments. */
  lemma NormalizeArgsMembers(args: seq<string>)
    ensures forall i :: 0 <= i < |args| && ToLower(Trim(args[i])) != [] ==> ToLower(Trim(args[i])) in NormalizeArgs(args)
    ensures forall x :: x in NormalizeArgs(args) ==> exists i :: 0 <= i < |args| && x == ToLower(Trim(args[i]))
  {
    forall i | 0 <= i < |args| && ToLower(Trim(args[i])) != [] ensures ToLower(Trim(args[i])) in NormalizeArgs(args) {
      NormalizeArgsKeeps(args, i);
    }
    forall x | x in NormalizeArgs(args) ensures exists i :: 0 <= i < |args| && x == ToLower(Trim(args[i])) {
      var i := NormalizeArgsSource(args, x);
    }
  }

  /** Normalising a concatenation normalises each part, so kept names stay in argument order. */
  lemma {:induction false} NormalizeArgsConcat(a: seq<string>, b: seq<string>)
    ensures NormalizeArgs(a + b) == NormalizeArgs(a) + NormalizeArgs(b)
    decreases |a|
  {
    if a != [] {
      var x := ToLower(Trim(a[0]));
      var head := if x == [] then [] else [x];
      assert (a + b)[0] == a[0];
      assert (a + b)[1..] == a[1..] + b;
      assert NormalizeArgs(a + b) == head + NormalizeArgs(a[1..] + b);
      assert NormalizeArgs(a) == head + NormalizeArgs(a[1..]);
      NormalizeArgsConcat(a[1..], b);
    } else {
      assert a + b == b;
    }
  }

  /** One argument: its trimmed lower-case form, or nothing when it is blank. */
  lemma NormalizeArgsSingle(x: string)
    ensures NormalizeArgs([x]) == if IsBlank(x) then [] else [ToLower(Trim(x))]
  {
    assert [x][1..] == [];
    assert |ToLower(Trim(x))| == |Trim(x)|;
  }

  /** Nothing survives exactly when every argument is blank. */
  lemma NormalizeArgsEmpty(args: seq<string>)
    ensures NormalizeArgs(args) == [] <==> forall j :: 0 <= j < |args| ==> IsBlank(args[j])
  {
    NormalizeArgsMembers(args);
    if NormalizeArgs(args) == [] {
      forall j | 0 <= j < |args| ensures IsBlank(args[j]) {
        assert |ToLower(Trim(args[j]))| == |Trim(args[j])|;
      }
    } else {
      var x := NormalizeArgs(args)[0];
      var i := NormalizeArgsSource(args, x);
      assert |ToLower(Trim(args[i]))| == |Trim(args[i])|;
    }
  }

  /** A non-blank argument survives normalisation. */
  lemma {:induction false} NormalizeArgsKeeps(args: seq<string>, i: nat)
    requires i < |args| && ToLower(Trim(args[i])) != []
    ensures ToLower(Trim(args[i])) in NormalizeArgs(args)
    decreases i
  {
    if i > 0 {
      assert args[i] == args[1..][i - 1];
      NormalizeArgsKeeps(args[1..], i - 1);
    }
  }

  /** Every normalised name comes from an argument. */
  lemma {:induction false} NormalizeArgsSource(args: seq<string>, x: string) returns (i: nat)
    requires x in NormalizeArgs(args)
    ensures i < |args| && x == ToLower(Trim(args[i]))
    decreases |args|
  {
    var rest := NormalizeArgs(args[1..]);
    if x == ToLower(Trim(args[0])) {
      i := 0;
    } else {
      assert x in rest;
      var j := NormalizeArgsSource(args[1..], x);
      i := j + 1;
      assert args[i] == args[1..][j];
    }
  }

  /** `resolveSelectedTools`: after normalising, a comma and then the word
      `all` are rejected; the rest is `selectTools` on the normalised names. */
  function ResolveSelectedTools(args: seq<string>, keys: seq<string>, lookup: Lookup): (r: Result<seq<string>, SelectError>)
    ensures NormalizeArgs(args) == [] ==> r == Success(keys)
    ensures r == Failure(CommaSeparated) <==> HasComma(NormalizeArgs(args))
    ensures r == Failure(AllNotSupported) <==> !HasComma(NormalizeArgs(args)) && TARGET_ALL in NormalizeArgs(args)
    ensures r.Success? ==> forall k :: k in r.value ==> Known(keys, k, lookup)
  {
    var selected := NormalizeArgs(args);
    if selected == [] then Success(keys)
    else if HasComma(selected) then Failure(CommaSeparated)
    else if TARGET_ALL in selected then Failure(AllNotSupported)
    else Select(selected, keys, lookup)
  }

  /** Arguments differing only in case and surrounding space select the same tools. */
  lemma ResolveIgnoresCaseAndSpace(args: seq<string>, keys: seq<string>, lookup: Lookup)
    ensures ResolveSelectedTools(args, keys, lookup)
         == ResolveSelectedTools(NormalizeArgs(args), keys, lookup)
  {
    NormalizeArgsIdempotent(args);
  }

  lemma {:induction false} NormalizeArgsIdempotent(args: seq<string>)
    ensures NormalizeArgs(NormalizeArgs(args)) == NormalizeArgs(args)
    decreases |args|
  {
    if args != [] {
      NormalizeArgsIdempotent(args[1..]);
      var x := ToLower(Trim(args[0]));
      if x != [] {
        var r := NormalizeArgs(args);
        assert r == [x] + NormalizeArgs(args[1..]);
        assert r[1..] == NormalizeArgs(args[1..]);
        NormalizedIsFixed(args[0]);
      }
    }
  }

  /** A trimmed, lowercased name is unchanged by trimming and lowercasing again. */
  lemma NormalizedIsFixed(a: string)
    ensures ToLower(Trim(ToLower(Trim(a)))) == ToLower(Trim(a))
  {
    var t := Trim(a);
    ToLowerKeepsTrimmed(t);
    TrimOfTrimmed(ToLower(t));
    ToLowerIdempotent(t);
  }
}
