/**
 * The line parser of `generateMermaid` (scripts/generate-mermaid.js, lines 18-80):
 * the schema's lines are trimmed and filtered, then a loop with two "current
 * block" variables collects the models with their fields and the enums with
 * their values.
 */
module MermaidSchema {
  import opened Wrappers
  import opened Text
  import opened OrderedMap

  /** One parsed field; `attributes` is the whole line it came from. */
  datatype Field = Field(name: string, fieldType: string, rawType: string, isArray: bool, isOptional: bool, attributes: string)

  /** `models`: model name to its fields, in declaration order. */
  type Models = seq<Entry<seq<Field>>>
  /** `enums`: enum name to its values, in declaration order. */
  type Enums = seq<Entry<seq<string>>>

  /** The loop's variables. */
  datatype ParseState = ParseState(models: Models, enums: Enums, currentModel: Option<string>, currentEnum: Option<string>)

  const Start := ParseState([], [], None, None)

  /** A trimmed line the loop sees: neither empty nor a `//` comment. */
  predicate Kept(t: string) {
    t != "" && !StartsWith(t, "//")
  }

  /** `.map(line => line.trim()).filter(line => line && !line.startsWith('//'))` */
  function CleanLines(raw: seq<string>): (r: seq<string>)
    ensures |r| <= |raw|
    ensures forall i :: 0 <= i < |r| ==> Kept(r[i]) && Trim(r[i]) == r[i]
  {
    if raw == [] then []
    else
      var t := Trim(raw[0]);
      TrimIdempotent(raw[0]);
      (if Kept(t) then [t] else []) + CleanLines(raw[1..])
  }

  /** Cleaning distributes over concatenation: each raw line is kept or dropped on its own. */
  lemma {:induction false} CleanConcat(a: seq<string>, b: seq<string>)
    ensures CleanLines(a + b) == CleanLines(a) + CleanLines(b)
  {
    if a == [] {
      assert a + b == b;
    } else {
      assert (a + b)[1..] == a[1..] + b;
      CleanConcat(a[1..], b);
    }
  }

  /** A raw line whose trimmed text is neither blank nor a comment is kept, trimmed. */
  lemma CleanKeeps(l: string)
    requires Kept(Trim(l))
    ensures CleanLines([l]) == [Trim(l)]
  {
    assert [l][1..] == [];
  }

  /** A raw line that trims to a blank or a `//` comment is dropped. */
  lemma CleanDrops(l: string)
    requires !Kept(Trim(l))
    ensures CleanLines([l]) == []
  {
    assert [l][1..] == [];
  }

  /**
   * `line.match(/^<keyword>\s+(\w+)\s+\{/)`: the captured name. Each of the three
   * runs can only match maximally, because the class after it excludes its characters.
   */
  function BlockName(keyword: string, line: string): (r: Option<string>)
    ensures r.Some? ==> StartsWith(line, keyword) && |line| > |keyword| && IsSpace(line[|keyword|])
    ensures r.Some? ==> r.value != [] && AllWord(r.value)
    ensures r.Some? ==>
              exists sp1, sp2, rest :: sp1 != [] && AllSpace(sp1) && sp2 != [] && AllSpace(sp2)
                                       && line == HeaderText(keyword, sp1, r.value, sp2, rest)
  {
    if !StartsWith(line, keyword) then None
    else
      var a := line[|keyword|..];
      var n1 := SpaceSpan(a);
      var b := a[n1..];
      var w := WordSpan(b);
      var c := b[w..];
      var n2 := SpaceSpan(c);
      if n1 >= 1 && w >= 1 && n2 >= 1 && n2 < |c| && c[n2] == '{' then
        HeaderRuns(keyword, line, a, n1, b, w, c, n2);
        HeaderSplit(keyword, line, a, n1, b, w, c, n2);
        IsHeader(line, keyword, a[..n1], b[..w], c[..n2], c[n2 + 1..]);
        Some(b[..w])
      else None
  }

  /** A header line: `keyword`, white space, the name, white space, `{`, anything. */
  function HeaderText(keyword: string, sp1: string, name: string, sp2: string, rest: string): string {
    keyword + sp1 + name + sp2 + "{" + rest
  }

  /** The runs the header match finds: white space, a word, white space. */
  lemma HeaderRuns(keyword: string, line: string, a: string, n1: nat, b: string, w: nat, c: string, n2: nat)
    requires StartsWith(line, keyword) && a == line[|keyword|..]
    requires n1 == SpaceSpan(a) && b == a[n1..]
    requires w == WordSpan(b) && c == b[w..]
    requires n2 == SpaceSpan(c)
    requires n1 >= 1 && w >= 1 && n2 >= 1
    ensures |line| > |keyword| && IsSpace(line[|keyword|])
    ensures a[..n1] != [] && AllSpace(a[..n1]) && c[..n2] != [] && AllSpace(c[..n2])
    ensures b[..w] != [] && AllWord(b[..w])
  {
    assert line[|keyword|] == a[0];
  }

  /** The pieces the header match finds put the line back together. */
  lemma HeaderSplit(keyword: string, line: string, a: string, n1: nat, b: string, w: nat, c: string, n2: nat)
    requires StartsWith(line, keyword) && a == line[|keyword|..]
    requires n1 <= |a| && b == a[n1..]
    requires w <= |b| && c == b[w..]
    requires n2 < |c| && c[n2] == '{'
    ensures line == keyword + a[..n1] + b[..w] + c[..n2] + "{" + c[n2 + 1..]
  {
    CutAt(line, |keyword|, ' ');
    CutAt(a, n1, ' ');
    CutAt(b, w, ' ');
    CutAt(c, n2, '{');
    Rejoin(line, keyword, a, a[..n1], b, b[..w], c, c[..n2], c[n2 + 1..]);
  }

  /** A line assembled from the header pieces is a header. */
  lemma IsHeader(line: string, keyword: string, sp1: string, name: string, sp2: string, rest: string)
    requires sp1 != [] && AllSpace(sp1) && sp2 != [] && AllSpace(sp2)
    requires line == keyword + sp1 + name + sp2 + "{" + rest
    ensures exists sp1, sp2, rest :: sp1 != [] && AllSpace(sp1) && sp2 != [] && AllSpace(sp2)
                                     && line == HeaderText(keyword, sp1, name, sp2, rest)
  {
    assert line == HeaderText(keyword, sp1, name, sp2, rest);
  }

  lemma CutAt(s: string, n: nat, x: char)
    requires n <= |s|
    ensures n < |s| && s[n] == x ==> s == s[..n] + [x] + s[n + 1..]
    ensures s == s[..n] + s[n..]
  {
  }

  lemma Rejoin(line: string, keyword: string, a: string, sp1: string, b: string, name: string, c: string, sp2: string, rest: string)
    requires line == keyword + a && a == sp1 + b && b == name + c && c == sp2 + ['{'] + rest
    ensures line == keyword + sp1 + name + sp2 + "{" + rest
  {
  }

  predicate AllSpace(s: string) {
    forall i :: 0 <= i < |s| ==> IsSpace(s[i])
  }

  predicate AllWord(s: string) {
    forall i :: 0 <= i < |s| ==> IsWordChar(s[i])
  }

  /** Every header the pattern describes yields its name. */
  lemma BlockNameOfHeader(keyword: string, sp1: string, name: string, sp2: string, rest: string)
    requires sp1 != [] && AllSpace(sp1) && sp2 != [] && AllSpace(sp2)
    requires name != [] && AllWord(name)
    ensures BlockName(keyword, keyword + sp1 + name + sp2 + "{" + rest) == Some(name)
  {
    var line := keyword + sp1 + name + sp2 + "{" + rest;
    HeaderParts(keyword, sp1, name, sp2, rest);
    SpaceSpanConcat(sp1, name + sp2 + "{" + rest);
    WordSpanConcat(name, sp2 + "{" + rest);
    SpaceSpanConcat(sp2, "{" + rest);
  }

  /** A line without `{` is never a header. */
  lemma NoBraceNoHeader(keyword: string, line: string)
    requires '{' !in line
    ensures BlockName(keyword, line) == None
  {
  }

  /** So a field named `model`, such as `model String`, does not open a block. */
  lemma FieldNamedModel()
    ensures BlockName("model", "model String") == None
  {
    assert forall i :: 0 <= i < |"model String"| ==> "model String"[i] != '{';
    NoBraceNoHeader("model", "model String");
  }

  lemma HeaderParts(keyword: string, sp1: string, name: string, sp2: string, rest: string)
    ensures var line := keyword + sp1 + name + sp2 + "{" + rest;
      var a := line[|keyword|..]; var b := a[|sp1|..]; var c := b[|name|..];
      && line[..|keyword|] == keyword
      && a == sp1 + (name + sp2 + "{" + rest)
      && b == name + (sp2 + "{" + rest)
      && c == sp2 + ("{" + rest)
      && |c| > |sp2| && c[|sp2|] == '{'
      && b[..|name|] == name
  {
    var line := keyword + sp1 + name + sp2 + "{" + rest;
    assert line[..|keyword|] == keyword;
    var a := line[|keyword|..];
    assert a == sp1 + (name + sp2 + "{" + rest);
    var b := a[|sp1|..];
    assert b == name + (sp2 + "{" + rest);
    var c := b[|name|..];
    assert c == sp2 + ("{" + rest);
  }

  /** `type.replace('[]', '').replace('?', '')`: the first `[]`, then the first `?`, removed. */
  function CleanType(rawType: string): (t: string)
    ensures var i := FindSub(rawType, "[]");
            var u := if i < 0 then rawType else rawType[..i] + rawType[i + 2..];
            var j := FindSub(u, "?");
            && |u| == |rawType| - (if i < 0 then 0 else 2)
            && t == (if j < 0 then u else u[..j] + u[j + 1..])
    ensures |t| <= |rawType|
  {
    RemoveFirst(RemoveFirst(rawType, "[]"), "?")
  }

  /** A pattern whose first character does not occur in `s` does not occur in `s`. */
  lemma FindSubAbsent(s: string, pat: string)
    requires pat != [] && pat[0] !in s
    ensures FindSub(s, pat) == -1
  {
    forall j | 0 <= j && j + |pat| <= |s| ensures s[j..j + |pat|][0] == s[j] { }
  }

  /** The first occurrence of a pattern whose first character does not occur before it. */
  lemma FindSubAfter(n: string, pat: string, rest: string)
    requires pat != [] && pat[0] !in n
    ensures FindSub(n + pat + rest, pat) == |n|
  {
    var s := n + pat + rest;
    assert OccursAt(s, pat, |n|) by { assert s[|n|..|n| + |pat|] == pat; }
    forall j | 0 <= j < |n| && j + |pat| <= |s| ensures s[j..j + |pat|][0] == n[j] { }
  }

  /** A plain type name with a list or optional marker cleans to the name. */
  lemma CleanTypeOfMarked(name: string)
    requires '[' !in name && '?' !in name
    ensures CleanType(name + "[]") == name
    ensures CleanType(name + "?") == name
    ensures CleanType(name) == name
  {
    FindSubAfter(name, "[]", []);
    assert name + "[]" + [] == name + "[]";
    assert RemoveFirst(name + "[]", "[]") == name;
    FindSubAbsent(name, "?");
    FindSubAfter(name, "?", []);
    assert name + "?" + [] == name + "?";
    FindSubAbsent(name + "?", "[]");
    FindSubAbsent(name, "[]");
  }

  /**
   * Lines 59-72: a model line with at least two whitespace-separated tokens is the
   * field `name type ...`; anything else adds no field.
   */
  function FieldOf(line: string): (f: Option<Field>)
    ensures f.Some? <==> !NoSpace(line)
    ensures f.Some? ==>
              f.value.name == line[..FirstSpace(line)] && f.value.rawType == SplitSpace(line)[1]
              && f.value.attributes == line
              && (f.value.isArray <==> EndsWith(f.value.rawType, "[]"))
              && (f.value.isOptional <==> EndsWith(f.value.rawType, "?"))
              && f.value.fieldType == CleanType(f.value.rawType)
  {
    var parts := SplitSpace(line);
    if |parts| >= 2 then
      var rawType := parts[1];
      Some(Field(parts[0], CleanType(rawType), rawType, EndsWith(rawType, "[]"), EndsWith(rawType, "?"), line))
    else None
  }

  /** One turn of the loop at lines 27-80. */
  function Step(st: ParseState, line: string): ParseState {
    var modelMatch := BlockName("model", line);
    var enumMatch := BlockName("enum", line);
    if modelMatch.Some? then ParseState(Put(st.models, modelMatch.value, []), st.enums, modelMatch, None)
    else if enumMatch.Some? then ParseState(st.models, Put(st.enums, enumMatch.value, []), None, enumMatch)
    else if line == "}" then st.(currentModel := None, currentEnum := None)
    else if st.currentModel.Some? && StartsWith(line, "@@") then st
    else
      var withField :=
        if st.currentModel.Some? && FieldOf(line).Some?
        then st.(models := Push(st.models, st.currentModel.value, FieldOf(line).value))
        else st;
      if st.currentEnum.Some? then withField.(enums := Push(st.enums, st.currentEnum.value, line))
      else withField
  }

  /** The loop's state after the given lines. */
  function Parse(lines: seq<string>): ParseState {
    if lines == [] then Start else Step(Parse(lines[..|lines| - 1]), lines[|lines| - 1])
  }

  /**
   * What the loop keeps true: at most one block is open, the open block has an
   * entry, and no name has two entries.
   */
  ghost predicate Consistent(st: ParseState) {
    && !(st.currentModel.Some? && st.currentEnum.Some?)
    && (st.currentModel.Some? ==> Get(st.models, st.currentModel.value).Some?)
    && (st.currentEnum.Some? ==> Get(st.enums, st.currentEnum.value).Some?)
    && DistinctKeys(st.models) && DistinctKeys(st.enums)
  }

  lemma StepConsistent(st: ParseState, line: string)
    requires Consistent(st)
    ensures Consistent(Step(st, line))
  {
    var modelMatch := BlockName("model", line);
    var enumMatch := BlockName("enum", line);
    if modelMatch.Some? {
      PutGet(st.models, modelMatch.value, [], modelMatch.value);
      PutKeepsKeysDistinct(st.models, modelMatch.value, []);
    } else if enumMatch.Some? {
      PutGet(st.enums, enumMatch.value, [], enumMatch.value);
      PutKeepsKeysDistinct(st.enums, enumMatch.value, []);
    } else if line != "}" && !(st.currentModel.Some? && StartsWith(line, "@@")) {
      if st.currentModel.Some? && FieldOf(line).Some? {
        var m := st.currentModel.value;
        PutGet(st.models, m, Get(st.models, m).value + [FieldOf(line).value], m);
        PutKeepsKeysDistinct(st.models, m, Get(st.models, m).value + [FieldOf(line).value]);
      }
      if st.currentEnum.Some? {
        var e := st.currentEnum.value;
        PutGet(st.enums, e, Get(st.enums, e).value + [line], e);
        PutKeepsKeysDistinct(st.enums, e, Get(st.enums, e).value + [line]);
      }
    }
  }

  /** After any lines at most one of `currentModel`/`currentEnum` is set, and names are unique. */
  lemma {:induction false} ParseConsistent(lines: seq<string>)
    ensures Consistent(Parse(lines))
    ensures !(Parse(lines).currentModel.Some? && Parse(lines).currentEnum.Some?)
  {
    if lines != [] {
      ParseConsistent(lines[..|lines| - 1]);
      StepConsistent(Parse(lines[..|lines| - 1]), lines[|lines| - 1]);
    }
  }

  /** A line that is exactly `}` closes whatever block is open and changes nothing else. */
  lemma CloseBraceClears(st: ParseState)
    ensures Step(st, "}") == st.(currentModel := None, currentEnum := None)
  {
    assert !StartsWith("}", "model") && !StartsWith("}", "enum");
  }

  /** A line that is not a header or `}`. */
  predicate BodyLine(line: string) {
    BlockName("model", line).None? && BlockName("enum", line).None? && line != "}"
  }

  /**
   * Inside a model, a `@@` line or a one-token line adds nothing; any other body
   * line appends exactly one field to the open model and leaves every other
   * entry alone.
   */
  lemma ModelLine(st: ParseState, line: string)
    requires Consistent(st) && st.currentModel.Some? && BodyLine(line)
    ensures var after := Step(st, line);
      && after.currentModel == st.currentModel && after.currentEnum == None && after.enums == st.enums
      && (StartsWith(line, "@@") || NoSpace(line) ==> after.models == st.models)
      && (!StartsWith(line, "@@") && !NoSpace(line) ==>
            var m := st.currentModel.value;
            && Get(after.models, m) == Some(Get(st.models, m).value + [FieldOf(line).value])
            && forall k :: k != m ==> Get(after.models, k) == Get(st.models, k))
  {
    var m := st.currentModel.value;
    if !StartsWith(line, "@@") && !NoSpace(line) {
      var fs := Get(st.models, m).value + [FieldOf(line).value];
      forall k | k != m ensures Get(Step(st, line).models, k) == Get(st.models, k) {
        PutGet(st.models, m, fs, k);
      }
      PutGet(st.models, m, fs, m);
    }
  }

  /** Inside an enum, every body line, whatever it says, is appended as one value. */
  lemma EnumLine(st: ParseState, line: string)
    requires Consistent(st) && st.currentEnum.Some? && BodyLine(line)
    ensures var after := Step(st, line); var e := st.currentEnum.value;
      && after.models == st.models && after.currentEnum == st.currentEnum
      && Get(after.enums, e) == Some(Get(st.enums, e).value + [line])
  {
    var e := st.currentEnum.value;
    PutGet(st.enums, e, Get(st.enums, e).value + [line], e);
  }

  /** Outside any block, body lines are ignored. */
  lemma LineOutsideBlocks(st: ParseState, line: string)
    requires st.currentModel.None? && st.currentEnum.None? && BodyLine(line)
    ensures Step(st, line) == st
  {
  }

  /** The loop of lines 24-80, over the cleaned lines. */
  method ParseSchema(lines: seq<string>) returns (models: Models, enums: Enums)
    ensures models == Parse(lines).models && enums == Parse(lines).enums
  {
    models, enums := [], [];
    var currentModel: Option<string> := None;
    var currentEnum: Option<string> := None;
    for i := 0 to |lines|
      invariant Parse(lines[..i]) == ParseState(models, enums, currentModel, currentEnum)
    {
      var line := lines[i];
      assert lines[..i + 1][..i] == lines[..i];
      var modelMatch := BlockName("model", line);
      if modelMatch.Some? {
        currentModel := modelMatch;
        models := Put(models, modelMatch.value, []);
        currentEnum := None;
        continue;
      }
      var enumMatch := BlockName("enum", line);
      if enumMatch.Some? {
        currentEnum := enumMatch;
        enums := Put(enums, enumMatch.value, []);
        currentModel := None;
        continue;
      }
      if line == "}" {
        currentModel := None;
        currentEnum := None;
        continue;
      }
      if currentModel.Some? {
        if StartsWith(line, "@@") {
          continue;
        }
        var field := FieldOf(line);
        if field.Some? {
          models := Push(models, currentModel.value, field.value);
        }
      }
      if currentEnum.Some? {
        enums := Push(enums, currentEnum.value, line);
      }
    }
    assert lines[..|lines|] == lines;
  }
}
