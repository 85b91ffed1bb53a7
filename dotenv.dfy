/**
 * The `.env` loader that check-users.ts, check-programs.ts, check-supabase.ts and
 * check-pg.js each carry: split the file on LF or CRLF, match `key=value` lines,
 * trim both sides, strip quotes, and write each pair into the process
 * environment, later lines overwriting earlier ones.
 */
module DotEnv {
  import opened Wrappers
  import opened Text
  import DatabaseUrl

  /** A line terminator in the sense of the regular-expression `.`, which matches none of them. */
  predicate IsLineTerminator(c: char) {
    c == '\n' || c == '\r' || c == '\U{2028}' || c == '\U{2029}'
  }

  predicate NoTerminator(s: string) {
    forall i :: 0 <= i < |s| ==> !IsLineTerminator(s[i])
  }

  /** Drops one trailing carriage return. */
  function DropCR(s: string): (r: string)
    ensures s != [] && s[|s| - 1] == '\r' ==> r == s[..|s| - 1]
    ensures !(s != [] && s[|s| - 1] == '\r') ==> r == s
  {
    if s != [] && s[|s| - 1] == '\r' then s[..|s| - 1] else s
  }

  /**
   * `text.split(/\r?\n/)`: the pieces between line feeds, each without the
   * carriage return that came just before its line feed. The last piece ends the
   * text, so it keeps a final carriage return.
   */
  function SplitLines(s: string): (lines: seq<string>)
    ensures |lines| >= 1
    ensures forall k :: 0 <= k < |lines| ==> '\n' !in lines[k]
    decreases |s|
  {
    if '\n' in s then
      var i := FirstIndex(s, '\n');
      [DropCR(s[..i])] + SplitLines(s[i + 1..])
    else [s]
  }

  /** The pieces joined with one line ending, `\n` or `\r\n`. */
  function JoinLines(parts: seq<string>, eol: string): string
    requires |parts| >= 1
  {
    if |parts| == 1 then parts[0] else parts[0] + eol + JoinLines(parts[1..], eol)
  }

  /** A line without a line feed, then a line feed, splits off as that line without its carriage return. */
  lemma SplitLinesStep(head: string, rest: string)
    requires '\n' !in head
    ensures SplitLines(head + "\n" + rest) == [DropCR(head)] + SplitLines(rest)
  {
    var s := head + "\n" + rest;
    assert s == head + ['\n'] + rest;
    FirstIndexAfter(head, '\n', rest);
    assert s[..|head|] == head;
    assert s[|head| + 1..] == rest;
  }

  /** Lines a file can be cut into: no line feeds, and only the last may end in a carriage return. */
  predicate SplittableLines(parts: seq<string>) {
    && (forall k :: 0 <= k < |parts| ==> '\n' !in parts[k])
    && (forall k :: 0 <= k < |parts| - 1 ==> parts[k] == [] || parts[k][|parts[k]| - 1] != '\r')
  }

  lemma SplittableTail(parts: seq<string>)
    requires |parts| > 1 && SplittableLines(parts)
    ensures SplittableLines(parts[1..])
    ensures '\n' !in parts[0] && (parts[0] == [] || parts[0][|parts[0]| - 1] != '\r')
  {
    var tail := parts[1..];
    assert forall k :: 0 <= k < |tail| ==> tail[k] == parts[k + 1];
  }

  /** Joining peels off the first line and its ending. */
  lemma JoinLinesHead(parts: seq<string>, eol: string)
    requires eol == "\n" || eol == "\r\n"
    requires |parts| > 1 && '\n' !in parts[0] && (parts[0] == [] || parts[0][|parts[0]| - 1] != '\r')
    ensures JoinLines(parts, eol) == LineWithEnding(parts[0], eol) + "\n" + JoinLines(parts[1..], eol)
  {
    var rest := JoinLines(parts[1..], eol);
    assert parts[0] + eol + rest == (parts[0] + eol) + rest;
  }

  /**
   * LF and CRLF files split alike: joining lines with either ending and splitting
   * again gives back the lines.
   */
  lemma {:induction false} SplitJoinLines(parts: seq<string>, eol: string)
    requires eol == "\n" || eol == "\r\n"
    requires |parts| >= 1 && SplittableLines(parts)
    ensures SplitLines(JoinLines(parts, eol)) == parts
  {
    if |parts| > 1 {
      SplittableTail(parts);
      JoinLinesHead(parts, eol);
      SplitLinesStep(LineWithEnding(parts[0], eol), JoinLines(parts[1..], eol));
      SplitJoinLines(parts[1..], eol);
      assert [parts[0]] + parts[1..] == parts;
    } else {
      assert '\n' !in parts[0];
    }
  }

  /** A line and its ending, without the final line feed: the line, plus `\r` for CRLF. */
  function LineWithEnding(line: string, eol: string): (head: string)
    requires eol == "\n" || eol == "\r\n"
    requires '\n' !in line && (line == [] || line[|line| - 1] != '\r')
    ensures line + eol == head + "\n"
    ensures '\n' !in head && DropCR(head) == line
  {
    if eol == "\n" then line
    else
      assert (line + "\r")[..|line|] == line;
      line + "\r"
  }

  /**
   * `line.match(/^([^=]+)=(.*)$/)`: the text before the first `=`, which must not be
   * empty, and the text after it, which must hold no line terminator.
   */
  function MatchAssignment(line: string): (m: Option<(string, string)>)
    ensures m.Some? <==> '=' in line && FirstIndex(line, '=') >= 1 && NoTerminator(line[FirstIndex(line, '=') + 1..])
    ensures m.Some? ==> line == m.value.0 + "=" + m.value.1 && m.value.0 != [] && '=' !in m.value.0
  {
    if '=' in line then
      var i := FirstIndex(line, '=');
      if i >= 1 && NoTerminator(line[i + 1..]) then
        assert line == line[..i] + "=" + line[i + 1..];
        Some((line[..i], line[i + 1..]))
      else None
    else None
  }

  /** A key without `=` and a value without line terminators match as such; the value may hold `=`. */
  lemma MatchOfPair(key: string, value: string)
    requires key != [] && '=' !in key && NoTerminator(value)
    ensures MatchAssignment(key + "=" + value) == Some((key, value))
  {
    var line := key + "=" + value;
    assert line[|key|] == '=';
    assert line[..|key|] == key;
    assert FirstIndex(line, '=') == |key| by {
      FirstIndexAfter(key, '=', value);
      assert line == key + ['='] + value;
    }
    assert line[|key| + 1..] == value;
  }

  /**
   * `.replace(/^['"]|['"]$/g, '')`: a quote at the start and a quote at the end are
   * removed independently, matched or not.
   */
  function StripQuotesLoose(v: string): (r: string)
    ensures |v| >= 1 && IsQuote(v[0]) && (|v| == 1 || !IsQuote(v[|v| - 1])) ==> r == v[1..]
    ensures |v| >= 2 && IsQuote(v[0]) && IsQuote(v[|v| - 1]) ==> r == v[1..|v| - 1]
    ensures |v| >= 1 && !IsQuote(v[0]) && IsQuote(v[|v| - 1]) ==> r == v[..|v| - 1]
    ensures (|v| == 0 || (!IsQuote(v[0]) && !IsQuote(v[|v| - 1]))) ==> r == v
  {
    var a := if |v| >= 1 && IsQuote(v[0]) then 1 else 0;
    var b := if |v| >= a + 1 && IsQuote(v[|v| - 1]) then |v| - 1 else |v|;
    v[a..b]
  }

  /** Unlike the matched-quote rule of the connection scripts, mismatched quotes are stripped too. */
  lemma LooseVersusMatched(v: string)
    ensures StripQuotesLoose("\"" + v + "'") == v
    ensures DatabaseUrl.StripMatchedQuotes("\"" + v + "'") == "\"" + v + "'"
    ensures StripQuotesLoose("\"" + v + "\"") == DatabaseUrl.StripMatchedQuotes("\"" + v + "\"")
  {
    var s := "\"" + v + "'";
    assert s[1..|s| - 1] == v;
    var t := "\"" + v + "\"";
    assert t[1..|t| - 1] == v;
  }

  /** Lines 16-19 of check-users.ts: the trimmed key and the trimmed, unquoted value. */
  function Assignment(line: string): (a: Option<(string, string)>)
    ensures a.Some? <==> MatchAssignment(line).Some?
    ensures a.Some? ==> a.value.0 == Trim(MatchAssignment(line).value.0)
                        && a.value.1 == StripQuotesLoose(Trim(MatchAssignment(line).value.1))
  {
    match MatchAssignment(line)
    case None => None
    case Some((key, value)) => Some((Trim(key), StripQuotesLoose(Trim(value))))
  }

  /** One line's effect on the environment: `process.env[key] = value` for an assignment. */
  function ApplyLine(env: map<string, string>, line: string): map<string, string> {
    match Assignment(line)
    case None => env
    case Some((k, v)) => env[k := v]
  }

  /** The environment after the `forEach` over the given lines. */
  function ApplyLines(env: map<string, string>, lines: seq<string>): map<string, string> {
    if lines == [] then env
    else ApplyLine(ApplyLines(env, lines[..|lines| - 1]), lines[|lines| - 1])
  }

  /** Applying two runs of lines is applying their concatenation: lines act in file order. */
  lemma {:induction false} ApplyConcat(env: map<string, string>, a: seq<string>, b: seq<string>)
    ensures ApplyLines(env, a + b) == ApplyLines(ApplyLines(env, a), b)
  {
    if b == [] {
      assert a + b == a;
    } else {
      assert (a + b)[..|a + b| - 1] == a + b[..|b| - 1];
      assert (a + b)[|a + b| - 1] == b[|b| - 1];
      ApplyConcat(env, a, b[..|b| - 1]);
    }
  }

  /** Whether line `j` assigns key `k`. */
  predicate Assigns(line: string, k: string) {
    Assignment(line).Some? && Assignment(line).value.0 == k
  }

  /** A key no line assigns keeps whatever it had, present or absent. */
  lemma {:induction false} UnassignedKept(env: map<string, string>, lines: seq<string>, k: string)
    requires forall j :: 0 <= j < |lines| ==> !Assigns(lines[j], k)
    ensures k in ApplyLines(env, lines) <==> k in env
    ensures k in env ==> ApplyLines(env, lines)[k] == env[k]
  {
    if lines != [] {
      var n := |lines| - 1;
      assert forall j :: 0 <= j < n ==> lines[..n][j] == lines[j];
      assert !Assigns(lines[n], k);
      UnassignedKept(env, lines[..n], k);
    }
  }

  /** The last line assigning a key decides its value, over earlier lines and the prior environment. */
  lemma LastAssignmentWins(env: map<string, string>, lines: seq<string>, i: int)
    requires 0 <= i < |lines| && Assignment(lines[i]).Some?
    requires forall j :: i < j < |lines| ==> !Assigns(lines[j], Assignment(lines[i]).value.0)
    ensures var (k, v) := Assignment(lines[i]).value;
      k in ApplyLines(env, lines) && ApplyLines(env, lines)[k] == v
  {
    var k := Assignment(lines[i]).value.0;
    SplitAfter(lines, i, lines[i + 1..]);
    ApplyConcat(env, lines[..i + 1], lines[i + 1..]);
    UnassignedKept(ApplyLines(env, lines[..i + 1]), lines[i + 1..], k);
  }

  lemma SplitAfter(lines: seq<string>, i: int, after: seq<string>)
    requires 0 <= i < |lines| && after == lines[i + 1..]
    ensures lines[..i + 1] + after == lines
    ensures lines[..i + 1][..i] == lines[..i] && lines[..i + 1][i] == lines[i]
    ensures forall j :: 0 <= j < |after| ==> after[j] == lines[i + 1 + j]
  {
  }

  /** The environment after the loader ran on `file` (`None` when reading it threw). */
  function Loaded(env: map<string, string>, file: Option<string>): map<string, string> {
    if file.None? then env else ApplyLines(env, SplitLines(file.value))
  }

  /**
   * A `.env` line overrides the process environment: loading `KEY=value` sets the key
   * whatever it held before.
   */
  lemma FileOverridesEnvironment(env: map<string, string>, key: string, value: string)
    requires key != [] && '=' !in key && NoTerminator(value) && '\n' !in key
    requires Trim(key) == key && Trim(value) == value
    requires value == [] || (!IsQuote(value[0]) && !IsQuote(value[|value| - 1]))
    ensures var after := Loaded(env, Some(key + "=" + value));
      key in after && after[key] == value
  {
    var line := key + "=" + value;
    AssignmentOfPair(key, value);
    ApplyOneLine(env, line);
  }

  /** A trimmed, unquoted pair on a line of its own is read back as that pair. */
  lemma AssignmentOfPair(key: string, value: string)
    requires key != [] && '=' !in key && NoTerminator(value) && '\n' !in key
    requires Trim(key) == key && Trim(value) == value
    requires value == [] || (!IsQuote(value[0]) && !IsQuote(value[|value| - 1]))
    ensures Assignment(key + "=" + value) == Some((key, value))
    ensures '\n' !in key + "=" + value
  {
    assert '\n' !in value by {
      forall k | 0 <= k < |value| ensures value[k] != '\n' {
        assert !IsLineTerminator(value[k]);
      }
    }
    MatchOfPair(key, value);
  }

  /** A text without a line feed is one line, applied on its own. */
  lemma ApplyOneLine(env: map<string, string>, line: string)
    requires '\n' !in line
    ensures Loaded(env, Some(line)) == ApplyLine(env, line)
  {
    assert SplitLines(line) == [line];
    assert [line][..0] == [];
    assert ApplyLines(env, [line]) == ApplyLine(ApplyLines(env, []), line);
  }

  /** `process.env`, as far as the scripts read and write it. */
  class Environment {
    var vars: map<string, string>

    constructor (initial: map<string, string>)
      ensures vars == initial
    {
      vars := initial;
    }

    /**
     * The `try` block: `file` is the text `readFileSync` returns, or `None` when it
     * throws, in which case the `catch` only logs and nothing changes.
     */
    method LoadDotEnv(file: Option<string>)
      modifies this
      ensures file.None? ==> vars == old(vars)
      ensures file.Some? ==> vars == ApplyLines(old(vars), SplitLines(file.value))
      ensures vars == Loaded(old(vars), file)
    {
      if file.None? {
        return;
      }
      var lines := SplitLines(file.value);
      for i := 0 to |lines|
        invariant vars == ApplyLines(old(vars), lines[..i])
      {
        assert lines[..i + 1][..i] == lines[..i];
        assert ApplyLines(old(vars), lines[..i + 1]) == ApplyLine(vars, lines[i]);
        var match_ := MatchAssignment(lines[i]);
        if match_.Some? {
          var key := Trim(match_.value.0);
          var value := StripQuotesLoose(Trim(match_.value.1));
          vars := vars[key := value];
        }
      }
      assert lines[..|lines|] == lines;
    }
  }
}
