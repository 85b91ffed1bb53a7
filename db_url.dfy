/**
 * The `.env` scan of the two connection scripts: `getDatabaseUrl` in verify-db.js
 * and `getDatabaseUrlFromFile` in scripts/db-sync.js share one loop, in which the
 * first trimmed line starting with `DATABASE_URL=` decides. Around it, verify-db.js
 * falls back to the environment and trims; scripts/db-sync.js prefers the
 * environment and removes all white space. The file's text is a parameter (`None`
 * when it is missing or cannot be read).
 */
module DatabaseUrl {
  import opened Wrappers
  import opened Text

  const Prefix := "DATABASE_URL="

  /**
   * `value.slice(1, -1)` when the value starts and ends with the same quote; a
   * lone quote character gives the empty string.
   */
  function StripMatchedQuotes(v: string): (r: string)
    ensures |v| >= 2 && IsQuote(v[0]) && v[|v| - 1] == v[0] ==> r == v[1..|v| - 1]
    ensures |v| == 1 && IsQuote(v[0]) ==> r == ""
    ensures !(|v| >= 1 && IsQuote(v[0]) && v[|v| - 1] == v[0]) ==> r == v
  {
    if MatchedQuotes(v) then (if |v| >= 2 then v[1..|v| - 1] else "") else v
  }

  /** `(value.startsWith('"') && value.endsWith('"')) || (value.startsWith("'") && value.endsWith("'"))` */
  predicate QuoteTest(v: string) {
    (StartsWith(v, "\"") && EndsWith(v, "\"")) || (StartsWith(v, "'") && EndsWith(v, "'"))
  }

  predicate MatchedQuotes(v: string) {
    |v| >= 1 && IsQuote(v[0]) && v[|v| - 1] == v[0]
  }

  /** The test on line 16 is a test of the first and last characters. */
  lemma QuoteTestChars(v: string)
    ensures QuoteTest(v) <==> MatchedQuotes(v)
  {
    if |v| >= 1 {
      assert StartsWith(v, "\"") <==> v[0] == '"' by { assert v[..1] == [v[0]]; }
      assert StartsWith(v, "'") <==> v[0] == '\'' by { assert v[..1] == [v[0]]; }
      assert EndsWith(v, "\"") <==> v[|v| - 1] == '"' by { assert v[|v| - 1..] == [v[|v| - 1]]; }
      assert EndsWith(v, "'") <==> v[|v| - 1] == '\'' by { assert v[|v| - 1..] == [v[|v| - 1]]; }
    }
  }

  /** Quotes that do not match, or a quote at one end only, are kept. */
  lemma MismatchedQuotesKept(v: string)
    requires |v| >= 2 && v[0] == '"' && v[|v| - 1] == '\''
    ensures StripMatchedQuotes(v) == v
  {
  }

  /** The value a line carries, when it starts with `DATABASE_URL=` once trimmed. */
  function LineValue(line: string): (r: Option<string>)
    ensures r.Some? <==> StartsWith(Trim(line), Prefix)
    ensures r.Some? ==> r.value == StripMatchedQuotes(Trim(line)[|Prefix|..])
  {
    var trimmed := Trim(line);
    if StartsWith(trimmed, Prefix) then Some(StripMatchedQuotes(trimmed[|Prefix|..])) else None
  }

  /** The value of the first line that carries one. */
  function FirstValue(lines: seq<string>): Option<string> {
    if lines == [] then None
    else if LineValue(lines[0]).Some? then LineValue(lines[0])
    else FirstValue(lines[1..])
  }

  /** Without a carrying line there is no value. */
  lemma {:induction false} NoCarryingLine(lines: seq<string>)
    requires forall j :: 0 <= j < |lines| ==> LineValue(lines[j]).None?
    ensures FirstValue(lines) == None
  {
    if lines != [] {
        NoCarryingLine(lines[1..]);
    }
  }

  /** The first carrying line decides, whatever follows it. */
  lemma {:induction false} FirstMatchDecides(before: seq<string>, line: string, after: seq<string>)
    requires forall j :: 0 <= j < |before| ==> LineValue(before[j]).None?
    requires LineValue(line).Some?
    ensures FirstValue(before + [line] + after) == LineValue(line)
  {
    var lines := before + [line] + after;
    if before != [] {
      assert lines[1..] == before[1..] + [line] + after;
      assert lines[0] == before[0];
      FirstMatchDecides(before[1..], line, after);
    }
  }

  /** The same, by position: the line at `i` decides when no line before it carries a value. */
  lemma {:induction false} FirstMatchAt(lines: seq<string>, i: int)
    requires 0 <= i < |lines| && LineValue(lines[i]).Some?
    requires forall j :: 0 <= j < i ==> LineValue(lines[j]).None?
    ensures FirstValue(lines) == LineValue(lines[i])
  {
    if i > 0 {
      assert LineValue(lines[0]).None?;
      assert forall j :: 0 <= j < i - 1 ==> lines[1..][j] == lines[j + 1];
      FirstMatchAt(lines[1..], i - 1);
    }
  }

  /**
   * Everything after the prefix is the value, further `=` signs included, when it
   * is not wrapped in matching quotes.
   */
  lemma PlainValue(sp1: string, v: string, sp2: string)
    requires forall i :: 0 <= i < |sp1| ==> IsSpace(sp1[i])
    requires forall i :: 0 <= i < |sp2| ==> IsSpace(sp2[i])
    requires v != [] && !IsSpace(v[|v| - 1]) && !MatchedQuotes(v)
    ensures LineValue(sp1 + Prefix + v + sp2) == Some(v)
  {
    var t := Prefix + v;
    assert t[0] == 'D' && t[|t| - 1] == v[|v| - 1];
    assert sp1 + Prefix + v + sp2 == sp1 + t + sp2;
    TrimAround(sp1, t, sp2);
    assert t[..|Prefix|] == Prefix;
    assert t[|Prefix|..] == v;
  }

  /** One pair of matching quotes around the value is removed, and only one. */
  lemma QuotedValue(sp1: string, q: char, v: string, sp2: string)
    requires forall i :: 0 <= i < |sp1| ==> IsSpace(sp1[i])
    requires forall i :: 0 <= i < |sp2| ==> IsSpace(sp2[i])
    requires IsQuote(q)
    ensures LineValue(sp1 + Prefix + [q] + v + [q] + sp2) == Some(v)
  {
    var w := [q] + v + [q];
    var t := Prefix + w;
    QuotedParts(sp1, q, v, sp2);
    TrimAround(sp1, t, sp2);
  }

  lemma QuotedParts(sp1: string, q: char, v: string, sp2: string)
    ensures var w := [q] + v + [q]; var t := Prefix + w;
      && t[0] == 'D' && t[|t| - 1] == q
      && sp1 + Prefix + [q] + v + [q] + sp2 == sp1 + t + sp2
      && t[..|Prefix|] == Prefix && t[|Prefix|..] == w && w[1..|w| - 1] == v
  {
    var w := [q] + v + [q];
    var t := Prefix + w;
    assert t[..|Prefix|] == Prefix;
    assert w[1..|w| - 1] == v;
  }

  /** The loop at verify-db.js lines 12-21 and scripts/db-sync.js lines 21-30, with its early return. */
  method FindDatabaseUrl(lines: seq<string>) returns (r: Option<string>)
    ensures r == FirstValue(lines)
  {
    for i := 0 to |lines|
      invariant forall j :: 0 <= j < i ==> LineValue(lines[j]).None?
    {
      var value := LineValue(lines[i]);
      if value.Some? {
        FirstMatchAt(lines, i);
        return value;
      }
    }
    NoCarryingLine(lines);
    r := None;
  }

  /** verify-db.js `getDatabaseUrl`: the file's first match, else the environment's value. */
  function VerifyDbUrl(file: Option<string>, env: Option<string>): (r: Option<string>)
    ensures file.Some? && FirstValue(SplitOn(file.value, '\n')).Some? ==> r == FirstValue(SplitOn(file.value, '\n'))
    ensures (file.None? || FirstValue(SplitOn(file.value, '\n')).None?) ==> r == env
  {
    if file.Some? && FirstValue(SplitOn(file.value, '\n')).Some? then FirstValue(SplitOn(file.value, '\n')) else env
  }

  /** A `DATABASE_URL=` line with nothing after it still wins over the environment. */
  lemma EmptyFileValueWins(env: Option<string>)
    ensures VerifyDbUrl(Some("DATABASE_URL="), env) == Some("")
  {
    var t := Prefix;
    TrimUnchanged(t);
    assert t[..|Prefix|] == Prefix;
    assert t[|Prefix|..] == "";
    assert LineValue(t) == Some("");
    assert FirstValue([t]) == Some("");
    assert '\n' !in t;
    assert SplitOn(t, '\n') == [t];
  }

  method GetDatabaseUrl(file: Option<string>, env: Option<string>) returns (r: Option<string>)
    ensures r == VerifyDbUrl(file, env)
  {
    if file.Some? {
      var found := FindDatabaseUrl(SplitOn(file.value, '\n'));
      if found.Some? {
        return found;
      }
    }
    r := env;
  }

  /** verify-db.js lines 29-44: no usable value stops the script; otherwise the trimmed value is used. */
  function VerifyDbTarget(file: Option<string>, env: Option<string>): (target: Option<string>)
    ensures target.None? <==> VerifyDbUrl(file, env).None? || VerifyDbUrl(file, env).value == ""
    ensures target.Some? ==> target.value == Trim(VerifyDbUrl(file, env).value)
    ensures target.Some? ==> Trim(target.value) == target.value
  {
    var url := VerifyDbUrl(file, env);
    if url.None? || url.value == "" then None
    else
      TrimIdempotent(url.value);
      Some(Trim(url.value))
  }

  /** scripts/db-sync.js `getDatabaseUrlFromFile`: the file's first match, or null. */
  function FileUrl(file: Option<string>): (r: Option<string>)
    ensures file.None? ==> r.None?
    ensures file.Some? ==> r == FirstValue(SplitOn(file.value, '\n'))
  {
    if file.None? then None else FirstValue(SplitOn(file.value, '\n'))
  }

  method GetDatabaseUrlFromFile(file: Option<string>) returns (r: Option<string>)
    ensures r == FileUrl(file)
  {
    if file.None? {
      return None;
    }
    r := FindDatabaseUrl(SplitOn(file.value, '\n'));
  }

  /** `s.replace(/\s/g, '')` */
  function Sanitize(s: string): (r: string)
    ensures NoSpace(r)
    ensures |r| <= |s|
  {
    if s == [] then ""
    else (if IsSpace(s[0]) then "" else [s[0]]) + Sanitize(s[1..])
  }

  /** A single white-space character sanitises away; any other character is kept. */
  lemma SanitizeOne(c: char)
    ensures IsSpace(c) ==> Sanitize([c]) == ""
    ensures !IsSpace(c) ==> Sanitize([c]) == [c]
  {
    assert [c][1..] == [];
  }

  /** Sanitising a text without white space changes nothing; so sanitising twice is sanitising once. */
  lemma {:induction false} SanitizeNoSpace(s: string)
    requires NoSpace(s)
    ensures Sanitize(s) == s
  {
    if s != [] {
      SanitizeNoSpace(s[1..]);
    }
  }

  lemma SanitizeIdempotent(s: string)
    ensures Sanitize(Sanitize(s)) == Sanitize(s)
  {
    SanitizeNoSpace(Sanitize(s));
  }

  /** Sanitising works piece by piece: it only deletes characters, never reorders them. */
  lemma {:induction false} SanitizeConcat(a: string, b: string)
    ensures Sanitize(a + b) == Sanitize(a) + Sanitize(b)
  {
    if a == [] {
      assert a + b == b;
    } else {
      assert (a + b)[1..] == a[1..] + b;
      SanitizeConcat(a[1..], b);
    }
  }

  /** How scripts/db-sync.js starts: exit 1, or connect with the sanitised URL. */
  datatype SyncStart = Exit(code: int) | Connect(url: string)

  /**
   * `run`, lines 38-53: the environment's value if non-empty, else the file's;
   * no non-empty value exits with 1.
   */
  function SyncTarget(env: Option<string>, file: Option<string>): (s: SyncStart)
    ensures env.Some? && env.value != "" ==> s == Connect(Sanitize(env.value))
    ensures (env.None? || env.value == "") ==>
              s == (if FileUrl(file).Some? && FileUrl(file).value != "" then Connect(Sanitize(FileUrl(file).value)) else Exit(1))
    ensures s.Connect? ==> NoSpace(s.url)
  {
    var fromEnv := if env.Some? && env.value != "" then env else FileUrl(file);
    if fromEnv.None? || fromEnv.value == "" then Exit(1) else Connect(Sanitize(fromEnv.value))
  }

  /** With a non-empty environment value the hand-written scan of the file plays no part. */
  lemma EnvironmentFirst(env: string, f1: Option<string>, f2: Option<string>)
    requires env != ""
    ensures SyncTarget(Some(env), f1) == SyncTarget(Some(env), f2)
  {
  }

  /** The statements of `run` up to the sanitising, step by step. */
  method Run(env: Option<string>, file: Option<string>) returns (s: SyncStart)
    ensures s == SyncTarget(env, file)
  {
    var connectionString := env;
    if connectionString.None? || connectionString.value == "" {
      connectionString := GetDatabaseUrlFromFile(file);
    }
    if connectionString.None? || connectionString.value == "" {
      return Exit(1);
    }
    var sanitized := Sanitize(connectionString.value);
    s := Connect(sanitized);
  }
}
