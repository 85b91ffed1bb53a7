/**
 * The JavaScript string operations the modelled code relies on, stated over
 * `seq<char>`: `trim`, `startsWith`/`endsWith`, `split` on one character and on
 * `/\s+/`, `replace` of the first occurrence, `toLowerCase` and `<`.
 */
module Text {

  /** A quote character, `'` or `"`. */
  predicate IsQuote(c: char) {
    c == '"' || c == '\''
  }

  /** ECMAScript WhiteSpace and LineTerminator code points: what `trim()` strips and `\s` matches. */
  predicate IsSpace(c: char) {
    c == '\t' || c == '\n' || c == '\U{000B}' || c == '\U{000C}' || c == '\r' || c == ' '
    || c == '\U{00A0}' || c == '\U{1680}' || ('\U{2000}' <= c <= '\U{200A}')
    || c == '\U{2028}' || c == '\U{2029}' || c == '\U{202F}' || c == '\U{205F}'
    || c == '\U{3000}' || c == '\U{FEFF}'
  }

  /** A character matched by the regular-expression class `\w`. */
  predicate IsWordChar(c: char) {
    ('a' <= c <= 'z') || ('A' <= c <= 'Z') || ('0' <= c <= '9') || c == '_'
  }

  predicate NoSpace(s: string) {
    forall i :: 0 <= i < |s| ==> !IsSpace(s[i])
  }

  /** `s.startsWith(p)` */
  predicate StartsWith(s: string, p: string) {
    |p| <= |s| && s[..|p|] == p
  }

  /** `s.endsWith(p)` */
  predicate EndsWith(s: string, p: string) {
    |p| <= |s| && s[|s| - |p|..] == p
  }

  /** Length of the longest prefix of `s` made of white space. */
  function SpaceSpan(s: string): (n: nat)
    ensures n <= |s|
    ensures forall i :: 0 <= i < n ==> IsSpace(s[i])
    ensures n == |s| || !IsSpace(s[n])
  {
    if s != [] && IsSpace(s[0]) then 1 + SpaceSpan(s[1..]) else 0
  }

  /** Drops trailing white space. */
  function TrimEnd(s: string): (r: string)
    ensures |r| <= |s| && r == s[..|r|]
    ensures forall i :: |r| <= i < |s| ==> IsSpace(s[i])
    ensures r == [] || !IsSpace(r[|r| - 1])
  {
    if s != [] && IsSpace(s[|s| - 1]) then TrimEnd(s[..|s| - 1]) else s
  }

  /**
   * `s.trim()`: the infix of `s` left after its leading run of white space and
   * its trailing run of white space; it neither starts nor ends with white space.
   */
  function Trim(s: string): (r: string)
    ensures SpaceSpan(s) + |r| <= |s| && r == s[SpaceSpan(s)..SpaceSpan(s) + |r|]
    ensures forall i :: SpaceSpan(s) + |r| <= i < |s| ==> IsSpace(s[i])
    ensures r == [] || (!IsSpace(r[0]) && !IsSpace(r[|r| - 1]))
  {
    var a := SpaceSpan(s);
    TrimEnd(s[a..])
  }

  /** Trimming twice is trimming once. */
  lemma TrimIdempotent(s: string)
    ensures Trim(Trim(s)) == Trim(s)
  {
    var t := Trim(s);
    if t != [] {
      assert SpaceSpan(t) == 0;
      assert TrimEnd(t) == t;
    }
  }

  /** Index of the first `c` in `s` (`s.indexOf(c)` when it is not -1). */
  function FirstIndex(s: string, c: char): (i: nat)
    requires c in s
    ensures i < |s| && s[i] == c && c !in s[..i]
  {
    if s[0] == c then 0 else 1 + FirstIndex(s[1..], c)
  }

  /** `s.split(sep)` for a one-character separator. */
  function SplitOn(s: string, sep: char): (parts: seq<string>)
    ensures |parts| >= 1
    ensures forall k :: 0 <= k < |parts| ==> sep !in parts[k]
    decreases |s|
  {
    if sep in s then
      var i := FirstIndex(s, sep);
      [s[..i]] + SplitOn(s[i + 1..], sep)
    else [s]
  }

  /** `parts.join(sep)` */
  function Join(parts: seq<string>, sep: char): string
    requires |parts| >= 1
  {
    if |parts| == 1 then parts[0] else parts[0] + [sep] + Join(parts[1..], sep)
  }

  /** Splitting and joining again gives back the text. */
  lemma {:induction false} JoinSplit(s: string, sep: char)
    ensures Join(SplitOn(s, sep), sep) == s
    decreases |s|
  {
    if sep in s {
      var i := FirstIndex(s, sep);
      JoinSplit(s[i + 1..], sep);
      assert SplitOn(s, sep)[1..] == SplitOn(s[i + 1..], sep);
      assert s == s[..i] + [sep] + s[i + 1..];
    }
  }

  /** The first separator of `a + [sep] + b` is the one after `a` when `a` holds none. */
  lemma {:induction false} FirstIndexAfter(a: string, sep: char, b: string)
    requires sep !in a
    ensures FirstIndex(a + [sep] + b, sep) == |a|
  {
    if a != [] {
      assert (a + [sep] + b)[1..] == a[1..] + [sep] + b;
      FirstIndexAfter(a[1..], sep, b);
    }
  }

  /** Joining pieces that hold no separator and splitting again gives back the pieces. */
  lemma {:induction false} SplitJoin(parts: seq<string>, sep: char)
    requires |parts| >= 1
    requires forall k :: 0 <= k < |parts| ==> sep !in parts[k]
    ensures SplitOn(Join(parts, sep), sep) == parts
  {
    if |parts| > 1 {
      var rest := Join(parts[1..], sep);
      var s := parts[0] + [sep] + rest;
      assert Join(parts, sep) == s;
      FirstIndexAfter(parts[0], sep, rest);
      assert s[..|parts[0]|] == parts[0];
      assert s[|parts[0]| + 1..] == rest;
      SplitOnStep(s, sep, |parts[0]|);
      SplitJoin(parts[1..], sep);
      assert parts == [parts[0]] + parts[1..];
    }
  }

  lemma SplitOnStep(s: string, sep: char, i: nat)
    requires sep in s && i == FirstIndex(s, sep)
    ensures SplitOn(s, sep) == [s[..i]] + SplitOn(s[i + 1..], sep)
  {
    var parts := SplitOn(s, sep);
    assert parts == [s[..i]] + SplitOn(s[i + 1..], sep);
  }

  /** The text before the first `sep`, or all of it: `s.split(sep)[0]`. */
  function Before(s: string, sep: char): (r: string)
    ensures r == SplitOn(s, sep)[0]
    ensures StartsWith(s, r) && sep !in r
    ensures sep in s ==> |r| < |s| && s[|r|] == sep
  {
    if sep in s then s[..FirstIndex(s, sep)] else s
  }

  /** `s.replace(c, d)` with one-character strings: only the first `c` changes. */
  function ReplaceFirstChar(s: string, c: char, d: char): (r: string)
    ensures |r| == |s|
    ensures c !in s ==> r == s
    ensures c in s ==> var i := FirstIndex(s, c); r == s[i := d]
  {
    if c in s then s[FirstIndex(s, c) := d] else s
  }

  /** `pat` occurs in `s` starting at index `j`. */
  predicate OccursAt(s: string, pat: string, j: int) {
    0 <= j && j + |pat| <= |s| && s[j..j + |pat|] == pat
  }

  /** Index of the first occurrence of `pat` in `s`, or -1 (`s.indexOf(pat)`). */
  function FindSub(s: string, pat: string): (r: int)
    requires pat != []
    ensures r == -1 || OccursAt(s, pat, r)
    ensures forall j :: 0 <= j && (r == -1 || j < r) ==> !OccursAt(s, pat, j)
    decreases |s|
  {
    if |s| < |pat| then -1
    else if s[..|pat|] == pat then 0
    else
      var k := FindSub(s[1..], pat);
      assert forall j :: 1 <= j ==> (OccursAt(s, pat, j) <==> OccursAt(s[1..], pat, j - 1));
      if k == -1 then -1 else k + 1
  }

  /** `s.replace(pat, '')` with a string pattern: only the first occurrence is removed. */
  function RemoveFirst(s: string, pat: string): (r: string)
    requires pat != []
    ensures FindSub(s, pat) < 0 ==> r == s
    ensures FindSub(s, pat) >= 0 ==>
              (|r| == |s| - |pat| && r == s[..FindSub(s, pat)] + s[FindSub(s, pat) + |pat|..])
  {
    var i := FindSub(s, pat);
    if i < 0 then s else s[..i] + s[i + |pat|..]
  }

  function LowerChar(c: char): char {
    if 'A' <= c <= 'Z' then (c as int + 32) as char else c
  }

  function UpperChar(c: char): char {
    if 'a' <= c <= 'z' then (c as int - 32) as char else c
  }

  /** `s.toLowerCase()` on the ASCII letters. */
  function ToLower(s: string): (r: string)
    ensures |r| == |s|
    ensures forall i :: 0 <= i < |s| ==> r[i] == LowerChar(s[i])
  {
    if s == [] then [] else [LowerChar(s[0])] + ToLower(s[1..])
  }

  /** JavaScript's `a < b` on strings: code-unit lexicographic order. */
  predicate Less(a: string, b: string) {
    if a == [] then b != []
    else if b == [] then false
    else if a[0] != b[0] then a[0] < b[0]
    else Less(a[1..], b[1..])
  }

  /** No string is below itself. */
  lemma {:induction false} LessIrreflexive(a: string)
    ensures !Less(a, a)
  {
    if a != [] { LessIrreflexive(a[1..]); }
  }

  /** Two strings are never each below the other. */
  lemma {:induction false} LessAsymmetric(a: string, b: string)
    requires Less(a, b)
    ensures !Less(b, a)
  {
    if a != [] && b != [] && a[0] == b[0] { LessAsymmetric(a[1..], b[1..]); }
  }

  /** Length of the longest prefix of `s` made of `\w` characters. */
  function WordSpan(s: string): (n: nat)
    ensures n <= |s|
    ensures forall i :: 0 <= i < n ==> IsWordChar(s[i])
    ensures n == |s| || !IsWordChar(s[n])
  {
    if s != [] && IsWordChar(s[0]) then 1 + WordSpan(s[1..]) else 0
  }

  /** Index of the first white-space character, or `|s|` when there is none. */
  function FirstSpace(s: string): (i: nat)
    ensures i <= |s|
    ensures forall j :: 0 <= j < i ==> !IsSpace(s[j])
    ensures i < |s| ==> IsSpace(s[i])
  {
    if s == [] then 0 else if IsSpace(s[0]) then 0 else 1 + FirstSpace(s[1..])
  }

  /**
   * `s.split(/\s+/)`: the pieces between maximal runs of white space. A leading
   * or trailing run yields an empty first or last piece, as in JavaScript.
   */
  function SplitSpace(s: string): (parts: seq<string>)
    ensures |parts| >= 1
    ensures forall k :: 0 <= k < |parts| ==> NoSpace(parts[k])
    ensures NoSpace(s) ==> parts == [s]
    ensures parts[0] == s[..FirstSpace(s)]
    ensures |parts| == 1 <==> NoSpace(s)
    decreases |s|
  {
    var i := FirstSpace(s);
    if i == |s| then [s]
    else
      var n := SpaceSpan(s[i..]);
      [s[..i]] + SplitSpace(s[i + n..])
  }

  /**
   * Text whose first white space is at `i`, in a run of `n` characters, splits into
   * the text before `i`, then the pieces of the text after the run.
   */
  lemma SplitSpaceStep(s: string, i: nat, n: nat)
    requires i == FirstSpace(s) && i < |s| && n == SpaceSpan(s[i..])
    ensures SplitSpace(s) == [s[..i]] + SplitSpace(s[i + n..])
  {
  }

  /** The second piece: the text after the first white-space run, up to the next white space. */
  lemma SplitSpaceSecond(s: string)
    requires !NoSpace(s)
    ensures var j := FirstSpace(s) + SpaceSpan(s[FirstSpace(s)..]);
            j <= |s| && |SplitSpace(s)| >= 2 && SplitSpace(s)[1] == s[j..][..FirstSpace(s[j..])]
  {
    FirstSpaceFound(s);
    var i := FirstSpace(s);
    SpaceSpanPositive(s[i..]);
    SplitSpaceStep(s, i, SpaceSpan(s[i..]));
  }

  lemma FirstSpaceFound(s: string)
    requires !NoSpace(s)
    ensures FirstSpace(s) < |s| && IsSpace(s[FirstSpace(s)])
  {
    var k :| 0 <= k < |s| && IsSpace(s[k]);
    assert FirstSpace(s) <= k;
  }

  lemma SpaceSpanPositive(t: string)
    requires t != [] && IsSpace(t[0])
    ensures SpaceSpan(t) >= 1
  {
  }

  /** A run of white space followed by something that does not start with white space spans exactly the run. */
  lemma {:induction false} SpaceSpanConcat(sp: string, t: string)
    requires forall i :: 0 <= i < |sp| ==> IsSpace(sp[i])
    requires t == [] || !IsSpace(t[0])
    ensures SpaceSpan(sp + t) == |sp|
  {
    if sp != [] {
      assert (sp + t)[1..] == sp[1..] + t;
      SpaceSpanConcat(sp[1..], t);
    }
  }

  /** A run of `\w` characters followed by a non-`\w` character or nothing spans exactly the run. */
  lemma {:induction false} WordSpanConcat(w: string, t: string)
    requires forall i :: 0 <= i < |w| ==> IsWordChar(w[i])
    requires t == [] || !IsWordChar(t[0])
    ensures WordSpan(w + t) == |w|
  {
    if w != [] {
      assert (w + t)[1..] == w[1..] + t;
      WordSpanConcat(w[1..], t);
    }
  }

  /** A text starts with any of its prefixes. */
  lemma PrefixStartsWith(p: string, rest: string)
    ensures StartsWith(p + rest, p)
  {
    assert (p + rest)[..|p|] == p;
  }

  /** A prefix of a text is a prefix of any extension of it. */
  lemma StartsWithConcat(s: string, p: string, t: string)
    requires StartsWith(s, p)
    ensures StartsWith(s + t, p)
  {
    assert (s + t)[..|p|] == s[..|p|];
  }

  /** A text that neither starts nor ends with white space is its own trim. */
  lemma TrimUnchanged(s: string)
    requires s == [] || (!IsSpace(s[0]) && !IsSpace(s[|s| - 1]))
    ensures Trim(s) == s
  {
    if s != [] {
      assert SpaceSpan(s) == 0;
      assert s[0..] == s;
    }
  }

  /** Trailing white space after a text that does not end with white space is what `TrimEnd` drops. */
  lemma {:induction false} TrimEndConcat(t: string, sp: string)
    requires forall i :: 0 <= i < |sp| ==> IsSpace(sp[i])
    requires t != [] && !IsSpace(t[|t| - 1])
    ensures TrimEnd(t + sp) == t
  {
    if sp == [] {
      assert t + sp == t;
    } else {
      assert (t + sp)[..|t + sp| - 1] == t + sp[..|sp| - 1];
      TrimEndConcat(t, sp[..|sp| - 1]);
    }
  }

  /** Trimming strips exactly the white space around a text without white space at its ends. */
  lemma TrimAround(sp1: string, t: string, sp2: string)
    requires forall i :: 0 <= i < |sp1| ==> IsSpace(sp1[i])
    requires forall i :: 0 <= i < |sp2| ==> IsSpace(sp2[i])
    requires t != [] && !IsSpace(t[0]) && !IsSpace(t[|t| - 1])
    ensures Trim(sp1 + t + sp2) == t
  {
    var s := sp1 + t + sp2;
    assert s == sp1 + (t + sp2);
    SpaceSpanConcat(sp1, t + sp2);
    assert s[|sp1|..] == t + sp2;
    TrimEndConcat(t, sp2);
  }
}
