/** The Python string built-ins the scraper relies on, over `seq<char>`:
    `str.split()`, `str.splitlines()`, `str.split(sep)`, `sep.join(parts)`,
    `str.replace`, `str.startswith`, the `in` substring test, `int(str)` and
    `str(int)`. Digits are the ASCII digits only. */
module PyStr {
  import opened Outcome

  // ---------------------------------------------------------------------------
  // Substrings

  predicate StartsWith(s: string, p: string) {
    |p| <= |s| && s[..|p|] == p
  }

  /** `sub in s` */
  predicate Contains(s: string, sub: string)
    decreases |s|
  {
    StartsWith(s, sub) || (s != [] && Contains(s[1..], sub))
  }

  /** `sub` occurs in `s` starting at index `i`. */
  predicate OccursAt(s: string, sub: string, i: nat) {
    i + |sub| <= |s| && s[i..i + |sub|] == sub
  }

  lemma {:induction false} ContainsAt(s: string, sub: string, i: nat)
    requires OccursAt(s, sub, i)
    ensures Contains(s, sub)
    decreases i
  {
    if i > 0 {
      assert s[1..][i - 1..i - 1 + |sub|] == s[i..i + |sub|];
      assert OccursAt(s[1..], sub, i - 1);
      ContainsAt(s[1..], sub, i - 1);
    }
  }

  lemma {:induction false} ContainsHasIndex(s: string, sub: string)
    requires Contains(s, sub)
    ensures exists i: nat :: OccursAt(s, sub, i)
    decreases |s|
  {
    if StartsWith(s, sub) {
      assert OccursAt(s, sub, 0);
    } else {
      ContainsHasIndex(s[1..], sub);
      var i: nat :| OccursAt(s[1..], sub, i);
      assert s[i + 1..i + 1 + |sub|] == s[1..][i..i + |sub|];
      assert OccursAt(s, sub, i + 1);
    }
  }

  /** `sub in s` holds iff `sub` occurs at some index of `s`. */
  lemma ContainsIff(s: string, sub: string)
    ensures Contains(s, sub) <==> exists i: nat :: OccursAt(s, sub, i)
  {
    if Contains(s, sub) {
      ContainsHasIndex(s, sub);
    }
    if exists i: nat :: OccursAt(s, sub, i) {
      var i: nat :| OccursAt(s, sub, i);
      ContainsAt(s, sub, i);
    }
  }

  lemma {:induction false} NotContainsWithout(s: string, sub: string)
    requires sub != [] && sub[0] !in s
    ensures !Contains(s, sub)
    decreases |s|
  {
    if s != [] {
      assert s[0] in s;
      assert forall c :: c in s[1..] ==> c in s;
      NotContainsWithout(s[1..], sub);
    }
  }

  // ---------------------------------------------------------------------------
  // Decimal digits, `int(str)` and `str(int)`

  predicate IsDigit(c: char) {
    '0' <= c <= '9'
  }

  predicate AllDigits(s: string) {
    forall i :: 0 <= i < |s| ==> IsDigit(s[i])
  }

  function DigitOf(c: char): (d: nat)
    requires IsDigit(c)
    ensures d < 10
  {
    c as int - '0' as int
  }

  function DigitChar(d: nat): (c: char)
    requires d < 10
    ensures IsDigit(c) && DigitOf(c) == d
  {
    ('0' as int + d) as char
  }

  /** The number a string of decimal digits denotes (leading zeros allowed). */
  function DigitsValue(s: string): nat
    requires AllDigits(s)
    decreases |s|
  {
    if s == [] then 0 else DigitsValue(s[..|s| - 1]) * 10 + DigitOf(s[|s| - 1])
  }

  /** `str(n)` for a natural number: canonical decimal, no leading zero. */
  function NatToString(n: nat): (r: string)
    ensures r != [] && AllDigits(r)
    ensures r[0] != '0' || r == "0"
    ensures DigitsValue(r) == n
    decreases n
  {
    if n < 10 then [DigitChar(n)]
    else
      var r := NatToString(n / 10) + [DigitChar(n % 10)];
      assert r[..|r| - 1] == NatToString(n / 10);
      r
  }

  lemma {:induction false} LeadingDigitBound(s: string)
    requires AllDigits(s) && s != [] && s[0] != '0'
    ensures DigitsValue(s) >= 1
    decreases |s|
  {
    if |s| > 1 {
      LeadingDigitBound(s[..|s| - 1]);
    }
  }

  /** A digit string without a superfluous leading zero is `str` of its value:
      decimal notation is canonical. */
  lemma {:induction false} CanonicalDigits(s: string)
    requires AllDigits(s) && s != [] && (s[0] != '0' || |s| == 1)
    ensures NatToString(DigitsValue(s)) == s
    decreases |s|
  {
    var p := s[..|s| - 1];
    if |s| == 1 {
      assert DigitsValue(s) == DigitOf(s[0]);
      assert [DigitChar(DigitOf(s[0]))] == s;
    } else {
      CanonicalDigits(p);
      LeadingDigitBound(p);
      var n := DigitsValue(s);
      assert n == DigitsValue(p) * 10 + DigitOf(s[|s| - 1]);
      assert n / 10 == DigitsValue(p) && n % 10 == DigitOf(s[|s| - 1]);
      assert DigitChar(DigitOf(s[|s| - 1])) == s[|s| - 1];
      assert p + [s[|s| - 1]] == s;
    }
  }

  /** `str(i)` for any integer. */
  function IntToString(i: int): (r: string)
    ensures r != []
    ensures i >= 0 ==> AllDigits(r)
    ensures i < 0 ==> r[0] == '-' && AllDigits(r[1..])
  {
    if i < 0 then "-" + NatToString(-i) else NatToString(i)
  }

  /** `int(s)` for a string without surrounding whitespace: an optional sign
      followed by at least one digit. */
  function ParseInt(s: string): (r: Option<int>)
    ensures r.Some? ==> s != [] && (AllDigits(s) || AllDigits(s[1..]))
    ensures AllDigits(s) && s != [] ==> r == Some(DigitsValue(s))
  {
    if s != [] && (s[0] == '+' || s[0] == '-') then
      if |s| > 1 && AllDigits(s[1..]) then
        var m: int := DigitsValue(s[1..]);
        Some(if s[0] == '-' then -m else m)
      else None
    else if s != [] && AllDigits(s) then Some(DigitsValue(s))
    else None
  }

  /** `int(str(i)) == i`. */
  lemma ParseIntOfIntToString(i: int)
    ensures ParseInt(IntToString(i)) == Some(i)
  {
    if i < 0 {
      var r := IntToString(i);
      assert r[1..] == NatToString(-i);
    }
  }

  // ---------------------------------------------------------------------------
  // Whitespace tokens: `str.split()` with no separator

  /** `str.isspace()` for one character. */
  predicate IsSpace(c: char) {
    c == ' ' || c == '\t' || c == '\n' || c == '\r' || c == '\U{0B}' || c == '\U{0C}'
    || ('\U{1C}' <= c <= '\U{1F}') || c == '\U{85}' || c == '\U{A0}' || c == '\U{1680}'
    || ('\U{2000}' <= c <= '\U{200A}') || c == '\U{2028}' || c == '\U{2029}'
    || c == '\U{202F}' || c == '\U{205F}' || c == '\U{3000}'
  }

  predicate NoSpace(w: string) {
    forall i :: 0 <= i < |w| ==> !IsSpace(w[i])
  }

  /** Length of the run of non-space characters at the front of `s`. */
  function WordLen(s: string): (n: nat)
    ensures n <= |s| && NoSpace(s[..n])
    ensures n < |s| ==> IsSpace(s[n])
    decreases |s|
  {
    if s == [] || IsSpace(s[0]) then 0
    else
      var n := 1 + WordLen(s[1..]);
      assert s[..n] == [s[0]] + s[1..][..n - 1];
      n
  }

  /** `s.split()`: the maximal runs of non-space characters, in order. */
  function Split(s: string): (r: seq<string>)
    ensures forall i :: 0 <= i < |r| ==> r[i] != [] && NoSpace(r[i])
    decreases |s|
  {
    if s == [] then []
    else if IsSpace(s[0]) then Split(s[1..])
    else
      var n := WordLen(s);
      [s[..n]] + Split(s[n..])
  }

  lemma {:induction false} WordLenOf(w: string, rest: string)
    requires NoSpace(w) && (rest == [] || IsSpace(rest[0]))
    ensures WordLen(w + rest) == |w|
    decreases |w|
  {
    if w != [] {
      assert (w + rest)[1..] == w[1..] + rest;
      WordLenOf(w[1..], rest);
    }
  }

  lemma SplitWord(w: string, rest: string)
    requires w != [] && NoSpace(w) && (rest == [] || IsSpace(rest[0]))
    ensures Split(w + rest) == [w] + Split(rest)
  {
    WordLenOf(w, rest);
    assert (w + rest)[..|w|] == w;
    assert (w + rest)[|w|..] == rest;
  }

  lemma SplitSpace(c: char, rest: string)
    requires IsSpace(c)
    ensures Split([c] + rest) == Split(rest)
  {
    assert ([c] + rest)[1..] == rest;
  }

  // ---------------------------------------------------------------------------
  // Joining and splitting on a separator

  /** `sep.join(parts)` */
  function JoinWith(parts: seq<string>, sep: string): string
    decreases |parts|
  {
    if parts == [] then ""
    else if |parts| == 1 then parts[0]
    else parts[0] + sep + JoinWith(parts[1..], sep)
  }

  /** `" ".join(words).split() == words` when every word is a non-empty run
      of non-space characters. */
  lemma {:induction false} SplitJoinSpace(words: seq<string>)
    requires forall i :: 0 <= i < |words| ==> words[i] != [] && NoSpace(words[i])
    ensures Split(JoinWith(words, " ")) == words
    decreases |words|
  {
    if |words| == 1 {
      SplitWord(words[0], "");
      assert words[0] + "" == words[0];
    } else if |words| > 1 {
      var rest := JoinWith(words[1..], " ");
      SplitJoinSpace(words[1..]);
      SplitWord(words[0], " " + rest);
      SplitSpace(' ', rest);
      assert words[0] + " " + rest == words[0] + (" " + rest);
    }
  }

  /** `s.split(c)` for a one-character separator: the pieces between
      occurrences of `c`, empty pieces included. */
  function SplitOn(s: string, c: char): (r: seq<string>)
    ensures |r| >= 1
    ensures forall i :: 0 <= i < |r| ==> c !in r[i]
    decreases |s|
  {
    if s == [] then [""]
    else
      var rest := SplitOn(s[1..], c);
      if s[0] == c then [""] + rest
      else [[s[0]] + rest[0]] + rest[1..]
  }

  lemma {:induction false} JoinSplitOn(s: string, c: char)
    ensures JoinWith(SplitOn(s, c), [c]) == s
    decreases |s|
  {
    if s != [] {
      var rest := SplitOn(s[1..], c);
      JoinSplitOn(s[1..], c);
      if s[0] == c {
        assert SplitOn(s, c)[1..] == rest;
      } else {
        var r := SplitOn(s, c);
        assert r[1..] == rest[1..];
        if |rest| > 1 {
          assert rest == [rest[0]] + rest[1..];
          assert JoinWith(rest, [c]) == rest[0] + [c] + JoinWith(rest[1..], [c]);
        }
      }
    }
  }

  lemma {:induction false} SplitOnPiece(p: string, c: char, tail: string)
    requires c !in p
    ensures SplitOn(p + [c] + tail, c) == [p] + SplitOn(tail, c)
    decreases |p|
  {
    if p == [] {
      assert p + [c] + tail == [c] + tail;
      assert ([c] + tail)[1..] == tail;
    } else {
      var s := p + [c] + tail;
      assert s[1..] == p[1..] + [c] + tail;
      assert c !in p[1..] by { assert forall x :: x in p[1..] ==> x in p; }
      SplitOnPiece(p[1..], c, tail);
      assert [p[0]] + p[1..] == p;
    }
  }

  lemma {:induction false} SplitOnNoSep(p: string, c: char)
    requires c !in p
    ensures SplitOn(p, c) == [p]
    decreases |p|
  {
    if p != [] {
      assert c !in p[1..] by { assert forall x :: x in p[1..] ==> x in p; }
      SplitOnNoSep(p[1..], c);
      assert [p[0]] + p[1..] == p;
    }
  }

  /** Splitting a join recovers the parts when no part contains the separator. */
  lemma {:induction false} SplitOnJoin(parts: seq<string>, c: char)
    requires |parts| >= 1
    requires forall i :: 0 <= i < |parts| ==> c !in parts[i]
    ensures SplitOn(JoinWith(parts, [c]), c) == parts
    decreases |parts|
  {
    if |parts| == 1 {
      SplitOnNoSep(parts[0], c);
    } else {
      SplitOnJoin(parts[1..], c);
      SplitOnPiece(parts[0], c, JoinWith(parts[1..], [c]));
      assert [parts[0]] + parts[1..] == parts;
    }
  }

  // ---------------------------------------------------------------------------
  // Lines: `str.splitlines()`

  /** The characters `str.splitlines()` breaks at. */
  predicate IsLineBreak(c: char) {
    c == '\n' || c == '\r' || c == '\U{0B}' || c == '\U{0C}' || c == '\U{1C}' || c == '\U{1D}'
    || c == '\U{1E}' || c == '\U{85}' || c == '\U{2028}' || c == '\U{2029}'
  }

  predicate NoBreak(l: string) {
    forall i :: 0 <= i < |l| ==> !IsLineBreak(l[i])
  }

  function LineLen(s: string): (n: nat)
    ensures n <= |s| && NoBreak(s[..n])
    ensures n < |s| ==> IsLineBreak(s[n])
    decreases |s|
  {
    if s == [] || IsLineBreak(s[0]) then 0
    else
      var n := 1 + LineLen(s[1..]);
      assert s[..n] == [s[0]] + s[1..][..n - 1];
      n
  }

  /** `s.splitlines()`: "\r\n" is one break, and a break at the very end does
      not start an empty last line. */
  function SplitLines(s: string): (r: seq<string>)
    ensures forall i :: 0 <= i < |r| ==> NoBreak(r[i])
    ensures s == [] <==> r == []
    decreases |s|
  {
    if s == [] then []
    else
      var n := LineLen(s);
      if n == |s| then [s]
      else
        var skip := if s[n] == '\r' && n + 1 < |s| && s[n + 1] == '\n' then 2 else 1;
        [s[..n]] + SplitLines(s[n + skip..])
  }

  /** Each line followed by "\n". */
  function Terminated(lines: seq<string>): string
    decreases |lines|
  {
    if lines == [] then "" else lines[0] + "\n" + Terminated(lines[1..])
  }

  lemma {:induction false} LineLenOf(l: string, rest: string)
    requires NoBreak(l) && rest != [] && IsLineBreak(rest[0])
    ensures LineLen(l + rest) == |l|
    decreases |l|
  {
    if l == [] {
      assert l + rest == rest;
    } else {
      assert (l + rest)[0] == l[0] && !IsLineBreak(l[0]);
      assert (l + rest)[1..] == l[1..] + rest;
      assert NoBreak(l[1..]) by {
        forall i | 0 <= i < |l[1..]| ensures !IsLineBreak(l[1..][i]) {
          assert l[1..][i] == l[i + 1];
        }
      }
      LineLenOf(l[1..], rest);
    }
  }

  /** `splitlines` undoes writing each line with a trailing newline. */
  lemma {:induction false} SplitLinesTerminated(lines: seq<string>)
    requires forall i :: 0 <= i < |lines| ==> NoBreak(lines[i])
    ensures SplitLines(Terminated(lines)) == lines
    decreases |lines|
  {
    if lines != [] {
      var l, tail := lines[0], Terminated(lines[1..]);
      var s := l + "\n" + tail;
      LineLenOf(l, "\n" + tail);
      assert s == l + ("\n" + tail);
      assert s[..|l|] == l;
      assert s[|l|] == '\n';
      assert s[|l| + 1..] == tail;
      SplitLinesTerminated(lines[1..]);
    }
  }

  // ---------------------------------------------------------------------------
  // `s.replace(pat, repl)`

  /** Every occurrence of `pat`, scanning left to right without overlaps, is
      replaced by `repl`; an empty `pat` inserts `repl` around every character. */
  function Replace(s: string, pat: string, repl: string): (r: string)
    ensures pat != [] && !Contains(s, pat) ==> r == s
    decreases |s|
  {
    if pat == [] then (if s == [] then repl else repl + [s[0]] + Replace(s[1..], pat, repl))
    else if StartsWith(s, pat) then repl + Replace(s[|pat|..], pat, repl)
    else if s == [] then []
    else [s[0]] + Replace(s[1..], pat, repl)
  }

  /** Replacing a one-character pattern distributes over concatenation. */
  lemma {:induction false} ReplaceCharAppend(s: string, t: string, c: char, repl: string)
    ensures Replace(s + t, [c], repl) == Replace(s, [c], repl) + Replace(t, [c], repl)
    decreases |s|
  {
    if s == [] {
      assert s + t == t;
    } else {
      assert (s + t)[1..] == s[1..] + t;
      assert StartsWith(s + t, [c]) <==> StartsWith(s, [c]);
      ReplaceCharAppend(s[1..], t, c, repl);
    }
  }

  /** Replacing a character that does not occur changes nothing. */
  lemma ReplaceCharAbsent(s: string, c: char, repl: string)
    requires c !in s
    ensures Replace(s, [c], repl) == s
  {
    NotContainsWithout(s, [c]);
  }
}
