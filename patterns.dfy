/** The fixed regular expressions of the scraper, hand-coded over character
    classes. `\d` is read as an ASCII digit. Each pattern's quantifiers are
    followed by a literal that is never a digit, so the greedy match with
    backtracking is the maximal digit run; the functions below take that run. */
module Patterns {
  import opened Outcome
  import opened PyStr

  function Min(a: nat, b: nat): nat {
    if a <= b then a else b
  }

  /** Length of the run of ASCII digits starting at index `i`. */
  function DigitRun(s: string, i: nat): (n: nat)
    requires i <= |s|
    ensures i + n <= |s|
    ensures forall k :: i <= k < i + n ==> IsDigit(s[k])
    ensures i + n < |s| ==> !IsDigit(s[i + n])
    decreases |s| - i
  {
    if i == |s| || !IsDigit(s[i]) then 0 else 1 + DigitRun(s, i + 1)
  }

  /** One `\d{1,w}` followed by the separator `sep`, starting at `i`: the index
      after the separator. */
  function OctetThen(l: string, i: nat, w: nat, sep: char): (r: Option<nat>)
    requires i <= |l|
    ensures r.Some? ==> i + 2 <= r.value <= |l|
  {
    var n := DigitRun(l, i);
    if 1 <= n <= w && i + n < |l| && l[i + n] == sep then Some(i + n + 1) else None
  }

  /** `re.match(r'\d{1,w}\.\d{1,w}\.\d{1,w}\.\d{1,w}/\d{1,m}', l)`: the end of
      the matched text, or None. */
  function CidrMatch(l: string, w: nat, m: nat): (r: Option<nat>)
    ensures r.Some? ==> 0 < r.value <= |l| && IsDigit(l[0])
  {
    match OctetThen(l, 0, w, '.')
    case None => None
    case Some(i1) =>
      match OctetThen(l, i1, w, '.')
      case None => None
      case Some(i2) =>
        match OctetThen(l, i2, w, '.')
        case None => None
        case Some(i3) =>
          match OctetThen(l, i3, w, '/')
          case None => None
          case Some(i4) =>
            var n := DigitRun(l, i4);
            if 1 <= n && 1 <= m then Some(i4 + Min(n, m)) else None
  }

  /** The path-record marker `^\d{1,4}\.\d{1,4}\.\d{1,4}\.\d{1,4}\/\d{1,2}`. */
  predicate IsPathMarker(l: string) {
    CidrMatch(l, 4, 2).Some?
  }

  // ---------------------------------------------------------------------------
  // `(\d*) imported, (\d*) filtered, (\d*) exported, (\d*) preferred`

  /** `(\d*)` followed by the literal `lit`, starting at `i`: the digits and the
      index after the literal. */
  function DigitsThen(l: string, i: nat, lit: string): (r: Option<(string, nat)>)
    requires i <= |l|
    ensures r.Some? ==> AllDigits(r.value.0) && r.value.1 <= |l|
  {
    var j := i + DigitRun(l, i);
    if OccursAt(l, lit, j) then Some((l[i..j], j + |lit|)) else None
  }

  /** The four groups of a match starting exactly at `i`. */
  function CountersAt(l: string, i: nat): (r: Option<seq<string>>)
    requires i <= |l|
    ensures r.Some? ==> |r.value| == 4 && forall k :: 0 <= k < 4 ==> AllDigits(r.value[k])
  {
    match DigitsThen(l, i, " imported, ")
    case None => None
    case Some((g1, k1)) =>
      match DigitsThen(l, k1, " filtered, ")
      case None => None
      case Some((g2, k2)) =>
        match DigitsThen(l, k2, " exported, ")
        case None => None
        case Some((g3, k3)) =>
          match DigitsThen(l, k3, " preferred")
          case None => None
          case Some((g4, _)) => Some([g1, g2, g3, g4])
  }

  /** `re.search` from index `i` on: where the leftmost match starts. */
  function SearchCounters(l: string, i: nat): (r: Option<nat>)
    requires i <= |l|
    ensures r.Some? ==> i <= r.value <= |l| && CountersAt(l, r.value).Some?
    ensures r.Some? ==> forall j :: i <= j < r.value ==> CountersAt(l, j).None?
    ensures r.None? ==> forall j :: i <= j <= |l| ==> CountersAt(l, j).None?
    decreases |l| - i
  {
    if CountersAt(l, i).Some? then Some(i)
    else if i == |l| then None
    else SearchCounters(l, i + 1)
  }

  // ---------------------------------------------------------------------------
  // `(\(\d{1,8}\,\d{1,8}\))` and `(\d{2,10})`, both with `findall`

  /** A match of `\(\d{1,8},\d{1,8}\)` starting at `i`: the index after it. */
  function CommunityAt(l: string, i: nat): (r: Option<nat>)
    requires i <= |l|
    ensures r.Some? ==> i + 5 <= r.value <= |l|
  {
    if i < |l| && l[i] == '(' then
      var a := DigitRun(l, i + 1);
      if 1 <= a <= 8 && i + 1 + a < |l| && l[i + 1 + a] == ',' then
        var b := DigitRun(l, i + 2 + a);
        if 1 <= b <= 8 && i + 2 + a + b < |l| && l[i + 2 + a + b] == ')' then Some(i + 3 + a + b)
        else None
      else None
    else None
  }

  /** "(a,b)" with `a` and `b` runs of one to eight digits. */
  predicate CommunityToken(g: string) {
    |g| >= 5 && g[0] == '(' && g[|g| - 1] == ')' &&
    exists k :: 2 <= k <= |g| - 3 && g[k] == ',' && 1 <= k - 1 <= 8 && 1 <= |g| - 2 - k <= 8 &&
      AllDigits(g[1..k]) && AllDigits(g[k + 1..|g| - 1])
  }

  /** The text a community match spans is a community token. */
  lemma CommunityAtToken(l: string, i: nat)
    requires i <= |l| && CommunityAt(l, i).Some?
    ensures CommunityToken(l[i..CommunityAt(l, i).value])
  {
    var e := CommunityAt(l, i).value;
    var g := l[i..e];
    var a := DigitRun(l, i + 1);
    var b := DigitRun(l, i + 2 + a);
    assert e == i + 3 + a + b;
    assert g[0] == '(' && g[|g| - 1] == ')' && g[a + 1] == ',';
    var ga, gb := g[1..a + 1], g[a + 2..|g| - 1];
    forall j | 0 <= j < |ga| ensures IsDigit(ga[j]) {
      assert ga[j] == l[i + 1 + j];
    }
    forall j | 0 <= j < |gb| ensures IsDigit(gb[j]) {
      assert gb[j] == l[i + 2 + a + j];
    }
    assert AllDigits(ga) && AllDigits(gb);
  }

  /** `findall` of the community pattern from index `i`: the matched texts, left
      to right, without overlaps. */
  function CommunityGroups(l: string, i: nat): (r: seq<string>)
    requires i <= |l|
    ensures forall k :: 0 <= k < |r| ==> CommunityToken(r[k])
    decreases |l| - i
  {
    if i == |l| then []
    else
      match CommunityAt(l, i)
      case Some(e) =>
        CommunityAtToken(l, i);
        [l[i..e]] + CommunityGroups(l, e)
      case None => CommunityGroups(l, i + 1)
  }

  /** `findall` of `\d{2,10}` from index `i`: digit runs of two or more,
      cut into pieces of at most ten. */
  function AsPathGroups(l: string, i: nat): (r: seq<string>)
    requires i <= |l|
    ensures forall k :: 0 <= k < |r| ==> 2 <= |r[k]| <= 10 && AllDigits(r[k])
    decreases |l| - i
  {
    if i == |l| then []
    else
      var n := DigitRun(l, i);
      if n >= 2 then
        var e := i + Min(n, 10);
        [l[i..e]] + AsPathGroups(l, e)
      else AsPathGroups(l, i + 1)
  }
}
