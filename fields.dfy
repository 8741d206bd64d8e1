/** Reading fields out of a record: `_extract_word` and `_extract_by_re`
    (token `pos` of the last matching line) and
    `Peer._parse_processed_routes_count` (the counters of the first line that
    carries them). */
module Fields {
  import opened Outcome
  import opened PyStr
  import opened Patterns

  // ---------------------------------------------------------------------------
  // Last matching line wins

  /** The line test of `_extract_word`: `name in l`. */
  function HasLabel(name: string): string -> bool {
    l => Contains(l, name)
  }

  /** The extraction loop over `lines`, read left to right: `Ok(None)` while
      no line matched, the latest match's token otherwise, and `IndexError`
      from the first matching line with too few tokens on. */
  function Extract(matches: string -> bool, lines: seq<string>, pos: nat): Result<Option<string>>
    decreases |lines|
  {
    if lines == [] then Ok(None)
    else
      var prev := Extract(matches, lines[..|lines| - 1], pos);
      var l := lines[|lines| - 1];
      if prev.Err? || !matches(l) then prev
      else if pos < |Split(l)| then Ok(Some(Split(l)[pos]))
      else Err(IndexError)
  }

  /** A matching line that has no token at `pos`. */
  predicate TooShort(matches: string -> bool, l: string, pos: nat) {
    matches(l) && |Split(l)| <= pos
  }

  /** `k` is the last index of a matching line. */
  predicate LastMatchAt(matches: string -> bool, lines: seq<string>, k: nat) {
    k < |lines| && matches(lines[k]) && forall j :: k < j < |lines| ==> !matches(lines[j])
  }

  /** The extraction raises exactly when some matching line is too short. */
  lemma {:induction false} ExtractRaises(matches: string -> bool, lines: seq<string>, pos: nat)
    ensures Extract(matches, lines, pos).Err? <==> exists k :: 0 <= k < |lines| && TooShort(matches, lines[k], pos)
    ensures Extract(matches, lines, pos).Err? ==> Extract(matches, lines, pos) == Err(IndexError)
    decreases |lines|
  {
    if lines != [] {
      var init := lines[..|lines| - 1];
      ExtractRaises(matches, init, pos);
      assert forall k :: 0 <= k < |init| ==> init[k] == lines[k];
      if Extract(matches, init, pos).Err? {
        var k :| 0 <= k < |init| && TooShort(matches, init[k], pos);
        assert TooShort(matches, lines[k], pos);
      }
    }
  }

  /** No line matches: the field is None. */
  lemma {:induction false} ExtractNone(matches: string -> bool, lines: seq<string>, pos: nat)
    ensures Extract(matches, lines, pos) == Ok(None) <==> forall k :: 0 <= k < |lines| ==> !matches(lines[k])
    decreases |lines|
  {
    if lines != [] {
      var init := lines[..|lines| - 1];
      ExtractNone(matches, init, pos);
      assert forall k :: 0 <= k < |init| ==> init[k] == lines[k];
      if Extract(matches, init, pos).Err? {
        ExtractRaises(matches, init, pos);
        var k :| 0 <= k < |init| && TooShort(matches, init[k], pos);
        assert matches(lines[k]);
      }
    }
  }

  /** When no matching line is too short, the field is token `pos` of the
      last matching line. */
  lemma {:induction false} ExtractLast(matches: string -> bool, lines: seq<string>, pos: nat, k: nat)
    requires LastMatchAt(matches, lines, k)
    requires forall j :: 0 <= j < |lines| ==> !TooShort(matches, lines[j], pos)
    ensures pos < |Split(lines[k])|
    ensures Extract(matches, lines, pos) == Ok(Some(Split(lines[k])[pos]))
    decreases |lines|
  {
    assert !TooShort(matches, lines[k], pos);
    var init := lines[..|lines| - 1];
    assert forall j :: 0 <= j < |init| ==> init[j] == lines[j];
    ExtractRaises(matches, init, pos);
    if k < |lines| - 1 {
      assert LastMatchAt(matches, init, k);
      ExtractLast(matches, init, pos, k);
    }
  }

  /** `_extract_word(pattern, position)` / `_extract_by_re(pattern, position)`
      with the line test `matches`. */
  method ExtractToken(matches: string -> bool, lines: seq<string>, pos: nat) returns (r: Result<Option<string>>)
    ensures r == Extract(matches, lines, pos)
  {
    var word: Option<string> := None;
    for i := 0 to |lines|
      invariant Extract(matches, lines[..i], pos) == Ok(word)
    {
      var l := lines[i];
      assert lines[..i + 1][..i] == lines[..i];
      if matches(l) {
        var parts := Split(l);
        if pos >= |parts| {
          ExtractErrSticky(matches, lines, i + 1, pos);
          return Err(IndexError);
        }
        word := Some(parts[pos]);
      }
    }
    assert lines[..|lines|] == lines;
    return Ok(word);
  }

  /** Once raised, the error stands for every longer prefix. */
  lemma {:induction false} ExtractErrSticky(matches: string -> bool, lines: seq<string>, i: nat, pos: nat)
    requires i <= |lines| && Extract(matches, lines[..i], pos).Err?
    ensures Extract(matches, lines, pos) == Extract(matches, lines[..i], pos)
    decreases |lines| - i
  {
    if i < |lines| {
      assert lines[..i + 1][..i] == lines[..i];
      ExtractErrSticky(matches, lines, i + 1, pos);
    } else {
      assert lines[..i] == lines;
    }
  }

  /** `_extract_by_re` with the path-record pattern at position 0 never
      raises: a matching line starts with a digit, so it has a first token. */
  lemma PathTokenNeverRaises(lines: seq<string>)
    ensures Extract(IsPathMarker, lines, 0).Ok?
  {
    forall k | 0 <= k < |lines| ensures !TooShort(IsPathMarker, lines[k], 0) {
      if IsPathMarker(lines[k]) {
        SplitStartsWithWord(lines[k]);
      }
    }
    ExtractRaises(IsPathMarker, lines, 0);
  }

  /** A string that starts with a non-space character has a first token. */
  lemma SplitStartsWithWord(s: string)
    requires s != [] && !IsSpace(s[0])
    ensures Split(s) != []
  {
  }

  // ---------------------------------------------------------------------------
  // First counters line wins

  datatype RouteCounts = RouteCounts(imported: int, filtered: int, exported: int, preferred: int)

  /** `int(g)` for a captured `(\d*)` group: an empty group raises. */
  function GroupValue(g: string): (r: Result<int>)
    requires AllDigits(g)
    ensures r.Err? <==> g == []
    ensures r.Err? ==> r.error == ValueError
    ensures r.Ok? ==> r.value == DigitsValue(g)
  {
    match ParseInt(g)
    case Some(n) => Ok(n)
    case None => Err(ValueError)
  }

  /** The four converted groups of a counters match. */
  function CountsOf(groups: seq<string>): (r: Result<RouteCounts>)
    requires |groups| == 4 && forall k :: 0 <= k < 4 ==> AllDigits(groups[k])
  {
    var a :- GroupValue(groups[0]);
    var b :- GroupValue(groups[1]);
    var c :- GroupValue(groups[2]);
    var d :- GroupValue(groups[3]);
    Ok(RouteCounts(a, b, c, d))
  }

  /** A counters line converts iff none of its groups is empty, and then the
      counts are the groups' decimal values, in order. */
  lemma CountsOfIff(groups: seq<string>)
    requires |groups| == 4 && forall k :: 0 <= k < 4 ==> AllDigits(groups[k])
    ensures CountsOf(groups).Ok? <==> forall k :: 0 <= k < 4 ==> groups[k] != []
    ensures CountsOf(groups).Err? ==> CountsOf(groups).error == ValueError
    ensures CountsOf(groups).Ok? ==>
      CountsOf(groups).value ==
        RouteCounts(DigitsValue(groups[0]), DigitsValue(groups[1]), DigitsValue(groups[2]), DigitsValue(groups[3]))
  {
    assert forall k :: 0 <= k < 4 ==> (GroupValue(groups[k]).Err? <==> groups[k] == []);
  }

  /** Whether a line carries the counters somewhere. */
  predicate HasCounters(l: string) {
    SearchCounters(l, 0).Some?
  }

  /** The groups of the leftmost counters match of a line. */
  function CounterGroups(l: string): (g: seq<string>)
    requires HasCounters(l)
    ensures |g| == 4 && forall k :: 0 <= k < 4 ==> AllDigits(g[k])
  {
    CountersAt(l, SearchCounters(l, 0).value).value
  }

  /** `_parse_processed_routes_count` on the record `lines`. */
  function ProcessedRoutes(lines: seq<string>): Result<RouteCounts>
    decreases |lines|
  {
    if lines == [] then Ok(RouteCounts(0, 0, 0, 0))
    else if HasCounters(lines[0]) then CountsOf(CounterGroups(lines[0]))
    else ProcessedRoutes(lines[1..])
  }

  /** The counts come from the first line that carries counters. */
  lemma {:induction false} ProcessedRoutesFirst(lines: seq<string>, k: nat)
    requires k < |lines| && HasCounters(lines[k])
    requires forall j :: 0 <= j < k ==> !HasCounters(lines[j])
    ensures ProcessedRoutes(lines) == CountsOf(CounterGroups(lines[k]))
    decreases k
  {
    if k > 0 {
      assert forall j :: 0 <= j < k - 1 ==> lines[1..][j] == lines[j + 1];
      ProcessedRoutesFirst(lines[1..], k - 1);
    }
  }

  /** With no counters line the counts default to zero. */
  lemma {:induction false} ProcessedRoutesDefault(lines: seq<string>)
    requires forall j :: 0 <= j < |lines| ==> !HasCounters(lines[j])
    ensures ProcessedRoutes(lines) == Ok(RouteCounts(0, 0, 0, 0))
    decreases |lines|
  {
    if lines != [] {
      assert forall j :: 0 <= j < |lines| - 1 ==> lines[1..][j] == lines[j + 1];
      ProcessedRoutesDefault(lines[1..]);
    }
  }

  /** The counters loop, returning at the first line that matches. */
  method ParseProcessedRoutes(lines: seq<string>) returns (r: Result<RouteCounts>)
    ensures r == ProcessedRoutes(lines)
  {
    for i := 0 to |lines|
      invariant ProcessedRoutes(lines) == ProcessedRoutes(lines[i..])
    {
      assert lines[i..][1..] == lines[i + 1..];
      if SearchCounters(lines[i], 0).Some? {
        var groups := CounterGroups(lines[i]);
        var a := GroupValue(groups[0]);
        if a.Err? { return Err(ValueError); }
        var b := GroupValue(groups[1]);
        if b.Err? { return Err(ValueError); }
        var c := GroupValue(groups[2]);
        if c.Err? { return Err(ValueError); }
        var d := GroupValue(groups[3]);
        if d.Err? { return Err(ValueError); }
        return Ok(RouteCounts(a.value, b.value, c.value, d.value));
      }
    }
    return Ok(RouteCounts(0, 0, 0, 0));
  }
}
