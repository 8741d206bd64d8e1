/** One path of a `show route … all` dump: `Prefix(dump, ip_version)` and its
    `_parse_dump`, `_parse_communities`, `_parse_as_path` and
    `_parse_preferred`. */
module Prefixes {
  import opened Outcome
  import opened PyStr
  import opened Patterns
  import opened Fields
  import opened Communities

  datatype Prefix = Prefix(
    prefix: Option<string>,
    nextHop: Option<string>,
    localPref: Option<string>,
    asPath: seq<string>,
    communities: seq<Community>,
    preferred: bool,
    origin: Option<string>,
    ipVersion: int,
    filtered: bool)

  /** The per-line contributions of `lines`, concatenated in line order. */
  function Gather(f: string -> seq<string>, lines: seq<string>): seq<string>
    decreases |lines|
  {
    if lines == [] then [] else Gather(f, lines[..|lines| - 1]) + f(lines[|lines| - 1])
  }

  /** Gathering a concatenation gathers each part, in order. */
  lemma {:induction false} GatherAppend(f: string -> seq<string>, a: seq<string>, b: seq<string>)
    ensures Gather(f, a + b) == Gather(f, a) + Gather(f, b)
    decreases |b|
  {
    if b == [] {
      assert a + b == a;
    } else {
      var b' := b[..|b| - 1];
      assert (a + b)[..|a + b| - 1] == a + b';
      GatherAppend(f, a, b');
    }
  }

  // ---------------------------------------------------------------------------
  // Communities

  /** A matched "(a,b)" with its parentheses removed. */
  function CommunityData(g: string): string {
    Replace(Replace(g, "(", ""), ")", "")
  }

  /** Digits are none of the punctuation of a community token. */
  lemma DigitsNoPunct(a: string)
    requires AllDigits(a)
    ensures '(' !in a && ')' !in a && ',' !in a
  {
    assert forall i :: 0 <= i < |a| ==> IsDigit(a[i]);
  }

  lemma StripOpen(u: string)
    requires '(' !in u
    ensures Replace("(" + u, "(", "") == u
  {
    ReplaceCharAppend("(", u, '(', "");
    ReplaceCharAbsent(u, '(', "");
  }

  lemma StripClose(u: string)
    requires ')' !in u
    ensures Replace(u + ")", ")", "") == u
  {
    ReplaceCharAppend(u, ")", ')', "");
    ReplaceCharAbsent(u, ')', "");
  }

  lemma StripToken(a: string, b: string)
    requires AllDigits(a) && AllDigits(b)
    ensures CommunityData("(" + a + "," + b + ")") == a + "," + b
  {
    DigitsNoPunct(a);
    DigitsNoPunct(b);
    var inner := a + "," + b;
    assert "(" + a + "," + b + ")" == "(" + (inner + ")");
    assert '(' !in inner + ")";
    StripOpen(inner + ")");
    assert ')' !in inner;
    StripClose(inner);
  }

  lemma WellFormedPair(a: string, b: string)
    requires a != [] && AllDigits(a) && b != [] && AllDigits(b)
    ensures WellFormedData(a + "," + b)
  {
    DigitsNoPunct(a);
    DigitsNoPunct(b);
    SplitOnJoin([a, b], ',');
    assert JoinWith([a, b], ",") == a + "," + b;
  }

  /** Stripping a matched community token leaves a well-formed "a,b". */
  lemma CommunityDataWellFormed(g: string)
    requires CommunityToken(g)
    ensures WellFormedData(CommunityData(g))
  {
    var k :| 2 <= k <= |g| - 3 && g[k] == ',' && 1 <= k - 1 <= 8 && 1 <= |g| - 2 - k <= 8 &&
      AllDigits(g[1..k]) && AllDigits(g[k + 1..|g| - 1]);
    var a, b := g[1..k], g[k + 1..|g| - 1];
    assert g == "(" + a + "," + b + ")";
    StripToken(a, b);
    WellFormedPair(a, b);
  }

  /** The stripped community tokens of `gs`, in order. */
  function StripAll(gs: seq<string>): (r: seq<string>)
    ensures |r| == |gs|
    decreases |gs|
  {
    if gs == [] then [] else StripAll(gs[..|gs| - 1]) + [CommunityData(gs[|gs| - 1])]
  }

  lemma {:induction false} StripAllAt(gs: seq<string>, k: nat)
    requires k < |gs|
    ensures StripAll(gs)[k] == CommunityData(gs[k])
    decreases |gs|
  {
    if k < |gs| - 1 {
      StripAllAt(gs[..|gs| - 1], k);
    }
  }

  /** The community strings one line contributes. */
  function LineCommunities(l: string): seq<string> {
    if Contains(l, "BGP.community") then StripAll(CommunityGroups(l, 0)) else []
  }

  /** Every collected community string is well formed. */
  lemma {:induction false} CommunityValuesWellFormed(lines: seq<string>)
    ensures forall k :: 0 <= k < |Gather(LineCommunities, lines)| ==> WellFormedData(Gather(LineCommunities, lines)[k])
    decreases |lines|
  {
    if lines != [] {
      var init := lines[..|lines| - 1];
      var l := lines[|lines| - 1];
      CommunityValuesWellFormed(init);
      if Contains(l, "BGP.community") {
        var gs := CommunityGroups(l, 0);
        forall k | 0 <= k < |gs| ensures WellFormedData(StripAll(gs)[k]) {
          StripAllAt(gs, k);
          CommunityDataWellFormed(gs[k]);
        }
      }
      var g := Gather(LineCommunities, lines);
      assert g == Gather(LineCommunities, init) + LineCommunities(l);
      forall k | 0 <= k < |g| ensures WellFormedData(g[k]) {
        if k >= |Gather(LineCommunities, init)| {
          assert g[k] == LineCommunities(l)[k - |Gather(LineCommunities, init)|];
        }
      }
    }
  }

  /** `[Community(x) for x in community_values]` on well-formed strings. */
  function ParseAll(values: seq<string>, cfg: Config): (r: seq<Community>)
    requires forall k :: 0 <= k < |values| ==> WellFormedData(values[k])
    ensures |r| == |values|
    ensures forall k :: 0 <= k < |values| ==> ParseCommunity(values[k], cfg) == Ok(r[k])
    decreases |values|
  {
    if values == [] then []
    else
      ParseCommunityIff(values[0], cfg);
      [ParseCommunity(values[0], cfg).value] + ParseAll(values[1..], cfg)
  }

  // `sorted(communities, key=lambda x: x.asn, reverse=True)`: a stable sort
  // by asn, largest first.

  function Insert(c: Community, s: seq<Community>): seq<Community>
    decreases |s|
  {
    if s == [] || s[0].asn <= c.asn then [c] + s else [s[0]] + Insert(c, s[1..])
  }

  function SortByAsn(cs: seq<Community>): seq<Community>
    decreases |cs|
  {
    if cs == [] then [] else Insert(cs[0], SortByAsn(cs[1..]))
  }

  predicate SortedByAsn(s: seq<Community>) {
    forall i, j :: 0 <= i < j < |s| ==> s[i].asn >= s[j].asn
  }

  /** The communities of `s` with a given asn, in order. */
  function WithAsn(asn: nat, s: seq<Community>): seq<Community>
    decreases |s|
  {
    if s == [] then [] else (if s[0].asn == asn then [s[0]] else []) + WithAsn(asn, s[1..])
  }

  lemma {:induction false} InsertPermutes(c: Community, s: seq<Community>)
    ensures multiset(Insert(c, s)) == multiset(s) + multiset{c}
    decreases |s|
  {
    if !(s == [] || s[0].asn <= c.asn) {
      InsertPermutes(c, s[1..]);
      assert s == [s[0]] + s[1..];
    }
  }

  lemma {:induction false} InsertSorted(c: Community, s: seq<Community>)
    requires SortedByAsn(s)
    ensures SortedByAsn(Insert(c, s))
    decreases |s|
  {
    if !(s == [] || s[0].asn <= c.asn) {
      var t := Insert(c, s[1..]);
      InsertSorted(c, s[1..]);
      InsertPermutes(c, s[1..]);
      forall j | 0 <= j < |t| ensures t[j].asn <= s[0].asn {
        assert t[j] in multiset(t);
        if t[j] != c {
          assert t[j] in multiset(s[1..]);
          var i :| 0 <= i < |s[1..]| && s[1..][i] == t[j];
          assert s[i + 1] == t[j];
        }
      }
      var r := [s[0]] + t;
      assert forall j :: 1 <= j < |r| ==> r[j] == t[j - 1];
    }
  }

  lemma {:induction false} InsertStable(c: Community, s: seq<Community>, a: nat)
    ensures WithAsn(a, Insert(c, s)) == (if c.asn == a then [c] else []) + WithAsn(a, s)
    decreases |s|
  {
    if s == [] || s[0].asn <= c.asn {
      assert ([c] + s)[1..] == s;
    } else {
      InsertStable(c, s[1..], a);
      assert ([s[0]] + Insert(c, s[1..]))[1..] == Insert(c, s[1..]);
    }
  }

  /** The sort is a permutation, ordered by asn, largest first. */
  lemma {:induction false} SortByAsnPermutes(cs: seq<Community>)
    ensures multiset(SortByAsn(cs)) == multiset(cs)
    ensures SortedByAsn(SortByAsn(cs))
    decreases |cs|
  {
    if cs != [] {
      SortByAsnPermutes(cs[1..]);
      InsertPermutes(cs[0], SortByAsn(cs[1..]));
      InsertSorted(cs[0], SortByAsn(cs[1..]));
      assert cs == [cs[0]] + cs[1..];
    }
  }

  /** The sort is stable: communities with equal asn keep their order. */
  lemma {:induction false} SortByAsnStable(cs: seq<Community>, a: nat)
    ensures WithAsn(a, SortByAsn(cs)) == WithAsn(a, cs)
    decreases |cs|
  {
    if cs != [] {
      SortByAsnStable(cs[1..], a);
      InsertStable(cs[0], SortByAsn(cs[1..]), a);
    }
  }

  /** `_parse_communities` */
  function CommunitiesOf(dump: seq<string>, cfg: Config): seq<Community> {
    CommunityValuesWellFormed(dump);
    SortByAsn(ParseAll(Gather(LineCommunities, dump), cfg))
  }

  /** The collection loop of `_parse_communities`. */
  method CollectCommunityValues(dump: seq<string>) returns (values: seq<string>)
    ensures values == Gather(LineCommunities, dump)
  {
    values := [];
    for i := 0 to |dump|
      invariant values == Gather(LineCommunities, dump[..i])
    {
      var l := dump[i];
      assert dump[..i + 1][..i] == dump[..i];
      if Contains(l, "BGP.community") {
        var groups := CommunityGroups(l, 0);
        ghost var before := values;
        for j := 0 to |groups|
          invariant values == before + StripAll(groups[..j])
        {
          assert groups[..j + 1][..j] == groups[..j];
          values := values + [CommunityData(groups[j])];
        }
        assert groups[..|groups|] == groups;
      }
    }
    assert dump[..|dump|] == dump;
  }

  // ---------------------------------------------------------------------------
  // AS path

  /** The AS numbers one line contributes. */
  function LineAsPath(l: string): seq<string> {
    if Contains(l, "BGP.as_path") then AsPathGroups(l, 0) else []
  }

  /** Every AS path element is a run of two to ten digits. */
  lemma {:induction false} AsPathDigits(lines: seq<string>)
    ensures forall k :: 0 <= k < |Gather(LineAsPath, lines)| ==>
      2 <= |Gather(LineAsPath, lines)[k]| <= 10 && AllDigits(Gather(LineAsPath, lines)[k])
    decreases |lines|
  {
    if lines != [] {
      var init := lines[..|lines| - 1];
      AsPathDigits(init);
      var g := Gather(LineAsPath, lines);
      var n := |Gather(LineAsPath, init)|;
      forall k | 0 <= k < |g| ensures 2 <= |g[k]| <= 10 && AllDigits(g[k]) {
        if k >= n {
          assert g[k] == LineAsPath(lines[|lines| - 1])[k - n];
        }
      }
    }
  }

  /** `_parse_as_path` */
  method ParseAsPath(dump: seq<string>) returns (asPath: seq<string>)
    ensures asPath == Gather(LineAsPath, dump)
  {
    asPath := [];
    for i := 0 to |dump|
      invariant asPath == Gather(LineAsPath, dump[..i])
    {
      var l := dump[i];
      assert dump[..i + 1][..i] == dump[..i];
      if Contains(l, "BGP.as_path") {
        var groups := AsPathGroups(l, 0);
        asPath := asPath + groups;
      }
    }
    assert dump[..|dump|] == dump;
  }

  // ---------------------------------------------------------------------------
  // Preferred flag

  predicate PreferredLine(l: string) {
    Contains(l, "unicast") && Contains(l, "*")
  }

  /** `_parse_preferred` */
  method ParsePreferred(dump: seq<string>) returns (preferred: bool)
    ensures preferred <==> exists k :: 0 <= k < |dump| && PreferredLine(dump[k])
  {
    for i := 0 to |dump|
      invariant forall k :: 0 <= k < i ==> !PreferredLine(dump[k])
    {
      if Contains(dump[i], "unicast") && Contains(dump[i], "*") {
        return true;
      }
    }
    return false;
  }

  // ---------------------------------------------------------------------------
  // The whole record

  /** `Prefix(dump, ip_version)`; only the token lookups can raise. */
  function PrefixOf(dump: seq<string>, ipVersion: int, cfg: Config): Result<Prefix> {
    var prefix :- Extract(IsPathMarker, dump, 0);
    var origin :- Extract(HasLabel("BGP.origin"), dump, 1);
    var nextHop :- Extract(HasLabel("BGP.next_hop"), dump, 1);
    var localPref :- Extract(HasLabel("BGP.local_pref"), dump, 1);
    Ok(Prefix(prefix, nextHop, localPref, Gather(LineAsPath, dump), CommunitiesOf(dump, cfg),
              exists k :: 0 <= k < |dump| && PreferredLine(dump[k]), origin, ipVersion, false))
  }

  /** What a parsed path record holds: a fresh record is not filtered; its
      communities are the collected ones, parsed and sorted by asn; its AS
      path is made of digit runs; and it fails only with IndexError. */
  lemma PrefixOfFacts(dump: seq<string>, ipVersion: int, cfg: Config)
    ensures PrefixOf(dump, ipVersion, cfg).Err? ==> PrefixOf(dump, ipVersion, cfg).error == IndexError
    ensures PrefixOf(dump, ipVersion, cfg).Ok? ==>
      var p := PrefixOf(dump, ipVersion, cfg).value;
      var values := Gather(LineCommunities, dump);
      && !p.filtered && p.ipVersion == ipVersion
      && SortedByAsn(p.communities)
      && multiset(p.communities) == multiset(ParseAll(values, cfg))
      && (forall a :: WithAsn(a, p.communities) == WithAsn(a, ParseAll(values, cfg)))
      && (forall k :: 0 <= k < |p.asPath| ==> 2 <= |p.asPath[k]| <= 10 && AllDigits(p.asPath[k]))
      && (p.preferred <==> exists k :: 0 <= k < |dump| && PreferredLine(dump[k]))
  {
    PathTokenNeverRaises(dump);
    ExtractRaises(HasLabel("BGP.origin"), dump, 1);
    ExtractRaises(HasLabel("BGP.next_hop"), dump, 1);
    ExtractRaises(HasLabel("BGP.local_pref"), dump, 1);
    CommunityValuesWellFormed(dump);
    var parsed := ParseAll(Gather(LineCommunities, dump), cfg);
    SortByAsnPermutes(parsed);
    forall a ensures WithAsn(a, SortByAsn(parsed)) == WithAsn(a, parsed) {
      SortByAsnStable(parsed, a);
    }
    AsPathDigits(dump);
  }

  /** The constructor, with its field loops. */
  method BuildPrefix(dump: seq<string>, ipVersion: int, cfg: Config) returns (r: Result<Prefix>)
    ensures r == PrefixOf(dump, ipVersion, cfg)
  {
    var prefix := ExtractToken(IsPathMarker, dump, 0);
    if prefix.Err? { return Err(prefix.error); }
    var origin := ExtractToken(HasLabel("BGP.origin"), dump, 1);
    if origin.Err? { return Err(origin.error); }
    var nextHop := ExtractToken(HasLabel("BGP.next_hop"), dump, 1);
    if nextHop.Err? { return Err(nextHop.error); }
    var localPref := ExtractToken(HasLabel("BGP.local_pref"), dump, 1);
    if localPref.Err? { return Err(localPref.error); }
    var values := CollectCommunityValues(dump);
    CommunityValuesWellFormed(dump);
    var communities := SortByAsn(ParseAll(values, cfg));
    var asPath := ParseAsPath(dump);
    var preferred := ParsePreferred(dump);
    return Ok(Prefix(prefix.value, nextHop.value, localPref.value, asPath, communities,
                     preferred, origin.value, ipVersion, false));
  }
}
