/** BGP communities: `Community(data)` parses an "asn,value" string and
    classifies it against the operator's tables (`config.LOCAL_AS` and the four
    `*_COMMUNITIES` dictionaries). */
module Communities {
  import opened Outcome
  import opened PyStr

  /** The operator's community tables. */
  datatype Config = Config(
    localAs: set<nat>,
    peering: map<nat, string>,
    service: map<nat, string>,
    city: map<nat, string>,
    prepend: map<nat, string>)

  /** The tables of the example configuration file. */
  function ExampleConfig(): Config {
    Config(
      {1234, 5678},
      map[1111 := "Annoying customers", 2222 := "Good guys"],
      map[9999 := "Blackhole", 9000 := "Peer"],
      map[4000 := "New York", 4001 := "Paris", 4002 := "Novosibirsk"],
      map[65501 := "One prepend", 65502 := "Prepend 2 times", 65503 := "Prepend 3 times"])
  }

  datatype Community = Community(asn: nat, value: nat, description: string)

  /** The target a "do not advertise" or prepend community names: a city,
      else a peering group, else the AS number itself. */
  function Target(value: nat, cfg: Config): string {
    if value in cfg.city then cfg.city[value]
    else if value in cfg.peering then cfg.peering[value]
    else "as" + NatToString(value)
  }

  /** `Community.parse_description`: the first branch whose test holds. */
  function Describe(asn: nat, value: nat, cfg: Config): string {
    if asn in cfg.localAs then
      if value in cfg.city then "Received in " + cfg.city[value]
      else if value in cfg.service then cfg.service[value]
      else if value in cfg.peering then cfg.peering[value]
      else ""
    else if asn == 0 then "Do not advertise to " + Target(value, cfg)
    else if asn in cfg.prepend then cfg.prepend[asn] + " to " + Target(value, cfg)
    else ""
  }

  /** `Community(data)`: exactly two comma-separated parts, each a non-empty
      run of decimal digits; anything else raises ValueError. */
  function ParseCommunity(data: string, cfg: Config): (r: Result<Community>)
    ensures r.Err? ==> r.error == ValueError
  {
    var parts := SplitOn(data, ',');
    if |parts| != 2 then Err(ValueError)
    else if !(parts[0] != [] && AllDigits(parts[0]) && parts[1] != [] && AllDigits(parts[1])) then Err(ValueError)
    else
      var asn := DigitsValue(parts[0]);
      var value := DigitsValue(parts[1]);
      Ok(Community(asn, value, Describe(asn, value, cfg)))
  }

  /** A well-formed community string: two non-empty digit runs around one comma. */
  predicate WellFormedData(data: string) {
    var parts := SplitOn(data, ',');
    |parts| == 2 && parts[0] != [] && AllDigits(parts[0]) && parts[1] != [] && AllDigits(parts[1])
  }

  /** Parsing succeeds exactly on well-formed strings, and then reads the two
      numbers and classifies them. */
  lemma ParseCommunityIff(data: string, cfg: Config)
    ensures ParseCommunity(data, cfg).Ok? <==> WellFormedData(data)
    ensures ParseCommunity(data, cfg).Ok? ==>
      var parts := SplitOn(data, ',');
      var c := ParseCommunity(data, cfg).value;
      data == parts[0] + "," + parts[1] &&
      c.asn == DigitsValue(parts[0]) && c.value == DigitsValue(parts[1]) &&
      c.description == Describe(c.asn, c.value, cfg)
  {
    var parts := SplitOn(data, ',');
    JoinSplitOn(data, ',');
    if |parts| == 2 {
      assert JoinWith(parts, ",") == parts[0] + "," + parts[1];
    }
  }

  /** `str(c)` */
  function CommunityString(c: Community): string {
    NatToString(c.asn) + "," + NatToString(c.value)
  }

  /** `Community(str(c))` recovers the asn and value, and classifies them. */
  lemma ParseCommunityString(c: Community, cfg: Config)
    ensures ParseCommunity(CommunityString(c), cfg) ==
      Ok(Community(c.asn, c.value, Describe(c.asn, c.value, cfg)))
  {
    var a, v := NatToString(c.asn), NatToString(c.value);
    assert ',' !in a && ',' !in v by {
      assert forall i :: 0 <= i < |a| ==> IsDigit(a[i]);
      assert forall i :: 0 <= i < |v| ==> IsDigit(v[i]);
    }
    SplitOnJoin([a, v], ',');
    assert JoinWith([a, v], ",") == CommunityString(c);
  }

  // ---------------------------------------------------------------------------
  // Properties of the classification

  /** A community of AS 0 always gets a "do not advertise" description. */
  lemma DescribeZero(value: nat, cfg: Config)
    requires 0 !in cfg.localAs
    ensures StartsWith(Describe(0, value, cfg), "Do not advertise to ")
    ensures Describe(0, value, cfg) != ""
  {
    var t := Target(value, cfg);
    var r := "Do not advertise to " + t;
    assert r[..|"Do not advertise to "|] == "Do not advertise to ";
  }

  /** Only a local, zero or prepend AS can get a description. */
  lemma DescribeUnknown(asn: nat, value: nat, cfg: Config)
    requires asn !in cfg.localAs && asn != 0 && asn !in cfg.prepend
    ensures Describe(asn, value, cfg) == ""
  {
  }

  /** For a local AS the value is looked up in the city, service and peering
      tables, in that order; the first hit gives the description. This
      branch is tried first, so an AS that is also 0 or a prepend AS is
      treated as local, and the prepend table plays no part. */
  lemma DescribeLocalFirst(asn: nat, value: nat, cfg: Config)
    requires asn in cfg.localAs
    ensures var r := Describe(asn, value, cfg);
      && (value in cfg.city ==> r == "Received in " + cfg.city[value])
      && (value !in cfg.city && value in cfg.service ==> r == cfg.service[value])
      && (value !in cfg.city && value !in cfg.service && value in cfg.peering ==> r == cfg.peering[value])
      && (value !in cfg.city && value !in cfg.service && value !in cfg.peering ==> r == "")
    ensures Describe(asn, value, cfg) == Describe(asn, value, cfg.(prepend := map[]))
  {
  }

  /** Which local AS carries the community does not change its description. */
  lemma DescribeLocalUniform(asn1: nat, asn2: nat, value: nat, cfg: Config)
    requires asn1 in cfg.localAs && asn2 in cfg.localAs
    ensures Describe(asn1, value, cfg) == Describe(asn2, value, cfg)
  {
  }

  /** A prepend community's description opens with its prepend label. */
  lemma DescribePrepend(asn: nat, value: nat, cfg: Config)
    requires asn !in cfg.localAs && asn != 0 && asn in cfg.prepend
    ensures StartsWith(Describe(asn, value, cfg), cfg.prepend[asn] + " to ")
  {
    var p := cfg.prepend[asn] + " to ";
    var r := Describe(asn, value, cfg);
    assert r == p + Target(value, cfg);
    assert r[..|p|] == p;
  }

  // ---------------------------------------------------------------------------
  // The example tables

  lemma ExampleDoNotAdvertise()
    ensures Describe(0, 4002, ExampleConfig()) == "Do not advertise to Novosibirsk"
  {
  }

  lemma ExampleBlackhole()
    ensures Describe(1234, 9999, ExampleConfig()) == "Blackhole"
  {
  }

  lemma ExampleReceived()
    ensures Describe(5678, 4001, ExampleConfig()) == "Received in Paris"
  {
  }

  lemma ExamplePrepend()
    ensures Describe(65502, 2222, ExampleConfig()) == "Prepend 2 times to Good guys"
  {
  }
}
