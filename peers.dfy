/** One BGP protocol of a `show protocols all` dump: `Peer(dump, ip_version)`
    and its `_parse_dump`. The header line gives the id, state, time and state
    details by token position; the other fields are labelled lines; the
    neighbour address must then be an IP address, whose integer is the peer's
    `value`. */
module Peers {
  import opened Outcome
  import opened PyStr
  import opened IpAddr
  import opened Patterns
  import opened Fields
  import opened Segmenter

  datatype Peer = Peer(
    ipVersion: int,
    peerId: string,
    state: string,
    bgpState: Option<string>,
    bgpStateDetails: string,
    lastEventTime: string,
    description: Option<string>,
    preference: Option<string>,
    importLimit: Option<string>,
    counts: RouteCounts,
    neighborAddress: Option<string>,
    neighborAs: Option<int>,
    sourceAddress: Option<string>,
    routeLimit: Option<string>,
    holdTimer: Option<string>,
    keepaliveTimer: Option<string>,
    value: nat)

  // ---------------------------------------------------------------------------
  // The header line

  /** `_parse_peer_id`: the protocol name with its family tag `peer{v}_`
      turned back into `peer_`. */
  function PeerIdOf(name: string, ipVersion: int): string {
    Replace(name, PeerTag(ipVersion), "peer_")
  }

  /** `_parse_state`: BIRD's `start` is shown as `down`. */
  function StateOf(token: string): string {
    if token == "start" then "down" else token
  }

  /** `_parse_last_event_time`: `" ".join(parts[4:6])`. */
  function LastEventTimeOf(parts: seq<string>): string {
    JoinWith(parts[Min(4, |parts|)..Min(6, |parts|)], " ")
  }

  /** `_parse_bgp_state_details`: `" ".join(parts[6:])`. */
  function StateDetailsOf(parts: seq<string>): string {
    JoinWith(parts[Min(6, |parts|)..], " ")
  }

  /** `_parse_neighbor_as`: a present token must be an integer. */
  function NeighborAsOf(token: Option<string>): Result<Option<int>> {
    match token
    case None => Ok(None)
    case Some(t) =>
      match ParseInt(t)
      case Some(n) => Ok(Some(n))
      case None => Err(ValueError)
  }

  // ---------------------------------------------------------------------------
  // The record

  /** Every field of `_parse_dump` before the address check, in the order it
      reads them; `value` is still unset (0). */
  function ParseFields(dump: seq<string>, ipVersion: int): Result<Peer> {
    if ipVersion != 4 && ipVersion != 6 then Err(ValueError)
    else if dump == [] then Err(IndexError)
    else
      var parts := Split(dump[0]);
      if |parts| < 1 then Err(IndexError)
      else
        var peerId := PeerIdOf(parts[0], ipVersion);
        if |parts| < 4 then Err(IndexError)
        else
          var state := StateOf(parts[3]);
          var bgpState :- Extract(HasLabel("BGP state"), dump, 2);
          var details := StateDetailsOf(parts);
          var lastEvent := LastEventTimeOf(parts);
          var description :- Extract(HasLabel("Description"), dump, 1);
          var preference :- Extract(HasLabel("Preference"), dump, 1);
          var importLimit :- Extract(HasLabel("Import limit"), dump, 2);
          var counts :- ProcessedRoutes(dump);
          var address :- Extract(HasLabel("Neighbor address"), dump, 2);
          var asToken :- Extract(HasLabel("Neighbor AS"), dump, 2);
          var neighborAs :- NeighborAsOf(asToken);
          var source :- Extract(HasLabel("Source address"), dump, 2);
          var routeLimit :- Extract(HasLabel("Route limit"), dump, 2);
          var hold :- Extract(HasLabel("Hold timer"), dump, 2);
          var keepalive :- Extract(HasLabel("Keepalive timer"), dump, 2);
          Ok(Peer(ipVersion, peerId, state, bgpState, details, lastEvent, description, preference,
                  importLimit, counts, address, neighborAs, source, routeLimit, hold, keepalive, 0))
  }

  /** `int(ip_address(self.neighbor_address))`, `ParsingError` when the
      address is missing or is not an address. */
  function AddressValue(address: Option<string>, v6: string -> Option<nat>): Result<nat> {
    match address
    case None => Err(ParsingError)
    case Some(a) =>
      match IpAddressValue(a, v6)
      case None => Err(ParsingError)
      case Some(n) => Ok(n)
  }

  /** `Peer(dump, ip_version)` */
  function PeerOf(dump: seq<string>, ipVersion: int, v6: string -> Option<nat>): Result<Peer> {
    var p :- ParseFields(dump, ipVersion);
    var n :- AddressValue(p.neighborAddress, v6);
    Ok(p.(value := n))
  }

  // ---------------------------------------------------------------------------
  // Properties

  /** The field reads fail only with ValueError (bad family, bad AS number,
      empty counter group) or IndexError (missing token). */
  lemma ParseFieldsErrors(dump: seq<string>, ipVersion: int)
    ensures ParseFields(dump, ipVersion).Err? ==>
      ParseFields(dump, ipVersion).error in {ValueError, IndexError}
    ensures ipVersion != 4 && ipVersion != 6 ==> ParseFields(dump, ipVersion) == Err(ValueError)
  {
    ExtractRaises(HasLabel("BGP state"), dump, 2);
    ExtractRaises(HasLabel("Description"), dump, 1);
    ExtractRaises(HasLabel("Preference"), dump, 1);
    ExtractRaises(HasLabel("Import limit"), dump, 2);
    ExtractRaises(HasLabel("Neighbor address"), dump, 2);
    ExtractRaises(HasLabel("Neighbor AS"), dump, 2);
    ExtractRaises(HasLabel("Source address"), dump, 2);
    ExtractRaises(HasLabel("Route limit"), dump, 2);
    ExtractRaises(HasLabel("Hold timer"), dump, 2);
    ExtractRaises(HasLabel("Keepalive timer"), dump, 2);
    if dump != [] {
      ProcessedRoutesError(dump);
    }
  }

  /** The counters fail only with ValueError. */
  lemma {:induction false} ProcessedRoutesError(lines: seq<string>)
    ensures ProcessedRoutes(lines).Err? ==> ProcessedRoutes(lines).error == ValueError
    decreases |lines|
  {
    if lines != [] {
      if HasCounters(lines[0]) {
        CountsOfIff(CounterGroups(lines[0]));
      } else {
        ProcessedRoutesError(lines[1..]);
      }
    }
  }

  /** A peer is dropped with ParsingError exactly when its fields read but its
      neighbour address is missing or is not an IP address. */
  lemma PeerOfParsingError(dump: seq<string>, ipVersion: int, v6: string -> Option<nat>)
    ensures PeerOf(dump, ipVersion, v6) == Err(ParsingError) <==>
      ParseFields(dump, ipVersion).Ok? &&
      var a := ParseFields(dump, ipVersion).value.neighborAddress;
      (a.None? || IpAddressValue(a.value, v6).None?)
  {
    ParseFieldsErrors(dump, ipVersion);
  }

  /** A built peer carries the fields read and the integer of its address;
      for an IPv4 address that integer is 32-bit and spells the address back. */
  lemma PeerOfValue(dump: seq<string>, ipVersion: int, v6: string -> Option<nat>)
    requires PeerOf(dump, ipVersion, v6).Ok?
    ensures var p := PeerOf(dump, ipVersion, v6).value;
      p == ParseFields(dump, ipVersion).value.(value := p.value) &&
      p.neighborAddress.Some? && IpAddressValue(p.neighborAddress.value, v6) == Some(p.value) &&
      (ParseIPv4(p.neighborAddress.value).Some? ==>
        p.value < 0x1_0000_0000 && FormatIPv4(p.value) == p.neighborAddress.value)
  {
    var p := PeerOf(dump, ipVersion, v6).value;
    if ParseIPv4(p.neighborAddress.value).Some? {
      ParseIPv4Canonical(p.neighborAddress.value);
    }
  }

  /** Equal neighbour addresses give equal values, and two IPv4 neighbours
      with equal values have equal addresses. */
  lemma PeerValueMatchesAddress(p: Peer, q: Peer, v6: string -> Option<nat>)
    requires p.neighborAddress.Some? && IpAddressValue(p.neighborAddress.value, v6) == Some(p.value)
    requires q.neighborAddress.Some? && IpAddressValue(q.neighborAddress.value, v6) == Some(q.value)
    ensures p.neighborAddress == q.neighborAddress ==> p.value == q.value
    ensures ParseIPv4(p.neighborAddress.value).Some? && ParseIPv4(q.neighborAddress.value).Some? ==>
      (p.value == q.value <==> p.neighborAddress == q.neighborAddress)
  {
    if ParseIPv4(p.neighborAddress.value).Some? && ParseIPv4(q.neighborAddress.value).Some? && p.value == q.value {
      IPv4Injective(p.neighborAddress.value, q.neighborAddress.value);
    }
  }

  /** The header tokens: the id loses its family tag, `start` reads `down`,
      and the time and details re-split into tokens 4–5 and 6 on. */
  lemma HeaderFields(dump: seq<string>, ipVersion: int, rest: string)
    requires ParseFields(dump, ipVersion).Ok?
    requires Split(dump[0])[0] == PeerTag(ipVersion) + rest && !Contains(rest, PeerTag(ipVersion))
    ensures var p := ParseFields(dump, ipVersion).value; var parts := Split(dump[0]);
      && p.peerId == "peer_" + rest
      && p.state != "start"
      && (p.state == parts[3] || (parts[3] == "start" && p.state == "down"))
      && Split(p.lastEventTime) == parts[4..Min(6, |parts|)]
      && Split(p.bgpStateDetails) == parts[Min(6, |parts|)..]
  {
    var parts := Split(dump[0]);
    HeaderTokens(dump, ipVersion);
    var tag := PeerTag(ipVersion);
    assert StartsWith(tag + rest, tag) by {
      assert (tag + rest)[..|tag|] == tag;
    }
    assert (tag + rest)[|tag|..] == rest;
    assert Split(LastEventTimeOf(parts)) == parts[4..Min(6, |parts|)] by {
      SplitJoinSpace(parts[4..Min(6, |parts|)]);
    }
    assert Split(StateDetailsOf(parts)) == parts[Min(6, |parts|)..] by {
      SplitJoinSpace(parts[Min(6, |parts|)..]);
    }
  }

  /** The header fields are read from the tokens of the first line. */
  lemma HeaderTokens(dump: seq<string>, ipVersion: int)
    requires ParseFields(dump, ipVersion).Ok?
    ensures dump != [] && |Split(dump[0])| >= 4
    ensures var p := ParseFields(dump, ipVersion).value; var parts := Split(dump[0]);
      && p.peerId == PeerIdOf(parts[0], ipVersion)
      && p.state == StateOf(parts[3])
      && p.lastEventTime == LastEventTimeOf(parts)
      && p.bgpStateDetails == StateDetailsOf(parts)
  {
  }

  // ---------------------------------------------------------------------------
  // The constructor with its loops

  /** `Peer(dump, ip_version)` running the field loops. */
  method BuildPeer(dump: seq<string>, ipVersion: int, v6: string -> Option<nat>) returns (r: Result<Peer>)
    ensures r == PeerOf(dump, ipVersion, v6)
  {
    if ipVersion != 4 && ipVersion != 6 { return Err(ValueError); }
    if dump == [] { return Err(IndexError); }
    var parts := Split(dump[0]);
    if |parts| < 1 { return Err(IndexError); }
    var peerId := PeerIdOf(parts[0], ipVersion);
    if |parts| < 4 { return Err(IndexError); }
    var state := StateOf(parts[3]);
    var bgpState := ExtractToken(HasLabel("BGP state"), dump, 2);
    if bgpState.Err? { return Err(bgpState.error); }
    var details := StateDetailsOf(parts);
    var lastEvent := LastEventTimeOf(parts);
    var description := ExtractToken(HasLabel("Description"), dump, 1);
    if description.Err? { return Err(description.error); }
    var preference := ExtractToken(HasLabel("Preference"), dump, 1);
    if preference.Err? { return Err(preference.error); }
    var importLimit := ExtractToken(HasLabel("Import limit"), dump, 2);
    if importLimit.Err? { return Err(importLimit.error); }
    var counts := ParseProcessedRoutes(dump);
    if counts.Err? { return Err(counts.error); }
    var address := ExtractToken(HasLabel("Neighbor address"), dump, 2);
    if address.Err? { return Err(address.error); }
    var asToken := ExtractToken(HasLabel("Neighbor AS"), dump, 2);
    if asToken.Err? { return Err(asToken.error); }
    var neighborAs := NeighborAsOf(asToken.value);
    if neighborAs.Err? { return Err(neighborAs.error); }
    var source := ExtractToken(HasLabel("Source address"), dump, 2);
    if source.Err? { return Err(source.error); }
    var routeLimit := ExtractToken(HasLabel("Route limit"), dump, 2);
    if routeLimit.Err? { return Err(routeLimit.error); }
    var hold := ExtractToken(HasLabel("Hold timer"), dump, 2);
    if hold.Err? { return Err(hold.error); }
    var keepalive := ExtractToken(HasLabel("Keepalive timer"), dump, 2);
    if keepalive.Err? { return Err(keepalive.error); }
    var value := AddressValue(address.value, v6);
    if value.Err? { return Err(ParsingError); }
    return Ok(Peer(ipVersion, peerId, state, bgpState.value, details, lastEvent, description.value,
                   preference.value, importLimit.value, counts.value, address.value, neighborAs.value,
                   source.value, routeLimit.value, hold.value, keepalive.value, value.value));
  }
}
