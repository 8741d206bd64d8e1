/** `RouteServer`: the commands sent to a BIRD control socket and the records
    built from the answers. The SSH session is reduced to whether it is open
    (`connected`) and to `shell`, the text the server answers to a command;
    `None` stands for the reconnect path of `_cmd`, which returns nothing. */
module RouteServers {
  import opened Outcome
  import opened PyStr
  import opened Patterns
  import opened Fields
  import opened Segmenter
  import opened Communities
  import opened Peers
  import opened Prefixes

  // ---------------------------------------------------------------------------
  // Commands

  /** `'/var/run/bird.%s.ctl %s' % (service, bird_command)` */
  function ControlCommand(service: string, command: string): string {
    "/var/run/bird." + service + ".ctl " + command
  }

  /** The protocol name of a display id: `peer_` becomes `peer{v}_`. */
  function ProtocolName(peerId: string, ipVersion: int): string {
    Replace(peerId, "peer_", PeerTag(ipVersion))
  }

  function PeersCommand(service: string): string {
    ControlCommand(service, "show protocols all")
  }

  function PeerCommand(service: string, peerId: string, ipVersion: int): string {
    ControlCommand(service, "show protocols all " + ProtocolName(peerId, ipVersion))
  }

  function PrefixesCommand(service: string, peerId: string, ipVersion: int, rejected: bool): string {
    var name := ProtocolName(peerId, ipVersion);
    ControlCommand(service, if rejected then "show route protocol " + name + " filtered all"
                            else "show route protocol " + name + " all")
  }

  function RouteCommand(service: string, destination: string): string {
    ControlCommand(service, if Contains(destination, "/") then "show route " + destination + " all"
                            else "show route for " + destination + " all")
  }

  /** A display id `peer_X` names the protocol `peer{v}_X`, and the peer parsed
      from that protocol gets the display id back. */
  lemma ProtocolNameRoundTrip(rest: string, ipVersion: int)
    requires !Contains(rest, "peer_") && !Contains(rest, PeerTag(ipVersion))
    ensures ProtocolName("peer_" + rest, ipVersion) == PeerTag(ipVersion) + rest
    ensures PeerIdOf(ProtocolName("peer_" + rest, ipVersion), ipVersion) == "peer_" + rest
  {
    var tag := PeerTag(ipVersion);
    assert StartsWith("peer_" + rest, "peer_") by {
      assert ("peer_" + rest)[..5] == "peer_";
    }
    assert ("peer_" + rest)[5..] == rest;
    assert StartsWith(tag + rest, tag) by {
      assert (tag + rest)[..|tag|] == tag;
    }
    assert (tag + rest)[|tag|..] == rest;
  }

  // ---------------------------------------------------------------------------
  // Peers

  /** `Peer(dump, ip_version)` as a function of the dump. */
  function PeerBuilder(ipVersion: int, v6: string -> Option<nat>): Block -> Result<Peer> {
    b => PeerOf(b, ipVersion, v6)
  }

  /** The peer loop of `peers` and `peer`: a block raising ParsingError is
      skipped, any other error propagates. */
  function CollectPeers(build: Block -> Result<Peer>, blocks: seq<Block>): Result<seq<Peer>>
    decreases |blocks|
  {
    if blocks == [] then Ok([])
    else
      var before :- CollectPeers(build, blocks[..|blocks| - 1]);
      match build(blocks[|blocks| - 1])
      case Ok(p) => Ok(before + [p])
      case Err(e) => if e == ParsingError then Ok(before) else Err(e)
  }

  /** A block whose build raises something other than ParsingError. */
  predicate Fatal(build: Block -> Result<Peer>, b: Block) {
    build(b).Err? && build(b).error != ParsingError
  }

  /** Some block fails other than with ParsingError. */
  predicate AnyFatal(build: Block -> Result<Peer>, blocks: seq<Block>) {
    exists k :: 0 <= k < |blocks| && Fatal(build, blocks[k])
  }

  /** The peer loop fails exactly when some block fails other than with
      ParsingError, and then with the first such block's error. */
  lemma {:induction false} CollectPeersFails(build: Block -> Result<Peer>, blocks: seq<Block>)
    ensures CollectPeers(build, blocks).Err? <==> AnyFatal(build, blocks)
    ensures CollectPeers(build, blocks).Err? ==>
      exists k :: 0 <= k < |blocks| && Fatal(build, blocks[k]) &&
        build(blocks[k]) == CollectPeers(build, blocks).PropagateFailure()
    decreases |blocks|
  {
    if blocks != [] {
      var init := blocks[..|blocks| - 1];
      CollectPeersFails(build, init);
      assert forall k :: 0 <= k < |init| ==> init[k] == blocks[k];
      if CollectPeers(build, init).Err? {
        var k :| 0 <= k < |init| && Fatal(build, init[k]);
        assert Fatal(build, blocks[k]);
        var j :| 0 <= j < |init| && Fatal(build, init[j]) && build(init[j]) == CollectPeers(build, init).PropagateFailure();
        assert Fatal(build, blocks[j]) && build(blocks[j]) == CollectPeers(build, blocks).PropagateFailure();
      }
    }
  }

  /** Every collected peer is built from some block, in block order. */
  lemma {:induction false} CollectPeersFrom(build: Block -> Result<Peer>, blocks: seq<Block>)
    requires CollectPeers(build, blocks).Ok?
    ensures |CollectPeers(build, blocks).value| <= |blocks|
    ensures forall k :: 0 <= k < |CollectPeers(build, blocks).value| ==>
      exists j :: 0 <= j < |blocks| && build(blocks[j]) == Ok(CollectPeers(build, blocks).value[k])
    decreases |blocks|
  {
    if blocks != [] {
      var init := blocks[..|blocks| - 1];
      CollectPeersFrom(build, init);
      var ps := CollectPeers(build, init).value;
      var r := CollectPeers(build, blocks).value;
      forall k | 0 <= k < |r| ensures exists j :: 0 <= j < |blocks| && build(blocks[j]) == Ok(r[k]) {
        if k < |ps| {
          var j :| 0 <= j < |init| && build(init[j]) == Ok(ps[k]);
          assert blocks[j] == init[j];
        } else {
          assert build(blocks[|blocks| - 1]) == Ok(r[k]);
        }
      }
    }
  }

  /** Every block that builds contributes its peer. */
  lemma {:induction false} CollectPeersAll(build: Block -> Result<Peer>, blocks: seq<Block>, j: nat)
    requires CollectPeers(build, blocks).Ok? && j < |blocks| && build(blocks[j]).Ok?
    ensures build(blocks[j]).value in CollectPeers(build, blocks).value
    decreases |blocks|
  {
    var init := blocks[..|blocks| - 1];
    if j < |blocks| - 1 {
      assert init[j] == blocks[j];
      CollectPeersAll(build, init, j);
    }
  }

  /** `peers(service, ip_version)` */
  function PeersResult(connected: bool, shell: string -> Option<string>, service: string,
                       ipVersion: int, v6: string -> Option<nat>): Result<seq<Peer>> {
    if !connected then Ok([])
    else
      match shell(PeersCommand(service))
      case None => Err(AttributeError)
      case Some(dump) =>
        CollectPeers(PeerBuilder(ipVersion, v6), Segments(IsPeerLine, HasTag(PeerTag(ipVersion)), SplitLines(dump)))
  }

  /** How `peers` fails on a protocol dump: exactly when some protocol fails
      other than with ParsingError, and then with ValueError or IndexError;
      an unknown family fails on the first protocol. */
  lemma PeersErrors(shell: string -> Option<string>, service: string, ipVersion: int,
                    v6: string -> Option<nat>, dump: string)
    requires shell(PeersCommand(service)) == Some(dump)
    ensures var blocks := Segments(IsPeerLine, HasTag(PeerTag(ipVersion)), SplitLines(dump));
      && (PeersResult(true, shell, service, ipVersion, v6).Err? <==> AnyFatal(PeerBuilder(ipVersion, v6), blocks))
      && (PeersResult(true, shell, service, ipVersion, v6).Err? ==>
            PeersResult(true, shell, service, ipVersion, v6).error in {ValueError, IndexError})
      && (ipVersion != 4 && ipVersion != 6 && blocks != [] ==>
            PeersResult(true, shell, service, ipVersion, v6) == Err(ValueError))
  {
    var build := PeerBuilder(ipVersion, v6);
    var blocks := Segments(IsPeerLine, HasTag(PeerTag(ipVersion)), SplitLines(dump));
    var r := CollectPeers(build, blocks);
    assert PeersResult(true, shell, service, ipVersion, v6) == r;
    CollectPeersFails(build, blocks);
    if r.Err? {
      var k :| 0 <= k < |blocks| && Fatal(build, blocks[k]) && build(blocks[k]) == r.PropagateFailure();
      PeerErrorKinds(blocks[k], ipVersion, v6);
    }
    if ipVersion != 4 && ipVersion != 6 && blocks != [] {
      PeerErrorKinds(blocks[0], ipVersion, v6);
      assert Fatal(build, blocks[0]);
      CollectPeersFirstFatal(build, blocks);
    }
  }

  /** A peer fails with ValueError, IndexError or ParsingError; with an
      unknown family, with ValueError. */
  lemma PeerErrorKinds(b: Block, ipVersion: int, v6: string -> Option<nat>)
    ensures PeerBuilder(ipVersion, v6)(b).Err? ==> PeerBuilder(ipVersion, v6)(b).error in {ValueError, IndexError, ParsingError}
    ensures ipVersion != 4 && ipVersion != 6 ==> PeerBuilder(ipVersion, v6)(b) == Err(ValueError)
  {
    ParseFieldsErrors(b, ipVersion);
  }

  /** A first block that fails fatally is the loop's error. */
  lemma CollectPeersFirstFatal(build: Block -> Result<Peer>, blocks: seq<Block>)
    requires blocks != [] && Fatal(build, blocks[0])
    ensures CollectPeers(build, blocks) == build(blocks[0]).PropagateFailure()
  {
    assert blocks[..1][..0] == [];
    assert CollectPeers(build, blocks[..1]) == build(blocks[0]).PropagateFailure();
    CollectPeersErrSticky(build, blocks, 1);
  }

  /** `peer(peer_id, service, ip_version)`, with the protocol dump segmented
      for family `segmentVersion`. */
  function PeerLookup(connected: bool, shell: string -> Option<string>, peerId: string, service: string,
                      ipVersion: int, segmentVersion: int, v6: string -> Option<nat>): Result<Option<Peer>> {
    if !connected then Ok(None)
    else
      match shell(PeerCommand(service, peerId, ipVersion))
      case None => Err(AttributeError)
      case Some(dump) =>
        var peers :- CollectPeers(PeerBuilder(ipVersion, v6), Segments(IsPeerLine, HasTag(PeerTag(segmentVersion)), SplitLines(dump)));
        Ok(if peers == [] then None else Some(peers[0]))
  }

  /** `peer` as written: the dump is segmented with the default family 4,
      whatever `ip_version` is. */
  function PeerAsWritten(connected: bool, shell: string -> Option<string>, peerId: string, service: string,
                         ipVersion: int, v6: string -> Option<nat>): Result<Option<Peer>> {
    PeerLookup(connected, shell, peerId, service, ipVersion, 4, v6)
  }

  /** `peer` segmenting for the family asked for. */
  function PeerCorrected(connected: bool, shell: string -> Option<string>, peerId: string, service: string,
                         ipVersion: int, v6: string -> Option<nat>): Result<Option<Peer>> {
    PeerLookup(connected, shell, peerId, service, ipVersion, ipVersion, v6)
  }

  /** The answer of `show protocols all <name>` for one protocol: banner lines,
      the protocol's header line and its detail lines. */
  predicate OneProtocol(lines: seq<string>, pre: seq<string>, h: string, body: seq<string>) {
    && lines == pre + [h] + body
    && (forall k :: 0 <= k < |pre| ==> !IsPeerLine(pre[k]))
    && (forall k :: 0 <= k < |body| ==> !IsPeerLine(body[k]))
  }

  lemma SixIsNotFour(h: string)
    requires StartsWith(h, "peer6_")
    ensures IsPeerLine(h) && !HasTag(PeerTag(4))(h)
  {
    assert PeerTag(4) == "peer4_";
    assert h[..4] == h[..6][..4];
    assert h[5] == h[..6][5];
  }

  lemma OneProtocolSegments(lines: seq<string>, pre: seq<string>, h: string, body: seq<string>, tag: string)
    requires OneProtocol(lines, pre, h, body) && IsPeerLine(h)
    ensures HasTag(tag)(h) ==> Segments(IsPeerLine, HasTag(tag), lines) == [[h] + body]
    ensures !HasTag(tag)(h) ==> Segments(IsPeerLine, HasTag(tag), lines) == []
  {
    assert lines == pre + ([h] + body + []);
    SegmentsDropPreamble(IsPeerLine, HasTag(tag), pre, [h] + body + []);
    if HasTag(tag)(h) {
      SegmentsKeptRun(IsPeerLine, HasTag(tag), h, body, []);
    } else {
      SegmentsUnkeptRun(IsPeerLine, HasTag(tag), h, body, []);
    }
    assert Segments(IsPeerLine, HasTag(tag), []) == [];
  }

  /** As written, an IPv6 lookup never finds the peer: its one protocol is
      opened by a `peer6_` line, which the family-4 segmenter cuts away. */
  lemma PeerAsWrittenMissesIPv6(shell: string -> Option<string>, peerId: string, service: string,
                                v6: string -> Option<nat>, dump: string, pre: seq<string>, h: string, body: seq<string>)
    requires shell(PeerCommand(service, peerId, 6)) == Some(dump)
    requires OneProtocol(SplitLines(dump), pre, h, body) && StartsWith(h, "peer6_")
    ensures PeerAsWritten(true, shell, peerId, service, 6, v6) == Ok(None)
  {
    SixIsNotFour(h);
    OneProtocolSegments(SplitLines(dump), pre, h, body, PeerTag(4));
  }

  /** Segmenting for the family asked for finds that peer. */
  lemma PeerCorrectedFindsIPv6(shell: string -> Option<string>, peerId: string, service: string,
                               v6: string -> Option<nat>, dump: string, pre: seq<string>, h: string, body: seq<string>)
    requires shell(PeerCommand(service, peerId, 6)) == Some(dump)
    requires OneProtocol(SplitLines(dump), pre, h, body) && StartsWith(h, "peer6_")
    requires PeerOf([h] + body, 6, v6).Ok?
    ensures PeerCorrected(true, shell, peerId, service, 6, v6) == Ok(Some(PeerOf([h] + body, 6, v6).value))
  {
    SixIsNotFour(h);
    assert PeerTag(6) == "peer6_";
    OneProtocolSegments(SplitLines(dump), pre, h, body, PeerTag(6));
    CollectPeersOne(PeerBuilder(6, v6), [h] + body);
  }

  /** One block that builds yields its one peer. */
  lemma CollectPeersOne(build: Block -> Result<Peer>, b: Block)
    requires build(b).Ok?
    ensures CollectPeers(build, [b]) == Ok([build(b).value])
  {
    assert [b][..0] == [];
    assert CollectPeers(build, []) == Ok([]);
    assert [] + [build(b).value] == [build(b).value];
  }

  // ---------------------------------------------------------------------------
  // Prefixes

  /** `Prefix(dump, ip_version)` as a function of the dump. */
  function PrefixBuilder(ipVersion: int, cfg: Config): Block -> Result<Prefix> {
    b => PrefixOf(b, ipVersion, cfg)
  }

  /** The paths of `prefixes`, each marked with the listing it came from; the
      first path that fails to build ends the listing with its error. */
  function CollectPrefixes(build: Block -> Result<Prefix>, blocks: seq<Block>, rejected: bool): (r: Result<seq<Prefix>>)
    ensures r.Ok? ==> |r.value| == |blocks|
    ensures r.Ok? ==> forall k :: 0 <= k < |blocks| ==>
      build(blocks[k]).Ok? && r.value[k] == Marked(build(blocks[k]).value, rejected)
    decreases |blocks|
  {
    if blocks == [] then Ok([])
    else
      var before :- CollectPrefixes(build, blocks[..|blocks| - 1], rejected);
      var p :- build(blocks[|blocks| - 1]);
      Ok(before + [Marked(p, rejected)])
  }

  /** A failed listing carries the error of one of its path records. */
  lemma {:induction false} CollectPrefixesFails(build: Block -> Result<Prefix>, blocks: seq<Block>, rejected: bool)
    ensures CollectPrefixes(build, blocks, rejected).Err? ==>
      exists k :: 0 <= k < |blocks| && build(blocks[k]) == CollectPrefixes(build, blocks, rejected).PropagateFailure()
    decreases |blocks|
  {
    if blocks != [] {
      var init := blocks[..|blocks| - 1];
      CollectPrefixesFails(build, init, rejected);
      if CollectPrefixes(build, init, rejected).Err? {
        var k :| 0 <= k < |init| && build(init[k]) == CollectPrefixes(build, init, rejected).PropagateFailure();
        assert blocks[k] == init[k];
      }
    }
  }

  /** `if rejected: prefix.filtered = True` */
  function Marked(p: Prefix, rejected: bool): Prefix {
    if rejected then p.(filtered := true) else p
  }

  /** The most paths `prefixes` parses. */
  const PrefixCap: nat := 301

  /** The most routes a listing may announce before `prefixes` declines it. */
  const RouteLimit: int := 300

  datatype Listing = NoSession | Listing(peer: Peer, prefixes: seq<Prefix>)

  /** `prefixes(peer_id, rejected, service, ip_version)`, after the peer is found. */
  function PrefixesWithPeer(p: Peer, shell: string -> Option<string>, peerId: string, rejected: bool,
                            service: string, ipVersion: int, cfg: Config): Result<Listing> {
    if !rejected && p.counts.imported > RouteLimit then Ok(Listing(p, []))
    else if rejected && p.counts.filtered > RouteLimit then Ok(Listing(p, []))
    else
      match shell(PrefixesCommand(service, peerId, ipVersion, rejected))
      case None => Err(AttributeError)
      case Some(dump) =>
        var blocks := Segments(IsPathMarker, AnyHeader, SplitLines(dump));
        var ps :- CollectPrefixes(PrefixBuilder(ipVersion, cfg), blocks[..Min(|blocks|, PrefixCap)], rejected);
        Ok(Listing(p, ps))
  }

  /** `prefixes(peer_id, rejected, service, ip_version)`; the peer is looked up
      with `lookupVersion` as the family its protocol dump is segmented for. */
  function PrefixesResult(connected: bool, shell: string -> Option<string>, peerId: string, rejected: bool,
                          service: string, ipVersion: int, lookupVersion: int,
                          v6: string -> Option<nat>, cfg: Config): Result<Listing> {
    if !connected then Ok(NoSession)
    else
      var found :- PeerLookup(connected, shell, peerId, service, ipVersion, lookupVersion, v6);
      match found
      case None => Err(AttributeError)
      case Some(p) => PrefixesWithPeer(p, shell, peerId, rejected, service, ipVersion, cfg)
  }

  /** The number of routes of the kind asked for that the peer announces. */
  function AnnouncedCount(p: Peer, rejected: bool): int {
    if rejected then p.counts.filtered else p.counts.imported
  }

  /** `prefixes` as written, for an IPv6 protocol: its `peer` lookup finds
      nothing, so reading the peer's counters raises AttributeError. */
  lemma PrefixesAsWrittenFailsIPv6(shell: string -> Option<string>, peerId: string, rejected: bool, service: string,
                                   v6: string -> Option<nat>, cfg: Config, dump: string,
                                   pre: seq<string>, h: string, body: seq<string>)
    requires shell(PeerCommand(service, peerId, 6)) == Some(dump)
    requires OneProtocol(SplitLines(dump), pre, h, body) && StartsWith(h, "peer6_")
    ensures PrefixesResult(true, shell, peerId, rejected, service, 6, 4, v6, cfg) == Err(AttributeError)
  {
    PeerAsWrittenMissesIPv6(shell, peerId, service, v6, dump, pre, h, body);
  }

  /** `prefixes` with the corrected lookup, for the same IPv6 protocol: the
      listing is made for the peer parsed from that protocol. */
  lemma PrefixesCorrectedFindsIPv6(shell: string -> Option<string>, peerId: string, rejected: bool, service: string,
                                   v6: string -> Option<nat>, cfg: Config, dump: string,
                                   pre: seq<string>, h: string, body: seq<string>)
    requires shell(PeerCommand(service, peerId, 6)) == Some(dump)
    requires OneProtocol(SplitLines(dump), pre, h, body) && StartsWith(h, "peer6_")
    requires PeerOf([h] + body, 6, v6).Ok?
    ensures PrefixesResult(true, shell, peerId, rejected, service, 6, 6, v6, cfg) ==
      PrefixesWithPeer(PeerOf([h] + body, 6, v6).value, shell, peerId, rejected, service, 6, cfg)
  {
    PeerCorrectedFindsIPv6(shell, peerId, service, v6, dump, pre, h, body);
  }

  /** The guard and the cap: a listing announcing more than 300 routes of the
      kind asked for comes back empty; any listing holds at most 301 paths
      and the peer it was asked for; a failure is a missing reply or a path
      record with a missing token. */
  lemma PrefixesBounds(p: Peer, shell: string -> Option<string>, peerId: string, rejected: bool,
                       service: string, ipVersion: int, cfg: Config)
    ensures var r := PrefixesWithPeer(p, shell, peerId, rejected, service, ipVersion, cfg);
      && (AnnouncedCount(p, rejected) > RouteLimit ==> r == Ok(Listing(p, [])))
      && (r.Ok? ==> r.value.Listing? && r.value.peer == p && |r.value.prefixes| <= PrefixCap)
      && (r.Err? ==> r.error in {AttributeError, IndexError})
  {
    var r := PrefixesWithPeer(p, shell, peerId, rejected, service, ipVersion, cfg);
    var answer := shell(PrefixesCommand(service, peerId, ipVersion, rejected));
    if AnnouncedCount(p, rejected) <= RouteLimit && answer.Some? {
      var blocks := Segments(IsPathMarker, AnyHeader, SplitLines(answer.value));
      var capped := blocks[..Min(|blocks|, PrefixCap)];
      var build := PrefixBuilder(ipVersion, cfg);
      CollectPrefixesFails(build, capped, rejected);
      if CollectPrefixes(build, capped, rejected).Err? {
        var k :| 0 <= k < |capped| && build(capped[k]) == CollectPrefixes(build, capped, rejected).PropagateFailure();
        PrefixOfFacts(capped[k], ipVersion, cfg);
      }
    }
  }

  /** Below the guard, the listing is the first 301 path records of the dump,
      in order, each parsed and marked unfiltered or filtered as asked. */
  lemma PrefixesListed(p: Peer, shell: string -> Option<string>, peerId: string, rejected: bool,
                       service: string, ipVersion: int, cfg: Config, dump: string)
    requires AnnouncedCount(p, rejected) <= RouteLimit
    requires shell(PrefixesCommand(service, peerId, ipVersion, rejected)) == Some(dump)
    requires PrefixesWithPeer(p, shell, peerId, rejected, service, ipVersion, cfg).Ok?
    ensures var ps := PrefixesWithPeer(p, shell, peerId, rejected, service, ipVersion, cfg).value.prefixes;
      var blocks := Segments(IsPathMarker, AnyHeader, SplitLines(dump));
      && |ps| == Min(|blocks|, PrefixCap)
      && forall k :: 0 <= k < |ps| ==>
           PrefixOf(blocks[k], ipVersion, cfg).Ok? &&
           ps[k] == Marked(PrefixOf(blocks[k], ipVersion, cfg).value, rejected) &&
           ps[k].filtered == rejected
  {
    var blocks := Segments(IsPathMarker, AnyHeader, SplitLines(dump));
    var capped := blocks[..Min(|blocks|, PrefixCap)];
    var build := PrefixBuilder(ipVersion, cfg);
    var ps := CollectPrefixes(build, capped, rejected).value;
    forall k | 0 <= k < |ps|
      ensures PrefixOf(blocks[k], ipVersion, cfg).Ok? &&
              ps[k] == Marked(PrefixOf(blocks[k], ipVersion, cfg).value, rejected) &&
              ps[k].filtered == rejected
    {
      assert capped[k] == blocks[k];
      PrefixOfFacts(blocks[k], ipVersion, cfg);
    }
  }

  // ---------------------------------------------------------------------------
  // Route

  datatype Route = MakeRoute(prefix: Option<string>, routes: seq<Prefix>)

  /** A line opening with `[0-9]{1,3}\.[0-9]{1,3}\.[0-9]{1,3}\.[0-9]{1,3}\/[0-9]{1,3}`. */
  predicate IsRouteLine(l: string) {
    CidrMatch(l, 3, 3).Some?
  }

  /** `Route(dump, routes).prefix`: the CIDR text of the last route line. */
  function RoutePrefixOf(lines: seq<string>): (r: Option<string>)
    decreases |lines|
  {
    if lines == [] then None
    else
      var l := lines[|lines| - 1];
      match CidrMatch(l, 3, 3)
      case Some(e) => Some(l[..e])
      case None => RoutePrefixOf(lines[..|lines| - 1])
  }

  /** The route prefix is None exactly when no line is a route line. */
  lemma {:induction false} RoutePrefixNone(lines: seq<string>)
    ensures RoutePrefixOf(lines).None? <==> forall k :: 0 <= k < |lines| ==> !IsRouteLine(lines[k])
    decreases |lines|
  {
    if lines != [] {
      var init := lines[..|lines| - 1];
      RoutePrefixNone(init);
      assert forall k :: 0 <= k < |init| ==> init[k] == lines[k];
    }
  }

  /** Otherwise it is the CIDR text opening the last route line. */
  lemma {:induction false} RoutePrefixLast(lines: seq<string>, k: nat)
    requires LastMatchAt(IsRouteLine, lines, k)
    ensures RoutePrefixOf(lines) == Some(lines[k][..CidrMatch(lines[k], 3, 3).value])
    decreases |lines|
  {
    if k < |lines| - 1 {
      var init := lines[..|lines| - 1];
      assert forall j :: 0 <= j < |init| ==> init[j] == lines[j];
      assert LastMatchAt(IsRouteLine, init, k);
      RoutePrefixLast(init, k);
    }
  }

  /** `Route.__init__`'s loop over the dump lines. */
  method ParseRoutePrefix(lines: seq<string>) returns (prefix: Option<string>)
    ensures prefix == RoutePrefixOf(lines)
  {
    prefix := None;
    for i := 0 to |lines|
      invariant prefix == RoutePrefixOf(lines[..i])
    {
      assert lines[..i + 1][..i] == lines[..i];
      var m := CidrMatch(lines[i], 3, 3);
      if m.Some? {
        prefix := Some(lines[i][..m.value]);
      }
    }
    assert lines[..|lines|] == lines;
  }

  /** The paths of `route`, each given the route's prefix. */
  function CollectPaths(build: Block -> Result<Prefix>, blocks: seq<Block>, prefix: Option<string>): (r: Result<seq<Prefix>>)
    ensures r.Ok? ==> |r.value| == |blocks|
    ensures r.Ok? ==> forall k :: 0 <= k < |blocks| ==>
      build(blocks[k]).Ok? && r.value[k] == build(blocks[k]).value.(prefix := prefix)
    decreases |blocks|
  {
    if blocks == [] then Ok([])
    else
      var before :- CollectPaths(build, blocks[..|blocks| - 1], prefix);
      var p :- build(blocks[|blocks| - 1]);
      Ok(before + [p.(prefix := prefix)])
  }

  /** The path loop fails exactly when some record fails, with that
      record's error. */
  lemma {:induction false} CollectPathsFails(build: Block -> Result<Prefix>, blocks: seq<Block>, prefix: Option<string>)
    ensures CollectPaths(build, blocks, prefix).Err? <==> exists k :: 0 <= k < |blocks| && build(blocks[k]).Err?
    ensures CollectPaths(build, blocks, prefix).Err? ==>
      exists k :: 0 <= k < |blocks| && build(blocks[k]) == CollectPaths(build, blocks, prefix).PropagateFailure()
    decreases |blocks|
  {
    if blocks != [] {
      var init := blocks[..|blocks| - 1];
      CollectPathsFails(build, init, prefix);
      assert forall k :: 0 <= k < |init| ==> init[k] == blocks[k];
      if CollectPaths(build, init, prefix).Err? {
        var k :| 0 <= k < |init| && build(init[k]) == CollectPaths(build, init, prefix).PropagateFailure();
        assert blocks[k] == init[k];
      }
    }
  }

  /** `route(destination, service, ip_version)` */
  function RouteResult(connected: bool, shell: string -> Option<string>, destination: string, service: string,
                       ipVersion: int, cfg: Config): (r: Result<Option<Route>>) {
    if !connected then Ok(None)
    else
      match shell(RouteCommand(service, destination))
      case None => Err(AttributeError)
      case Some(dump) =>
        var lines := SplitLines(dump);
        var prefix := RoutePrefixOf(lines);
        var paths :- CollectPaths(PrefixBuilder(ipVersion, cfg), Segments(IsPathMarker, AnyHeader, lines), prefix);
        Ok(Some(MakeRoute(prefix, paths)))
  }

  /** A route holds one path per path record of the dump, in order, each
      parsed and given the route's own prefix; it fails exactly when some
      path record lacks a token, with IndexError. */
  lemma RoutePaths(shell: string -> Option<string>, destination: string, service: string,
                   ipVersion: int, cfg: Config, dump: string)
    requires shell(RouteCommand(service, destination)) == Some(dump)
    ensures var r := RouteResult(true, shell, destination, service, ipVersion, cfg);
      var lines := SplitLines(dump);
      var blocks := Segments(IsPathMarker, AnyHeader, lines);
      && (r.Err? <==> exists k :: 0 <= k < |blocks| && PrefixOf(blocks[k], ipVersion, cfg).Err?)
      && (r.Err? ==> r.error == IndexError)
      && (r.Ok? ==>
            && r.value.Some?
            && r.value.value.prefix == RoutePrefixOf(lines)
            && |r.value.value.routes| == |blocks|
            && forall k :: 0 <= k < |blocks| ==>
                 PrefixOf(blocks[k], ipVersion, cfg).Ok? &&
                 r.value.value.routes[k] == PrefixOf(blocks[k], ipVersion, cfg).value.(prefix := RoutePrefixOf(lines)))
  {
    var lines := SplitLines(dump);
    var blocks := Segments(IsPathMarker, AnyHeader, lines);
    var build := PrefixBuilder(ipVersion, cfg);
    CollectPathsFails(build, blocks, RoutePrefixOf(lines));
    var c := CollectPaths(build, blocks, RoutePrefixOf(lines));
    if c.Err? {
      var k :| 0 <= k < |blocks| && build(blocks[k]) == c.PropagateFailure();
      PrefixOfFacts(blocks[k], ipVersion, cfg);
    }
  }

  // ---------------------------------------------------------------------------
  // The server

  class RouteServer {
    const server: string
    /** `self._session is not None` */
    var connected: bool
    /** What the server prints for each command; None when `_cmd` has to
        reconnect. */
    const shell: string -> Option<string>

    constructor(server: string, connected: bool, shell: string -> Option<string>)
      ensures this.server == server && this.connected == connected && this.shell == shell
    {
      this.server := server;
      this.connected := connected;
      this.shell := shell;
    }

    /** `peers(service, ip_version)` */
    method Peers(service: string, ipVersion: int, v6: string -> Option<nat>) returns (r: Result<seq<Peer>>)
      ensures r == PeersResult(connected, shell, service, ipVersion, v6)
    {
      if !connected { return Ok([]); }
      var answer := shell(PeersCommand(service));
      if answer.None? { return Err(AttributeError); }
      var blocks := ParseShowProtocols(answer.value, ipVersion);
      r := CollectPeersLoop(blocks, ipVersion, v6);
    }

    /** `peer(peer_id, service, ip_version)`, segmenting for `ip_version`. */
    method Peer(peerId: string, service: string, ipVersion: int, v6: string -> Option<nat>) returns (r: Result<Option<Peer>>)
      ensures r == PeerCorrected(connected, shell, peerId, service, ipVersion, v6)
    {
      if !connected { return Ok(None); }
      var answer := shell(PeerCommand(service, peerId, ipVersion));
      if answer.None? { return Err(AttributeError); }
      var blocks := ParseShowProtocols(answer.value, ipVersion);
      var peers := CollectPeersLoop(blocks, ipVersion, v6);
      if peers.Err? { return Err(peers.error); }
      if peers.value == [] { return Ok(None); }
      return Ok(Some(peers.value[0]));
    }

    /** `prefixes(peer_id, rejected, service, ip_version)` */
    method Prefixes(peerId: string, rejected: bool, service: string, ipVersion: int,
                    v6: string -> Option<nat>, cfg: Config) returns (r: Result<Listing>)
      ensures r == PrefixesResult(connected, shell, peerId, rejected, service, ipVersion, ipVersion, v6, cfg)
    {
      if !connected { return Ok(NoSession); }
      var found := Peer(peerId, service, ipVersion, v6);
      if found.Err? { return Err(found.error); }
      if found.value.None? { return Err(AttributeError); }
      var p := found.value.value;
      if !rejected && p.counts.imported > RouteLimit { return Ok(Listing(p, [])); }
      if rejected && p.counts.filtered > RouteLimit { return Ok(Listing(p, [])); }
      var answer := shell(PrefixesCommand(service, peerId, ipVersion, rejected));
      if answer.None? { return Err(AttributeError); }
      var blocks := ParseShowRoutePeer(answer.value);
      var prefixes := CollectPrefixesLoop(blocks, ipVersion, cfg, rejected);
      if prefixes.Err? { return Err(prefixes.error); }
      return Ok(Listing(p, prefixes.value));
    }

    /** `route(destination, service, ip_version)` */
    method Route(destination: string, service: string, ipVersion: int, cfg: Config) returns (r: Result<Option<Route>>)
      ensures r == RouteResult(connected, shell, destination, service, ipVersion, cfg)
    {
      if !connected { return Ok(None); }
      var answer := shell(RouteCommand(service, destination));
      if answer.None? { return Err(AttributeError); }
      var prefix := ParseRoutePrefix(SplitLines(answer.value));
      var blocks := ParseShowRoutePeer(answer.value);
      var paths := CollectPathsLoop(blocks, ipVersion, cfg, prefix);
      if paths.Err? { return Err(paths.error); }
      return Ok(Some(MakeRoute(prefix, paths.value)));
    }
  }

  /** The peer loop shared by `peers` and `peer`. */
  method CollectPeersLoop(blocks: seq<Block>, ipVersion: int, v6: string -> Option<nat>) returns (r: Result<seq<Peer>>)
    ensures r == CollectPeers(PeerBuilder(ipVersion, v6), blocks)
  {
    var peers: seq<Peer> := [];
    for i := 0 to |blocks|
      invariant CollectPeers(PeerBuilder(ipVersion, v6), blocks[..i]) == Ok(peers)
    {
      assert blocks[..i + 1][..i] == blocks[..i];
      var p := BuildPeer(blocks[i], ipVersion, v6);
      if p.Err? {
        if p.error != ParsingError {
          CollectPeersErrSticky(PeerBuilder(ipVersion, v6), blocks, i + 1);
          return Err(p.error);
        }
      } else {
        peers := peers + [p.value];
      }
    }
    assert blocks[..|blocks|] == blocks;
    return Ok(peers);
  }

  lemma {:induction false} CollectPeersErrSticky(build: Block -> Result<Peer>, blocks: seq<Block>, i: nat)
    requires i <= |blocks| && CollectPeers(build, blocks[..i]).Err?
    ensures CollectPeers(build, blocks) == CollectPeers(build, blocks[..i])
    decreases |blocks| - i
  {
    if i < |blocks| {
      assert blocks[..i + 1][..i] == blocks[..i];
      CollectPeersErrSticky(build, blocks, i + 1);
    } else {
      assert blocks[..i] == blocks;
    }
  }

  lemma {:induction false} CollectPrefixesErrSticky(build: Block -> Result<Prefix>, blocks: seq<Block>, i: nat, rejected: bool)
    requires i <= |blocks| && CollectPrefixes(build, blocks[..i], rejected).Err?
    ensures CollectPrefixes(build, blocks, rejected) == CollectPrefixes(build, blocks[..i], rejected)
    decreases |blocks| - i
  {
    if i < |blocks| {
      assert blocks[..i + 1][..i] == blocks[..i];
      CollectPrefixesErrSticky(build, blocks, i + 1, rejected);
    } else {
      assert blocks[..i] == blocks;
    }
  }

  lemma {:induction false} CollectPathsErrSticky(build: Block -> Result<Prefix>, blocks: seq<Block>, i: nat, prefix: Option<string>)
    requires i <= |blocks| && CollectPaths(build, blocks[..i], prefix).Err?
    ensures CollectPaths(build, blocks, prefix) == CollectPaths(build, blocks[..i], prefix)
    decreases |blocks| - i
  {
    if i < |blocks| {
      assert blocks[..i + 1][..i] == blocks[..i];
      CollectPathsErrSticky(build, blocks, i + 1, prefix);
    } else {
      assert blocks[..i] == blocks;
    }
  }

  /** The capped path loop of `prefixes`: only the first 301 path records are
      parsed, the rest are passed over. */
  method CollectPrefixesLoop(blocks: seq<Block>, ipVersion: int, cfg: Config, rejected: bool) returns (r: Result<seq<Prefix>>)
    ensures r == CollectPrefixes(PrefixBuilder(ipVersion, cfg), blocks[..Min(|blocks|, PrefixCap)], rejected)
  {
    ghost var build := PrefixBuilder(ipVersion, cfg);
    var prefixes: seq<Prefix> := [];
    for i := 0 to |blocks|
      invariant |prefixes| == Min(i, PrefixCap)
      invariant CollectPrefixes(build, blocks[..Min(i, PrefixCap)], rejected) == Ok(prefixes)
    {
      if |prefixes| < PrefixCap {
        var prefix := BuildPrefix(blocks[i], ipVersion, cfg);
        assert prefix == build(blocks[i]);
        CollectPrefixesStep(build, blocks, i, rejected);
        if prefix.Err? {
          CollectPrefixesErrSticky(build, blocks[..Min(|blocks|, PrefixCap)], i + 1, rejected);
          return Err(prefix.error);
        }
        prefixes := prefixes + [Marked(prefix.value, rejected)];
      }
    }
    return Ok(prefixes);
  }

  /** One step of the capped loop, below the cap. */
  lemma CollectPrefixesStep(build: Block -> Result<Prefix>, blocks: seq<Block>, i: nat, rejected: bool)
    requires i < |blocks| && i < PrefixCap && CollectPrefixes(build, blocks[..i], rejected).Ok?
    ensures blocks[..Min(|blocks|, PrefixCap)][..i + 1] == blocks[..i + 1]
    ensures build(blocks[i]).Err? ==> CollectPrefixes(build, blocks[..i + 1], rejected) == build(blocks[i]).PropagateFailure()
    ensures build(blocks[i]).Ok? ==>
      CollectPrefixes(build, blocks[..i + 1], rejected) ==
        Ok(CollectPrefixes(build, blocks[..i], rejected).value + [Marked(build(blocks[i]).value, rejected)])
  {
    assert blocks[..i + 1][..i] == blocks[..i];
  }

  /** The path loop of `route`. */
  method CollectPathsLoop(blocks: seq<Block>, ipVersion: int, cfg: Config, prefix: Option<string>) returns (r: Result<seq<Prefix>>)
    ensures r == CollectPaths(PrefixBuilder(ipVersion, cfg), blocks, prefix)
  {
    ghost var build := PrefixBuilder(ipVersion, cfg);
    var paths: seq<Prefix> := [];
    for i := 0 to |blocks|
      invariant CollectPaths(build, blocks[..i], prefix) == Ok(paths)
    {
      var p := BuildPrefix(blocks[i], ipVersion, cfg);
      assert p == build(blocks[i]);
      CollectPathsStep(build, blocks, i, prefix);
      if p.Err? {
        CollectPathsErrSticky(build, blocks, i + 1, prefix);
        return Err(p.error);
      }
      paths := paths + [p.value.(prefix := prefix)];
    }
    assert blocks[..|blocks|] == blocks;
    return Ok(paths);
  }

  /** One step of the path loop. */
  lemma CollectPathsStep(build: Block -> Result<Prefix>, blocks: seq<Block>, i: nat, prefix: Option<string>)
    requires i < |blocks| && CollectPaths(build, blocks[..i], prefix).Ok?
    ensures build(blocks[i]).Err? ==> CollectPaths(build, blocks[..i + 1], prefix) == build(blocks[i]).PropagateFailure()
    ensures build(blocks[i]).Ok? ==>
      CollectPaths(build, blocks[..i + 1], prefix) ==
        Ok(CollectPaths(build, blocks[..i], prefix).value + [build(blocks[i]).value.(prefix := prefix)])
  {
    assert blocks[..i + 1][..i] == blocks[..i];
  }
}
