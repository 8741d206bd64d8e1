# py-lg looking glass: a Dafny model

py-lg is a BGP looking glass for BIRD route servers. It sends commands to a
server's BIRD control socket and parses the text dumps that come back:

- `show protocols all` is cut into one record per BGP protocol; each record becomes a `Peer`.
- `show route … all` is cut into one record per path; each path becomes a `Prefix`, with its BGP communities decoded against the operator's tables.
- The summary page pairs the peers of two route servers by the integer value of the neighbour address.

This project models that core and proves properties of it:

| module (file) | models |
|---|---|
| `Outcome` (outcome.dfy) | `Option`, the Python exceptions the core raises (`ValueError`, `IndexError`, `ParsingError`, `AttributeError`), and a `Result` type that carries them |
| `PyStr` (pystr.dfy) | the `str` behaviour the core relies on: `startswith`, `in`, `isdecimal`, `int`, `str`, `split()`, `split(',')`, `splitlines()`, `replace`, `join` |
| `IpAddr` (ipaddr.dfy) | `int(ip_address(s))` for dotted IPv4; IPv6 is a parameter |
| `Patterns` (patterns.dfy) | the core's regular expressions, written as matchers over the line |
| `Segmenter` (segmenter.dfy) | `_parse__show_protocols` and `_parse__show_route_peer` as loops, proved equal to one reference segmentation |
| `Fields` (fields.dfy) | `_extract_word` / `_extract_by_re` and `_parse_processed_routes_count` |
| `Communities` (communities.dfy) | `Community(data)`, `parse_description` and `__str__` |
| `Peers` (peers.dfy) | `Peer(dump, ip_version)` and its `_parse_*` readers |
| `Prefixes` (prefixes.dfy) | `Prefix(dump, ip_version)`: its token fields, community collection and sorting, AS path and preferred flag |
| `RouteServers` (routeservers.dfy) | the commands, and the `RouteServer` class with `peers`, `peer`, `prefixes` and `route` |
| `Pairing` (pairing.dfy) | `find_pair` and `peers_pairs` from app.py |

The SSH session is reduced to two things:

- `connected`: whether `self._session` is set;
- `shell`: a function from a command string to the server's answer.

`shell` returns `None` where `_cmd` takes its reconnect path. That path calls itself again but drops the result, so `_cmd` returns `None`. Every caller then fails on `None.splitlines()`, which the model reports as `AttributeError`.

A loop in the source is a `method` with a `while` or `for` loop. Each such method is proved equal to a recursive function. The properties are proved about that function.

## Behaviour worth knowing

What the code does in some cases that are easy to misread:

- **Token lookup.** A labelled line with too few tokens raises `IndexError` (`parts[position]`); the lookup returns `None` only when no line matches.
- **`peers`.** Only `ParsingError` drops a protocol. `ValueError` and `IndexError` end the whole call.
- **Address family.** `ip_address` accepts an address of either family, whatever `ip_version` says.
- **`prefixes` limits.** It parses up to 301 paths (`len(prefixes) < 301`). The guard declines a listing when the counter exceeds 300.
- **Route prefix.** `Route.prefix` is the CIDR of the *last* matching line.
- **Pairing.** `peers_pairs` pairs by `value`, the integer of the neighbour address. A second-pass row puts the rs2 peer in the `rs1` slot and the result of its lookup in rs1 in the `rs2` slot. That result is always `None`.
- **Pairing coverage.** Every value from either list appears in at least one row. A value repeated within rs1 gives several rows, one per repeat.

## Model

| member | source | states |
|---|---|---|
| Segmenter.ParseShowProtocols | models.py:47-64 | the protocol loop returns the reference segmentation of the dump's lines for the tag `peer{v}_`; an empty dump gives no record |
| Segmenter.ParseShowRoutePeer | models.py:66-87 | the path loop returns the reference segmentation of the dump's lines with every header kept; an empty dump gives no record |
| Segmenter.ScanIsSegments | models.py:51-62 | the shared loop, run from no open record over any lines, yields the reference segmentation |
| Segmenter.ScanRun | models.py:51-62 | from an open record, the loop emits that record's run and then the reference segmentation of the lines after it |
| Segmenter.ScanAdvance | models.py:52-59 | the records closed so far, followed by what the remaining lines yield, do not change from one line to the next |
| Segmenter.SegmentsWellFormed | models.py:51-62 | every record is non-empty, opens with a record start, has no later record start, and a header that is not kept stands alone |
| Segmenter.SegmentsDropPreamble | models.py:57-59 | lines before the first record start never reach a record |
| Segmenter.SegmentsKeptRun | models.py:52-59 | a run whose header carries the family tag is emitted whole, header and body |
| Segmenter.SegmentsUnkeptRun | models.py:58-62 | a run of another family becomes its header alone, and is dropped when it is the last run |
| Segmenter.SegmentsFlattenKept | models.py:73-85 | when every header is kept, the records concatenate back to exactly the lines from the first record start onward |
| Segmenter.PathSegmentsFlatten | models.py:73-85 | path records partition the dump from its first path line onward: no line is lost or repeated |
| Segmenter.BodyLenNoStart | models.py:58-59 | no record start lies between a header and the end of its body |
| Fields.ExtractToken | models.py:245-251 | the `_extract_word` loop returns the token at `position` of the last line containing the label, `None` when no line does, or `IndexError` |
| Fields.ExtractRaises | models.py:435-441 | the lookup raises exactly when some matching line has too few tokens, and then raises `IndexError` |
| Fields.ExtractNone | models.py:436-441 | the lookup gives `None` exactly when no line matches |
| Fields.ExtractLast | models.py:437-440 | when nothing raises, the lookup gives the token of the last matching line |
| Fields.ExtractErrSticky | models.py:437-440 | once a line raises, the lines after it do not change the outcome |
| Fields.PathTokenNeverRaises | models.py:253-260 | the CIDR lookup of `_parse_dump` (position 0 of a line opening with a CIDR) never raises |
| Fields.ParseProcessedRoutes | models.py:404-411 | the counter loop returns the counters of the first line matching the pattern, or 0, 0, 0, 0 |
| Fields.ProcessedRoutesFirst | models.py:406-410 | the first matching line decides; the lines after it are not read |
| Fields.ProcessedRoutesDefault | models.py:411 | with no matching line the counters are all 0 |
| Fields.CountsOfIff | models.py:405-410 | `int` of the four `(\d*)` groups succeeds exactly when none is empty, gives their decimal values, and otherwise raises `ValueError` |
| Fields.GroupValue | models.py:410 | `int` of a digit group fails with `ValueError` exactly on the empty group |
| Patterns.SearchCounters | models.py:405-407 | `search` finds the leftmost position where the counter pattern matches, or reports that none does |
| Patterns.CommunityGroups | models.py:223-226 | every group `findall` returns is a `(a,b)` token of two runs of one to eight digits |
| Patterns.CommunityAtToken | models.py:223 | the text a community match spans is such a token |
| Patterns.AsPathGroups | models.py:240-241 | every AS-path group is a run of 2 to 10 digits |
| Patterns.CidrMatch | models.py:71 | a match of the CIDR prefix pattern opens with a digit and ends inside the line |
| Communities.ParseCommunity | models.py:470-489 | `Community(data)` fails only with `ValueError` |
| Communities.ParseCommunityIff | models.py:475-489 | parsing succeeds exactly on two non-empty digit runs around one comma, then reads both numbers and classifies them |
| Communities.ParseCommunityString | models.py:525-526 | `Community(str(c))` gives back the asn and value of `c` |
| Communities.DescribeZero | models.py:502-511 | a non-local AS 0 always gets a "Do not advertise to …" description |
| Communities.DescribeUnknown | models.py:491-523 | an AS that is not local, not 0 and not a prepend AS gets the empty description |
| Communities.DescribeLocalFirst | models.py:493-500 | for a local AS the description is the city, service or peering entry, or empty |
| Communities.DescribeLocalUniform | models.py:493-500 | which local AS carries the community does not change its description |
| Communities.DescribePrepend | models.py:513-523 | a prepend community's description opens with its prepend label and " to " |
| Communities.ExampleDoNotAdvertise | config_example.py:23-27 | with the example tables, 0:4002 reads "Do not advertise to Novosibirsk" |
| Communities.ExampleBlackhole | config_example.py:17-21 | with the example tables, 1234:9999 reads "Blackhole" |
| Communities.ExampleReceived | config_example.py:23-27 | with the example tables, 5678:4001 reads "Received in Paris" |
| Communities.ExamplePrepend | config_example.py:29-33 | with the example tables, 65502:2222 reads "Prepend 2 times to Good guys" |
| Peers.BuildPeer | models.py:313-353 | building a peer from a record gives exactly the reference `Peer` result |
| Peers.ParseFieldsErrors | models.py:315-347 | the field reads fail only with `ValueError` or `IndexError`; a family other than 4 or 6 fails with `ValueError` |
| Peers.ProcessedRoutesError | models.py:404-411 | the counter read fails only with `ValueError` |
| Peers.PeerOfParsingError | models.py:349-353 | a peer fails with `ParsingError` exactly when its fields read and its neighbour address is missing or is not an address |
| Peers.PeerOfValue | models.py:349-351 | a built peer keeps every field it read; its `value` is the integer of its neighbour address, and an IPv4 value prints back as that address |
| Peers.PeerValueMatchesAddress | models.py:350-351 | equal addresses give equal values; for IPv4, equal values mean equal addresses |
| Peers.HeaderTokens | models.py:355-390 | id, state, event time and state details are read from the header line's tokens 0, 3, 4-5 and 6 onward |
| Peers.HeaderFields | models.py:355-390 | the id is the protocol name with `peer{v}_` turned back into `peer_`; a `start` state reads as `down`; event time and details re-split into the header's tokens |
| IpAddr.ParseIPv4Canonical | models.py:350-351 | an accepted IPv4 text is the canonical dotted form of its value |
| IpAddr.ParseFormatIPv4 | models.py:350-351 | every 32-bit value prints as an IPv4 text that parses back to it |
| IpAddr.IPv4Injective | models.py:350-351 | two accepted IPv4 texts with the same value are the same text |
| IpAddr.IpAddressValue | models.py:350-351 | dotted IPv4 is read as IPv4; anything else is handed to the IPv6 reader |
| Prefixes.BuildPrefix | models.py:185-213 | building a path gives exactly the reference `Prefix` result |
| Prefixes.PrefixOfFacts | models.py:185-243 | a path fails only with `IndexError`. When built, it is not yet filtered and has the given family. Its communities are the collected ones, parsed, a permutation sorted by descending asn and stable within one asn. Its AS path is made of digit runs, and it is preferred exactly when a line holds `unicast` and `*` |
| Prefixes.CollectCommunityValues | models.py:221-230 | the loop returns, in line order, the unwrapped `a,b` texts of every community group of every `BGP.community` line |
| Prefixes.CommunityValuesWellFormed | models.py:224-232 | every collected text is one `Community` accepts, so `Community(x)` never raises here |
| Prefixes.StripToken | models.py:228-229 | removing the parentheses from `(a,b)` gives `a,b` |
| Prefixes.ParseAll | models.py:232 | each collected text parses to the community at the same position |
| Prefixes.SortByAsnPermutes | models.py:233 | `sorted(…, key=asn, reverse=True)` is a permutation in descending asn order |
| Prefixes.SortByAsnStable | models.py:233 | communities with the same asn keep their order |
| Prefixes.InsertSorted | models.py:233 | inserting into a sorted list keeps it sorted |
| Prefixes.InsertPermutes | models.py:233 | insertion adds exactly the inserted community |
| Prefixes.InsertStable | models.py:233 | insertion puts the new community before those of its asn that are already present |
| Prefixes.ParseAsPath | models.py:236-243 | the loop returns, in line order, every AS-number group of every `BGP.as_path` line |
| Prefixes.AsPathDigits | models.py:238-242 | every AS-path entry is a run of 2 to 10 digits |
| Prefixes.ParsePreferred | models.py:215-219 | the loop answers true exactly when some line holds both `unicast` and `*` |
| RouteServers.ProtocolNameRoundTrip | models.py:134 | a display id `peer_X` names the protocol `peer{v}_X`, and the peer read from it gets `peer_X` back |
| RouteServers.RouteServer.constructor | models.py:19-22 | a server starts with the given name, session state and answers |
| RouteServers.RouteServer.Peers | models.py:110-128 | `peers` returns the reference result: no session gives [], otherwise the built peers of the protocol records |
| RouteServers.CollectPeersLoop | models.py:119-127 | the loop skips records that fail with `ParsingError` and stops at any other failure |
| RouteServers.CollectPeersFails | models.py:121-127 | the peer list fails exactly when some record fails other than with `ParsingError`, and then with that record's error |
| RouteServers.CollectPeersFrom | models.py:121-127 | every listed peer is built from a record, and there are no more peers than records |
| RouteServers.CollectPeersAll | models.py:121-127 | every record that builds has its peer in the list |
| RouteServers.PeersErrors | models.py:110-128 | `peers` fails exactly when some protocol fails other than with `ParsingError`, only with `ValueError` or `IndexError`; an unknown family fails at once |
| RouteServers.PeerErrorKinds | models.py:313-353 | building a peer fails only with `ValueError`, `IndexError` or `ParsingError`; an unknown family gives `ValueError` |
| RouteServers.RouteServer.Peer | models.py:130-152 | `peer` with the family fix of the finding below: the first peer built from the records segmented for the family asked for, or none; no session gives none, a missing reply `AttributeError` |
| RouteServers.OneProtocolSegments | models.py:47-64 | a dump holding one protocol yields that protocol's record for its own family and nothing for another |
| RouteServers.PeerAsWrittenMissesIPv6 | models.py:141 | as written, `peer` never finds an IPv6 protocol, because it segments for family 4 |
| RouteServers.PeerCorrectedFindsIPv6 | models.py:141-152 | segmenting for the family asked for, `peer` returns the IPv6 protocol's peer |
| RouteServers.CollectPeersOne | models.py:142-151 | one record that builds gives a list of its one peer |
| RouteServers.RouteServer.Prefixes | models.py:154-182 | `prefixes` returns the reference listing, with the peer looked up for the family asked for |
| RouteServers.PrefixesAsWrittenFailsIPv6 | models.py:158-160 | as written, `prefixes` for an IPv6 protocol finds no peer and raises `AttributeError` |
| RouteServers.PrefixesCorrectedFindsIPv6 | models.py:158-182 | with the corrected lookup, the IPv6 listing is made for that protocol's peer |
| RouteServers.PrefixesBounds | models.py:160-182 | a counter above 300 gives the peer with no paths; a listing holds the peer asked for and at most 301 paths; failures are `AttributeError` or `IndexError` |
| RouteServers.PrefixesListed | models.py:175-182 | below the guard, the listing holds the first min(records, 301) path records, in order, each parsed and marked filtered exactly in rejected mode |
| RouteServers.CollectPrefixesLoop | models.py:175-181 | the capped loop parses only the first 301 path records and passes over the rest |
| RouteServers.CollectPrefixes | models.py:176-181 | a collected listing has one path per record, each the record's parse, marked |
| RouteServers.CollectPrefixesFails | models.py:176-181 | a failing listing fails with the error of one of its records |
| RouteServers.RouteServer.Route | models.py:89-108 | `route` returns the reference route: no session gives none, otherwise the prefix and the paths of the dump |
| RouteServers.RoutePaths | models.py:99-108 | a route fails exactly when some path record fails, and then with `IndexError`. Otherwise it holds one path per path record, in order, each given the route's prefix |
| RouteServers.CollectPathsLoop | models.py:104-107 | the path loop parses every path record and gives each the route's prefix |
| RouteServers.CollectPaths | models.py:104-107 | one path per record, each the record's parse with the route's prefix |
| RouteServers.CollectPathsFails | models.py:104-107 | the path list fails exactly when some record fails, with that record's error |
| RouteServers.ParseRoutePrefix | models.py:457-465 | the loop returns the CIDR text of the last line matching the route pattern, or none |
| RouteServers.RoutePrefixNone | models.py:459-465 | the route prefix is none exactly when no line matches |
| RouteServers.RoutePrefixLast | models.py:460-464 | the route prefix is the match on the last matching line |
| Pairing.FindPair | app.py:74-78 | `find_pair` returns the first peer with the given value, or none |
| Pairing.FirstWithValueNone | app.py:74-78 | the lookup finds nothing exactly when no peer has the value |
| Pairing.FirstWithValueFirst | app.py:75-77 | the lookup returns the earliest peer with the value |
| Pairing.FirstWithValueMatches | app.py:75-77 | a found peer has the value asked for and is in the list |
| Pairing.Values | app.py:56 | the checked values are the peers' values, position by position |
| Pairing.PeersPairs | app.py:40-71 | `peers_pairs` returns the rs1 rows followed by the rows of the unchecked rs2 peers |
| Pairing.PairStrays | app.py:58-69 | the second loop appends one row for each rs2 peer whose value no rs1 peer has, in order |
| Pairing.PairedRows | app.py:45-55 | row k holds peer k and its first twin in the other list |
| Pairing.PairsFirstPart | app.py:45-56 | the first rows are the rs1 peers, in order, each with its rs2 twin |
| Pairing.PairsSecondPart | app.py:58-69 | the remaining rows are the unchecked rs2 peers, each with no twin |
| Pairing.StraysUnpaired | app.py:58-60 | an rs2 peer left for the second loop has no twin in rs1 |
| Pairing.StraysMember | app.py:58-59 | a peer reaches the second loop exactly when it is in rs2 and its value is unchecked |
| Pairing.StraysCount | app.py:58-59 | an unchecked peer reaches the second loop as often as it occurs in rs2; a checked one never does |
| Pairing.StraysAppend | app.py:58-59 | the second loop's filter keeps rs2's order: the strays of a concatenation are the strays of each part in turn |
| Pairing.StraysUnchecked | app.py:59 | no peer of the second loop has a checked value |
| Pairing.PairsCoverage | app.py:40-71 | every value of rs1 and every value of rs2 appears in some row |
| Pairing.PairsValuesFromLists | app.py:40-71 | every row's value comes from rs1 or rs2 |
| Pairing.PairsValueAt | app.py:47-66 | there is one row per rs1 peer and per unchecked rs2 peer, each with that peer's value |
| Pairing.PairsMirror | app.py:47-68 | a row mirrors the value, address, AS and description of its `rs1` peer, and a twin has the row's value |
| PyStr.ContainsIff | models.py:438 | `pattern in l` holds exactly when the pattern occurs at some index of the line |
| PyStr.SplitLinesTerminated | models.py:51 | `splitlines` of lines each ended by a newline gives those lines back |
| PyStr.SplitJoinSpace | models.py:367 | `" ".join` of whitespace-free tokens splits back into those tokens |
| PyStr.JoinSplitOn | models.py:475 | joining the pieces of `split(',')` with commas gives the text back |
| PyStr.SplitOnJoin | models.py:525-526 | splitting comma-free pieces joined by commas gives the pieces back |
| PyStr.ParseIntOfIntToString | models.py:419 | `int(str(i)) == i` |
| PyStr.CanonicalDigits | models.py:484-485 | a digit run without leading zero prints back as itself |
| PyStr.ReplaceCharAbsent | models.py:228-229 | replacing a character that does not occur changes nothing |
| PyStr.ReplaceCharAppend | models.py:228-229 | replacing one character works piece by piece on a concatenation |

## Left out

- SSH (`connect`, `_disconnect`, `_cmd`) is left out. Its output is the `shell` parameter, and its reconnect path is `shell` returning `None`.
- The Flask views of app.py, the templates and `config` loading are left out. The community tables are a `Config` parameter, and the example configuration is one value of it.
- `Peer.persistency` is left out: it reads the clock and formats floating-point minutes.
- IPv6 parsing in `ip_address` is left out. It is the parameter `v6`; only dotted IPv4 is read in the model.
- `isdecimal`, `\d` and `int` accept ASCII digits only in the model. Python also accepts other Unicode decimal digits, and `int` also accepts surrounding spaces and `_` separators.
- Prefixes.PrefixOf: `route` calls `Prefix(prefix_dump, ip_version)` with `ip_version=None` by default, where `int(None)` raises `TypeError`. The model takes the family as an integer.
- Objects are values. `Route.routes` aliasing the list that `route` fills, and the assignments `prefix.prefix = …` and `prefix.filtered = True`, become record updates.
- The `Prefix` fields that the source never sets (`next_hop_netname`, `via`, `time`) are left out.
- `parse_description` is the function `Describe`. It does not update a `Community` in place.
- RouteServers.RouteServer.Peer segments the protocol dump for `ip_version`, where models.py:141 uses the default family 4. The as-written behaviour is `PeerAsWritten`, stated in `PeerAsWrittenMissesIPv6`.
- RouteServers.RouteServer.Prefixes uses the corrected `peer` lookup. The as-written behaviour is `PrefixesResult` with lookup family 4, stated in `PrefixesAsWrittenFailsIPv6`.
- Pairing.PeersPairs: the second loop of `peers_pairs` is the separate method `PairStrays`.
- When disconnected, `peer` returns `Ok(None)` and `prefixes` returns `NoSession`. `NoSession` stands for the `[]` the source returns there, given its own constructor.
- A `None` destination or service, which the source would format or test with `in`, is left out: they are strings here.

## Findings

| source | as written | input that shows it | evidently intended | confidence | as-written member | corrected member |
|---|---|---|---|---|---|---|
| models.py:141 | `peer()` segments the dump with `_parse__show_protocols(bird_dump)`, so the default family 4 is used while `Peer(peer_dump, ip_version)` uses the requested family | `peer('peer_X', ip_version=6)` on a dump holding one protocol `peer6_X …`: its record is cut to nothing and `peer` returns `None`, and `prefixes` then raises `AttributeError` on `peer.imported_routes` | segment with `ip_version`, so that an IPv6 protocol is found | not executed | RouteServers.PeerAsWrittenMissesIPv6 | RouteServers.PeerCorrectedFindsIPv6 |
