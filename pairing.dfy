/** The summary page's join of two route servers' peer lists: `find_pair`
    looks a peer up by its `value` (the integer of its neighbour address) and
    `peers_pairs` lists every rs1 peer with its rs2 twin, then every rs2 peer
    whose value no rs1 peer has. */
module Pairing {
  import opened Outcome
  import opened Peers

  /** One row of the summary: the mirrored fields of the peer in the `rs1`
      slot, that peer, and its twin on the other server if any. */
  datatype Twins = Twins(
    value: nat,
    neighborAddress: Option<string>,
    neighborAs: Option<int>,
    description: Option<string>,
    rs1: Peer,
    rs2: Option<Peer>)

  /** The row built for `peer` and the lookup result `pair`. */
  function TwinsOf(peer: Peer, pair: Option<Peer>): Twins {
    Twins(peer.value, peer.neighborAddress, peer.neighborAs, peer.description, peer, pair)
  }

  // ---------------------------------------------------------------------------
  // find_pair

  /** The first peer of `peers` with the given value. */
  function FirstWithValue(value: nat, peers: seq<Peer>): Option<Peer>
    decreases |peers|
  {
    if peers == [] then None
    else if peers[0].value == value then Some(peers[0])
    else FirstWithValue(value, peers[1..])
  }

  /** The values of a peer list, in order. */
  function Values(peers: seq<Peer>): (vs: seq<nat>)
    ensures |vs| == |peers| && forall k :: 0 <= k < |peers| ==> vs[k] == peers[k].value
    decreases |peers|
  {
    if peers == [] then []
    else Values(peers[..|peers| - 1]) + [peers[|peers| - 1].value]
  }

  /** The lookup finds nothing exactly when no peer has the value. */
  lemma {:induction false} FirstWithValueNone(value: nat, peers: seq<Peer>)
    ensures FirstWithValue(value, peers).None? <==> value !in Values(peers)
    decreases |peers|
  {
    if peers != [] {
      FirstWithValueNone(value, peers[1..]);
      assert Values(peers) == [peers[0].value] + Values(peers[1..]);
    }
  }

  /** Otherwise it returns the peer at the first index holding the value. */
  lemma {:induction false} FirstWithValueFirst(value: nat, peers: seq<Peer>, k: nat)
    requires k < |peers| && peers[k].value == value
    requires forall j :: 0 <= j < k ==> peers[j].value != value
    ensures FirstWithValue(value, peers) == Some(peers[k])
    decreases k
  {
    if k > 0 {
      assert forall j :: 0 <= j < k - 1 ==> peers[1..][j] == peers[j + 1];
      FirstWithValueFirst(value, peers[1..], k - 1);
    }
  }

  /** `find_pair(value, peers)`: a linear scan returning at the first match. */
  method FindPair(value: nat, peers: seq<Peer>) returns (r: Option<Peer>)
    ensures r == FirstWithValue(value, peers)
  {
    for i := 0 to |peers|
      invariant FirstWithValue(value, peers) == FirstWithValue(value, peers[i..])
    {
      assert peers[i..][1..] == peers[i + 1..];
      if peers[i].value == value {
        return Some(peers[i]);
      }
    }
    return None;
  }

  // ---------------------------------------------------------------------------
  // peers_pairs

  /** One row per peer of `peers`, in order, each with its twin in `other`. */
  function Paired(peers: seq<Peer>, other: seq<Peer>): seq<Twins>
    decreases |peers|
  {
    if peers == [] then []
    else
      var p := peers[|peers| - 1];
      Paired(peers[..|peers| - 1], other) + [TwinsOf(p, FirstWithValue(p.value, other))]
  }

  /** The peers of `peers` whose value is not in `checked`, in order. */
  function Strays(peers: seq<Peer>, checked: seq<nat>): seq<Peer>
    decreases |peers|
  {
    if peers == [] then []
    else
      var p := peers[|peers| - 1];
      Strays(peers[..|peers| - 1], checked) + (if p.value in checked then [] else [p])
  }

  /** The result of `peers_pairs(rs1, rs2)`: the rs1 rows, then the rows of
      the rs2 peers left unpaired, each looked up against rs1. */
  function PairsOf(rs1: seq<Peer>, rs2: seq<Peer>): seq<Twins> {
    Paired(rs1, rs2) + Paired(Strays(rs2, Values(rs1)), rs1)
  }

  /** `peers_pairs(rs1_peers, rs2_peers)` with its two loops. */
  method PeersPairs(rs1: seq<Peer>, rs2: seq<Peer>) returns (pairs: seq<Twins>)
    ensures pairs == PairsOf(rs1, rs2)
  {
    pairs := [];
    var checked: seq<nat> := [];
    for i := 0 to |rs1|
      invariant pairs == Paired(rs1[..i], rs2)
      invariant checked == Values(rs1[..i])
    {
      PairedStep(rs1, i, rs2);
      var pair := FindPair(rs1[i].value, rs2);
      pairs := pairs + [TwinsOf(rs1[i], pair)];
      checked := checked + [rs1[i].value];
    }
    assert rs1[..|rs1|] == rs1;
    pairs := PairStrays(pairs, rs2, checked, rs1);
  }

  /** The second loop of `peers_pairs`: a row for each rs2 peer whose value
      is not among the `checked` rs1 values, looked up against rs1. */
  method PairStrays(pairs: seq<Twins>, rs2: seq<Peer>, checked: seq<nat>, rs1: seq<Peer>) returns (r: seq<Twins>)
    ensures r == pairs + Paired(Strays(rs2, checked), rs1)
  {
    r := pairs;
    for i := 0 to |rs2|
      invariant r == pairs + Paired(Strays(rs2[..i], checked), rs1)
    {
      PairStraysStep(pairs, rs2, i, checked, rs1);
      if rs2[i].value !in checked {
        var pair := FindPair(rs2[i].value, rs1);
        r := r + [TwinsOf(rs2[i], pair)];
      }
    }
    assert rs2[..|rs2|] == rs2;
  }

  /** One iteration of the second loop. */
  lemma PairStraysStep(pairs: seq<Twins>, rs2: seq<Peer>, i: nat, checked: seq<nat>, rs1: seq<Peer>)
    requires i < |rs2|
    ensures rs2[i].value in checked ==>
      pairs + Paired(Strays(rs2[..i + 1], checked), rs1) == pairs + Paired(Strays(rs2[..i], checked), rs1)
    ensures rs2[i].value !in checked ==>
      pairs + Paired(Strays(rs2[..i + 1], checked), rs1) ==
        pairs + Paired(Strays(rs2[..i], checked), rs1) + [TwinsOf(rs2[i], FirstWithValue(rs2[i].value, rs1))]
  {
    StraysSnoc(rs2, i, checked);
    if rs2[i].value !in checked {
      var s := Strays(rs2[..i], checked);
      PairedSnoc(s, rs2[i], rs1);
      var t := [TwinsOf(rs2[i], FirstWithValue(rs2[i].value, rs1))];
      assert pairs + (Paired(s, rs1) + t) == pairs + Paired(s, rs1) + t;
    }
  }

  lemma PairedStep(peers: seq<Peer>, i: nat, other: seq<Peer>)
    requires i < |peers|
    ensures Paired(peers[..i + 1], other) == Paired(peers[..i], other) + [TwinsOf(peers[i], FirstWithValue(peers[i].value, other))]
    ensures Values(peers[..i + 1]) == Values(peers[..i]) + [peers[i].value]
  {
    assert peers[..i + 1][..i] == peers[..i];
  }

  lemma StraysSnoc(peers: seq<Peer>, i: nat, checked: seq<nat>)
    requires i < |peers|
    ensures peers[i].value in checked ==> Strays(peers[..i + 1], checked) == Strays(peers[..i], checked)
    ensures peers[i].value !in checked ==> Strays(peers[..i + 1], checked) == Strays(peers[..i], checked) + [peers[i]]
  {
    assert peers[..i + 1][..i] == peers[..i];
    assert Strays(peers[..i], checked) + [] == Strays(peers[..i], checked);
  }

  lemma PairedSnoc(peers: seq<Peer>, p: Peer, other: seq<Peer>)
    ensures Paired(peers + [p], other) == Paired(peers, other) + [TwinsOf(p, FirstWithValue(p.value, other))]
  {
    assert (peers + [p])[..|peers|] == peers;
  }

  // ---------------------------------------------------------------------------
  // Properties of the join

  /** Row k of `Paired` is peer k with its twin. */
  lemma {:induction false} PairedRows(peers: seq<Peer>, other: seq<Peer>)
    ensures |Paired(peers, other)| == |peers|
    ensures forall k :: 0 <= k < |peers| ==>
      Paired(peers, other)[k] == TwinsOf(peers[k], FirstWithValue(peers[k].value, other))
    decreases |peers|
  {
    if peers != [] {
      var init := peers[..|peers| - 1];
      PairedRows(init, other);
      assert forall k :: 0 <= k < |init| ==> init[k] == peers[k];
    }
  }

  /** The strays are the peers whose value is unchecked, each with its
      multiplicity. */
  lemma {:induction false} StraysCount(peers: seq<Peer>, checked: seq<nat>)
    ensures forall p :: multiset(Strays(peers, checked))[p] == if p.value in checked then 0 else multiset(peers)[p]
    decreases |peers|
  {
    if peers != [] {
      var init := peers[..|peers| - 1];
      StraysCount(init, checked);
      assert peers == init + [peers[|peers| - 1]];
    }
  }

  /** Filtering keeps the order: the strays of a concatenation are the
      strays of each part, in turn. */
  lemma {:induction false} StraysAppend(ps: seq<Peer>, qs: seq<Peer>, checked: seq<nat>)
    ensures Strays(ps + qs, checked) == Strays(ps, checked) + Strays(qs, checked)
    decreases |qs|
  {
    if qs == [] {
      assert ps + qs == ps;
    } else {
      var init := qs[..|qs| - 1];
      assert (ps + qs)[..|ps + qs| - 1] == ps + init;
      StraysAppend(ps, init, checked);
    }
  }

  /** Every stray is unchecked. */
  lemma {:induction false} StraysUnchecked(peers: seq<Peer>, checked: seq<nat>)
    ensures forall k :: 0 <= k < |Strays(peers, checked)| ==> Strays(peers, checked)[k].value !in checked
    decreases |peers|
  {
    if peers != [] {
      StraysUnchecked(peers[..|peers| - 1], checked);
    }
  }

  /** The first |rs1| rows are the rs1 peers in order, each with the first
      rs2 peer of the same value. */
  lemma PairsFirstPart(rs1: seq<Peer>, rs2: seq<Peer>)
    ensures |PairsOf(rs1, rs2)| >= |rs1|
    ensures forall k :: 0 <= k < |rs1| ==>
      PairsOf(rs1, rs2)[k].rs1 == rs1[k] && PairsOf(rs1, rs2)[k].rs2 == FirstWithValue(rs1[k].value, rs2)
  {
    PairedRows(rs1, rs2);
  }

  /** After them come the unpaired rs2 peers in order, each in the `rs1`
      slot with an empty `rs2` slot (`StraysCount` says which peers those are,
      with multiplicity). */
  lemma PairsSecondPart(rs1: seq<Peer>, rs2: seq<Peer>)
    ensures var strays := Strays(rs2, Values(rs1));
      && |PairsOf(rs1, rs2)| == |rs1| + |strays|
      && forall k :: 0 <= k < |strays| ==>
           PairsOf(rs1, rs2)[|rs1| + k].rs1 == strays[k] && PairsOf(rs1, rs2)[|rs1| + k].rs2 == None
  {
    var strays := Strays(rs2, Values(rs1));
    var first, rest := Paired(rs1, rs2), Paired(strays, rs1);
    PairedRows(rs1, rs2);
    PairedRows(strays, rs1);
    StraysUnpaired(rs1, rs2);
    forall k | 0 <= k < |strays| ensures (first + rest)[|rs1| + k] == rest[k] {}
  }

  /** No stray has a twin among the rs1 peers. */
  lemma StraysUnpaired(rs1: seq<Peer>, rs2: seq<Peer>)
    ensures forall k :: 0 <= k < |Strays(rs2, Values(rs1))| ==>
      FirstWithValue(Strays(rs2, Values(rs1))[k].value, rs1) == None
  {
    var strays := Strays(rs2, Values(rs1));
    StraysUnchecked(rs2, Values(rs1));
    forall k | 0 <= k < |strays| ensures FirstWithValue(strays[k].value, rs1) == None {
      FirstWithValueNone(strays[k].value, rs1);
    }
  }

  /** Every value of either list appears in some row. */
  lemma PairsCoverage(rs1: seq<Peer>, rs2: seq<Peer>)
    ensures forall k :: 0 <= k < |rs1| ==> exists j :: 0 <= j < |PairsOf(rs1, rs2)| && PairsOf(rs1, rs2)[j].value == rs1[k].value
    ensures forall k :: 0 <= k < |rs2| ==> exists j :: 0 <= j < |PairsOf(rs1, rs2)| && PairsOf(rs1, rs2)[j].value == rs2[k].value
  {
    var pairs := PairsOf(rs1, rs2);
    var strays := Strays(rs2, Values(rs1));
    PairsValueAt(rs1, rs2);
    forall k | 0 <= k < |rs1| ensures exists j :: 0 <= j < |pairs| && pairs[j].value == rs1[k].value {
      assert pairs[k].value == rs1[k].value;
    }
    forall k | 0 <= k < |rs2| ensures exists j :: 0 <= j < |pairs| && pairs[j].value == rs2[k].value {
      var v := rs2[k].value;
      if v in Values(rs1) {
        var m :| 0 <= m < |rs1| && Values(rs1)[m] == v;
        assert pairs[m].value == v;
      } else {
        StraysMember(rs2, Values(rs1), rs2[k]);
        var m :| 0 <= m < |strays| && strays[m] == rs2[k];
        assert pairs[|rs1| + m].value == v;
      }
    }
  }

  /** Every row's value is the value of some peer of either list. */
  lemma PairsValuesFromLists(rs1: seq<Peer>, rs2: seq<Peer>)
    ensures forall j :: 0 <= j < |PairsOf(rs1, rs2)| ==> PairsOf(rs1, rs2)[j].value in Values(rs1) + Values(rs2)
  {
    var pairs := PairsOf(rs1, rs2);
    var strays := Strays(rs2, Values(rs1));
    PairsValueAt(rs1, rs2);
    forall j | 0 <= j < |pairs| ensures pairs[j].value in Values(rs1) + Values(rs2) {
      if j < |rs1| {
        assert pairs[j].value == Values(rs1)[j];
      } else {
        var p := strays[j - |rs1|];
        StraysMember(rs2, Values(rs1), p);
        var m :| 0 <= m < |rs2| && rs2[m] == p;
        assert (Values(rs1) + Values(rs2))[|rs1| + m] == pairs[j].value;
      }
    }
  }

  /** A peer is a stray exactly when it is in the list with an unchecked value. */
  lemma {:induction false} StraysMember(peers: seq<Peer>, checked: seq<nat>, p: Peer)
    ensures p in Strays(peers, checked) <==> p in peers && p.value !in checked
    decreases |peers|
  {
    if peers != [] {
      var init := peers[..|peers| - 1];
      StraysMember(init, checked, p);
      assert peers == init + [peers[|peers| - 1]];
    }
  }

  /** Row j's value is that of rs1 peer j, or of stray j - |rs1|. */
  lemma PairsValueAt(rs1: seq<Peer>, rs2: seq<Peer>)
    ensures var strays := Strays(rs2, Values(rs1));
      && |PairsOf(rs1, rs2)| == |rs1| + |strays|
      && (forall j :: 0 <= j < |rs1| ==> PairsOf(rs1, rs2)[j].value == rs1[j].value)
      && (forall j :: 0 <= j < |strays| ==> PairsOf(rs1, rs2)[|rs1| + j].value == strays[j].value)
  {
    PairedRows(rs1, rs2);
    PairedRows(Strays(rs2, Values(rs1)), rs1);
  }

  /** Each row's mirrored fields are those of its `rs1` peer, and its twin,
      when present, has the same value. */
  lemma PairsMirror(rs1: seq<Peer>, rs2: seq<Peer>)
    ensures forall j :: 0 <= j < |PairsOf(rs1, rs2)| ==>
      var t := PairsOf(rs1, rs2)[j];
      && t.value == t.rs1.value
      && t.neighborAddress == t.rs1.neighborAddress
      && t.neighborAs == t.rs1.neighborAs
      && t.description == t.rs1.description
      && (t.rs2.Some? ==> t.rs2.value.value == t.value)
  {
    var strays := Strays(rs2, Values(rs1));
    PairedRows(rs1, rs2);
    PairedRows(strays, rs1);
    forall k | 0 <= k < |rs1| && FirstWithValue(rs1[k].value, rs2).Some?
      ensures FirstWithValue(rs1[k].value, rs2).value.value == rs1[k].value
    {
      FirstWithValueMatches(rs1[k].value, rs2);
    }
    forall k | 0 <= k < |strays| && FirstWithValue(strays[k].value, rs1).Some?
      ensures FirstWithValue(strays[k].value, rs1).value.value == strays[k].value
    {
      FirstWithValueMatches(strays[k].value, rs1);
    }
  }

  /** A found peer has the value looked for and belongs to the list. */
  lemma {:induction false} FirstWithValueMatches(value: nat, peers: seq<Peer>)
    ensures FirstWithValue(value, peers).Some? ==>
      FirstWithValue(value, peers).value.value == value && FirstWithValue(value, peers).value in peers
    decreases |peers|
  {
    if peers != [] && peers[0].value != value {
      FirstWithValueMatches(value, peers[1..]);
    }
  }
}
