/** Splitting a BIRD dump into records: `RouteServer._parse__show_protocols`
    (one record per `peer…` protocol) and `RouteServer._parse__show_route_peer`
    (one record per path, opened by an IPv4-CIDR line). Both are the same loop
    with a different record-start test and a different rule for which open
    records collect their following lines. */
module Segmenter {
  import opened PyStr
  import opened Patterns

  type Block = seq<string>

  /** A line that opens a protocol record. */
  predicate IsPeerLine(l: string) {
    StartsWith(l, "peer")
  }

  /** Whether a protocol record's header collects the lines after it. */
  function HasTag(tag: string): string -> bool {
    l => StartsWith(l, tag)
  }

  /** Path records collect their lines whatever their header. */
  predicate AnyHeader(l: string) {
    true
  }

  /** `'peer%s_' % ip_version` */
  function PeerTag(ipVersion: int): string {
    "peer" + IntToString(ipVersion) + "_"
  }

  /** The segmenting loop written as a recursion over the remaining lines;
      `cur` is the record being accumulated, `[]` when none is open. */
  function Scan(starts: string -> bool, keeps: string -> bool, cur: Block, lines: seq<string>): seq<Block>
    decreases |lines|
  {
    if lines == [] then (if cur != [] && keeps(cur[0]) then [cur] else [])
    else if starts(lines[0]) then (if cur != [] then [cur] else []) + Scan(starts, keeps, [lines[0]], lines[1..])
    else Scan(starts, keeps, if cur != [] && keeps(cur[0]) then cur + [lines[0]] else cur, lines[1..])
  }

  /** One iteration of the loop: the record it closes, if any, and the
      record left open. */
  lemma ScanStep(starts: string -> bool, keeps: string -> bool, cur: Block, lines: seq<string>)
    requires lines != []
    ensures starts(lines[0]) ==>
      Scan(starts, keeps, cur, lines) == (if cur != [] then [cur] else []) + Scan(starts, keeps, [lines[0]], lines[1..])
    ensures !starts(lines[0]) && cur != [] && keeps(cur[0]) ==>
      Scan(starts, keeps, cur, lines) == Scan(starts, keeps, cur + [lines[0]], lines[1..])
    ensures !starts(lines[0]) && !(cur != [] && keeps(cur[0])) ==>
      Scan(starts, keeps, cur, lines) == Scan(starts, keeps, cur, lines[1..])
  {
  }

  /** `ScanStep` at index `i` of the dump. */
  lemma ScanStepAt(starts: string -> bool, keeps: string -> bool, cur: Block, lines: seq<string>, i: nat)
    requires i < |lines|
    ensures starts(lines[i]) ==>
      Scan(starts, keeps, cur, lines[i..]) == (if cur != [] then [cur] else []) + Scan(starts, keeps, [lines[i]], lines[i + 1..])
    ensures !starts(lines[i]) && cur != [] && keeps(cur[0]) ==>
      Scan(starts, keeps, cur, lines[i..]) == Scan(starts, keeps, cur + [lines[i]], lines[i + 1..])
    ensures !starts(lines[i]) && !(cur != [] && keeps(cur[0])) ==>
      Scan(starts, keeps, cur, lines[i..]) == Scan(starts, keeps, cur, lines[i + 1..])
  {
    assert lines[i..][0] == lines[i] && lines[i..][1..] == lines[i + 1..];
    ScanStep(starts, keeps, cur, lines[i..]);
  }

  /** The records closed so far after one more line. */
  function AdvanceOut(starts: string -> bool, out: seq<Block>, cur: Block, l: string): seq<Block> {
    if starts(l) && cur != [] then out + [cur] else out
  }

  /** The open record after one more line. */
  function AdvanceCur(starts: string -> bool, keeps: string -> bool, cur: Block, l: string): Block {
    if starts(l) then [l] else if cur != [] && keeps(cur[0]) then cur + [l] else cur
  }

  /** What the loop has closed, followed by what the rest of the dump yields,
      does not change from one iteration to the next. */
  lemma ScanAdvance(starts: string -> bool, keeps: string -> bool, out: seq<Block>, cur: Block, lines: seq<string>, i: nat)
    requires i < |lines|
    ensures out + Scan(starts, keeps, cur, lines[i..]) ==
      AdvanceOut(starts, out, cur, lines[i]) + Scan(starts, keeps, AdvanceCur(starts, keeps, cur, lines[i]), lines[i + 1..])
  {
    ScanStepAt(starts, keeps, cur, lines, i);
    if starts(lines[i]) && cur != [] {
      var s := Scan(starts, keeps, [lines[i]], lines[i + 1..]);
      assert out + ([cur] + s) == (out + [cur]) + s;
    } else if starts(lines[i]) {
      assert [] + Scan(starts, keeps, [lines[i]], lines[i + 1..]) == Scan(starts, keeps, [lines[i]], lines[i + 1..]);
    }
  }

  /** Number of lines before the next record start. */
  function BodyLen(starts: string -> bool, lines: seq<string>): (n: nat)
    ensures n <= |lines|
    ensures n < |lines| ==> starts(lines[n])
    decreases |lines|
  {
    if lines == [] || starts(lines[0]) then 0 else 1 + BodyLen(starts, lines[1..])
  }

  /** No record start precedes the one `BodyLen` stops at. */
  lemma {:induction false} BodyLenNoStart(starts: string -> bool, lines: seq<string>)
    ensures forall k :: 0 <= k < BodyLen(starts, lines) ==> !starts(lines[k])
    decreases |lines|
  {
    if lines != [] && !starts(lines[0]) {
      BodyLenNoStart(starts, lines[1..]);
      assert forall k :: 1 <= k < BodyLen(starts, lines) ==> lines[k] == lines[1..][k - 1];
    }
  }

  /** Reference segmentation. Lines before the first record start are
      dropped. Every record start and the lines up to the next one form a run;
      a run whose header is kept is one record, a run whose header is not kept
      becomes its header alone, except the last such run, which is not emitted. */
  function Segments(starts: string -> bool, keeps: string -> bool, lines: seq<string>): seq<Block>
    decreases |lines|
  {
    if lines == [] then []
    else if !starts(lines[0]) then Segments(starts, keeps, lines[1..])
    else
      var n := 1 + BodyLen(starts, lines[1..]);
      (if keeps(lines[0]) then [lines[..n]]
       else if n == |lines| then []
       else [[lines[0]]]) + Segments(starts, keeps, lines[n..])
  }

  // ---------------------------------------------------------------------------
  // The loop computes the reference segmentation

  /** The open record after a line that is not a record start. */
  function StepRecord(keeps: string -> bool, cur: Block, l: string): (r: Block)
    requires cur != []
    ensures r != [] && r[0] == cur[0]
  {
    if keeps(cur[0]) then cur + [l] else cur
  }

  /** The emitted part of the run headed by `h` whose body is `lines[..n]`. */
  function RunOut(keeps: string -> bool, cur: Block, lines: seq<string>, n: nat): seq<Block>
    requires cur != [] && n <= |lines|
  {
    if keeps(cur[0]) then [cur + lines[..n]] else if n == |lines| then [] else [cur]
  }

  lemma {:induction false} ScanRun(starts: string -> bool, keeps: string -> bool, cur: Block, lines: seq<string>)
    requires cur != [] && (keeps(cur[0]) || |cur| == 1)
    ensures Scan(starts, keeps, cur, lines) ==
      RunOut(keeps, cur, lines, BodyLen(starts, lines)) + Segments(starts, keeps, lines[BodyLen(starts, lines)..])
    decreases |lines|
  {
    if lines == [] {
      assert cur + lines[..0] == cur;
    } else if starts(lines[0]) {
      ScanRun(starts, keeps, [lines[0]], lines[1..]);
      ScanRunAtStart(starts, keeps, cur, lines);
    } else {
      ScanRun(starts, keeps, StepRecord(keeps, cur, lines[0]), lines[1..]);
      ScanRunInBody(starts, keeps, cur, lines);
    }
  }

  /** `ScanRun`'s step at a record start, given the claim for the new record. */
  lemma ScanRunAtStart(starts: string -> bool, keeps: string -> bool, cur: Block, lines: seq<string>)
    requires cur != [] && lines != [] && starts(lines[0])
    requires Scan(starts, keeps, [lines[0]], lines[1..]) ==
      RunOut(keeps, [lines[0]], lines[1..], BodyLen(starts, lines[1..]))
      + Segments(starts, keeps, lines[1..][BodyLen(starts, lines[1..])..])
    ensures Scan(starts, keeps, cur, lines) ==
      RunOut(keeps, cur, lines, BodyLen(starts, lines)) + Segments(starts, keeps, lines[BodyLen(starts, lines)..])
  {
    assert BodyLen(starts, lines) == 0;
    assert RunOut(keeps, cur, lines, 0) == [cur] by {
      assert cur + lines[..0] == cur;
    }
    assert lines[0..] == lines;
    assert Scan(starts, keeps, cur, lines) == [cur] + Scan(starts, keeps, [lines[0]], lines[1..]);
    SegmentsAtStart(starts, keeps, lines);
  }

  /** `ScanRun`'s step inside a record body, given the claim for the rest. */
  lemma ScanRunInBody(starts: string -> bool, keeps: string -> bool, cur: Block, lines: seq<string>)
    requires cur != [] && lines != [] && !starts(lines[0])
    requires Scan(starts, keeps, StepRecord(keeps, cur, lines[0]), lines[1..]) ==
      RunOut(keeps, StepRecord(keeps, cur, lines[0]), lines[1..], BodyLen(starts, lines[1..]))
      + Segments(starts, keeps, lines[1..][BodyLen(starts, lines[1..])..])
    ensures Scan(starts, keeps, cur, lines) ==
      RunOut(keeps, cur, lines, BodyLen(starts, lines)) + Segments(starts, keeps, lines[BodyLen(starts, lines)..])
  {
    var ls := lines[1..];
    var m := BodyLen(starts, ls);
    assert lines[1 + m..] == ls[m..];
    if keeps(cur[0]) {
      assert cur + lines[..1 + m] == (cur + [lines[0]]) + ls[..m];
    }
  }

  /** `Segments` at a record start: the run it opens, then the rest. */
  lemma SegmentsAtStart(starts: string -> bool, keeps: string -> bool, lines: seq<string>)
    requires lines != [] && starts(lines[0])
    ensures Segments(starts, keeps, lines) ==
      RunOut(keeps, [lines[0]], lines[1..], BodyLen(starts, lines[1..]))
      + Segments(starts, keeps, lines[1..][BodyLen(starts, lines[1..])..])
  {
    var ls := lines[1..];
    var m := BodyLen(starts, ls);
    assert lines[..1 + m] == [lines[0]] + ls[..m];
    assert lines[1 + m..] == ls[m..];
  }

  /** The loop of both segmenters, run from no open record, yields the
      reference segmentation. */
  lemma {:induction false} ScanIsSegments(starts: string -> bool, keeps: string -> bool, lines: seq<string>)
    ensures Scan(starts, keeps, [], lines) == Segments(starts, keeps, lines)
    decreases |lines|
  {
    if lines != [] {
      var ls := lines[1..];
      if starts(lines[0]) {
        var m := BodyLen(starts, ls);
        var tail := RunOut(keeps, [lines[0]], ls, m) + Segments(starts, keeps, ls[m..]);
        assert Scan(starts, keeps, [], lines) == Scan(starts, keeps, [lines[0]], ls) by {
          assert [] + Scan(starts, keeps, [lines[0]], ls) == Scan(starts, keeps, [lines[0]], ls);
        }
        assert Scan(starts, keeps, [lines[0]], ls) == tail by {
          ScanRun(starts, keeps, [lines[0]], ls);
        }
        assert Segments(starts, keeps, lines) == tail by {
          SegmentsAtStart(starts, keeps, lines);
        }
      } else {
        ScanIsSegments(starts, keeps, ls);
      }
    }
  }

  // ---------------------------------------------------------------------------
  // Properties of the segmentation

  /** A record: non-empty, opened by a record start, no later record start in
      it, and a header that is not kept stands alone. */
  predicate WellFormed(starts: string -> bool, keeps: string -> bool, blk: Block) {
    && blk != []
    && starts(blk[0])
    && (forall j :: 1 <= j < |blk| ==> !starts(blk[j]))
    && (!keeps(blk[0]) ==> |blk| == 1)
  }

  lemma {:induction false} SegmentsWellFormed(starts: string -> bool, keeps: string -> bool, lines: seq<string>)
    ensures forall k :: 0 <= k < |Segments(starts, keeps, lines)| ==> WellFormed(starts, keeps, Segments(starts, keeps, lines)[k])
    decreases |lines|
  {
    if lines != [] {
      if !starts(lines[0]) {
        SegmentsWellFormed(starts, keeps, lines[1..]);
      } else {
        var n := 1 + BodyLen(starts, lines[1..]);
        SegmentsWellFormed(starts, keeps, lines[n..]);
        BodyLenNoStart(starts, lines[1..]);
        if keeps(lines[0]) {
          forall j | 1 <= j < n ensures !starts(lines[..n][j]) {
            assert lines[..n][j] == lines[1..][j - 1];
          }
          assert WellFormed(starts, keeps, lines[..n]);
        } else {
          assert WellFormed(starts, keeps, [lines[0]]);
        }
      }
    }
  }

  lemma {:induction false} BodyLenOf(starts: string -> bool, body: seq<string>, rest: seq<string>)
    requires forall k :: 0 <= k < |body| ==> !starts(body[k])
    requires rest == [] || starts(rest[0])
    ensures BodyLen(starts, body + rest) == |body|
    decreases |body|
  {
    if body != [] {
      assert (body + rest)[1..] == body[1..] + rest;
      BodyLenOf(starts, body[1..], rest);
    }
  }

  /** Lines before the first record start are dropped. */
  lemma {:induction false} SegmentsDropPreamble(starts: string -> bool, keeps: string -> bool, pre: seq<string>, rest: seq<string>)
    requires forall k :: 0 <= k < |pre| ==> !starts(pre[k])
    ensures Segments(starts, keeps, pre + rest) == Segments(starts, keeps, rest)
    decreases |pre|
  {
    if pre != [] {
      var lines := pre + rest;
      assert lines[0] == pre[0];
      assert !starts(lines[0]);
      assert lines[1..] == pre[1..] + rest;
      SegmentsDropPreamble(starts, keeps, pre[1..], rest);
      assert Segments(starts, keeps, lines) == Segments(starts, keeps, lines[1..]);
    } else {
      assert pre + rest == rest;
    }
  }

  /** A run whose header is kept is emitted whole. */
  lemma SegmentsKeptRun(starts: string -> bool, keeps: string -> bool, h: string, body: seq<string>, rest: seq<string>)
    requires starts(h) && keeps(h)
    requires forall k :: 0 <= k < |body| ==> !starts(body[k])
    requires rest == [] || starts(rest[0])
    ensures Segments(starts, keeps, [h] + body + rest) == [[h] + body] + Segments(starts, keeps, rest)
  {
    var lines := [h] + body + rest;
    assert lines[1..] == body + rest;
    BodyLenOf(starts, body, rest);
    assert lines[..1 + |body|] == [h] + body;
    assert lines[1 + |body|..] == rest;
  }

  /** A run whose header is not kept is cut to its header, and the final one
      is not emitted at all. */
  lemma SegmentsUnkeptRun(starts: string -> bool, keeps: string -> bool, h: string, body: seq<string>, rest: seq<string>)
    requires starts(h) && !keeps(h)
    requires forall k :: 0 <= k < |body| ==> !starts(body[k])
    requires rest == [] || starts(rest[0])
    ensures Segments(starts, keeps, [h] + body + rest) == (if rest == [] then [] else [[h]]) + Segments(starts, keeps, rest)
  {
    var lines := [h] + body + rest;
    assert lines[1..] == body + rest;
    BodyLenOf(starts, body, rest);
    assert lines[1 + |body|..] == rest;
  }

  function Flatten(blocks: seq<Block>): seq<string>
    decreases |blocks|
  {
    if blocks == [] then [] else blocks[0] + Flatten(blocks[1..])
  }

  /** When every header is kept, the records partition the lines from the
      first record start onward. */
  lemma {:induction false} SegmentsFlattenKept(starts: string -> bool, keeps: string -> bool, lines: seq<string>)
    requires forall l :: keeps(l)
    ensures Flatten(Segments(starts, keeps, lines)) == lines[BodyLen(starts, lines)..]
    decreases |lines|
  {
    if lines != [] {
      if !starts(lines[0]) {
        SegmentsFlattenKept(starts, keeps, lines[1..]);
        assert lines[1..][BodyLen(starts, lines[1..])..] == lines[BodyLen(starts, lines)..];
      } else {
        var ls := lines[1..];
        SegmentsFlattenKept(starts, keeps, ls[BodyLen(starts, ls)..]);
        FlattenAtStart(starts, keeps, lines);
      }
    }
  }

  /** The step of `SegmentsFlattenKept` at a record start. */
  lemma FlattenAtStart(starts: string -> bool, keeps: string -> bool, lines: seq<string>)
    requires forall l :: keeps(l)
    requires lines != [] && starts(lines[0])
    requires var ls := lines[1..]; var after := ls[BodyLen(starts, ls)..];
      Flatten(Segments(starts, keeps, after)) == after[BodyLen(starts, after)..]
    ensures Flatten(Segments(starts, keeps, lines)) == lines
  {
    var ls := lines[1..];
    var m := BodyLen(starts, ls);
    var b := [lines[0]] + ls[..m];
    var rest := Segments(starts, keeps, ls[m..]);
    assert Segments(starts, keeps, lines) == [b] + rest by {
      SegmentsAtStart(starts, keeps, lines);
    }
    assert Flatten(rest) == ls[m..] by {
      assert BodyLen(starts, ls[m..]) == 0;
      assert ls[m..][0..] == ls[m..];
    }
    FlattenJoin(lines[0], ls, m, rest);
    assert [lines[0]] + ls == lines;
  }

  /** Flattening a record followed by records that flatten to the lines after it. */
  lemma FlattenJoin(h: string, ls: seq<string>, m: nat, rest: seq<Block>)
    requires m <= |ls| && Flatten(rest) == ls[m..]
    ensures Flatten([[h] + ls[..m]] + rest) == [h] + ls
  {
    var b := [h] + ls[..m];
    assert ([b] + rest)[1..] == rest;
    assert ls[..m] + ls[m..] == ls;
    assert b + ls[m..] == [h] + (ls[..m] + ls[m..]);
  }

  /** Path records partition the dump from its first path line onward. */
  lemma PathSegmentsFlatten(lines: seq<string>)
    ensures Flatten(Segments(IsPathMarker, AnyHeader, lines)) == lines[BodyLen(IsPathMarker, lines)..]
  {
    SegmentsFlattenKept(IsPathMarker, AnyHeader, lines);
  }

  // ---------------------------------------------------------------------------
  // The two segmenters

  /** `RouteServer._parse__show_protocols(bird_dump, ip_version)` */
  method ParseShowProtocols(dump: string, ipVersion: int) returns (peersLines: seq<Block>)
    ensures peersLines == Segments(IsPeerLine, HasTag(PeerTag(ipVersion)), SplitLines(dump))
    ensures dump == "" ==> peersLines == []
  {
    var lines := SplitLines(dump);
    var tag := PeerTag(ipVersion);
    peersLines := [];
    var peerLines: Block := [];
    for i := 0 to |lines|
      invariant peersLines + Scan(IsPeerLine, HasTag(tag), peerLines, lines[i..]) == Scan(IsPeerLine, HasTag(tag), [], lines)
    {
      var l := lines[i];
      ScanAdvance(IsPeerLine, HasTag(tag), peersLines, peerLines, lines, i);
      ghost var out, cur := AdvanceOut(IsPeerLine, peersLines, peerLines, l), AdvanceCur(IsPeerLine, HasTag(tag), peerLines, l);
      if StartsWith(l, "peer") {
        if peerLines != [] {
          peersLines := peersLines + [peerLines];
          peerLines := [];
        }
        peerLines := peerLines + [l];
        assert peerLines == [l];
      } else {
        if peerLines != [] && StartsWith(peerLines[0], tag) {
          peerLines := peerLines + [l];
        }
      }
      assert peersLines == out && peerLines == cur;
    }
    if peerLines != [] && StartsWith(peerLines[0], tag) {
      peersLines := peersLines + [peerLines];
    }
    ScanIsSegments(IsPeerLine, HasTag(tag), lines);
  }

  /** `RouteServer._parse__show_route_peer(bird_dump)` */
  method ParseShowRoutePeer(dump: string) returns (routes: seq<Block>)
    ensures routes == Segments(IsPathMarker, AnyHeader, SplitLines(dump))
    ensures dump == "" ==> routes == []
  {
    var lines := SplitLines(dump);
    routes := [];
    var route: Block := [];
    for i := 0 to |lines|
      invariant routes + Scan(IsPathMarker, AnyHeader, route, lines[i..]) == Scan(IsPathMarker, AnyHeader, [], lines)
    {
      var l := lines[i];
      ScanAdvance(IsPathMarker, AnyHeader, routes, route, lines, i);
      ghost var out, cur := AdvanceOut(IsPathMarker, routes, route, l), AdvanceCur(IsPathMarker, AnyHeader, route, l);
      if IsPathMarker(l) {
        if route != [] {
          routes := routes + [route];
          route := [];
        }
        route := route + [l];
        assert route == [l];
      } else {
        if route != [] {
          route := route + [l];
        }
      }
      assert routes == out && route == cur;
    }
    if route != [] {
      routes := routes + [route];
    }
    ScanIsSegments(IsPathMarker, AnyHeader, lines);
  }
}
