/** track_to_bbox: from the parsed tracks of one granule to one label record per
    track, through the track's extent and the six-branch clipping chain against
    the crop window [cropwidth, xN - cropwidth]. */
module Bbox {
  import opened Wrappers
  import opened PyText
  import opened TrackFile

  /** The bbox_range argument: min/max over all vertices, or a window around the first. */
  datatype Mode = Full | Partial

  /** Half-width of the 'partial' window around the first vertex. */
  const Radius := 25

  /** The sentinel written for the remapped coordinates of a dropped track. */
  const Sentinel := -999

  /** xrng = [xMin, xMax] and yrng = [yMax, yMin] of the source. */
  datatype Extent = Extent(xMin: int, xMax: int, yMax: int, yMin: int)

  /** The four names the chain assigns: flag (0 keep, 1 drop), Nxrng0, Nxrng1, truncateFlag. */
  datatype Clip = Clip(flag: int, nx0: int, nx1: int, truncateFlag: int)

  const Dropped := Clip(1, Sentinel, Sentinel, 1)

  /** One struct of the returned list: sixteen text fields and the integer flag. */
  datatype Label = Label(
    kind: string, truncated: string, occluded: string, alpha: string,
    bboxLeft: string, bboxTop: string, bboxRight: string, bboxBottom: string,
    dimHeight: string, dimWidth: string, dimLength: string,
    locX: string, locY: string, locZ: string, rotationY: string, score: string,
    flag: int)

  /** The sixteen text fields in the order the label file lists them. */
  function Fields(l: Label): (r: seq<string>)
    ensures |r| == 16
  {
    [l.kind, l.truncated, l.occluded, l.alpha,
     l.bboxLeft, l.bboxTop, l.bboxRight, l.bboxBottom,
     l.dimHeight, l.dimWidth, l.dimLength,
     l.locX, l.locY, l.locZ, l.rotationY, l.score]
  }

  // ---------------------------------------------------------------------
  // Extents
  // ---------------------------------------------------------------------

  /** np.min */
  function SeqMin(s: seq<int>): int
    requires |s| > 0
  {
    if |s| == 1 then s[0]
    else
      var t := SeqMin(s[1..]);
      if s[0] <= t then s[0] else t
  }

  /** np.max */
  function SeqMax(s: seq<int>): int
    requires |s| > 0
  {
    if |s| == 1 then s[0]
    else
      var t := SeqMax(s[1..]);
      if s[0] >= t then s[0] else t
  }

  /** np.min is an element of the sequence and bounds every element from below. */
  lemma {:induction false} SeqMinBounds(s: seq<int>)
    requires |s| > 0
    ensures SeqMin(s) in s
    ensures forall i :: 0 <= i < |s| ==> SeqMin(s) <= s[i]
  {
    if |s| > 1 {
      SeqMinBounds(s[1..]);
      assert forall i :: 1 <= i < |s| ==> s[i] == s[1..][i - 1];
    }
  }

  /** np.max is an element of the sequence and bounds every element from above. */
  lemma {:induction false} SeqMaxBounds(s: seq<int>)
    requires |s| > 0
    ensures SeqMax(s) in s
    ensures forall i :: 0 <= i < |s| ==> s[i] <= SeqMax(s)
  {
    if |s| > 1 {
      SeqMaxBounds(s[1..]);
      assert forall i :: 1 <= i < |s| ==> s[i] == s[1..][i - 1];
    }
  }

  /** xrng = [x_min, x_max] and yrng = [y_max, y_min]: the extent of a track with x
      coordinates xs and y coordinates ys. */
  function ExtentOf(mode: Mode, xs: seq<int>, ys: seq<int>): Extent
    requires |xs| > 0 && |ys| > 0
  {
    match mode
    case Full => Extent(SeqMin(xs), SeqMax(xs), SeqMax(ys), SeqMin(ys))
    case Partial => Extent(xs[0] - Radius, xs[0] + Radius, ys[0] + Radius, ys[0] - Radius)
  }

  /** The extent is ordered; in full mode it is the tightest box around every bend,
      in partial mode the 50-pixel box centred on the first bend. */
  lemma ExtentBounds(mode: Mode, xs: seq<int>, ys: seq<int>)
    requires |xs| > 0 && |ys| > 0
    ensures var e := ExtentOf(mode, xs, ys);
      && e.xMin <= e.xMax && e.yMin <= e.yMax
      && (mode == Full ==>
            && e.xMin in xs && e.xMax in xs && e.yMin in ys && e.yMax in ys
            && (forall i :: 0 <= i < |xs| ==> e.xMin <= xs[i] <= e.xMax)
            && (forall i :: 0 <= i < |ys| ==> e.yMin <= ys[i] <= e.yMax))
      && (mode == Partial ==>
            && e.xMin + Radius == xs[0] == e.xMax - Radius
            && e.yMin + Radius == ys[0] == e.yMax - Radius)
  {
    SeqMinBounds(xs);
    SeqMaxBounds(xs);
    SeqMinBounds(ys);
    SeqMaxBounds(ys);
  }

  // ---------------------------------------------------------------------
  // The clipping chain
  // ---------------------------------------------------------------------

  /** xW0: left edge of the crop window in swath pixels. */
  function LeftBound(cropwidth: int): int { 0 + cropwidth }

  /** xW1: right edge of the crop window in swath pixels. */
  function RightBound(xN: int, cropwidth: int): int { xN - cropwidth }

  /** NxN: width of the cropped image. */
  function CropWidth(xN: int, cropwidth: int): int { RightBound(xN, cropwidth) - LeftBound(cropwidth) }

  /** The six branches of the chain, named after what they mean for an ordered extent. */
  datatype Branch =
    | Covers     // extent reaches past both window edges
    | LeftOf     // extent ends at or left of the left edge
    | CutLeft    // extent crosses the left edge only
    | Inside     // extent lies within the window
    | CutRight   // extent crosses the right edge only
    | RightOf    // extent starts at or right of the right edge

  /** Position of a branch in the chain. */
  function Rank(b: Branch): nat {
    match b
    case Covers => 1
    case LeftOf => 2
    case CutLeft => 3
    case Inside => 4
    case CutRight => 5
    case RightOf => 6
  }

  /** The condition guarding each branch, for the extent [x0, x1] and the window [xW0, xW1]. */
  predicate Fires(b: Branch, x0: int, x1: int, xW0: int, xW1: int) {
    match b
    case Covers => x0 <= xW0 && x1 >= xW1
    case LeftOf => x1 <= xW0
    case CutLeft => x0 <= xW0 && x1 > xW0 && x1 <= xW1
    case Inside => x0 >= xW0 && x1 <= xW1
    case CutRight => x0 >= xW0 && x1 >= xW1
    case RightOf => x0 >= xW1
  }

  /** What each branch assigns. */
  function Assigned(b: Branch, x0: int, x1: int, xN: int, cropwidth: int): Clip {
    var width := CropWidth(xN, cropwidth);
    match b
    case Covers => Clip(0, 0, width, 1)
    case LeftOf => Dropped
    case CutLeft => Clip(0, 0, x1 - cropwidth, 1)
    case Inside => Clip(0, x0 - cropwidth, x1 - cropwidth, 0)
    case CutRight => Clip(0, x0 - cropwidth, width, 1)
    case RightOf => Dropped
  }

  /** The branch whose assignments survive the chain: the last one whose condition
      holds. Some condition holds for every input, whatever the extent and window. */
  function Winner(x0: int, x1: int, xW0: int, xW1: int): (b: Branch)
    ensures Fires(b, x0, x1, xW0, xW1)
    ensures forall b' :: Rank(b') > Rank(b) ==> !Fires(b', x0, x1, xW0, xW1)
  {
    if Fires(RightOf, x0, x1, xW0, xW1) then RightOf
    else if Fires(CutRight, x0, x1, xW0, xW1) then CutRight
    else if Fires(Inside, x0, x1, xW0, xW1) then Inside
    else if Fires(CutLeft, x0, x1, xW0, xW1) then CutLeft
    else if Fires(LeftOf, x0, x1, xW0, xW1) then LeftOf
    else Covers
  }

  /** The values flag, Nxrng0, Nxrng1 and truncateFlag hold after the chain. */
  function ChainResult(x0: int, x1: int, xN: int, cropwidth: int): Clip {
    Assigned(Winner(x0, x1, LeftBound(cropwidth), RightBound(xN, cropwidth)), x0, x1, xN, cropwidth)
  }

  /** The chain of six unguarded ifs. Python keeps the four names bound from the
      previous track, passed in as carried; the result never depends on them. */
  method ClipChain(x0: int, x1: int, xN: int, cropwidth: int, carried: Clip) returns (c: Clip)
    ensures c == ChainResult(x0, x1, xN, cropwidth)
  {
    var xW0 := 0 + cropwidth;
    var xW1 := xN - cropwidth;
    var width := xW1 - xW0;
    var flag, nx0, nx1, truncateFlag := carried.flag, carried.nx0, carried.nx1, carried.truncateFlag;
    if x0 <= xW0 && x1 >= xW1 {
      flag := 0; nx0 := 0; nx1 := width; truncateFlag := 1;
    }
    if x1 <= xW0 {
      flag := 1; nx0 := Sentinel; nx1 := Sentinel; truncateFlag := 1;
    }
    if x0 <= xW0 && x1 > xW0 && x1 <= xW1 {
      nx0 := 0; nx1 := x1 - cropwidth; flag := 0; truncateFlag := 1;
    }
    if x0 >= xW0 && x1 <= xW1 {
      flag := 0; nx0 := x0 - cropwidth; nx1 := x1 - cropwidth; truncateFlag := 0;
    }
    if x0 >= xW0 && x1 >= xW1 {
      flag := 0; nx0 := x0 - cropwidth; nx1 := width; truncateFlag := 1;
    }
    if x0 >= xW1 {
      flag := 1; nx0 := Sentinel; nx1 := Sentinel; truncateFlag := 1;
    }
    c := Clip(flag, nx0, nx1, truncateFlag);
  }

  function Max(a: int, b: int): int { if a >= b then a else b }
  function Min(a: int, b: int): int { if a <= b then a else b }

  /** Reference reading of the chain for an ordered extent and a non-empty window:
      the part of [x0, x1] inside [L, R], shifted so that L becomes 0; the track is
      dropped when nothing of it lies inside, except that [L, L] is kept; it is
      truncated unless L <= x0 and x1 < R. */
  function Clamped(x0: int, x1: int, xN: int, cropwidth: int): Clip {
    var L, R := LeftBound(cropwidth), RightBound(xN, cropwidth);
    if x0 >= R || (x1 <= L && x0 != L) then Dropped
    else Clip(0, Max(x0, L) - L, Min(x1, R) - L, if L <= x0 && x1 < R then 0 else 1)
  }

  /** Whatever the input, at least one branch of the chain fires, so the four names
      are always assigned for the current track. */
  lemma ChainExhaustive(x0: int, x1: int, xW0: int, xW1: int)
    ensures exists b :: Fires(b, x0, x1, xW0, xW1)
  {
    assert Fires(Winner(x0, x1, xW0, xW1), x0, x1, xW0, xW1);
  }

  /** Whatever the extent and window, flag and truncateFlag end up 0 or 1. */
  lemma ChainFlags(x0: int, x1: int, xN: int, cropwidth: int)
    ensures var c := ChainResult(x0, x1, xN, cropwidth);
      && (c.flag == 0 || c.flag == 1) && (c.truncateFlag == 0 || c.truncateFlag == 1)
  {
  }

  /** The chain computes the clamped reading for every ordered extent. */
  lemma ChainIsClamped(x0: int, x1: int, xN: int, cropwidth: int)
    requires x0 <= x1 && LeftBound(cropwidth) < RightBound(xN, cropwidth)
    ensures ChainResult(x0, x1, xN, cropwidth) == Clamped(x0, x1, xN, cropwidth)
  {
  }

  /** A kept track's box lies inside the cropped image. */
  lemma VisibleWithinCrop(x0: int, x1: int, xN: int, cropwidth: int)
    requires x0 <= x1 && LeftBound(cropwidth) < RightBound(xN, cropwidth)
    ensures var c := ChainResult(x0, x1, xN, cropwidth);
      c.flag == 0 ==> 0 <= c.nx0 <= c.nx1 <= CropWidth(xN, cropwidth)
  {
  }

  /** Flags are 0 or 1; a track is dropped exactly when it starts at or right of the
      right edge, or ends at or left of the left edge without being the single
      point [L, L]; a dropped track carries the sentinels and is truncated. */
  lemma DroppedExactly(x0: int, x1: int, xN: int, cropwidth: int)
    requires x0 <= x1 && LeftBound(cropwidth) < RightBound(xN, cropwidth)
    ensures var c, L, R := ChainResult(x0, x1, xN, cropwidth), LeftBound(cropwidth), RightBound(xN, cropwidth);
      && (c.flag == 0 || c.flag == 1)
      && (c.truncateFlag == 0 || c.truncateFlag == 1)
      && (c.flag == 1 <==> x0 >= R || (x1 <= L && !(x0 == x1 == L)))
      && (c.flag == 1 ==> c.nx0 == Sentinel && c.nx1 == Sentinel && c.truncateFlag == 1)
  {
  }

  /** A track is untruncated exactly when L <= x0 and x1 < R: touching the right
      edge truncates, touching the left edge does not. */
  lemma TruncatedExactly(x0: int, x1: int, xN: int, cropwidth: int)
    requires x0 <= x1 && LeftBound(cropwidth) < RightBound(xN, cropwidth)
    ensures ChainResult(x0, x1, xN, cropwidth).truncateFlag == 0 <==>
      LeftBound(cropwidth) <= x0 && x1 < RightBound(xN, cropwidth)
  {
  }

  /** x0 == L: the left-cut and inside conditions both hold, and inside wins. */
  lemma LeftEdgeCountsInside(x0: int, x1: int, xN: int, cropwidth: int)
    requires x0 == LeftBound(cropwidth) < x1 < RightBound(xN, cropwidth)
    ensures var L, R := LeftBound(cropwidth), RightBound(xN, cropwidth);
      && Fires(CutLeft, x0, x1, L, R) && Fires(Inside, x0, x1, L, R)
      && Winner(x0, x1, L, R) == Inside
      && ChainResult(x0, x1, xN, cropwidth) == Clip(0, 0, x1 - cropwidth, 0)
  {
  }

  /** x1 == R with L <= x0 < R: the inside and right-cut conditions both hold, and the
      right cut wins, so the box is marked truncated. */
  lemma RightEdgeCountsTruncated(x0: int, x1: int, xN: int, cropwidth: int)
    requires LeftBound(cropwidth) <= x0 < x1 == RightBound(xN, cropwidth)
    ensures var L, R := LeftBound(cropwidth), RightBound(xN, cropwidth);
      && Fires(Inside, x0, x1, L, R) && Fires(CutRight, x0, x1, L, R)
      && Winner(x0, x1, L, R) == CutRight
      && ChainResult(x0, x1, xN, cropwidth) == Clip(0, x0 - cropwidth, CropWidth(xN, cropwidth), 1)
  {
  }

  /** A single point on the left edge is kept with the box [0, 0]; one on the right
      edge is dropped. */
  lemma EdgePoints(xN: int, cropwidth: int)
    requires LeftBound(cropwidth) < RightBound(xN, cropwidth)
    ensures var L, R := LeftBound(cropwidth), RightBound(xN, cropwidth);
      && ChainResult(L, L, xN, cropwidth) == Clip(0, 0, 0, 0)
      && ChainResult(R, R, xN, cropwidth) == Dropped
  {
  }

  /** The window of a 1350-pixel swath with 250 pixels cropped on each side. */
  lemma WindowScenarios()
    ensures ChainResult(240, 300, 1350, 250) == Clip(0, 0, 50, 1)
    ensures ChainResult(500, 600, 1350, 250) == Clip(0, 250, 350, 0)
    ensures ChainResult(50, 150, 1350, 250) == Dropped
  {
  }

  // ---------------------------------------------------------------------
  // Records
  // ---------------------------------------------------------------------

  /** The record built from a track's extent and its clipping outcome. */
  function LabelOf(c: Clip, e: Extent): Label {
    Label("shiptrack", IntToString(c.truncateFlag), "0", "0",
          IntToString(c.nx0), IntToString(e.yMin), IntToString(c.nx1), IntToString(e.yMax),
          "0", "0", "0", "0", "0", "0", "0", "0",
          c.flag)
  }

  /** Every token is an integer literal (what astype(np.float) is given here). */
  predicate AllInts(toks: seq<string>) {
    forall k :: 0 <= k < |toks| ==> ParseInt(toks[k]).Some?
  }

  /** astype: the numeric values of the tokens. */
  function Coords(toks: seq<string>): (r: seq<int>)
    requires AllInts(toks)
    ensures |r| == |toks|
  {
    if toks == [] then [] else [ParseInt(toks[0]).value] + Coords(toks[1..])
  }

  /** Each coordinate is the value of its token. */
  lemma {:induction false} CoordsParse(toks: seq<string>)
    requires AllInts(toks)
    ensures forall k :: 0 <= k < |toks| ==> ParseInt(toks[k]) == Some(Coords(toks)[k])
  {
    if toks != [] {
      CoordsParse(toks[1..]);
      assert forall k :: 1 <= k < |toks| ==> toks[k] == toks[1..][k - 1];
    }
  }

  /** Track i of track_points has its entries, with at least one x and one y, all
      integer literals. */
  predicate TrackUsable(tp: TrackPoints, i: nat) {
    && i < |tp.pts| && i < |tp.xpt| && i < |tp.ypt|
    && |tp.xpt[i]| > 0 && |tp.ypt[i]| > 0
    && AllInts(tp.xpt[i]) && AllInts(tp.ypt[i])
  }

  /** What track_to_bbox needs of track_points: every counted track is usable. */
  predicate Bboxable(tp: TrackPoints) {
    forall i: nat :: i < tp.ntracks ==> TrackUsable(tp, i)
  }

  function TrackExtent(tp: TrackPoints, i: nat, mode: Mode): Extent
    requires Bboxable(tp) && i < TrackCount(tp.ntracks)
  {
    assert TrackUsable(tp, i);
    ExtentOf(mode, Coords(tp.xpt[i]), Coords(tp.ypt[i]))
  }

  /** The record track_to_bbox builds for track i. */
  function TrackRecord(tp: TrackPoints, i: nat, xN: int, cropwidth: int, mode: Mode): Label
    requires Bboxable(tp) && i < TrackCount(tp.ntracks)
  {
    var e := TrackExtent(tp, i, mode);
    LabelOf(ChainResult(e.xMin, e.xMax, xN, cropwidth), e)
  }

  /** The list track_to_bbox returns. */
  function Records(tp: TrackPoints, xN: int, cropwidth: int, mode: Mode): (r: seq<Label>)
    requires Bboxable(tp)
    ensures |r| == TrackCount(tp.ntracks)
  {
    seq(TrackCount(tp.ntracks), i requires 0 <= i < TrackCount(tp.ntracks) => TrackRecord(tp, i, xN, cropwidth, mode))
  }

  /** The body of the loop for track iT: its extent, the clipping chain run from
      the values the previous track left, and the record. */
  method TrackBox(tp: TrackPoints, iT: nat, xN: int, cropwidth: int, mode: Mode, carried: Clip)
    returns (struct: Label, c: Clip)
    requires Bboxable(tp) && iT < TrackCount(tp.ntracks)
    ensures struct == TrackRecord(tp, iT, xN, cropwidth, mode)
  {
    assert TrackUsable(tp, iT);
    var xpt := Coords(tp.xpt[iT]);
    var ypt := Coords(tp.ypt[iT]);
    var e := ExtentOf(mode, xpt, ypt);
    c := ClipChain(e.xMin, e.xMax, xN, cropwidth, carried);
    struct := LabelOf(c, e);
  }

  /** The records of the first iT tracks, then track iT's: the records of the first iT + 1. */
  lemma RecordsGrow(tp: TrackPoints, xN: int, cropwidth: int, mode: Mode, iT: nat, done: seq<Label>, next: Label)
    requires Bboxable(tp) && iT < TrackCount(tp.ntracks)
    requires done == Records(tp, xN, cropwidth, mode)[..iT]
    requires next == TrackRecord(tp, iT, xN, cropwidth, mode)
    ensures done + [next] == Records(tp, xN, cropwidth, mode)[..iT + 1]
  {
    assert Records(tp, xN, cropwidth, mode)[iT] == next;
    PrefixGrows(Records(tp, xN, cropwidth, mode), iT);
  }

  lemma PrefixGrows(all: seq<Label>, i: nat)
    requires i < |all|
    ensures all[..i + 1] == all[..i] + [all[i]]
  {
  }

  /** track_to_bbox. yN is accepted and never used. */
  method TrackToBbox(tp: TrackPoints, xN: int, yN: int, cropwidth: int, mode: Mode) returns (structs: seq<Label>)
    requires Bboxable(tp)
    ensures structs == Records(tp, xN, cropwidth, mode)
  {
    structs := [];
    var carried := Clip(0, 0, 0, 0);
    for iT := 0 to TrackCount(tp.ntracks)
      invariant structs == Records(tp, xN, cropwidth, mode)[..iT]
    {
      var struct;
      struct, carried := TrackBox(tp, iT, xN, cropwidth, mode, carried);
      RecordsGrow(tp, xN, cropwidth, mode, iT, structs, struct);
      structs := structs + [struct];
    }
  }

  /** Every field is a single token: what str.split() needs to give the fields back. */
  predicate Printable(l: Label) {
    && IsWord(l.kind) && IsWord(l.truncated) && IsWord(l.occluded) && IsWord(l.alpha)
    && IsWord(l.bboxLeft) && IsWord(l.bboxTop) && IsWord(l.bboxRight) && IsWord(l.bboxBottom)
    && IsWord(l.dimHeight) && IsWord(l.dimWidth) && IsWord(l.dimLength)
    && IsWord(l.locX) && IsWord(l.locY) && IsWord(l.locZ) && IsWord(l.rotationY) && IsWord(l.score)
  }

  lemma PrintableFields(l: Label)
    requires Printable(l)
    ensures forall k :: 0 <= k < |Fields(l)| ==> IsWord(Fields(l)[k])
  {
    var f := Fields(l);
    forall k | 0 <= k < |f| ensures IsWord(f[k]) {
      if k < 8 {
        assert f[k] in {l.kind, l.truncated, l.occluded, l.alpha, l.bboxLeft, l.bboxTop, l.bboxRight, l.bboxBottom};
      } else {
        assert f[k] in {l.dimHeight, l.dimWidth, l.dimLength, l.locX, l.locY, l.locZ, l.rotationY, l.score};
      }
    }
  }

  /** A record built from any clipping outcome and extent: type 'shiptrack', the
      ten placeholders "0", every field one token, and truncated and the four box fields read
      back as the numbers they were written from. */
  lemma LabelOfShape(c: Clip, e: Extent)
    ensures var l := LabelOf(c, e);
      && l.kind == "shiptrack"
      && l.occluded == l.alpha == l.dimHeight == l.dimWidth == l.dimLength == "0"
      && l.locX == l.locY == l.locZ == l.rotationY == l.score == "0"
      && Printable(l) && l.flag == c.flag
      && ParseInt(l.truncated) == Some(c.truncateFlag)
      && ParseInt(l.bboxLeft) == Some(c.nx0) && ParseInt(l.bboxRight) == Some(c.nx1)
      && ParseInt(l.bboxTop) == Some(e.yMin) && ParseInt(l.bboxBottom) == Some(e.yMax)
  {
    IntRoundTrip(c.truncateFlag);
    IntRoundTrip(c.nx0);
    IntRoundTrip(c.nx1);
    IntRoundTrip(e.yMin);
    IntRoundTrip(e.yMax);
  }

  /** Each record of track_to_bbox: flag and truncated in {0, 1}, and bbox_top
      (the smaller y) at most bbox_bottom (the larger y) as integers. */
  lemma RecordShape(tp: TrackPoints, i: nat, xN: int, cropwidth: int, mode: Mode)
    requires Bboxable(tp) && i < TrackCount(tp.ntracks)
    ensures var l := TrackRecord(tp, i, xN, cropwidth, mode);
      && Printable(l)
      && (l.flag == 0 || l.flag == 1)
      && (l.truncated == "0" || l.truncated == "1")
      && ParseInt(l.bboxTop).Some? && ParseInt(l.bboxBottom).Some?
      && ParseInt(l.bboxTop).value <= ParseInt(l.bboxBottom).value
  {
    var e := TrackExtent(tp, i, mode);
    var c := ChainResult(e.xMin, e.xMax, xN, cropwidth);
    assert e.yMin <= e.yMax by {
      assert TrackUsable(tp, i);
      ExtentBounds(mode, Coords(tp.xpt[i]), Coords(tp.ypt[i]));
    }
    ChainFlags(e.xMin, e.xMax, xN, cropwidth);
    LabelOfShape(c, e);
  }
}
