/** read_osu_shiptrack_file: the positional reader of a hand-logged track file.
    The file is given as its lines, each already cut into tokens by str.split(). */
module TrackFile {
  import opened Wrappers
  import opened PyText

  /** What the reader returns: the track count as written, and per track its bend
      count and its x and y tokens, still as text (numpy keeps them as strings). */
  datatype TrackPoints = TrackPoints(ntracks: int, pts: seq<int>, xpt: seq<seq<string>>, ypt: seq<seq<string>>)

  /** The exceptions the reader can raise, with the index of the line at fault. */
  datatype ParseError = IndexError(line: nat) | ValueError(line: nat)

  /** How many times range(n) runs. */
  function TrackCount(n: int): nat {
    if n < 0 then 0 else n
  }

  /** geo[np.arange(start, 2 * p, 2)]: the tokens start, start + 2, ... below 2 * p. */
  function Alternate(geo: seq<string>, start: nat, p: int): (r: seq<string>)
    requires start < 2 && 2 * p <= |geo|
    ensures |r| == TrackCount(p)
    ensures forall k :: 0 <= k < |r| ==> r[k] == geo[2 * k + start]
  {
    seq(TrackCount(p), k requires 0 <= k < TrackCount(p) => geo[2 * k + start])
  }

  /** Line 1 starts with the track count. */
  predicate HeaderReadable(lines: seq<seq<string>>) {
    |lines| > 1 && |lines[1]| > 0 && ParseInt(lines[1][0]).Some?
  }

  function Ntracks(lines: seq<seq<string>>): int
    requires HeaderReadable(lines)
  {
    ParseInt(lines[1][0]).value
  }

  /** Track i: line 2 + 2i starts with its bend count p, and line 3 + 2i exists and
      holds at least 2p tokens (the x tokens are the even ones, the y tokens the odd ones). */
  predicate TrackReadable(lines: seq<seq<string>>, i: nat) {
    && 3 + 2 * i < |lines|
    && |lines[2 + 2 * i]| > 0
    && ParseInt(lines[2 + 2 * i][0]).Some?
    && 2 * ParseInt(lines[2 + 2 * i][0]).value <= |lines[3 + 2 * i]|
  }

  function Bends(lines: seq<seq<string>>, i: nat): int
    requires TrackReadable(lines, i)
  {
    ParseInt(lines[2 + 2 * i][0]).value
  }

  /** The file reads without an exception. */
  predicate Readable(lines: seq<seq<string>>) {
    && HeaderReadable(lines)
    && forall i: nat :: i < TrackCount(Ntracks(lines)) ==> TrackReadable(lines, i)
  }

  /** The exception a file with an unreadable header raises: IndexError when line 1
      is missing or empty, ValueError when its first token is not an integer. */
  function HeaderError(lines: seq<seq<string>>): ParseError
    requires !HeaderReadable(lines)
  {
    if |lines| < 2 || |lines[1]| == 0 then IndexError(1) else ValueError(1)
  }

  /** The exception unreadable track i raises: IndexError when its count line is
      missing or empty, ValueError when the count is not an integer, IndexError when
      its coordinate line is missing or holds fewer than 2p tokens. */
  function TrackError(lines: seq<seq<string>>, i: nat): ParseError
    requires !TrackReadable(lines, i)
  {
    if 2 + 2 * i >= |lines| || |lines[2 + 2 * i]| == 0 then IndexError(2 + 2 * i)
    else if ParseInt(lines[2 + 2 * i][0]).None? then ValueError(2 + 2 * i)
    else IndexError(3 + 2 * i)
  }

  /** read_osu_shiptrack_file. Line 0 is never looked at, nor is any token after
      the first on a count line or after the first 2p on a coordinate line. */
  method ReadTrackFile(lines: seq<seq<string>>) returns (r: Result<TrackPoints, ParseError>)
    ensures r.Ok? <==> Readable(lines)
    ensures r.Ok? ==>
      var tp, n := r.value, Ntracks(lines);
      && tp.ntracks == n
      && |tp.pts| == |tp.xpt| == |tp.ypt| == TrackCount(n)
      && forall i: nat :: i < TrackCount(n) ==>
           && tp.pts[i] == Bends(lines, i)
           && tp.xpt[i] == Alternate(lines[3 + 2 * i], 0, tp.pts[i])
           && tp.ypt[i] == Alternate(lines[3 + 2 * i], 1, tp.pts[i])
    ensures !HeaderReadable(lines) ==> r == Err(HeaderError(lines))
    ensures HeaderReadable(lines) && r.Err? ==>
      exists i: nat :: && i < TrackCount(Ntracks(lines)) && !TrackReadable(lines, i)
                       && (forall k: nat :: k < i ==> TrackReadable(lines, k))
                       && r.error == TrackError(lines, i)
  {
    if |lines| < 2 || |lines[1]| == 0 {
      return Err(IndexError(1));
    }
    var tnum := ParseInt(lines[1][0]);
    if tnum.None? {
      return Err(ValueError(1));
    }
    var n := tnum.value;
    var allX: seq<seq<string>> := [];
    var allY: seq<seq<string>> := [];
    var allPts: seq<int> := [];
    var ival := 0;
    var i := 0;
    while i < n
      invariant 0 <= i <= TrackCount(n)
      invariant ival == 2 * i
      invariant |allPts| == |allX| == |allY| == i
      invariant forall k: nat :: k < i ==>
        && TrackReadable(lines, k)
        && allPts[k] == Bends(lines, k)
        && allX[k] == Alternate(lines[3 + 2 * k], 0, allPts[k])
        && allY[k] == Alternate(lines[3 + 2 * k], 1, allPts[k])
    {
      ival := ival + 2;
      if ival >= |lines| || |lines[ival]| == 0 {
        assert !TrackReadable(lines, i);
        return Err(IndexError(ival));
      }
      var p := ParseInt(lines[ival][0]);
      if p.None? {
        assert !TrackReadable(lines, i);
        return Err(ValueError(ival));
      }
      var pts := p.value;
      if ival + 1 >= |lines| || 2 * pts > |lines[ival + 1]| {
        assert !TrackReadable(lines, i);
        return Err(IndexError(ival + 1));
      }
      var geo := lines[ival + 1];
      allX := allX + [Alternate(geo, 0, pts)];
      allY := allY + [Alternate(geo, 1, pts)];
      allPts := allPts + [pts];
      i := i + 1;
    }
    return Ok(TrackPoints(n, allPts, allX, allY));
  }
}
