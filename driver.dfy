/** The granule loop of process_track_images.py without its I/O: decoding the
    granule key from the t-file name, the "some track is visible" gate, writing the
    label file and reading its lines back, the box colour, and the zero-padded
    output names driven by the counter CT. */
module Driver {
  import opened Wrappers
  import opened PyText
  import opened TrackFile
  import opened Bbox

  /** Pixels cropped off each side of the swath. */
  const CroppedArea := 250

  /** The bbox_range the script passes to track_to_bbox. */
  const BboxRange := Partial

  // ---------------------------------------------------------------------
  // Granule key
  // ---------------------------------------------------------------------

  /** Instrument, year, day of year and hour-minute, as the product lookup uses them. */
  datatype GranuleKey = GranuleKey(mtype: string, year: string, day: string, hhmm: string)

  /** mtype: set to 'mod' when the name holds "MOD", then to 'myd' when it holds
      "MYD", so "MYD" wins when both occur. */
  function Instrument(tfile: string): (m: string)
    ensures m == "myd" <==> exists i :: OccursAt(tfile, "MYD", i)
    ensures m == "mod" <==> (exists i :: OccursAt(tfile, "MOD", i)) && !(exists i :: OccursAt(tfile, "MYD", i))
    ensures m == "" <==> !(exists i :: OccursAt(tfile, "MOD", i)) && !(exists i :: OccursAt(tfile, "MYD", i))
  {
    var m := "";
    var m := if Contains(tfile, "MOD") then "mod" else m;
    if Contains(tfile, "MYD") then "myd" else m
  }

  /** The key read off the t-file name; the time fields are the slices
      [ed-16:ed-12], [ed-12:ed-9] and [ed-8:ed-4] with ed = len(tfile). */
  function DecodeKey(tfile: string): (k: GranuleKey)
    ensures k.mtype == Instrument(tfile)
    ensures var ed := |tfile|;
      ed >= 16 ==>
        && k.year == tfile[ed - 16..ed - 12] && |k.year| == 4
        && k.day == tfile[ed - 12..ed - 9] && |k.day| == 3
        && k.hhmm == tfile[ed - 8..ed - 4] && |k.hhmm| == 4
  {
    var ed := |tfile|;
    GranuleKey(Instrument(tfile), Slice(tfile, ed - 16, ed - 12), Slice(tfile, ed - 12, ed - 9), Slice(tfile, ed - 8, ed - 4))
  }

  /** A name laid out as the key slices expect: instrument, then year, day of year,
      a separator and the hour-minute just before the four-character extension. */
  lemma KeyExample()
    ensures DecodeKey("tMYD2008123.1234.dat") == GranuleKey("myd", "2008", "123", "1234")
  {
    var t := "tMYD2008123.1234.dat";
    assert OccursAt(t, "MYD", 1) by {
      assert t[1..4] == "MYD";
    }
    assert Instrument(t) == "myd";
    assert t[4..8] == "2008";
    assert t[8..11] == "123";
    assert t[12..16] == "1234";
  }

  // ---------------------------------------------------------------------
  // The gate
  // ---------------------------------------------------------------------

  /** The flag of every record, in order: the flags list the script builds. */
  method ExtractFlags(trainData: seq<Label>) returns (flags: seq<int>)
    ensures |flags| == |trainData|
    ensures forall i :: 0 <= i < |flags| ==> flags[i] == trainData[i].flag
  {
    flags := [];
    var iTRK := 0;
    while iTRK < |trainData|
      invariant 0 <= iTRK <= |trainData|
      invariant |flags| == iTRK
      invariant forall i :: 0 <= i < iTRK ==> flags[i] == trainData[i].flag
    {
      flags := flags + [trainData[iTRK].flag];
      iTRK := iTRK + 1;
    }
  }

  function FlagsOf(trainData: seq<Label>): seq<int> {
    seq(|trainData|, i requires 0 <= i < |trainData| => trainData[i].flag)
  }

  /** np.sum */
  function Sum(xs: seq<int>): int {
    if xs == [] then 0 else Sum(xs[..|xs| - 1]) + xs[|xs| - 1]
  }

  predicate ZeroOne(flags: seq<int>) {
    forall i :: 0 <= i < |flags| ==> flags[i] == 0 || flags[i] == 1
  }

  /** The granule is processed when sum(flags) < len(trainData). */
  predicate Gate(flags: seq<int>) {
    Sum(flags) < |flags|
  }

  lemma {:induction false} SumOfZeroOne(flags: seq<int>)
    requires ZeroOne(flags)
    ensures 0 <= Sum(flags) <= |flags|
    ensures Sum(flags) == |flags| <==> forall i :: 0 <= i < |flags| ==> flags[i] == 1
  {
    if flags != [] {
      var init := flags[..|flags| - 1];
      assert forall i :: 0 <= i < |init| ==> init[i] == flags[i];
      SumOfZeroOne(init);
    }
  }

  /** With flags in {0, 1}, the gate passes exactly when some track is kept; an
      empty track list never passes. */
  lemma GateIff(flags: seq<int>)
    requires ZeroOne(flags)
    ensures Gate(flags) <==> exists i :: 0 <= i < |flags| && flags[i] == 0
  {
    SumOfZeroOne(flags);
  }

  // ---------------------------------------------------------------------
  // The label file
  // ---------------------------------------------------------------------

  /** The records with flag 0, in order. */
  function Visible(trainData: seq<Label>): seq<Label> {
    if trainData == [] then []
    else
      var last := trainData[|trainData| - 1];
      Visible(trainData[..|trainData| - 1]) + (if last.flag == 0 then [last] else [])
  }

  /** The kept records all have flag 0 and come from the list, and every record with
      flag 0 is kept. */
  lemma {:induction false} VisibleExactly(trainData: seq<Label>)
    ensures |Visible(trainData)| <= |trainData|
    ensures forall l :: l in Visible(trainData) ==> l in trainData && l.flag == 0
    ensures forall i :: 0 <= i < |trainData| && trainData[i].flag == 0 ==> trainData[i] in Visible(trainData)
  {
    if trainData != [] {
      var init := trainData[..|trainData| - 1];
      VisibleExactly(init);
      assert forall i :: 0 <= i < |init| ==> init[i] == trainData[i];
    }
  }

  /** The line written for one record: the sixteen fields joined by single spaces,
      then a newline. */
  function LabelLine(l: Label): string {
    JoinSpaced(Fields(l)) + "\n"
  }

  function Lines(recs: seq<Label>): (r: seq<string>)
    ensures |r| == |recs|
  {
    seq(|recs|, j requires 0 <= j < |recs| => LabelLine(recs[j]))
  }

  /** The text of the label file: one line per kept record, in order. */
  function LabelText(trainData: seq<Label>): string {
    Concat(Lines(Visible(trainData)))
  }

  lemma VisibleStep(trainData: seq<Label>, i: nat)
    requires i < |trainData|
    ensures Visible(trainData[..i + 1]) ==
      Visible(trainData[..i]) + (if trainData[i].flag == 0 then [trainData[i]] else [])
  {
    assert trainData[..i + 1][..i] == trainData[..i];
  }

  lemma LinesSnoc(recs: seq<Label>, l: Label)
    ensures Concat(Lines(recs + [l])) == Concat(Lines(recs)) + LabelLine(l)
  {
    assert Lines(recs + [l]) == Lines(recs) + [LabelLine(l)];
    ConcatSnoc(Lines(recs), LabelLine(l));
  }

  /** The loop writing the label file. */
  method WriteLabelFile(trainData: seq<Label>) returns (text: string)
    ensures text == LabelText(trainData)
  {
    text := [];
    var iTRK := 0;
    while iTRK < |trainData|
      invariant 0 <= iTRK <= |trainData|
      invariant text == Concat(Lines(Visible(trainData[..iTRK])))
    {
      var l := trainData[iTRK];
      VisibleStep(trainData, iTRK);
      if l.flag == 0 {
        LinesSnoc(Visible(trainData[..iTRK]), l);
        text := text + LabelLine(l);
      } else {
        assert Visible(trainData[..iTRK + 1]) == Visible(trainData[..iTRK]);
      }
      iTRK := iTRK + 1;
    }
    assert trainData[..iTRK] == trainData;
  }

  /** The number of label lines is len(trainData) - sum(flags). */
  lemma {:induction false} VisibleCount(trainData: seq<Label>)
    requires ZeroOne(FlagsOf(trainData))
    ensures |Visible(trainData)| == |trainData| - Sum(FlagsOf(trainData))
  {
    if trainData != [] {
      var init := trainData[..|trainData| - 1];
      assert FlagsOf(trainData)[..|trainData| - 1] == FlagsOf(init);
      assert ZeroOne(FlagsOf(init)) by {
        forall i | 0 <= i < |init| ensures FlagsOf(init)[i] == 0 || FlagsOf(init)[i] == 1 {
          assert FlagsOf(init)[i] == FlagsOf(trainData)[i];
        }
      }
      VisibleCount(init);
    }
  }

  /** A written record line is a single line of the file, and splitting it on
      whitespace gives back its sixteen fields. */
  lemma LabelLineTokens(l: Label)
    requires Printable(l)
    ensures IsLine(LabelLine(l))
    ensures SplitWords(LabelLine(l)) == Fields(l)
  {
    PrintableFields(l);
    JoinSpacedNoNewline(Fields(l));
    assert AllSpaces("\n");
    SplitJoin(Fields(l), "\n");
  }

  /** Reading the label file back with readlines gives exactly one line per kept
      record, in order, and each line splits into that record's sixteen fields. */
  lemma LabelFileReadsBack(trainData: seq<Label>)
    requires forall i :: 0 <= i < |trainData| ==> Printable(trainData[i])
    ensures ReadLines(LabelText(trainData)) == Lines(Visible(trainData))
    ensures forall j :: 0 <= j < |Visible(trainData)| ==>
      SplitWords(ReadLines(LabelText(trainData))[j]) == Fields(Visible(trainData)[j])
  {
    var vis := Visible(trainData);
    VisibleExactly(trainData);
    forall j | 0 <= j < |vis| ensures IsLine(Lines(vis)[j]) && SplitWords(Lines(vis)[j]) == Fields(vis[j]) {
      assert vis[j] in trainData;
      LabelLineTokens(vis[j]);
    }
    ReadLinesConcat(Lines(vis));
  }

  // ---------------------------------------------------------------------
  // Reading a box back
  // ---------------------------------------------------------------------

  datatype Colour = Black | White

  /** The outline colour: black for a box inside the window, white for a truncated
      one. Any other flag leaves col unset, which is None here. */
  function BoxColour(truncateFlag: int): (col: Option<Colour>)
    ensures col == Some(Black) <==> truncateFlag == 0
    ensures col == Some(White) <==> truncateFlag == 1
    ensures col == None <==> truncateFlag != 0 && truncateFlag != 1
  {
    var col := None;
    var col := if truncateFlag == 0 then Some(Black) else col;
    if truncateFlag == 1 then Some(White) else col
  }

  /** What the drawing loop reads from one line: left, top, right, bottom, colour. */
  datatype Box = Box(xL: int, yT: int, xR: int, yB: int, colour: Colour)

  /** int(line[4]) ... int(line[7]) and int(line[1]) of the tokens; too few tokens
      (IndexError), a token that is not an integer (ValueError) or a flag other than
      0 and 1 (no colour) give None. */
  function BoxOfTokens(t: seq<string>): Option<Box> {
    if |t| < 8 then None
    else
      var xL, yT, xR, yB := ParseInt(t[4]), ParseInt(t[5]), ParseInt(t[6]), ParseInt(t[7]);
      var tf := ParseInt(t[1]);
      if xL.None? || yT.None? || xR.None? || yB.None? || tf.None? then None
      else
        var col := BoxColour(tf.value);
        if col.None? then None else Some(Box(xL.value, yT.value, xR.value, yB.value, col.value))
  }

  /** One line of the label file as the drawing loop reads it, after line.split(). */
  function ParseLabelLine(line: string): Option<Box> {
    BoxOfTokens(SplitWords(line))
  }

  /** A written record line is read back from its own sixteen fields. */
  lemma ParseWrittenLine(l: Label)
    requires Printable(l)
    ensures ParseLabelLine(LabelLine(l)) == BoxOfTokens(Fields(l))
  {
    LabelLineTokens(l);
  }

  lemma BoxOfRecord(c: Clip, e: Extent)
    requires c.truncateFlag == 0 || c.truncateFlag == 1
    ensures BoxOfTokens(Fields(LabelOf(c, e))) ==
      Some(Box(c.nx0, e.yMin, c.nx1, e.yMax, if c.truncateFlag == 0 then Black else White))
  {
    var t := Fields(LabelOf(c, e));
    assert t[1] == IntToString(c.truncateFlag) && t[4] == IntToString(c.nx0) && t[5] == IntToString(e.yMin);
    assert t[6] == IntToString(c.nx1) && t[7] == IntToString(e.yMax);
    IntRoundTrip(c.truncateFlag);
    IntRoundTrip(c.nx0);
    IntRoundTrip(c.nx1);
    IntRoundTrip(e.yMin);
    IntRoundTrip(e.yMax);
    BoxOfParsed(t, c.nx0, e.yMin, c.nx1, e.yMax, c.truncateFlag);
  }

  lemma BoxOfParsed(t: seq<string>, xL: int, yT: int, xR: int, yB: int, tf: int)
    requires |t| >= 8 && (tf == 0 || tf == 1)
    requires ParseInt(t[1]) == Some(tf)
    requires ParseInt(t[4]) == Some(xL) && ParseInt(t[5]) == Some(yT)
    requires ParseInt(t[6]) == Some(xR) && ParseInt(t[7]) == Some(yB)
    ensures BoxOfTokens(t) == Some(Box(xL, yT, xR, yB, if tf == 0 then Black else White))
  {
  }

  /** The line written for a track reads back as the box it was written from:
      the remapped x range, min y as top, max y as bottom, and black exactly when
      the track is not truncated. */
  lemma LabelLineRoundTrip(c: Clip, e: Extent)
    requires c.truncateFlag == 0 || c.truncateFlag == 1
    ensures ParseLabelLine(LabelLine(LabelOf(c, e))) ==
      Some(Box(c.nx0, e.yMin, c.nx1, e.yMax, if c.truncateFlag == 0 then Black else White))
  {
    LabelOfShape(c, e);
    ParseWrittenLine(LabelOf(c, e));
    BoxOfRecord(c, e);
  }

  // ---------------------------------------------------------------------
  // Output names and the granule loop
  // ---------------------------------------------------------------------

  /** str(CT).zfill(4): the stem shared by the image, label and box-image files. */
  function Stem(ct: nat): string {
    ZFill(IntToString(ct), 4)
  }

  /** The stem is at least four characters, ends with str(CT), and reads back as CT. */
  lemma StemReadsBack(ct: nat)
    ensures |Stem(ct)| == if |IntToString(ct)| >= 4 then |IntToString(ct)| else 4
    ensures Stem(ct)[|Stem(ct)| - |IntToString(ct)|..] == IntToString(ct)
    ensures ParseInt(Stem(ct)) == Some(ct)
  {
    var d := IntToString(ct);
    IntRoundTrip(ct);
    if |d| < 4 {
      LeadingZeros(4 - |d|, d);
      assert Stem(ct) == Zeros(4 - |d|) + d;
    }
  }

  /** Different counter values give different file names. */
  lemma StemInjective(a: nat, b: nat)
    requires Stem(a) == Stem(b)
    ensures a == b
  {
    StemReadsBack(a);
    StemReadsBack(b);
  }

  /** One granule as the loop sees it: the t-file's name, its parsed track points,
      and the swath size read from the radiance product. */
  datatype Granule = Granule(tfile: string, track: TrackPoints, xN: int, yN: int)

  /** The files a processed granule produces: the shared stem, the key its products
      were found under, and the text of its label file. */
  datatype Output = Output(stem: string, key: GranuleKey, labels: string)

  /** What one granule contributes: its key and label text when all four products
      are available under its key and some track is kept. */
  function GranuleResult(g: Granule, available: set<GranuleKey>): Option<(GranuleKey, string)>
    requires Processable(g, available)
  {
    var key := DecodeKey(g.tfile);
    if key !in available then None
    else
      var trainData := Records(g.track, g.xN, CroppedArea, BboxRange);
      if Gate(FlagsOf(trainData)) then Some((key, LabelText(trainData))) else None
  }

  /** track_to_bbox only runs on a granule whose products are found, so only such a
      granule's tracks need to be usable. */
  predicate Processable(g: Granule, available: set<GranuleKey>) {
    DecodeKey(g.tfile) in available ==> Bboxable(g.track)
  }

  predicate AllProcessable(gs: seq<Granule>, available: set<GranuleKey>) {
    forall k :: 0 <= k < |gs| ==> Processable(gs[k], available)
  }

  lemma ProcessablePrefix(gs: seq<Granule>, n: nat, available: set<GranuleKey>)
    requires AllProcessable(gs, available) && n <= |gs|
    ensures AllProcessable(gs[..n], available)
  {
    forall k | 0 <= k < n ensures Processable(gs[..n][k], available) {
      assert gs[..n][k] == gs[k];
    }
  }

  /** The contributions of the granules, in order. */
  function Produced(gs: seq<Granule>, available: set<GranuleKey>): seq<(GranuleKey, string)>
    requires AllProcessable(gs, available)
  {
    if gs == [] then []
    else
      ProcessablePrefix(gs, |gs| - 1, available);
      var g := GranuleResult(gs[|gs| - 1], available);
      Produced(gs[..|gs| - 1], available) + (if g.Some? then [g.value] else [])
  }

  lemma ProducedStep(gs: seq<Granule>, i: nat, available: set<GranuleKey>)
    requires AllProcessable(gs, available) && i < |gs|
    ensures AllProcessable(gs[..i], available) && AllProcessable(gs[..i + 1], available)
    ensures var g := GranuleResult(gs[i], available);
      Produced(gs[..i + 1], available) == Produced(gs[..i], available) + (if g.Some? then [g.value] else [])
  {
    ProcessablePrefix(gs, i, available);
    ProcessablePrefix(gs, i + 1, available);
    assert gs[..i + 1][..i] == gs[..i];
  }

  /** The body of the loop for one granule: look up its products, build its
      records, and write its label file when some track is kept. */
  method ProcessGranule(g: Granule, available: set<GranuleKey>) returns (r: Option<(GranuleKey, string)>)
    requires Processable(g, available)
    ensures r == GranuleResult(g, available)
  {
    var key := DecodeKey(g.tfile);
    if key !in available {
      return None;
    }
    var trainData := TrackToBbox(g.track, g.xN, g.yN, CroppedArea, BboxRange);
    var flags := ExtractFlags(trainData);
    assert flags == FlagsOf(trainData);
    if Sum(flags) < |trainData| {
      var text := WriteLabelFile(trainData);
      return Some((key, text));
    }
    return None;
  }

  /** Output k carries the name name(k) and the k-th contribution. */
  predicate Named(outs: seq<Output>, ps: seq<(GranuleKey, string)>, name: nat -> string) {
    |outs| == |ps| && forall k :: 0 <= k < |outs| ==> outs[k] == Output(name(k), ps[k].0, ps[k].1)
  }

  lemma NamedSnoc(outs: seq<Output>, ps: seq<(GranuleKey, string)>, p: (GranuleKey, string), name: nat -> string)
    requires Named(outs, ps, name)
    ensures Named(outs + [Output(name(|outs|), p.0, p.1)], ps + [p], name)
  {
    var outs', ps' := outs + [Output(name(|outs|), p.0, p.1)], ps + [p];
    forall k | 0 <= k < |outs'| ensures outs'[k] == Output(name(k), ps'[k].0, ps'[k].1) {
      if k < |outs| {
        assert outs'[k] == outs[k] && ps'[k] == ps[k];
      }
    }
  }

  lemma NamedByStem(outs: seq<Output>, ps: seq<(GranuleKey, string)>)
    requires Named(outs, ps, Stem)
    ensures |outs| == |ps|
    ensures forall k :: 0 <= k < |outs| ==> outs[k] == Output(Stem(k), ps[k].0, ps[k].1)
  {
  }

  /** One granule's turn keeps outputs and contributions in step. */
  lemma NamedStep(outs: seq<Output>, gs: seq<Granule>, i: nat, available: set<GranuleKey>, r: Option<(GranuleKey, string)>)
    requires AllProcessable(gs, available) && i < |gs|
    requires AllProcessable(gs[..i], available) && Named(outs, Produced(gs[..i], available), Stem)
    requires r == GranuleResult(gs[i], available)
    ensures AllProcessable(gs[..i + 1], available)
    ensures Named(outs + (if r.Some? then [Output(Stem(|outs|), r.value.0, r.value.1)] else []), Produced(gs[..i + 1], available), Stem)
  {
    ProducedStep(gs, i, available);
    if r.Some? {
      NamedSnoc(outs, Produced(gs[..i], available), r.value, Stem);
    } else {
      assert outs + [] == outs;
      assert Produced(gs[..i + 1], available) == Produced(gs[..i], available) + [];
    }
  }

  /** The loop over the paired track files. `available` holds the keys for which all
      four products are found. CT counts the granules that pass the gate and names
      their files. */
  method ProcessGranules(gs: seq<Granule>, available: set<GranuleKey>) returns (outs: seq<Output>, ct: nat)
    requires AllProcessable(gs, available)
    ensures ct == |outs| == |Produced(gs, available)|
    ensures forall k :: 0 <= k < |outs| ==>
      outs[k] == Output(Stem(k), Produced(gs, available)[k].0, Produced(gs, available)[k].1)
  {
    outs := [];
    ct := 0;
    var i := 0;
    ProcessablePrefix(gs, 0, available);
    while i < |gs|
      invariant 0 <= i <= |gs|
      invariant AllProcessable(gs[..i], available)
      invariant ct == |outs|
      invariant Named(outs, Produced(gs[..i], available), Stem)
    {
      var r := ProcessGranule(gs[i], available);
      NamedStep(outs, gs, i, available, r);
      if r.Some? {
        outs := outs + [Output(Stem(ct), r.value.0, r.value.1)];
        ct := ct + 1;
      }
      i := i + 1;
    }
    assert gs[..i] == gs;
    NamedByStem(outs, Produced(gs, available));
  }

  /** Every record track_to_bbox builds is printable with a flag in {0, 1}. */
  lemma RecordsWritable(tp: TrackPoints, xN: int)
    requires Bboxable(tp)
    ensures var trainData := Records(tp, xN, CroppedArea, BboxRange);
      && ZeroOne(FlagsOf(trainData))
      && forall i :: 0 <= i < |trainData| ==> Printable(trainData[i])
  {
    var trainData := Records(tp, xN, CroppedArea, BboxRange);
    forall i | 0 <= i < |trainData|
      ensures Printable(trainData[i]) && (FlagsOf(trainData)[i] == 0 || FlagsOf(trainData)[i] == 1)
    {
      RecordShape(tp, i, xN, CroppedArea, BboxRange);
    }
  }

  /** Records that pass the gate keep at least one line. */
  lemma GatedKeepsOne(trainData: seq<Label>)
    requires ZeroOne(FlagsOf(trainData))
    requires Gate(FlagsOf(trainData))
    ensures |Visible(trainData)| >= 1
  {
    VisibleCount(trainData);
    SumOfZeroOne(FlagsOf(trainData));
  }

  /** Every label file the loop writes has at least one line, one per kept track,
      each splitting into sixteen fields. */
  lemma ProducedFilesNonEmpty(g: Granule, available: set<GranuleKey>)
    requires Processable(g, available)
    requires GranuleResult(g, available).Some?
    ensures var trainData := Records(g.track, g.xN, CroppedArea, BboxRange);
      var lines := ReadLines(GranuleResult(g, available).value.1);
      && |lines| == |Visible(trainData)| >= 1
      && forall j :: 0 <= j < |lines| ==> |SplitWords(lines[j])| == 16
  {
    var trainData := Records(g.track, g.xN, CroppedArea, BboxRange);
    assert GranuleResult(g, available).value.1 == LabelText(trainData);
    RecordsWritable(g.track, g.xN);
    GatedKeepsOne(trainData);
    LabelFileReadsBack(trainData);
  }
}
