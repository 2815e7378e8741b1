# Ship-track labels for cropped satellite images, in Dafny

shiptrack_ml turns hand-logged ship tracks into object-detection training labels.
A MODIS granule has a "t-file" that holds each track's bends in swath pixels and an
"l-file" that holds the same bends in longitude and latitude.

The script `process_track_images.py` does the following for each granule:

1. It finds the paired t- and l-files (`file_search_tracks`).
2. It reads the track points (`read_osu_shiptrack_file`).
3. It decodes the instrument, year, day and time from the t-file name, and looks up the granule's four MODIS products.
4. It turns every track into a KITTI-style label record (`track_to_bbox`). Each record's x range is clipped to a window that crops `cropped_area` = 250 pixels off each side of the swath.
5. If at least one track is kept, it writes:
   - a zero-padded image file;
   - a label file with one line per kept track;
   - a second image with the boxes drawn in, read back from the label file.

This project models that core:

| file | module | models |
|---|---|---|
| `wrappers.dfy` | `Wrappers` | `Option` and `Result` |
| `text.dfy` | `PyText` | the Python string builtins the code relies on: `str(int)`, `int(token)`, `str.split()`, `readlines()`, slicing with negative bounds, `in`, `endswith`, `zfill` |
| `track_file.dfy` | `TrackFile` | `read_osu_shiptrack_file`, over the file's lines already split into tokens |
| `bbox.dfy` | `Bbox` | `track_to_bbox`: the extent of a track, the chain of six unguarded `if`s that clips it, and the label record |
| `pairing.dfy` | `Pairing` | `file_search` and `file_search_tracks`, over the list of files the directory walk reports; POSIX `os.path.join` and `os.path.split` |
| `driver.dfy` | `Driver` | the granule loop of `process_track_images.py` (see below) |

The granule loop in `Driver` covers:

- the granule key;
- the flags and the gate `sum(flags) < len(trainData)`;
- writing the label file, and reading each line back into a box and its colour;
- the counter `CT` that names the outputs.

The clipping chain is modelled as the code runs it. The six conditions overlap at the window edges, and each later `if` overwrites what an earlier one assigned. So the outcome is the last branch whose condition holds (`Bbox.Winner`), not the first.

`Bbox.ClipChain` runs the six `if`s literally. It starts from the values left over from the previous track, as Python does, and is proved equal to `Bbox.ChainResult` whatever those values are. Some branch fires for every input, so a leftover value never leaks into a record.

For an ordered extent and a non-empty window, `Bbox.Clamped` is an independent reference reading of the chain, and the two are proved to agree. Under that reading, with window edges L = cropwidth and R = xN - cropwidth:

- the kept part of the track is [max(x0, L), min(x1, R)] shifted by -L;
- a track is dropped when x0 >= R, or when x1 <= L and the track is not the single point [L, L];
- a kept track is untruncated exactly when L <= x0 and x1 < R.

The boundaries are therefore asymmetric:

- touching the left edge counts as inside;
- touching the right edge counts as truncated;
- a single point on the right edge is dropped.

The label record writes the smaller y as `bbox_top` and the larger y as `bbox_bottom`. No other vertical transform takes place.

## Model

| member | source | states |
|---|---|---|
| PyText.NatDigits | subroutines_track_images.py:168-177 | the decimal digits of a natural number: non-empty, digits only, no leading zero unless the number is 0 |
| PyText.IntToString | subroutines_track_images.py:168-177 | str(n) is one whitespace-free token that starts with '-' exactly when n is negative and never with '+' |
| PyText.ParseInt | process_track_images.py:215-221 | int(token) for an optional sign and decimal digits, None otherwise; definition, properties in PyText.IntRoundTrip |
| PyText.DigitsRoundTrip | subroutines_track_images.py:168-177 | the digits of n read back as n |
| PyText.IntRoundTrip | process_track_images.py:215-221 | int(str(n)) == n for every integer n, so the numbers written into a label are the numbers read back |
| PyText.LeadingZeros | process_track_images.py:162 | leading zeros do not change the value of a digit string |
| PyText.ZFill | process_track_images.py:162 | zfill(width) has length max(len, width) and, for an unsigned string, ends with that string |
| PyText.Slice | process_track_images.py:124-127 | Python slicing clamps its bounds; in range it is the plain subsequence |
| PyText.Contains | process_track_images.py:118-122 | `sub in s` holds exactly when sub occurs at some position of s |
| PyText.SplitWords | process_track_images.py:214 | str.split(): the maximal runs of non-whitespace, in order; definition, properties in PyText.SplitJoin and Driver.LabelLineTokens |
| PyText.SplitJoin | process_track_images.py:181-214 | splitting, on whitespace, the words joined by single spaces and followed by trailing whitespace gives back exactly those words |
| PyText.JoinSpacedNoNewline | process_track_images.py:181-196 | words joined by spaces contain no newline, so a written record is one line |
| PyText.ConcatSnoc | process_track_images.py:178-197 | appending one more write extends the file text by exactly that piece |
| PyText.ReadLines | process_track_images.py:201 | readlines(): the text cut after each newline, the last piece kept when it has no newline; definition, properties in PyText.ReadLinesConcat |
| PyText.ReadLinesConcat | process_track_images.py:178-201 | readlines() of a text written line by line gives back exactly those lines |
| TrackFile.Alternate | subroutines_track_images.py:92-93 | geo[arange(start, 2p, 2)] has p entries, the k-th being token 2k + start |
| TrackFile.HeaderError | subroutines_track_images.py:83 | the exception an unreadable header raises: IndexError when line 1 is missing or empty, else ValueError; definition, used by TrackFile.ReadTrackFile |
| TrackFile.TrackError | subroutines_track_images.py:89-93 | the exception an unreadable track raises: IndexError for a missing or empty count line, ValueError for a count that is not an integer, IndexError for a missing or short coordinate line; definition, used by TrackFile.ReadTrackFile |
| TrackFile.ReadTrackFile | subroutines_track_images.py:78-98 | succeeds exactly when the header and every counted track are readable, returning the count, each track's bend count and its alternate x and y tokens; otherwise it returns the header's exception, or that of the first unreadable track, with the index of the line at fault |
| Bbox.SeqMinBounds | subroutines_track_images.py:113-114 | np.min of a non-empty list is one of its elements and bounds every element from below |
| Bbox.SeqMaxBounds | subroutines_track_images.py:113-114 | np.max of a non-empty list is one of its elements and bounds every element from above |
| Bbox.ExtentOf | subroutines_track_images.py:112-117 | xrng and yrng for the two modes; definition, properties in Bbox.ExtentBounds |
| Bbox.ExtentBounds | subroutines_track_images.py:112-117 | the extent is ordered; in full mode it is the tightest box around all bends, in partial mode a 50-pixel box centred on the first bend |
| Bbox.Winner | subroutines_track_images.py:120-160 | the surviving branch fires and no later branch fires |
| Bbox.ChainResult | subroutines_track_images.py:120-160 | the values the chain leaves: the assignments of the last branch whose condition holds; definition, properties in Bbox.Winner, Bbox.ClipChain, Bbox.ChainFlags and Bbox.ChainIsClamped |
| Bbox.ClipChain | subroutines_track_images.py:109-160 | the six unguarded ifs, started from any leftover values, produce the last firing branch's assignments |
| Bbox.ChainExhaustive | subroutines_track_images.py:120-160 | some branch fires for every extent and window, so leftover values never survive |
| Bbox.ChainFlags | subroutines_track_images.py:120-160 | whatever the extent and window, flag and truncateFlag end up 0 or 1 |
| Bbox.ChainIsClamped | subroutines_track_images.py:120-160 | for an ordered extent and a non-empty window, the chain equals the clamp-and-shift reading |
| Bbox.VisibleWithinCrop | subroutines_track_images.py:109-160 | a kept track's remapped range lies within [0, xW1 - xW0] |
| Bbox.DroppedExactly | subroutines_track_images.py:120-160 | flags are 0 or 1; a track is dropped iff it lies at or right of the right edge, or at or left of the left edge without being the point [L, L]; a dropped track has -999 sentinels and is truncated |
| Bbox.TruncatedExactly | subroutines_track_images.py:120-160 | a track is untruncated iff L <= x0 and x1 < R |
| Bbox.LeftEdgeCountsInside | subroutines_track_images.py:134-146 | at x0 == L both the left-cut and the inside condition hold, and inside wins |
| Bbox.RightEdgeCountsTruncated | subroutines_track_images.py:141-153 | at x1 == R both the inside and the right-cut condition hold, and the right cut wins |
| Bbox.EdgePoints | subroutines_track_images.py:120-160 | a single point on the left edge is kept as [0, 0]; one on the right edge is dropped |
| Bbox.WindowScenarios | subroutines_track_images.py:109-160 | for a 1350-pixel swath: a track straddling the left edge is cut, an inside track is shifted by 250, a track left of the window is dropped |
| Bbox.CoordsParse | subroutines_track_images.py:106-107 | each coordinate is the numeric value of its token |
| Bbox.TrackBox | subroutines_track_images.py:106-204 | one pass of the loop builds track iT's record from its extent and the chain outcome, whatever the previous track left behind |
| Bbox.TrackToBbox | subroutines_track_images.py:103-206 | the loop returns exactly the records of the counted tracks, in track order |
| Bbox.PrintableFields | subroutines_track_images.py:186-202 | every one of the sixteen fields of a printable record is a single token |
| Bbox.LabelOfShape | subroutines_track_images.py:168-202 | a record has type 'shiptrack', the placeholders "0", single-token fields, and truncated, bbox_left, bbox_top, bbox_right, bbox_bottom that read back as the values written |
| Bbox.RecordShape | subroutines_track_images.py:168-202 | every record of track_to_bbox is printable, has flag and truncated in {0, 1}, and has top <= bottom |
| Pairing.Found | subroutines_track_images.py:37-44 | the joined paths of the matching files, in walk order; definition, properties in Pairing.FileSearch and Pairing.FoundExactly |
| Pairing.PathJoin | subroutines_track_images.py:42 | os.path.join for POSIX paths; definition, properties in Pairing.SplitJoinName |
| Pairing.PathSplit | subroutines_track_images.py:63-65 | os.path.split for POSIX paths; definition, properties in Pairing.SplitJoinName and Pairing.PartnersAgree |
| Pairing.FileSearch | subroutines_track_images.py:37-44 | the loop lists exactly the joined paths of the matching files, in walk order |
| Pairing.FoundExactly | subroutines_track_images.py:37-44 | every listed path names a file with the suffix and the start letter, and every such file is listed |
| Pairing.SplitJoinName | subroutines_track_images.py:42-65 | os.path.split of os.path.join(root, name) gives back name |
| Pairing.PartnersAgree | subroutines_track_images.py:63-68 | the t- and l-partner of a path share its directory and its name after the first letter |
| Pairing.IndexOf | subroutines_track_images.py:67-68 | the index found holds the target; no index iff the target is absent |
| Pairing.TargetAt | subroutines_track_images.py:63-66 | the i-th target with letter c is the partner, with letter c, of the i-th file of the set |
| Pairing.TargetsAgree | subroutines_track_images.py:63-72 | the i-th t-target and the i-th l-target are named alike |
| Pairing.PairUp | subroutines_track_images.py:59-72 | succeeds iff every t-target is among the t-files and every l-target among the l-files; then the merged lists are exactly the targets, in the order of the set |
| Pairing.FileSearchTracks | subroutines_track_images.py:47-75 | the set has min(len(tfiles), len(lfiles)) entries (t-files on a tie); the call succeeds iff every partner is found, and then returns the partners of the set's files, in order |
| Driver.Instrument | process_track_images.py:118-122 | 'myd' iff the name holds "MYD", 'mod' iff it holds "MOD" but not "MYD", '' iff neither |
| Driver.DecodeKey | process_track_images.py:124-127 | for names of at least 16 characters, year, day and hour-minute are the 4-, 3- and 4-character slices ending 12, 9 and 4 characters from the end |
| Driver.KeyExample | process_track_images.py:118-127 | a concrete name decodes to instrument, year, day and time |
| Driver.ExtractFlags | process_track_images.py:153-156 | the flags list holds each record's flag, in order |
| Driver.SumOfZeroOne | process_track_images.py:158-159 | a sum of 0/1 flags lies in [0, n] and equals n iff every flag is 1 |
| Driver.GateIff | process_track_images.py:158-159 | the gate passes iff some track is kept; an empty track list never passes |
| Driver.VisibleExactly | process_track_images.py:179-180 | the kept records all have flag 0, come from the list, and include every record with flag 0 |
| Driver.WriteLabelFile | process_track_images.py:176-197 | the loop writes one space-joined line per kept record, in order |
| Driver.VisibleCount | process_track_images.py:158-180 | the label file has len(trainData) - sum(flags) lines |
| Driver.LabelLineTokens | process_track_images.py:181-214 | a written record is a single line, and splitting it gives back its sixteen fields |
| Driver.LabelFileReadsBack | process_track_images.py:176-214 | readlines() of the label file gives one line per kept record, each splitting into that record's fields |
| Driver.BoxColour | process_track_images.py:221-225 | black iff truncated is 0, white iff it is 1 |
| Driver.BoxOfTokens | process_track_images.py:214-225 | the box and colour read from tokens 4 to 7 and token 1, None when one of them is missing or not an integer or the flag is neither 0 nor 1; definition, properties in Driver.BoxOfRecord |
| Driver.ParseLabelLine | process_track_images.py:213-225 | one line of the label file as the drawing loop reads it; definition, properties in Driver.LabelLineRoundTrip |
| Driver.ParseWrittenLine | process_track_images.py:213-221 | a written line parses as its own sixteen fields |
| Driver.BoxOfRecord | process_track_images.py:215-225 | the fields of a record read as its remapped x range, min y, max y, and the colour of its truncation |
| Driver.LabelLineRoundTrip | process_track_images.py:181-225 | the drawing loop reads back from a written line exactly the box and colour it was written from |
| Driver.Stem | process_track_images.py:162 | str(CT).zfill(4); definition, properties in Driver.StemReadsBack and Driver.StemInjective |
| Driver.StemReadsBack | process_track_images.py:162 | str(CT).zfill(4) has at least four characters, ends with str(CT) and reads back as CT |
| Driver.StemInjective | process_track_images.py:162-234 | different counter values name different files |
| Driver.GranuleResult | process_track_images.py:117-197 | what one granule contributes: None when its products are missing or the gate fails, else its key and label text; definition, properties in Driver.ProcessGranule and Driver.ProducedFilesNonEmpty |
| Driver.ProcessGranule | process_track_images.py:117-197 | a granule contributes its key and label text iff its products are found and the gate passes |
| Driver.Produced | process_track_images.py:100-236 | the contributions of the granules, in order; definition, properties in Driver.ProcessGranules |
| Driver.ProcessGranules | process_track_images.py:100-236 | CT counts the granules that contribute; output k is named str(k).zfill(4) and carries the k-th contribution, in order |
| Driver.GatedKeepsOne | process_track_images.py:158-180 | a granule that passes the gate writes at least one line |
| Driver.ProducedFilesNonEmpty | process_track_images.py:151-214 | every label file the loop writes has one line per kept track, at least one, each with sixteen fields |

## Left out

- Reading the HDF products and the swath size, satpy compositing, PIL drawing, `glob`, `os.walk`, `file_mkdir`, `os.path.isfile`, the tarball and every `print` are I/O. Their effects are modelled as data:
  - `Driver.Granule` carries `xN` and `yN`;
  - the set of keys whose four products exist stands for the four globs;
  - `Pairing.Entry` lists are the walk.
- The existing-file checks (lines 163 and 204) and the image written at line 173 are not modelled. Neither is the reuse of `img` from an earlier granule when the image file already exists: that is drawing state, which is outside this model.
- Driver.ProcessGranules takes each granule's track points already read. Reading the unused l-file (lines 104-106) and a read error stopping the script are not modelled.
- Bbox.TrackToBbox requires every counted track to have at least one x and one y token. It also requires those tokens to be integer literals: this is a restriction of the model, which handles coordinates as integers only. `astype(np.float)` and the truncating `int()` of fractional coordinates, and the numpy errors on an empty track, are not modelled.
- Bbox.ExtentOf covers the two modes 'full' and 'partial'. Any other `bbox_range` leaves `xrng` unbound in Python, which raises NameError.
- PyText.ParseInt accepts an optional sign followed by ASCII digits. Python's `int()` also accepts underscores between digits, non-ASCII digits and surrounding whitespace. Tokens produced by `split()` never carry whitespace.
- Driver.BoxColour returns None for a truncation flag other than 0 and 1. `col` is a module-level name in Python, so it would keep the value set by an earlier line, possibly one from an earlier granule. It raises NameError only when no line of the whole run has set it yet. Bbox.RecordShape proves that every written flag is 0 or 1.
- Bbox.Clamped describes the chain only for a non-empty window (xN > 2 * cropwidth). For other windows the chain is still modelled exactly, but only by `Bbox.Winner` and `Bbox.Assigned`.
- TrackFile.ReadTrackFile reports the index of the line at fault together with the exception type. Python reports a traceback, not an index.
- Only the stems of the output file names are modelled (`Driver.Stem`). The directory prefixes are configuration.
- The overlapping boundary conditions of the clipping chain are kept as the code has them: the last firing branch wins. They are not recast as half-open intervals.
