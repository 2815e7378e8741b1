/** The Python text built-ins the label pipeline relies on: str(int), int(str),
    str.split(), file.readlines(), slicing, the `in` test on strings,
    str.endswith and str.zfill. */
module PyText {
  import opened Wrappers

  predicate IsDigit(c: char) { '0' <= c <= '9' }

  /** The separators str.split() (no argument) cuts at, restricted to ASCII. */
  predicate IsSpace(c: char) {
    c == ' ' || c == '\t' || c == '\n' || c == '\r' || c == '\U{0B}' || c == '\U{0C}'
  }

  /** A token as str.split() produces it: non-empty and free of separators. */
  predicate IsWord(w: string) {
    |w| > 0 && forall i :: 0 <= i < |w| ==> !IsSpace(w[i])
  }

  predicate AllDigits(s: string) {
    forall i :: 0 <= i < |s| ==> IsDigit(s[i])
  }

  predicate AllSpaces(s: string) {
    forall i :: 0 <= i < |s| ==> IsSpace(s[i])
  }

  function DigitChar(d: nat): (c: char)
    requires d < 10
    ensures IsDigit(c)
  {
    ('0' as int + d) as char
  }

  function DigitValue(c: char): nat
    requires IsDigit(c)
  {
    c as int - '0' as int
  }

  // ---------------------------------------------------------------------
  // str(n) and int(token)
  // ---------------------------------------------------------------------

  /** Decimal digits of n, most significant first, without leading zeros. */
  function NatDigits(n: nat): (r: string)
    ensures |r| > 0 && AllDigits(r)
    ensures n > 0 ==> r[0] != '0'
  {
    if n < 10 then [DigitChar(n)] else NatDigits(n / 10) + [DigitChar(n % 10)]
  }

  /** str(n) for an integer n. */
  function IntToString(n: int): (r: string)
    ensures IsWord(r)
    ensures r[0] == '-' <==> n < 0
    ensures r[0] != '+'
  {
    if n < 0 then "-" + NatDigits(-n) else NatDigits(n)
  }

  /** Value of a run of decimal digits, most significant first. */
  function DigitsValue(s: string): nat
    requires AllDigits(s)
  {
    if s == [] then 0 else DigitsValue(s[..|s| - 1]) * 10 + DigitValue(s[|s| - 1])
  }

  /** int(token) for a token cut by str.split(): an optional sign followed by
      at least one ASCII digit. Any other token makes Python raise ValueError,
      which is None here. */
  function ParseInt(s: string): Option<int>
  {
    if |s| > 0 && (s[0] == '-' || s[0] == '+') then
      if |s| > 1 && AllDigits(s[1..]) then
        var v: int := DigitsValue(s[1..]);
        Some(if s[0] == '-' then -v else v)
      else None
    else if |s| > 0 && AllDigits(s) then Some(DigitsValue(s))
    else None
  }

  lemma {:induction false} DigitsRoundTrip(n: nat)
    ensures DigitsValue(NatDigits(n)) == n
  {
    if n >= 10 {
      var p := NatDigits(n / 10);
      DigitsRoundTrip(n / 10);
      assert NatDigits(n) == p + [DigitChar(n % 10)];
      assert (p + [DigitChar(n % 10)])[..|p|] == p;
    }
  }

  /** int(str(n)) == n: every integer written by str() reads back unchanged. */
  lemma IntRoundTrip(n: int)
    ensures ParseInt(IntToString(n)) == Some(n)
  {
    if n < 0 {
      DigitsRoundTrip(-n);
      assert IntToString(n)[1..] == NatDigits(-n);
    } else {
      DigitsRoundTrip(n);
    }
  }

  // ---------------------------------------------------------------------
  // str.zfill
  // ---------------------------------------------------------------------

  function Zeros(k: nat): (r: string)
    ensures |r| == k && AllDigits(r)
  {
    seq(k, _ => '0')
  }

  lemma {:induction false} ZerosValue(k: nat)
    ensures DigitsValue(Zeros(k)) == 0
  {
    if k > 0 {
      assert Zeros(k)[..k - 1] == Zeros(k - 1);
      ZerosValue(k - 1);
    }
  }

  /** Leading zeros do not change the value of a digit run. */
  lemma {:induction false} LeadingZeros(k: nat, s: string)
    requires AllDigits(s)
    ensures AllDigits(Zeros(k) + s)
    ensures DigitsValue(Zeros(k) + s) == DigitsValue(s)
  {
    if s == [] {
      assert Zeros(k) + s == Zeros(k);
      ZerosValue(k);
    } else {
      var z := Zeros(k) + s;
      assert z[..|z| - 1] == Zeros(k) + s[..|s| - 1];
      LeadingZeros(k, s[..|s| - 1]);
    }
  }

  /** s.zfill(width): pad with '0' on the left, after a leading sign, up to width;
      a string already that long is returned as it is. */
  function ZFill(s: string, width: int): (r: string)
    ensures |r| == if |s| >= width then |s| else width
    ensures |s| > 0 && s[0] != '+' && s[0] != '-' ==> r[|r| - |s|..] == s
  {
    if |s| >= width then s
    else if |s| > 0 && (s[0] == '+' || s[0] == '-') then [s[0]] + Zeros(width - |s|) + s[1..]
    else Zeros(width - |s|) + s
  }

  // ---------------------------------------------------------------------
  // slicing, `in`, endswith
  // ---------------------------------------------------------------------

  /** Where a Python slice bound i lands in a string of length n. */
  function SliceBound(i: int, n: nat): (k: nat)
    ensures k <= n
    ensures 0 <= i <= n ==> k == i
  {
    if i < 0 then (if i + n < 0 then 0 else i + n) else if i > n then n else i
  }

  /** s[i:j], with Python's reading of negative and out-of-range bounds. */
  function Slice(s: string, i: int, j: int): (r: string)
    ensures |r| <= |s|
    ensures 0 <= i <= j <= |s| ==> r == s[i..j]
  {
    var a, b := SliceBound(i, |s|), SliceBound(j, |s|);
    if a < b then s[a..b] else []
  }

  /** sub occurs in s starting at index i. */
  predicate OccursAt(s: string, sub: string, i: int) {
    0 <= i <= |s| - |sub| && s[i..i + |sub|] == sub
  }

  /** sub in s */
  function Contains(s: string, sub: string): (r: bool)
    ensures r <==> exists i :: OccursAt(s, sub, i)
    decreases |s|
  {
    if |sub| > |s| then false
    else if s[..|sub|] == sub then assert OccursAt(s, sub, 0); true
    else
      var r := Contains(s[1..], sub);
      assert r ==> exists i :: OccursAt(s, sub, i) by {
        if r {
          var i :| OccursAt(s[1..], sub, i);
          assert s[i + 1..i + 1 + |sub|] == s[1..][i..i + |sub|];
          assert OccursAt(s, sub, i + 1);
        }
      }
      assert (exists i :: OccursAt(s, sub, i)) ==> r by {
        if exists i :: OccursAt(s, sub, i) {
          var i :| OccursAt(s, sub, i);
          assert i != 0;
          assert s[1..][i - 1..i - 1 + |sub|] == s[i..i + |sub|];
          assert OccursAt(s[1..], sub, i - 1);
        }
      }
      r
  }

  /** s.endswith(suffix) */
  predicate EndsWith(s: string, suffix: string) {
    |suffix| <= |s| && s[|s| - |suffix|..] == suffix
  }

  // ---------------------------------------------------------------------
  // str.split()
  // ---------------------------------------------------------------------

  /** s with its leading separators removed. */
  function DropSpaces(s: string): (r: string)
    ensures |r| <= |s| && r == s[|s| - |r|..]
    ensures r != [] ==> !IsSpace(r[0])
  {
    if s == [] || !IsSpace(s[0]) then s else DropSpaces(s[1..])
  }

  /** The longest prefix of s free of separators. */
  function LeadingWord(s: string): (w: string)
    ensures |w| <= |s| && w == s[..|w|]
    ensures s != [] && !IsSpace(s[0]) ==> |w| > 0
  {
    if s == [] || IsSpace(s[0]) then [] else [s[0]] + LeadingWord(s[1..])
  }

  /** s.split(): the maximal runs of non-separators, in order. */
  function SplitWords(s: string): seq<string>
    decreases |s|
  {
    var t := DropSpaces(s);
    if t == [] then [] else
      var w := LeadingWord(t);
      [w] + SplitWords(t[|w|..])
  }

  /** The words joined by single spaces: a + ' ' + b + ' ' + ... */
  function JoinSpaced(ws: seq<string>): string
  {
    if |ws| == 0 then []
    else if |ws| == 1 then ws[0]
    else ws[0] + " " + JoinSpaced(ws[1..])
  }

  lemma {:induction false} LeadingWordOf(w: string, rest: string)
    requires IsWord(w)
    requires rest == [] || IsSpace(rest[0])
    ensures LeadingWord(w + rest) == w
  {
    if |w| > 1 {
      assert (w + rest)[1..] == w[1..] + rest;
      LeadingWordOf(w[1..], rest);
    } else {
      assert (w + rest)[1..] == rest;
    }
  }

  lemma {:induction false} SplitOnlySpaces(s: string)
    requires AllSpaces(s)
    ensures SplitWords(s) == []
  {
    assert DropSpaces(s) == [] by {
      DropAllSpaces(s);
    }
  }

  lemma {:induction false} DropAllSpaces(s: string)
    requires AllSpaces(s)
    ensures DropSpaces(s) == []
  {
    if s != [] {
      DropAllSpaces(s[1..]);
    }
  }

  /** A word followed by nothing or by a separator splits off as the first word. */
  lemma SplitWordFirst(w: string, rest: string)
    requires IsWord(w)
    requires rest == [] || IsSpace(rest[0])
    ensures SplitWords(w + rest) == [w] + SplitWords(rest)
  {
    var s := w + rest;
    assert DropSpaces(s) == s;
    LeadingWordOf(w, rest);
    assert s[|w|..] == rest;
  }

  /** A leading separator does not change the split. */
  lemma SplitSkipsSpace(t: string)
    ensures SplitWords(" " + t) == SplitWords(t)
  {
    assert (" " + t)[1..] == t;
  }

  lemma Uncons(ws: seq<string>)
    requires |ws| > 0
    ensures [ws[0]] + ws[1..] == ws
  {
  }

  /** A word, a space, then text whose split is known. */
  lemma SplitJoinStep(w: string, inner: string, words: seq<string>)
    requires IsWord(w) && SplitWords(inner) == words
    ensures SplitWords(w + (" " + inner)) == [w] + words
  {
    SplitWordFirst(w, " " + inner);
    SplitSkipsSpace(inner);
  }

  /** Splitting words joined by single spaces, followed by separators only,
      gives back the words. */
  lemma {:induction false} SplitJoin(ws: seq<string>, rest: string)
    requires forall k :: 0 <= k < |ws| ==> IsWord(ws[k])
    requires AllSpaces(rest)
    ensures SplitWords(JoinSpaced(ws) + rest) == ws
    decreases |ws|
  {
    if |ws| == 0 {
      assert JoinSpaced(ws) + rest == rest;
      SplitOnlySpaces(rest);
    } else if |ws| == 1 {
      assert JoinSpaced(ws) + rest == ws[0] + rest;
      assert SplitWords(ws[0] + rest) == [ws[0]] by {
        SplitWordFirst(ws[0], rest);
        SplitOnlySpaces(rest);
      }
    } else {
      var inner := JoinSpaced(ws[1..]) + rest;
      assert JoinSpaced(ws) + rest == ws[0] + (" " + inner);
      assert SplitWords(inner) == ws[1..] by {
        forall k | 0 <= k < |ws[1..]| ensures IsWord(ws[1..][k]) {
          assert ws[1..][k] == ws[k + 1];
        }
        SplitJoin(ws[1..], rest);
      }
      assert SplitWords(ws[0] + (" " + inner)) == ws by {
        SplitJoinStep(ws[0], inner, ws[1..]);
        Uncons(ws);
      }
    }
  }

  lemma {:induction false} JoinSpacedNoNewline(ws: seq<string>)
    requires forall k :: 0 <= k < |ws| ==> IsWord(ws[k])
    ensures forall i :: 0 <= i < |JoinSpaced(ws)| ==> JoinSpaced(ws)[i] != '\n'
  {
    if |ws| > 1 {
      JoinSpacedNoNewline(ws[1..]);
      assert JoinSpaced(ws) == ws[0] + (" " + JoinSpaced(ws[1..]));
    }
  }

  // ---------------------------------------------------------------------
  // file.readlines()
  // ---------------------------------------------------------------------

  /** Length of the first line of text, its '\n' included; the whole text when it has none. */
  function LineLength(text: string): (k: nat)
    ensures k <= |text|
    ensures text != [] ==> k > 0
  {
    if text == [] then 0 else if text[0] == '\n' then 1 else 1 + LineLength(text[1..])
  }

  /** file.readlines(): the text cut after every '\n'; a last piece without one is kept. */
  function ReadLines(text: string): seq<string>
    decreases |text|
  {
    if text == [] then [] else
      var k := LineLength(text);
      [text[..k]] + ReadLines(text[k..])
  }

  /** What successive file.write calls leave in the file. */
  function Concat(pieces: seq<string>): string
  {
    if pieces == [] then [] else pieces[0] + Concat(pieces[1..])
  }

  /** One line of a text file: a single '\n', at its end. */
  predicate IsLine(l: string) {
    |l| > 0 && l[|l| - 1] == '\n' && forall i :: 0 <= i < |l| - 1 ==> l[i] != '\n'
  }

  lemma {:induction false} LineLengthOf(l: string, rest: string)
    requires IsLine(l)
    ensures LineLength(l + rest) == |l|
  {
    if |l| > 1 {
      assert (l + rest)[1..] == l[1..] + rest;
      LineLengthOf(l[1..], rest);
    }
  }

  lemma {:induction false} ConcatSnoc(pieces: seq<string>, p: string)
    ensures Concat(pieces + [p]) == Concat(pieces) + p
  {
    if pieces == [] {
      assert pieces + [p] == [p];
    } else {
      assert (pieces + [p])[1..] == pieces[1..] + [p];
      ConcatSnoc(pieces[1..], p);
    }
  }

  /** Reading back lines that were written one after another gives those lines. */
  lemma {:induction false} ReadLinesConcat(lines: seq<string>)
    requires forall j :: 0 <= j < |lines| ==> IsLine(lines[j])
    ensures ReadLines(Concat(lines)) == lines
  {
    if lines != [] {
      var rest := Concat(lines[1..]);
      LineLengthOf(lines[0], rest);
      assert (lines[0] + rest)[..|lines[0]|] == lines[0];
      assert (lines[0] + rest)[|lines[0]|..] == rest;
      ReadLinesConcat(lines[1..]);
    }
  }
}
