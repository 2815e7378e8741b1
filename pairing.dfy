/** file_search and file_search_tracks: finding the hand-logged t-files (pixel
    positions) and l-files (longitude/latitude) and pairing them by name. The
    directory walk itself is given as the list of files it reports. */
module Pairing {
  import opened Wrappers
  import opened PyText

  /** One file reported by os.walk: the directory it was found in and its name. */
  datatype Entry = Entry(root: string, name: string)

  /** The two aligned lists file_search_tracks returns. */
  datatype Pairs = Pairs(tfiles: seq<string>, lfiles: seq<string>)

  predicate NoSlash(s: string) {
    forall i :: 0 <= i < |s| ==> s[i] != '/'
  }

  /** os.path.join(root, name) for POSIX paths. */
  function PathJoin(root: string, name: string): string {
    if |name| > 0 && name[0] == '/' then name
    else if root == [] || root[|root| - 1] == '/' then root + name
    else root + "/" + name
  }

  /** Index of the last '/' of p, or -1 when there is none. */
  function LastSlash(p: string): (k: int)
    ensures -1 <= k < |p|
    ensures k >= 0 ==> p[k] == '/'
  {
    if p == [] then -1
    else if p[|p| - 1] == '/' then |p| - 1
    else LastSlash(p[..|p| - 1])
  }

  /** No '/' follows the last one. */
  lemma {:induction false} LastSlashIsLast(p: string)
    ensures forall i :: LastSlash(p) < i < |p| ==> p[i] != '/'
  {
    if p != [] && p[|p| - 1] != '/' {
      LastSlashIsLast(p[..|p| - 1]);
    }
  }

  /** h.rstrip('/') */
  function StripSlashes(h: string): string {
    if h != [] && h[|h| - 1] == '/' then StripSlashes(h[..|h| - 1]) else h
  }

  predicate AllSlashes(h: string) {
    forall i :: 0 <= i < |h| ==> h[i] == '/'
  }

  /** os.path.split(p) for POSIX paths: everything up to the last '/', with its
      trailing slashes removed unless it is made of slashes only, and the rest. */
  function PathSplit(p: string): (string, string) {
    var i := LastSlash(p) + 1;
    var head := p[..i];
    (if head != [] && !AllSlashes(head) then StripSlashes(head) else head, p[i..])
  }

  /** tmpfile[1:ed] with ed = len(tmpfile). */
  function Drop1(f: string): string {
    if |f| > 0 then f[1..] else []
  }

  /** file.endswith(suffix) and file[0] == startswith */
  predicate Matches(name: string, suffix: string, startswith: char) {
    EndsWith(name, suffix) && |name| > 0 && name[0] == startswith
  }

  /** The paths file_search lists: every matching file joined to its directory, in
      walk order. */
  function Found(listing: seq<Entry>, suffix: string, startswith: char): seq<string> {
    if listing == [] then []
    else
      var e := listing[|listing| - 1];
      Found(listing[..|listing| - 1], suffix, startswith)
        + (if Matches(e.name, suffix, startswith) then [PathJoin(e.root, e.name)] else [])
  }

  /** file_search. file[0] is only read after endswith has held, so an empty name
      can only fail (IndexError) when the suffix is empty too. */
  method FileSearch(listing: seq<Entry>, suffix: string, startswith: char) returns (found: seq<string>)
    requires forall k :: 0 <= k < |listing| && EndsWith(listing[k].name, suffix) ==> |listing[k].name| > 0
    ensures found == Found(listing, suffix, startswith)
  {
    found := [];
    var k := 0;
    while k < |listing|
      invariant 0 <= k <= |listing|
      invariant found == Found(listing[..k], suffix, startswith)
    {
      var e := listing[k];
      if EndsWith(e.name, suffix) && e.name[0] == startswith {
        found := found + [PathJoin(e.root, e.name)];
      }
      assert listing[..k + 1][..k] == listing[..k];
      k := k + 1;
    }
    assert listing[..k] == listing;
  }

  lemma {:induction false} LastSlashAppend(a: string, w: string)
    requires a == [] || a[|a| - 1] == '/'
    requires NoSlash(w)
    ensures LastSlash(a + w) == |a| - 1
    decreases |w|
  {
    if w == [] {
      assert a + w == a;
    } else {
      assert (a + w)[..|a + w| - 1] == a + w[..|w| - 1];
      LastSlashAppend(a, w[..|w| - 1]);
    }
  }

  /** Splitting a joined path gives back the file name. */
  lemma SplitJoinName(root: string, name: string)
    requires |name| > 0 && NoSlash(name)
    ensures PathSplit(PathJoin(root, name)).1 == name
  {
    if root == [] || root[|root| - 1] == '/' {
      LastSlashAppend(root, name);
      assert (root + name)[|root|..] == name;
    } else {
      assert root + "/" + name == (root + "/") + name;
      LastSlashAppend(root + "/", name);
      assert ((root + "/") + name)[|root| + 1..] == name;
    }
  }

  /** Every path file_search lists names a file that ends with the suffix and starts
      with the requested letter; every such file of the walk is listed. */
  lemma {:induction false} FoundExactly(listing: seq<Entry>, suffix: string, startswith: char)
    requires forall k :: 0 <= k < |listing| ==> |listing[k].name| > 0 && NoSlash(listing[k].name)
    ensures forall p :: p in Found(listing, suffix, startswith) ==> Matches(PathSplit(p).1, suffix, startswith)
    ensures forall k :: 0 <= k < |listing| && Matches(listing[k].name, suffix, startswith) ==>
      PathJoin(listing[k].root, listing[k].name) in Found(listing, suffix, startswith)
  {
    if listing != [] {
      var init := listing[..|listing| - 1];
      var e := listing[|listing| - 1];
      FoundExactly(init, suffix, startswith);
      SplitJoinName(e.root, e.name);
      forall k | 0 <= k < |listing| && Matches(listing[k].name, suffix, startswith)
        ensures PathJoin(listing[k].root, listing[k].name) in Found(listing, suffix, startswith)
      {
        if k < |listing| - 1 {
          assert listing[k] == init[k];
        }
      }
    }
  }

  /** The path the pairing loop looks for: the same directory, the name's first
      letter replaced by c. */
  function Partner(p: string, c: char): string {
    var (dir, name) := PathSplit(p);
    dir + ['/', c] + Drop1(name)
  }

  /** Two paths in the same directory whose names differ only in their first
      letter, 't' for the first and 'l' for the second. */
  predicate NamesAgree(tpath: string, lpath: string) {
    var (tdir, tname) := PathSplit(tpath);
    var (ldir, lname) := PathSplit(lpath);
    && tdir == ldir
    && |tname| > 0 && |lname| > 0
    && tname[0] == 't' && lname[0] == 'l'
    && tname[1..] == lname[1..]
  }

  /** Both partners of a path agree in directory and in name after the first letter,
      and that common rest is the rest of the path's own name. */
  lemma PartnersAgree(p: string)
    ensures NamesAgree(Partner(p, 't'), Partner(p, 'l'))
    ensures PathSplit(Partner(p, 't')).1 == ['t'] + Drop1(PathSplit(p).1)
    ensures PathSplit(Partner(p, 'l')).1 == ['l'] + Drop1(PathSplit(p).1)
  {
    var dir, name := PathSplit(p).0, PathSplit(p).1;
    assert NoSlash(Drop1(name)) by {
      assert name == p[LastSlash(p) + 1..];
      LastSlashIsLast(p);
    }
    PartnerShape(p, 't');
    PartnerShape(p, 'l');
    SiblingsAgree(dir + ['/'], Drop1(name));
  }

  /** a + "t" + rest and a + "l" + rest, for a directory a ending in '/' and a
      rest free of '/', are split alike. */
  lemma SiblingsAgree(a: string, rest: string)
    requires |a| > 0 && a[|a| - 1] == '/' && NoSlash(rest)
    ensures NamesAgree(a + (['t'] + rest), a + (['l'] + rest))
    ensures PathSplit(a + (['t'] + rest)).1 == ['t'] + rest
    ensures PathSplit(a + (['l'] + rest)).1 == ['l'] + rest
  {
    PartnerSplit(a, 't', rest);
    PartnerSplit(a, 'l', rest);
  }

  lemma PartnerShape(p: string, c: char)
    ensures Partner(p, c) == (PathSplit(p).0 + ['/']) + ([c] + Drop1(PathSplit(p).1))
  {
    PartnerIs(p, c);
  }

  lemma PartnerSplit(a: string, c: char, rest: string)
    requires |a| > 0 && a[|a| - 1] == '/'
    requires c != '/' && NoSlash(rest)
    ensures PathSplit(a + ([c] + rest)) == (PathSplit(a + ([c] + rest)).0, [c] + rest)
    ensures PathSplit(a + ([c] + rest)).0 == (if !AllSlashes(a) then StripSlashes(a) else a)
  {
    var w := [c] + rest;
    LastSlashAppend(a, w);
    assert (a + w)[..|a|] == a;
    assert (a + w)[|a|..] == w;
  }

  lemma PartnerIs(p: string, c: char)
    ensures Partner(p, c) == PathSplit(p).0 + ['/', c] + Drop1(PathSplit(p).1)
  {
  }

  /** The partners with letter c of the paths of fs, in order. */
  function Targets(fs: seq<string>, c: char): (r: seq<string>)
    ensures |r| == |fs|
  {
    if fs == [] then [] else Targets(fs[..|fs| - 1], c) + [Partner(fs[|fs| - 1], c)]
  }

  lemma {:induction false} TargetAt(fs: seq<string>, c: char, k: nat)
    requires k < |fs|
    ensures Targets(fs, c)[k] == Partner(fs[k], c)
  {
    if k < |fs| - 1 {
      TargetAt(fs[..|fs| - 1], c, k);
    }
  }

  /** The i-th t-partner and the i-th l-partner are named alike. */
  lemma TargetsAgree(fs: seq<string>)
    ensures forall k :: 0 <= k < |fs| ==> NamesAgree(Targets(fs, 't')[k], Targets(fs, 'l')[k])
  {
    forall k | 0 <= k < |fs|
      ensures NamesAgree(Targets(fs, 't')[k], Targets(fs, 'l')[k])
    {
      TargetAt(fs, 't', k);
      TargetAt(fs, 'l', k);
      PartnersAgree(fs[k]);
    }
  }

  /** One more target found: the merged list grows by it. */
  lemma TakeOneMore(merged: seq<string>, s: seq<string>, i: nat, files: seq<string>)
    requires i < |s| && merged == s[..i] && AllIn(merged, files) && s[i] in files
    ensures merged + [s[i]] == s[..i + 1] && AllIn(merged + [s[i]], files)
  {
    assert s[..i + 1] == s[..i] + [s[i]];
  }

  predicate AllIn(xs: seq<string>, files: seq<string>) {
    forall k :: 0 <= k < |xs| ==> xs[k] in files
  }

  /** The first index at which x occurs in xs (np.where(xs == x)[0][0]), or None. */
  function IndexOf(xs: seq<string>, x: string): (r: Option<nat>)
    ensures r.Some? ==> r.value < |xs| && xs[r.value] == x && x !in xs[..r.value]
    ensures r.None? <==> x !in xs
  {
    if xs == [] then None
    else if xs[0] == x then Some(0)
    else match IndexOf(xs[1..], x)
      case None => None
      case Some(k) => Some(k + 1)
  }

  /** The list the pairing loop runs over: the t-files unless there are fewer l-files. */
  function FileSet(tfiles: seq<string>, lfiles: seq<string>): seq<string> {
    if |lfiles| < |tfiles| then lfiles else tfiles
  }

  /** The pairing loop of file_search_tracks over fileSet: for each path, the
      t-file and the l-file with its directory and its name after the first letter. */
  method PairUp(fileSet: seq<string>, tfiles: seq<string>, lfiles: seq<string>) returns (r: Option<Pairs>)
    ensures r.Some? <==> AllIn(Targets(fileSet, 't'), tfiles) && AllIn(Targets(fileSet, 'l'), lfiles)
    ensures r.Some? ==> r.value == Pairs(Targets(fileSet, 't'), Targets(fileSet, 'l'))
  {
    var mergedL: seq<string> := [];
    var mergedT: seq<string> := [];
    var i := 0;
    while i < |fileSet|
      invariant 0 <= i <= |fileSet|
      invariant mergedT == Targets(fileSet, 't')[..i] && AllIn(mergedT, tfiles)
      invariant mergedL == Targets(fileSet, 'l')[..i] && AllIn(mergedL, lfiles)
    {
      var split := PathSplit(fileSet[i]);
      var tmpfilepath, tmpfile := split.0, split.1;
      var tTarget := tmpfilepath + "/t" + Drop1(tmpfile);
      var lTarget := tmpfilepath + "/l" + Drop1(tmpfile);
      assert tTarget == Targets(fileSet, 't')[i] by {
        PartnerIs(fileSet[i], 't');
        TargetAt(fileSet, 't', i);
      }
      assert lTarget == Targets(fileSet, 'l')[i] by {
        PartnerIs(fileSet[i], 'l');
        TargetAt(fileSet, 'l', i);
      }
      var tIndex := IndexOf(tfiles, tTarget);
      if tIndex.None? {
        assert !AllIn(Targets(fileSet, 't'), tfiles);
        return None;
      }
      var lIndex := IndexOf(lfiles, lTarget);
      if lIndex.None? {
        assert !AllIn(Targets(fileSet, 'l'), lfiles);
        return None;
      }
      TakeOneMore(mergedT, Targets(fileSet, 't'), i, tfiles);
      TakeOneMore(mergedL, Targets(fileSet, 'l'), i, lfiles);
      mergedL := mergedL + [lfiles[lIndex.value]];
      mergedT := mergedT + [tfiles[tIndex.value]];
      i := i + 1;
    }
    assert mergedT == Targets(fileSet, 't') && mergedL == Targets(fileSet, 'l');
    r := Some(Pairs(mergedT, mergedL));
  }

  /** file_search_tracks: both merged lists have min(|tfiles|, |lfiles|) entries,
      follow the t-files on a tie, and pair files of one directory whose names differ
      only in the first letter. A missing partner makes Python raise IndexError:
      None here. */
  method FileSearchTracks(listing: seq<Entry>) returns (r: Option<Pairs>)
    ensures var T, L := Found(listing, ".dat", 't'), Found(listing, ".dat", 'l');
      var fs := FileSet(T, L);
      && |fs| == (if |T| <= |L| then |T| else |L|)
      && (r.Some? <==> AllIn(Targets(fs, 't'), T) && AllIn(Targets(fs, 'l'), L))
      && (r.Some? ==> r.value == Pairs(Targets(fs, 't'), Targets(fs, 'l')))
  {
    var tfiles := FileSearch(listing, ".dat", 't');
    var lfiles := FileSearch(listing, ".dat", 'l');
    var fileSet: seq<string> := [];
    if |tfiles| <= |lfiles| {
      fileSet := tfiles;
    }
    if |lfiles| < |tfiles| {
      fileSet := lfiles;
    }
    r := PairUp(fileSet, tfiles, lfiles);
  }
}
