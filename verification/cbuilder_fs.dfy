/**
 * The directory listing of cbuilder/cbuilder_fs.h (its Windows branch). The operating
 * system's FindFirstFileA / FindNextFileA enumeration is a parameter: a function from the
 * search pattern to either an open failure or the sequence of entries in enumeration order.
 */
module CBuilderFs {
  import opened Wrappers
  import opened CBuilderString
  import opened Tokenizer

  /** CBUILD_FS_DIRMODE_FILES: list entries that are not directories. */
  const DirModeFiles: bv8 := 1
  /** CBUILD_FS_DIRMODE_FOLDERS: list entries that are directories. */
  const DirModeFolders: bv8 := 1 << 1

  /** One directory entry: its file name and whether its attributes mark a directory. */
  datatype Entry = Entry(name: CString, isDirectory: bool)

  /** What the enumeration of a search pattern yields. */
  datatype Directory = OpenFailed | Opened(entries: seq<Entry>)

  predicate EndsWithSeparator(path: CString)
    requires |path| > 0
  {
    path[|path| - 1] == '\\' || path[|path| - 1] == '/'
  }

  /**
   * The search pattern handed to the enumeration: `path` followed by "*.*", with a '/'
   * inserted first unless `path` already ends with a separator.
   */
  function SearchPattern(path: CString): (pattern: CString)
    requires |path| > 0
    ensures |pattern| >= |path| + 3 && pattern[..|path|] == path
    ensures pattern[|pattern| - 3..] == "*.*"
    ensures pattern[|pattern| - 4] == '\\' || pattern[|pattern| - 4] == '/'
    ensures EndsWithSeparator(path) <==> |pattern| == |path| + 3
    ensures EndsWithSeparator(path) ==> pattern == path + "*.*"
    ensures !EndsWithSeparator(path) ==> pattern == path + "/*.*"
  {
    if EndsWithSeparator(path) then path + "*.*" else path + "/*.*"
  }

  /** The size of the `cpyPath` array the pattern is built in: `len + 3`, or `len + 4` without a trailing separator. */
  function PatternBufferSize(path: CString): (size: nat)
    requires |path| > 0
  {
    |path| + 3 + (if EndsWithSeparator(path) then 0 else 1)
  }

  /**
   * The pattern's characters alone fill `cpyPath`, so the terminator that strcat writes
   * after them lands one byte past the array, whichever branch is taken.
   */
  lemma PatternBufferOneShort(path: CString)
    requires |path| > 0
    ensures |SearchPattern(path)| == PatternBufferSize(path)
    ensures |SearchPattern(path) + ['\0']| > PatternBufferSize(path)
  {
  }

  /** A path with or without its trailing '/' gives the same search pattern. */
  lemma SearchPatternNormalisesSeparator(path: CString)
    requires |path| > 0 && !EndsWithSeparator(path)
    ensures SearchPattern(path + "/") == SearchPattern(path)
  {
    var p: CString := path + "/";
    assert EndsWithSeparator(p);
    assert p + "*.*" == path + "/*.*";
  }

  /** The pseudo-entries "." and "..", which are skipped. */
  predicate IsDotEntry(e: Entry)
  {
    e.name == "." || e.name == ".."
  }

  /** Whether an entry's name is listed under `mode`: directories need FOLDERS, the rest FILES. */
  predicate Kept(e: Entry, mode: bv8)
  {
    (mode & DirModeFolders != 0 && e.isDirectory) || (mode & DirModeFiles != 0 && !e.isDirectory)
  }

  /** What one entry adds to the listing: nothing for a pseudo-entry, else its name if kept, then "|". */
  function EntryOutput(e: Entry, mode: bv8): (out: seq<char>)
  {
    if IsDotEntry(e) then [] else (if Kept(e, mode) then e.name else []) + "|"
  }

  /** The listing of a sequence of entries, in enumeration order. */
  function Listing(es: seq<Entry>, mode: bv8): (listing: seq<char>)
  {
    if es == [] then [] else EntryOutput(es[0], mode) + Listing(es[1..], mode)
  }

  /** The names a listing holds: the kept entries other than the pseudo-entries, in order. */
  function KeptNames(es: seq<Entry>, mode: bv8): (names: seq<seq<char>>)
  {
    if es == [] then []
    else (if !IsDotEntry(es[0]) && Kept(es[0], mode) then [es[0].name] else []) + KeptNames(es[1..], mode)
  }

  /** The number of entries other than the pseudo-entries. */
  function NonDotCount(es: seq<Entry>): (count: nat)
  {
    if es == [] then 0 else (if IsDotEntry(es[0]) then 0 else 1) + NonDotCount(es[1..])
  }

  /** The length and capacity of the output after one concatCStr of `n` characters. */
  function AfterCStr(len: nat, cap: nat, n: nat): (state: (nat, nat))
  {
    (len + n, Grow(cap, len + n))
  }

  /** Every concatCStr that one entry causes meets CStrFits. */
  predicate EntryFits(len: nat, cap: nat, e: Entry, mode: bv8)
  {
    if IsDotEntry(e) then true
    else if Kept(e, mode) then
      var (len1, cap1) := AfterCStr(len, cap, |e.name|);
      CStrFits(len, cap, |e.name|) && CStrFits(len1, cap1, 1)
    else CStrFits(len, cap, 1)
  }

  /** The length and capacity of the output after one entry. */
  function AfterEntry(len: nat, cap: nat, e: Entry, mode: bv8): (state: (nat, nat))
  {
    if IsDotEntry(e) then (len, cap)
    else if Kept(e, mode) then
      var (len1, cap1) := AfterCStr(len, cap, |e.name|);
      AfterCStr(len1, cap1, 1)
    else AfterCStr(len, cap, 1)
  }

  /**
   * Every append of the listing loop fits its buffer: starting from length `len` and
   * capacity `cap`, each concatCStr of a kept name and of "|" meets CStrFits.
   */
  predicate ListingFits(len: nat, cap: nat, es: seq<Entry>, mode: bv8)
    decreases |es|
  {
    if es == [] then true
    else
      var (len1, cap1) := AfterEntry(len, cap, es[0], mode);
      EntryFits(len, cap, es[0], mode) && ListingFits(len1, cap1, es[1..], mode)
  }

  /**
   * Listings that overrun the first chunk of the output buffer: a single file name of 255
   * characters, and two file names of 200 and 54 characters. In both the "|" written after the
   * last name brings the length to exactly 256, so its terminator lands past the block.
   */
  lemma DirListOverflowExamples(long: CString, a: CString, b: CString)
    requires |long| == 255 && |a| == 200 && |b| == 54
    ensures !ListingFits(0, BufChunk, [Entry(long, false)], DirModeFiles)
    ensures !ListingFits(0, BufChunk, [Entry(a, false), Entry(b, false)], DirModeFiles)
  {
  }

  /** The body of the listing loop: one entry's name (when kept) and "|" are appended. */
  method ListEntry(output: CBuildString, e: Entry, mode: bv8)
    requires output.Terminated() && EntryFits(output.len, output.bufLen, e, mode)
    modifies output, output.str
    ensures output.Terminated()
    ensures (output.len, output.bufLen) == AfterEntry(old(output.len), old(output.bufLen), e, mode)
    ensures output.Content() == old(output.Content()) + EntryOutput(e, mode)
    ensures output.str == old(output.str) || fresh(output.str)
  {
    if e.name == "." || e.name == ".." {
      return;
    }
    if Kept(e, mode) {
      var _ := output.ConcatCStr(e.name);
    }
    var _ := output.ConcatCStr("|");
  }

  /**
   * CBuild_Fs_dir: lists the entries found for the search pattern of `path` into a fresh
   * buffer, or returns the NULL result when the enumeration cannot be opened.
   */
  method DirList(path: CString, mode: bv8, findFiles: CString -> Directory) returns (output: CBuildString?)
    requires |path| > 0
    requires findFiles(SearchPattern(path)).Opened? ==>
             ListingFits(0, BufChunk, findFiles(SearchPattern(path)).entries, mode)
    ensures findFiles(SearchPattern(path)).OpenFailed? <==> output == null
    ensures output != null ==> fresh(output) && fresh(output.str) && output.Terminated()
    ensures output != null ==> output.Content() == Listing(findFiles(SearchPattern(path)).entries, mode)
  {
    var pattern := SearchPattern(path);
    output := new CBuildString.Init("");
    var dir := findFiles(pattern);
    if dir.OpenFailed? {
      output.Deinit();
      return null;
    }
    ListEntries(output, dir.entries, mode);
  }

  /** The listing loop: every entry of the enumeration is listed in turn. */
  method ListEntries(output: CBuildString, entries: seq<Entry>, mode: bv8)
    requires output.Terminated() && ListingFits(output.len, output.bufLen, entries, mode)
    modifies output, output.str
    ensures output.Terminated()
    ensures output.Content() == old(output.Content()) + Listing(entries, mode)
    ensures output.str == old(output.str) || fresh(output.str)
  {
    ghost var total := old(output.Content()) + Listing(entries, mode);
    for i := 0 to |entries|
      invariant output.Terminated()
      invariant output.str == old(output.str) || fresh(output.str)
      invariant output.Content() + Listing(entries[i..], mode) == total
      invariant ListingFits(output.len, output.bufLen, entries[i..], mode)
    {
      ListingStep(output.len, output.bufLen, entries, i, mode);
      ghost var before, e := output.Content(), EntryOutput(entries[i], mode);
      ListEntry(output, entries[i], mode);
      assert output.Content() + Listing(entries[i + 1..], mode) == before + Listing(entries[i..], mode) by {
        ConcatAssoc(before, e, Listing(entries[i + 1..], mode));
      }
    }
    assert entries[|entries|..] == [];
  }

  lemma ConcatAssoc<T>(a: seq<T>, b: seq<T>, c: seq<T>)
    ensures (a + b) + c == a + (b + c)
  {
  }

  /** One step of the listing loop: the entry at `i` comes first in the listing and in its fit. */
  lemma ListingStep(len: nat, cap: nat, es: seq<Entry>, i: nat, mode: bv8)
    requires i < |es|
    ensures Listing(es[i..], mode) == EntryOutput(es[i], mode) + Listing(es[i + 1..], mode)
    ensures ListingFits(len, cap, es[i..], mode) ==>
            EntryFits(len, cap, es[i], mode) &&
            ListingFits(AfterEntry(len, cap, es[i], mode).0, AfterEntry(len, cap, es[i], mode).1, es[i + 1..], mode)
  {
    assert es[i..][0] == es[i] && es[i..][1..] == es[i + 1..];
  }

  /** Listing a concatenation of enumerations is concatenating their listings. */
  lemma {:induction false} ListingAppend(a: seq<Entry>, b: seq<Entry>, mode: bv8)
    ensures Listing(a + b, mode) == Listing(a, mode) + Listing(b, mode)
  {
    if a == [] {
      assert a + b == b;
    } else {
      assert (a + b)[1..] == a[1..] + b;
      ListingAppend(a[1..], b, mode);
    }
  }

  /** With neither flag set, the listing is one "|" per entry other than the pseudo-entries. */
  lemma {:induction false} ListingWithoutFlags(es: seq<Entry>, mode: bv8)
    requires mode & (DirModeFiles | DirModeFolders) == 0
    ensures Listing(es, mode) == seq(NonDotCount(es), _ => '|')
  {
    if es != [] {
      ListingWithoutFlags(es[1..], mode);
      assert !Kept(es[0], mode);
    }
  }

  /** With both flags set, every entry other than the pseudo-entries is named, in order. */
  lemma {:induction false} KeptNamesWithBothFlags(es: seq<Entry>, mode: bv8)
    requires mode & (DirModeFiles | DirModeFolders) == DirModeFiles | DirModeFolders
    ensures |KeptNames(es, mode)| == NonDotCount(es)
    ensures forall e :: e in es && !IsDotEntry(e) ==> e.name in KeptNames(es, mode)
  {
    if es != [] {
      KeptNamesWithBothFlags(es[1..], mode);
      assert Kept(es[0], mode);
      forall e | e in es && !IsDotEntry(e)
        ensures e.name in KeptNames(es, mode)
      {
        if e != es[0] {
          assert e in es[1..];
        }
      }
    }
  }

  /**
   * When no name contains "|", the listing holds exactly one "|" per entry other than the
   * pseudo-entries, kept or not.
   */
  lemma {:induction false} ListingBarCount(es: seq<Entry>, mode: bv8)
    requires forall e :: e in es ==> '|' !in e.name
    ensures multiset(Listing(es, mode))['|'] == NonDotCount(es)
  {
    if es != [] {
      ListingBarCount(es[1..], mode);
      assert multiset(Listing(es, mode)) == multiset(EntryOutput(es[0], mode)) + multiset(Listing(es[1..], mode));
      if !IsDotEntry(es[0]) {
        var name := if Kept(es[0], mode) then es[0].name else [];
        assert multiset(EntryOutput(es[0], mode)) == multiset(name) + multiset("|");
        assert multiset(name)['|'] == 0;
      }
    }
  }

  /** No name contains the separator "|" and none is empty, entry by entry. */
  predicate PlainNames(es: seq<Entry>)
  {
    es == [] || ('|' !in es[0].name && es[0].name != [] && PlainNames(es[1..]))
  }

  lemma {:induction false} PlainNamesOf(es: seq<Entry>)
    requires forall e :: e in es ==> '|' !in e.name && e.name != []
    ensures PlainNames(es)
  {
    if es != [] {
      assert es[0] in es;
      assert forall x :: x in es[1..] ==> x in es;
      PlainNamesOf(es[1..]);
    }
  }

  /**
   * Tokenizing the tail of a listing that starts at offset `p` of a terminated block yields
   * the kept names of the remaining entries.
   */
  lemma {:induction false} SplitListingFrom(s: seq<char>, n: nat, p: nat, es: seq<Entry>, mode: bv8)
    requires n < |s| && s[n] == '\0' && p <= n
    requires s[p..n] == Listing(es, mode)
    requires PlainNames(es)
    ensures Split(s, n, p, "|") == Some(KeptNames(es, mode))
    decreases |es|, 1
  {
    if es == [] {
      SplitAtTerminator(s, n, "|");
    } else if IsDotEntry(es[0]) {
      DotEntryHead(s, n, p, es, mode);
      SplitListingFrom(s, n, p, es[1..], mode);
    } else if Kept(es[0], mode) {
      SplitListingKept(s, n, p, es, mode);
    } else {
      SplitListingSkipped(s, n, p, es, mode);
    }
  }

  /** SplitListingFrom when the first entry's name is listed. */
  lemma {:induction false} SplitListingKept(s: seq<char>, n: nat, p: nat, es: seq<Entry>, mode: bv8)
    requires n < |s| && s[n] == '\0' && p <= n
    requires s[p..n] == Listing(es, mode)
    requires PlainNames(es) && es != [] && !IsDotEntry(es[0]) && Kept(es[0], mode)
    ensures Split(s, n, p, "|") == Some(KeptNames(es, mode))
    decreases |es|, 0
  {
    KeptEntryRest(s, n, p, es, mode);
    SplitListingFrom(s, n, p + |es[0].name| + 1, es[1..], mode);
    SplitKeptEntry(s, n, p, es, mode);
  }

  /** SplitListingFrom when the first entry is listed without its name. */
  lemma {:induction false} SplitListingSkipped(s: seq<char>, n: nat, p: nat, es: seq<Entry>, mode: bv8)
    requires n < |s| && s[n] == '\0' && p <= n
    requires s[p..n] == Listing(es, mode)
    requires PlainNames(es) && es != [] && !IsDotEntry(es[0]) && !Kept(es[0], mode)
    ensures Split(s, n, p, "|") == Some(KeptNames(es, mode))
    decreases |es|, 0
  {
    SkippedEntryHead(s, n, p, es, mode);
    SplitListingFrom(s, n, p + 1, es[1..], mode);
    SplitSkippedEntry(s, n, p, es, mode);
  }

  /** A pseudo-entry at offset `p` of a listing adds nothing, neither characters nor a name. */
  lemma DotEntryHead(s: seq<char>, n: nat, p: nat, es: seq<Entry>, mode: bv8)
    requires p <= n <= |s| && es != [] && IsDotEntry(es[0])
    requires s[p..n] == Listing(es, mode)
    ensures s[p..n] == Listing(es[1..], mode)
    ensures KeptNames(es, mode) == KeptNames(es[1..], mode)
  {
    assert Listing(es, mode) == [] + Listing(es[1..], mode);
    assert KeptNames(es, mode) == [] + KeptNames(es[1..], mode);
  }

  /** A kept entry at offset `p` of a listing: its name, then "|", then the rest. */
  lemma KeptEntryHead(s: seq<char>, n: nat, p: nat, es: seq<Entry>, mode: bv8)
    requires p <= n <= |s| && es != [] && !IsDotEntry(es[0]) && Kept(es[0], mode)
    requires '|' !in es[0].name
    requires s[p..n] == Listing(es, mode)
    ensures p + |es[0].name| < n && s[p + |es[0].name|] in "|"
    ensures forall i :: p <= i < p + |es[0].name| ==> s[i] !in "|" && s[i] != '\0'
    ensures s[p..p + |es[0].name|] == es[0].name
    ensures KeptNames(es, mode) == [es[0].name] + KeptNames(es[1..], mode)
  {
    var name, k := es[0].name, |es[0].name|;
    assert s[p..n] == name + "|" + Listing(es[1..], mode);
    assert s[p + k] == s[p..n][k];
    forall i | p <= i < p + k
      ensures s[i] !in "|" && s[i] != '\0'
    {
      assert s[i] == s[p..n][i - p] == name[i - p];
    }
    assert s[p..p + k] == s[p..n][..k];
  }

  /** What follows a kept entry's name and its "|" is the listing of the remaining entries. */
  lemma KeptEntryRest(s: seq<char>, n: nat, p: nat, es: seq<Entry>, mode: bv8)
    requires p <= n <= |s| && es != [] && !IsDotEntry(es[0]) && Kept(es[0], mode)
    requires s[p..n] == Listing(es, mode)
    ensures p + |es[0].name| < n && s[p + |es[0].name| + 1..n] == Listing(es[1..], mode)
  {
    var k := |es[0].name|;
    assert s[p..n] == es[0].name + "|" + Listing(es[1..], mode);
    assert s[p + k + 1..n] == s[p..n][k + 1..];
  }

  /** An entry listed without its name at offset `p` of a listing: "|", then the rest. */
  lemma SkippedEntryHead(s: seq<char>, n: nat, p: nat, es: seq<Entry>, mode: bv8)
    requires p <= n <= |s| && es != [] && !IsDotEntry(es[0]) && !Kept(es[0], mode)
    requires s[p..n] == Listing(es, mode)
    ensures p < n && s[p] in "|"
    ensures s[p + 1..n] == Listing(es[1..], mode)
  {
    assert s[p..n] == [] + "|" + Listing(es[1..], mode);
    assert s[p] == s[p..n][0];
    assert s[p + 1..n] == s[p..n][1..];
  }

  /** The step of SplitListingFrom for a kept entry: its name is the next token. */
  lemma SplitKeptEntry(s: seq<char>, n: nat, p: nat, es: seq<Entry>, mode: bv8)
    requires n < |s| && s[n] == '\0' && p <= n
    requires s[p..n] == Listing(es, mode)
    requires PlainNames(es) && es != [] && !IsDotEntry(es[0]) && Kept(es[0], mode)
    requires p + |es[0].name| < n
    requires Split(s, n, p + |es[0].name| + 1, "|") == Some(KeptNames(es[1..], mode))
    ensures Split(s, n, p, "|") == Some(KeptNames(es, mode))
  {
    KeptEntryHead(s, n, p, es, mode);
    SplitTakesTokenThen(s, n, p, |es[0].name|, "|", KeptNames(es[1..], mode));
  }

  /** The step of SplitListingFrom for an entry listed without its name: "|" is skipped. */
  lemma SplitSkippedEntry(s: seq<char>, n: nat, p: nat, es: seq<Entry>, mode: bv8)
    requires n < |s| && s[n] == '\0' && es != []
    requires !IsDotEntry(es[0]) && !Kept(es[0], mode)
    requires p < n && s[p] in "|"
    requires Split(s, n, p + 1, "|") == Some(KeptNames(es[1..], mode))
    ensures Split(s, n, p, "|") == Some(KeptNames(es, mode))
  {
    SplitSkipsDelimiter(s, n, p, "|");
    assert KeptNames(es, mode) == [] + KeptNames(es[1..], mode);
    assert [] + KeptNames(es[1..], mode) == KeptNames(es[1..], mode);
  }

  /**
   * The build driver's use of a listing: tokenizing it on "|" from the start gives back
   * exactly the kept names in enumeration order, and the last call ends on the terminator.
   */
  lemma ListingTokensAreKeptNames(s: seq<char>, n: nat, es: seq<Entry>, mode: bv8)
    requires n < |s| && s[n] == '\0'
    requires s[..n] == Listing(es, mode)
    requires forall e :: e in es ==> '|' !in e.name && e.name != []
    ensures Split(s, n, 0, "|") == Some(KeptNames(es, mode))
  {
    PlainNamesOf(es);
    SplitListingFrom(s, n, 0, es, mode);
  }
}
