/**
 The track-gap detector of com.adamjhowell.missingfiles.MissingFiles
 (`findByDashes`). Each file name is split on the delimiter into
 artist, album, track number and title; every name is compared with the
 name just before it in the list, and the entries it appends to the result
 name the tracks that seem to be missing.

 `Detect` states the outcome: the entries of every adjacent pair of names,
 in list order. `FindByDashes` is the loop of the source, proved to compute it.
 */
module MissingFiles {
  import opened JavaLang
  import opened Scans

  /** Only names ending in this are compared as the current name. */
  const Extension: string := "m4a"

  /** What `findByDashes` prints before `System.exit` when nothing is missing. */
  const NoFilesMissing: Failure := Exit(-6, "No files are missing!")

  // ---------------------------------------------------------------------------
  // The lines the detector appends

  /**
   One missing track: the first three fields of a record, artist, album and
   the track number's text, joined by the delimiter; it ends with a digit.
   `TrackEntryFields` splits it back.
   */
  function TrackEntry(artist: string, album: string, delimiter: string, track: int): (r: string)
    ensures |r| > 0 && IsDigit(r[|r| - 1])
  {
    artist + delimiter + album + delimiter + IntToString(track)
  }

  /**
   A run of missing tracks in one line: it starts with artist and album
   joined by the delimiter, as a track line does, and ends with ')'. The
   " - " before "(tracks" is fixed, whatever the delimiter.
   */
  function RangeEntry(artist: string, album: string, delimiter: string, first: int, last: int): (r: string)
    ensures |r| > |artist| + |delimiter| + |album|
    ensures r[..|artist| + |delimiter| + |album|] == artist + delimiter + album
    ensures r[|r| - 1] == ')'
  {
    artist + delimiter + album + " - (tracks " + IntToString(first) + " to " + IntToString(last) + ")"
  }

  /** The heading of a duplicates entry. */
  const DuplicatesHeading: string := "Possible duplicates:"

  /**
   Two names with the same artist, album and track number: the heading,
   then the current name, then the previous one, each on its own tabbed line.
   */
  function DuplicateEntry(current: string, previous: string): (r: string)
    ensures |r| > |DuplicatesHeading| && r[..|DuplicatesHeading|] == DuplicatesHeading
    ensures EndsWith(r, "\n\t" + previous)
  {
    DuplicatesHeading + "\n\t" + current + "\n\t" + previous
  }

  /** The catch-all for a track number lower than the one before it: a tab, then the name to check. */
  function PleaseCheckEntry(current: string): (r: string)
    ensures |r| > 0 && r[0] == '\t'
    ensures EndsWith(r, current)
  {
    "\tPlease check " + current
  }

  /** A track line is never a range line, and a duplicates entry never a "Please check" one. */
  lemma EntryKindsDiffer(artist: string, album: string, delimiter: string, track: int,
                         artist': string, album': string, delimiter': string, first: int, last: int,
                         current: string, previous: string, current': string)
    ensures TrackEntry(artist, album, delimiter, track) != RangeEntry(artist', album', delimiter', first, last)
    ensures DuplicateEntry(current, previous) != PleaseCheckEntry(current')
  {
    assert DuplicateEntry(current, previous)[0] == DuplicatesHeading[0];
  }

  /** Two track lines of one artist and album are equal only for the same track. */
  lemma TrackEntryInjective(artist: string, album: string, delimiter: string, x: int, y: int)
    requires TrackEntry(artist, album, delimiter, x) == TrackEntry(artist, album, delimiter, y)
    ensures x == y
  {
    var p := artist + delimiter + album + delimiter;
    assert (p + IntToString(x))[|p|..] == IntToString(x);
    assert (p + IntToString(y))[|p|..] == IntToString(y);
    IntToStringInjective(x, y);
  }

  /**
   A track line splits back into artist, album and track text, and the
   track text reads back as the track, when artist and album are separable.
   */
  lemma TrackEntryFields(artist: string, album: string, delimiter: string, track: int)
    requires |delimiter| > 0 && delimiter[0] != '-' && !IsDigit(delimiter[0]) && IsInt32(track)
    requires Separable(artist, delimiter) && Separable(album, delimiter)
    ensures Split(TrackEntry(artist, album, delimiter, track), delimiter) == [artist, album, IntToString(track)]
    ensures ParseInt(IntToString(track)) == Some(track)
  {
    var fields := [artist, album, IntToString(track)];
    JoinThree(artist, album, IntToString(track), delimiter);
    IntToStringClean(track, delimiter);
    CleanIsSeparable(IntToString(track), delimiter);
    SplitJoin(fields, delimiter);
    ParseIntToString(track);
  }

  /** One `TrackEntry` per track from `first` to `last`, in ascending order. */
  function TrackEntries(artist: string, album: string, delimiter: string, first: int, last: int): (r: seq<string>)
    decreases last - first
    ensures |r| == if last < first then 0 else last - first + 1
  {
    if last < first then []
    else TrackEntries(artist, album, delimiter, first, last - 1) + [TrackEntry(artist, album, delimiter, last)]
  }

  /** The `j`-th line of `TrackEntries` names track `first + j`. */
  lemma {:induction false} TrackEntriesAt(artist: string, album: string, delimiter: string, first: int, last: int, j: int)
    requires 0 <= j <= last - first
    decreases last - first
    ensures TrackEntries(artist, album, delimiter, first, last)[j] == TrackEntry(artist, album, delimiter, first + j)
  {
    if j < last - first {
      TrackEntriesAt(artist, album, delimiter, first, last - 1, j);
    }
  }

  /** The lines of a run are pairwise distinct: each names its own track. */
  lemma TrackEntriesDistinct(artist: string, album: string, delimiter: string, first: int, last: int, i: int, j: int)
    requires 0 <= i < j < |TrackEntries(artist, album, delimiter, first, last)|
    ensures TrackEntries(artist, album, delimiter, first, last)[i] != TrackEntries(artist, album, delimiter, first, last)[j]
  {
    TrackEntriesAt(artist, album, delimiter, first, last, i);
    TrackEntriesAt(artist, album, delimiter, first, last, j);
    if TrackEntry(artist, album, delimiter, first + i) == TrackEntry(artist, album, delimiter, first + j) {
      TrackEntryInjective(artist, album, delimiter, first + i, first + j);
    }
  }

  /** The lines for one missing track and for two missing tracks. */
  lemma ShortTrackEntries(artist: string, album: string, delimiter: string, first: int)
    ensures TrackEntries(artist, album, delimiter, first, first) == [TrackEntry(artist, album, delimiter, first)]
    ensures TrackEntries(artist, album, delimiter, first, first + 1) ==
            [TrackEntry(artist, album, delimiter, first), TrackEntry(artist, album, delimiter, first + 1)]
  {
    assert TrackEntries(artist, album, delimiter, first, first - 1) == [];
  }

  // ---------------------------------------------------------------------------
  // One adjacent pair

  /**
   `name` splits into exactly four fields, the first two being `artist` and
   `album` and the third reading as the `int` `track`.
   */
  predicate IsRecord(name: string, delimiter: string, artist: string, album: string, track: int)
  {
    var fields := Split(name, delimiter);
    |fields| == 4 && fields[0] == artist && fields[1] == album && ParseInt(fields[2]) == Some(track)
  }

  /**
   The guard in front of every comparison, on the names already split: both
   have four fields, the current name ends with the extension, its track
   number parses and is above 1, and the previous track number parses.
   */
  predicate ComparedFields(prev: seq<string>, cur: seq<string>, current: string)
  {
    && |cur| == 4 && |prev| == 4 && EndsWith(current, Extension)
    && ParseInt(cur[2]).Some? && ParseInt(cur[2]).value > 1
    && ParseInt(prev[2]).Some?
  }

  /** The guard on two names. */
  predicate Compared(previous: string, current: string, delimiter: string)
  {
    ComparedFields(Split(previous, delimiter), Split(current, delimiter), current)
  }

  /** Same artist and same album: the gap between the two track numbers decides. */
  function SameAlbumEntries(artist: string, album: string, delimiter: string, cur: int, prev: int,
                            current: string, previous: string): (r: seq<string>)
    requires IsInt32(cur) && IsInt32(prev) && cur > 1
    ensures cur == prev + 1 ==> r == []
    ensures cur - prev == 2 ==> r == [TrackEntry(artist, album, delimiter, prev + 1)]
    ensures cur - prev == 3 ==> r == [TrackEntry(artist, album, delimiter, prev + 1), TrackEntry(artist, album, delimiter, prev + 2)]
    ensures 3 < cur - prev <= MaxInt ==> r == [RangeEntry(artist, album, delimiter, prev + 1, cur - 1)]
    ensures cur == prev ==> r == [DuplicateEntry(current, previous)]
    ensures cur < prev ==> r == [PleaseCheckEntry(current)]
    ensures cur - prev > MaxInt ==> r == [PleaseCheckEntry(current)]
  {
    ShortTrackEntries(artist, album, delimiter, prev + 1);
    var gap := Int32Sub(cur, prev);
    if cur - 1 == prev then []
    else if gap == 2 || gap == 3 then TrackEntries(artist, album, delimiter, prev + 1, cur - 1)
    else if gap > 3 then [RangeEntry(artist, album, delimiter, prev + 1, cur - 1)]
    else if gap == 0 then [DuplicateEntry(current, previous)]
    else [PleaseCheckEntry(current)]
  }

  /**
   Same artist, another album: the real previous track number is still used
   for gaps of 2 and 3; otherwise a range from track 1 when the track is above 3.
   */
  function NewAlbumEntries(artist: string, album: string, delimiter: string, cur: int, prev: int): (r: seq<string>)
    requires IsInt32(cur) && IsInt32(prev) && cur > 1
    ensures cur - prev == 2 ==> r == [TrackEntry(artist, album, delimiter, prev + 1)]
    ensures cur - prev == 3 ==> r == [TrackEntry(artist, album, delimiter, prev + 1), TrackEntry(artist, album, delimiter, prev + 2)]
    ensures !(2 <= cur - prev <= 3) && cur > 3 ==> r == [RangeEntry(artist, album, delimiter, 1, cur - 1)]
    ensures !(2 <= cur - prev <= 3) && cur <= 3 ==> r == []
  {
    ShortTrackEntries(artist, album, delimiter, prev + 1);
    var gap := Int32Sub(cur, prev);
    if gap == 2 || gap == 3 then TrackEntries(artist, album, delimiter, prev + 1, cur - 1)
    else if cur > 3 then [RangeEntry(artist, album, delimiter, 1, cur - 1)]
    else []
  }

  /** Another artist: every track below the current one is missing from the start. */
  function NewArtistEntries(artist: string, album: string, delimiter: string, cur: int): (r: seq<string>)
    requires cur > 1
    ensures cur == 2 ==> r == [TrackEntry(artist, album, delimiter, 1)]
    ensures cur == 3 ==> r == [TrackEntry(artist, album, delimiter, 1), TrackEntry(artist, album, delimiter, 2)]
    ensures cur > 3 ==> r == [RangeEntry(artist, album, delimiter, 1, cur - 1)]
  {
    ShortTrackEntries(artist, album, delimiter, 1);
    if cur == 2 || cur == 3 then TrackEntries(artist, album, delimiter, 1, cur - 1)
    else [RangeEntry(artist, album, delimiter, 1, cur - 1)]
  }

  /**
   The entries appended when `current`, split into `cur`, is compared with
   `previous`, split into `prev`.
   */
  function CompareFields(prev: seq<string>, cur: seq<string>, previous: string, current: string,
                         delimiter: string): (r: seq<string>)
    ensures r != [] ==> ComparedFields(prev, cur, current)
    ensures |r| <= 2
  {
    if |cur| == 4 && |prev| == 4 && EndsWith(current, Extension) then
      match ParseInt(cur[2])
      case None => []
      case Some(c) =>
        if c > 1 then
          match ParseInt(prev[2])
          case None => []
          case Some(p) =>
            if cur[0] == prev[0] then
              if cur[1] == prev[1] then SameAlbumEntries(cur[0], cur[1], delimiter, c, p, current, previous)
              else NewAlbumEntries(cur[0], cur[1], delimiter, c, p)
            else NewArtistEntries(cur[0], cur[1], delimiter, c)
        else []
    else []
  }

  /** Past the guard, the artists and then the albums decide which table applies. */
  lemma CompareFieldsPastGuard(prev: seq<string>, cur: seq<string>, previous: string, current: string,
                               delimiter: string)
    requires ComparedFields(prev, cur, current)
    ensures CompareFields(prev, cur, previous, current, delimiter) ==
            var c, p := ParseInt(cur[2]).value, ParseInt(prev[2]).value;
            if cur[0] != prev[0] then NewArtistEntries(cur[0], cur[1], delimiter, c)
            else if cur[1] != prev[1] then NewAlbumEntries(cur[0], cur[1], delimiter, c, p)
            else SameAlbumEntries(cur[0], cur[1], delimiter, c, p, current, previous)
  {
  }

  /** The entries appended when `current` is compared with the name before it. */
  function PairEntries(previous: string, current: string, delimiter: string): (r: seq<string>)
    ensures !Compared(previous, current, delimiter) ==> r == []
  {
    CompareFields(Split(previous, delimiter), Split(current, delimiter), previous, current, delimiter)
  }

  // ---------------------------------------------------------------------------
  // The whole list

  /** The comparison of one name with the one before it, as a function of the pair. */
  function Comparison(delimiter: string): (string, string) -> seq<string> {
    (previous, current) => PairEntries(previous, current, delimiter)
  }

  /** All entries of a scan of `names`: one block per adjacent pair, in list order. */
  function Entries(names: seq<string>, delimiter: string): (r: seq<string>)
    ensures |names| <= 1 ==> r == []
    ensures r == [] <==> AllPairsEmpty(names, Comparison(delimiter))
  {
    ConcatPairsEmpty(names, Comparison(delimiter));
    ConcatPairs(names, Comparison(delimiter))
  }

  /**
   The outcome of `findByDashes`: an empty list has no first name to start
   from, and a scan that finds nothing ends the program with code -6.
   */
  function Detect(inputList: seq<string>, delimiter: string): (r: Result<seq<string>>)
    ensures |inputList| == 0 <==> r == Err(IndexOutOfBounds(0))
    ensures r == Err(NoFilesMissing) <==> |inputList| > 0 && AllPairsEmpty(inputList, Comparison(delimiter))
    ensures r.Ok? ==> r.value != [] && r.value == Entries(inputList, delimiter)
    ensures Entries(inputList, delimiter) != [] ==> r == Ok(Entries(inputList, delimiter))
  {
    if |inputList| == 0 then Err(IndexOutOfBounds(0))
    else
      var found := Entries(inputList, delimiter);
      if found == [] then Err(NoFilesMissing) else Ok(found)
  }

  // ---------------------------------------------------------------------------
  // Properties of the scan

  /** The block of the scan is the comparison of the pair. */
  lemma ComparisonIsPairEntries(previous: string, current: string, delimiter: string)
    ensures Comparison(delimiter)(previous, current) == PairEntries(previous, current, delimiter)
  {
  }

  /** A pair that fails the guard adds nothing to the scan. */
  lemma SilentPair(previous: string, current: string, delimiter: string)
    requires !Compared(previous, current, delimiter)
    ensures Comparison(delimiter)(previous, current) == []
  {
  }

  /** Two names of one album: `SameAlbumEntries` decides, by the gap between the track numbers. */
  lemma SameAlbumPair(previous: string, current: string, delimiter: string,
                      artist: string, album: string, prev: int, cur: int)
    requires IsRecord(previous, delimiter, artist, album, prev)
    requires IsRecord(current, delimiter, artist, album, cur)
    requires EndsWith(current, Extension) && cur > 1
    ensures PairEntries(previous, current, delimiter) ==
            SameAlbumEntries(artist, album, delimiter, cur, prev, current, previous)
  {
  }

  /** Same artist, another album: `NewAlbumEntries` decides. */
  lemma NewAlbumPair(previous: string, current: string, delimiter: string,
                     artist: string, album: string, previousAlbum: string, prev: int, cur: int)
    requires IsRecord(previous, delimiter, artist, previousAlbum, prev)
    requires IsRecord(current, delimiter, artist, album, cur)
    requires EndsWith(current, Extension) && cur > 1 && album != previousAlbum
    ensures PairEntries(previous, current, delimiter) == NewAlbumEntries(artist, album, delimiter, cur, prev)
  {
  }

  /** Another artist: `NewArtistEntries` decides, whatever the albums and the previous track. */
  lemma NewArtistPair(previous: string, current: string, delimiter: string,
                      artist: string, album: string, previousArtist: string, previousAlbum: string,
                      prev: int, cur: int)
    requires IsRecord(previous, delimiter, previousArtist, previousAlbum, prev)
    requires IsRecord(current, delimiter, artist, album, cur)
    requires EndsWith(current, Extension) && cur > 1 && artist != previousArtist
    ensures PairEntries(previous, current, delimiter) == NewArtistEntries(artist, album, delimiter, cur)
  {
  }

  /**
   The entries come in list order: those of the names up to `i - 1`, then
   those of the comparison of `names[i]` with `names[i - 1]`, then those
   of the names from `i` on.
   */
  lemma EntriesAt(names: seq<string>, delimiter: string, i: int)
    requires 1 <= i < |names|
    ensures Entries(names, delimiter) ==
            Entries(names[..i], delimiter) + PairEntries(names[i - 1], names[i], delimiter) + Entries(names[i..], delimiter)
  {
    ConcatPairsAt(names, Comparison(delimiter), i);
  }

  /** Each entry comes from comparing some name with the name just before it. */
  lemma EntryOrigin(names: seq<string>, delimiter: string, e: string)
    requires e in Entries(names, delimiter)
    ensures exists i :: 1 <= i < |names| && e in PairEntries(names[i - 1], names[i], delimiter)
  {
    ConcatPairsOrigin(names, Comparison(delimiter), e);
  }

  /**
   A name that does not split into four fields takes part in no comparison,
   neither as the current name nor as the previous one: the scan falls apart
   into the scans before and after it.
   */
  lemma MalformedNameSeparates(before: seq<string>, name: string, after: seq<string>, delimiter: string)
    requires |before| > 0 && |after| > 0
    requires |Split(name, delimiter)| != 4
    ensures Entries(before + [name] + after, delimiter) == Entries(before, delimiter) + Entries(after, delimiter)
  {
    SilentPair(before[|before| - 1], name, delimiter);
    SilentPair(name, after[0], delimiter);
    ConcatPairsSeparate(before, name, after, Comparison(delimiter));
  }

  /**
   A four-field name that is not an `m4a` file is never compared with the
   name before it, but it still becomes the previous name of the next one.
   */
  lemma OtherExtensionStillPrevious(before: seq<string>, name: string, after: seq<string>, delimiter: string)
    requires |before| > 0 && |after| > 0
    requires !EndsWith(name, Extension)
    ensures Entries(before + [name] + after, delimiter) ==
            Entries(before, delimiter) + PairEntries(name, after[0], delimiter) + Entries(after, delimiter)
  {
    SilentPair(before[|before| - 1], name, delimiter);
    ConcatPairsSilentJoin(before, name, after, Comparison(delimiter));
    ComparisonIsPairEntries(name, after[0], delimiter);
  }

  /**
   A name built from a separable artist, album and title and the text of a
   track number is a record of them, for a delimiter that cannot start
   inside a number.
   */
  lemma RecordName(artist: string, album: string, track: int, title: string, d: string)
    requires |d| > 0 && d[0] != '-' && !IsDigit(d[0]) && IsInt32(track) && title != ""
    requires Separable(artist, d) && Separable(album, d) && Separable(title, d)
    ensures IsRecord(artist + d + album + d + IntToString(track) + d + title, d, artist, album, track)
  {
    var number := IntToString(track);
    IntToStringClean(track, d);
    CleanIsSeparable(number, d);
    var fields := [artist, album, number, title];
    JoinFour(artist, album, number, title, d);
    SplitJoin(fields, d);
    ParseIntToString(track);
  }

  /** With " - ", fields with spaces but no '-' and no trailing space are separable. */
  lemma DashedRecord(artist: string, album: string, track: int, title: string)
    requires IsInt32(track) && title != ""
    requires forall i :: 0 <= i < |artist| ==> artist[i] != '-'
    requires forall i :: 0 <= i < |album| ==> album[i] != '-'
    requires forall i :: 0 <= i < |title| ==> title[i] != '-'
    requires (artist == "" || artist[|artist| - 1] != ' ') && (album == "" || album[|album| - 1] != ' ')
    requires title[|title| - 1] != ' '
    ensures IsRecord(artist + " - " + album + " - " + IntToString(track) + " - " + title, " - ", artist, album, track)
  {
    SeparableWithoutSecond(artist, " - ");
    SeparableWithoutSecond(album, " - ");
    SeparableWithoutSecond(title, " - ");
    RecordName(artist, album, track, title, " - ");
  }

  /** An ordinary name, spaces inside its fields, is a record of its fields. */
  lemma SpacedNameRecord()
    ensures IsRecord("Pink Floyd - The Wall - 1 - In the Flesh.m4a", " - ", "Pink Floyd", "The Wall", 1)
  {
    var name := "Pink Floyd" + " - " + "The Wall" + " - " + IntToString(1) + " - " + "In the Flesh.m4a";
    assert name == "Pink Floyd - The Wall - 1 - In the Flesh.m4a" by {
      assert IntToString(1) == "1";
    }
    DashedRecord("Pink Floyd", "The Wall", 1, "In the Flesh.m4a");
  }

  // ---------------------------------------------------------------------------
  // Two scenarios with the default delimiter

  /** The scenario names are records of their fields. */
  lemma RecordA1()
    ensures IsRecord("A - X - 1 - Song1.m4a", " - ", "A", "X", 1)
  {
    assert IntToString(1) == "1";
    assert "A - X - 1 - Song1.m4a" == "A" + " - " + "X" + " - " + IntToString(1) + " - " + "Song1.m4a";
    DashedRecord("A", "X", 1, "Song1.m4a");
  }

  lemma RecordA2()
    ensures IsRecord("A - X - 2 - Song2.m4a", " - ", "A", "X", 2)
  {
    assert IntToString(2) == "2";
    assert "A - X - 2 - Song2.m4a" == "A" + " - " + "X" + " - " + IntToString(2) + " - " + "Song2.m4a";
    DashedRecord("A", "X", 2, "Song2.m4a");
  }

  lemma RecordA5()
    ensures IsRecord("A - X - 5 - Song5.m4a", " - ", "A", "X", 5)
  {
    assert IntToString(5) == "5";
    assert "A - X - 5 - Song5.m4a" == "A" + " - " + "X" + " - " + IntToString(5) + " - " + "Song5.m4a";
    DashedRecord("A", "X", 5, "Song5.m4a");
  }

  lemma RecordX1()
    ensures IsRecord("A - X - 1 - S1.m4a", " - ", "A", "X", 1)
  {
    assert IntToString(1) == "1";
    assert "A - X - 1 - S1.m4a" == "A" + " - " + "X" + " - " + IntToString(1) + " - " + "S1.m4a";
    DashedRecord("A", "X", 1, "S1.m4a");
  }

  lemma RecordY3()
    ensures IsRecord("A - Y - 3 - S3.m4a", " - ", "A", "Y", 3)
  {
    assert IntToString(3) == "3";
    assert "A - Y - 3 - S3.m4a" == "A" + " - " + "Y" + " - " + IntToString(3) + " - " + "S3.m4a";
    DashedRecord("A", "Y", 3, "S3.m4a");
  }

  /** Tracks 1 then 2 of one album: nothing is missing between them. */
  lemma ContiguousScenarioPair()
    ensures PairEntries("A - X - 1 - Song1.m4a", "A - X - 2 - Song2.m4a", " - ") == []
  {
    assert PairEntries("A - X - 1 - Song1.m4a", "A - X - 2 - Song2.m4a", " - ") ==
           SameAlbumEntries("A", "X", " - ", 2, 1, "A - X - 2 - Song2.m4a", "A - X - 1 - Song1.m4a") by {
      RecordA1();
      RecordA2();
      SameAlbumPair("A - X - 1 - Song1.m4a", "A - X - 2 - Song2.m4a", " - ", "A", "X", 1, 2);
    }
  }

  /** Tracks 2 then 5 of one album: a gap of 3, so one line for each of tracks 3 and 4. */
  lemma GapOfThreeScenarioPair()
    ensures PairEntries("A - X - 2 - Song2.m4a", "A - X - 5 - Song5.m4a", " - ") == ["A - X - 3", "A - X - 4"]
  {
    assert PairEntries("A - X - 2 - Song2.m4a", "A - X - 5 - Song5.m4a", " - ") ==
           SameAlbumEntries("A", "X", " - ", 5, 2, "A - X - 5 - Song5.m4a", "A - X - 2 - Song2.m4a") by {
      RecordA2();
      RecordA5();
      SameAlbumPair("A - X - 2 - Song2.m4a", "A - X - 5 - Song5.m4a", " - ", "A", "X", 2, 5);
    }
    GapOfThreeText();
  }

  lemma GapOfThreeText()
    ensures TrackEntry("A", "X", " - ", 3) == "A - X - 3" && TrackEntry("A", "X", " - ", 4) == "A - X - 4"
  {
    assert IntToString(3) == "3" && IntToString(4) == "4";
  }

  /** The entries of tracks 1, 2, 5 of one album. */
  lemma GapOfThreeScenarioEntries()
    ensures Entries(["A - X - 1 - Song1.m4a", "A - X - 2 - Song2.m4a", "A - X - 5 - Song5.m4a"], " - ")
         == ["A - X - 3", "A - X - 4"]
  {
    var a, b, c := "A - X - 1 - Song1.m4a", "A - X - 2 - Song2.m4a", "A - X - 5 - Song5.m4a";
    ContiguousScenarioPair();
    GapOfThreeScenarioPair();
    ComparisonIsPairEntries(a, b, " - ");
    ComparisonIsPairEntries(b, c, " - ");
    ConcatPairsShort(a, b, c, Comparison(" - "));
    assert [] + ["A - X - 3", "A - X - 4"] == ["A - X - 3", "A - X - 4"];
  }

  /**
   Tracks 1, 2, 5 of one album: nothing for the first pair, then tracks 3
   and 4 one line each, since a gap of 3 is not yet a range.
   */
  lemma GapOfThreeScenario()
    ensures Detect(["A - X - 1 - Song1.m4a", "A - X - 2 - Song2.m4a", "A - X - 5 - Song5.m4a"], " - ")
         == Ok(["A - X - 3", "A - X - 4"])
  {
    GapOfThreeScenarioEntries();
  }

  /** Track 1 of one album, then track 3 of another album of the same artist: track 2 is missing. */
  lemma NewAlbumScenarioPair()
    ensures PairEntries("A - X - 1 - S1.m4a", "A - Y - 3 - S3.m4a", " - ") == ["A - Y - 2"]
  {
    assert PairEntries("A - X - 1 - S1.m4a", "A - Y - 3 - S3.m4a", " - ") == NewAlbumEntries("A", "Y", " - ", 3, 1) by {
      RecordX1();
      RecordY3();
      NewAlbumPair("A - X - 1 - S1.m4a", "A - Y - 3 - S3.m4a", " - ", "A", "Y", "X", 1, 3);
    }
    TrackText();
  }

  lemma TrackText() ensures TrackEntry("A", "Y", " - ", 2) == "A - Y - 2" {
    assert IntToString(2) == "2";
  }

  /** The entries of the new-album scenario. */
  lemma NewAlbumScenarioEntries()
    ensures Entries(["A - X - 1 - S1.m4a", "A - Y - 3 - S3.m4a"], " - ") == ["A - Y - 2"]
  {
    var a, b := "A - X - 1 - S1.m4a", "A - Y - 3 - S3.m4a";
    NewAlbumScenarioPair();
    ComparisonIsPairEntries(a, b, " - ");
    ConcatPairsShort(a, b, b, Comparison(" - "));
  }

  /** The new-album scenario as a whole list: the real previous track 1 gives track 2 only. */
  lemma NewAlbumScenario()
    ensures Detect(["A - X - 1 - S1.m4a", "A - Y - 3 - S3.m4a"], " - ") == Ok(["A - Y - 2"])
  {
    NewAlbumScenarioEntries();
  }

  // ---------------------------------------------------------------------------
  // The loop

  /**
   The inner loops of `findByDashes`: step the previous track number up to
   `cur - 1`, appending one line for each track passed.
   */
  method AddTracks(missingFiles: seq<string>, artist: string, album: string, delimiter: string,
                   prev: int, cur: int) returns (result: seq<string>)
    ensures result == missingFiles + TrackEntries(artist, album, delimiter, prev + 1, cur - 1)
  {
    result := missingFiles;
    var track := prev;
    while track < cur - 1
      invariant prev <= track && (track == prev || track <= cur - 1)
      invariant result == missingFiles + TrackEntries(artist, album, delimiter, prev + 1, track)
    {
      assert TrackEntries(artist, album, delimiter, prev + 1, track + 1) ==
             TrackEntries(artist, album, delimiter, prev + 1, track) + [TrackEntry(artist, album, delimiter, track + 1)];
      result := result + [TrackEntry(artist, album, delimiter, track + 1)];
      track := track + 1;
    }
  }

  /** The same-album branch of the loop body: the track numbers' difference decides. */
  method AddSameAlbum(missingFiles: seq<string>, artist: string, album: string, delimiter: string,
                      cur: int, prev: int, current: string, previous: string) returns (result: seq<string>)
    requires IsInt32(cur) && IsInt32(prev) && cur > 1
    ensures result == missingFiles + SameAlbumEntries(artist, album, delimiter, cur, prev, current, previous)
  {
    result := missingFiles;
    if cur - 1 != prev {
      if Int32Sub(cur, prev) == 2 || Int32Sub(cur, prev) == 3 {
        result := AddTracks(result, artist, album, delimiter, prev, cur);
      } else if Int32Sub(cur, prev) > 3 {
        result := result + [RangeEntry(artist, album, delimiter, prev + 1, cur - 1)];
      } else if Int32Sub(cur, prev) == 0 {
        result := result + [DuplicateEntry(current, previous)];
      } else {
        result := result + [PleaseCheckEntry(current)];
      }
    }
  }

  /** The new-album branch of the loop body. */
  method AddNewAlbum(missingFiles: seq<string>, artist: string, album: string, delimiter: string,
                     cur: int, prev: int) returns (result: seq<string>)
    requires IsInt32(cur) && IsInt32(prev) && cur > 1
    ensures result == missingFiles + NewAlbumEntries(artist, album, delimiter, cur, prev)
  {
    result := missingFiles;
    if Int32Sub(cur, prev) == 2 || Int32Sub(cur, prev) == 3 {
      result := AddTracks(result, artist, album, delimiter, prev, cur);
    } else if cur > 3 {
      result := result + [RangeEntry(artist, album, delimiter, 1, cur - 1)];
    }
  }

  /** The new-artist branch of the loop body: the inner loop restarts from track 0. */
  method AddNewArtist(missingFiles: seq<string>, artist: string, album: string, delimiter: string,
                      cur: int) returns (result: seq<string>)
    requires cur > 1
    ensures result == missingFiles + NewArtistEntries(artist, album, delimiter, cur)
  {
    if cur == 2 || cur == 3 {
      result := AddTracks(missingFiles, artist, album, delimiter, 0, cur);
    } else {
      result := missingFiles + [RangeEntry(artist, album, delimiter, 1, cur - 1)];
    }
  }

  /**
   The body of the loop of `findByDashes`: the comparison of `current` with
   `previous`, the name just before it, given both already split.
   */
  method CompareWithPrevious(missingFiles: seq<string>, previous: string, current: string, delimiter: string,
                             previousLine: seq<string>, currentLine: seq<string>) returns (result: seq<string>)
    ensures result == missingFiles + CompareFields(previousLine, currentLine, previous, current, delimiter)
  {
    result := missingFiles;
    if |currentLine| == 4 && |previousLine| == 4 && EndsWith(current, Extension) {
      var currentTrack := ParseInt(currentLine[2]);
      if currentTrack.Some? {
        var cur := currentTrack.value;
        if cur > 1 {
          var previousTrack := ParseInt(previousLine[2]);
          if previousTrack.Some? {
            var prev := previousTrack.value;
            CompareFieldsPastGuard(previousLine, currentLine, previous, current, delimiter);
            var artist, album := currentLine[0], currentLine[1];
            if artist == previousLine[0] {
              if album == previousLine[1] {
                result := AddSameAlbum(result, artist, album, delimiter, cur, prev, current, previous);
              } else {
                result := AddNewAlbum(result, artist, album, delimiter, cur, prev);
              }
            } else {
              result := AddNewArtist(result, artist, album, delimiter, cur);
            }
          }
        }
      }
    }
  }

  /** `findByDashes`: compares each name with the one before it, growing the result. */
  method FindByDashes(inputList: seq<string>, delimiter: string) returns (r: Result<seq<string>>)
    ensures r == Detect(inputList, delimiter)
  {
    if |inputList| == 0 {
      return Err(IndexOutOfBounds(0));
    }
    var previousLine := Split(inputList[0], delimiter);
    var missingFiles: seq<string> := [];
    var i := 1;
    while i < |inputList|
      invariant 1 <= i <= |inputList|
      invariant previousLine == Split(inputList[i - 1], delimiter)
      invariant missingFiles == Entries(inputList[..i], delimiter)
    {
      var currentLine := Split(inputList[i], delimiter);
      missingFiles := CompareWithPrevious(missingFiles, inputList[i - 1], inputList[i], delimiter,
                                          previousLine, currentLine);
      ConcatPairsPrefixStep(inputList, i, Comparison(delimiter));
      previousLine := currentLine;
      i := i + 1;
    }
    assert inputList[..i] == inputList;
    if missingFiles == [] {
      return Err(NoFilesMissing);
    }
    return Ok(missingFiles);
  }
}
