/**
 The first version of the detector (the default-package MissingFiles,
 `FindByDashes` and the file-name filter of `LocateAllFiles`). Names are
 split on a fixed " - "; the scan starts at index 0, so the first name is
 compared with itself, and its rules are simpler: a "track 1" entry for
 any track 2 not preceded by track 1, and one guess, the track just below,
 for any break in an album.

 `Detect` states the outcome, `FindByDashes` is the loop proved to compute it.
 */
module LegacyMissingFiles {
  import opened JavaLang
  import opened Scans
  import MissingFiles

  /** The delimiter fixed in the source. */
  const Delimiter: string := " - "

  /** Only names ending in this are compared as the current name, as in the later version. */
  const Extension: string := MissingFiles.Extension

  /**
   The one entry format: artist, album and track number joined by " - ",
   ending with the track's last digit.
   */
  function MissingEntry(artist: string, album: string, track: int): (r: string)
    ensures |r| > 0 && IsDigit(r[|r| - 1])
  {
    artist + Delimiter + album + Delimiter + IntToString(track)
  }

  /** The entry is the single-track line of the later version, with its default delimiter. */
  lemma MissingEntryIsTrackEntry(artist: string, album: string, track: int)
    ensures MissingEntry(artist, album, track) == MissingFiles.TrackEntry(artist, album, Delimiter, track)
  {
  }

  // ---------------------------------------------------------------------------
  // One pair

  /**
   The guard of a comparison is the one of the later version: both names split
   into four fields, the current one ends with the extension, its track parses
   and is above 1, and the previous track parses (a failure to parse is caught
   and skips the pair).
   */
  predicate Compared(previous: string, current: string)
  {
    MissingFiles.Compared(previous, current, Delimiter)
  }

  /**
   The comparison reaches the console line that reads the name at index
   `i - 1`: the guard holds, artist and album match and the current track
   does not follow the previous one.
   */
  predicate ReadsPreviousFields(prev: seq<string>, cur: seq<string>, current: string)
  {
    && MissingFiles.ComparedFields(prev, cur, current)
    && cur[0] == prev[0] && cur[1] == prev[1]
    && ParseInt(cur[2]).value - 1 != ParseInt(prev[2]).value
  }

  /** `ReadsPreviousFields` for two names. */
  predicate ReadsPreviousName(previous: string, current: string)
  {
    ReadsPreviousFields(Split(previous, Delimiter), Split(current, Delimiter), current)
  }

  /**
   The entries appended when `current`, split into `cur`, is compared with
   the name split into `prev`.
   */
  function CompareFields(prev: seq<string>, cur: seq<string>, current: string): (r: seq<string>)
    ensures r != [] ==> MissingFiles.ComparedFields(prev, cur, current)
    ensures |r| <= 2
    ensures |r| == 2 ==> r[0] == r[1]
  {
    if |cur| == 4 && |prev| == 4 && EndsWith(current, Extension) then
      match ParseInt(cur[2])
      case None => []
      case Some(c) =>
        if c > 1 then
          match ParseInt(prev[2])
          case None => []
          case Some(p) =>
            (if c == 2 && p != 1 then [MissingEntry(cur[0], cur[1], c - 1)] else [])
            + (if cur[0] == prev[0] && cur[1] == prev[1] && c - 1 != p
               then [MissingEntry(cur[0], cur[1], c - 1)] else [])
        else []
    else []
  }

  /** Past the guard, a track 2 check and then a same-album check, each adding at most the line below the current track. */
  lemma CompareFieldsPastGuard(prev: seq<string>, cur: seq<string>, current: string)
    requires MissingFiles.ComparedFields(prev, cur, current)
    ensures CompareFields(prev, cur, current) ==
            var c, p := ParseInt(cur[2]).value, ParseInt(prev[2]).value;
            (if c == 2 && p != 1 then [MissingEntry(cur[0], cur[1], c - 1)] else []) +
            (if cur[0] == prev[0] && cur[1] == prev[1] && c - 1 != p then [MissingEntry(cur[0], cur[1], c - 1)] else [])
    ensures ReadsPreviousFields(prev, cur, current) <==>
            cur[0] == prev[0] && cur[1] == prev[1] && ParseInt(cur[2]).value - 1 != ParseInt(prev[2]).value
  {
  }

  /** The entries appended when `current` is compared with `previous`. */
  function PairEntries(previous: string, current: string): (r: seq<string>)
    ensures !Compared(previous, current) ==> r == []
  {
    CompareFields(Split(previous, Delimiter), Split(current, Delimiter), current)
  }

  /**
   Two eligible names: a track 2 after anything but track 1 gives a track 1
   entry, whatever the artists and albums; a break inside one album gives the
   track just below the current one, whatever the size of the break.
   */
  lemma EligiblePair(previous: string, current: string, artist: string, album: string,
                     previousArtist: string, previousAlbum: string, prev: int, cur: int)
    requires MissingFiles.IsRecord(previous, Delimiter, previousArtist, previousAlbum, prev)
    requires MissingFiles.IsRecord(current, Delimiter, artist, album, cur)
    requires EndsWith(current, Extension) && cur > 1
    ensures PairEntries(previous, current) ==
            (if cur == 2 && prev != 1 then [MissingEntry(artist, album, 1)] else []) +
            (if artist == previousArtist && album == previousAlbum && cur - 1 != prev
             then [MissingEntry(artist, album, cur - 1)] else [])
    ensures ReadsPreviousName(previous, current) <==>
            artist == previousArtist && album == previousAlbum && cur - 1 != prev
  {
    CompareFieldsPastGuard(Split(previous, Delimiter), Split(current, Delimiter), current);
  }

  /** A track 2 repeated within an album gives the same track 1 entry twice. */
  lemma RepeatedTrackTwo(previous: string, current: string, artist: string, album: string)
    requires MissingFiles.IsRecord(previous, Delimiter, artist, album, 2)
    requires MissingFiles.IsRecord(current, Delimiter, artist, album, 2)
    requires EndsWith(current, Extension)
    ensures PairEntries(previous, current) == [MissingEntry(artist, album, 1), MissingEntry(artist, album, 1)]
  {
    EligiblePair(previous, current, artist, album, artist, album, 2, 2);
  }

  /** Consecutive tracks of one album give nothing. */
  lemma ContiguousPair(previous: string, current: string, artist: string, album: string, prev: int)
    requires MissingFiles.IsRecord(previous, Delimiter, artist, album, prev)
    requires MissingFiles.IsRecord(current, Delimiter, artist, album, prev + 1)
    requires EndsWith(current, Extension) && prev >= 1
    ensures PairEntries(previous, current) == []
  {
    EligiblePair(previous, current, artist, album, artist, album, prev, prev + 1);
  }

  /** Another artist or album from track 3 on gives nothing: an album start is only checked at track 2. */
  lemma NewAlbumFromTrackThree(previous: string, current: string, artist: string, album: string,
                               previousArtist: string, previousAlbum: string, prev: int, cur: int)
    requires MissingFiles.IsRecord(previous, Delimiter, previousArtist, previousAlbum, prev)
    requires MissingFiles.IsRecord(current, Delimiter, artist, album, cur)
    requires EndsWith(current, Extension) && cur >= 3
    requires artist != previousArtist || album != previousAlbum
    ensures PairEntries(previous, current) == []
  {
    EligiblePair(previous, current, artist, album, previousArtist, previousAlbum, prev, cur);
  }

  /** A name compared with itself adds nothing unless it reaches the line that reads index `i - 1`. */
  lemma SelfComparison(fields: seq<string>, name: string)
    ensures CompareFields(fields, fields, name) != [] ==> ReadsPreviousFields(fields, fields, name)
    ensures ReadsPreviousFields(fields, fields, name) <==>
            |fields| == 4 && EndsWith(name, Extension) && ParseInt(fields[2]).Some? && ParseInt(fields[2]).value > 1
  {
  }

  // ---------------------------------------------------------------------------
  // The whole list

  /** The first name is compared with itself and fails, at index -1, when it is eligible. */
  predicate FirstNameFails(first: string)
  {
    ReadsPreviousName(first, first)
  }

  /**
   The outcome of `FindByDashes`: an empty list has no first name; an
   eligible first name makes the comparison with itself read index -1;
   otherwise the entries of every adjacent pair in list order, possibly none.
   */
  function Detect(inputList: seq<string>): (r: Result<seq<string>>)
    ensures |inputList| == 0 <==> r == Err(IndexOutOfBounds(0))
    ensures r == Err(IndexOutOfBounds(-1)) <==>
            |inputList| > 0 && |Split(inputList[0], Delimiter)| == 4 && EndsWith(inputList[0], Extension) &&
            ParseInt(Split(inputList[0], Delimiter)[2]).Some? && ParseInt(Split(inputList[0], Delimiter)[2]).value > 1
    ensures r.Ok? ==> r.value == ConcatPairs(inputList, PairEntries)
    ensures |inputList| > 0 && !FirstNameFails(inputList[0]) ==> r == Ok(ConcatPairs(inputList, PairEntries))
    ensures r == Ok([]) <==> |inputList| > 0 && !FirstNameFails(inputList[0]) && AllPairsEmpty(inputList, PairEntries)
  {
    if |inputList| == 0 then Err(IndexOutOfBounds(0))
    else
      SelfComparison(Split(inputList[0], Delimiter), inputList[0]);
      ConcatPairsEmpty(inputList, PairEntries);
      if FirstNameFails(inputList[0]) then Err(IndexOutOfBounds(-1))
      else Ok(ConcatPairs(inputList, PairEntries))
  }

  /** Each entry comes from comparing some name with the name just before it. */
  lemma EntryOrigin(inputList: seq<string>, e: string)
    requires Detect(inputList).Ok? && e in Detect(inputList).value
    ensures exists i :: 1 <= i < |inputList| && e in PairEntries(inputList[i - 1], inputList[i])
  {
    ConcatPairsOrigin(inputList, PairEntries, e);
  }

  // ---------------------------------------------------------------------------
  // The loop

  /**
   The body of the loop of `FindByDashes` at index `i`: the comparison of
   `inputList[i]`, split into `currentLine`, with the name split into
   `previousLine`. Reading `inputList[i - 1]` at index 0 fails.
   */
  method CompareWithPrevious(missingFiles: seq<string>, inputList: seq<string>, i: int,
                             previousLine: seq<string>, currentLine: seq<string>)
    returns (r: Result<seq<string>>)
    requires 0 <= i < |inputList|
    ensures r == if i == 0 && ReadsPreviousFields(previousLine, currentLine, inputList[i])
                 then Err(IndexOutOfBounds(-1))
                 else Ok(missingFiles + CompareFields(previousLine, currentLine, inputList[i]))
  {
    var result := missingFiles;
    if |currentLine| == 4 && |previousLine| == 4 && EndsWith(inputList[i], Extension) {
      var currentTrack := ParseInt(currentLine[2]);
      if currentTrack.Some? {
        var cur := currentTrack.value;
        if cur > 1 {
          var previousTrack := ParseInt(previousLine[2]);
          if previousTrack.Some? {
            var prev := previousTrack.value;
            CompareFieldsPastGuard(previousLine, currentLine, inputList[i]);
            if cur == 2 {
              if prev != 1 {
                result := result + [MissingEntry(currentLine[0], currentLine[1], cur - 1)];
              }
            }
            if currentLine[0] == previousLine[0] {
              if currentLine[1] == previousLine[1] {
                if cur > 1 {
                  if cur - 1 != prev {
                    if i - 1 < 0 {
                      return Err(IndexOutOfBounds(i - 1));
                    }
                    result := result + [MissingEntry(currentLine[0], currentLine[1], cur - 1)];
                  }
                }
              }
            }
          }
        }
      }
    }
    assert result == missingFiles + CompareFields(previousLine, currentLine, inputList[i]);
    assert !(i == 0 && ReadsPreviousFields(previousLine, currentLine, inputList[i]));
    return Ok(result);
  }

  /**
   One turn of the loop extends the entries of the names up to `i - 1` by
   those of comparing `inputList[i]` with the name before it, or with itself
   at index 0, where a name that adds anything fails instead.
   */
  lemma ScanStep(inputList: seq<string>, i: int)
    requires 0 <= i < |inputList|
    requires i == 0 ==> !FirstNameFails(inputList[0])
    ensures ConcatPairs(inputList[..i + 1], PairEntries) ==
            ConcatPairs(inputList[..i], PairEntries) +
            CompareFields(Split(inputList[if i == 0 then 0 else i - 1], Delimiter), Split(inputList[i], Delimiter),
                          inputList[i])
  {
    if i == 0 {
      SelfComparison(Split(inputList[0], Delimiter), inputList[0]);
    } else {
      ConcatPairsPrefixStep(inputList, i, PairEntries);
    }
  }

  /** `FindByDashes`: the loop from index 0, the first name compared with itself. */
  method FindByDashes(inputList: seq<string>) returns (r: Result<seq<string>>)
    ensures r == Detect(inputList)
  {
    if |inputList| == 0 {
      return Err(IndexOutOfBounds(0));
    }
    var previousLine := Split(inputList[0], Delimiter);
    var missingFiles: seq<string> := [];
    var i := 0;
    while i < |inputList|
      invariant 0 <= i <= |inputList|
      invariant previousLine == Split(inputList[if i == 0 then 0 else i - 1], Delimiter)
      invariant missingFiles == ConcatPairs(inputList[..i], PairEntries)
      invariant i > 0 ==> !FirstNameFails(inputList[0])
    {
      var currentLine := Split(inputList[i], Delimiter);
      var step := CompareWithPrevious(missingFiles, inputList, i, previousLine, currentLine);
      if step.Err? {
        return step;
      }
      ScanStep(inputList, i);
      missingFiles := step.value;
      previousLine := currentLine;
      i := i + 1;
    }
    assert inputList[..i] == inputList;
    return Ok(missingFiles);
  }

  // ---------------------------------------------------------------------------
  // The file-name filter

  /** The characters the regular-expression `.` does not match. */
  predicate IsLineTerminator(c: char) {
    c == '\n' || c == '\r' || c == '\U{85}' || c == '\U{2028}' || c == '\U{2029}'
  }

  /** No character of `s` is a line terminator. */
  predicate NoLineTerminator(s: string) {
    forall i :: 0 <= i < |s| ==> !IsLineTerminator(s[i])
  }

  /**
   The name is some characters, one or more decimal digits from `i` to `j`,
   then some characters, none of them a line terminator.
   */
  predicate DigitRunAt(name: string, i: int, j: int) {
    0 <= i < j <= |name| && NoLineTerminator(name[..i]) && AllDigits(name[i..j]) && NoLineTerminator(name[j..])
  }

  /** A name with a digit and no line terminator. */
  predicate HasNumber(name: string) {
    NoLineTerminator(name) && exists i :: 0 <= i < |name| && IsDigit(name[i])
  }

  /** A run of digits between terminator-free parts exists exactly in the names with a digit and no terminator. */
  lemma DigitRunIff(name: string)
    ensures (exists i, j | 0 <= i < j <= |name| :: DigitRunAt(name, i, j)) <==> HasNumber(name)
  {
    if exists i, j | 0 <= i < j <= |name| :: DigitRunAt(name, i, j) {
      var i, j :| 0 <= i < j <= |name| && DigitRunAt(name, i, j);
      assert name[i..j][0] == name[i];
      forall k | 0 <= k < |name| ensures !IsLineTerminator(name[k]) {
        if k < i {
          assert name[..i][k] == name[k];
        } else if k < j {
          assert name[i..j][k - i] == name[k];
        } else {
          assert name[j..][k - j] == name[k];
        }
      }
    }
    if HasNumber(name) {
      var i :| 0 <= i < |name| && IsDigit(name[i]);
      assert name[i..i + 1][0] == name[i];
      forall k | 0 <= k < i ensures !IsLineTerminator(name[..i][k]) {
        assert name[..i][k] == name[k];
      }
      forall k | i + 1 <= k < |name| ensures name[i + 1..][k - (i + 1)] == name[k] {
      }
      assert DigitRunAt(name, i, i + 1);
    }
  }

  /**
   `name.matches(".*\\d+.*")`: a run of digits with terminator-free parts
   around it, which holds exactly for the names with a digit and no line
   terminator.
   */
  predicate MatchesDigitPattern(name: string): (b: bool)
    ensures b <==> HasNumber(name)
  {
    DigitRunIff(name);
    exists i, j | 0 <= i < j <= |name| :: DigitRunAt(name, i, j)
  }

  /** The names kept by `LocateAllFiles`, in traversal order. */
  function NamesWithNumbers(names: seq<string>): (r: seq<string>)
    decreases |names|
    ensures |r| <= |names|
    ensures forall k :: 0 <= k < |r| ==> r[k] in names && HasNumber(r[k])
  {
    if |names| == 0 then []
    else NamesWithNumbers(names[..|names| - 1]) +
         (if MatchesDigitPattern(names[|names| - 1]) then [names[|names| - 1]] else [])
  }

  /** Exactly the names with a digit and no line terminator are kept. */
  lemma {:induction false} NamesWithNumbersMembers(names: seq<string>, name: string)
    decreases |names|
    ensures name in NamesWithNumbers(names) <==> name in names && HasNumber(name)
  {
    if |names| > 0 {
      var init := names[..|names| - 1];
      NamesWithNumbersMembers(init, name);
      assert names == init + [names[|names| - 1]];
    }
  }

  /** Filtering a traversal in two parts keeps the order of the parts. */
  lemma {:induction false} NamesWithNumbersAppend(a: seq<string>, b: seq<string>)
    decreases |b|
    ensures NamesWithNumbers(a + b) == NamesWithNumbers(a) + NamesWithNumbers(b)
  {
    if |b| == 0 {
      assert a + b == a;
    } else {
      var init := b[..|b| - 1];
      NamesWithNumbersAppend(a, init);
      assert (a + b)[..|a + b| - 1] == a + init;
    }
  }

  /** The kept names are never more than the names. */
  lemma {:induction false} NamesWithNumbersLength(names: seq<string>)
    decreases |names|
    ensures |NamesWithNumbers(names)| <= |names|
    ensures |NamesWithNumbers(names)| == |names| <==> forall i :: 0 <= i < |names| ==> HasNumber(names[i])
  {
    if |names| > 0 {
      var init := names[..|names| - 1];
      NamesWithNumbersLength(init);
      if forall i :: 0 <= i < |init| ==> HasNumber(init[i]) {
        if HasNumber(names[|names| - 1]) {
          forall i | 0 <= i < |names| ensures HasNumber(names[i]) {
            if i < |init| {
              assert init[i] == names[i];
            }
          }
        }
      } else {
        var i :| 0 <= i < |init| && !HasNumber(init[i]);
        assert init[i] == names[i];
      }
    }
  }
}
