# Missing-track detector

A model of the track-gap detector of JavaMissingFiles. The input is a list of file
names of the form `Artist - Album - Track - Title.m4a`. Each name is compared with the
name just before it. The output lists the tracks that seem to be missing between them,
possible duplicates, and names to check by hand.

There are two versions.

- `MissingFiles` is the current `findByDashes` (package `com.adamjhowell.missingfiles`).
  - The delimiter is a parameter.
  - The scan starts at index 1.
  - Gaps of 2 or 3 give one line per missing track. Larger gaps give one range line.
  - Equal tracks give a "Possible duplicates" entry. A lower track gives a "Please check" entry.
  - A new artist gives entries for the tracks from 1. A new album of the same artist gives the
    tracks in between for gaps of 2 or 3, otherwise one range from track 1 when the track is
    above 3, and nothing else.
  - An empty result ends the program with code -6.
- `LegacyMissingFiles` is the first `FindByDashes` (default package) and the file-name
  filter of `LocateAllFiles`.
  - The delimiter is fixed to `" - "`.
  - The scan starts at index 0, so the first name is compared with itself. An eligible
    first name makes the console line read index -1, and the call fails.
  - A track 2 not preceded by track 1 gives a "track 1" line.
  - Any break inside an album gives one guess: the track just below.
  - An empty result is returned as it is.

`JavaLang` models the parts of the Java library the code relies on:
- `String.split` with a literal delimiter, trailing empty fields dropped; an empty
  delimiter splits between characters;
- `Integer.parseInt`;
- the text of an `int` in string concatenation;
- `int` subtraction, which wraps at 32 bits;
- `endsWith`.

`Scans` holds the generic fold that builds one block per adjacent pair of a list.

In each version, `Detect` states the outcome: the entries of every adjacent pair, in
list order, plus the error cases. `FindByDashes` is the loop of the source, with a
growing list and a reassigned `previousLine`. It is proved to return exactly `Detect`.
In the current version the loop body also holds the inner `for` loops that add one line
per missing track (`AddTracks`).

The names are whatever strings the caller passes. The current version receives the
`toString` of each path from `Files.walk` of the search path
(src/com/adamjhowell/missingfiles/MissingFiles.java:174-177), so every name starts with
the search path in the form `Paths.get` gives it (separators normalised), relative or
absolute. The first version receives bare
file names (`File.getName`).

Facts about the code worth knowing when reading the entries:
- Tracks 1, 2, 5 of one album give two lines, `A - X - 3` and `A - X - 4`, not a range:
  5 - 2 = 3 takes the "2 or 3" branch (src/com/adamjhowell/missingfiles/MissingFiles.java:240).
  See `MissingFiles.GapOfThreeScenario`.
- For a new album of the same artist, the code still uses the real previous track number
  for gaps of 2 and 3 (271-277). Otherwise it gives a range from track 1 only when the new
  track is above 3 (280-283). See `MissingFiles.NewAlbumEntries`.
- Every name becomes `previousLine` (311), also one that fails the guard at 216. See
  `MissingFiles.OtherExtensionStillPrevious`.
- A field may hold spaces: `Pink Floyd - The Wall - 1 - In the Flesh.m4a` is a record of
  its four fields. See `MissingFiles.SpacedNameRecord`.

## Model

| member | source | states |
|---|---|---|
| JavaLang.Int32Sub | src/com/adamjhowell/missingfiles/MissingFiles.java:240 | `currentTrackNumber - previousTrackNumber` on Java `int`: the result is in range, congruent to the true difference modulo 2^32, and equal to it when that fits |
| JavaLang.Split | src/com/adamjhowell/missingfiles/MissingFiles.java:214 | `split` on a literal delimiter: a name without the delimiter is its one field; otherwise the fields are a prefix of the pieces between occurrences, ending in a non-empty field |
| JavaLang.SplitDropsOnlyEmpty | src/com/adamjhowell/missingfiles/MissingFiles.java:214 | once the delimiter occurs, `split` keeps the pieces in order and every piece it drops is an empty one at the end; without it, the name is its one field |
| JavaLang.JoinPieces | src/com/adamjhowell/missingfiles/MissingFiles.java:214 | the pieces between the delimiters, joined with the delimiter, give the name back |
| JavaLang.PiecesAvoidDelimiter | src/com/adamjhowell/missingfiles/MissingFiles.java:214 | no piece of a split contains the delimiter |
| JavaLang.DropTrailingEmptyOnlyEmpty | src/com/adamjhowell/missingfiles/MissingFiles.java:214 | the removal of trailing fields that `split` applies removes only empty fields |
| JavaLang.CleanIsSeparable | src/com/adamjhowell/missingfiles/MissingFiles.java:214 | a field without the delimiter's first character holds no delimiter and ends with no part of one |
| JavaLang.SeparableWithoutSecond | src/com/adamjhowell/missingfiles/MissingFiles.java:214 | a field without the delimiter's second character and not ending with its first (for " - ": no '-', no trailing space) holds no delimiter and ends with no part of one |
| JavaLang.FirstOccurrenceAfter | src/com/adamjhowell/missingfiles/MissingFiles.java:214 | after a field that holds no delimiter and ends with no part of one, the delimiter that follows is the first occurrence |
| JavaLang.SplitJoin | src/com/adamjhowell/missingfiles/MissingFiles.java:214 | splitting fields joined by the delimiter gives the fields back, when no field holds the delimiter or ends with a non-empty proper prefix of it, and the last field is not empty |
| JavaLang.JoinThree | src/com/adamjhowell/missingfiles/MissingFiles.java:245 | three fields joined are `a + d + b + d + c` |
| JavaLang.JoinFour | src/com/adamjhowell/missingfiles/MissingFiles.java:214 | four fields joined are `a + d + b + d + c + d + e` |
| JavaLang.EndsWith | src/com/adamjhowell/missingfiles/MissingFiles.java:216 | `endsWith`: holds exactly when the name is some string followed by the suffix |
| JavaLang.ParseInt | src/com/adamjhowell/missingfiles/MissingFiles.java:221 | `Integer.parseInt`: a parsed value is an `int`, it comes from a non-empty string starting with a digit or a sign, and the empty string is rejected |
| JavaLang.ParseIntRejects | src/com/adamjhowell/missingfiles/MissingFiles.java:221 | any character that is not a digit, other than a leading sign with something after it, makes `parseInt` throw (`None`) |
| JavaLang.ParseIntDigits | src/com/adamjhowell/missingfiles/MissingFiles.java:221 | a digit string, leading zeros allowed, parses to its decimal value exactly when that value fits in an `int` |
| JavaLang.ParseIntSigned | src/com/adamjhowell/missingfiles/MissingFiles.java:221 | `-` or `+` then digits, leading zeros allowed, parses to minus or plus their value exactly when that fits in an `int` (down to -2^31 after `-`) |
| JavaLang.NatToStringDigits | src/com/adamjhowell/missingfiles/MissingFiles.java:245 | the text of a number is all digits, reads back as the number and has no leading zero |
| JavaLang.IntToString | src/com/adamjhowell/missingfiles/MissingFiles.java:245 | the text of an `int` in string concatenation: non-empty, starting with '-' exactly for a negative number, ending with a digit |
| JavaLang.ParseIntToString | src/com/adamjhowell/missingfiles/MissingFiles.java:221 | `parseInt` of the text of any `int` is that `int` |
| JavaLang.IntToStringInjective | src/com/adamjhowell/missingfiles/MissingFiles.java:245 | two numbers with the same text are equal |
| JavaLang.IntToStringClean | src/com/adamjhowell/missingfiles/MissingFiles.java:245 | the text of an `int` holds only digits and '-' |
| MissingFiles.TrackEntry | src/com/adamjhowell/missingfiles/MissingFiles.java:245 | a single-track line, artist, album and track joined by the delimiter, ends with a digit |
| MissingFiles.RangeEntry | src/com/adamjhowell/missingfiles/MissingFiles.java:252 | a range line starts with artist and album joined by the delimiter, as a track line does, and ends with ')' |
| MissingFiles.DuplicateEntry | src/com/adamjhowell/missingfiles/MissingFiles.java:258 | a duplicates entry starts with "Possible duplicates:" and ends with the previous name on its own tabbed line |
| MissingFiles.PleaseCheckEntry | src/com/adamjhowell/missingfiles/MissingFiles.java:263 | a "Please check" entry starts with a tab and ends with the current name |
| MissingFiles.EntryKindsDiffer | src/com/adamjhowell/missingfiles/MissingFiles.java:245-263 | a track line is never a range line, and a duplicates entry is never a "Please check" entry, whatever their arguments |
| MissingFiles.TrackEntryInjective | src/com/adamjhowell/missingfiles/MissingFiles.java:245 | two track lines of one artist and album are equal only for the same track |
| MissingFiles.TrackEntryFields | src/com/adamjhowell/missingfiles/MissingFiles.java:245 | a track line splits back into artist, album and track text, and the text reads back as the track, for an artist and album that hold no delimiter and end with no part of one |
| MissingFiles.TrackEntries | src/com/adamjhowell/missingfiles/MissingFiles.java:243-246 | one line per track from first to last, last - first + 1 of them, none when last < first |
| MissingFiles.TrackEntriesAt | src/com/adamjhowell/missingfiles/MissingFiles.java:243-246 | the j-th line of a run of single-track lines names track `first + j`: one line per track, in ascending order |
| MissingFiles.TrackEntriesDistinct | src/com/adamjhowell/missingfiles/MissingFiles.java:243-246 | the lines of a run of single-track lines are pairwise distinct |
| MissingFiles.ShortTrackEntries | src/com/adamjhowell/missingfiles/MissingFiles.java:243-246 | runs of one and two missing tracks are exactly those one and two lines |
| MissingFiles.SameAlbumEntries | src/com/adamjhowell/missingfiles/MissingFiles.java:235-264 | same artist and album: nothing when `cur = prev + 1`; one line for a gap of 2; two lines, ascending, for a gap of 3; one `(tracks prev+1 to cur-1)` line above 3; one "Possible duplicates" entry naming the current then the previous name when equal; one "Please check" entry when lower, or when the 32-bit difference wraps |
| MissingFiles.NewAlbumEntries | src/com/adamjhowell/missingfiles/MissingFiles.java:268-285 | same artist, another album: the real previous track still decides gaps of 2 and 3; otherwise one `(tracks 1 to cur-1)` line when `cur > 3`, and nothing when `cur <= 3` |
| MissingFiles.NewArtistEntries | src/com/adamjhowell/missingfiles/MissingFiles.java:288-302 | another artist: the lines for tracks 1 and for 1, 2 when the track is 2 or 3; one `(tracks 1 to cur-1)` line from 4 on |
| MissingFiles.CompareFields | src/com/adamjhowell/missingfiles/MissingFiles.java:216-309 | the loop body on two split names adds at most two entries, and adds any only when both have 4 fields, the current name ends with "m4a", its track parses and is above 1, and the previous track parses |
| MissingFiles.PairEntries | src/com/adamjhowell/missingfiles/MissingFiles.java:216-226 | a pair gives no entry unless both names have 4 fields, the current one ends with "m4a", its track parses and is above 1, and the previous track parses |
| MissingFiles.SameAlbumPair | src/com/adamjhowell/missingfiles/MissingFiles.java:229-265 | for two records of one album, the entries of the pair are those of `SameAlbumEntries` |
| MissingFiles.NewAlbumPair | src/com/adamjhowell/missingfiles/MissingFiles.java:267-285 | for two records of one artist with different albums, the entries are those of `NewAlbumEntries` |
| MissingFiles.NewArtistPair | src/com/adamjhowell/missingfiles/MissingFiles.java:287-302 | for records of different artists, the entries are those of `NewArtistEntries`, whatever the albums and the previous track |
| MissingFiles.RecordName | src/com/adamjhowell/missingfiles/MissingFiles.java:214-226 | a name built from artist, album, track text and a non-empty title, none of them holding the delimiter or ending with a part of it, splits into those four fields and its track parses back |
| MissingFiles.DashedRecord | src/com/adamjhowell/missingfiles/MissingFiles.java:214-226 | with " - ", a name whose artist, album and title hold no '-' and end with no space, spaces inside allowed, is a record of its fields |
| MissingFiles.SpacedNameRecord | src/com/adamjhowell/missingfiles/MissingFiles.java:214-226 | "Pink Floyd - The Wall - 1 - In the Flesh.m4a" splits into "Pink Floyd", "The Wall", track 1 and its title |
| MissingFiles.Entries | src/com/adamjhowell/missingfiles/MissingFiles.java:211-311 | a scan of fewer than two names gives nothing, and a scan gives nothing exactly when every adjacent pair gives nothing |
| MissingFiles.Detect | src/com/adamjhowell/missingfiles/MissingFiles.java:206-318 | an empty list fails reading index 0; the run ends with code -6 and "No files are missing!" exactly when every pair is silent; otherwise the result is the non-empty list of all pair entries in order |
| MissingFiles.EntriesAt | src/com/adamjhowell/missingfiles/MissingFiles.java:211-311 | the entries are those of the names before i, then those comparing name i with name i-1, then those of the names from i on |
| MissingFiles.EntryOrigin | src/com/adamjhowell/missingfiles/MissingFiles.java:211-311 | every entry comes from comparing some name with the name just before it |
| MissingFiles.MalformedNameSeparates | src/com/adamjhowell/missingfiles/MissingFiles.java:216 | a name without 4 fields takes part in no comparison: the scan falls apart into the scans before and after it |
| MissingFiles.OtherExtensionStillPrevious | src/com/adamjhowell/missingfiles/MissingFiles.java:216-311 | a name not ending in "m4a" is never compared with the name before it, yet still serves as the previous name of the next one |
| MissingFiles.ContiguousScenarioPair | src/com/adamjhowell/missingfiles/MissingFiles.java:235 | "A - X - 1 - Song1.m4a" then "A - X - 2 - Song2.m4a" gives nothing |
| MissingFiles.GapOfThreeScenarioPair | src/com/adamjhowell/missingfiles/MissingFiles.java:240-246 | "A - X - 2 - Song2.m4a" then "A - X - 5 - Song5.m4a" gives "A - X - 3" and "A - X - 4" |
| MissingFiles.GapOfThreeScenario | src/com/adamjhowell/missingfiles/MissingFiles.java:201-319 | the list of tracks 1, 2, 5 gives exactly the lines for tracks 3 and 4 |
| MissingFiles.NewAlbumScenarioPair | src/com/adamjhowell/missingfiles/MissingFiles.java:271-277 | "A - X - 1 - S1.m4a" then "A - Y - 3 - S3.m4a" gives "A - Y - 2" only, from the real previous track 1 |
| MissingFiles.NewAlbumScenario | src/com/adamjhowell/missingfiles/MissingFiles.java:201-319 | the two-name list of the new-album scenario gives exactly `["A - Y - 2"]` |
| MissingFiles.AddTracks | src/com/adamjhowell/missingfiles/MissingFiles.java:243-246 | the inner loop stepping the previous track up to `cur - 1` appends exactly the single-track lines from `prev + 1` to `cur - 1` |
| MissingFiles.AddSameAlbum | src/com/adamjhowell/missingfiles/MissingFiles.java:235-264 | the same-album branch appends exactly `SameAlbumEntries` |
| MissingFiles.AddNewAlbum | src/com/adamjhowell/missingfiles/MissingFiles.java:268-285 | the new-album branch appends exactly `NewAlbumEntries` |
| MissingFiles.AddNewArtist | src/com/adamjhowell/missingfiles/MissingFiles.java:288-302 | the new-artist branch, its inner loop restarting from track 0, appends exactly `NewArtistEntries` |
| MissingFiles.CompareWithPrevious | src/com/adamjhowell/missingfiles/MissingFiles.java:216-309 | the loop body appends exactly the entries of the pair, given both names already split |
| MissingFiles.FindByDashes | src/com/adamjhowell/missingfiles/MissingFiles.java:201-319 | the loop returns exactly `Detect` of its input and delimiter |
| LegacyMissingFiles.MissingEntry | src/MissingFiles.java:122-123 | the one entry format, artist, album and track joined by " - ", ends with a digit |
| LegacyMissingFiles.MissingEntryIsTrackEntry | src/MissingFiles.java:140 | the entry is the single-track line of the later version with the delimiter " - " |
| LegacyMissingFiles.CompareFields | src/MissingFiles.java:107-144 | the loop body on two split names adds at most two entries, two only when they are the same line, and any only past the guard of lines 107-116 |
| LegacyMissingFiles.PairEntries | src/MissingFiles.java:107-116 | a pair gives no entry unless both names have 4 fields on " - ", the current one ends with "m4a", its track parses and is above 1, and the previous track parses |
| LegacyMissingFiles.EligiblePair | src/MissingFiles.java:118-141 | for two eligible records: a "track 1" line when the track is 2 and the previous track is not 1, whatever the artists and albums; then, within one album, one line for track `cur - 1` whenever `cur - 1 != prev`; the console line reading index i-1 is reached exactly in the second case |
| LegacyMissingFiles.RepeatedTrackTwo | src/MissingFiles.java:118-141 | a track 2 repeated within an album gives the same "- 1" line twice |
| LegacyMissingFiles.ContiguousPair | src/MissingFiles.java:127-141 | consecutive tracks of one album give nothing |
| LegacyMissingFiles.NewAlbumFromTrackThree | src/MissingFiles.java:118-144 | another artist or album from track 3 on gives nothing |
| LegacyMissingFiles.SelfComparison | src/MissingFiles.java:99-138 | a name compared with itself adds nothing unless the comparison reaches the line reading index i-1, which happens exactly for a 4-field "m4a" name whose track parses and is above 1 |
| LegacyMissingFiles.Detect | src/MissingFiles.java:97-155 | an empty list fails reading index 0; an eligible first name with track above 1 fails reading index -1; otherwise the result is all pair entries in order, and it is empty exactly when every pair is silent, with no error |
| LegacyMissingFiles.EntryOrigin | src/MissingFiles.java:104-152 | every entry of a successful scan comes from comparing some name with the name just before it |
| LegacyMissingFiles.ScanStep | src/MissingFiles.java:104-152 | one turn of the loop from index 0 extends the entries so far by those of the current pair; at index 0 a surviving self-comparison adds nothing |
| LegacyMissingFiles.CompareWithPrevious | src/MissingFiles.java:106-151 | the loop body fails reading index -1 exactly at index 0 on a comparison that reaches line 138; otherwise it appends exactly the entries of the pair |
| LegacyMissingFiles.FindByDashes | src/MissingFiles.java:97-155 | the loop from index 0 returns exactly `Detect` of its input |
| LegacyMissingFiles.DigitRunIff | src/MissingFiles.java:78 | a run of digits with line-terminator-free parts around it exists exactly in the names with a digit and no line terminator |
| LegacyMissingFiles.MatchesDigitPattern | src/MissingFiles.java:78 | `matches(".*\\d+.*")` holds exactly for names with a decimal digit and no line terminator |
| LegacyMissingFiles.NamesWithNumbers | src/MissingFiles.java:77-80 | the filter keeps no more names than it is given, and every kept name is one of them and has a digit and no line terminator |
| LegacyMissingFiles.NamesWithNumbersMembers | src/MissingFiles.java:77-80 | a name is kept exactly when it is among the names and matches the pattern |
| LegacyMissingFiles.NamesWithNumbersAppend | src/MissingFiles.java:77-80 | the filter preserves traversal order: filtering two parts gives the two filtered parts in order |
| LegacyMissingFiles.NamesWithNumbersLength | src/MissingFiles.java:77-80 | the filter never adds names, and keeps all of them exactly when every name matches |

## Left out

- Directory traversal: `locateAllFiles` and `fileCount` (`Files.walk`, `isFile`), the walk in `LocateAllFiles` and its caught `IOException`. This is file-system I/O; the model takes the list of names as input.
- The "No files were read in!" exit (-5) in `locateAllFiles`. It happens before `findByDashes` runs.
- Configuration and the command line: `main`, `validateArgs` (exits -1 and -2), `loadConfig` and `readFileToString` (Gson, file reads, exits -3 and -4), `displayGreeting`, and `Config`. These are I/O and foreign calls. Both `main` methods are left out. The current `main` passes the fixed local `" - "`, not `config.delimiter`; the model keeps the delimiter as a parameter.
- Console output: the "does NOT come immediately after" lines, the greetings, the logger and `logData`. Only the fact that line 138 of the first version reads index `i - 1` is kept, as the error `IndexOutOfBounds(-1)`.
- `exiting` and `System.exit`: the exit is the value `Exit(-6, "No files are missing!")`. Termination of the process is not modelled.
- Split: the delimiter is taken literally. Regular-expression metacharacters in a delimiter are not modelled; `" - "` has none.
- ParseInt: non-ASCII Unicode digits, which `Integer.parseInt` also accepts, are not modelled; ASCII digits, a leading '+' or '-' and leading zeros are.
- The exception objects themselves: an `IndexOutOfBoundsException` is the value `IndexOutOfBounds(index)`. A `NumberFormatException` is caught in the source and is a pair with no entries here.
- MissingFiles.RangeEntry: the contract fixes how the line starts and ends, not the two track numbers inside "(tracks a to b)"; reading them back would need a parser for that text, which the source never has.
- MissingFiles.DuplicateEntry: the contract fixes the heading and the previous name at the end, not the current name between them, for the same reason.
- MissingFiles.PleaseCheckEntry: the contract fixes the leading tab and the name at the end, not the words "Please check" between them.
