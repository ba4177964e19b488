# video-presenter: timecodes, cue tables and mpv settings

This project models the data core of video-presenter. The program plays a
video and pauses at cue points taken from a marker file exported by Premiere
Pro or After Effects.

The model covers:

- **`Timecode`** (src/time.rs): the `HH:MM:SS:FF` timecode.
  - Four `u8` fields ordered lexicographically.
  - The `END` sentinel and `is_end`.
  - `as_secs`, `as_frames` and `from_duration`.
  - The colon-separated parser `from_str`, which fills fields from the right and fails or panics on bad input.
  - The zero-padded `Display` formatter.
  - The `time!` macro is the `Time` constructor.
- **`LegacyTimecode`** (src/misc/time.rs): the older copy of the timecode. Every operation is proved to agree with its `Timecode` counterpart.
- **`CueTable`** (src/cues.rs): the cue table.
  - `from_str` reads a tab- or comma-separated marker export. It skips a header line that starts with a letter. It keeps the rows whose sixth field contains "Cue Point" and whose start and end are the same timecode, then sorts the kept start times.
  - `len`, `get` (1-based, 0 is the start of the video, past the end is `END`) and `current` (the last cue reached at a playback time).
  - Both shapes of marker export that the source documents and tests are proved to load back as the cues they were written from.
- **`Settings`** (src/args.rs): `parse_setting`, the `--mpv-setting` value parser.
- **`Text`**: the parts of Rust's standard library those files rely on, stated over `string`: `u8::from_str`, `{:<02}` (the same as `{:02}` for integers), `str::split`, `str::lines`, `str::split_once`, `str::contains` and `char::is_alphabetic`.
- **`Wrappers`**: `Option` and `Result`.

Where the source changes state step by step, the model does the same.
- The timecode parser writes a four-element array in a loop (`Timecode.ReadFields`).
- The cue loader runs a loop over the marker rows (`CueTable.ScanRows`, `CueTable.ReadRow`).
- The cue loader then sorts in place (`CueTable.SortInPlace`).
- `current` scans backwards (`CueTable.Current`).

`Cues::len` and `Cues::get` are plain functions (`CueTable.Len`, `CueTable.Get`). Their properties are stated in `CueTable.GetMonotone`, `CueTable.LoadSortsKept` and the `current` lemmas.

Each method is proved equal to a specification function (`Fields`, `Scan`, `Classify`, `SortTimes`, `CurrentIndex`). The lemmas state the properties of those functions.

Where the code and its doc comments disagree, the model follows the code.
- Once `time` reaches the last cue, `Cues::current` returns the number of cues (src/cues.rs:64-68), not `END` as its doc comment says. The only case that returns `len() + 1` is an empty table at or after the seconds of `END`.
- The table does not store a first cue at 0 (src/cues.rs:8). Only `get(0)` produces the start of the video.

## Model

| member | source | states |
|---|---|---|
| Timecode.LeIsTotalOrder | src/time.rs:9-15 | The derived `Ord` on (hours, minutes, seconds, frames) is reflexive, antisymmetric, transitive and total |
| Timecode.EndIsMaximum | src/time.rs:48-52 | Every timecode lies between 00:00:00:00 and `END` (255:255:255:255, line 18), and `is_end` holds exactly of a timecode at or above `END` |
| Timecode.AsSecsMonotoneInFields | src/time.rs:21-24 | `as_secs` is never negative and does not decrease when any field grows |
| Timecode.AsSecsStrictlyMonotone | src/time.rs:21-24 | With minutes and seconds below 60 and frames below fps, a strictly later timecode is strictly more seconds |
| Timecode.AsSecsMonotone | src/time.rs:21-24 | Within the clock ranges, timecode order implies `as_secs` order |
| Timecode.AsSecsOrderNeedsClockRanges | src/time.rs:21-24 | Without the clock ranges the two orders disagree: 00:00:00:255 sorts before 00:00:01:00 but is more seconds at 1 fps |
| Timecode.AsFramesMatchesAsSecs | src/time.rs:28-31 | At a whole frame rate, `as_frames` equals `as_secs` times fps |
| Timecode.AsFramesOfZero | src/time.rs:149 | 00:00:00:00 is frame 0 at every frame rate |
| Timecode.AsFramesExamples | src/time.rs:150-151 | 00:00:10:15 at 30 fps is frame 315, and 12:34:56:78 at 24 fps is frame 1087182 |
| Timecode.FromDurationExamples | src/time.rs:155-168 | 0 s at 24 fps, 10 s at 30 fps and 500 ms at 24 fps give 00:00:00:00, 00:00:10:00 and 00:00:00:12 |
| Timecode.FromDurationMinutesOverflow | src/time.rs:42 | As written, one hour at 24 fps becomes 01:60:00:00, and `as_frames` counts that as two hours of frames |
| Timecode.FromDurationFixedRoundTrip | src/time.rs:35-46 | With minutes reduced modulo 60, every field is within its clock range, and `as_frames` of the result is exactly the frames elapsed in the duration (under 256 hours, fps up to 256) |
| Timecode.FromDurationAgreesBelowOneHour | src/time.rs:40-45 | Below one hour the as-written and the corrected `from_duration` agree |
| Timecode.FillFromStep | src/time.rs:61-63 | One loop turn: an unparsable field is an error; a fifth parsed field is the index underflow; otherwise field `i` from the right is written at `3 - i` |
| Timecode.ReadFields | src/time.rs:59-63 | The array loop of `from_str` computes `Fields` exactly, errors included |
| Timecode.FromStr | src/time.rs:58-71 | `from_str` returns `Parse`: the timecode built from the four fields, or the loop's error |
| Timecode.FillFromSucceeds | src/time.rs:61-63 | The loop succeeds if and only if the string has at most four fields and each one not yet read parses as a `u8` |
| Timecode.FillFromUnderflows | src/time.rs:61-63 | The loop panics on `3 - i` if and only if there are more than four fields and the five rightmost all parse |
| Timecode.FillFromRight | src/time.rs:59-70 | Up to four fields that parse are written right-aligned, and the untouched leading entries keep their start value |
| Timecode.ParseAccepts | src/time.rs:58-71 | `from_str` accepts a string if and only if it has at most four colon-separated fields that are all valid `u8` (empty fields are refused); it panics if and only if there are more than four and the five rightmost parse |
| Timecode.ParseFillsFromRight | src/time.rs:58-71 | An accepted string's last field is the frames, the one before it the seconds, then minutes, then hours; missing fields are 0 |
| Timecode.Pad2Avoids | src/time.rs:77 | A `{:<02}` field (the `0` flag overrides the `<` alignment for integers) holds only digits, so no separator, and `u8::from_str` reads it back as the same value |
| Timecode.SplitFormatFields | src/time.rs:74-81 | A formatted timecode splits at `:` into exactly its four padded fields |
| Timecode.FieldsOfJoined | src/time.rs:58-81 | One to four padded fields joined by `:` parse to those values right-aligned, with zeros in front |
| Timecode.ParseFormat | src/time.rs:58-81 | Parsing the display form of any timecode gives the same timecode |
| Timecode.ParseZeroExample | src/time.rs:101-109 | "00:00:00:00" parses to 00:00:00:00 |
| Timecode.ParseTwoFieldsExample | src/time.rs:111-119 | "00:15" parses to 00:00:00:15 |
| Timecode.ParseOneFieldExample | src/time.rs:121-129 | "12" parses to 00:00:00:12 |
| Timecode.ParseMinutesExample | src/time.rs:131-139 | "00:05:00:00" parses to 00:05:00:00 |
| Timecode.MacroExample | src/time.rs:143-145 | `time!(00:00:12:00)` equals `from_str("00:00:12:00")` |
| Timecode.ParseExample | src/time.rs:100-140 | Padded values joined by `:` parse to the right-aligned timecode of those values |
| LegacyTimecode.LeAgrees | src/misc/time.rs:7-13 | The older derived order is the same order as the current one, and the field-for-field map is injective |
| LegacyTimecode.AsFramesAgrees | src/misc/time.rs:16-19 | The older `as_frames` counts the same frames as the current one |
| LegacyTimecode.AsFramesOfZero | src/misc/time.rs:129 | 00:00:00:00 is frame 0 at every frame rate |
| LegacyTimecode.AsFramesExamples | src/misc/time.rs:130-131 | 00:00:10:15 at 30 fps is frame 315, and 12:34:56:78 at 24 fps is frame 1087182 |
| LegacyTimecode.FromDurationAgrees | src/misc/time.rs:21-32 | The older `from_duration`, as written and corrected, builds the same fields as the current one |
| LegacyTimecode.FromDurationExamples | src/misc/time.rs:135-148 | 0 s at 24 fps, 10 s at 30 fps and 500 ms at 24 fps give 00:00:00:00, 00:00:10:00 and 00:00:00:12 |
| LegacyTimecode.FromDurationMinutesOverflow | src/misc/time.rs:28 | As written, one hour at 24 fps becomes 01:60:00:00, which is two hours of frames |
| LegacyTimecode.FromDurationFixedRoundTrip | src/misc/time.rs:21-32 | With minutes reduced modulo 60, the fields are within clock ranges and no frames are lost (under 256 hours, fps up to 256) |
| LegacyTimecode.FromStr | src/misc/time.rs:38-51 | The older `from_str` loop returns `Parse` |
| LegacyTimecode.ParseAgrees | src/misc/time.rs:38-51 | Both parsers accept the same strings, give the same fields and fail with the same error |
| LegacyTimecode.FormatAgrees | src/misc/time.rs:54-61 | Both formatters print the same text |
| LegacyTimecode.ParseFormat | src/misc/time.rs:38-61 | Parsing the older display form gives back the same timecode |
| LegacyTimecode.ParseExamples | src/misc/time.rs:80-125 | The parse and macro examples of the older tests hold |
| Settings.ParseSetting | src/args.rs:29-34 | Never fails; with an `=`, key + "=" + value is the input and the key has no `=` (the split is at the first `=`); without one, the input is the key and the value is empty |
| Settings.FirstSplitUnique | src/args.rs:31 | The split at the first `=` is unique: two `=`-free keys that precede an `=` in the same text are the same key with the same value |
| Settings.ParseSettingRoundTrip | src/args.rs:27-34 | Any `=`-free key, then `=`, then any value (which may itself hold `=`) parses back to that key and that value |
| Text.DecimalDigits | src/time.rs:77 | The decimal form of `n` is non-empty, all digits, at least two digits from 10 on, and has value `n` |
| Text.Pad2RoundTrip | src/time.rs:77 | `{:<02}` of a `u8`, which for integers is the same as `{:02}`, is at least two digits, and `u8::from_str` reads it back as the same value |
| Text.SplitJoin | src/cues.rs:28 | Joining separator-free fields with a separator and splitting at a separator set that contains it gives the fields back |
| Text.LinesTerminated | src/cues.rs:27 | `lines()` of newline-terminated rows without `\n` or a trailing `\r` gives the rows back |
| Text.SplitOnce | src/args.rs:31 | `split_once` is `None` if and only if the character is absent; otherwise the key, the character and the value make up the input, and the key does not hold the character |
| Text.ContainsInside | src/cues.rs:30 | A text contains every pattern placed inside it |
| CueTable.ClassifyCases | src/cues.rs:28-48 | One marker row, one outcome at a time. It fails with MissingField if and only if it has fewer than six fields (the `parts[5]` panic). It is skipped with NotCuePoint if and only if field 6 lacks "Cue Point". It fails with BadTime if and only if it is a Cue Point row whose start or end does not parse; the error is the start's when the start is bad, else the end's. It is skipped with NonZeroDuration if and only if both times parse and differ. It is kept, with its parsed start, if and only if both parse and are equal. No row fails with any other error, and a warning carries the row's number |
| CueTable.OutcomeAt | src/cues.rs:27 | Row `i` of the enumerated marker rows is classified under marker number `i + 1` |
| CueTable.Scan | src/cues.rs:27-49 | After `k` rows that do not stop the loop, every row is either a kept start or a warning |
| CueTable.ErrorPersists | src/cues.rs:38-39 | Once a row stops the loop with an error, loading ends with that error |
| CueTable.ScanFails | src/cues.rs:27-49 | The loop fails if and only if some row's outcome is a failure |
| CueTable.ReadRow | src/cues.rs:28-48 | The loop body returns the row's `Classify` outcome, with the start parsed before the end |
| CueTable.ScanRows | src/cues.rs:27-49 | The row loop computes `Scan` over all the marker rows |
| CueTable.FromStr | src/cues.rs:23-53 | `from_str` returns `Load`: an empty input panics; otherwise it gives the scan's error, or the kept starts sorted with the warnings |
| CueTable.InsertPermutes | src/cues.rs:51 | Insertion adds exactly the inserted time to the multiset |
| CueTable.InsertSorted | src/cues.rs:51 | Insertion into an ascending sequence keeps it ascending |
| CueTable.SortTimesSorted | src/cues.rs:51 | The sorted times are ascending and are a permutation of the input |
| CueTable.SortedUnique | src/cues.rs:51 | Two ascending sequences with the same multiset are equal, so every correct sort gives the same table |
| CueTable.SortInPlace | src/cues.rs:51 | `inner.sort()`: the array becomes ascending and keeps its multiset |
| CueTable.SortKept | src/cues.rs:51 | Sorting the kept starts in an array gives `SortTimes` of them |
| CueTable.SortTimesOfSorted | src/cues.rs:51 | Sorting an ascending sequence leaves it unchanged |
| CueTable.LoadSortsKept | src/cues.rs:48-52 | A loaded table is ascending and is a permutation of the kept starts; cues plus warnings are all the marker rows |
| CueTable.LoadFails | src/cues.rs:23-53 | Loading fails if and only if the input is empty or some marker row fails |
| CueTable.BlankRowFails | src/cues.rs:28-30 | A blank marker line has one field, so it hits the `parts[5]` panic |
| CueTable.GetMonotone | src/cues.rs:79-85 | On a sorted table `get` is non-decreasing in its index. `get(0)` is 00:00:00:00, `get(i)` is cue `i` for `1 <= i <= len`, and beyond that it is `END` |
| CueTable.LastReached | src/cues.rs:64-68 | The backward scan finds the last cue whose seconds have been reached: everything after it is still ahead |
| CueTable.CurrentIndex | src/cues.rs:63-75 | On a non-empty table `current` is at most `len`. A non-zero result is a reached cue, and every later cue is still ahead. On an empty table it is 1 exactly from the seconds of `END` on, else 0 |
| CueTable.Current | src/cues.rs:63-75 | The backward loop of `current` returns `CurrentIndex` |
| CueTable.CurrentMonotone | src/cues.rs:63-75 | A later playback time never gives an earlier cue |
| CueTable.PastLastCue | src/cues.rs:64-68 | At or after the last cue, `current` is `len`, not `len + 1` |
| CueTable.CurrentCueReached | src/cues.rs:60-75 | For every table, empty included, the cue `current` names has been reached: `get(current)` is at most the playback time (on an empty table that cue is `END`), or `current` is 0 and `get` gives the start |
| CueTable.CurrentAtCue | src/cues.rs:60-85 | On a table of distinct cues within clock ranges, `current` at the seconds of `get(i)` is `i`, for every cue `i` |
| CueTable.BeforeFirstCue | src/cues.rs:62-74 | Before the first cue of a sorted table whose cues are within clock ranges (repeated times allowed), `current` is 0 |
| CueTable.CurrentExamples | src/cues.rs:63-75 | With cues at 5, 20 and 40 s at 1 fps, `current` is 3 at 41 s, 2 at 20 s and 0 at 2 s |
| CueTable.ExportRowKept | src/cues.rs:19-22 | A row with its time in fields 3 and 4 and "Cue Point" at the end of field 6 is kept with that time, whether tab- or comma-separated |
| CueTable.DurationRowSkipped | src/cues.rs:40-46 | A Cue Point row in the export shape whose start and end are different timecodes is skipped with a NonZeroDuration warning, not an error |
| CueTable.ScanAllKept | src/cues.rs:27-49 | Rows that are all kept scan to their starts in file order, with no warning |
| CueTable.LoadAllKept | src/cues.rs:23-53 | Loading rows that are all kept gives their starts sorted, with no warning |
| CueTable.AfterEffectsRowsKept | src/cues.rs:16 | Every row of the documented After Effects formatter is kept with its time |
| CueTable.AfterEffectsMarkerRows | src/cues.rs:25-27 | An After Effects export starts with `,`, so it has no header and its marker rows are all its lines |
| CueTable.AfterEffectsRoundTrip | src/cues.rs:16 | Any non-empty After Effects export of cue times loads as those times sorted, with no warning |
| CueTable.PremiereRowKept | src/cues.rs:126-137 | A Premiere Pro marker row of type "Flash Cue Point" is kept with its time |
| CueTable.PremiereRoundTrip | src/cues.rs:124-147 | Any Premiere Pro export of cue times, header included, loads as those times sorted, with no warning |
| CueTable.LoadExamples | src/cues.rs:109-172 | The eleven times of both loading tests load from both export shapes as those times, in order, with no warning, and `len` is 11 |

## Left out

- The playback window, the mpv player, the keyboard controller, `main` and the `clap` argument struct (src/app.rs, src/window.rs, src/main.rs, and `Args` in src/args.rs) are not part of this model. They are I/O and event handling.
- Floating point is abstracted:
  - `as_secs` is computed over `real` with a positive frame rate.
  - `as_frames` and `from_duration` are computed over whole numbers, with an integer frame rate and a duration in whole milliseconds. The rounding of `f32`/`f64` and the saturation of float-to-integer casts are not modelled.
  - The cast `as u8` of the `from_duration` fields is modelled as `% 256`.
- Timecode.AsFrames: does not model the `u32` result type. The model's count is unbounded; the largest timecode at a realistic frame rate fits in `u32` anyway.
- Timecode.FromDuration: does not model a frame rate below 1, which makes `fps as u32` zero and the `%` panic. The model requires `fps > 0`.
- `char::is_alphabetic`, used for the header test, is modelled for ASCII letters only. Unicode letters at the start of an export are not treated as a header.
- The `[WARN]` lines printed for skipped markers become `Warning` values that carry the marker number. The message text is not modelled.
- Panics become errors:
  - the `unwrap` on an empty input;
  - `parts[5]` on a row with fewer than six fields;
  - the `3 - i` underflow of a timecode with more than four fields.
- `anyhow` errors carry no message. A bad timecode is `BadTime(InvalidField)`.
- `Deref`/`DerefMut` to the inner `Vec` (src/cues.rs:88-100) are not modelled. The rest of the program only reads the cues through them; the model keeps the table as an immutable value.
- `inner.sort()` is modelled by an in-place insertion sort rather than Rust's merge sort. `CueTable.SortedUnique` shows that every sort of the same times gives the same result.

## Findings

| source | as written | input that shows it | evidently intended | confidence | as-written member | corrected member |
|---|---|---|---|---|---|---|
| src/time.rs:42 | `minutes` is the total number of whole minutes, not reduced modulo 60 | a duration of 3600 s at 24 fps gives 01:60:00:00, which `as_frames` counts as 172800 frames instead of 86400 | `minutes: (seconds / 60 % 60) as u8`, so that `as_frames(from_duration(d))` is the frames elapsed in `d` | high (not executed) | Timecode.FromDurationMinutesOverflow | Timecode.FromDurationFixedRoundTrip |
| src/misc/time.rs:28 | the same expression in the older timecode | the same input: 01:60:00:00 | the same correction | high (not executed) | LegacyTimecode.FromDurationMinutesOverflow | LegacyTimecode.FromDurationFixedRoundTrip |
