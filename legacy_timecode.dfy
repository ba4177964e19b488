/**
 * The older timecode of src/misc/time.rs: the same four `u8` fields with the
 * derived lexicographic order, `as_frames`, `from_duration`, the
 * colon-separated parser and the zero-padded formatter, but no `END`
 * sentinel and no `as_secs`.  Its parser runs the same loop as the current
 * one, so it shares `Timecode.Fields`; the lemmas here show that every
 * operation agrees with its counterpart in `Timecode`.
 */
module LegacyTimecode {
  import opened Wrappers
  import opened Text
  import Timecode

  datatype Time = Time(hours: u8, minutes: u8, seconds: u8, frames: u8)

  /** The same fields as a current timecode. */
  function ToCurrent(t: Time): Timecode.Time {
    Timecode.Time(t.hours, t.minutes, t.seconds, t.frames)
  }

  /** The derived `Ord`: hours first, then minutes, seconds and frames. */
  predicate Le(a: Time, b: Time) {
    if a.hours != b.hours then a.hours < b.hours
    else if a.minutes != b.minutes then a.minutes < b.minutes
    else if a.seconds != b.seconds then a.seconds < b.seconds
    else a.frames <= b.frames
  }

  /** Both timecodes are ordered alike. */
  lemma LeAgrees(a: Time, b: Time)
    ensures Le(a, b) <==> Timecode.Le(ToCurrent(a), ToCurrent(b))
    ensures a == b <==> ToCurrent(a) == ToCurrent(b)
  {
  }

  /** `as_frames` with a whole frame rate: the frames field plus the frames in the whole seconds. */
  function AsFrames(t: Time, fps: nat): nat {
    var seconds := t.seconds as nat + t.minutes as nat * 60 + t.hours as nat * 3600;
    t.frames as nat + seconds * fps
  }

  /** Both timecodes count the same frames. */
  lemma AsFramesAgrees(t: Time, fps: nat)
    ensures AsFrames(t, fps) == Timecode.AsFrames(ToCurrent(t), fps)
  {
  }

  /** The start of the video is frame 0 at every frame rate. */
  lemma AsFramesOfZero(fps: nat)
    ensures AsFrames(Time(0, 0, 0, 0), fps) == 0
  {
    AsFramesAgrees(Time(0, 0, 0, 0), fps);
    Timecode.AsFramesOfZero(fps);
  }

  /** The other two examples the source checks for `as_frames`. */
  lemma AsFramesExamples()
    ensures AsFrames(Time(0, 0, 10, 15), 30) == 315
    ensures AsFrames(Time(12, 34, 56, 78), 24) == 1087182
  {
    AsFramesAgrees(Time(0, 0, 10, 15), 30);
    AsFramesAgrees(Time(12, 34, 56, 78), 24);
    Timecode.AsFramesExamples();
  }

  /**
   * `from_duration` as written, for `millis` milliseconds and a whole frame
   * rate: every field truncated to 8 bits, and the minutes field the total
   * number of minutes.
   */
  function FromDuration(millis: nat, fps: nat): Time
    requires fps > 0
  {
    var seconds := millis / 1000;
    var frames := millis * fps / 1000;
    Time(((seconds / 3600) % 256) as u8, ((seconds / 60) % 256) as u8,
         (seconds % 60) as u8, ((frames % fps) % 256) as u8)
  }

  /** `from_duration` with the minutes field reduced modulo 60. */
  function FromDurationFixed(millis: nat, fps: nat): Time
    requires fps > 0
  {
    var seconds := millis / 1000;
    var frames := millis * fps / 1000;
    Time(((seconds / 3600) % 256) as u8, ((seconds / 60) % 60) as u8,
         (seconds % 60) as u8, ((frames % fps) % 256) as u8)
  }

  /** Both versions of `from_duration` build the same timecode, as written and corrected alike. */
  lemma FromDurationAgrees(millis: nat, fps: nat)
    requires fps > 0
    ensures ToCurrent(FromDuration(millis, fps)) == Timecode.FromDuration(millis, fps)
    ensures ToCurrent(FromDurationFixed(millis, fps)) == Timecode.FromDurationFixed(millis, fps)
  {
  }

  /** The examples the source checks for `from_duration`. */
  lemma FromDurationExamples()
    ensures FromDuration(0, 24) == Time(0, 0, 0, 0)
    ensures FromDuration(10000, 30) == Time(0, 0, 10, 0)
    ensures FromDuration(500, 24) == Time(0, 0, 0, 12)
  {
  }

  /** One hour at 24 fps becomes `01:60:00:00`, which `as_frames` counts as two hours. */
  lemma FromDurationMinutesOverflow()
    ensures FromDuration(3600000, 24) == Time(1, 60, 0, 0)
    ensures AsFrames(FromDuration(3600000, 24), 24) == 2 * 3600 * 24
    ensures AsFrames(FromDuration(3600000, 24), 24) != 3600000 * 24 / 1000
  {
  }

  /** The corrected `from_duration` loses no frames for durations under 256 hours. */
  lemma FromDurationFixedRoundTrip(millis: nat, fps: nat)
    requires 0 < fps <= 256 && millis / 1000 < 256 * 3600
    ensures FromDurationFixed(millis, fps).minutes < 60 && FromDurationFixed(millis, fps).seconds < 60
    ensures (FromDurationFixed(millis, fps).frames as nat) < fps
    ensures AsFrames(FromDurationFixed(millis, fps), fps) == millis * fps / 1000
  {
    FromDurationAgrees(millis, fps);
    AsFramesAgrees(FromDurationFixed(millis, fps), fps);
    Timecode.FromDurationFixedRoundTrip(millis, fps);
  }

  /** `from_str`: the same loop as the current parser, every error reported as a parse error or the index panic. */
  function Parse(s: string): Result<Time, Timecode.TimeError> {
    match Timecode.Fields(s)
    case Err(e) => Err(e)
    case Ok(f) => Ok(Time(f[0], f[1], f[2], f[3]))
  }

  method FromStr(s: string) returns (r: Result<Time, Timecode.TimeError>)
    ensures r == Parse(s)
  {
    var fields := Timecode.ReadFields(s);
    if fields.Err? {
      return Err(fields.error);
    }
    var f := fields.value;
    return Ok(Time(f[0], f[1], f[2], f[3]));
  }

  /** Both parsers accept the same strings, give the same fields and fail the same way. */
  lemma ParseAgrees(s: string)
    ensures Parse(s).Ok? <==> Timecode.Parse(s).Ok?
    ensures Parse(s).Ok? ==> ToCurrent(Parse(s).value) == Timecode.Parse(s).value
    ensures Parse(s).Err? ==> Parse(s).error == Timecode.Parse(s).error
  {
  }

  /** `Display::fmt`: `hours:minutes:seconds:frames`, each zero-padded to two digits. */
  function Format(t: Time): string {
    Timecode.FormatFields(t.hours, t.minutes, t.seconds, t.frames)
  }

  /** Both timecodes print alike. */
  lemma FormatAgrees(t: Time)
    ensures Format(t) == Timecode.Format(ToCurrent(t))
  {
  }

  /** Parsing a formatted timecode gives it back. */
  lemma ParseFormat(t: Time)
    ensures Parse(Format(t)) == Ok(t)
  {
    Timecode.ParseFormat(ToCurrent(t));
  }

  /** The examples the source checks for parsing, and its macro test. */
  lemma ParseExamples()
    ensures Parse("00:00:00:00") == Ok(Time(0, 0, 0, 0))
    ensures Parse("00:15") == Ok(Time(0, 0, 0, 15))
    ensures Parse("12") == Ok(Time(0, 0, 0, 12))
    ensures Parse("00:05:00:00") == Ok(Time(0, 5, 0, 0))
    ensures Parse("00:00:12:00") == Ok(Time(0, 0, 12, 0))
  {
    Timecode.ParseZeroExample();
    Timecode.ParseTwoFieldsExample();
    Timecode.ParseOneFieldExample();
    Timecode.ParseMinutesExample();
    Timecode.MacroExample();
  }
}
