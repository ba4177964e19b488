/**
 * The HH:MM:SS:FF timecode of src/time.rs: four `u8` fields ordered
 * lexicographically, the `END` sentinel, conversion to seconds and frames,
 * construction from a duration, the colon-separated parser and the
 * zero-padded formatter.
 *
 * Floating point is abstracted: `as_secs` is computed over `real` with a
 * positive frame rate, `as_frames` and `from_duration` over whole numbers
 * with an integer frame rate and a duration in milliseconds.
 */
module Timecode {
  import opened Wrappers
  import opened Text

  /** A point in a video; `Time(h, m, s, f)` is also what the `time!` macro builds. */
  datatype Time = Time(hours: u8, minutes: u8, seconds: u8, frames: u8)

  /** The start of the video, `00:00:00:00`. */
  const Zero: Time := Time(0, 0, 0, 0)

  /** The end-of-video sentinel `255:255:255:255`. */
  const End: Time := Time(255, 255, 255, 255)

  /**
   * Why a timecode string is refused.  `InvalidField` is the parse error the
   * source returns; `FieldIndexUnderflow` is the panic of `3 - i` when a fifth
   * field from the right parses.
   */
  datatype TimeError = InvalidField | FieldIndexUnderflow

  // ---------------------------------------------------------------------------
  // Ordering (the derived `Ord`: fields compared in declaration order)

  predicate Le(a: Time, b: Time) {
    || a.hours < b.hours
    || (a.hours == b.hours && a.minutes < b.minutes)
    || (a.hours == b.hours && a.minutes == b.minutes && a.seconds < b.seconds)
    || (a.hours == b.hours && a.minutes == b.minutes && a.seconds == b.seconds && a.frames <= b.frames)
  }

  predicate Lt(a: Time, b: Time) {
    Le(a, b) && a != b
  }

  /** `Le` is a total order on timecodes. */
  lemma LeIsTotalOrder(a: Time, b: Time, c: Time)
    ensures Le(a, a)
    ensures Le(a, b) && Le(b, a) ==> a == b
    ensures Le(a, b) && Le(b, c) ==> Le(a, c)
    ensures Le(a, b) || Le(b, a)
  {
  }

  /** `is_end`: whether the timecode is the end-of-video sentinel. */
  predicate IsEnd(t: Time) {
    t == End
  }

  /** `END` is the greatest timecode, and `is_end` holds exactly of the greatest one. */
  lemma EndIsMaximum(t: Time)
    ensures Le(Zero, t) && Le(t, End)
    ensures IsEnd(t) <==> Le(End, t)
  {
  }

  // ---------------------------------------------------------------------------
  // Conversions

  /** The whole seconds the hours, minutes and seconds fields stand for. */
  function WholeSeconds(t: Time): nat {
    t.seconds as nat + 60 * t.minutes as nat + 3600 * t.hours as nat
  }

  /** `as_secs`: whole seconds plus the frames as a fraction of a second. */
  function AsSecs(t: Time, fps: real): real
    requires fps > 0.0
  {
    WholeSeconds(t) as real + t.frames as real / fps
  }

  /** Dividing by a positive frame rate keeps order. */
  lemma DivideKeepsOrder(x: real, y: real, fps: real)
    requires fps > 0.0 && x <= y
    ensures x / fps <= y / fps
    ensures x < y ==> x / fps < y / fps
  {
    var q := 1.0 / fps;
    assert q > 0.0;
    assert x / fps == x * q && y / fps == y * q;
    assert (y - x) * q >= 0.0;
    assert x < y ==> (y - x) * q > 0.0;
  }

  lemma FractionBelowOne(f: real, fps: real)
    requires fps > 0.0 && 0.0 <= f < fps
    ensures 0.0 <= f / fps < 1.0
  {
    DivideKeepsOrder(0.0, f, fps);
    DivideKeepsOrder(f, fps, fps);
    assert fps / fps == 1.0;
  }

  /** `as_secs` is never negative and grows with every field. */
  lemma AsSecsMonotoneInFields(a: Time, b: Time, fps: real)
    requires fps > 0.0
    requires a.hours <= b.hours && a.minutes <= b.minutes && a.seconds <= b.seconds && a.frames <= b.frames
    ensures 0.0 <= AsSecs(a, fps) <= AsSecs(b, fps)
  {
    DivideKeepsOrder(0.0, a.frames as real, fps);
    DivideKeepsOrder(a.frames as real, b.frames as real, fps);
  }

  /** The fields are within their clock ranges for the frame rate. */
  predicate WithinClock(t: Time, fps: real) {
    t.minutes < 60 && t.seconds < 60 && (t.frames as real) < fps
  }

  lemma WholeSecondsOrdered(a: Time, b: Time)
    requires Lt(a, b) && a.minutes < 60 && a.seconds < 60 && b.minutes < 60 && b.seconds < 60
    ensures WholeSeconds(a) < WholeSeconds(b) || (WholeSeconds(a) == WholeSeconds(b) && a.frames < b.frames)
  {
  }

  /** Within clock ranges, a later timecode is strictly more seconds. */
  lemma AsSecsStrictlyMonotone(a: Time, b: Time, fps: real)
    requires fps > 0.0 && WithinClock(a, fps) && WithinClock(b, fps)
    requires Lt(a, b)
    ensures AsSecs(a, fps) < AsSecs(b, fps)
  {
    WholeSecondsOrdered(a, b);
    FractionBelowOne(a.frames as real, fps);
    FractionBelowOne(b.frames as real, fps);
    if WholeSeconds(a) == WholeSeconds(b) {
      DivideKeepsOrder(a.frames as real, b.frames as real, fps);
    }
  }

  /** Within clock ranges, the order of timecodes is the order of their seconds. */
  lemma AsSecsMonotone(a: Time, b: Time, fps: real)
    requires fps > 0.0 && WithinClock(a, fps) && WithinClock(b, fps)
    requires Le(a, b)
    ensures AsSecs(a, fps) <= AsSecs(b, fps)
  {
    if a != b {
      AsSecsStrictlyMonotone(a, b, fps);
    }
  }

  /** Without the clock ranges the order and the seconds disagree: `00:00:00:255 < 00:00:01:00`. */
  lemma AsSecsOrderNeedsClockRanges()
    ensures Lt(Time(0, 0, 0, 255), Time(0, 0, 1, 0))
    ensures AsSecs(Time(0, 0, 0, 255), 1.0) > AsSecs(Time(0, 0, 1, 0), 1.0)
  {
  }

  /** `as_frames` with a whole frame rate. */
  function AsFrames(t: Time, fps: nat): nat {
    t.frames as nat + WholeSeconds(t) * fps
  }

  /** `as_frames` counts the same span as `as_secs`, in frames instead of seconds. */
  lemma AsFramesMatchesAsSecs(t: Time, fps: nat)
    requires fps > 0
    ensures AsFrames(t, fps) as real == AsSecs(t, fps as real) * (fps as real)
  {
    var f := fps as real;
    assert (t.frames as real / f) * f == t.frames as real;
    assert (WholeSeconds(t) * fps) as real == (WholeSeconds(t) as real) * f;
  }

  /** The start of the video is frame 0 at every frame rate. */
  lemma AsFramesOfZero(fps: nat)
    ensures AsFrames(Time(0, 0, 0, 0), fps) == 0
  {
    assert WholeSeconds(Time(0, 0, 0, 0)) == 0;
  }

  /** The other two examples the source checks for `as_frames`. */
  lemma AsFramesExamples()
    ensures AsFrames(Time(0, 0, 10, 15), 30) == 315
    ensures AsFrames(Time(12, 34, 56, 78), 24) == 1087182
  {
  }

  /**
   * `from_duration` as written, for a duration of `millis` milliseconds and a
   * whole frame rate: the minutes field is the total number of minutes, not
   * reduced modulo 60, and every field is truncated to 8 bits as `as u8` does.
   */
  function FromDuration(millis: nat, fps: nat): Time
    requires fps > 0
  {
    var seconds := millis / 1000;
    var frames := millis * fps / 1000;
    Time(((seconds / 3600) % 256) as u8, ((seconds / 60) % 256) as u8,
         (seconds % 60) as u8, ((frames % fps) % 256) as u8)
  }

  /** `from_duration` with the minutes field reduced modulo 60. */
  function FromDurationFixed(millis: nat, fps: nat): Time
    requires fps > 0
  {
    var seconds := millis / 1000;
    var frames := millis * fps / 1000;
    Time(((seconds / 3600) % 256) as u8, ((seconds / 60) % 60) as u8,
         (seconds % 60) as u8, ((frames % fps) % 256) as u8)
  }

  /** The examples the source checks for `from_duration`. */
  lemma FromDurationExamples()
    ensures FromDuration(0, 24) == Zero
    ensures FromDuration(10000, 30) == Time(0, 0, 10, 0)
    ensures FromDuration(500, 24) == Time(0, 0, 0, 12)
  {
  }

  /** One hour at 24 fps becomes `01:60:00:00`, which is two hours' worth of frames. */
  lemma FromDurationMinutesOverflow()
    ensures FromDuration(3600000, 24) == Time(1, 60, 0, 0)
    ensures AsFrames(FromDuration(3600000, 24), 24) == 2 * 3600 * 24
    ensures AsFrames(FromDuration(3600000, 24), 24) != 3600000 * 24 / 1000
  {
  }

  /** Integer division by `d` is determined by the bracket it falls in. */
  lemma DivideBracket(n: nat, d: nat, q: nat)
    requires d > 0 && q * d <= n < q * d + d
    ensures n / d == q && n % d == n - q * d
  {
    var k, r := n / d, n % d;
    assert n == k * d + r && 0 <= r < d;
    if k > q {
      MultiplyKeepsOrder(q + 1, k, d);
    } else if k < q {
      MultiplyKeepsOrder(k + 1, q, d);
    }
  }

  lemma MultiplyKeepsOrder(x: nat, y: nat, c: nat)
    requires x <= y
    ensures x * c <= y * c
  {
  }

  lemma MultiplyKeepsStrictOrder(x: nat, y: nat, c: nat)
    requires x < y && c > 0
    ensures x * c < y * c
  {
  }

  /** The frames elapsed in a duration: the whole seconds times fps plus the frames into the last second. */
  lemma ElapsedFrames(millis: nat, fps: nat)
    requires fps > 0
    ensures (millis * fps / 1000) / fps == millis / 1000
    ensures (millis * fps / 1000) % fps == millis * fps / 1000 - (millis / 1000) * fps
  {
    var s := millis / 1000;
    var total := millis * fps / 1000;
    assert s * 1000 <= millis < s * 1000 + 1000;
    assert total * 1000 <= millis * fps < total * 1000 + 1000;
    MultiplyKeepsOrder(s * 1000, millis, fps);
    MultiplyKeepsStrictOrder(millis, s * 1000 + 1000, fps);
    assert (s * 1000) * fps == (s * fps) * 1000;
    assert (s * 1000 + 1000) * fps == (s * fps + fps) * 1000;
    assert (s * fps) * 1000 < (total + 1) * 1000;
    assert total * 1000 < (s * fps + fps) * 1000;
    assert s * fps <= total < s * fps + fps;
    DivideBracket(total, fps, s);
  }

  /**
   * The corrected `from_duration` keeps every field in its clock range and
   * loses no frames: converting back with `as_frames` gives the frames
   * elapsed in the duration, for durations under 256 hours.
   */
  lemma FromDurationFixedRoundTrip(millis: nat, fps: nat)
    requires 0 < fps <= 256 && millis / 1000 < 256 * 3600
    ensures WithinClock(FromDurationFixed(millis, fps), fps as real)
    ensures AsFrames(FromDurationFixed(millis, fps), fps) == millis * fps / 1000
  {
    var s := millis / 1000;
    var total := millis * fps / 1000;
    ElapsedFrames(millis, fps);
    var t := FromDurationFixed(millis, fps);
    assert t.frames as nat == total - s * fps;
    assert WholeSeconds(t) == s;
  }

  /** Under an hour the source's `from_duration` and the corrected one agree. */
  lemma FromDurationAgreesBelowOneHour(millis: nat, fps: nat)
    requires fps > 0 && millis < 3600000
    ensures FromDuration(millis, fps) == FromDurationFixed(millis, fps)
  {
  }

  // ---------------------------------------------------------------------------
  // Parsing

  /**
   * The parser's loop from the `i`-th field counted from the right: each
   * field is parsed as a `u8` and written at position `3 - i`; a field that
   * does not parse stops with an error, and a fifth field that parses
   * underflows the index.
   */
  function FillFrom(parts: seq<string>, i: nat, time: seq<u8>): (r: Result<seq<u8>, TimeError>)
    requires |time| == 4
    ensures r.Ok? ==> |r.value| == 4
    decreases |parts| - i
  {
    if i >= |parts| then Ok(time)
    else
      match ParseU8(parts[|parts| - 1 - i])
      case None => Err(InvalidField)
      case Some(v) => if i > 3 then Err(FieldIndexUnderflow) else FillFrom(parts, i + 1, time[3 - i := v])
  }

  /** The four fields of a timecode string, hours first. */
  function Fields(s: string): (r: Result<seq<u8>, TimeError>)
    ensures r.Ok? ==> |r.value| == 4
  {
    FillFrom(Split(s, {':'}), 0, [0, 0, 0, 0])
  }

  /** One turn of the parser's loop. */
  lemma FillFromStep(parts: seq<string>, i: nat, time: seq<u8>)
    requires |time| == 4 && i < |parts|
    ensures ParseU8(parts[|parts| - 1 - i]).None? ==> FillFrom(parts, i, time) == Err(InvalidField)
    ensures ParseU8(parts[|parts| - 1 - i]).Some? && i > 3 ==> FillFrom(parts, i, time) == Err(FieldIndexUnderflow)
    ensures ParseU8(parts[|parts| - 1 - i]).Some? && i <= 3 ==>
              FillFrom(parts, i, time) == FillFrom(parts, i + 1, time[3 - i := ParseU8(parts[|parts| - 1 - i]).value])
  {
  }

  /** The loop of `from_str`, writing a four-element array. */
  method ReadFields(s: string) returns (r: Result<seq<u8>, TimeError>)
    ensures r == Fields(s)
  {
    var time := new u8[4](_ => 0);
    assert time[..] == [0, 0, 0, 0];
    var parts := Split(s, {':'});
    var i := 0;
    while i < |parts|
      invariant 0 <= i <= |parts|
      invariant FillFrom(parts, i, time[..]) == Fields(s)
    {
      FillFromStep(parts, i, time[..]);
      var field := ParseU8(parts[|parts| - 1 - i]);
      if field.None? {
        return Err(InvalidField);
      }
      if i > 3 {
        return Err(FieldIndexUnderflow);
      }
      ghost var before := time[..];
      time[3 - i] := field.value;
      assert time[..] == before[3 - i := field.value];
      i := i + 1;
    }
    return Ok(time[..]);
  }

  /** `from_str`: the timecode a string denotes, or why it is refused. */
  function Parse(s: string): Result<Time, TimeError> {
    match Fields(s)
    case Err(e) => Err(e)
    case Ok(f) => Ok(Time(f[0], f[1], f[2], f[3]))
  }

  method FromStr(s: string) returns (r: Result<Time, TimeError>)
    ensures r == Parse(s)
  {
    var fields := ReadFields(s);
    if fields.Err? {
      return Err(fields.error);
    }
    var f := fields.value;
    return Ok(Time(f[0], f[1], f[2], f[3]));
  }

  predicate AllParse(parts: seq<string>, lo: int, hi: int) {
    forall j :: lo <= j < hi && 0 <= j < |parts| ==> ParseU8(parts[j]).Some?
  }

  /** The loop succeeds exactly when at most four fields remain and every remaining one parses. */
  lemma {:induction false} FillFromSucceeds(parts: seq<string>, i: nat, time: seq<u8>)
    requires |time| == 4 && i <= |parts| && i <= 4
    ensures FillFrom(parts, i, time).Ok? <==> |parts| <= 4 && AllParse(parts, 0, |parts| - i)
    decreases |parts| - i
  {
    if i < |parts| {
      var v := ParseU8(parts[|parts| - 1 - i]);
      if v.Some? && i <= 3 {
        FillFromSucceeds(parts, i + 1, time[3 - i := v.value]);
      }
    }
  }

  /** The loop panics exactly when more than four fields are given and the five rightmost parse. */
  lemma {:induction false} FillFromUnderflows(parts: seq<string>, i: nat, time: seq<u8>)
    requires |time| == 4 && i <= |parts| && i <= 4
    ensures FillFrom(parts, i, time) == Err(FieldIndexUnderflow) <==>
              |parts| > 4 && AllParse(parts, |parts| - 5, |parts| - i)
    decreases |parts| - i
  {
    if i < |parts| {
      var v := ParseU8(parts[|parts| - 1 - i]);
      if v.Some? && i <= 3 {
        FillFromUnderflows(parts, i + 1, time[3 - i := v.value]);
      }
    }
  }

  /** The value of a field that parses. */
  function FieldValue(part: string): u8
    requires ParseU8(part).Some?
  {
    ParseU8(part).value
  }

  /** At most four fields that all parse, written right-aligned over the given start. */
  function RightAligned(parts: seq<string>, time: seq<u8>): (r: seq<u8>)
    requires |parts| <= 4 && |time| == 4 && AllParse(parts, 0, |parts|)
    ensures |r| == 4
  {
    seq(4, j requires 0 <= j < 4 =>
      if j < 4 - |parts| then time[j] else FieldValue(parts[j - (4 - |parts|)]))
  }

  /**
   * Fields fill from the right: with `n <= 4` fields that all parse, the last
   * field is the frames, the one before it the seconds, and so on; fields
   * not given are 0.
   */
  lemma {:induction false} FillFromRight(parts: seq<string>, i: nat, time: seq<u8>)
    requires |parts| <= 4 && |time| == 4 && i <= |parts| && AllParse(parts, 0, |parts|)
    requires forall j :: 4 - i <= j < 4 ==> time[j] == FieldValue(parts[j - (4 - |parts|)])
    ensures FillFrom(parts, i, time) == Ok(RightAligned(parts, time))
    decreases |parts| - i
  {
    var n := |parts|;
    if i < n {
      var next := time[3 - i := FieldValue(parts[n - 1 - i])];
      FillFromRight(parts, i + 1, next);
      forall j | 0 <= j < 4
        ensures RightAligned(parts, next)[j] == RightAligned(parts, time)[j]
      {
      }
      assert RightAligned(parts, next) == RightAligned(parts, time);
      assert FillFrom(parts, i, time) == FillFrom(parts, i + 1, next);
    } else {
      forall j | 0 <= j < 4
        ensures RightAligned(parts, time)[j] == time[j]
      {
      }
      assert RightAligned(parts, time) == time;
    }
  }

  /**
   * What `from_str` accepts: at most four colon-separated fields, every one
   * of them (empty ones included) a valid `u8`.  More than four fields whose
   * five rightmost parse is the underflow panic; every other refusal is a
   * parse error.
   */
  lemma ParseAccepts(s: string)
    ensures var parts := Split(s, {':'});
      Parse(s).Ok? <==> |parts| <= 4 && forall j :: 0 <= j < |parts| ==> ParseU8(parts[j]).Some?
    ensures var parts := Split(s, {':'});
      Parse(s) == Err(FieldIndexUnderflow) <==>
        |parts| > 4 && forall j :: |parts| - 5 <= j < |parts| ==> ParseU8(parts[j]).Some?
  {
    var parts := Split(s, {':'});
    FillFromSucceeds(parts, 0, [0, 0, 0, 0]);
    FillFromUnderflows(parts, 0, [0, 0, 0, 0]);
  }

  /** With at most four fields that all parse, they fill the timecode from the right, missing leading fields being 0. */
  lemma ParseFillsFromRight(s: string)
    requires |Split(s, {':'})| <= 4 && AllParse(Split(s, {':'}), 0, |Split(s, {':'})|)
    ensures var parts := Split(s, {':'}); var n := |parts|;
      && Parse(s).Ok?
      && Parse(s).value.frames == FieldValue(parts[n - 1])
      && Parse(s).value.seconds == (if n >= 2 then FieldValue(parts[n - 2]) else 0)
      && Parse(s).value.minutes == (if n >= 3 then FieldValue(parts[n - 3]) else 0)
      && Parse(s).value.hours == (if n >= 4 then FieldValue(parts[n - 4]) else 0)
  {
    var parts := Split(s, {':'});
    FillFromRight(parts, 0, [0, 0, 0, 0]);
  }

  // ---------------------------------------------------------------------------
  // Formatting

  /** Four fields, each zero-padded to at least two digits, joined by colons. */
  function FormatFields(h: u8, m: u8, s: u8, f: u8): string {
    Join([Pad2(h as nat), Pad2(m as nat), Pad2(s as nat), Pad2(f as nat)], ':')
  }

  /** `Display::fmt`: `hours:minutes:seconds:frames`, each written with `{:<02}` (see `Text.Pad2`). */
  function Format(t: Time): string {
    FormatFields(t.hours, t.minutes, t.seconds, t.frames)
  }

  /** A zero-padded field holds no separator of any kind the core splits at. */
  lemma Pad2Avoids(n: u8, seps: set<char>)
    requires forall c :: c in seps ==> !IsDigit(c)
    ensures Avoids(Pad2(n as nat), seps)
    ensures ParseU8(Pad2(n as nat)) == Some(n)
  {
    Pad2RoundTrip(n);
  }

  /** Formatted fields split back into the four padded fields. */
  lemma SplitFormatFields(h: u8, m: u8, s: u8, f: u8)
    ensures Split(FormatFields(h, m, s, f), {':'}) == [Pad2(h as nat), Pad2(m as nat), Pad2(s as nat), Pad2(f as nat)]
  {
    var pieces := [Pad2(h as nat), Pad2(m as nat), Pad2(s as nat), Pad2(f as nat)];
    Pad2Avoids(h, {':'});
    Pad2Avoids(m, {':'});
    Pad2Avoids(s, {':'});
    Pad2Avoids(f, {':'});
    SplitJoin(pieces, ':', {':'});
  }

  /** Each value zero-padded to two digits. */
  function Padded(vals: seq<u8>): (r: seq<string>)
    ensures |r| == |vals|
  {
    seq(|vals|, i requires 0 <= i < |vals| => Pad2(vals[i] as nat))
  }

  /** Up to four values with zeros in front of them, four in all. */
  function Widen(vals: seq<u8>): (r: seq<u8>)
    requires |vals| <= 4
    ensures |r| == 4
  {
    [0, 0, 0, 0][..4 - |vals|] + vals
  }

  /** One to four values, padded and joined by colons, parse back right-aligned with zeros in front. */
  lemma FieldsOfJoined(vals: seq<u8>)
    requires 1 <= |vals| <= 4
    ensures Fields(Join(Padded(vals), ':')) == Ok(Widen(vals))
  {
    var pieces := Padded(vals);
    forall i | 0 <= i < |vals|
      ensures Avoids(pieces[i], {':'}) && ParseU8(pieces[i]) == Some(vals[i])
    {
      Pad2Avoids(vals[i], {':'});
    }
    SplitJoin(pieces, ':', {':'});
    assert Fields(Join(pieces, ':')) == FillFrom(pieces, 0, [0, 0, 0, 0]);
    assert AllParse(pieces, 0, |pieces|);
    FillFromRight(pieces, 0, [0, 0, 0, 0]);
    var aligned := RightAligned(pieces, [0, 0, 0, 0]);
    forall j | 0 <= j < 4
      ensures aligned[j] == Widen(vals)[j]
    {
      if j >= 4 - |vals| {
        assert FieldValue(pieces[j - (4 - |vals|)]) == vals[j - (4 - |vals|)];
      }
    }
    assert aligned == Widen(vals);
  }

  /** Parsing a formatted timecode gives back the same timecode. */
  lemma ParseFormat(t: Time)
    ensures Parse(Format(t)) == Ok(t)
  {
    var vals := [t.hours, t.minutes, t.seconds, t.frames];
    FieldsOfJoined(vals);
    assert Padded(vals) == [Pad2(t.hours as nat), Pad2(t.minutes as nat), Pad2(t.seconds as nat), Pad2(t.frames as nat)];
  }

  /** The examples the source checks for parsing: all four fields given. */
  lemma ParseZeroExample()
    ensures Parse("00:00:00:00") == Ok(Time(0, 0, 0, 0))
  {
    ParseExample([0, 0, 0, 0], ["00", "00", "00", "00"], "00:00:00:00");
  }

  /** Two fields are the seconds and the frames. */
  lemma ParseTwoFieldsExample()
    ensures Parse("00:15") == Ok(Time(0, 0, 0, 15))
  {
    ParseExample([0, 15], ["00", "15"], "00:15");
  }

  /** A single field is the frames. */
  lemma ParseOneFieldExample()
    ensures Parse("12") == Ok(Time(0, 0, 0, 12))
  {
    ParseExample([12], ["12"], "12");
  }

  lemma ParseMinutesExample()
    ensures Parse("00:05:00:00") == Ok(Time(0, 5, 0, 0))
  {
    ParseExample([0, 5, 0, 0], ["00", "05", "00", "00"], "00:05:00:00");
  }

  /** The `time!` macro test: the timecode written in the macro is what the string parses to. */
  lemma MacroExample()
    ensures Parse("00:00:12:00") == Ok(Time(0, 0, 12, 0))
  {
    ParseExample([0, 0, 12, 0], ["00", "00", "12", "00"], "00:00:12:00");
  }

  lemma ParseExample(vals: seq<u8>, pieces: seq<string>, s: string)
    requires 1 <= |vals| <= 4 && |pieces| == |vals|
    requires forall i :: 0 <= i < |vals| ==> pieces[i] == Pad2(vals[i] as nat)
    requires s == Join(pieces, ':')
    ensures Parse(s) == Ok(Time(Widen(vals)[0], Widen(vals)[1], Widen(vals)[2], Widen(vals)[3]))
  {
    assert pieces == Padded(vals);
    FieldsOfJoined(vals);
  }
}
