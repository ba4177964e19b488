/**
 * The cue table of src/cues.rs: loading the start times of the "Cue Point"
 * markers from a tab- or comma-separated marker export, sorting them, and
 * looking cues up by 1-based index (`get`) and by playback time (`current`).
 *
 * The table is read-only once loaded.  Its implicit first cue, the start of
 * the video, is not stored: only `get(0)` produces it.
 */
module CueTable {
  import opened Wrappers
  import opened Text
  import Timecode

  type Time = Timecode.Time

  /** The sorted start times of the cue markers. */
  datatype Cues = Cues(inner: seq<Time>)

  /** A marker row that is skipped, by its 1-based number among the rows after the header. */
  datatype Warning = NotCuePoint(marker: nat) | NonZeroDuration(marker: nat)

  /**
   * Why loading stops.  `BadTime(InvalidField)` is the error the source
   * returns; the others are its panics: the `unwrap` of the first character
   * of an empty input, the index `parts[5]` of a row with fewer than six
   * fields, and the index underflow of a timecode with too many fields.
   */
  datatype LoadError = EmptyInput | MissingField(marker: nat) | BadTime(cause: Timecode.TimeError)

  /** What one marker row contributes: a cue, a warning, or the end of loading. */
  datatype RowOutcome = Keep(start: Time) | Skip(warning: Warning) | Fail(error: LoadError)

  /** A loaded table, with the markers that were skipped on the way. */
  datatype Loaded = Loaded(cues: Cues, warnings: seq<Warning>)

  /** The running state of the loading loop: the cues kept so far, in file order, and the warnings. */
  datatype Scanned = Scanned(kept: seq<Time>, warnings: seq<Warning>)

  const CuePoint: string := "Cue Point"

  /** The fields of a marker row: split at every tab and every comma. */
  function RowFields(row: string): seq<string> {
    Split(row, {'\t', ','})
  }

  /**
   * One marker row, numbered `marker`: it is kept when its sixth field
   * contains "Cue Point" and its third and fourth fields are the same
   * timecode; the timecodes are read only for "Cue Point" rows, and the
   * start before the end.
   */
  function Classify(row: string, marker: nat): RowOutcome {
    var parts := RowFields(row);
    if |parts| < 6 then Fail(MissingField(marker))
    else if !Contains(parts[5], CuePoint) then Skip(NotCuePoint(marker))
    else
      match Timecode.Parse(parts[2])
      case Err(e) => Fail(BadTime(e))
      case Ok(start) =>
        match Timecode.Parse(parts[3])
        case Err(e) => Fail(BadTime(e))
        case Ok(end) => if start != end then Skip(NonZeroDuration(marker)) else Keep(start)
  }

  /**
   * The five outcomes of a marker row, each with the exact condition for it:
   * too few fields stops the load; a row that is not a "Cue Point" is
   * skipped; a "Cue Point" row with a time that does not parse stops the
   * load with that parse error, the start read first; one whose start and
   * end differ is skipped; and one whose start and end are the same
   * timecode is kept with that start.
   */
  lemma ClassifyCases(row: string, marker: nat)
    ensures var parts := RowFields(row); var r := Classify(row, marker);
      && (r == Fail(MissingField(marker)) <==> |parts| < 6)
      && (r == Skip(NotCuePoint(marker)) <==> |parts| >= 6 && !Contains(parts[5], CuePoint))
      && ((r.Fail? && r.error.BadTime?) <==>
            |parts| >= 6 && Contains(parts[5], CuePoint)
            && (Timecode.Parse(parts[2]).Err? || Timecode.Parse(parts[3]).Err?))
      && (r.Fail? && r.error.BadTime? ==>
            if Timecode.Parse(parts[2]).Err? then Timecode.Parse(parts[2]) == Err(r.error.cause)
            else Timecode.Parse(parts[3]) == Err(r.error.cause))
      && (r == Skip(NonZeroDuration(marker)) <==>
            |parts| >= 6 && Contains(parts[5], CuePoint)
            && Timecode.Parse(parts[2]).Ok? && Timecode.Parse(parts[3]).Ok?
            && Timecode.Parse(parts[2]) != Timecode.Parse(parts[3]))
      && (r.Keep? <==>
            |parts| >= 6 && Contains(parts[5], CuePoint)
            && Timecode.Parse(parts[2]).Ok? && Timecode.Parse(parts[3]) == Timecode.Parse(parts[2]))
      && (r.Keep? ==> Timecode.Parse(parts[2]) == Ok(r.start))
      && (r.Fail? ==> r.error.MissingField? || r.error.BadTime?)
      && (r.Skip? ==> r.warning.marker == marker)
  {
  }

  /**
   * The marker rows of a non-empty export: its lines, without the first one
   * when the export starts with a letter (a header line).
   */
  function MarkerRows(contents: string): seq<string>
    requires |contents| > 0
  {
    var lines := Lines(contents);
    if IsAlphabetic(contents[0]) && |lines| > 0 then lines[1..] else lines
  }

  /** What each marker row contributes, numbered from 1. */
  function Outcomes(rows: seq<string>): (outs: seq<RowOutcome>)
    ensures |outs| == |rows|
    decreases |rows|
  {
    if rows == [] then []
    else Outcomes(rows[..|rows| - 1]) + [Classify(rows[|rows| - 1], |rows|)]
  }

  /** The outcome of row `i` is its classification under marker number `i + 1`. */
  lemma {:induction false} OutcomeAt(rows: seq<string>, i: nat)
    requires i < |rows|
    ensures Outcomes(rows)[i] == Classify(rows[i], i + 1)
    decreases |rows|
  {
    if i < |rows| - 1 {
      var init := rows[..|rows| - 1];
      OutcomeAt(init, i);
      assert init[i] == rows[i];
    }
  }

  /** The loading loop after the first `k` row outcomes. */
  function Scan(outs: seq<RowOutcome>, k: nat): (r: Result<Scanned, LoadError>)
    requires k <= |outs|
    ensures r.Ok? ==> |r.value.kept| + |r.value.warnings| == k
    decreases k
  {
    if k == 0 then Ok(Scanned([], []))
    else
      match Scan(outs, k - 1)
      case Err(e) => Err(e)
      case Ok(sc) =>
        match outs[k - 1]
        case Keep(t) => Ok(Scanned(sc.kept + [t], sc.warnings))
        case Skip(w) => Ok(Scanned(sc.kept, sc.warnings + [w]))
        case Fail(e) => Err(e)
  }

  /** `from_str`: the table an export denotes, or why loading stops. */
  function Load(contents: string): Result<Loaded, LoadError> {
    if contents == [] then Err(EmptyInput)
    else
      var outs := Outcomes(MarkerRows(contents));
      match Scan(outs, |outs|)
      case Err(e) => Err(e)
      case Ok(sc) => Ok(Loaded(Cues(SortTimes(sc.kept)), sc.warnings))
  }

  // ---------------------------------------------------------------------------
  // Sorting

  predicate Sorted(s: seq<Time>) {
    forall p, q :: 0 <= p < q < |s| ==> Timecode.Le(s[p], s[q])
  }

  /** `t` inserted before the first element of `s` it does not exceed. */
  function Insert(t: Time, s: seq<Time>): seq<Time>
    decreases |s|
  {
    if s == [] then [t]
    else if Timecode.Le(t, s[0]) then [t] + s
    else [s[0]] + Insert(t, s[1..])
  }

  /** The times in ascending order. */
  function SortTimes(s: seq<Time>): seq<Time>
    decreases |s|
  {
    if s == [] then [] else Insert(s[0], SortTimes(s[1..]))
  }

  lemma {:induction false} InsertPermutes(t: Time, s: seq<Time>)
    ensures multiset(Insert(t, s)) == multiset(s) + multiset{t}
    decreases |s|
  {
    if s != [] && !Timecode.Le(t, s[0]) {
      InsertPermutes(t, s[1..]);
      assert s == [s[0]] + s[1..];
    }
  }

  lemma {:induction false} InsertSorted(t: Time, s: seq<Time>)
    requires Sorted(s)
    ensures Sorted(Insert(t, s))
    decreases |s|
  {
    if s == [] {
    } else if Timecode.Le(t, s[0]) {
      forall q | 0 <= q < |s|
        ensures Timecode.Le(t, s[q])
      {
        Timecode.LeIsTotalOrder(t, s[0], s[q]);
      }
    } else {
      var rest := Insert(t, s[1..]);
      InsertSorted(t, s[1..]);
      InsertPermutes(t, s[1..]);
      forall q | 0 <= q < |rest|
        ensures Timecode.Le(s[0], rest[q])
      {
        assert rest[q] in multiset(s[1..]) + multiset{t};
        if rest[q] != t {
          assert rest[q] in s[1..];
        } else {
          Timecode.LeIsTotalOrder(t, s[0], t);
        }
      }
      assert Insert(t, s) == [s[0]] + rest;
    }
  }

  /** The sorted times are in ascending order and are the same times. */
  lemma {:induction false} SortTimesSorted(s: seq<Time>)
    ensures Sorted(SortTimes(s))
    ensures multiset(SortTimes(s)) == multiset(s)
    decreases |s|
  {
    if s != [] {
      SortTimesSorted(s[1..]);
      InsertSorted(s[0], SortTimes(s[1..]));
      InsertPermutes(s[0], SortTimes(s[1..]));
      assert s == [s[0]] + s[1..];
    }
  }

  /** The first element of an ascending sequence is at most each of its elements. */
  lemma HeadLeast(s: seq<Time>, x: Time)
    requires Sorted(s) && x in multiset(s)
    ensures Timecode.Le(s[0], x)
  {
    var i :| 0 <= i < |s| && s[i] == x;
    if i == 0 {
      Timecode.LeIsTotalOrder(x, x, x);
    }
  }

  /** Two ascending sequences of the same times are the same sequence. */
  lemma {:induction false} SortedUnique(a: seq<Time>, b: seq<Time>)
    requires Sorted(a) && Sorted(b) && multiset(a) == multiset(b)
    ensures a == b
    decreases |a|
  {
    assert |b| == |a| by {
      assert |multiset(a)| == |a| && |multiset(b)| == |b|;
    }
    if a != [] {
      assert a[0] in multiset(a) && b[0] in multiset(b);
      HeadLeast(b, a[0]);
      HeadLeast(a, b[0]);
      Timecode.LeIsTotalOrder(a[0], b[0], a[0]);
      assert a[0] == b[0];
      assert a == [a[0]] + a[1..] && b == [b[0]] + b[1..];
      assert multiset(a[1..]) == multiset(a) - multiset{a[0]};
      assert multiset(b[1..]) == multiset(b) - multiset{b[0]};
      SortedUnique(a[1..], b[1..]);
    }
  }

  /** `inner.sort()`: the array sorted in place, by insertion with adjacent swaps. */
  method SortInPlace(a: array<Time>)
    modifies a
    ensures Sorted(a[..])
    ensures multiset(a[..]) == multiset(old(a[..]))
  {
    var i := 0;
    while i < a.Length
      invariant 0 <= i <= a.Length
      invariant Sorted(a[..i])
      invariant multiset(a[..]) == multiset(old(a[..]))
    {
      var j := i;
      while j > 0 && !Timecode.Le(a[j - 1], a[j])
        invariant 0 <= j <= i
        invariant forall p, q :: 0 <= p < q <= i && p != j && q != j ==> Timecode.Le(a[p], a[q])
        invariant forall q :: j < q <= i ==> Timecode.Le(a[j], a[q])
        invariant multiset(a[..]) == multiset(old(a[..]))
      {
        SwapDown(a, j);
        j := j - 1;
      }
      OrderAround(a[..], i, j);
      i := i + 1;
    }
  }

  /** One step of insertion: the element at `j` moves below its greater neighbour. */
  method SwapDown(a: array<Time>, j: int)
    requires 0 < j < a.Length && !Timecode.Le(a[j - 1], a[j])
    modifies a
    ensures a[..] == old(a[..])[j - 1 := old(a[j])][j := old(a[j - 1])]
    ensures multiset(a[..]) == multiset(old(a[..]))
    ensures Timecode.Le(a[j - 1], a[j])
  {
    Timecode.LeIsTotalOrder(a[j - 1], a[j], a[j]);
    a[j - 1], a[j] := a[j], a[j - 1];
  }

  /** When the inserted element has reached its place, the first `i + 1` elements are sorted. */
  lemma OrderAround(s: seq<Time>, i: int, j: int)
    requires 0 <= j <= i < |s|
    requires forall p, q :: 0 <= p < q <= i && p != j && q != j ==> Timecode.Le(s[p], s[q])
    requires forall q :: j < q <= i ==> Timecode.Le(s[j], s[q])
    requires j == 0 || Timecode.Le(s[j - 1], s[j])
    ensures Sorted(s[..i + 1])
  {
    forall p, q | 0 <= p < q <= i
      ensures Timecode.Le(s[p], s[q])
    {
      if q == j && p < j - 1 {
        Timecode.LeIsTotalOrder(s[p], s[j - 1], s[j]);
      }
    }
  }

  // ---------------------------------------------------------------------------
  // Loading

  /** Once a row stops the loop, loading ends with that row's error. */
  lemma {:induction false} ErrorPersists(outs: seq<RowOutcome>, k: nat, e: LoadError)
    requires k <= |outs| && Scan(outs, k) == Err(e)
    ensures Scan(outs, |outs|) == Err(e)
    decreases |outs| - k
  {
    if k < |outs| {
      ErrorPersists(outs, k + 1, e);
    }
  }

  /** `from_str`: each marker row is pushed, skipped with a warning, or stops the load; the kept starts are then sorted. */
  method FromStr(contents: string) returns (r: Result<Loaded, LoadError>)
    ensures r == Load(contents)
  {
    if contents == [] {
      return Err(EmptyInput);
    }
    var scanned := ScanRows(MarkerRows(contents));
    if scanned.Err? {
      return Err(scanned.error);
    }
    var sorted := SortKept(scanned.value.kept);
    return Ok(Loaded(Cues(sorted), scanned.value.warnings));
  }

  /** The loop of `from_str` over the marker rows: each row is pushed, skipped with a warning, or stops it. */
  method ScanRows(rows: seq<string>) returns (r: Result<Scanned, LoadError>)
    ensures r == Scan(Outcomes(rows), |rows|)
  {
    ghost var outs := Outcomes(rows);
    var inner: seq<Time> := [];
    var warnings: seq<Warning> := [];
    var i := 0;
    while i < |rows|
      invariant 0 <= i <= |rows|
      invariant Scan(outs, i) == Ok(Scanned(inner, warnings))
    {
      var outcome := ReadRow(rows[i], i + 1);
      OutcomeAt(rows, i);
      match outcome {
        case Fail(e) =>
          ErrorPersists(outs, i + 1, e);
          return Err(e);
        case Skip(w) =>
          warnings := warnings + [w];
        case Keep(start) =>
          inner := inner + [start];
      }
      i := i + 1;
    }
    return Ok(Scanned(inner, warnings));
  }

  /** The kept starts copied into an array and sorted there. */
  method SortKept(inner: seq<Time>) returns (sorted: seq<Time>)
    ensures sorted == SortTimes(inner)
  {
    var a := new Time[|inner|](k requires 0 <= k < |inner| => inner[k]);
    assert a[..] == inner;
    SortInPlace(a);
    SortTimesSorted(inner);
    SortedUnique(a[..], SortTimes(inner));
    return a[..];
  }

  /** The body of the loading loop for one marker row. */
  method ReadRow(row: string, marker: nat) returns (outcome: RowOutcome)
    ensures outcome == Classify(row, marker)
  {
    var parts := RowFields(row);
    if |parts| < 6 {
      return Fail(MissingField(marker));
    }
    if !Contains(parts[5], CuePoint) {
      return Skip(NotCuePoint(marker));
    }
    var start := Timecode.FromStr(parts[2]);
    if start.Err? {
      return Fail(BadTime(start.error));
    }
    var end := Timecode.FromStr(parts[3]);
    if end.Err? {
      return Fail(BadTime(end.error));
    }
    if start.value != end.value {
      return Skip(NonZeroDuration(marker));
    }
    return Keep(start.value);
  }

  /** Loading stops exactly when the input is empty or some marker row stops it. */
  lemma {:induction false} ScanFails(outs: seq<RowOutcome>, k: nat)
    requires k <= |outs|
    ensures Scan(outs, k).Err? <==> exists j :: 0 <= j < k && outs[j].Fail?
    decreases k
  {
    if k > 0 {
      ScanFails(outs, k - 1);
    }
  }

  /** A loaded table holds the kept start times in ascending order, and every marker row is either a cue or a warning. */
  lemma LoadSortsKept(contents: string)
    requires Load(contents).Ok?
    ensures var outs := Outcomes(MarkerRows(contents));
      && Scan(outs, |outs|).Ok?
      && Sorted(Load(contents).value.cues.inner)
      && multiset(Load(contents).value.cues.inner) == multiset(Scan(outs, |outs|).value.kept)
      && Len(Load(contents).value.cues) + |Load(contents).value.warnings| == |outs|
  {
    var outs := Outcomes(MarkerRows(contents));
    SortTimesSorted(Scan(outs, |outs|).value.kept);
  }

  /** Loading stops exactly when the input is empty or some marker row stops it. */
  lemma LoadFails(contents: string)
    ensures Load(contents).Err? <==>
      contents == [] || exists j :: 0 <= j < |MarkerRows(contents)| && Classify(MarkerRows(contents)[j], j + 1).Fail?
  {
    if contents != [] {
      var outs := Outcomes(MarkerRows(contents));
      ScanFails(outs, |outs|);
      forall j | 0 <= j < |outs|
        ensures outs[j] == Classify(MarkerRows(contents)[j], j + 1)
      {
        OutcomeAt(MarkerRows(contents), j);
      }
    }
  }

  /** A blank line has a single field, so it stops the load. */
  lemma BlankRowFails(marker: nat)
    ensures Classify("", marker) == Fail(MissingField(marker))
  {
    assert RowFields("") == [""];
  }

  // ---------------------------------------------------------------------------
  // Lookups

  /** `len`: the number of stored cues, the implicit start not counted. */
  function Len(cues: Cues): nat {
    |cues.inner|
  }

  /** `get`: cue `idx`, counted from 1; 0 is the start of the video and past the last cue is `END`. */
  function Get(cues: Cues, idx: nat): Time {
    if idx == 0 then Timecode.Time(0, 0, 0, 0)
    else if idx - 1 < |cues.inner| then cues.inner[idx - 1]
    else Timecode.End
  }

  /** On a sorted table, `get` runs through the cues in order, from the start of the video to `END`. */
  lemma GetMonotone(cues: Cues, i: nat, j: nat)
    requires Sorted(cues.inner) && i <= j
    ensures Timecode.Le(Get(cues, i), Get(cues, j))
    ensures i == 0 ==> Get(cues, i) == Timecode.Time(0, 0, 0, 0)
    ensures j > Len(cues) ==> Get(cues, j) == Timecode.End
    ensures 0 < i <= Len(cues) ==> Get(cues, i) == cues.inner[i - 1]
  {
    Timecode.EndIsMaximum(Get(cues, i));
    Timecode.EndIsMaximum(Get(cues, j));
  }

  /** The 1-based position of the last of the first `k` cues that `time` has reached, 0 if none. */
  function LastReached(inner: seq<Time>, time: real, fps: real, k: nat): (r: nat)
    requires fps > 0.0 && k <= |inner|
    ensures r <= k
    ensures r > 0 ==> time >= Timecode.AsSecs(inner[r - 1], fps)
    ensures forall j :: r <= j < k ==> time < Timecode.AsSecs(inner[j], fps)
    decreases k
  {
    if k == 0 then 0
    else if time >= Timecode.AsSecs(inner[k - 1], fps) then k
    else LastReached(inner, time, fps, k - 1)
  }

  /**
   * `current`: the 1-based index of the last cue whose time has been
   * reached, 0 before every cue.  On a non-empty table that is at most the
   * number of cues; on an empty one the fallback `END` makes it 1 from the
   * end time on.
   */
  function CurrentIndex(cues: Cues, time: real, fps: real): (idx: nat)
    requires fps > 0.0
    ensures cues.inner != [] ==> idx <= Len(cues)
    ensures cues.inner != [] && idx > 0 ==> time >= Timecode.AsSecs(cues.inner[idx - 1], fps)
    ensures forall j :: idx <= j < Len(cues) ==> time < Timecode.AsSecs(cues.inner[j], fps)
    ensures cues.inner == [] ==> (idx == 1 <==> time >= Timecode.AsSecs(Timecode.End, fps))
    ensures cues.inner == [] ==> idx <= 1
  {
    var reached := LastReached(cues.inner, time, fps, |cues.inner|);
    var last := if cues.inner == [] then Timecode.End else cues.inner[|cues.inner| - 1];
    if reached > 0 then reached
    else if time >= Timecode.AsSecs(last, fps) then |cues.inner| + 1
    else 0
  }

  /** The loop of `current`, from the last cue backwards. */
  method Current(cues: Cues, time: real, fps: real) returns (idx: nat)
    requires fps > 0.0
    ensures idx == CurrentIndex(cues, time, fps)
  {
    var i := |cues.inner|;
    while i > 0
      invariant 0 <= i <= |cues.inner|
      invariant LastReached(cues.inner, time, fps, i) == LastReached(cues.inner, time, fps, |cues.inner|)
    {
      if time >= Timecode.AsSecs(cues.inner[i - 1], fps) {
        return i;
      }
      i := i - 1;
    }
    var last := if cues.inner == [] then Timecode.End else cues.inner[|cues.inner| - 1];
    if time >= Timecode.AsSecs(last, fps) {
      return |cues.inner| + 1;
    }
    return 0;
  }

  /** A later time never gives an earlier cue, sorted table or not. */
  lemma CurrentMonotone(cues: Cues, t1: real, t2: real, fps: real)
    requires fps > 0.0 && t1 <= t2
    ensures CurrentIndex(cues, t1, fps) <= CurrentIndex(cues, t2, fps)
  {
  }

  /** At or after the last cue, `current` is the number of cues, not one more. */
  lemma PastLastCue(cues: Cues, time: real, fps: real)
    requires fps > 0.0 && cues.inner != []
    requires time >= Timecode.AsSecs(cues.inner[Len(cues) - 1], fps)
    ensures CurrentIndex(cues, time, fps) == Len(cues)
  {
  }

  /** The cue `current` names has been reached: its time is at most the playback time, or it is the start of the video.
      On an empty table the reached cue is `END`, whose seconds the playback time has passed. */
  lemma CurrentCueReached(cues: Cues, time: real, fps: real)
    requires fps > 0.0
    ensures var idx := CurrentIndex(cues, time, fps);
      && (idx > 0 ==> Timecode.AsSecs(Get(cues, idx), fps) <= time)
      && (idx == 0 ==> Get(cues, idx) == Timecode.Time(0, 0, 0, 0))
  {
    var idx := CurrentIndex(cues, time, fps);
    if idx > 0 && cues.inner != [] {
      assert Get(cues, idx) == cues.inner[idx - 1];
    }
  }

  /** No two cues of the table are the same and all of them are within clock ranges. */
  predicate Distinct(cues: Cues, fps: real) {
    && (forall p, q :: 0 <= p < q < |cues.inner| ==> Timecode.Lt(cues.inner[p], cues.inner[q]))
    && (forall p :: 0 <= p < |cues.inner| ==> Timecode.WithinClock(cues.inner[p], fps))
  }

  /** At the time of cue `i`, `current` is `i`: `get` and `current` are inverse on the cues. */
  lemma CurrentAtCue(cues: Cues, i: nat, fps: real)
    requires fps > 0.0 && Distinct(cues, fps) && 0 < i <= Len(cues)
    ensures CurrentIndex(cues, Timecode.AsSecs(Get(cues, i), fps), fps) == i
  {
    var time := Timecode.AsSecs(cues.inner[i - 1], fps);
    var idx := CurrentIndex(cues, time, fps);
    if idx > i {
      Timecode.AsSecsStrictlyMonotone(cues.inner[i - 1], cues.inner[idx - 1], fps);
    }
  }

  /** Before the first cue of a sorted table within clock ranges, `current` is 0, the start of the video. */
  lemma BeforeFirstCue(cues: Cues, time: real, fps: real)
    requires fps > 0.0 && Sorted(cues.inner) && cues.inner != []
    requires forall p :: 0 <= p < |cues.inner| ==> Timecode.WithinClock(cues.inner[p], fps)
    requires time < Timecode.AsSecs(cues.inner[0], fps)
    ensures CurrentIndex(cues, time, fps) == 0
  {
    var idx := CurrentIndex(cues, time, fps);
    if idx > 1 {
      Timecode.AsSecsMonotone(cues.inner[0], cues.inner[idx - 1], fps);
    }
  }

  /** Cues at 5, 20 and 40 seconds at one frame per second. */
  lemma CurrentExamples()
    ensures CurrentIndex(Cues([Timecode.Time(0, 0, 5, 0), Timecode.Time(0, 0, 20, 0), Timecode.Time(0, 0, 40, 0)]), 41.0, 1.0) == 3
    ensures CurrentIndex(Cues([Timecode.Time(0, 0, 5, 0), Timecode.Time(0, 0, 20, 0), Timecode.Time(0, 0, 40, 0)]), 20.0, 1.0) == 2
    ensures CurrentIndex(Cues([Timecode.Time(0, 0, 5, 0), Timecode.Time(0, 0, 20, 0), Timecode.Time(0, 0, 40, 0)]), 2.0, 1.0) == 0
  {
  }

  // ---------------------------------------------------------------------------
  // Marker exports

  /** Characters that never occur inside a generated marker row. */
  const RowBreakers: set<char> := {'\t', ',', '\n', '\r'}

  /** A row of the After Effects export: `,,start,end,duration,Cue Point`. */
  function AfterEffectsRow(t: Time): string {
    Join(["", "", Timecode.Format(t), Timecode.Format(t), "0", CuePoint], ',')
  }

  /** A row of the Premiere Pro export, tab-separated and ending in a tab. */
  function PremiereRow(t: Time): string {
    Join(["", "", Timecode.Format(t), Timecode.Format(t), "00:00:00:00", "Flash Cue Point", ""], '\t')
  }

  /** The header line of the Premiere Pro export. */
  function PremiereHeader(): string {
    Join(["Marker Name", "Description", "In", "Out", "Duration", "Marker Type", ""], '\t')
  }

  function AfterEffectsExport(ts: seq<Time>): string {
    Terminated(seq(|ts|, i requires 0 <= i < |ts| => AfterEffectsRow(ts[i])))
  }

  function PremiereExport(ts: seq<Time>): string {
    Terminated([PremiereHeader()] + seq(|ts|, i requires 0 <= i < |ts| => PremiereRow(ts[i])))
  }

  /** A formatted timecode holds none of the row and line separators. */
  lemma FormatAvoids(t: Time)
    ensures Avoids(Timecode.Format(t), RowBreakers)
    ensures Timecode.Parse(Timecode.Format(t)) == Ok(t)
  {
    var pieces := [Pad2(t.hours as nat), Pad2(t.minutes as nat), Pad2(t.seconds as nat), Pad2(t.frames as nat)];
    Timecode.Pad2Avoids(t.hours, RowBreakers);
    Timecode.Pad2Avoids(t.minutes, RowBreakers);
    Timecode.Pad2Avoids(t.seconds, RowBreakers);
    Timecode.Pad2Avoids(t.frames, RowBreakers);
    JoinAvoids(pieces, ':', RowBreakers);
    Timecode.ParseFormat(t);
  }

  /** A separator-free row is kept with its start when its fields are the ones a marker export writes. */
  lemma ExportRowKept(pieces: seq<string>, sep: char, t: Time, before: string, marker: nat)
    requires |pieces| >= 6 && sep in {'\t', ','}
    requires forall i :: 0 <= i < |pieces| ==> Avoids(pieces[i], RowBreakers)
    requires pieces[2] == Timecode.Format(t) && pieces[3] == Timecode.Format(t)
    requires pieces[5] == before + CuePoint
    ensures Classify(Join(pieces, sep), marker) == Keep(t)
    ensures Avoids(Join(pieces, sep), {'\n', '\r'})
  {
    forall i | 0 <= i < |pieces|
      ensures Avoids(pieces[i], {'\t', ','}) && Avoids(pieces[i], {'\n', '\r'})
    {
    }
    SplitJoin(pieces, sep, {'\t', ','});
    JoinAvoids(pieces, sep, {'\n', '\r'});
    ContainsInside(before, CuePoint, []);
    assert before + CuePoint + [] == pieces[5];
    FormatAvoids(t);
  }

  /** A separator-free row in the export shape whose start and end differ is skipped with a duration warning, not an error. */
  lemma DurationRowSkipped(pieces: seq<string>, sep: char, start: Time, end: Time, before: string, marker: nat)
    requires |pieces| >= 6 && sep in {'\t', ','} && start != end
    requires forall i :: 0 <= i < |pieces| ==> Avoids(pieces[i], RowBreakers)
    requires pieces[2] == Timecode.Format(start) && pieces[3] == Timecode.Format(end)
    requires pieces[5] == before + CuePoint
    ensures Classify(Join(pieces, sep), marker) == Skip(NonZeroDuration(marker))
  {
    forall i | 0 <= i < |pieces|
      ensures Avoids(pieces[i], {'\t', ','})
    {
    }
    SplitJoin(pieces, sep, {'\t', ','});
    ContainsInside(before, CuePoint, []);
    assert before + CuePoint + [] == pieces[5];
    FormatAvoids(start);
    FormatAvoids(end);
  }

  /** Rows that are all kept are scanned into their starts, in file order, with no warning. */
  lemma {:induction false} ScanAllKept(outs: seq<RowOutcome>, ts: seq<Time>, k: nat)
    requires |outs| == |ts| && k <= |outs|
    requires forall j :: 0 <= j < |outs| ==> outs[j] == Keep(ts[j])
    ensures Scan(outs, k) == Ok(Scanned(ts[..k], []))
    decreases k
  {
    if k > 0 {
      ScanAllKept(outs, ts, k - 1);
      assert ts[..k] == ts[..k - 1] + [ts[k - 1]];
    }
  }

  /** Rows that are each kept have outcomes that are all kept. */
  lemma OutcomesKept(rows: seq<string>, ts: seq<Time>)
    requires |rows| == |ts|
    requires forall j :: 0 <= j < |rows| ==> Classify(rows[j], j + 1) == Keep(ts[j])
    ensures forall j :: 0 <= j < |rows| ==> Outcomes(rows)[j] == Keep(ts[j])
  {
    forall j | 0 <= j < |rows|
      ensures Outcomes(rows)[j] == Keep(ts[j])
    {
      OutcomeAt(rows, j);
    }
  }

  /** Loading newline-terminated rows that are all kept gives their starts, sorted, with no warning. */
  lemma LoadAllKept(contents: string, rows: seq<string>, ts: seq<Time>)
    requires contents != [] && MarkerRows(contents) == rows && |rows| == |ts|
    requires forall j :: 0 <= j < |rows| ==> Outcomes(rows)[j] == Keep(ts[j])
    ensures Load(contents) == Ok(Loaded(Cues(SortTimes(ts)), []))
  {
    var outs := Outcomes(rows);
    ScanAllKept(outs, ts, |outs|);
    assert ts[..|outs|] == ts;
    assert Scan(outs, |outs|) == Ok(Scanned(ts, []));
  }

  /** Every After Effects export of cue points loads back as the same cues, sorted, with no warning. */
  lemma AfterEffectsRoundTrip(ts: seq<Time>)
    requires ts != []
    ensures Load(AfterEffectsExport(ts)) == Ok(Loaded(Cues(SortTimes(ts)), []))
  {
    var rows := seq(|ts|, i requires 0 <= i < |ts| => AfterEffectsRow(ts[i]));
    AfterEffectsRowsKept(ts, rows);
    AfterEffectsMarkerRows(ts, rows);
    OutcomesKept(rows, ts);
    LoadAllKept(AfterEffectsExport(ts), rows, ts);
  }

  /** An After Effects export has no header: its marker rows are all its lines. */
  lemma AfterEffectsMarkerRows(ts: seq<Time>, rows: seq<string>)
    requires ts != [] && rows == seq(|ts|, i requires 0 <= i < |ts| => AfterEffectsRow(ts[i]))
    requires forall j :: 0 <= j < |rows| ==> Avoids(rows[j], {'\n'}) && StripCr(rows[j]) == rows[j]
    ensures AfterEffectsExport(ts) != [] && MarkerRows(AfterEffectsExport(ts)) == rows
  {
    LinesTerminated(rows);
    var contents := AfterEffectsExport(ts);
    assert contents[0] == ',' by {
      JoinStarts(["", "", Timecode.Format(ts[0]), Timecode.Format(ts[0]), "0", CuePoint], ',');
      assert rows[0][0] == ',';
    }
  }

  lemma AfterEffectsRowsKept(ts: seq<Time>, rows: seq<string>)
    requires rows == seq(|ts|, i requires 0 <= i < |ts| => AfterEffectsRow(ts[i]))
    ensures forall j :: 0 <= j < |rows| ==>
      Classify(rows[j], j + 1) == Keep(ts[j]) && Avoids(rows[j], {'\n'}) && StripCr(rows[j]) == rows[j]
  {
    forall j | 0 <= j < |rows|
      ensures Classify(rows[j], j + 1) == Keep(ts[j]) && Avoids(rows[j], {'\n'}) && StripCr(rows[j]) == rows[j]
    {
      FormatAvoids(ts[j]);
      ExportRowKept(["", "", Timecode.Format(ts[j]), Timecode.Format(ts[j]), "0", CuePoint], ',', ts[j], [], j + 1);
      StripCrAvoids(rows[j]);
    }
  }

  lemma HeaderAvoids()
    ensures Avoids(PremiereHeader(), {'\n'}) && StripCr(PremiereHeader()) == PremiereHeader()
  {
    var fields := ["Marker Name", "Description", "In", "Out", "Duration", "Marker Type", ""];
    forall i | 0 <= i < |fields|
      ensures Avoids(fields[i], {'\n', '\r'})
    {
    }
    JoinAvoids(fields, '\t', {'\n', '\r'});
    assert Avoids(PremiereHeader(), {'\r'});
    StripCrAvoids(PremiereHeader());
  }

  /** Every Premiere Pro export of cue points, header included, loads back as the same cues, sorted, with no warning. */
  lemma PremiereRoundTrip(ts: seq<Time>)
    ensures Load(PremiereExport(ts)) == Ok(Loaded(Cues(SortTimes(ts)), []))
  {
    var rows := seq(|ts|, i requires 0 <= i < |ts| => PremiereRow(ts[i]));
    var lines := [PremiereHeader()] + rows;
    PremiereRowsKept(ts, rows);
    PremiereLines(rows, lines);
    var contents := PremiereExport(ts);
    assert contents == Terminated(lines);
    assert contents[0] == 'M' by {
      JoinStarts(["Marker Name", "Description", "In", "Out", "Duration", "Marker Type", ""], '\t');
      assert PremiereHeader()[0] == 'M';
    }
    assert MarkerRows(contents) == rows by {
      assert Lines(contents) == lines;
      assert lines[1..] == rows;
    }
    OutcomesKept(rows, ts);
    LoadAllKept(contents, rows, ts);
  }

  lemma PremiereRowsKept(ts: seq<Time>, rows: seq<string>)
    requires rows == seq(|ts|, i requires 0 <= i < |ts| => PremiereRow(ts[i]))
    ensures forall j :: 0 <= j < |rows| ==>
      Classify(rows[j], j + 1) == Keep(ts[j]) && Avoids(rows[j], {'\n'}) && StripCr(rows[j]) == rows[j]
  {
    forall j | 0 <= j < |rows|
      ensures Classify(rows[j], j + 1) == Keep(ts[j]) && Avoids(rows[j], {'\n'}) && StripCr(rows[j]) == rows[j]
    {
      PremiereRowKept(ts[j], j + 1);
    }
  }

  /** The fixed fields of the exports hold no separator. */
  lemma MarkerTypesAvoid()
    ensures Avoids("", RowBreakers) && Avoids("0", RowBreakers) && Avoids("00:00:00:00", RowBreakers)
    ensures Avoids("Flash ", RowBreakers) && Avoids(CuePoint, RowBreakers)
    ensures "Flash Cue Point" == "Flash " + CuePoint
  {
  }

  lemma PremiereRowKept(t: Time, marker: nat)
    ensures Classify(PremiereRow(t), marker) == Keep(t)
    ensures Avoids(PremiereRow(t), {'\n'}) && StripCr(PremiereRow(t)) == PremiereRow(t)
  {
    var f, duration, kind := Timecode.Format(t), "00:00:00:00", "Flash Cue Point";
    FormatAvoids(t);
    MarkerTypesAvoid();
    AvoidsConcat("Flash ", CuePoint, RowBreakers);
    var pieces := ["", "", f, f, duration, kind, ""];
    forall i | 0 <= i < |pieces|
      ensures Avoids(pieces[i], RowBreakers)
    {
      if i == 2 || i == 3 {
        assert pieces[i] == f;
      } else if i == 4 {
        assert pieces[i] == duration;
      } else if i == 5 {
        assert pieces[i] == kind;
      } else {
        assert pieces[i] == "";
      }
    }
    assert pieces[5] == "Flash " + CuePoint;
    ExportRowKept(pieces, '\t', t, "Flash ", marker);
    StripCrAvoids(PremiereRow(t));
  }

  /** The header and the rows of a Premiere Pro export read back as its lines. */
  lemma PremiereLines(rows: seq<string>, lines: seq<string>)
    requires lines == [PremiereHeader()] + rows
    requires forall j :: 0 <= j < |rows| ==> Avoids(rows[j], {'\n'}) && StripCr(rows[j]) == rows[j]
    ensures Lines(Terminated(lines)) == lines
  {
    HeaderAvoids();
    forall j | 0 <= j < |lines|
      ensures Avoids(lines[j], {'\n'}) && StripCr(lines[j]) == lines[j]
    {
      if j > 0 {
        assert lines[j] == rows[j - 1];
      }
    }
    LinesTerminated(lines);
  }

  /** The cue times of the source's two loading examples, in file order. */
  const ExampleTimes: seq<Time> := [
    Timecode.Time(0, 0, 4, 57), Timecode.Time(0, 0, 21, 31), Timecode.Time(0, 0, 30, 50),
    Timecode.Time(0, 0, 38, 28), Timecode.Time(0, 0, 43, 16), Timecode.Time(0, 1, 12, 53),
    Timecode.Time(0, 1, 35, 45), Timecode.Time(0, 1, 58, 28), Timecode.Time(0, 2, 6, 29),
    Timecode.Time(0, 2, 18, 55), Timecode.Time(0, 2, 24, 18)]

  /** Ascending neighbours make an ascending sequence. */
  lemma {:induction false} NeighboursSorted(s: seq<Time>)
    requires forall i :: 0 < i < |s| ==> Timecode.Le(s[i - 1], s[i])
    ensures Sorted(s)
    decreases |s|
  {
    if |s| > 1 {
      NeighboursSorted(s[..|s| - 1]);
      forall p | 0 <= p < |s| - 1
        ensures Timecode.Le(s[p], s[|s| - 1])
      {
        Timecode.LeIsTotalOrder(s[p], s[|s| - 2], s[|s| - 1]);
      }
    }
  }

  /** An ascending sequence is its own sorted form. */
  lemma SortTimesOfSorted(s: seq<Time>)
    requires Sorted(s)
    ensures SortTimes(s) == s
  {
    SortTimesSorted(s);
    SortedUnique(SortTimes(s), s);
  }

  /** The example files, already in order, load as their eleven cues in file order with no warning. */
  lemma LoadExamples(ts: seq<Time>)
    requires ts == ExampleTimes
    ensures Load(AfterEffectsExport(ts)) == Ok(Loaded(Cues(ts), []))
    ensures Load(PremiereExport(ts)) == Ok(Loaded(Cues(ts), []))
    ensures Len(Cues(ts)) == 11
  {
    NeighboursSorted(ts);
    SortTimesOfSorted(ts);
    AfterEffectsRoundTrip(ts);
    PremiereRoundTrip(ts);
  }
}
