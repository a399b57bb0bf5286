/** Notes-per-second of a beatmap: the `.osu` hit-object reader and the
    windowed density over the sorted note start times. */
module Nps {
  import opened Results
  import opened Text
  import opened Memory

  // ---------------------------------------------------------------------
  // Reading hit objects
  // ---------------------------------------------------------------------

  datatype NoteError =
    | MissingStartTime            // fewer than three comma-separated fields
    | BadStartTime(field: string, cause: IntError)

  /** The third comma-separated field of a hit-object line, if there is one. */
  predicate HasStartField(line: string)
  {
    |SplitOn(line, ',')| >= 3
  }

  function StartField(line: string): string
    requires HasStartField(line)
  {
    SplitOn(line, ',')[2]
  }

  /** The third field is a decimal numeral within the `i32` range. */
  predicate ValidStartField(line: string)
  {
    HasStartField(line) && IsNumeral(StartField(line), true) && I32Min <= NumeralValue(StartField(line), true) <= I32Max
  }

  /** `read_note`: the start time is the third field, parsed as an `i32`. */
  function ReadNote(line: string): (r: Result<int, NoteError>)
    ensures r.Ok? <==> ValidStartField(line)
    ensures r.Ok? ==> r.value == NumeralValue(StartField(line), true)
    ensures !HasStartField(line) ==> r == Err(MissingStartTime)
  {
    var parts := SplitOn(line, ',');
    if |parts| >= 3 then
      match ParseInteger(parts[2], I32Min, I32Max)
      case Ok(v) => Ok(v)
      case Err(e) => Err(BadStartTime(parts[2], e))
    else Err(MissingStartTime)
  }

  /** A line written as `x,y,time,...` reads back as `time`. */
  lemma {:induction false} ReadNoteOfRendered(x: string, y: string, time: int, rest: seq<string>)
    requires I32Min <= time <= I32Max
    requires ',' !in x && ',' !in y
    requires forall i :: 0 <= i < |rest| ==> ',' !in rest[i]
    ensures ReadNote(JoinWith([x, y, ShowInt(time)] + rest, ',')) == Ok(time)
  {
    var pieces := [x, y, ShowInt(time)] + rest;
    ShowIntHasNoSeparator(time, ',');
    forall i | 0 <= i < |pieces|
      ensures ',' !in pieces[i]
    {
      if i >= 3 {
        assert pieces[i] == rest[i - 3];
      }
    }
    SplitJoin(pieces, ',');
    var line := JoinWith(pieces, ',');
    assert SplitOn(line, ',')[2] == ShowInt(time);
    ParseShowInt(time, I32Min, I32Max);
    assert ParseInteger(SplitOn(line, ',')[2], I32Min, I32Max) == Ok(time);
  }

  /** A line with fewer than three fields is rejected. */
  lemma {:induction false} ReadNoteTwoFields(x: string, y: string)
    requires ',' !in x && ',' !in y
    ensures ReadNote(JoinWith([x, y], ',')) == Err(MissingStartTime)
  {
    SplitJoin([x, y], ',');
  }

  const HitObjectsHeader: string := "[HitObjects]"

  /** Index of the first line equal to `target`, or `|lines|` if none is. */
  function FirstIndexOf(lines: seq<string>, target: string): (k: nat)
    ensures k <= |lines|
    ensures k < |lines| ==> lines[k] == target
    ensures forall j :: 0 <= j < k ==> lines[j] != target
  {
    if |lines| == 0 then 0
    else if lines[0] == target then 0
    else 1 + FirstIndexOf(lines[1..], target)
  }

  /** The start times of the lines that read as notes, in order. */
  function NotesOf(lines: seq<string>): (ts: seq<int>)
    ensures forall i :: 0 <= i < |ts| ==> I32Min <= ts[i] <= I32Max
  {
    if |lines| == 0 then []
    else
      var head := ReadNote(lines[0]);
      (if head.Ok? then [head.value] else []) + NotesOf(lines[1..])
  }

  lemma {:induction false} NotesOfSnoc(lines: seq<string>, line: string)
    ensures NotesOf(lines + [line]) == NotesOf(lines) + (if ReadNote(line).Ok? then [ReadNote(line).value] else [])
    decreases |lines|
  {
    if |lines| == 0 {
      assert [line][1..] == [];
    } else {
      assert (lines + [line])[1..] == lines[1..] + [line];
      NotesOfSnoc(lines[1..], line);
    }
  }

  /** Extending a range of lines by one adds that line's note, if any. */
  lemma NotesOfExtend(lines: seq<string>, lo: nat, i: nat)
    requires lo <= i < |lines|
    ensures NotesOf(lines[lo..i + 1]) == NotesOf(lines[lo..i]) + (if ReadNote(lines[i]).Ok? then [ReadNote(lines[i]).value] else [])
  {
    assert lines[lo..i + 1] == lines[lo..i] + [lines[i]];
    NotesOfSnoc(lines[lo..i], lines[i]);
  }

  /** The lines of the hit-object section: those strictly after the first
      `[HitObjects]` line (none when there is no such line). */
  function HitObjectLines(lines: seq<string>): seq<string>
  {
    var k := FirstIndexOf(lines, HitObjectsHeader);
    if k < |lines| then lines[k + 1..] else []
  }

  /** The filter over the lines of `parse_hit_objects`: a flag turns on
      at the first `[HitObjects]` line; after it every line that reads as a
      note contributes its start time and every other line is dropped. */
  method CollectNotes(lines: seq<string>) returns (notes: seq<int>)
    ensures notes == NotesOf(HitObjectLines(lines))
  {
    ghost var k := FirstIndexOf(lines, HitObjectsHeader);
    var inSection := false;
    notes := [];
    var i := 0;
    while i < |lines|
      invariant 0 <= i <= |lines|
      invariant inSection <==> k < i
      invariant !inSection ==> notes == []
      invariant inSection ==> notes == NotesOf(lines[k + 1..i])
    {
      if !inSection {
        if lines[i] == HitObjectsHeader {
          inSection := true;
          assert k == i;
          assert lines[k + 1..i + 1] == [];
        }
      } else {
        var note := ReadNote(lines[i]);
        NotesOfExtend(lines, k + 1, i);
        if note.Ok? {
          notes := notes + [note.value];
        }
      }
      i := i + 1;
    }
    assert k < |lines| ==> lines[k + 1..|lines|] == lines[k + 1..];
  }

  /** `parse_hit_objects`: the notes of the hit-object section of the text;
      dropping unreadable lines means the result is never an error. */
  method ParseHitObjects(content: string) returns (r: Result<seq<int>, string>)
    ensures r.Ok?
    ensures r.value == NotesOf(HitObjectLines(Lines(content)))
  {
    var notes := CollectNotes(Lines(content));
    r := Ok(notes);
  }

  // ---------------------------------------------------------------------
  // Windowed notes per second
  // ---------------------------------------------------------------------

  datatype KeyValue = KeyValue(key: int, value: real)

  datatype NpsError = EmptyTimings | InvalidInterval

  predicate Sorted(ts: seq<int>)
  {
    forall i, j :: 0 <= i < j < |ts| ==> ts[i] <= ts[j]
  }

  predicate AllI32(ts: seq<int>)
  {
    forall i :: 0 <= i < |ts| ==> I32Min <= ts[i] <= I32Max
  }

  /** `t_duration`: last minus first, an `i32` subtraction. */
  function Duration(ts: seq<int>): int
    requires |ts| > 0
  {
    WrapI32(ts[|ts| - 1] - ts[0])
  }

  /** `interval_ms`: the window width as a fraction (percent) of the span. */
  function IntervalMs(ts: seq<int>, frequency: real): real
    requires |ts| > 0
  {
    (Duration(ts) as real) * frequency / 100.0
  }

  /** `interval_ms as i32` for a positive width: truncation, saturating at
      the `i32` maximum. */
  function Step(ms: real): int
    requires ms > 0.0
  {
    if ms.Floor > I32Max then I32Max else ms.Floor
  }

  /** Number of windows the loop opens: from `first`, step by step, while
      the window start is still before `last`. */
  function WindowCount(first: int, last: int, step: int): nat
    requires step >= 1
  {
    if last <= first then 0 else (last - first + step - 1) / step
  }

  /** How many start times lie in [lo, hi). */
  function CountIn(ts: seq<int>, lo: int, hi: int): nat
  {
    if |ts| == 0 then 0 else (if lo <= ts[0] < hi then 1 else 0) + CountIn(ts[1..], lo, hi)
  }

  /** How many start times lie below `e` (for sorted times, the partition
      point of `x < e`). */
  function CountBelow(ts: seq<int>, e: int): nat
  {
    if |ts| == 0 then 0 else (if ts[0] < e then 1 else 0) + CountBelow(ts[1..], e)
  }

  /** What the computation needs to stay within the source's behaviour:
      sorted `i32` times (the partition point is only meaningful on sorted
      input), a window of at least 1 ms (otherwise the loop never advances)
      and window ends that do not overflow `i32`. */
  predicate Computable(ts: seq<int>, frequency: real)
  {
    && Sorted(ts)
    && AllI32(ts)
    && (|ts| > 0 && IntervalMs(ts, frequency) > 0.0 ==>
          var step := Step(IntervalMs(ts, frequency));
          step >= 1 && ts[0] + WindowCount(ts[0], ts[|ts| - 1], step) * step <= I32Max)
  }

  /** Window `j` of the reference definition: it starts `j` steps after the
      first note, and its value is the number of notes in [start, start +
      step) divided by the window width in seconds. */
  function Window(ts: seq<int>, first: int, step: int, ms: real, j: int): KeyValue
    requires ms > 0.0
  {
    var start := first + j * step;
    KeyValue(start, (CountIn(ts, start, start + step) as real) / (ms / 1000.0))
  }

  /** All windows from the first note while the window start is before
      `last`. */
  function Windows(ts: seq<int>, last: int, step: int, ms: real): (r: seq<KeyValue>)
    requires |ts| > 0 && step >= 1 && ms > 0.0
    ensures |r| == 0 <==> last <= ts[0]
    ensures |r| > 0 ==> r[0].key == ts[0]
  {
    WindowCountBound(ts[0], last, step, 0);
    seq(WindowCount(ts[0], last, step), j => Window(ts, ts[0], step, ms, j))
  }

  /** The windows as a reference definition: one window per step from the
      first note while the window start is before the last note. */
  function NpsWindows(ts: seq<int>, frequency: real): (r: Result<seq<KeyValue>, NpsError>)
    requires Computable(ts, frequency)
    ensures r == Err(EmptyTimings) <==> |ts| == 0
    ensures r == Err(InvalidInterval) <==> |ts| > 0 && IntervalMs(ts, frequency) <= 0.0
    ensures r.Ok? ==> |r.value| > 0 && r.value[0].key == ts[0]
  {
    if |ts| == 0 then Err(EmptyTimings)
    else
      var ms := IntervalMs(ts, frequency);
      if ms <= 0.0 then Err(InvalidInterval)
      else
        Ok(Windows(ts, ts[|ts| - 1], Step(ms), ms))
  }

  /** Rust's `partition_point(|x| x < e)` on a sorted slice, by binary search. */
  method PartitionPoint(ts: seq<int>, e: int) returns (p: nat)
    requires Sorted(ts)
    ensures p <= |ts|
    ensures forall i :: 0 <= i < p ==> ts[i] < e
    ensures forall i :: p <= i < |ts| ==> ts[i] >= e
  {
    var lo, hi := 0, |ts|;
    while lo < hi
      invariant 0 <= lo <= hi <= |ts|
      invariant forall i :: 0 <= i < lo ==> ts[i] < e
      invariant forall i :: hi <= i < |ts| ==> ts[i] >= e
    {
      var mid := (lo + hi) / 2;
      if ts[mid] < e {
        lo := mid + 1;
      } else {
        hi := mid;
      }
    }
    p := lo;
  }

  /** The partition point of a sorted sequence is the number of elements
      below the pivot. */
  lemma {:induction false} CountBelowAtPartition(ts: seq<int>, e: int, p: nat)
    requires p <= |ts|
    requires forall i :: 0 <= i < p ==> ts[i] < e
    requires forall i :: p <= i < |ts| ==> ts[i] >= e
    ensures CountBelow(ts, e) == p
    decreases |ts|
  {
    if |ts| > 0 {
      if p > 0 {
        CountBelowAtPartition(ts[1..], e, p - 1);
      } else {
        CountBelowAtPartition(ts[1..], e, 0);
      }
    }
  }

  lemma {:induction false} CountInIsDifference(ts: seq<int>, lo: int, hi: int)
    requires lo <= hi
    ensures CountIn(ts, lo, hi) == CountBelow(ts, hi) - CountBelow(ts, lo)
    ensures CountBelow(ts, lo) <= CountBelow(ts, hi)
    decreases |ts|
  {
    if |ts| > 0 {
      CountInIsDifference(ts[1..], lo, hi);
    }
  }

  /** Window `j` starts before `last` exactly when `j` is below the count. */
  lemma {:induction false} WindowCountBound(first: int, last: int, step: int, j: nat)
    requires step >= 1
    ensures first + j * step < last <==> j < WindowCount(first, last, step)
  {
    if last > first {
      var d := last - first;
      var n := (d + step - 1) / step;
      CeilDivBounds(d, step);
      if j < n {
        MulMonotone(j, n - 1, step);
        assert (n - 1) * step == n * step - step;
      } else {
        MulMonotone(n, j, step);
      }
    } else {
      MulMonotone(0, j, step);
    }
  }

  /** `(d + step - 1) / step` is the least multiplier reaching `d`. */
  lemma CeilDivBounds(d: int, step: int)
    requires step >= 1
    ensures var n := (d + step - 1) / step; n * step - step < d <= n * step
  {
    var q := d + step - 1;
    assert q == (q / step) * step + q % step;
  }

  lemma MulMonotone(a: int, b: int, c: int)
    requires a <= b && c >= 0
    ensures a * c <= b * c
  {
  }

  /** The window loop of `calculate_average_notes_per_second`: from the
      first note, while the window start is before the last note, count the
      notes below the window end with a partition point, subtract the
      notes already counted, and move on by one step. */
  method CollectWindows(ts: seq<int>, last: int, step: int, ms: real) returns (result: seq<KeyValue>)
    requires |ts| > 0 && Sorted(ts)
    requires step >= 1 && ms > 0.0
    ensures result == Windows(ts, last, step, ms)
  {
    var first := ts[0];
    ghost var n := WindowCount(first, last, step);
    result := [];
    var start := first;
    var current := 0;
    CountBelowAtPartition(ts, first, 0);
    while start < last
      invariant |result| <= n
      invariant start == first + |result| * step
      invariant forall j :: 0 <= j < |result| ==> result[j] == Window(ts, first, step, ms, j)
      invariant current == CountBelow(ts, start)
      decreases last - start
    {
      WindowCountBound(first, last, step, |result|);
      var end := start + step;
      var idx := PartitionPoint(ts, end);
      CountBelowAtPartition(ts, end, idx);
      CountInIsDifference(ts, start, end);
      var count := idx - current;
      result := result + [KeyValue(start, (count as real) / (ms / 1000.0))];
      start := end;
      current := idx;
    }
    WindowCountBound(first, last, step, |result|);
  }

  /** `calculate_average_notes_per_second`. */
  method CalculateAverageNotesPerSecond(ts: seq<int>, frequency: real) returns (r: Result<seq<KeyValue>, NpsError>)
    requires Computable(ts, frequency)
    ensures r == NpsWindows(ts, frequency)
  {
    if |ts| == 0 {
      return Err(EmptyTimings);
    }
    var ms := IntervalMs(ts, frequency);
    if ms <= 0.0 {
      return Err(InvalidInterval);
    }
    var windows := CollectWindows(ts, ts[|ts| - 1], Step(ms), ms);
    return Ok(windows);
  }

  // ---------------------------------------------------------------------
  // Properties of the windows
  // ---------------------------------------------------------------------

  /** The two errors: no notes at all, or a width that is not positive.
      For a span that fits in `i32` the latter means a single instant (one
      note, or all notes together) or a non-positive frequency; a longer
      span wraps to a negative duration and flips the sign of the width. */
  lemma {:induction false} NpsErrors(ts: seq<int>, frequency: real)
    requires Computable(ts, frequency)
    ensures NpsWindows(ts, frequency) == Err(EmptyTimings) <==> |ts| == 0
    ensures |ts| > 0 && ts[|ts| - 1] - ts[0] <= I32Max ==>
      (NpsWindows(ts, frequency) == Err(InvalidInterval) <==> ts[|ts| - 1] == ts[0] || frequency <= 0.0)
    ensures NpsWindows(ts, frequency).Ok? ==> ts[0] < ts[|ts| - 1]
  {
    if |ts| > 0 {
      var d := Duration(ts);
      assert ts[0] <= ts[|ts| - 1];
      if ts[|ts| - 1] - ts[0] <= I32Max {
        assert d == ts[|ts| - 1] - ts[0];
        if d > 0 && frequency > 0.0 {
          assert (d as real) * frequency > 0.0;
        } else if d > 0 {
          assert (d as real) * frequency <= 0.0;
        }
      } else {
        assert d != 0;
      }
    }
  }

  /** A window's value is a density: non-negative, and times the width in
      seconds it is the number of notes in [key, key + step). */
  predicate IsDensity(ts: seq<int>, step: int, ms: real, w: KeyValue)
  {
    w.value >= 0.0 && w.value * (ms / 1000.0) == CountIn(ts, w.key, w.key + step) as real
  }

  /** Each window: its key is `j` steps after the first note and its value
      is the density of the notes in it. */
  lemma {:induction false} WindowMeaning(ts: seq<int>, first: int, step: int, ms: real, j: nat)
    requires ms > 0.0
    ensures Window(ts, first, step, ms, j).key == first + j * step
    ensures IsDensity(ts, step, ms, Window(ts, first, step, ms, j))
  {
    var w := Window(ts, first, step, ms, j);
    var c := CountIn(ts, w.key, w.key + step) as real;
    assert ms / 1000.0 > 0.0;
    assert w.value == c / (ms / 1000.0);
  }

  /** Keys of the windows between a first and a later last note: `j`
      steps after the first note, and below the last. */
  lemma {:induction false} WindowsKeys(ts: seq<int>, last: int, step: int, ms: real)
    requires |ts| > 0 && step >= 1 && ms > 0.0 && ts[0] < last
    ensures |Windows(ts, last, step, ms)| >= 1
    ensures forall j :: 0 <= j < |Windows(ts, last, step, ms)| ==>
      Windows(ts, last, step, ms)[j].key == ts[0] + j * step && ts[0] <= Windows(ts, last, step, ms)[j].key < last
  {
    var r := Windows(ts, last, step, ms);
    var first := ts[0];
    WindowCountBound(first, last, step, 0);
    forall j | 0 <= j < |r|
      ensures r[j].key == first + j * step && first <= r[j].key < last
    {
      assert r[j] == Window(ts, first, step, ms, j);
      WindowCountBound(first, last, step, j);
      assert j * step >= 0;
    }
  }

  /** Values of the windows: non-negative densities, each the count of its
      window per second of window. */
  lemma {:induction false} WindowsValues(ts: seq<int>, last: int, step: int, ms: real)
    requires |ts| > 0 && step >= 1 && ms > 0.0
    ensures forall j :: 0 <= j < |Windows(ts, last, step, ms)| ==> IsDensity(ts, step, ms, Windows(ts, last, step, ms)[j])
  {
    var r := Windows(ts, last, step, ms);
    forall j | 0 <= j < |r|
      ensures IsDensity(ts, step, ms, r[j])
    {
      WindowMeaning(ts, ts[0], step, ms, j);
      assert r[j] == Window(ts, ts[0], step, ms, j);
    }
  }

  /** Keys start at the first note, advance by the truncated width and stay
      below the last note. */
  lemma {:induction false} NpsWindowShape(ts: seq<int>, frequency: real)
    requires Computable(ts, frequency)
    requires NpsWindows(ts, frequency).Ok?
    ensures var r := NpsWindows(ts, frequency).value;
      var step := Step(IntervalMs(ts, frequency));
      && |r| >= 1
      && r[0].key == ts[0]
      && (forall j :: 0 <= j < |r| - 1 ==> r[j + 1].key == r[j].key + step)
      && (forall j :: 0 <= j < |r| ==> ts[0] <= r[j].key < ts[|ts| - 1])
  {
    var ms := IntervalMs(ts, frequency);
    var step := Step(ms);
    NpsErrors(ts, frequency);
    var r := Windows(ts, ts[|ts| - 1], step, ms);
    assert NpsWindows(ts, frequency).value == r;
    WindowsKeys(ts, ts[|ts| - 1], step, ms);
    forall j | 0 <= j < |r| - 1
      ensures r[j + 1].key == r[j].key + step
    {
      var a, b := r[j].key, r[j + 1].key;
      assert a == ts[0] + j * step;
      assert b == ts[0] + (j + 1) * step;
      assert (j + 1) * step == j * step + step;
    }
  }

  /** Every value is a non-negative density: the notes in its window per
      second of window. */
  lemma {:induction false} NpsWindowValues(ts: seq<int>, frequency: real)
    requires Computable(ts, frequency)
    requires NpsWindows(ts, frequency).Ok?
    ensures var r := NpsWindows(ts, frequency).value;
      forall j :: 0 <= j < |r| ==> IsDensity(ts, Step(IntervalMs(ts, frequency)), IntervalMs(ts, frequency), r[j])
  {
    var ms := IntervalMs(ts, frequency);
    var step := Step(ms);
    var r := Windows(ts, ts[|ts| - 1], step, ms);
    assert NpsWindows(ts, frequency).value == r;
    WindowsValues(ts, ts[|ts| - 1], step, ms);
  }

  /** Sum of the window counts of a window sequence. */
  function WindowCounts(ts: seq<int>, r: seq<KeyValue>, step: int): nat
  {
    if |r| == 0 then 0 else WindowCounts(ts, r[..|r| - 1], step) + CountIn(ts, r[|r| - 1].key, r[|r| - 1].key + step)
  }

  /** Windows laid end to end count every note from the first start to the
      last end exactly once. */
  lemma {:induction false} WindowCountsTelescope(ts: seq<int>, r: seq<KeyValue>, first: int, step: int)
    requires step >= 1
    requires forall j :: 0 <= j < |r| ==> r[j].key == first + j * step
    ensures WindowCounts(ts, r, step) == CountIn(ts, first, first + |r| * step)
    decreases |r|
  {
    if |r| > 0 {
      var k := |r| - 1;
      var front := r[..k];
      assert forall j :: 0 <= j < |front| ==> front[j] == r[j];
      WindowCountsTelescope(ts, front, first, step);
      var a := first + k * step;
      assert k * step >= 0;
      assert r[k].key == a;
      assert first + |r| * step == a + step;
      CountInIsDifference(ts, first, a);
      CountInIsDifference(ts, a, a + step);
      CountInIsDifference(ts, first, a + step);
    } else {
      CountInIsDifference(ts, first, first);
    }
  }

  lemma {:induction false} CountBelowAtMost(ts: seq<int>, e: int)
    ensures CountBelow(ts, e) <= |ts|
    decreases |ts|
  {
    if |ts| > 0 {
      CountBelowAtMost(ts[1..], e);
    }
  }

  lemma {:induction false} CountBelowAll(ts: seq<int>, e: int)
    requires forall i :: 0 <= i < |ts| ==> ts[i] < e
    ensures CountBelow(ts, e) == |ts|
    decreases |ts|
  {
    if |ts| > 0 {
      CountBelowAll(ts[1..], e);
    }
  }

  lemma {:induction false} CountBelowMissesOne(ts: seq<int>, e: int, k: nat)
    requires k < |ts| && ts[k] >= e
    ensures CountBelow(ts, e) < |ts|
    decreases |ts|
  {
    if k > 0 {
      CountBelowMissesOne(ts[1..], e, k - 1);
    } else {
      CountBelowAtMost(ts[1..], e);
    }
  }

  lemma {:induction false} MulSign(k: int, b: int)
    requires b > 0
    ensures k >= 1 ==> k * b >= b
    ensures k <= -1 ==> k * b <= -b
  {
    if k >= 1 {
      assert k * b == (k - 1) * b + b;
    } else if k <= -1 {
      assert k * b == (k + 1) * b - b;
    }
  }

  /** Euclidean division is determined by quotient and remainder. */
  lemma {:induction false} DivUnique(a: int, b: int, q: int, r: int)
    requires b > 0 && 0 <= r < b && a == q * b + r
    ensures a / b == q && a % b == r
  {
    var q', r' := a / b, a % b;
    assert a == q' * b + r' && 0 <= r' < b;
    assert (q' - q) * b == r - r';
    MulSign(q' - q, b);
  }

  /** The last window ends after the last note unless the span is a
      multiple of the step, in which case it ends exactly on it. */
  lemma {:induction false} LastWindowEnd(first: int, last: int, step: int)
    requires step >= 1 && first < last
    ensures first + WindowCount(first, last, step) * step >= last
    ensures first + WindowCount(first, last, step) * step == last <==> (last - first) % step == 0
  {
    var d := last - first;
    var n := WindowCount(first, last, step);
    assert n == (d + step - 1) / step;
    var q, m := d / step, d % step;
    assert d == q * step + m && 0 <= m < step;
    if m == 0 {
      DivUnique(d + step - 1, step, q, step - 1);
      assert n * step == d;
    } else {
      DivUnique(d + step - 1, step, q + 1, m - 1);
      assert n * step == q * step + step;
    }
  }

  /** The window counts add up to the notes before the end of the last
      window; so every note is counted except when the last note falls
      exactly on that end, i.e. when the span is a multiple of the step. */
  lemma {:induction false} NpsCountsAllNotesUnlessLastOnBoundary(ts: seq<int>, frequency: real)
    requires Computable(ts, frequency)
    requires NpsWindows(ts, frequency).Ok?
    ensures var r := NpsWindows(ts, frequency).value;
      var step := Step(IntervalMs(ts, frequency));
      && WindowCounts(ts, r, step) == CountBelow(ts, ts[0] + |r| * step)
      && (WindowCounts(ts, r, step) == |ts| <==> (ts[|ts| - 1] - ts[0]) % step != 0)
  {
    var r := NpsWindows(ts, frequency).value;
    var ms := IntervalMs(ts, frequency);
    var step := Step(ms);
    var first, last := ts[0], ts[|ts| - 1];
    NpsErrors(ts, frequency);
    assert r == Windows(ts, last, step, ms);
    WindowsKeys(ts, last, step, ms);
    WindowCountsTelescope(ts, r, first, step);
    var end := first + |r| * step;
    LastWindowEnd(first, last, step);
    CountBelowAtPartition(ts, first, 0);
    CountInIsDifference(ts, first, end);
    if (last - first) % step != 0 {
      forall i | 0 <= i < |ts|
        ensures ts[i] < end
      {
        assert ts[i] <= last;
      }
      CountBelowAll(ts, end);
    } else {
      CountBelowMissesOne(ts, end, |ts| - 1);
    }
  }

  /** The worked example: notes at 1000, 1500, 2000 and 2500 ms with the
      width at 100 % of the span give one window of 1500 ms starting at
      1000 that holds three notes, 2 notes per second; the note at 2500
      lies on the window's end and is not counted. */
  lemma {:induction false} NpsFourNotesExample()
    ensures Computable([1000, 1500, 2000, 2500], 100.0)
    ensures NpsWindows([1000, 1500, 2000, 2500], 100.0) == Ok([KeyValue(1000, 2.0)])
  {
    var ts := [1000, 1500, 2000, 2500];
    assert Duration(ts) == 1500;
    assert IntervalMs(ts, 100.0) == 1500.0;
    assert Step(1500.0) == 1500;
    assert WindowCount(1000, 2500, 1500) == 1;
    assert Sorted(ts);
    assert Computable(ts, 100.0);
    assert CountIn(ts, 1000, 2500) == 3 by {
      assert ts[1..] == [1500, 2000, 2500];
      assert ts[1..][1..] == [2000, 2500];
      assert ts[1..][1..][1..] == [2500];
      assert ts[1..][1..][1..][1..] == [];
    }
    assert Window(ts, 1000, 1500, 1500.0, 0) == KeyValue(1000, 2.0);
    assert Windows(ts, 2500, 1500, 1500.0) == [Window(ts, 1000, 1500, 1500.0, 0)];
  }

  /** The single-note and negative-frequency cases are errors, and so is
      an empty list. */
  lemma {:induction false} NpsErrorExamples()
    ensures Computable([1000], 100.0) && NpsWindows([1000], 100.0) == Err(InvalidInterval)
    ensures Computable([1000, 1500, 2000], -1.0) && NpsWindows([1000, 1500, 2000], -1.0) == Err(InvalidInterval)
    ensures Computable([], 1.0) && NpsWindows([], 1.0) == Err(EmptyTimings)
  {
    assert Duration([1000]) == 0;
    assert Duration([1000, 1500, 2000]) == 1000;
    assert Sorted([1000, 1500, 2000]);
  }

  // ---------------------------------------------------------------------
  // Composition
  // ---------------------------------------------------------------------

  /** The two stages' errors, each wrapped with its own context. */
  datatype GetNpsError = ParseFailed(message: string) | CalculationFailed(cause: NpsError)

  /** The menu loop calls `get_nps(path, 1.0)`. For any span of notes under
      100 ms the window width is then below one millisecond, it truncates
      to 0, and the source loop's window start never moves: the loop does
      not end. Such timings are outside `Computable`. */
  lemma ShortSpanNeverAdvances(ts: seq<int>)
    requires |ts| > 0 && AllI32(ts) && 0 < ts[|ts| - 1] - ts[0] < 100
    ensures 0.0 < IntervalMs(ts, 1.0) < 1.0
    ensures Step(IntervalMs(ts, 1.0)) == 0
    ensures !Computable(ts, 1.0)
  {
    assert Duration(ts) == ts[|ts| - 1] - ts[0];
  }

  /** `get_nps` on the text of a beatmap file (reading the file is I/O and
      the text is the parameter): parse, then compute; the parse step never
      fails, so the only errors are the computation's. */
  method GetNps(content: string, frequency: real) returns (r: Result<seq<KeyValue>, GetNpsError>)
    requires Computable(NotesOf(HitObjectLines(Lines(content))), frequency)
    ensures r.Err? ==> r.error.CalculationFailed?
    ensures var windows := NpsWindows(NotesOf(HitObjectLines(Lines(content))), frequency);
      && (r.Ok? <==> windows.Ok?)
      && (r.Ok? ==> r.value == windows.value)
      && (r.Err? ==> r.error.cause == windows.error)
  {
    var parsed := ParseHitObjects(content);
    var windows := CalculateAverageNotesPerSecond(parsed.value, frequency);
    if windows.Err? {
      return Err(CalculationFailed(windows.error));
    }
    return Ok(windows.value);
  }
}
