/** The polling loops of the reader: waiting for a play, following the play
    until it ends or is retried, waiting for the result screen, and the
    menu-side loop that picks up each newly selected beatmap.

    Every loop re-reads memory on each iteration. The model gives each loop
    the finite sequence of what its reads returned, one element per
    iteration (`PlayTickAt` and `WaitTickAt` build an element from memory
    snapshots). A failing read is an `unwrap` panic in the source and ends
    the loop as `Panicked`; a sequence that runs out before the loop
    returns means the loop is still polling. */
module Polling {
  import opened Results
  import opened Memory
  import opened Structs
  import Beatmap
  import Gameplay
  import Submission

  // ---------------------------------------------------------------------
  // Status
  // ---------------------------------------------------------------------

  /** `get_status`: dereference `status - 0x4`, read the `u32` there. */
  const StatusChain: seq<int> := [-0x4]

  function GetStatus(m: Snapshot, status: int): (r: Result<int, ReadError>)
    ensures r.Ok? <==> ReadI32(m, status - 0x4).Ok? && ReadU32(m, ReadI32(m, status - 0x4).value).Ok?
    ensures r.Ok? ==> r.value == ReadU32(m, ReadI32(m, status - 0x4).value).value
    ensures r.Ok? ==> 0 <= r.value < U32Bound
  {
    ChainU32(m, status, StatusChain, 0)
  }

  /** The game state the status word names. */
  function StateAt(m: Snapshot, status: int): (r: Result<GameState, ReadError>)
    ensures r.Ok? <==> GetStatus(m, status).Ok?
  {
    var code :- GetStatus(m, status);
    Ok(GameStateFrom(code))
  }

  /** How a polling loop ends within the observed iterations. */
  datatype Run<T> = Returned(value: T) | Panicked | StillPolling

  // ---------------------------------------------------------------------
  // Waiting for a play (second reader)
  // ---------------------------------------------------------------------

  /** `waiting_for_play`: poll the status until it reads Playing; the
      result counts the reads before that one. */
  function AwaitPlaying(polls: seq<Result<GameState, ReadError>>): (r: Run<nat>)
    ensures r.Returned? ==> r.value < |polls| && polls[r.value] == Ok(Playing)
    decreases |polls|
  {
    if |polls| == 0 then StillPolling
    else if polls[0].Err? then Panicked
    else if polls[0].value == Playing then Returned(0)
    else match AwaitPlaying(polls[1..])
      case Returned(k) => Returned(k + 1)
      case other => other
  }

  /** The wait returns exactly when some read says Playing and every read
      before it succeeded. */
  lemma {:induction false} AwaitPlayingReturns(polls: seq<Result<GameState, ReadError>>)
    ensures AwaitPlaying(polls).Returned? <==>
      exists i :: 0 <= i < |polls| && polls[i] == Ok(Playing) && forall j :: 0 <= j < i ==> polls[j].Ok?
    decreases |polls|
  {
    if |polls| > 0 && polls[0].Ok? && polls[0].value != Playing {
      AwaitPlayingReturns(polls[1..]);
      if AwaitPlaying(polls).Returned? {
        var i :| 0 <= i < |polls[1..]| && polls[1..][i] == Ok(Playing) && forall j :: 0 <= j < i ==> polls[1..][j].Ok?;
        assert forall j :: 0 <= j < i + 1 ==> polls[j].Ok? by {
          forall j | 0 <= j < i + 1 ensures polls[j].Ok? {
            if j > 0 { assert polls[j] == polls[1..][j - 1]; }
          }
        }
        assert polls[i + 1] == Ok(Playing);
      }
      if exists i :: 0 <= i < |polls| && polls[i] == Ok(Playing) && forall j :: 0 <= j < i ==> polls[j].Ok? {
        var i :| 0 <= i < |polls| && polls[i] == Ok(Playing) && forall j :: 0 <= j < i ==> polls[j].Ok?;
        assert i > 0;
        assert polls[1..][i - 1] == Ok(Playing);
        assert forall j :: 0 <= j < i - 1 ==> polls[1..][j].Ok? by {
          forall j | 0 <= j < i - 1 ensures polls[1..][j].Ok? {
            assert polls[1..][j] == polls[j + 1];
          }
        }
      }
    }
  }

  // ---------------------------------------------------------------------
  // Waiting for the result screen
  // ---------------------------------------------------------------------

  /** `wait_result_screen`: spin while the status reads Playing, then read
      the status once more and answer whether that fresh read is the
      result screen. The read that ended the spin is not the one tested. */
  function WaitResultScreen(polls: seq<Result<GameState, ReadError>>): (r: Run<bool>)
    ensures |polls| > 0 && polls[0].Err? ==> r == Panicked
    decreases |polls|
  {
    if |polls| == 0 then StillPolling
    else if polls[0].Err? then Panicked
    else if polls[0].value == Playing then WaitResultScreen(polls[1..])
    else if |polls| == 1 then StillPolling
    else if polls[1].Err? then Panicked
    else Returned(polls[1].value == ResultScreen)
  }

  /** After `i` reads of Playing, the first other state is followed by one
      more read, and its state alone decides the answer. */
  lemma {:induction false} WaitResultScreenDecides(polls: seq<Result<GameState, ReadError>>, i: nat)
    requires i + 1 < |polls|
    requires forall j :: 0 <= j < i ==> polls[j] == Ok(Playing)
    requires polls[i].Ok? && polls[i].value != Playing
    ensures polls[i + 1].Err? ==> WaitResultScreen(polls) == Panicked
    ensures polls[i + 1].Ok? ==> WaitResultScreen(polls) == Returned(polls[i + 1].value == ResultScreen)
    decreases i
  {
    if i > 0 {
      assert polls[0] == Ok(Playing);
      assert forall j :: 0 <= j < i - 1 ==> polls[1..][j] == Ok(Playing) by {
        forall j | 0 <= j < i - 1 ensures polls[1..][j] == Ok(Playing) {
          assert polls[1..][j] == polls[j + 1];
        }
      }
      WaitResultScreenDecides(polls[1..], i - 1);
      assert polls[1..][i - 1] == polls[i] && polls[1..][i] == polls[i + 1];
    }
  }

  /** Leaving the play straight onto the result screen still answers false
      when the status has moved on by the time of the second read. */
  lemma ResultScreenMissedByReread(polls: seq<Result<GameState, ReadError>>, i: nat, later: GameState)
    requires i + 1 < |polls|
    requires forall j :: 0 <= j < i ==> polls[j] == Ok(Playing)
    requires polls[i] == Ok(ResultScreen) && polls[i + 1] == Ok(later) && later != ResultScreen
    ensures WaitResultScreen(polls) == Returned(false)
  {
    WaitResultScreenDecides(polls, i);
  }

  // ---------------------------------------------------------------------
  // Following a play
  // ---------------------------------------------------------------------

  /** What one iteration of `playing` polls: the loop condition's status,
      the in-game clock, the status again, the md5, the retry counter. */
  datatype PlayTick = PlayTick(
    state: Result<GameState, ReadError>,
    igTime: Result<int, ReadError>,
    recheck: Result<int, ReadError>,
    md5: Result<string, ReadError>,
    retries: Result<int, ReadError>
  )

  /** One iteration's reads taken from a snapshot. */
  function PlayTickAt(m: Snapshot, a: StaticAddresses): PlayTick
  {
    PlayTick(StateAt(m, a.status), Gameplay.GetIgTime(m, a.playtime), GetStatus(m, a.status),
             Beatmap.GetBeatmapMd5(m, a.base), Gameplay.GetRetries(m, a.base))
  }

  /** The reads after the loop condition all succeeded. */
  predicate BodyReadsOk(t: PlayTick)
  {
    t.igTime.Ok? && t.recheck.Ok? && t.md5.Ok? && t.retries.Ok?
  }

  /** The pause tracker: the clock advanced by less than 20 ms since the
      previous iteration (an `i32` subtraction, wrapping), both readings are
      positive and differ from the recorded pause. */
  function PauseStep(cur: int, lastTime: int, lastPaused: int): (r: int)
    ensures r != lastPaused <==> WrapI32(cur - lastTime) < 20 && cur > 0 && lastTime > 0 && lastPaused != cur
    ensures r != lastPaused ==> r == cur
  {
    if WrapI32(cur - lastTime) < 20 && cur > 0 && lastTime > 0 && lastPaused != cur then cur else lastPaused
  }

  datatype PlayEnd = PlayEnd(run: Run<bool>, lastPaused: int)

  /** The loop of `playing`, from the clock and pause values it has so far.
      It returns false once the retry counter exceeds its initial 0 and
      true once the status is no longer Playing. */
  function PlayLoop(ticks: seq<PlayTick>, lastTime: int, lastPaused: int): (r: PlayEnd)
    ensures r.lastPaused == lastPaused || exists i :: 0 <= i < |ticks| && ticks[i].igTime == Ok(r.lastPaused)
    decreases |ticks|
  {
    if |ticks| == 0 then PlayEnd(StillPolling, lastPaused)
    else
      var t := ticks[0];
      if t.state.Err? then PlayEnd(Panicked, lastPaused)
      else if t.state.value != Playing then PlayEnd(Returned(true), lastPaused)
      else if t.igTime.Err? then PlayEnd(Panicked, lastPaused)
      else
        var paused := PauseStep(t.igTime.value, lastTime, lastPaused);
        if !BodyReadsOk(t) then PlayEnd(Panicked, paused)
        else if 0 < t.retries.value then PlayEnd(Returned(false), paused)
        else
          var rest := PlayLoop(ticks[1..], t.igTime.value, paused);
          assert forall i :: 0 <= i < |ticks| - 1 ==> ticks[1..][i] == ticks[i + 1];
          rest
  }

  /** An iteration after which the loop goes on. */
  predicate Continues(t: PlayTick)
  {
    t.state == Ok(Playing) && BodyReadsOk(t) && t.retries.value <= 0
  }

  /** The loop gets as far as iteration `i`. */
  predicate Reaches(ticks: seq<PlayTick>, i: nat)
    requires i <= |ticks|
  {
    forall j :: 0 <= j < i ==> Continues(ticks[j])
  }

  /** The iteration at which the loop stops (`|ticks|` if it never does). */
  function FirstStop(ticks: seq<PlayTick>): (k: nat)
    ensures k <= |ticks| && Reaches(ticks, k)
    ensures k < |ticks| ==> !Continues(ticks[k])
    decreases |ticks|
  {
    if |ticks| == 0 || !Continues(ticks[0]) then 0
    else
      var k := 1 + FirstStop(ticks[1..]);
      assert forall j :: 1 <= j < k ==> ticks[j] == ticks[1..][j - 1];
      k
  }

  /** The outcome is decided by the iteration at which the loop stops. */
  lemma {:induction false} PlayLoopStopsAt(ticks: seq<PlayTick>, lastTime: int, lastPaused: int)
    ensures var k := FirstStop(ticks);
      var run := PlayLoop(ticks, lastTime, lastPaused).run;
      && (k == |ticks| ==> run == StillPolling)
      && (k < |ticks| && ticks[k].state.Ok? && ticks[k].state.value != Playing ==> run == Returned(true))
      && (k < |ticks| && ticks[k].state == Ok(Playing) && BodyReadsOk(ticks[k]) ==> run == Returned(false))
      && (k < |ticks| && (ticks[k].state.Err? || (ticks[k].state == Ok(Playing) && !BodyReadsOk(ticks[k]))) ==> run == Panicked)
    decreases |ticks|
  {
    if |ticks| > 0 && Continues(ticks[0]) {
      PlayLoopStopsAt(ticks[1..], ticks[0].igTime.value, PauseStep(ticks[0].igTime.value, lastTime, lastPaused));
      assert FirstStop(ticks) == 1 + FirstStop(ticks[1..]);
      if FirstStop(ticks) < |ticks| {
        assert ticks[FirstStop(ticks)] == ticks[1..][FirstStop(ticks[1..])];
      }
    }
  }

  /** `playing` answers false exactly when, with every earlier iteration
      going on, some iteration reads Playing and a retry counter above 0;
      it answers true exactly when the loop reaches a status other than
      Playing; it is still polling exactly when every iteration goes on. */
  lemma PlayLoopOutcome(ticks: seq<PlayTick>, lastTime: int, lastPaused: int)
    ensures PlayLoop(ticks, lastTime, lastPaused).run == Returned(false) <==>
      exists i :: 0 <= i < |ticks| && Reaches(ticks, i) && ticks[i].state == Ok(Playing) && BodyReadsOk(ticks[i]) && 0 < ticks[i].retries.value
    ensures PlayLoop(ticks, lastTime, lastPaused).run == Returned(true) <==>
      exists i :: 0 <= i < |ticks| && Reaches(ticks, i) && ticks[i].state.Ok? && ticks[i].state.value != Playing
    ensures PlayLoop(ticks, lastTime, lastPaused).run == StillPolling <==> Reaches(ticks, |ticks|)
  {
    var k := FirstStop(ticks);
    PlayLoopStopsAt(ticks, lastTime, lastPaused);
    forall i | 0 <= i < |ticks| && Reaches(ticks, i) && !Continues(ticks[i])
      ensures i == k
    {
    }
    if k < |ticks| {
      assert !Reaches(ticks, |ticks|) by { assert !Continues(ticks[k]); }
    }
  }

  /** Only whether the clock could be read matters to the outcome, never
      the times read. */
  function Untimed(t: PlayTick): PlayTick
  {
    t.(igTime := if t.igTime.Ok? then Ok(0) else t.igTime)
  }

  lemma {:induction false} PlayLoopIgnoresClock(a: seq<PlayTick>, b: seq<PlayTick>, lastTimeA: int, lastPausedA: int, lastTimeB: int, lastPausedB: int)
    requires |a| == |b|
    requires forall i :: 0 <= i < |a| ==> Untimed(a[i]) == Untimed(b[i])
    ensures PlayLoop(a, lastTimeA, lastPausedA).run == PlayLoop(b, lastTimeB, lastPausedB).run
    decreases |a|
  {
    if |a| > 0 {
      assert Untimed(a[0]) == Untimed(b[0]);
      if Continues(a[0]) {
        assert forall i :: 0 <= i < |a[1..]| ==> Untimed(a[1..][i]) == Untimed(b[1..][i]) by {
          forall i | 0 <= i < |a[1..]| ensures Untimed(a[1..][i]) == Untimed(b[1..][i]) {
            assert a[1..][i] == a[i + 1] && b[1..][i] == b[i + 1];
          }
        }
        PlayLoopIgnoresClock(a[1..], b[1..], a[0].igTime.value, PauseStep(a[0].igTime.value, lastTimeA, lastPausedA),
                             b[0].igTime.value, PauseStep(b[0].igTime.value, lastTimeB, lastPausedB));
      }
    }
  }

  /** The recorded pause is either the starting value or a positive clock
      reading of one of the iterations. */
  lemma {:induction false} PausedIsAClockReading(ticks: seq<PlayTick>, lastTime: int, lastPaused: int)
    ensures var p := PlayLoop(ticks, lastTime, lastPaused).lastPaused;
      p == lastPaused || (p > 0 && exists i :: 0 <= i < |ticks| && ticks[i].igTime == Ok(p))
    decreases |ticks|
  {
    if |ticks| > 0 && ticks[0].state == Ok(Playing) && ticks[0].igTime.Ok? {
      var paused := PauseStep(ticks[0].igTime.value, lastTime, lastPaused);
      if BodyReadsOk(ticks[0]) && ticks[0].retries.value <= 0 {
        PausedIsAClockReading(ticks[1..], ticks[0].igTime.value, paused);
        var p := PlayLoop(ticks[1..], ticks[0].igTime.value, paused).lastPaused;
        if p != paused {
          var i :| 0 <= i < |ticks[1..]| && ticks[1..][i].igTime == Ok(p);
          assert ticks[i + 1].igTime == Ok(p);
        }
      }
    }
  }

  /** `playing` of the second reader: read the mods (the value is unused),
      send the map request, then run the loop from a zero clock. */
  datatype Session = Session(request: Option<string>, end: PlayEnd)

  function Playing2(pre: Snapshot, a: StaticAddresses, token: Option<string>, ticks: seq<PlayTick>): (r: Session)
    ensures r.request.Some? <==> Gameplay.GetMods(pre, a.rulesets).Ok? && Submission.SendArq(pre, a.base, token).Ok?
    ensures r.request.None? ==> r.end == PlayEnd(Panicked, 0)
    ensures r.request.Some? ==> r.end == PlayLoop(ticks, 0, 0)
  {
    if Gameplay.GetMods(pre, a.rulesets).Err? then Session(None, PlayEnd(Panicked, 0))
    else match Submission.SendArq(pre, a.base, token)
      case Err(_) => Session(None, PlayEnd(Panicked, 0))
      case Ok(body) => Session(Some(body), PlayLoop(ticks, 0, 0))
  }

  /** The request posted before the loop names the token and the beatmap
      selected at that moment. */
  lemma Playing2Request(pre: Snapshot, a: StaticAddresses, b: int, text: Beatmap.BeatmapText, token: string, ticks: seq<PlayTick>)
    requires Beatmap.BeatmapAt(pre, a.base, b, text)
    requires Submission.QuoteFree(token) && Submission.QuoteFree(text.md5)
    requires Gameplay.GetMods(pre, a.rulesets).Ok?
    ensures Playing2(pre, a, Some(token), ticks).request == Some(Submission.RequestBody(token, text.md5))
  {
    Submission.SendArqNamesBeatmap(pre, a.base, b, text, token);
  }

  /** `playing` of the first reader: read the mods (unused), then run the
      same loop from a zero clock, without a request. */
  function Playing1(pre: Snapshot, a: StaticAddresses, ticks: seq<PlayTick>): (r: PlayEnd)
    ensures Gameplay.GetMods(pre, a.rulesets).Err? ==> r == PlayEnd(Panicked, 0)
    ensures r.run.Returned? ==> Gameplay.GetMods(pre, a.rulesets).Ok?
  {
    if Gameplay.GetMods(pre, a.rulesets).Err? then PlayEnd(Panicked, 0)
    else PlayLoop(ticks, 0, 0)
  }

  /** Once the second reader's request is built, both readers follow the
      play to the same end. */
  lemma PlayingReadersAgree(pre: Snapshot, a: StaticAddresses, token: Option<string>, ticks: seq<PlayTick>)
    ensures Playing2(pre, a, token, ticks).request.Some? ==> Playing2(pre, a, token, ticks).end == Playing1(pre, a, ticks)
  {
  }

  // ---------------------------------------------------------------------
  // Waiting for a play (first reader): picking up new beatmaps
  // ---------------------------------------------------------------------

  /** The three file paths the menu loop looks up for a new beatmap. */
  datatype Assets = Assets(path: string, cover: string, audio: string)

  /** What one iteration of the menu loop polls: the status, the selected
      md5, the beatmap record, and its files (whose lookup can fail with an
      error of type `E` that the loop passes on). */
  datatype WaitTick<E> = WaitTick(
    state: Result<GameState, ReadError>,
    md5: Result<string, ReadError>,
    beatmap: Result<Beatmap.MapData, ReadError>,
    assets: Result<Assets, E>
  )

  /** One iteration of the menu loop read from memory. The status and the
      md5 are read first, from `m`; `get_beatmap` runs only afterwards and
      reads its five strings, the md5 among them, again, from `later`. */
  function WaitTickAt<E>(m: Snapshot, later: Snapshot, a: StaticAddresses, assets: Result<Assets, E>): WaitTick<E>
  {
    WaitTick(StateAt(m, a.status), Beatmap.GetBeatmapMd5(m, a.base), Beatmap.GetBeatmap(later, a.base), assets)
  }

  /** A beatmap handed to the background worker. */
  datatype Harvest = Harvest(beatmap: Beatmap.MapData, assets: Assets)

  datatype WaitStop<E> = ReachedPlay | Crashed | Failed(error: E) | StillWaiting

  datatype WaitEnd<E> = WaitEnd(harvests: seq<Harvest>, stop: WaitStop<E>)

  /** The menu loop of `waiting_for_play`, remembering the md5 of the last
      beatmap record it handed on. A Playing status returns at once;
      otherwise an md5 different from the remembered one reads the beatmap
      and its files and hands them on. */
  function WaitLoop<E>(ticks: seq<WaitTick<E>>, last: string): (r: WaitEnd<E>)
    ensures |r.harvests| <= |ticks|
    decreases |ticks|
  {
    if |ticks| == 0 then WaitEnd([], StillWaiting)
    else
      var t := ticks[0];
      if t.state.Err? then WaitEnd([], Crashed)
      else if t.state.value == Playing then WaitEnd([], ReachedPlay)
      else if t.md5.Err? then WaitEnd([], Crashed)
      else if t.md5.value == last then WaitLoop(ticks[1..], last)
      else if t.beatmap.Err? then WaitEnd([], Crashed)
      else if t.assets.Err? then WaitEnd([], Failed(t.assets.error))
      else
        var rest := WaitLoop(ticks[1..], t.beatmap.value.md5);
        WaitEnd([Harvest(t.beatmap.value, t.assets.value)] + rest.harvests, rest.stop)
  }

  /** `waiting_for_play` starts from an empty remembered md5, so the first
      beatmap with a non-empty md5 is handed on. */
  function WaitingForPlay<E>(ticks: seq<WaitTick<E>>): (r: WaitEnd<E>)
    ensures |ticks| > 0 && ticks[0].state.Ok? && ticks[0].state.value != Playing && ticks[0].md5.Ok? &&
            ticks[0].md5.value != "" && ticks[0].beatmap.Ok? && ticks[0].assets.Ok? ==>
      |r.harvests| > 0 && r.harvests[0] == Harvest(ticks[0].beatmap.value, ticks[0].assets.value)
  {
    WaitLoop(ticks, "")
  }

  /** A loop still waiting read a status other than Playing, and an md5, in
      every iteration; a loop that reached the play read Playing in one. */
  lemma {:induction false} WaitLoopStops<E>(ticks: seq<WaitTick<E>>, last: string)
    ensures WaitLoop(ticks, last).stop == StillWaiting ==>
      forall i :: 0 <= i < |ticks| ==> ticks[i].state.Ok? && ticks[i].state.value != Playing && ticks[i].md5.Ok?
    ensures WaitLoop(ticks, last).stop == ReachedPlay ==> exists i :: 0 <= i < |ticks| && ticks[i].state == Ok(Playing)
    decreases |ticks|
  {
    if |ticks| > 0 && GoesOn(ticks[0], last) {
      var next := Remembered(ticks[0], last);
      WaitLoopGoesOn(ticks, last);
      WaitLoopStops(ticks[1..], next);
      if WaitLoop(ticks, last).stop == StillWaiting {
        forall i | 0 <= i < |ticks| ensures ticks[i].state.Ok? && ticks[i].state.value != Playing && ticks[i].md5.Ok? {
          if i > 0 {
            assert ticks[i] == ticks[1..][i - 1];
          }
        }
      }
      if WaitLoop(ticks, last).stop == ReachedPlay {
        var i :| 0 <= i < |ticks[1..]| && ticks[1..][i].state == Ok(Playing);
        assert ticks[i + 1] == ticks[1..][i];
      }
    }
  }

  // The iterations of the loop, one by one.

  /** Tick `t` neither returns nor stops the loop when `last` is the
      remembered md5. */
  predicate GoesOn<E>(t: WaitTick<E>, last: string)
  {
    t.state.Ok? && t.state.value != Playing && t.md5.Ok? &&
    (t.md5.value == last || (t.beatmap.Ok? && t.assets.Ok?))
  }

  /** The md5 remembered after tick `t`: the record's own md5 when the tick
      read a different one, otherwise unchanged. */
  function Remembered<E>(t: WaitTick<E>, last: string): string
  {
    if t.md5.Ok? && t.md5.value != last && t.beatmap.Ok? then t.beatmap.value.md5 else last
  }

  /** The md5 remembered on reaching tick `i`. */
  function MemoryAt<E>(ticks: seq<WaitTick<E>>, last: string, i: nat): string
    requires i <= |ticks|
    decreases i
  {
    if i == 0 then last else Remembered(ticks[i - 1], MemoryAt(ticks, last, i - 1))
  }

  /** Tick `i` is reached: every tick before it went on. */
  predicate Reached<E>(ticks: seq<WaitTick<E>>, last: string, i: nat)
    requires i <= |ticks|
  {
    forall j :: 0 <= j < i ==> GoesOn(ticks[j], MemoryAt(ticks, last, j))
  }

  /** Tick `i` is reached, goes on, and reads an md5 other than the
      remembered one: it hands its beatmap on. */
  predicate HandsOn<E>(ticks: seq<WaitTick<E>>, last: string, i: nat)
  {
    i < |ticks| && Reached(ticks, last, i) && GoesOn(ticks[i], MemoryAt(ticks, last, i)) &&
    ticks[i].md5.value != MemoryAt(ticks, last, i)
  }

  /** What one tick that goes on adds in front of the rest of the loop. */
  function AfterTick<E>(t: WaitTick<E>, last: string, rest: WaitEnd<E>): WaitEnd<E>
    requires GoesOn(t, last)
  {
    if t.md5.value == last then rest
    else WaitEnd([Harvest(t.beatmap.value, t.assets.value)] + rest.harvests, rest.stop)
  }

  lemma WaitLoopGoesOn<E>(ticks: seq<WaitTick<E>>, last: string)
    requires |ticks| > 0 && GoesOn(ticks[0], last)
    ensures WaitLoop(ticks, last) == AfterTick(ticks[0], last, WaitLoop(ticks[1..], Remembered(ticks[0], last)))
  {
  }

  lemma {:induction false} MemoryAtShift<E>(ticks: seq<WaitTick<E>>, last: string, j: nat)
    requires 0 < |ticks| && j < |ticks|
    ensures MemoryAt(ticks, last, j + 1) == MemoryAt(ticks[1..], Remembered(ticks[0], last), j)
    decreases j
  {
    if j > 0 {
      MemoryAtShift(ticks, last, j - 1);
      assert ticks[1..][j - 1] == ticks[j];
    }
  }

  /** Reaching tick `i + 1` is going on at the first tick and then reaching
      tick `i` of the rest. */
  lemma ReachedShift<E>(ticks: seq<WaitTick<E>>, last: string, i: nat)
    requires i < |ticks| && GoesOn(ticks[0], last)
    ensures Reached(ticks, last, i + 1) <==> Reached(ticks[1..], Remembered(ticks[0], last), i)
    ensures MemoryAt(ticks, last, i + 1) == MemoryAt(ticks[1..], Remembered(ticks[0], last), i)
  {
    var r := Remembered(ticks[0], last);
    forall j | 0 <= j <= i
      ensures MemoryAt(ticks, last, j + 1) == MemoryAt(ticks[1..], r, j)
    {
      MemoryAtShift(ticks, last, j);
    }
    if Reached(ticks, last, i + 1) {
      forall j | 0 <= j < i ensures GoesOn(ticks[1..][j], MemoryAt(ticks[1..], r, j)) {
        assert GoesOn(ticks[j + 1], MemoryAt(ticks, last, j + 1));
      }
    }
    if Reached(ticks[1..], r, i) {
      forall j | 0 <= j < i + 1 ensures GoesOn(ticks[j], MemoryAt(ticks, last, j)) {
        if j > 0 {
          assert GoesOn(ticks[1..][j - 1], MemoryAt(ticks[1..], r, j - 1));
        }
      }
    }
  }

  lemma HandsOnShift<E>(ticks: seq<WaitTick<E>>, last: string, i: nat)
    requires i + 1 < |ticks| && GoesOn(ticks[0], last)
    ensures HandsOn(ticks, last, i + 1) <==> HandsOn(ticks[1..], Remembered(ticks[0], last), i)
  {
    ReachedShift(ticks, last, i);
    assert ticks[1..][i] == ticks[i + 1];
  }

  /** A reached tick that reads a changed md5, and whose record and files
      are read, hands that record and those files on. */
  lemma {:induction false} HandedOnIsHarvested<E>(ticks: seq<WaitTick<E>>, last: string, i: nat)
    requires HandsOn(ticks, last, i)
    ensures Harvest(ticks[i].beatmap.value, ticks[i].assets.value) in WaitLoop(ticks, last).harvests
    decreases i
  {
    assert GoesOn(ticks[0], last) by {
      assert GoesOn(ticks[0], MemoryAt(ticks, last, 0));
    }
    WaitLoopGoesOn(ticks, last);
    if i > 0 {
      HandsOnShift(ticks, last, i - 1);
      HandedOnIsHarvested(ticks[1..], Remembered(ticks[0], last), i - 1);
      assert ticks[1..][i - 1] == ticks[i];
    }
  }

  /** Tick `i` handed on the harvest `h`. */
  predicate HandedOnBy<E>(ticks: seq<WaitTick<E>>, last: string, h: Harvest)
  {
    exists i :: 0 <= i < |ticks| && HandsOn(ticks, last, i) && ticks[i].beatmap == Ok(h.beatmap) && ticks[i].assets == Ok(h.assets)
  }

  /** Conversely, everything handed on comes from a reached tick that read a
      changed md5, with the record and files read in that tick. */
  lemma {:induction false} HarvestsComeFromTicks<E>(ticks: seq<WaitTick<E>>, last: string)
    ensures forall h <- WaitLoop(ticks, last).harvests :: HandedOnBy(ticks, last, h)
    decreases |ticks|
  {
    if |ticks| > 0 && GoesOn(ticks[0], last) {
      var t := ticks[0];
      var next := Remembered(t, last);
      WaitLoopGoesOn(ticks, last);
      HarvestsComeFromTicks(ticks[1..], next);
      var rest := WaitLoop(ticks[1..], next).harvests;
      var h := WaitLoop(ticks, last).harvests;
      forall x <- h ensures HandedOnBy(ticks, last, x) {
        if t.md5.value != last && x == h[0] {
          assert HandsOn(ticks, last, 0);
        } else {
          assert x in rest;
          var i :| 0 <= i < |ticks[1..]| && HandsOn(ticks[1..], next, i) && ticks[1..][i].beatmap == Ok(x.beatmap) && ticks[1..][i].assets == Ok(x.assets);
          HandsOnShift(ticks, last, i);
          assert ticks[i + 1] == ticks[1..][i];
        }
      }
    }
  }

  /** A reached tick that reads the remembered md5 hands nothing on: the
      loop ends exactly as it would without that tick. */
  lemma {:induction false} UnchangedTickHandsNothing<E>(ticks: seq<WaitTick<E>>, last: string, i: nat)
    requires i < |ticks| && Reached(ticks, last, i)
    requires ticks[i].state.Ok? && ticks[i].state.value != Playing && ticks[i].md5 == Ok(MemoryAt(ticks, last, i))
    ensures WaitLoop(ticks, last) == WaitLoop(ticks[..i] + ticks[i + 1..], last)
    decreases i
  {
    if i == 0 {
      assert ticks[..0] + ticks[1..] == ticks[1..];
    } else {
      var cut := ticks[..i] + ticks[i + 1..];
      UnchangedTickShift(ticks, last, i);
      UnchangedTickHandsNothing(ticks[1..], Remembered(ticks[0], last), i - 1);
      WaitLoopGoesOn(ticks, last);
      WaitLoopGoesOn(cut, last);
    }
  }

  /** The step of `UnchangedTickHandsNothing`: the first tick goes on, the
      unchanged tick is reached in the rest, and cutting it out commutes
      with dropping the first tick. */
  lemma UnchangedTickShift<E>(ticks: seq<WaitTick<E>>, last: string, i: nat)
    requires 0 < i < |ticks| && Reached(ticks, last, i)
    requires ticks[i].state.Ok? && ticks[i].state.value != Playing && ticks[i].md5 == Ok(MemoryAt(ticks, last, i))
    ensures GoesOn(ticks[0], last)
    ensures var r := Remembered(ticks[0], last);
      && Reached(ticks[1..], r, i - 1)
      && ticks[1..][i - 1].state.Ok? && ticks[1..][i - 1].state.value != Playing
      && ticks[1..][i - 1].md5 == Ok(MemoryAt(ticks[1..], r, i - 1))
    ensures var cut := ticks[..i] + ticks[i + 1..];
      cut[0] == ticks[0] && cut[1..] == ticks[1..][..i - 1] + ticks[1..][i - 1 + 1..]
  {
    assert GoesOn(ticks[0], MemoryAt(ticks, last, 0));
    ReachedShift(ticks, last, i - 1);
    assert ticks[1..][i - 1] == ticks[i];
    var cut := ticks[..i] + ticks[i + 1..];
    assert cut[1..] == ticks[1..][..i - 1] + ticks[1..][i..];
  }

  /** Without a hand-on since, the remembered md5 is still the initial
      one. */
  lemma {:induction false} MemoryBeforeFirstHandOn<E>(ticks: seq<WaitTick<E>>, last: string, i: nat)
    requires i <= |ticks| && Reached(ticks, last, i)
    requires forall k :: 0 <= k < i ==> !HandsOn(ticks, last, k)
    ensures MemoryAt(ticks, last, i) == last
    decreases i
  {
    if i > 0 {
      MemoryBeforeFirstHandOn(ticks, last, i - 1);
      assert !HandsOn(ticks, last, i - 1);
      assert GoesOn(ticks[i - 1], MemoryAt(ticks, last, i - 1));
    }
  }

  /** After the hand-on at tick `j`, and none since, the remembered md5 is
      the md5 of the record tick `j` handed on. */
  lemma {:induction false} MemoryAfterHandOn<E>(ticks: seq<WaitTick<E>>, last: string, j: nat, i: nat)
    requires j < i <= |ticks| && Reached(ticks, last, i) && HandsOn(ticks, last, j)
    requires forall k :: j < k < i ==> !HandsOn(ticks, last, k)
    ensures MemoryAt(ticks, last, i) == ticks[j].beatmap.value.md5
    decreases i
  {
    if i > j + 1 {
      MemoryAfterHandOn(ticks, last, j, i - 1);
      assert !HandsOn(ticks, last, i - 1);
      assert GoesOn(ticks[i - 1], MemoryAt(ticks, last, i - 1));
    }
  }

  /** The md5 compared at each hand-on differs from the md5 of the record
      handed on before it, and the first from the initial md5. The record's
      own md5, read again by `get_beatmap`, need not differ
      (`RecordMd5CanRepeat`). */
  lemma HarvestsChangeBeatmap<E>(ticks: seq<WaitTick<E>>, last: string, i: nat)
    requires HandsOn(ticks, last, i)
    ensures (forall k :: 0 <= k < i ==> !HandsOn(ticks, last, k)) ==> ticks[i].md5.value != last
    ensures forall j :: 0 <= j < i && HandsOn(ticks, last, j) && (forall k :: j < k < i ==> !HandsOn(ticks, last, k)) ==>
      ticks[i].md5.value != ticks[j].beatmap.value.md5
  {
    if forall k :: 0 <= k < i ==> !HandsOn(ticks, last, k) {
      MemoryBeforeFirstHandOn(ticks, last, i);
    }
    forall j | 0 <= j < i && HandsOn(ticks, last, j) && (forall k :: j < k < i ==> !HandsOn(ticks, last, k))
      ensures ticks[i].md5.value != ticks[j].beatmap.value.md5
    {
      MemoryAfterHandOn(ticks, last, j, i);
    }
  }

  /** When the selection changes between the md5 compared and the md5
      `get_beatmap` reads, the same record md5 is handed on twice. */
  lemma RecordMd5CanRepeat(b: Beatmap.MapData, files: Assets)
    requires b.md5 == "A"
    ensures var ticks: seq<WaitTick<()>> := [WaitTick(Ok(SongSelect), Ok("B"), Ok(b), Ok(files)),
                                             WaitTick(Ok(SongSelect), Ok("C"), Ok(b), Ok(files))];
      WaitingForPlay(ticks).harvests == [Harvest(b, files), Harvest(b, files)]
  {
    var ticks: seq<WaitTick<()>> := [WaitTick(Ok(SongSelect), Ok("B"), Ok(b), Ok(files)),
                                     WaitTick(Ok(SongSelect), Ok("C"), Ok(b), Ok(files))];
    assert WaitLoop(ticks[1..][1..], "A") == WaitEnd([], StillWaiting);
    assert WaitLoop(ticks[1..], "A").harvests == [Harvest(b, files)];
  }

  /** The record carries the md5 that was compared in the same iteration:
      the selection did not change between the two reads. */
  predicate Consistent<E>(t: WaitTick<E>)
  {
    t.md5.Ok? && t.beatmap.Ok? ==> t.beatmap.value.md5 == t.md5.value
  }

  /** The iteration is consistent when the md5 slot reads the same for the
      comparison and for `get_beatmap`. */
  lemma SnapshotTickConsistent<E>(m: Snapshot, later: Snapshot, a: StaticAddresses, assets: Result<Assets, E>)
    requires Beatmap.GetBeatmapMd5(later, a.base) == Beatmap.GetBeatmapMd5(m, a.base)
    ensures Consistent(WaitTickAt(m, later, a, assets))
  {
  }

  /** While the selection does not change, every read of it, the compared
      md5 and the record's, gives the same md5: then at most one beatmap is
      handed on, and none when it is the remembered one. */
  lemma {:induction false} SteadySelectionHarvestsOnce<E>(ticks: seq<WaitTick<E>>, last: string, md5: string)
    requires forall i :: 0 <= i < |ticks| ==> ticks[i].md5 == Ok(md5) && Consistent(ticks[i])
    ensures |WaitLoop(ticks, last).harvests| <= 1
    ensures md5 == last ==> WaitLoop(ticks, last).harvests == []
    decreases |ticks|
  {
    if |ticks| > 0 {
      assert ticks[0].md5 == Ok(md5) && Consistent(ticks[0]);
      assert forall i :: 0 <= i < |ticks[1..]| ==> ticks[1..][i].md5 == Ok(md5) && Consistent(ticks[1..][i]) by {
        forall i | 0 <= i < |ticks[1..]| ensures ticks[1..][i].md5 == Ok(md5) && Consistent(ticks[1..][i]) {
          assert ticks[1..][i] == ticks[i + 1];
        }
      }
      if ticks[0].state.Ok? && ticks[0].state.value != Playing {
        if md5 == last {
          SteadySelectionHarvestsOnce(ticks[1..], last, md5);
        } else if ticks[0].beatmap.Ok? && ticks[0].assets.Ok? {
          SteadySelectionHarvestsOnce(ticks[1..], md5, md5);
        }
      }
    }
  }

  /** The loop fails with an error only when some file lookup failed with
      it. */
  lemma {:induction false} WaitFailureIsAssetError<E>(ticks: seq<WaitTick<E>>, last: string, e: E)
    requires WaitLoop(ticks, last).stop == Failed(e)
    ensures exists i :: 0 <= i < |ticks| && ticks[i].assets == Err(e)
    decreases |ticks|
  {
    var t := ticks[0];
    if t.assets != Err(e) {
      var next := if t.md5.value == last then last else t.beatmap.value.md5;
      WaitFailureIsAssetError(ticks[1..], next, e);
      var i :| 0 <= i < |ticks[1..]| && ticks[1..][i].assets == Err(e);
      assert ticks[i + 1] == ticks[1..][i];
    }
  }

  /** Once the status polls Playing nothing later is read, and neither is
      anything else of that iteration. */
  lemma {:induction false} WaitStopsAtPlay<E>(pre: seq<WaitTick<E>>, u: WaitTick<E>, u': WaitTick<E>, rest: seq<WaitTick<E>>, last: string)
    requires u.state == Ok(Playing) && u'.state == Ok(Playing)
    ensures WaitLoop(pre + [u] + rest, last) == WaitLoop(pre + [u'], last)
    decreases |pre|
  {
    if |pre| == 0 {
      assert (pre + [u] + rest)[0] == u && (pre + [u'])[0] == u';
    } else {
      var t := pre[0];
      assert (pre + [u] + rest)[0] == t && (pre + [u'])[0] == t;
      assert (pre + [u] + rest)[1..] == pre[1..] + [u] + rest;
      assert (pre + [u'])[1..] == pre[1..] + [u'];
      if t.state.Ok? && t.state.value != Playing && t.md5.Ok? {
        var next := if t.md5.value == last then last else if t.beatmap.Ok? then t.beatmap.value.md5 else last;
        WaitStopsAtPlay(pre[1..], u, u', rest, next);
      }
    }
  }
}
