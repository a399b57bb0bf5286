/** The supervisors: the command-line interval parsers and the two
    `controlla` loops that attach to the game, resolve the static addresses
    and run the wait / play / submit cycle, deciding after each failure
    whether to reattach or to wait again.

    Each pass through a loop is one step. The step is given what the
    process, the signature scan and the polling loops reported on that pass
    and answers which loop runs next, the pauses taken (in milliseconds)
    and whether a score was sent. The pollers' own behaviour is modelled in
    `Polling`; here only their answers matter. */
module Supervisor {
  import opened Results
  import opened Text
  import opened Memory
  import opened Structs

  // ---------------------------------------------------------------------
  // Intervals
  // ---------------------------------------------------------------------

  /** A `Duration`, in whole milliseconds. */
  datatype Duration = Millis(ms: nat)

  const U64Max: int := U64Bound - 1

  /** `parse_interval_ms`: the argument parsed as a `u64`, in milliseconds. */
  function ParseIntervalMs(arg: string): (r: Result<Duration, IntError>)
    ensures r.Ok? <==> IsNumeral(arg, false) && NumeralValue(arg, false) <= U64Max
    ensures r.Ok? ==> r.value.ms == NumeralValue(arg, false)
  {
    UnsignedNumeralNonNegative(arg);
    var ms :- ParseInteger(arg, 0, U64Max);
    Ok(Millis(ms))
  }

  /** `parse_interval_secs`: the argument parsed as a `u64`, in seconds. */
  function ParseIntervalSecs(arg: string): (r: Result<Duration, IntError>)
    ensures r.Ok? <==> IsNumeral(arg, false) && NumeralValue(arg, false) <= U64Max
    ensures r.Ok? ==> r.value.ms == 1000 * NumeralValue(arg, false)
  {
    UnsignedNumeralNonNegative(arg);
    var secs :- ParseInteger(arg, 0, U64Max);
    Ok(Millis(1000 * secs))
  }

  /** Printing a count and parsing it back gives that many milliseconds,
      or seconds. */
  lemma IntervalsRoundTrip(n: nat)
    requires n <= U64Max
    ensures ParseIntervalMs(ShowNat(n)) == Ok(Millis(n))
    ensures ParseIntervalSecs(ShowNat(n)) == Ok(Millis(1000 * n))
  {
    ParseShowInt(n, 0, U64Max);
  }

  /** The parsers accept no sign but `+`: a negative count is a parse
      error. */
  lemma NegativeIntervalRejected(i: int)
    requires i < 0
    ensures ParseIntervalMs(ShowInt(i)).Err?
    ensures ParseIntervalSecs(ShowInt(i)).Err?
  {
    assert ShowInt(i)[0] == '-';
  }

  // ---------------------------------------------------------------------
  // Error classes
  // ---------------------------------------------------------------------

  /** After `downcast_ref::<ProcessError>`: `None` when the error is of some
      other type. Only a vanished process and an operating-system error
      (the Windows build) send the supervisor back to attaching. */
  predicate Reattaches(e: Option<ProcessError>)
  {
    e == Some(ProcessNotFound) || e == Some(OsError)
  }

  // ---------------------------------------------------------------------
  // The second reader's supervisor
  // ---------------------------------------------------------------------

  datatype Config = Config(osuPath: Option<string>, errorInterval: Duration)

  /** What `Process::initialize` gave: nothing, or a process with the
      directory of its executable when that is known. */
  datatype Attach = AttachFailed | AttachedTo(executableDir: Option<string>)

  /** What one pass reports: the attach, the signature scan, the wait for a
      play and the two booleans of `playing` and `wait_result_screen`. */
  datatype Pass = Pass(
    attach: Attach,
    addresses: Result<StaticAddresses, Option<ProcessError>>,
    wait: Result<(), Option<ProcessError>>,
    played: bool,
    resultScreen: bool
  )

  datatype Loop = InitLoop | MainLoop | Stopped

  datatype Step = Step(next: Loop, pauses: seq<nat>, scoreSent: bool)

  /** The pauses of a main-loop pass whose wait returned: before the wait,
      after the play and after the result screen. */
  const MainPauses: seq<nat> := [1000, 700, 500]

  /** The game folder: the one given on the command line, else the
      executable's directory. */
  function ChoosePath(provided: Option<string>, executableDir: Option<string>): (r: Option<string>)
    ensures provided.Some? ==> r == provided
    ensures provided.None? ==> r == executableDir
  {
    if provided.Some? then provided else executableDir
  }

  /** One pass of `'init_loop`. A failed attach pauses and retries; a
      missing or absent game folder stops the supervisor with an error; a
      failed scan, whatever its class, pauses and reattaches. */
  function InitStep(cfg: Config, present: string -> bool, p: Pass): (r: Step)
    ensures !r.scoreSent
    ensures r.next == Stopped <==>
      p.attach.AttachedTo? && (ChoosePath(cfg.osuPath, p.attach.executableDir).None? ||
                               !present(ChoosePath(cfg.osuPath, p.attach.executableDir).value))
    ensures r.next == MainLoop <==> r.next != Stopped && p.attach.AttachedTo? && p.addresses.Ok?
    ensures r.next == InitLoop ==> r.pauses == [cfg.errorInterval.ms]
  {
    match p.attach
    case AttachFailed => Step(InitLoop, [cfg.errorInterval.ms], false)
    case AttachedTo(dir) =>
      match ChoosePath(cfg.osuPath, dir)
      case None => Step(Stopped, [], false)
      case Some(path) =>
        if !present(path) then Step(Stopped, [], false)
        else if p.addresses.Err? then Step(InitLoop, [cfg.errorInterval.ms], false)
        else Step(MainLoop, [], false)
  }

  /** One pass of `'main_loop`: pause a second, wait for a play; on an
      error pause and reattach or wait again by its class. Otherwise pause,
      follow the play, always wait for the result screen, pause, and send
      the score when both answered true. */
  function MainStep(cfg: Config, p: Pass): (r: Step)
    ensures r.next != Stopped
    ensures r.scoreSent <==> p.wait.Ok? && p.played && p.resultScreen
    ensures p.wait.Err? ==> (r.next == InitLoop <==> Reattaches(p.wait.error))
    ensures p.wait.Err? ==> r.pauses == [1000, cfg.errorInterval.ms]
    ensures p.wait.Ok? ==> r.next == MainLoop && r.pauses == [1000, 700, 500]
  {
    match p.wait
    case Err(e) =>
      Step(if Reattaches(e) then InitLoop else MainLoop, [1000, cfg.errorInterval.ms], false)
    case Ok(_) =>
      var sent := p.resultScreen && p.played;
      Step(MainLoop, MainPauses, sent)
  }

  datatype Outcome = Outcome(pauses: seq<nat>, scores: nat, stopped: bool)

  /** `controlla` over a finite sequence of passes, starting in `at`. */
  function Controlla(cfg: Config, present: string -> bool, passes: seq<Pass>, at: Loop): (r: Outcome)
    ensures at == Stopped ==> r == Outcome([], 0, true)
    ensures r.scores <= |passes|
    decreases |passes|
  {
    if at == Stopped then Outcome([], 0, true)
    else if |passes| == 0 then Outcome([], 0, false)
    else
      var s := if at == InitLoop then InitStep(cfg, present, passes[0]) else MainStep(cfg, passes[0]);
      var rest := Controlla(cfg, present, passes[1..], s.next);
      Outcome(s.pauses + rest.pauses, (if s.scoreSent then 1 else 0) + rest.scores, rest.stopped)
  }

  /** The pass finds no game folder, or one that is not there. */
  predicate FolderMissing(cfg: Config, present: string -> bool, p: Pass)
  {
    p.attach.AttachedTo? &&
    (ChoosePath(cfg.osuPath, p.attach.executableDir).None? || !present(ChoosePath(cfg.osuPath, p.attach.executableDir).value))
  }

  /** The supervisor gives up only over the game folder: some pass found it
      missing. */
  lemma {:induction false} StopsOnlyOverFolder(cfg: Config, present: string -> bool, passes: seq<Pass>, at: Loop)
    requires at != Stopped
    ensures Controlla(cfg, present, passes, at).stopped ==> exists i :: 0 <= i < |passes| && FolderMissing(cfg, present, passes[i])
    decreases |passes|
  {
    if |passes| > 0 {
      var s := if at == InitLoop then InitStep(cfg, present, passes[0]) else MainStep(cfg, passes[0]);
      if s.next == Stopped {
        assert FolderMissing(cfg, present, passes[0]);
      } else {
        StopsOnlyOverFolder(cfg, present, passes[1..], s.next);
        if Controlla(cfg, present, passes, at).stopped {
          var i :| 0 <= i < |passes[1..]| && FolderMissing(cfg, present, passes[1..][i]);
          assert passes[i + 1] == passes[1..][i];
        }
      }
    }
  }

  /** A game that never starts leads only to error pauses: the attach is
      retried without bound. */
  lemma {:induction false} FailedAttachesOnlyPause(cfg: Config, present: string -> bool, passes: seq<Pass>)
    requires forall i :: 0 <= i < |passes| ==> passes[i].attach == AttachFailed
    ensures Controlla(cfg, present, passes, InitLoop) == Outcome(seq(|passes|, _ => cfg.errorInterval.ms), 0, false)
    decreases |passes|
  {
    if |passes| > 0 {
      assert forall i :: 0 <= i < |passes[1..]| ==> passes[1..][i].attach == AttachFailed by {
        forall i | 0 <= i < |passes[1..]| ensures passes[1..][i].attach == AttachFailed {
          assert passes[1..][i] == passes[i + 1];
        }
      }
      FailedAttachesOnlyPause(cfg, present, passes[1..]);
      assert [cfg.errorInterval.ms] + seq(|passes| - 1, _ => cfg.errorInterval.ms) == seq(|passes|, _ => cfg.errorInterval.ms);
    }
  }

  /** Every score sent comes from a main-loop pass whose play and result
      screen both answered true. */
  lemma {:induction false} ScoresNeedPlayAndResult(cfg: Config, present: string -> bool, passes: seq<Pass>, at: Loop)
    requires forall i :: 0 <= i < |passes| ==> !(passes[i].played && passes[i].resultScreen)
    ensures Controlla(cfg, present, passes, at).scores == 0
    decreases |passes|
  {
    if at != Stopped && |passes| > 0 {
      var s := if at == InitLoop then InitStep(cfg, present, passes[0]) else MainStep(cfg, passes[0]);
      assert forall i :: 0 <= i < |passes[1..]| ==> !(passes[1..][i].played && passes[1..][i].resultScreen) by {
        forall i | 0 <= i < |passes[1..]| ensures !(passes[1..][i].played && passes[1..][i].resultScreen) {
          assert passes[1..][i] == passes[i + 1];
        }
      }
      ScoresNeedPlayAndResult(cfg, present, passes[1..], s.next);
    }
  }

  /** The second reader's `waiting_for_play` only ever returns `Ok` (a
      failed status read panics instead). With every wait answering `Ok`,
      the main loop never goes back to attaching and never stops: each pass
      pauses 1000, 700 and 500 ms. */
  lemma {:induction false} OkWaitsStayInMainLoop(cfg: Config, present: string -> bool, passes: seq<Pass>)
    requires forall i :: 0 <= i < |passes| ==> passes[i].wait.Ok?
    ensures !Controlla(cfg, present, passes, MainLoop).stopped
    ensures Controlla(cfg, present, passes, MainLoop).pauses == seq(3 * |passes|, k => MainPauses[k % 3])
    decreases |passes|
  {
    if |passes| > 0 {
      assert forall i :: 0 <= i < |passes[1..]| ==> passes[1..][i].wait.Ok? by {
        forall i | 0 <= i < |passes[1..]| ensures passes[1..][i].wait.Ok? {
          assert passes[1..][i] == passes[i + 1];
        }
      }
      OkWaitsStayInMainLoop(cfg, present, passes[1..]);
      var rest := seq(3 * (|passes| - 1), k => MainPauses[k % 3]);
      assert MainPauses + rest == seq(3 * |passes|, k => MainPauses[k % 3]) by {
        forall k | 0 <= k < 3 * |passes| ensures (MainPauses + rest)[k] == MainPauses[k % 3] {
          if k >= 3 {
            assert rest[k - 3] == MainPauses[(k - 3) % 3];
          }
        }
      }
    }
  }

  // ---------------------------------------------------------------------
  // The first reader's supervisor
  // ---------------------------------------------------------------------

  /** One pass of its `'init_loop`: a failed attach and a failed scan of any
      class go straight back to attaching, without a pause. */
  function InitStep1(p: Pass): (r: Step)
    ensures r.pauses == [] && !r.scoreSent && r.next != Stopped
    ensures r.next == MainLoop <==> p.attach.AttachedTo? && p.addresses.Ok?
  {
    if p.attach.AttachedTo? && p.addresses.Ok? then Step(MainLoop, [], false)
    else Step(InitLoop, [], false)
  }

  /** One pass of its `'main_loop`: errors are classed as in the second
      reader but without the error pause; after a play it sends nothing and
      does not wait for the result screen. */
  function MainStep1(p: Pass): (r: Step)
    ensures !r.scoreSent && r.next != Stopped
    ensures p.wait.Err? ==> (r.next == InitLoop <==> Reattaches(p.wait.error)) && r.pauses == [1000]
    ensures p.wait.Ok? ==> r.next == MainLoop && r.pauses == [1000, 700]
  {
    match p.wait
    case Err(e) => Step(if Reattaches(e) then InitLoop else MainLoop, [1000], false)
    case Ok(_) => Step(MainLoop, [1000, 700], false)
  }

  /** Both supervisors route a failed wait the same way. */
  lemma WaitErrorsRoutedAlike(cfg: Config, p: Pass)
    requires p.wait.Err?
    ensures MainStep(cfg, p).next == MainStep1(p).next
  {
  }
}
