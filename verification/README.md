# A model of the Cobra osu! memory reader

Cobra watches a running osu! client. It finds a set of static addresses by
signature scanning, then follows pointer chains through the client's memory.
It does two things with what it reads:

- In the menu, it picks up each newly selected beatmap. It reads the beatmap's
  strings, its notes-per-second profile, its tertiary patterns and its
  performance points at four accuracies.
- During and after a play, it watches the status and the retry counter. On the
  result screen it reads the judgement counts, computes the mode-specific
  accuracy and posts a score to a server.

This project models that core in Dafny and proves properties of the model.
There is one module per concern, imported by name:

| module | file | what it holds |
|---|---|---|
| `Results` | results.dfy | `Option` and `Result` with failure propagation |
| `Text` | text.dfy | comma splitting and joining, `str::lines`, Rust's integer parser, decimal printing |
| `Memory` | memory.dfy | the process memory as a snapshot (bytes and string slots), typed little-endian reads, writes, pointer chains |
| `Structs` | structs.dfy | `GameState` and `BeatmapStatus` codes, the `StaticAddresses` constructor over an abstract signature resolver |
| `Nps` | nps.dfy | the `.osu` hit-object reader and the windowed notes-per-second computation |
| `ResultScreen` | result_screen.dfy | the accuracy formula of each mode and the result-screen getters |
| `Gameplay` | gameplay.dfy | the gameplay getters: score, combo, name, mods (XOR of two words), clock, retries |
| `Beatmap` | beatmap.dfy | the five beatmap string getters and the beatmap record |
| `Submission` | submission.dfy | `mods_to_string` and the two JSON bodies (`sendArq`, `send_score`) |
| `Polling` | polling.dfy | the polling loops: waiting for a play, following it, waiting for the result screen, the menu loop |
| `Patterns` | patterns.dfy | `analyze_patterns` over a JSON report |
| `Performance` | performance.dfy | `calc_pp`: four saturating `f64 as i32` casts of an abstract calculator |
| `Supervisor` | supervisor.dfy | the interval parsers and both `controlla` supervisors as step functions |

Conventions:

- A failing read, which the source `unwrap`s, is an `Err` carrying the address
  that failed. Any other panic is an `Err` or a `Panicked` outcome, never a
  value.
- A polling loop is a function over the finite sequence of what its reads
  returned, one element per iteration. A sequence that runs out before the
  loop returns means the loop is still polling.
- Two readers exist in the source: `src/reader/mod.rs` and
  `src/reader.rs` with `src/reader2/`. Where they differ, both are modelled:
  `Playing1`/`Playing2`, `InitStep1`/`InitStep`, `MainStep1`/`MainStep`.

## Model

| member | source | states |
|---|---|---|
| Text.ParseInteger | src/utils/nps.rs:19-21 | Rust's `str::parse` for a bounded integer type accepts exactly an optional sign (`-` only for signed types) followed by digits whose value is in range, and then returns that value |
| Text.ParseShowInt | src/utils/nps.rs:19-21 | printing an in-range integer in decimal and parsing it back returns it |
| Text.SplitJoin | src/utils/nps.rs:17-18 | splitting at commas undoes joining comma-free pieces with commas |
| Text.UnsignedNumeralNonNegative | src/reader.rs:41-44 | a numeral without a minus sign never denotes a negative number |
| Text.LinesOfTerminated | src/utils/nps.rs:29-30 | `lines` of newline-terminated line-break-free lines gives those lines back |
| Text.SplitOn | src/utils/nps.rs:17-18 | `split` gives at least one piece, no piece holds the separator, and joining the pieces with it gives the text back |
| Text.Lines | src/utils/nps.rs:29-30 | no line returned by `lines` holds a newline |
| Memory.ReadI32 | src/reader2/reader_gameplay.rs:55-56 | an `i32` read succeeds exactly when its four bytes are mapped, yields a value in the `i32` range, and reports the address on failure |
| Memory.ReadU64 | src/reader2/reader_gameplay.rs:17-18 | a `u64` read succeeds exactly when its eight bytes are mapped and yields a value below 2^64 |
| Memory.ReadI16 | src/reader2/reader_resultscreen.rs:27 | an `i16` read succeeds exactly when its two bytes are mapped, yields a value in the `i16` range, and reports the address on failure |
| Memory.ReadU32 | src/reader2/init_reading.rs:33 | a `u32` read succeeds exactly when its four bytes are mapped, yields a value below 2^32, and reports the address on failure |
| Memory.ReadString | src/reader/reader_beatmap.rs:10 | a string read succeeds exactly when a string is stored at the address and returns it |
| Memory.ReadWrittenI16 | src/reader2/reader_resultscreen.rs:27 | an `i16` stored little-endian reads back unchanged |
| Memory.ReadWrittenI32 | src/reader2/reader_resultscreen.rs:14 | an `i32` stored little-endian reads back unchanged |
| Memory.ReadWrittenU64 | src/reader2/reader_gameplay.rs:17-18 | a `u64` stored little-endian reads back unchanged |
| Memory.ReadI16AfterDisjointWrite | src/reader2/reader_resultscreen.rs:23-58 | storing into one 2-byte hit-count slot leaves a read of a disjoint slot unchanged |
| Memory.FollowChain | src/reader2/reader_resultscreen.rs:5-7 | a successful chain visits one address per offset, the first at the base plus the first offset; a failure names an address whose pointer cannot be read |
| Memory.FollowChainWalk | src/reader2/reader_resultscreen.rs:5-7 | every visited pointer was readable, each address after the first is the pointer read at the one before plus the next offset, and the chain ends at the last pointer read |
| Memory.ChainFrame | src/reader2/reader_gameplay.rs:4-9 | a chain depends only on the four bytes of each pointer it dereferenced |
| Memory.ChainFollowsDerefs | src/reader2/reader_gameplay.rs:4-9 | a chain whose pointers are all readable succeeds and ends at the last pointer read |
| Memory.ChainReadsTarget | src/reader2/reader_resultscreen.rs:4-58 | once a chain ends at an object, the chained read is the plain typed read at the object plus the field offset |
| Memory.ChainIgnoresStrings | src/reader/reader_beatmap.rs:8-9 | pointer chains read bytes only, never the string slots |
| Memory.ChainString | src/reader/reader_beatmap.rs:7-11 | a string read behind a chain succeeds exactly when the chain succeeds and a string is stored at its end plus the field offset, and returns that string |
| Structs.GameStateFrom | src/reader/structs.rs:104-118 | `GameState::from` is total: a code with a named state gives that state, and every other `u32` gives `Unknown` |
| Structs.GameStateRoundTrip | src/reader/structs.rs:88-102 | every state, `Unknown` (implicit discriminant 15) included, survives the trip through its discriminant |
| Structs.GameStateCodeRoundTrip | src/reader/structs.rs:88-118 | a code survives the reverse trip exactly when it is a named code or 15 |
| Structs.BeatmapStatusFrom | src/reader/structs.rs:135-148 | codes 1 to 7 name a status, and 0, negative codes and codes above 7 give `Unknown` |
| Structs.BeatmapStatusRoundTrip | src/reader/structs.rs:121-133 | every status survives the trip through its `i16` discriminant 0 to 7 |
| Structs.ResolveAll | src/reader/structs.rs:33-65 | the signatures resolved in order succeed exactly when each resolves; the values are the answers in signature order; a failure carries the error of the first signature that fails |
| Structs.NewStaticAddresses | src/reader/structs.rs:33-65 | succeeds exactly when all ten signatures resolve; each field is the resolver's answer for its own signature; a failure is the error of the first signature that fails |
| Nps.ReadNote | src/utils/nps.rs:16-25 | the note is the third comma field parsed as an `i32`; fewer than three fields is `MissingStartTime`, and a bad third field is an error |
| Nps.ReadNoteOfRendered | src/utils/nps.rs:16-21 | a line `x,y,time,...` reads back as `time` |
| Nps.ReadNoteTwoFields | src/utils/nps.rs:22-23 | a line of two fields is rejected |
| Nps.FirstIndexOf | src/utils/nps.rs:32-36 | the index of the first `[HitObjects]` line, with no earlier match |
| Nps.NotesOf | src/utils/nps.rs:38-41 | only lines that read as notes contribute, and every note is an `i32` |
| Nps.NotesOfSnoc | src/utils/nps.rs:38-41 | a line that fails to read is dropped and a line that reads adds its note at the end |
| Nps.CollectNotes | src/utils/nps.rs:27-45 | the flag-driven filter loop yields the notes of exactly the lines after the first `[HitObjects]` line |
| Nps.ParseHitObjects | src/utils/nps.rs:27-45 | never fails, and returns the notes of the hit-object section in order |
| Nps.PartitionPoint | src/utils/nps.rs:67 | on sorted times, the binary search splits them into those below the bound and those at or above it |
| Nps.CountBelowAtPartition | src/utils/nps.rs:67-68 | the partition point is the number of times below the bound |
| Nps.CollectWindows | src/utils/nps.rs:61-80 | the window loop produces exactly the reference sequence of windows |
| Nps.Windows | src/utils/nps.rs:61-80 | the reference windows: there are none exactly when the first note is not before the last, and otherwise the first starts at the first note |
| Nps.NpsWindows | src/utils/nps.rs:47-83 | the reference result: the empty-timings error exactly for no notes, the interval error exactly for a non-positive width, otherwise at least one window, starting at the first note |
| Nps.CalculateAverageNotesPerSecond | src/utils/nps.rs:47-83 | the computation agrees with the reference definition of the windows, errors included |
| Nps.NpsErrors | src/utils/nps.rs:48-59 | empty times give the empty-timings error and nothing else does; a non-positive window width gives the interval error; success needs the first note before the last |
| Nps.WindowMeaning | src/utils/nps.rs:66-76 | window `j` starts `j` steps after the first note, and its value is a non-negative density equal to the notes in it per second of width |
| Nps.WindowsKeys | src/utils/nps.rs:62-79 | window keys start at the first note, advance by the step and stay below the last note |
| Nps.WindowsValues | src/utils/nps.rs:66-71 | every value is the count of notes in its window divided by the width in seconds |
| Nps.NpsWindowShape | src/utils/nps.rs:62-79 | keys start at the first timing, each is the previous plus `floor(interval_ms)`, and all are within [first, last) |
| Nps.NpsWindowValues | src/utils/nps.rs:66-71 | every value is non-negative and is its window's note count per second |
| Nps.WindowCountsTelescope | src/utils/nps.rs:65-79 | windows laid end to end count every note from the first key to the end of the last window |
| Nps.LastWindowEnd | src/utils/nps.rs:65-78 | the last window ends at or after the last note, and exactly on it when the span is a multiple of the step |
| Nps.NpsCountsAllNotesUnlessLastOnBoundary | src/utils/nps.rs:65-79 | the counts add up to every note, except that notes exactly on the final window end (the last note when the span divides evenly) are missed |
| Nps.NpsFourNotesExample | src/utils/nps.rs:47-83 | notes at 1000, 1500, 2000 and 2500 at frequency 100 give the single window (1000, 2.0), so the note at 2500 is not counted |
| Nps.NpsErrorExamples | src/utils/nps.rs:48-59 | one note, a negative frequency and no notes are all errors |
| Nps.GetNps | src/utils/nps.rs:85-95 | parsing never fails, so every error comes from the computation, and the result is the windows of the file's notes |
| Nps.ShortSpanNeverAdvances | src/utils/nps.rs:54-66 | at frequency 1.0, a span between the first and last note of less than 100 ms gives a width strictly between 0 and 1 ms, which truncates to a step of 0, so the window loop never advances |
| ResultScreen.CalculateAccuracy | src/reader2/reader_resultscreen.rs:60-93 | a mode above 3 is the panic; an `i16` overflow in a count sum is the panic; otherwise there is a value exactly when the denominator is non-zero, and a zero denominator is the non-finite error |
| ResultScreen.TallyTotals | src/reader2/reader_resultscreen.rs:69-88 | each mode's numerator and denominator are its scale times the credit earned and times the judgements counted |
| ResultScreen.AccuracyOfFormula | src/reader2/reader_resultscreen.rs:69-88 | once the sums fit, the accuracy is the formula's numerator over its denominator |
| ResultScreen.FormulaIsMean | src/reader2/reader_resultscreen.rs:69-88 | each formula is the mean credit per counted judgement (standard 1, 1/3, 1/6; taiko 1, 1/2, 50s earn nothing; catch 1 for fruit; mania 1, 2/3, 1/3, 1/6) |
| ResultScreen.AccuracyIsWeightedMean | src/reader2/reader_resultscreen.rs:60-93 | the accuracy is defined exactly when the mode counts at least one judgement, and is then the weighted mean |
| ResultScreen.EarnedBounds | src/reader2/reader_resultscreen.rs:69-88 | credit weights in [0, 1] earn between nothing and one per judgement |
| ResultScreen.AccuracyInUnitInterval | src/reader2/reader_resultscreen.rs:69-88 | with non-negative counts, the accuracy of modes 0 to 3 lies in [0, 1] |
| ResultScreen.OnlyGreatsIsPerfect | src/reader2/reader_resultscreen.rs:70-88 | a play of only 300s is exactly 1 in every mode |
| ResultScreen.TaikoFiftyEarnsNothing | src/reader2/reader_resultscreen.rs:74-77 | taiko's numerator leaves out the 50s as written: one 300 and one 50 give 0.5 |
| ResultScreen.ResultMode | src/reader2/reader_resultscreen.rs:16-21 | the mode is the `i32` at +0x64 truncated to its low 8 bits, failing exactly when that read fails |
| ResultScreen.ResultScore | src/reader2/reader_resultscreen.rs:10-15 | the score is an `i32` |
| ResultScreen.ResultHit300 | src/reader2/reader_resultscreen.rs:23-28 | the 300 count is an `i16` |
| ResultScreen.ResultMaxCombo | src/reader2/reader_resultscreen.rs:105-110 | the max combo is an `i16` |
| ResultScreen.ResultUsername | src/reader2/reader_resultscreen.rs:4-9 | the name is the string at +0x28 of the object behind -0xb, +0x4, +0x38, failing exactly when the chain or the string read fails |
| ResultScreen.ResultHit100 | src/reader2/reader_resultscreen.rs:29-34 | the 100 count is an `i16` |
| ResultScreen.ResultHit50 | src/reader2/reader_resultscreen.rs:35-40 | the 50 count is an `i16` |
| ResultScreen.ResultHitGeki | src/reader2/reader_resultscreen.rs:41-46 | the geki count is an `i16` |
| ResultScreen.ResultHitKatu | src/reader2/reader_resultscreen.rs:47-52 | the katu count is an `i16` |
| ResultScreen.ResultHitMiss | src/reader2/reader_resultscreen.rs:53-58 | the miss count is an `i16` |
| ResultScreen.GetResultAccuracy | src/reader2/reader_resultscreen.rs:94-104 | an accuracy is returned only when the mode read is 0 to 3 |
| ResultScreen.ResultGettersReadLayout | src/reader2/reader_resultscreen.rs:4-21 | on a result screen, name, score, mode and max combo come from +0x28, +0x78, +0x64 (low byte) and +0x68 of the object behind -0xb, +0x4, +0x38 |
| ResultScreen.ResultHitsReadLayout | src/reader2/reader_resultscreen.rs:23-58 | the hit counts come from their own 2-byte slots: 100@0x88, 300@0x8A, 50@0x8C, geki@0x8E, katu@0x90, miss@0x92 |
| ResultScreen.ResultAccuracyReadsLayout | src/reader2/reader_resultscreen.rs:94-104 | on a result screen, the accuracy is the formula applied to the stored mode byte and counts |
| Gameplay.GameplayScore | src/reader2/reader_gameplay.rs:4-10 | the gameplay score is an `i32` |
| Gameplay.GameplayCombo | src/reader2/reader_gameplay.rs:22-28 | the combo is an `i16` |
| Gameplay.GameplayMaxCombo | src/reader2/reader_gameplay.rs:30-36 | the max combo is an `i16` |
| Gameplay.GameplayUsername | src/reader2/reader_gameplay.rs:46-52 | the name is the string at +0x28 behind -0xb, +0x4, +0x68, +0x38, failing exactly when the chain or the string read fails |
| Gameplay.GetMods | src/reader2/reader_gameplay.rs:12-20 | the mask is read exactly when the chain -0xb, +0x4, +0x38, +0x1C succeeds and both words behind it can be read |
| Gameplay.ModsAt | src/reader2/reader_gameplay.rs:17-19 | the mask of an object is read exactly when both its `u64` words, at +0xc and +0x8, can be read |
| Gameplay.GameplayGettersReadLayout | src/reader2/reader_gameplay.rs:4-52 | score, combo, max combo and name share the chain -0xb, +0x4, +0x68, +0x38 and read +0x78, +0x94, +0x68 and +0x28 |
| Gameplay.ModsSymmetric | src/reader2/reader_gameplay.rs:17-19 | the mask does not depend on which word is read first |
| Gameplay.ModsOfEqualWords | src/reader2/reader_gameplay.rs:17-19 | equal words give the mask 0 |
| Gameplay.ModsFromLowHalves | src/reader2/reader_gameplay.rs:19 | the `as u32` cast keeps only the low halves: the mask is the XOR of the low 32 bits |
| Gameplay.ModsRecoverWord | src/reader2/reader_gameplay.rs:17-19 | XOR-ing the mask with one word's low half recovers the other's |
| Gameplay.GetModsReadsLayout | src/reader2/reader_gameplay.rs:12-20 | behind -0xb, +0x4, +0x38, +0x1C the mask is the XOR of the `u64`s at +0xc and +0x8, cut to 32 bits |
| Gameplay.GetIgTime | src/reader2/reader_gameplay.rs:54-57 | the clock is one dereference at playtime+0x5 followed by one `i32` read, failing exactly when either fails |
| Gameplay.GetRetries | src/reader2/reader_gameplay.rs:59-62 | the retry count is the `i32` at +0x8 behind base-0x33, failing exactly when either read fails |
| Beatmap.BeatmapGettersReadLayout | src/reader/reader_beatmap.rs:7-35 | behind base-0xC and one more dereference, md5, author, title, creator and difficulty come from +0x6c, +0x18, +0x24, +0x7C and +0xAC |
| Beatmap.GetBeatmapMd5 | src/reader/reader_beatmap.rs:7-11 | the md5 is the string at +0x6c behind base-0xC and one more dereference, failing exactly when the chain or the string read fails |
| Beatmap.GetAuthor | src/reader/reader_beatmap.rs:14-18 | the author is the string at +0x18 behind the same chain, failing exactly when the chain or the string read fails |
| Beatmap.GetCreator | src/reader/reader_beatmap.rs:20-24 | the creator is the string at +0x7C behind the same chain, failing exactly when the chain or the string read fails |
| Beatmap.GetTitle | src/reader/reader_beatmap.rs:26-30 | the title is the string at +0x24 behind the same chain, failing exactly when the chain or the string read fails |
| Beatmap.GetDifficulty | src/reader/reader_beatmap.rs:31-35 | the difficulty name is the string at +0xAC behind the same chain, failing exactly when the chain or the string read fails |
| Beatmap.PlacedTextReadsBack | src/reader/reader_beatmap.rs:7-35 | the five slots are distinct: any five strings stored read back each from its own getter |
| Beatmap.GetBeatmap | src/reader/reader_beatmap.rs:37-48 | the record has link "", download progress 0 and the default cover, and its md5 is what the md5 getter reads |
| Beatmap.GetBeatmapFields | src/reader/reader_beatmap.rs:37-48 | song is the title, author the author, creator the creator, difficulties the difficulty name and md5 the md5 |
| Submission.ModNames | src/reader2/init_reading.rs:80-91 | there is at most one name per table entry |
| Submission.ModNamesMembers | src/reader2/init_reading.rs:83-90 | a name is listed exactly when some entry with that name has a bit in the mask and is not "NC" |
| Submission.ModNamesAppend | src/reader2/init_reading.rs:83-91 | names are collected entry by entry, in table order |
| Submission.NightcoreNeverListed | src/reader2/init_reading.rs:85-87 | "NC" is never rendered, whatever the mask |
| Submission.NoModsRenderEmpty | src/reader2/init_reading.rs:80-95 | mask 0 renders "" |
| Submission.ModsToString | src/reader2/init_reading.rs:80-95 | with a comma-free table and at least one listed name, splitting the text at commas gives back exactly the listed names, in order |
| Submission.NoStrayComma | src/reader2/init_reading.rs:93 | with non-empty comma-free names, the text has no leading or trailing comma |
| Submission.RenderMods | src/reader2/init_reading.rs:80-95 | the loop of `mods_to_string` computes the joined names |
| Submission.RequestBodyDecodes | src/reader2/init_reading.rs:69 | with a quote-free token and md5, the pieces 3 and 9 of the body cut at its quotes are the token and the md5 |
| Submission.RequestBody | src/reader2/init_reading.rs:69 | with a quote-free token and md5, the body cut at its quotes gives back the template's pieces |
| Submission.RequestBodyInjective | src/reader2/init_reading.rs:69 | quote-free tokens and md5s give distinct bodies |
| Submission.SendArq | src/reader2/init_reading.rs:65-69 | no stored token is the `unwrap` panic; otherwise a body is built exactly when the md5 read succeeds |
| Submission.SendArqNamesBeatmap | src/reader2/init_reading.rs:65-69 | on a selected beatmap the request names the token and that beatmap's md5 |
| Submission.HitsFollowRenameTable | src/reader2/init_reading.rs:104-109 | marvelous is geki, perfect 300, great katu, good 100, bad 50 and miss miss, as in the score record's rename table |
| Submission.NumberTextDecodes | src/reader2/init_reading.rs:99 | every `i32` written into the template reads back from its piece |
| Submission.ScoreBody | src/reader2/init_reading.rs:98-112 | when the spliced texts hold no quote, the score body cut at its quotes gives back the template's pieces |
| Submission.ScorePiecesQuoteFree | src/reader2/init_reading.rs:98-112 | when the spliced token, md5, accuracy and mods hold no quote, no piece of the score template holds one |
| Submission.CobraHitPiecesDecode | src/reader2/init_reading.rs:104-109 | the k-th hit key is the k-th rename-table name, and its value reads back as that count |
| Submission.SendScore | src/reader2/init_reading.rs:96-112 | no token is the `unwrap` panic; a body is built only when the accuracy and the mods were read |
| Submission.CombineReads | src/reader2/init_reading.rs:99-112 | a body is built exactly when the token and every read succeed |
| Submission.SendScoreOfReads | src/reader2/init_reading.rs:98-112 | given each getter's result, the body is the template filled with them, with accuracy times 100 and the rendered mods |
| Submission.SendScoreReadsLayout | src/reader2/init_reading.rs:96-112 | on a result screen over a selected beatmap, the body carries that beatmap's md5 and the screen's values |
| Polling.GetStatus | src/reader2/init_reading.rs:31-34 | the status is the `u32` behind status-0x4, failing exactly when either read fails |
| Polling.StateAt | src/reader2/init_reading.rs:13 | the state is known exactly when the status read succeeds |
| Polling.AwaitPlaying | src/reader2/init_reading.rs:9-18 | when the wait returns, it stops at a read of Playing |
| Polling.AwaitPlayingReturns | src/reader2/init_reading.rs:9-18 | the wait returns exactly when some read is Playing and every earlier read succeeded |
| Polling.WaitResultScreen | src/reader2/init_reading.rs:19-30 | a failing first read is the panic |
| Polling.WaitResultScreenDecides | src/reader2/init_reading.rs:19-30 | after the spin over Playing, the next fresh read alone decides: true exactly when it is the result screen |
| Polling.ResultScreenMissedByReread | src/reader2/init_reading.rs:21-28 | leaving the play onto the result screen still answers false when the status has moved on by the second read |
| Polling.PauseStep | src/reader2/init_reading.rs:50-55 | the recorded pause changes exactly when the clock advanced by less than 20, both times are positive and the time differs from the pause, and it then becomes the current time |
| Polling.PlayLoop | src/reader2/init_reading.rs:49-62 | the pause the loop ends with is the one it started from or the clock reading of one of its iterations |
| Polling.FirstStop | src/reader2/init_reading.rs:49-61 | the iteration at which the loop stops: every earlier iteration goes on |
| Polling.PlayLoopStopsAt | src/reader2/init_reading.rs:49-62 | the outcome is decided by the first iteration that does not go on |
| Polling.PlayLoopOutcome | src/reader2/init_reading.rs:49-62 | `playing` answers false exactly when a reached Playing iteration reads retries above 0, and true exactly when a reached iteration leaves Playing |
| Polling.PlayLoopIgnoresClock | src/reader2/init_reading.rs:50-55 | the times read never affect the outcome, only whether the clock could be read |
| Polling.PausedIsAClockReading | src/reader2/init_reading.rs:50-55 | the recorded pause is the initial value or a positive clock reading of some iteration |
| Polling.Playing2 | src/reader2/init_reading.rs:41-63 | the request is sent exactly when the mods read and the request's reads succeed, and then the loop runs from a zero clock |
| Polling.Playing2Request | src/reader2/init_reading.rs:47-48 | the request names the token and the beatmap selected when the play starts |
| Polling.Playing1 | src/reader/mod.rs:255-275 | a failed mods read panics, and an answer needs the mods read to succeed |
| Polling.PlayingReadersAgree | src/reader/mod.rs:255-275 | once the second reader's request is built, both readers follow the play to the same end |
| Polling.WaitLoop | src/reader/mod.rs:57-164 | the loop hands on at most one beatmap per iteration |
| Polling.WaitingForPlay | src/reader/mod.rs:57-78 | starting from the empty record, a first iteration that is not Playing, reads a non-empty md5 and reads the record and the files hands that record on first |
| Polling.WaitLoopStops | src/reader/mod.rs:69-86 | a loop still waiting read a non-Playing status and an md5 in every iteration; a loop that returned read Playing in some iteration |
| Polling.HandedOnIsHarvested | src/reader/mod.rs:74-86 | every reached iteration whose md5 differs from the remembered record's, with the record and the files read, hands that record on |
| Polling.UnchangedTickHandsNothing | src/reader/mod.rs:74 | a reached iteration whose md5 equals the remembered record's can be removed without changing what the loop does |
| Polling.MemoryBeforeFirstHandOn | src/reader/mod.rs:58-67 | until the first hand-on the remembered md5 is the initial one |
| Polling.MemoryAfterHandOn | src/reader/mod.rs:76-78 | between two hand-ons the remembered md5 is that of the record handed on last |
| Polling.SnapshotTickConsistent | src/reader/mod.rs:74-76 | when the md5 read again while the record is built equals the md5 compared, the record carries that md5 |
| Polling.HarvestsChangeBeatmap | src/reader/mod.rs:58-78 | the md5 compared at each hand-on differs from the md5 of the record handed on before it, and at the first hand-on from "" |
| Polling.RecordMd5CanRepeat | src/reader/mod.rs:74-78 | two iterations whose md5 reads differ from the record's md5, with the same record read, hand that record on twice |
| Polling.SteadySelectionHarvestsOnce | src/reader/mod.rs:74-78 | while the selection does not change, at most one beatmap is handed on, and none if it was already the last one |
| Polling.HarvestsComeFromTicks | src/reader/mod.rs:74-86 | everything handed on was read, with its files, in one iteration |
| Polling.WaitFailureIsAssetError | src/reader/mod.rs:80-86 | the loop fails with an error only when some file lookup failed with it |
| Polling.WaitStopsAtPlay | src/reader/mod.rs:69-72 | a Playing status returns at once: nothing after it is read, and neither the md5 nor the files of that iteration |
| Patterns.Get | src/reader/mod.rs:32-34 | `get` finds a field stored under the key, and `None` on an object means no field has that key |
| Patterns.PositiveWeights | src/reader/mod.rs:36-40 | exactly the numeric fields above zero are kept, with their values |
| Patterns.SortDescending | src/reader/mod.rs:42 | the sort is a permutation into non-increasing weight |
| Patterns.SortedHeadIsMax | src/reader/mod.rs:42-45 | after sorting, the first weight is the largest |
| Patterns.KeepAtLeastMembers | src/reader/mod.rs:46-48 | the filter keeps exactly the elements that reach the bound |
| Patterns.KeepAtLeastNonIncreasing | src/reader/mod.rs:46-48 | filtering keeps the order |
| Patterns.KeepTopMeaning | src/reader/mod.rs:42-50 | over positive weights, the result is empty exactly when there are none; what is kept reaches 0.8 of the largest weight, everything that does is kept, and a largest weight comes first |
| Patterns.KeepTopOrdered | src/reader/mod.rs:42-50 | the kept pairs are in non-increasing weight |
| Patterns.AnalyzePatterns | src/reader/mod.rs:29-55 | the names are those of the kept pairs, in order |
| Patterns.NothingWithoutPositiveWeight | src/reader/mod.rs:29-55 | no object under "TertiaryPattern", or no positive number in it, gives no names |
| Patterns.ReturnedNamesQualify | src/reader/mod.rs:36-50 | every returned name is a field whose number is positive and at least 0.8 of the largest |
| Patterns.StrongestPatternFirst | src/reader/mod.rs:42-50 | when a positive weight exists, the name of a largest weight comes first |
| Performance.SaturateToI32 | src/reader/mod.rs:175 | `f64 as i32` truncates toward zero and saturates at the `i32` bounds |
| Performance.SaturateMonotone | src/reader/mod.rs:175-183 | the cast keeps the order of its inputs |
| Performance.CalcPp | src/reader/mod.rs:166-186 | the beatmap load is the `unwrap` that fails; otherwise exactly four `i32` values |
| Performance.CalcPpEntries | src/reader/mod.rs:172-183 | entry i is the calculator's value at the i-th accuracy of 95, 98, 99, 100, truncated |
| Performance.CalcPpOrdered | src/reader/mod.rs:166-186 | when more accuracy never means fewer points, the four values do not decrease |
| Supervisor.ParseIntervalMs | src/reader.rs:41-44 | succeeds exactly for an unsigned decimal numeral (optional `+`) within `u64`, giving that many milliseconds |
| Supervisor.ParseIntervalSecs | src/reader.rs:46-49 | succeeds exactly for an unsigned decimal numeral within `u64`, giving 1000 times that many milliseconds |
| Supervisor.IntervalsRoundTrip | src/reader.rs:41-49 | a printed count parses back as that many milliseconds or seconds |
| Supervisor.NegativeIntervalRejected | src/reader.rs:41-49 | a negative count is a parse error |
| Supervisor.ChoosePath | src/reader.rs:82-99 | a provided path overrides the executable's directory |
| Supervisor.InitStep | src/reader.rs:68-137 | the supervisor stops exactly when the attach succeeded but no folder is known or it is absent; it moves to the main loop exactly when the attach and the scan succeed; a retry pauses for the error interval |
| Supervisor.MainStep | src/reader.rs:140-172 | a score is sent exactly when the wait succeeded and both `playing` and `wait_result_screen` answered true; a failed wait reattaches exactly for ProcessNotFound or OsError |
| Supervisor.Controlla | src/reader.rs:68-172 | a stopped supervisor does nothing more, and it sends at most one score per pass |
| Supervisor.OkWaitsStayInMainLoop | src/reader.rs:140-172 | while every wait succeeds the supervisor never stops, and each pass pauses 1000, 700 and 500 ms, in that order |
| Supervisor.StopsOnlyOverFolder | src/reader.rs:82-113 | the supervisor gives up only when some pass found no game folder |
| Supervisor.FailedAttachesOnlyPause | src/reader.rs:69-76 | a game that never starts leads only to error pauses, one per attempt, without bound |
| Supervisor.ScoresNeedPlayAndResult | src/reader.rs:164-171 | without a pass where both answers are true, no score is ever sent |
| Supervisor.InitStep1 | src/reader/mod.rs:198-223 | a failed attach and a failed scan of any class reattach at once, without a pause |
| Supervisor.MainStep1 | src/reader/mod.rs:226-251 | a failed wait reattaches exactly for ProcessNotFound or OsError; nothing is ever sent |
| Supervisor.WaitErrorsRoutedAlike | src/reader/mod.rs:230-245 | both supervisors route a failed wait the same way |

## Left out

- Process attachment, signature scanning and string decoding belong to the
  memory library. Attachment and scanning are inputs: `Pass.attach` and the
  resolver of `NewStaticAddresses`. Strings are a separate map of string
  slots in the snapshot.
- The UI is left out: Slint handles, the cover image decoding, and the f32
  average and maximum of the NPS values in `waiting_for_play`. So are the
  worker thread, rayon joins and every sleep except as a recorded pause
  length. The HTTP transport is left out too: the bodies are modelled, not
  their sending.
- `get_beatmap_path`, `get_cover_path`, `get_audio_path` and `reader_common` are
  not part of this model. Their result is an input `Result<Assets, E>` of
  each menu iteration. The `get_status` of `reader_common` is taken to be
  reader2's.
- The first reader's `reader_gameplay` is not part of this model either. Its
  `get_mods`, `get_ig_time` and `get_retries` are taken to be reader2's.
- `src/reader/mod.rs:74,76` apply `?` to getters that return a plain
  `String` and `MapData` and panic on failure. That does not type-check as
  written. The model reads it as the panic (`Crashed`).
- The global token is a parameter (`Option<string>`), and `None` is the
  `unwrap` panic.
- The `MODS` table is a parameter.
- The rosu-pp calculator inside `calc_pp` is a parameter `pp(map, accuracy)`.
- Floating point is exact `real`. Consequences:
  - `Patterns`: the 0.8 threshold and the weights are exact reals.
  - `Nps`: the interval width and densities are exact reals.
  - The accuracy text inside the score body is a parameter `show: real -> string`.
- Nps.CalculateAverageNotesPerSecond and Nps.GetNps require `Computable`:
  - sorted `i32` times, because `partition_point` is only meaningful on
    sorted input;
  - a truncated width of at least 1 ms, because below that the loop never
    advances;
  - window ends that do not overflow `i32`.

  The source gives an unspecified result, loops forever or panics outside
  those conditions.
- Nps.GetNps: `waiting_for_play` calls `get_nps` with frequency 1.0, so any
  beatmap whose notes span less than 100 ms is outside `Computable`, and the
  source's window loop spins forever on it (`ShortSpanNeverAdvances`). The
  model does not give that call a result.
- For the four notes at 1000, 1500, 2000 and 2500 at frequency 100, the
  code's own window arithmetic gives one window with three notes (2.0 notes
  per second). The note on the window end is not counted, and
  `NpsFourNotesExample` follows the code.
- Patterns.SortDescending: stability of `sort_by` among equal weights is not
  stated. Only the permutation and the order are proved, so names of equal
  weight may appear in either order in the model's statements.
- Polling.PauseStep: the `i32` subtraction `cur_time - last_time` wraps
  (a release build). A debug build would panic on overflow instead.
- ResultScreen.CalculateAccuracy: an `i16` overflow in a count sum is the
  debug build's panic, while `Polling.PauseStep` and `Nps` follow the release
  build's wrapping. The release build would wrap the sum and divide anyway.
- ResultScreen.CalculateAccuracy: a zero denominator gives the error
  `NonFinite`. The source divides `f64`s and gets NaN or an infinity there.
- Submission.SendScore: with a non-finite accuracy no body is built. The
  source formats NaN or inf into the body and posts it.
- Memory.FollowChain: addresses are unbounded integers. The source adds
  offsets to `i32` pointers, which would wrap or panic near the `i32` bounds.
  The signature resolver's addresses are unbounded for the same reason.
- Polling.HarvestsChangeBeatmap compares the freshly read md5 with the md5 of
  the record handed on before it, as the source does. The record's own md5
  is read separately and may repeat: `RecordMd5CanRepeat` hands the same
  record on twice.
- Polling.SteadySelectionHarvestsOnce and Polling.SnapshotTickConsistent
  assume each iteration's record carries the md5 that was compared. The
  record's five reads are modelled as one later snapshot, and the source does
  not guarantee the selection stays put in between.
- The send results of `sendArq` and `send_score` are not modelled.
  `send_score` always returns true, and nothing reads its value.
- `OsError` routing follows the Windows build (`#[cfg(target_os =
  "windows")]`). On other targets that arm does not exist and OsError falls
  into the catch-all.
- Supervisor.MainStep takes the answers of `waiting_for_play`, `playing` and
  `wait_result_screen` as booleans and errors of the pass. The pollers
  themselves are modelled in `Polling`, and their panics would end the
  thread rather than return. Reader2's `waiting_for_play` never returns an
  error, since every failed read panics, so the error arm is reachable only
  through the first reader's loop; `OkWaitsStayInMainLoop` covers the other
  case.
- Supervisor: the `interval` argument is parsed but only printed, so it has
  no effect beyond `ParseIntervalMs`.
- Gameplay: `get_current_hp` (an `f64` read) is left out, as is floating
  point in general.
- Gameplay.GameplayScore, Gameplay.GameplayCombo, Gameplay.GameplayMaxCombo,
  ResultScreen.ResultScore, ResultScreen.ResultHit300,
  ResultScreen.ResultHit100, ResultScreen.ResultHit50,
  ResultScreen.ResultHitGeki, ResultScreen.ResultHitKatu,
  ResultScreen.ResultHitMiss and ResultScreen.ResultMaxCombo state only the
  range in their own contract.
  Their field offsets are stated by the `...ReadsLayout` lemmas.
