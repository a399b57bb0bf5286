/** Shared records of the reader: the game-state and beatmap-status codes,
    the ten static addresses found by signature scanning, and the error
    classes the memory library reports. */
module Structs {
  import opened Results
  import opened Memory

  // ---------------------------------------------------------------------
  // Game state
  // ---------------------------------------------------------------------

  datatype GameState =
    | PreSongSelect
    | Playing
    | SongSelect
    | EditorSongSelect
    | ResultScreen
    | MultiplayerLobbySelect
    | MultiplayerLobby
    | MultiplayerResultScreen
    | Unknown

  /** The `u32` discriminants of the enum. `Unknown` has no explicit value
      and follows `MultiplayerResultScreen = 14`, so it is 15. */
  function GameStateCode(s: GameState): nat
  {
    match s
    case PreSongSelect => 0
    case Playing => 2
    case SongSelect => 5
    case EditorSongSelect => 4
    case ResultScreen => 7
    case MultiplayerLobbySelect => 11
    case MultiplayerLobby => 12
    case MultiplayerResultScreen => 14
    case Unknown => 15
  }

  /** The enum's derived default. */
  const DefaultGameState: GameState := Unknown

  /** The codes with a named state of their own. */
  predicate IsNamedGameStateCode(code: int)
  {
    code == 0 || code == 2 || code == 4 || code == 5 || code == 7 || code == 11 || code == 12 || code == 14
  }

  /** `GameState::from(u32)`: total, never fails; a code without a named
      state gives `Unknown`, and a named state has exactly its code. */
  function GameStateFrom(code: int): (s: GameState)
    requires 0 <= code < U32Bound
    ensures s == Unknown <==> !IsNamedGameStateCode(code)
    ensures s != Unknown ==> GameStateCode(s) == code
  {
    match code
    case 0 => PreSongSelect
    case 2 => Playing
    case 4 => EditorSongSelect
    case 5 => SongSelect
    case 7 => ResultScreen
    case 11 => MultiplayerLobbySelect
    case 12 => MultiplayerLobby
    case 14 => MultiplayerResultScreen
    case _ => Unknown
  }

  /** Every state, `Unknown` included, survives the trip through its code. */
  lemma GameStateRoundTrip(s: GameState)
    ensures GameStateFrom(GameStateCode(s)) == s
  {
  }

  /** The converse trip: a code comes back unchanged exactly when it is a
      named code or the default's own code 15. */
  lemma GameStateCodeRoundTrip(code: int)
    requires 0 <= code < U32Bound
    ensures GameStateCode(GameStateFrom(code)) == code <==> IsNamedGameStateCode(code) || code == 15
  {
  }

  // ---------------------------------------------------------------------
  // Beatmap ranked status
  // ---------------------------------------------------------------------

  datatype BeatmapStatus =
    | StatusUnknown
    | Unsubmitted
    | Unranked
    | Unused
    | Ranked
    | Approved
    | Qualified
    | Loved

  /** The `i16` discriminants, 0 to 7 in declaration order. */
  function BeatmapStatusCode(s: BeatmapStatus): int
  {
    match s
    case StatusUnknown => 0
    case Unsubmitted => 1
    case Unranked => 2
    case Unused => 3
    case Ranked => 4
    case Approved => 5
    case Qualified => 6
    case Loved => 7
  }

  const DefaultBeatmapStatus: BeatmapStatus := StatusUnknown

  /** `BeatmapStatus::from(i16)`: 1 to 7 name a status; 0, negative codes
      and codes above 7 give the unknown status. */
  function BeatmapStatusFrom(code: int): (s: BeatmapStatus)
    requires I16Min <= code <= I16Max
    ensures s == StatusUnknown <==> !(1 <= code <= 7)
    ensures s != StatusUnknown ==> BeatmapStatusCode(s) == code
  {
    match code
    case 1 => Unsubmitted
    case 2 => Unranked
    case 3 => Unused
    case 4 => Ranked
    case 5 => Approved
    case 6 => Qualified
    case 7 => Loved
    case _ => StatusUnknown
  }

  lemma BeatmapStatusRoundTrip(s: BeatmapStatus)
    ensures 0 <= BeatmapStatusCode(s) <= 7
    ensures BeatmapStatusFrom(BeatmapStatusCode(s)) == s
  {
  }

  // ---------------------------------------------------------------------
  // Errors of the memory library
  // ---------------------------------------------------------------------

  /** `ProcessNotFound` and `OsError` are the two classes the supervisor
      singles out; a missing signature or any other failure is `Other`. */
  datatype ProcessError = ProcessNotFound | OsError | SignatureNotFound | Other

  // ---------------------------------------------------------------------
  // Static addresses
  // ---------------------------------------------------------------------

  /** One byte of a signature: a fixed value, or a wildcard (`??`). */
  datatype PatternByte = Exact(b: int) | Wildcard

  type Signature = seq<PatternByte>

  const BaseSignature: Signature := [Exact(0xF8), Exact(0x01), Exact(0x74), Exact(0x04), Exact(0x83), Exact(0x65)]
  const StatusSignature: Signature := [Exact(0x48), Exact(0x83), Exact(0xF8), Exact(0x04), Exact(0x73), Exact(0x1E)]
  const MenuModsSignature: Signature :=
    [Exact(0xC8), Exact(0xFF), Wildcard, Wildcard, Wildcard, Wildcard, Wildcard, Exact(0x81), Exact(0x0D),
     Wildcard, Wildcard, Wildcard, Wildcard, Exact(0x00), Exact(0x08), Exact(0x00), Exact(0x00)]
  const RulesetsSignature: Signature :=
    [Exact(0x7D), Exact(0x15), Exact(0xA1), Wildcard, Wildcard, Wildcard, Wildcard, Exact(0x85), Exact(0xC0)]
  const PlaytimeSignature: Signature :=
    [Exact(0x5E), Exact(0x5F), Exact(0x5D), Exact(0xC3), Exact(0xA1), Wildcard, Wildcard, Wildcard, Wildcard,
     Exact(0x89), Wildcard, Exact(0x04)]
  const SkinSignature: Signature := [Exact(0x75), Exact(0x21), Exact(0x8B), Exact(0x1D)]
  const ChatCheckerSignature: Signature :=
    [Exact(0x0A), Exact(0xD7), Exact(0x23), Exact(0x3C), Exact(0x00), Exact(0x00), Wildcard, Exact(0x01)]
  const AudioTimeBaseSignature: Signature :=
    [Exact(0xDB), Exact(0x5C), Exact(0x24), Exact(0x34), Exact(0x8B), Exact(0x44), Exact(0x24), Exact(0x34)]
  const IgTimeBaseSignature: Signature :=
    [Exact(0xEB), Exact(0x0A), Exact(0xA1), Wildcard, Wildcard, Wildcard, Wildcard, Exact(0xA3)]
  const SettingsSignature: Signature :=
    [Exact(0x83), Exact(0xE0), Exact(0x20), Exact(0x85), Exact(0xC0), Exact(0x7E), Exact(0x2F)]

  /** The ten signatures in the order the constructor resolves them. */
  const Signatures: seq<Signature> := [
    BaseSignature, StatusSignature, MenuModsSignature, RulesetsSignature, PlaytimeSignature,
    SkinSignature, ChatCheckerSignature, AudioTimeBaseSignature, IgTimeBaseSignature, SettingsSignature
  ]

  datatype StaticAddresses = StaticAddresses(
    base: int,
    status: int,
    menuMods: int,
    rulesets: int,
    playtime: int,
    skin: int,
    chatChecker: int,
    audioTimeBase: int,
    igTimeBase: int,
    settings: int
  )

  /** The fields in declaration order, matching `Signatures`. */
  function Fields(a: StaticAddresses): seq<int>
  {
    [a.base, a.status, a.menuMods, a.rulesets, a.playtime, a.skin, a.chatChecker, a.audioTimeBase, a.igTimeBase, a.settings]
  }

  /** The address of the first match of a signature, as the memory library
      reports it; the scan itself is the library's and is a parameter here. */
  type Resolver = Signature -> Result<int, ProcessError>

  /** Signature `k` is the first one that fails to resolve. */
  predicate FirstFailure(resolve: Resolver, k: nat)
    requires k < |Signatures|
  {
    resolve(Signatures[k]).Err? && forall j :: 0 <= j < k ==> resolve(Signatures[j]).Ok?
  }

  /** Resolves the signatures in order, stopping at the first failure. */
  function ResolveAll(resolve: Resolver, sigs: seq<Signature>): (r: Result<seq<int>, ProcessError>)
    ensures r.Ok? <==> forall k :: 0 <= k < |sigs| ==> resolve(sigs[k]).Ok?
    ensures r.Ok? ==> |r.value| == |sigs| && forall k :: 0 <= k < |sigs| ==> r.value[k] == resolve(sigs[k]).value
    ensures r.Err? ==> exists k :: 0 <= k < |sigs| && resolve(sigs[k]).Err? && r.error == resolve(sigs[k]).error &&
                                   forall j :: 0 <= j < k ==> resolve(sigs[j]).Ok?
    decreases |sigs|
  {
    if |sigs| == 0 then Ok([])
    else
      var first :- resolve(sigs[0]);
      var rest := ResolveAll(resolve, sigs[1..]);
      assert forall k :: 1 <= k < |sigs| ==> sigs[k] == sigs[1..][k - 1];
      if rest.Err? then
        var k :| 0 <= k < |sigs[1..]| && resolve(sigs[1..][k]).Err? && rest.error == resolve(sigs[1..][k]).error &&
                 forall j :: 0 <= j < k ==> resolve(sigs[1..][j]).Ok?;
        assert forall j :: 0 <= j < k + 1 ==> resolve(sigs[j]).Ok? by {
          forall j | 0 <= j < k + 1 ensures resolve(sigs[j]).Ok? {
            if j > 0 { assert sigs[j] == sigs[1..][j - 1]; }
          }
        }
        Err(rest.error)
      else
        Ok([first] + rest.value)
  }

  /** `StaticAddresses::new`: all ten signatures must resolve; each field is
      its own signature's address; the first failure (in field order) is
      the constructor's error and nothing is built. */
  function NewStaticAddresses(resolve: Resolver): (r: Result<StaticAddresses, ProcessError>)
    ensures r.Ok? <==> forall k :: 0 <= k < |Signatures| ==> resolve(Signatures[k]).Ok?
    ensures r.Ok? ==> forall k :: 0 <= k < |Signatures| ==> Fields(r.value)[k] == resolve(Signatures[k]).value
    ensures r.Err? ==> exists k :: 0 <= k < |Signatures| && FirstFailure(resolve, k) && r.error == resolve(Signatures[k]).error
  {
    var vs :- ResolveAll(resolve, Signatures);
    var a := StaticAddresses(vs[0], vs[1], vs[2], vs[3], vs[4], vs[5], vs[6], vs[7], vs[8], vs[9]);
    assert Fields(a) == vs;
    Ok(a)
  }
}
