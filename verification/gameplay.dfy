/** The gameplay getters: score, combo, name and mods of the play in
    progress, the in-game clock and the retry counter, each a fixed pointer
    chain ending in one typed read. */
module Gameplay {
  import opened Results
  import opened Memory

  /** From `rulesets`: -0xb, +0x4, +0x68 (the gameplay object), +0x38 (its
      score object). */
  const ScoreChain: seq<int> := [-0xb, 0x4, 0x68, 0x38]

  const ScoreField: int := 0x78
  const ComboField: int := 0x94
  const MaxComboField: int := 0x68
  const UsernameField: int := 0x28

  function GameplayScore(m: Snapshot, rulesets: int): (r: Result<int, ReadError>)
    ensures r.Ok? ==> I32Min <= r.value <= I32Max
  {
    ChainI32(m, rulesets, ScoreChain, ScoreField)
  }

  function GameplayCombo(m: Snapshot, rulesets: int): (r: Result<int, ReadError>)
    ensures r.Ok? ==> I16Min <= r.value <= I16Max
  {
    ChainI16(m, rulesets, ScoreChain, ComboField)
  }

  function GameplayMaxCombo(m: Snapshot, rulesets: int): (r: Result<int, ReadError>)
    ensures r.Ok? ==> I16Min <= r.value <= I16Max
  {
    ChainI16(m, rulesets, ScoreChain, MaxComboField)
  }

  function GameplayUsername(m: Snapshot, rulesets: int): (r: Result<string, ReadError>)
    ensures IsChainString(m, rulesets, ScoreChain, UsernameField, r)
  {
    ChainString(m, rulesets, ScoreChain, UsernameField)
  }

  // ---------------------------------------------------------------------
  // Mods
  // ---------------------------------------------------------------------

  /** From `rulesets`: -0xb, +0x4, +0x38, +0x1C; the two mods words sit at
      +0xc and +0x8 of the object reached. */
  const ModsChain: seq<int> := [-0xb, 0x4, 0x38, 0x1C]
  const ModsWordA: int := 0xc
  const ModsWordB: int := 0x8

  /** The `as u32` cast: the low 32 bits. */
  function Low32(x: bv64): bv32
  {
    (x & 0xFFFF_FFFF) as bv32
  }

  /** The mods mask of the two stored words: their XOR, cut to 32 bits. */
  function ModsOf(x: bv64, y: bv64): bv32
  {
    Low32(x ^ y)
  }

  /** `get_mods`: reads the word at +0xc, then the word at +0x8. */
  function GetMods(m: Snapshot, rulesets: int): (r: Result<bv32, ReadError>)
    ensures var c := FollowChain(m, rulesets, ModsChain);
      r.Ok? <==> c.Ok? && ModsAt(m, c.value.target).Ok?
  {
    var w :- FollowChain(m, rulesets, ModsChain);
    ModsAt(m, w.target)
  }

  /** The two word reads of `get_mods` on the object at `t`. */
  function ModsAt(m: Snapshot, t: int): (r: Result<bv32, ReadError>)
    ensures r.Ok? <==> ReadU64(m, t + ModsWordA).Ok? && ReadU64(m, t + ModsWordB).Ok?
  {
    var x :- ReadU64(m, t + ModsWordA);
    var y :- ReadU64(m, t + ModsWordB);
    Ok(ModsOf(x as bv64, y as bv64))
  }

  /** Which word is read first does not matter to the mask. */
  lemma ModsSymmetric(x: bv64, y: bv64)
    ensures ModsOf(x, y) == ModsOf(y, x)
  {
  }

  /** Equal words encode no mods. */
  lemma ModsOfEqualWords(x: bv64)
    ensures ModsOf(x, x) == 0
  {
  }

  /** The high halves of the words never reach the mask: it is the XOR of
      the low halves. */
  lemma ModsFromLowHalves(x: bv64, y: bv64)
    ensures ModsOf(x, y) == Low32(x) ^ Low32(y)
  {
  }

  /** XOR-ing the mask with one word's low half gives back the other's: the
      encoding loses nothing of the low halves. */
  lemma ModsRecoverWord(x: bv64, y: bv64)
    ensures ModsOf(x, y) ^ Low32(x) == Low32(y)
  {
  }

  // ---------------------------------------------------------------------
  // Clock and retries
  // ---------------------------------------------------------------------

  /** `get_ig_time`: dereference `playtime + 0x5`, read the `i32` there. */
  const IgTimeChain: seq<int> := [0x5]

  function GetIgTime(m: Snapshot, playtime: int): (r: Result<int, ReadError>)
    ensures r.Ok? <==> ReadI32(m, playtime + 0x5).Ok? && ReadI32(m, ReadI32(m, playtime + 0x5).value).Ok?
    ensures r.Ok? ==> r.value == ReadI32(m, ReadI32(m, playtime + 0x5).value).value
  {
    ChainI32(m, playtime, IgTimeChain, 0)
  }

  /** `get_retries`: dereference `base - 0x33`, read the `i32` at +0x8. */
  const RetriesChain: seq<int> := [-0x33]
  const RetriesField: int := 0x8

  function GetRetries(m: Snapshot, base: int): (r: Result<int, ReadError>)
    ensures r.Ok? <==> ReadI32(m, base - 0x33).Ok? && ReadI32(m, ReadI32(m, base - 0x33).value + RetriesField).Ok?
    ensures r.Ok? ==> r.value == ReadI32(m, ReadI32(m, base - 0x33).value + RetriesField).value
  {
    ChainI32(m, base, RetriesChain, RetriesField)
  }

  // ---------------------------------------------------------------------
  // Layout
  // ---------------------------------------------------------------------

  datatype GameplayValues = GameplayValues(score: int, combo: int, maxCombo: int, username: string)

  /** Memory holds a play in progress: the score chain ends at `s`, whose
      fields hold these values. */
  predicate GameplayAt(m: Snapshot, rulesets: int, s: int, v: GameplayValues)
  {
    && ChainEndsAt(m, rulesets, ScoreChain, s)
    && ReadI32(m, s + ScoreField) == Ok(v.score)
    && ReadI16(m, s + ComboField) == Ok(v.combo)
    && ReadI16(m, s + MaxComboField) == Ok(v.maxCombo)
    && ReadString(m, s + UsernameField) == Ok(v.username)
  }

  /** The four score-object getters share one chain and each returns its
      own field. */
  lemma GameplayGettersReadLayout(m: Snapshot, rulesets: int, s: int, v: GameplayValues)
    requires GameplayAt(m, rulesets, s, v)
    ensures GameplayScore(m, rulesets) == Ok(v.score)
    ensures GameplayCombo(m, rulesets) == Ok(v.combo)
    ensures GameplayMaxCombo(m, rulesets) == Ok(v.maxCombo)
    ensures GameplayUsername(m, rulesets) == Ok(v.username)
  {
    ChainReadsTarget(m, rulesets, ScoreChain, s, ScoreField);
    ChainReadsTarget(m, rulesets, ScoreChain, s, ComboField);
    ChainReadsTarget(m, rulesets, ScoreChain, s, MaxComboField);
    ChainReadsTarget(m, rulesets, ScoreChain, s, UsernameField);
  }

  /** With the mods chain ending at `t` and both words readable, the mask is
      the XOR of the word at +0xc with the word at +0x8. */
  lemma GetModsReadsLayout(m: Snapshot, rulesets: int, t: int, a: int, b: int)
    requires ChainEndsAt(m, rulesets, ModsChain, t)
    requires ReadU64(m, t + ModsWordA) == Ok(a) && ReadU64(m, t + ModsWordB) == Ok(b)
    ensures 0 <= a < U64Bound && 0 <= b < U64Bound
    ensures GetMods(m, rulesets) == Ok(ModsOf(a as bv64, b as bv64))
  {
    assert GetMods(m, rulesets) == ModsAt(m, t);
  }
}
