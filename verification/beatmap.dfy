/** The beatmap getters: five strings of the selected beatmap, all read
    through the same two-step chain from the base address, and the record
    the song-select screen is built from. */
module Beatmap {
  import opened Results
  import opened Memory

  /** From `base`: dereference `base - 0xC`, then dereference the pointer
      found there; the result is the beatmap object. */
  const BeatmapChain: seq<int> := [-0xC, 0]

  const Md5Field: int := 0x6c
  const AuthorField: int := 0x18
  const CreatorField: int := 0x7C
  const TitleField: int := 0x24
  const DifficultyField: int := 0xAC

  function GetBeatmapMd5(m: Snapshot, base: int): (r: Result<string, ReadError>)
    ensures IsChainString(m, base, BeatmapChain, Md5Field, r)
  {
    ChainString(m, base, BeatmapChain, Md5Field)
  }

  function GetAuthor(m: Snapshot, base: int): (r: Result<string, ReadError>)
    ensures IsChainString(m, base, BeatmapChain, AuthorField, r)
  {
    ChainString(m, base, BeatmapChain, AuthorField)
  }

  function GetCreator(m: Snapshot, base: int): (r: Result<string, ReadError>)
    ensures IsChainString(m, base, BeatmapChain, CreatorField, r)
  {
    ChainString(m, base, BeatmapChain, CreatorField)
  }

  function GetTitle(m: Snapshot, base: int): (r: Result<string, ReadError>)
    ensures IsChainString(m, base, BeatmapChain, TitleField, r)
  {
    ChainString(m, base, BeatmapChain, TitleField)
  }

  function GetDifficulty(m: Snapshot, base: int): (r: Result<string, ReadError>)
    ensures IsChainString(m, base, BeatmapChain, DifficultyField, r)
  {
    ChainString(m, base, BeatmapChain, DifficultyField)
  }

  /** The cover image: the default (empty) image, or one loaded from a file. */
  datatype Cover = DefaultCover | CoverFrom(path: string)

  /** The beatmap record shown on the song-select screen. */
  datatype MapData = MapData(
    song: string,
    author: string,
    creator: string,
    cover: Cover,
    link: string,
    difficulties: string,
    downloadProgress: real,
    md5: string
  )

  /** The five strings a beatmap object holds. */
  datatype BeatmapText = BeatmapText(md5: string, author: string, creator: string, title: string, difficulty: string)

  /** `get_beatmap`: reads author, creator, difficulty, title and md5 in the
      order the record's fields are written; a failing read is the error. */
  function GetBeatmap(m: Snapshot, base: int): (r: Result<MapData, ReadError>)
    ensures r.Ok? ==> r.value.link == "" && r.value.downloadProgress == 0.0 && r.value.cover == DefaultCover
    ensures r.Ok? ==> GetBeatmapMd5(m, base) == Ok(r.value.md5)
  {
    var author :- GetAuthor(m, base);
    var creator :- GetCreator(m, base);
    var difficulty :- GetDifficulty(m, base);
    var title :- GetTitle(m, base);
    var md5 :- GetBeatmapMd5(m, base);
    Ok(MapData(title, author, creator, DefaultCover, "", difficulty, 0.0, md5))
  }

  /** Memory holds a beatmap: the chain from `base` ends at `b`, whose five
      string slots hold the text. */
  predicate BeatmapAt(m: Snapshot, base: int, b: int, t: BeatmapText)
  {
    && ChainEndsAt(m, base, BeatmapChain, b)
    && ReadString(m, b + Md5Field) == Ok(t.md5)
    && ReadString(m, b + AuthorField) == Ok(t.author)
    && ReadString(m, b + CreatorField) == Ok(t.creator)
    && ReadString(m, b + TitleField) == Ok(t.title)
    && ReadString(m, b + DifficultyField) == Ok(t.difficulty)
  }

  /** Each getter returns its own slot of the beatmap object. */
  lemma BeatmapGettersReadLayout(m: Snapshot, base: int, b: int, t: BeatmapText)
    requires BeatmapAt(m, base, b, t)
    ensures GetBeatmapMd5(m, base) == Ok(t.md5)
    ensures GetAuthor(m, base) == Ok(t.author)
    ensures GetCreator(m, base) == Ok(t.creator)
    ensures GetTitle(m, base) == Ok(t.title)
    ensures GetDifficulty(m, base) == Ok(t.difficulty)
  {
    ChainReadsTarget(m, base, BeatmapChain, b, Md5Field);
    ChainReadsTarget(m, base, BeatmapChain, b, AuthorField);
    ChainReadsTarget(m, base, BeatmapChain, b, CreatorField);
    ChainReadsTarget(m, base, BeatmapChain, b, TitleField);
    ChainReadsTarget(m, base, BeatmapChain, b, DifficultyField);
  }

  /** The record copies the title into `song`, the difficulty name into
      `difficulties`, and author, creator and md5 unchanged. */
  lemma GetBeatmapFields(m: Snapshot, base: int, b: int, t: BeatmapText)
    requires BeatmapAt(m, base, b, t)
    ensures GetBeatmap(m, base) == Ok(MapData(t.title, t.author, t.creator, DefaultCover, "", t.difficulty, 0.0, t.md5))
  {
    BeatmapGettersReadLayout(m, base, b, t);
  }

  /** Stores the five strings into the slots of the object at `b`. */
  function PlaceText(m: Snapshot, b: int, t: BeatmapText): Snapshot
  {
    m.(strings := m.strings[b + Md5Field := t.md5][b + AuthorField := t.author][b + CreatorField := t.creator]
      [b + TitleField := t.title][b + DifficultyField := t.difficulty])
  }

  /** The five slots are distinct: any text stored into a beatmap object
      reads back field for field. */
  lemma PlacedTextReadsBack(m: Snapshot, base: int, b: int, t: BeatmapText)
    requires ChainEndsAt(m, base, BeatmapChain, b)
    ensures BeatmapAt(PlaceText(m, b, t), base, b, t)
  {
    var p := PlaceText(m, b, t);
    assert ChainEndsAt(p, base, BeatmapChain, b) by {
      ChainIgnoresStrings(m, p.strings, base, BeatmapChain);
      assert p == m.(strings := p.strings);
    }
    PlacedSlots(m, b, t);
  }

  /** The map behind `PlaceText` holds each string at its own slot. */
  lemma PlacedSlots(m: Snapshot, b: int, t: BeatmapText)
    ensures PlaceText(m, b, t).strings[b + Md5Field] == t.md5
    ensures PlaceText(m, b, t).strings[b + AuthorField] == t.author
    ensures PlaceText(m, b, t).strings[b + CreatorField] == t.creator
    ensures PlaceText(m, b, t).strings[b + TitleField] == t.title
    ensures PlaceText(m, b, t).strings[b + DifficultyField] == t.difficulty
  {
  }
}
