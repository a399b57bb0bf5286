/** What the reader sends to the score server: the mods list rendered as
    text, the beatmap request body and the score body. The HTTP transport is
    not part of this model; each builder ends in the body text it would
    post. */
module Submission {
  import opened Results
  import opened Text
  import opened Memory
  import ResultScreen
  import Gameplay
  import Beatmap

  // ---------------------------------------------------------------------
  // Mods as text
  // ---------------------------------------------------------------------

  /** The mods table: each mod's bit and its short name, in table order. The
      table itself is not part of this model and is a parameter. */
  type ModTable = seq<(bv32, string)>

  /** A table entry is listed when its bit meets the mask, unless it is
      "NC". */
  predicate Listed(entry: (bv32, string), mask: bv32)
  {
    entry.0 & mask != 0 && entry.1 != "NC"
  }

  /** The names `mods_to_string` collects, in table order. */
  function ModNames(table: ModTable, mask: bv32): (r: seq<string>)
    ensures |r| <= |table|
  {
    if |table| == 0 then []
    else (if Listed(table[0], mask) then [table[0].1] else []) + ModNames(table[1..], mask)
  }

  /** `mods_to_string`: the listed names joined with commas. With comma-free
      names in the table, splitting the text on commas gives back exactly
      the listed names. */
  function ModsToString(table: ModTable, mask: bv32): (r: string)
    ensures (forall i :: 0 <= i < |table| ==> ',' !in table[i].1) && ModNames(table, mask) != [] ==>
      SplitOn(r, ',') == ModNames(table, mask)
  {
    var names := ModNames(table, mask);
    if (forall i :: 0 <= i < |table| ==> ',' !in table[i].1) && names != [] then
      NamesCommaFree(table, mask);
      SplitJoin(names, ',');
      JoinWith(names, ',')
    else
      JoinWith(names, ',')
  }

  /** Selection works entry by entry: the names of a split table are the
      names of its parts, in order. */
  lemma {:induction false} ModNamesAppend(a: ModTable, b: ModTable, mask: bv32)
    ensures ModNames(a + b, mask) == ModNames(a, mask) + ModNames(b, mask)
    decreases |a|
  {
    if |a| == 0 {
      assert a + b == b;
    } else {
      assert (a + b)[0] == a[0];
      assert (a + b)[1..] == a[1..] + b;
      ModNamesAppend(a[1..], b, mask);
    }
  }

  /** A name is listed exactly when some entry carrying it is selected. */
  lemma {:induction false} ModNamesMembers(table: ModTable, mask: bv32, name: string)
    ensures name in ModNames(table, mask) <==> exists i :: 0 <= i < |table| && Listed(table[i], mask) && table[i].1 == name
    decreases |table|
  {
    if |table| > 0 {
      ModNamesMembers(table[1..], mask, name);
      if name in ModNames(table[1..], mask) {
        var i :| 0 <= i < |table[1..]| && Listed(table[1..][i], mask) && table[1..][i].1 == name;
        assert table[i + 1] == table[1..][i];
      }
      if exists i :: 0 <= i < |table| && Listed(table[i], mask) && table[i].1 == name {
        var i :| 0 <= i < |table| && Listed(table[i], mask) && table[i].1 == name;
        if i > 0 {
          assert table[1..][i - 1] == table[i];
        }
      }
    }
  }

  /** "NC" is never rendered, whatever the mask. */
  lemma NightcoreNeverListed(table: ModTable, mask: bv32)
    ensures "NC" !in ModNames(table, mask)
  {
    ModNamesMembers(table, mask, "NC");
  }

  /** No mods, no text. */
  lemma {:induction false} NoModsRenderEmpty(table: ModTable)
    ensures ModNames(table, 0) == []
    ensures ModsToString(table, 0) == ""
    decreases |table|
  {
    if |table| > 0 {
      NoModsRenderEmpty(table[1..]);
      assert table[0].0 & 0 == 0;
    }
  }

  /** Listed names come from the table, so a comma-free table lists only
      comma-free names. */
  lemma NamesCommaFree(table: ModTable, mask: bv32)
    requires forall i :: 0 <= i < |table| ==> ',' !in table[i].1
    ensures forall k :: 0 <= k < |ModNames(table, mask)| ==> ',' !in ModNames(table, mask)[k]
  {
    var names := ModNames(table, mask);
    forall k | 0 <= k < |names|
      ensures ',' !in names[k]
    {
      ModNamesMembers(table, mask, names[k]);
    }
  }

  /** With non-empty comma-free names the text never starts or ends with a
      comma. */
  lemma NoStrayComma(table: ModTable, mask: bv32)
    requires forall i :: 0 <= i < |table| ==> ',' !in table[i].1 && table[i].1 != ""
    ensures var s := ModsToString(table, mask); s == "" || (s[0] != ',' && s[|s| - 1] != ',')
  {
    var names := ModNames(table, mask);
    if names != [] {
      JoinWithEnds(names, ',');
      ModNamesMembers(table, mask, names[0]);
      ModNamesMembers(table, mask, names[|names| - 1]);
      var s := ModsToString(table, mask);
      var last := names[|names| - 1];
      assert s[0] == names[0][0];
      assert s[|s| - 1] == last[|last| - 1];
    }
  }

  /** One more table entry adds its name exactly when it is listed. */
  lemma ModNamesStep(table: ModTable, mask: bv32, i: nat)
    requires i < |table|
    ensures ModNames(table[..i + 1], mask) == ModNames(table[..i], mask) + (if Listed(table[i], mask) then [table[i].1] else [])
  {
    assert table[..i + 1] == table[..i] + [table[i]];
    ModNamesAppend(table[..i], [table[i]], mask);
  }

  /** The loop of `mods_to_string`: walk the table, skip "NC", collect the
      names whose bit meets the mask, then join. */
  method RenderMods(table: ModTable, mask: bv32) returns (s: string)
    ensures s == ModsToString(table, mask)
  {
    var list: seq<string> := [];
    for i := 0 to |table|
      invariant list == ModNames(table[..i], mask)
    {
      ModNamesStep(table, mask, i);
      if table[i].0 & mask != 0 {
        if table[i].1 == "NC" {
          continue;
        }
        list := list + [table[i].1];
      }
    }
    assert table[..|table|] == table;
    s := JoinWith(list, ',');
  }

  // ---------------------------------------------------------------------
  // The beatmap request
  // ---------------------------------------------------------------------

  /** Why a body could not be built: no token is stored, a memory read
      failed, or the accuracy could not be computed. */
  datatype SubmitError =
    | NoToken
    | ReadFailed(cause: ReadError)
    | AccuracyFailed(reason: ResultScreen.ResultError)

  /** A failed read, as a submission error. */
  function Lift<T>(r: Result<T, ReadError>): (l: Result<T, SubmitError>)
    ensures l.Ok? <==> r.Ok?
    ensures r.Ok? ==> l.value == r.value
    ensures r.Err? ==> l.error == ReadFailed(r.error)
  {
    if r.Ok? then Ok(r.value) else Err(ReadFailed(r.error))
  }

  predicate QuoteFree(s: string)
  {
    '"' !in s
  }

  /** The request template cut at its double quotes: joined with `"` the
      pieces read `{"token": "<token>","map": {"checkSum": "<md5>"}}`. Token
      and md5 are spliced in as they are, without escaping. */
  function RequestPieces(token: string, md5: string): seq<string>
  {
    ["{", "token", ": ", token, ",", "map", ": {", "checkSum", ": ", md5, "}}"]
  }

  /** The body `sendArq` posts. Cutting it at its quotes gives the
      template's pieces back when neither the token nor the md5 holds a
      quote of its own. */
  function RequestBody(token: string, md5: string): (r: string)
    ensures QuoteFree(token) && QuoteFree(md5) ==> SplitOn(r, '"') == RequestPieces(token, md5)
  {
    var pieces := RequestPieces(token, md5);
    if QuoteFree(token) && QuoteFree(md5) then
      RequestPiecesQuoteFree(token, md5);
      SplitJoin(pieces, '"');
      JoinWith(pieces, '"')
    else
      JoinWith(pieces, '"')
  }

  lemma RequestPiecesQuoteFree(token: string, md5: string)
    requires QuoteFree(token) && QuoteFree(md5)
    ensures forall i :: 0 <= i < |RequestPieces(token, md5)| ==> '"' !in RequestPieces(token, md5)[i]
  {
    var p := RequestPieces(token, md5);
    forall i | 0 <= i < |p|
      ensures '"' !in p[i]
    {
    }
  }

  /** So the token is the fourth piece of the body and the md5 the tenth,
      provided neither holds a quote of its own. */
  lemma RequestBodyDecodes(token: string, md5: string)
    requires QuoteFree(token) && QuoteFree(md5)
    ensures SplitOn(RequestBody(token, md5), '"')[3] == token
    ensures SplitOn(RequestBody(token, md5), '"')[9] == md5
  {
  }

  /** Quote-free tokens and md5s give distinct bodies. */
  lemma RequestBodyInjective(t1: string, m1: string, t2: string, m2: string)
    requires QuoteFree(t1) && QuoteFree(m1) && QuoteFree(t2) && QuoteFree(m2)
    requires RequestBody(t1, m1) == RequestBody(t2, m2)
    ensures t1 == t2 && m1 == m2
  {
    RequestBodyDecodes(t1, m1);
    RequestBodyDecodes(t2, m2);
  }

  /** `sendArq`: takes the stored token (its absence is the `unwrap` panic)
      and the md5 of the selected beatmap. */
  function SendArq(m: Snapshot, base: int, token: Option<string>): (r: Result<string, SubmitError>)
    ensures token.None? ==> r == Err(NoToken)
    ensures r.Ok? <==> token.Some? && Beatmap.GetBeatmapMd5(m, base).Ok?
  {
    var t :- if token.Some? then Ok(token.value) else Err(NoToken);
    var md5 :- Lift(Beatmap.GetBeatmapMd5(m, base));
    Ok(RequestBody(t, md5))
  }

  /** On a selected beatmap the request names the token and that beatmap's
      md5. */
  lemma SendArqNamesBeatmap(m: Snapshot, base: int, b: int, text: Beatmap.BeatmapText, token: string)
    requires Beatmap.BeatmapAt(m, base, b, text)
    requires QuoteFree(token) && QuoteFree(text.md5)
    ensures SendArq(m, base, Some(token)) == Ok(RequestBody(token, text.md5))
    ensures SplitOn(SendArq(m, base, Some(token)).value, '"') == RequestPieces(token, text.md5)
  {
    Beatmap.BeatmapGettersReadLayout(m, base, b, text);
    RequestBodyDecodes(token, text.md5);
  }

  // ---------------------------------------------------------------------
  // The score body
  // ---------------------------------------------------------------------

  /** The values `send_score` splices into its template, under the JSON
      names it gives them. `accuracy` is already rendered as text. */
  datatype ScoreFields = ScoreFields(
    token: string,
    checkSum: string,
    scorePoint: int,
    accuracy: string,
    marvelous: int,
    perfect: int,
    great: int,
    good: int,
    bad: int,
    miss: int,
    modList: string,
    maxCombo: int
  )

  /** A number as it follows its key: colon, space, the decimal text, then
      the template"s next punctuation. */
  function NumberText(x: int, after: string): string
  {
    ": " + ShowInt(x) + after
  }

  /** The score template cut at its double quotes; joined with `"` the pieces
      read `{"token": "<token>", "map": {"checkSum": "<md5>"}, "score":
      {"devServer": "bancho","scorePoint": <score>, "accuracy":
      <accuracy>,"marvelous": <n>,"perfect": <n>,"great": <n>,"good":
      <n>,"bad": <n>,"miss": <n>,"modList": "<mods>","maxCombo": <combo>},
      "pc": {"macaddr": "temp","hwid": "temp"} }`. The five segments below
      cut it further, after `"bancho","`, after the accuracy, after the
      miss count and after the combo. */
  function ScorePieces(f: ScoreFields): seq<string>
  {
    ScoreOpening(f.token, f.checkSum) + ScoreTotals(f.scorePoint, f.accuracy) + ScoreHits(f) + ScoreClosing(f.modList, f.maxCombo) + ScoreMachine()
  }

  function ScoreOpening(token: string, md5: string): seq<string>
  {
    ["{", "token", ": ", token, ", ", "map", ": {", "checkSum", ": ", md5, "}, ", "score", ": {", "devServer", ": ", "bancho", ","]
  }

  function ScoreTotals(score: int, accuracy: string): seq<string>
  {
    ["scorePoint", NumberText(score, ", "), "accuracy", ": " + accuracy + ","]
  }

  /** One hit count: its key, then its value up to the next comma. */
  function HitPair(name: string, n: int): seq<string>
  {
    [name, NumberText(n, ",")]
  }

  function ScoreHits(f: ScoreFields): seq<string>
  {
    HitPair("marvelous", f.marvelous) + (HitPair("perfect", f.perfect) + (HitPair("great", f.great) +
      (HitPair("good", f.good) + (HitPair("bad", f.bad) + HitPair("miss", f.miss)))))
  }

  function ScoreClosing(mods: string, combo: int): seq<string>
  {
    ["modList", ": ", mods, ",", "maxCombo", NumberText(combo, "}, ")]
  }

  function ScoreMachine(): seq<string>
  {
    ["pc", ": {", "macaddr", ": ", "temp", ",", "hwid", ": ", "temp", "} }"]
  }

  /** The body `send_score` posts. Cutting it at its quotes gives the
      template's pieces back when the spliced texts hold no quote. */
  function ScoreBody(f: ScoreFields): (r: string)
    ensures ScoreTextsQuoteFree(f) ==> SplitOn(r, '"') == ScorePieces(f)
  {
    var pieces := ScorePieces(f);
    if ScoreTextsQuoteFree(f) then
      ScorePiecesQuoteFree(f);
      SplitJoin(pieces, '"');
      JoinWith(pieces, '"')
    else
      JoinWith(pieces, '"')
  }

  /** The six hit counts of a result. */
  datatype HitSlot = Slot300 | Slot100 | Slot50 | SlotGeki | SlotKatu | SlotMiss

  function SlotCount(h: ResultScreen.Hits, s: HitSlot): int
  {
    match s
    case Slot300 => h.h300
    case Slot100 => h.h100
    case Slot50 => h.h50
    case SlotGeki => h.geki
    case SlotKatu => h.katu
    case SlotMiss => h.miss
  }

  /** The JSON name of each hit count in the serde rename table of the
      score record (`src/cobra_struct.rs`), kept apart from the body
      builder as an independent reference. */
  function CobraName(s: HitSlot): string
  {
    match s
    case Slot300 => "perfect"
    case Slot100 => "good"
    case Slot50 => "bad"
    case SlotGeki => "marvelous"
    case SlotKatu => "great"
    case SlotMiss => "miss"
  }

  /** Each slot's key, as the rename table names it, with the piece that
      writes its count. */
  function CobraPairs(h: ResultScreen.Hits, slots: seq<HitSlot>): seq<(string, string)>
  {
    seq(|slots|, i requires 0 <= i < |slots| => (CobraName(slots[i]), NumberText(SlotCount(h, slots[i]), ",")))
  }

  /** Key and value pieces for the given slots, each named by the rename
      table. */
  function CobraHitPieces(h: ResultScreen.Hits, slots: seq<HitSlot>): seq<string>
  {
    FlatPairs(CobraPairs(h, slots))
  }

  /** The pairs laid out one after the other, first then second. */
  function FlatPairs<T>(ps: seq<(T, T)>): seq<T>
  {
    if |ps| == 0 then [] else [ps[0].0, ps[0].1] + FlatPairs(ps[1..])
  }

  /** Pair `k` sits at positions `2k` and `2k + 1` of the layout. */
  lemma {:induction false} FlatPairsAt<T>(ps: seq<(T, T)>, k: nat)
    requires k < |ps|
    ensures |FlatPairs(ps)| == 2 * |ps|
    ensures FlatPairs(ps)[2 * k] == ps[k].0 && FlatPairs(ps)[2 * k + 1] == ps[k].1
    decreases |ps|
  {
    if k > 0 {
      FlatPairsAt(ps[1..], k - 1);
    } else if |ps| > 1 {
      FlatPairsAt(ps[1..], 0);
    }
  }

  lemma CobraHitPiecesCons(h: ResultScreen.Hits, slot: HitSlot, rest: seq<HitSlot>)
    ensures CobraHitPieces(h, [slot] + rest) == HitPair(CobraName(slot), SlotCount(h, slot)) + CobraHitPieces(h, rest)
  {
    var ps := CobraPairs(h, [slot] + rest);
    assert ps[1..] == CobraPairs(h, rest);
  }

  /** The order the template lists the hit counts in. */
  const BodyHitOrder: seq<HitSlot> := [SlotGeki, Slot300, SlotKatu, Slot100, Slot50, SlotMiss]

  /** `send_score`'s field assignment: the marvelous count is the geki count,
      perfect the 300s, great the katu, good the 100s, bad the 50s. */
  function ScoreFieldsOf(token: string, md5: string, score: int, accuracy: string, h: ResultScreen.Hits, mods: string, combo: int): ScoreFields
  {
    ScoreFields(token, md5, score, accuracy, h.geki, h.h300, h.katu, h.h100, h.h50, h.miss, mods, combo)
  }

  /** The hit counts of the body are named as the score record's rename
      table names them: every count sits under its own name. */
  lemma HitsFollowRenameTable(token: string, md5: string, score: int, accuracy: string, h: ResultScreen.Hits, mods: string, combo: int)
    ensures ScoreHits(ScoreFieldsOf(token, md5, score, accuracy, h, mods, combo)) == CobraHitPieces(h, BodyHitOrder)
  {
    var s5 := [SlotMiss];
    var s4 := [Slot50] + s5;
    var s3 := [Slot100] + s4;
    var s2 := [SlotKatu] + s3;
    var s1 := [Slot300] + s2;
    var s0 := [SlotGeki] + s1;
    assert s0 == BodyHitOrder;
    CobraHitPiecesCons(h, SlotMiss, []);
    assert [SlotMiss] + [] == s5;
    CobraHitPiecesCons(h, Slot50, s5);
    CobraHitPiecesCons(h, Slot100, s4);
    CobraHitPiecesCons(h, SlotKatu, s3);
    CobraHitPiecesCons(h, Slot300, s2);
    CobraHitPiecesCons(h, SlotGeki, s1);
  }

  // ---------------------------------------------------------------------
  // Reading a body back
  // ---------------------------------------------------------------------

  /** The number in a value piece: the numeral after the colon and space,
      parsed as an `i32`. */
  function NumberValue(v: string): Option<int>
  {
    if |v| >= 2 && v[..2] == ": " then
      match ParseInteger(NumeralPrefix(v[2..]), I32Min, I32Max)
      case Ok(n) => Some(n)
      case Err(_) => None
    else None
  }

  /** Every `i32` the template writes reads back from its piece. */
  lemma NumberTextDecodes(x: int, after: string)
    requires I32Min <= x <= I32Max
    requires after == "" || (after[0] != '-' && !IsDigit(after[0]))
    ensures NumberValue(NumberText(x, after)) == Some(x)
  {
    var v := NumberText(x, after);
    assert |v| >= 2 && v[..2] == ": " && v[2..] == ShowInt(x) + after by {
      assert v == ": " + (ShowInt(x) + after);
    }
    assert ParseInteger(NumeralPrefix(v[2..]), I32Min, I32Max) == Ok(x) by {
      NumeralPrefixOfShown(x, after);
      ParseShowInt(x, I32Min, I32Max);
    }
  }

  /** The spliced strings hold no quote. */
  predicate ScoreTextsQuoteFree(f: ScoreFields)
  {
    QuoteFree(f.token) && QuoteFree(f.checkSum) && QuoteFree(f.accuracy) && QuoteFree(f.modList)
  }

  lemma NumberTextQuoteFree(x: int, after: string)
    requires QuoteFree(after)
    ensures QuoteFree(NumberText(x, after))
  {
    ShowIntHasNoSeparator(x, '"');
  }

  /** No piece of the template holds a quote once the spliced strings do
      not. */
  lemma ScorePiecesQuoteFree(f: ScoreFields)
    requires ScoreTextsQuoteFree(f)
    ensures AllQuoteFree(ScorePieces(f))
  {
    var o := ScoreOpening(f.token, f.checkSum);
    var t := ScoreTotals(f.scorePoint, f.accuracy);
    var h := ScoreHits(f);
    var c := ScoreClosing(f.modList, f.maxCombo);
    var e := ScoreMachine();
    assert AllQuoteFree(o + t) by {
      OpeningQuoteFree(f.token, f.checkSum);
      TotalsQuoteFree(f.scorePoint, f.accuracy);
      AllQuoteFreeConcat(o, t);
    }
    assert AllQuoteFree(o + t + h) by {
      HitsQuoteFree(f);
      AllQuoteFreeConcat(o + t, h);
    }
    assert AllQuoteFree(o + t + h + c) by {
      ClosingQuoteFree(f.modList, f.maxCombo);
      AllQuoteFreeConcat(o + t + h, c);
    }
    MachineQuoteFree();
    AllQuoteFreeConcat(o + t + h + c, e);
  }

  lemma MachineQuoteFree()
    ensures AllQuoteFree(ScoreMachine())
  {
    var e := ScoreMachine();
    assert forall i :: 0 <= i < |e| ==> QuoteFree(e[i]);
  }

  predicate AllQuoteFree(pieces: seq<string>)
  {
    forall i :: 0 <= i < |pieces| ==> QuoteFree(pieces[i])
  }

  lemma AllQuoteFreeConcat(a: seq<string>, b: seq<string>)
    requires AllQuoteFree(a) && AllQuoteFree(b)
    ensures AllQuoteFree(a + b)
  {
    forall i | 0 <= i < |a + b|
      ensures QuoteFree((a + b)[i])
    {
      if i >= |a| {
        assert (a + b)[i] == b[i - |a|];
      }
    }
  }

  lemma OpeningQuoteFree(token: string, md5: string)
    requires QuoteFree(token) && QuoteFree(md5)
    ensures AllQuoteFree(ScoreOpening(token, md5))
  {
  }

  lemma TotalsQuoteFree(score: int, accuracy: string)
    requires QuoteFree(accuracy)
    ensures AllQuoteFree(ScoreTotals(score, accuracy))
  {
    NumberTextQuoteFree(score, ", ");
  }

  lemma HitPairQuoteFree(name: string, n: int)
    requires QuoteFree(name)
    ensures AllQuoteFree(HitPair(name, n))
  {
    NumberTextQuoteFree(n, ",");
  }

  lemma HitsQuoteFree(f: ScoreFields)
    ensures AllQuoteFree(ScoreHits(f))
  {
    HitPairQuoteFree("marvelous", f.marvelous);
    HitPairQuoteFree("perfect", f.perfect);
    HitPairQuoteFree("great", f.great);
    HitPairQuoteFree("good", f.good);
    HitPairQuoteFree("bad", f.bad);
    HitPairQuoteFree("miss", f.miss);
    AllQuoteFreeConcat(HitPair("bad", f.bad), HitPair("miss", f.miss));
    AllQuoteFreeConcat(HitPair("good", f.good), HitPair("bad", f.bad) + HitPair("miss", f.miss));
    AllQuoteFreeConcat(HitPair("great", f.great), HitPair("good", f.good) + (HitPair("bad", f.bad) + HitPair("miss", f.miss)));
    AllQuoteFreeConcat(HitPair("perfect", f.perfect),
      HitPair("great", f.great) + (HitPair("good", f.good) + (HitPair("bad", f.bad) + HitPair("miss", f.miss))));
    AllQuoteFreeConcat(HitPair("marvelous", f.marvelous),
      HitPair("perfect", f.perfect) + (HitPair("great", f.great) + (HitPair("good", f.good) + (HitPair("bad", f.bad) + HitPair("miss", f.miss)))));
  }

  lemma ClosingQuoteFree(mods: string, combo: int)
    requires QuoteFree(mods)
    ensures AllQuoteFree(ScoreClosing(mods, combo))
  {
    NumberTextQuoteFree(combo, "}, ");
  }

  /** Each rename-table piece list decodes: the number after the `k`-th key
      reads back as the `k`-th slot's count. */
  lemma CobraHitPiecesDecode(h: ResultScreen.Hits, slots: seq<HitSlot>, k: nat)
    requires ResultScreen.HitsInI16(h)
    requires k < |slots|
    ensures 2 * k + 1 < |CobraHitPieces(h, slots)|
    ensures CobraHitPieces(h, slots)[2 * k] == CobraName(slots[k])
    ensures NumberValue(CobraHitPieces(h, slots)[2 * k + 1]) == Some(SlotCount(h, slots[k]))
  {
    FlatPairsAt(CobraPairs(h, slots), k);
    NumberTextDecodes(SlotCount(h, slots[k]), ",");
  }

  // ---------------------------------------------------------------------
  // send_score
  // ---------------------------------------------------------------------

  /** `send_score`: the token, then the md5, score, accuracy, geki, 300, katu,
      100, 50 and miss counts, the mods mask and the combo, in the order the
      template names them; the first failing read is the error. The
      accuracy is scaled to a percentage and rendered by `show`, which
      stands for Rust's `f64` formatting. */
  function SendScore(m: Snapshot, rulesets: int, base: int, token: Option<string>, table: ModTable, show: real -> string): (r: Result<string, SubmitError>)
    ensures token.None? ==> r == Err(NoToken)
    ensures r.Ok? ==> ResultScreen.GetResultAccuracy(m, rulesets).Ok? && Gameplay.GetMods(m, rulesets).Ok?
  {
    var f :- ScoreFieldsRead(m, rulesets, base, token, table, show);
    Ok(ScoreBody(f))
  }

  /** The reads of `send_score`, before the values enter the template. */
  function ScoreFieldsRead(m: Snapshot, rulesets: int, base: int, token: Option<string>, table: ModTable, show: real -> string): (r: Result<ScoreFields, SubmitError>)
    ensures token.None? ==> r == Err(NoToken)
    ensures r.Ok? ==> ResultScreen.GetResultAccuracy(m, rulesets).Ok? && Gameplay.GetMods(m, rulesets).Ok?
  {
    CombineReads(
      token, Beatmap.GetBeatmapMd5(m, base), ResultScreen.ResultScore(m, rulesets), ResultScreen.GetResultAccuracy(m, rulesets),
      ResultScreen.ResultHitGeki(m, rulesets), ResultScreen.ResultHit300(m, rulesets), ResultScreen.ResultHitKatu(m, rulesets),
      ResultScreen.ResultHit100(m, rulesets), ResultScreen.ResultHit50(m, rulesets), ResultScreen.ResultHitMiss(m, rulesets),
      Gameplay.GetMods(m, rulesets), ResultScreen.ResultMaxCombo(m, rulesets), table, show)
  }

  /** The outcomes of the reads, taken in template order: the first failure
      is the error, otherwise the fields to splice. */
  function CombineReads(
    token: Option<string>, md5: Result<string, ReadError>, score: Result<int, ReadError>,
    accuracy: Result<real, ResultScreen.ResultError>, geki: Result<int, ReadError>, h300: Result<int, ReadError>,
    katu: Result<int, ReadError>, h100: Result<int, ReadError>, h50: Result<int, ReadError>,
    miss: Result<int, ReadError>, mods: Result<bv32, ReadError>, combo: Result<int, ReadError>,
    table: ModTable, show: real -> string): (r: Result<ScoreFields, SubmitError>)
    ensures token.None? ==> r == Err(NoToken)
    ensures r.Ok? <==> token.Some? && md5.Ok? && score.Ok? && accuracy.Ok? && geki.Ok? && h300.Ok? && katu.Ok?
                       && h100.Ok? && h50.Ok? && miss.Ok? && mods.Ok? && combo.Ok?
  {
    if token.None? then Err(NoToken)
    else if md5.Err? then Err(ReadFailed(md5.error))
    else if score.Err? then Err(ReadFailed(score.error))
    else if accuracy.Err? then Err(AccuracyFailed(accuracy.error))
    else if geki.Err? then Err(ReadFailed(geki.error))
    else if h300.Err? then Err(ReadFailed(h300.error))
    else if katu.Err? then Err(ReadFailed(katu.error))
    else if h100.Err? then Err(ReadFailed(h100.error))
    else if h50.Err? then Err(ReadFailed(h50.error))
    else if miss.Err? then Err(ReadFailed(miss.error))
    else if mods.Err? then Err(ReadFailed(mods.error))
    else if combo.Err? then Err(ReadFailed(combo.error))
    else
      var hits := ResultScreen.Hits(h300.value, h100.value, h50.value, geki.value, katu.value, miss.value);
      Ok(ScoreFieldsOf(token.value, md5.value, score.value, show(accuracy.value * 100.0), hits,
                       ModsToString(table, mods.value), combo.value))
  }

  lemma CombineSucceeds(token: string, md5: string, score: int, accuracy: real, hits: ResultScreen.Hits, mods: bv32, combo: int, table: ModTable, show: real -> string)
    ensures CombineReads(Some(token), Ok(md5), Ok(score), Ok(accuracy), Ok(hits.geki), Ok(hits.h300), Ok(hits.katu),
                        Ok(hits.h100), Ok(hits.h50), Ok(hits.miss), Ok(mods), Ok(combo), table, show)
      == Ok(ScoreFieldsOf(token, md5, score, show(accuracy * 100.0), hits, ModsToString(table, mods), combo))
  {
  }

  /** Given what each getter returns, the body is the template filled with
      those values. */
  lemma SendScoreOfReads(
    m: Snapshot, rulesets: int, base: int, token: string, table: ModTable, show: real -> string,
    md5: string, score: int, accuracy: real, hits: ResultScreen.Hits, mods: bv32, combo: int)
    requires Beatmap.GetBeatmapMd5(m, base) == Ok(md5)
    requires ResultScreen.ResultScore(m, rulesets) == Ok(score)
    requires ResultScreen.GetResultAccuracy(m, rulesets) == Ok(accuracy)
    requires ResultScreen.ResultHitGeki(m, rulesets) == Ok(hits.geki)
    requires ResultScreen.ResultHit300(m, rulesets) == Ok(hits.h300)
    requires ResultScreen.ResultHitKatu(m, rulesets) == Ok(hits.katu)
    requires ResultScreen.ResultHit100(m, rulesets) == Ok(hits.h100)
    requires ResultScreen.ResultHit50(m, rulesets) == Ok(hits.h50)
    requires ResultScreen.ResultHitMiss(m, rulesets) == Ok(hits.miss)
    requires Gameplay.GetMods(m, rulesets) == Ok(mods)
    requires ResultScreen.ResultMaxCombo(m, rulesets) == Ok(combo)
    ensures SendScore(m, rulesets, base, Some(token), table, show)
      == Ok(ScoreBody(ScoreFieldsOf(token, md5, score, show(accuracy * 100.0), hits, ModsToString(table, mods), combo)))
  {
    var f := ScoreFieldsOf(token, md5, score, show(accuracy * 100.0), hits, ModsToString(table, mods), combo);
    CombineSucceeds(token, md5, score, accuracy, hits, mods, combo, table, show);
    assert ScoreFieldsRead(m, rulesets, base, Some(token), table, show) == Ok(f);
  }

  /** On a result screen over a selected beatmap, the body carries that
      beatmap's md5, the screen's score, combo and hit counts, the accuracy
      as a percentage and the mods read from the two mods words. */
  lemma SendScoreReadsLayout(
    m: Snapshot, rulesets: int, base: int, b: int, text: Beatmap.BeatmapText,
    r: int, v: ResultScreen.ResultValues, t: int, a1: int, a2: int, accuracy: real,
    token: string, table: ModTable, show: real -> string)
    requires Beatmap.BeatmapAt(m, base, b, text)
    requires ResultScreen.ResultScreenAt(m, rulesets, r, v)
    requires ChainEndsAt(m, rulesets, Gameplay.ModsChain, t)
    requires ReadU64(m, t + Gameplay.ModsWordA) == Ok(a1) && ReadU64(m, t + Gameplay.ModsWordB) == Ok(a2)
    requires ResultScreen.GetResultAccuracy(m, rulesets) == Ok(accuracy)
    ensures 0 <= a1 < U64Bound && 0 <= a2 < U64Bound
    ensures SendScore(m, rulesets, base, Some(token), table, show)
      == Ok(ScoreBody(ScoreFieldsOf(token, text.md5, v.score, show(accuracy * 100.0), v.hits,
                                    ModsToString(table, Gameplay.ModsOf(a1 as bv64, a2 as bv64)), v.maxCombo)))
  {
    Beatmap.BeatmapGettersReadLayout(m, base, b, text);
    ResultScreen.ResultGettersReadLayout(m, rulesets, r, v);
    ResultScreen.ResultHitsReadLayout(m, rulesets, r, v);
    Gameplay.GetModsReadsLayout(m, rulesets, t, a1, a2);
    SendScoreOfReads(m, rulesets, base, token, table, show, text.md5, v.score, accuracy, v.hits,
                     Gameplay.ModsOf(a1 as bv64, a2 as bv64), v.maxCombo);
  }
}
