/** The result screen: the mode-specific accuracy formula and the getters
    that read the finished play through the ruleset pointer chain. */
module ResultScreen {
  import opened Results
  import opened Memory

  // ---------------------------------------------------------------------
  // Accuracy
  // ---------------------------------------------------------------------

  /** The six judgement counts of a play (each an `i16` in memory). */
  datatype Hits = Hits(h300: int, h100: int, h50: int, geki: int, katu: int, miss: int)

  predicate HitsInI16(h: Hits)
  {
    && I16Min <= h.h300 <= I16Max && I16Min <= h.h100 <= I16Max && I16Min <= h.h50 <= I16Max
    && I16Min <= h.geki <= I16Max && I16Min <= h.katu <= I16Max && I16Min <= h.miss <= I16Max
  }

  predicate NonNegative(h: Hits)
  {
    h.h300 >= 0 && h.h100 >= 0 && h.h50 >= 0 && h.geki >= 0 && h.katu >= 0 && h.miss >= 0
  }

  /** A panic of the source is an error here: a mode other than 0 to 3, or
      an `i16` overflow while adding the counts. A zero denominator makes
      the source's `f64` division produce NaN or an infinity; the model
      reports it as `NonFinite` instead of a number. */
  datatype AccuracyError = UnsupportedMode(mode: int) | SumOverflow | NonFinite

  /** The running totals of the `i16` additions each mode's formula makes,
      in the order the source adds them (the catch and mania numerators
      are prefixes of their denominators' sums). */
  function RunningSums(mode: int, h: Hits): seq<int>
    requires 0 <= mode <= 3
  {
    match mode
    case 0 => [h.h300, h.h300 + h.h100, h.h300 + h.h100 + h.h50, h.h300 + h.h100 + h.h50 + h.miss]
    case 1 => [h.h300, h.h300 + h.h100, h.h300 + h.h100 + h.h50, h.h300 + h.h100 + h.h50 + h.miss]
    case 2 =>
      [h.h300, h.h300 + h.h100, h.h300 + h.h100 + h.h50, h.h300 + h.h100 + h.h50 + h.katu,
       h.h300 + h.h100 + h.h50 + h.katu + h.miss]
    case 3 =>
      [h.geki, h.geki + h.h300, h.geki + h.h300 + h.katu, h.geki + h.h300 + h.katu + h.h100,
       h.geki + h.h300 + h.katu + h.h100 + h.h50, h.geki + h.h300 + h.katu + h.h100 + h.h50 + h.miss]
  }

  /** No running total leaves the `i16` range, so no addition panics. */
  predicate SumsFit(xs: seq<int>)
  {
    forall i :: 0 <= i < |xs| ==> I16Min <= xs[i] <= I16Max
  }

  /** The number of judgements the mode's denominator counts. */
  function CountTotal(mode: int, h: Hits): int
    requires 0 <= mode <= 3
  {
    var xs := RunningSums(mode, h);
    xs[|xs| - 1]
  }

  /** Numerator and denominator of each mode's formula, term by term as the
      source writes them; taiko's numerator has no `hit_50` term. */
  function Formula(mode: int, h: Hits): (real, real)
    requires 0 <= mode <= 3
  {
    match mode
    case 0 =>
      ((h.h300 as real) * 6.0 + (h.h100 as real) * 2.0 + (h.h50 as real),
       ((h.h300 + h.h100 + h.h50 + h.miss) as real) * 6.0)
    case 1 =>
      ((h.h300 as real) * 2.0 + (h.h100 as real),
       ((h.h300 + h.h100 + h.h50 + h.miss) as real) * 2.0)
    case 2 =>
      ((h.h300 + h.h100 + h.h50) as real,
       (h.h300 + h.h100 + h.h50 + h.katu + h.miss) as real)
    case 3 =>
      (((h.geki + h.h300) as real) * 6.0 + (h.katu as real) * 4.0 + (h.h100 as real) * 2.0 + (h.h50 as real),
       ((h.geki + h.h300 + h.katu + h.h100 + h.h50 + h.miss) as real) * 6.0)
  }

  /** `calculate_accuracy` for an 8-bit mode: an unsupported mode and an
      overflowing count are errors, and a play with no counted judgement has
      no accuracy. */
  function CalculateAccuracy(mode: int, h: Hits): (r: Result<real, AccuracyError>)
    requires 0 <= mode < 256 && HitsInI16(h)
    ensures r == Err(UnsupportedMode(mode)) <==> mode > 3
    ensures mode <= 3 ==> (r == Err(SumOverflow) <==> !SumsFit(RunningSums(mode, h)))
    ensures mode <= 3 && SumsFit(RunningSums(mode, h)) ==> (r.Ok? <==> CountTotal(mode, h) != 0)
  {
    if mode > 3 then Err(UnsupportedMode(mode))
    else if !SumsFit(RunningSums(mode, h)) then Err(SumOverflow)
    else
      var (num, den) := Formula(mode, h);
      if den == 0.0 then Err(NonFinite) else Ok(num / den)
  }

  // The reference: accuracy as a weighted mean of the judgements.

  /** A judgement counted by the mode, with the fraction of a perfect hit
      it is worth. */
  datatype Judged = Judged(weight: real, count: int)

  /** The judgements each mode counts and what each is worth: standard
      300/100/50 are 1, 1/3 and 1/6; taiko 300/100 are 1 and 1/2 and a 50
      is worth nothing; catch counts 300, 100 and 50 as caught and a katu
      (a missed droplet) as nothing; mania counts geki and 300 as 1, katu
      as 2/3, 100 as 1/3 and 50 as 1/6. A miss is worth nothing. */
  function Tally(mode: int, h: Hits): seq<Judged>
    requires 0 <= mode <= 3
  {
    match mode
    case 0 => [Judged(1.0, h.h300), Judged(1.0 / 3.0, h.h100), Judged(1.0 / 6.0, h.h50), Judged(0.0, h.miss)]
    case 1 => [Judged(1.0, h.h300), Judged(1.0 / 2.0, h.h100), Judged(0.0, h.h50), Judged(0.0, h.miss)]
    case 2 => [Judged(1.0, h.h300), Judged(1.0, h.h100), Judged(1.0, h.h50), Judged(0.0, h.katu), Judged(0.0, h.miss)]
    case 3 =>
      [Judged(1.0, h.geki), Judged(1.0, h.h300), Judged(2.0 / 3.0, h.katu), Judged(1.0 / 3.0, h.h100),
       Judged(1.0 / 6.0, h.h50), Judged(0.0, h.miss)]
  }

  function Earned(t: seq<Judged>): real
  {
    if |t| == 0 then 0.0 else Earned(t[1..]) + Credit(t[0])
  }

  function Counted(t: seq<Judged>): int
  {
    if |t| == 0 then 0 else Counted(t[1..]) + t[0].count
  }

  /** The credit of one judgement. */
  function Credit(j: Judged): real
  {
    j.weight * (j.count as real)
  }

  lemma EarnedCons(j: Judged, t: seq<Judged>)
    ensures Earned([j] + t) == Credit(j) + Earned(t)
    ensures Counted([j] + t) == j.count + Counted(t)
  {
    assert ([j] + t)[1..] == t;
  }

  lemma {:induction false} TallyOfFour(a: Judged, b: Judged, c: Judged, d: Judged)
    ensures Earned([a, b, c, d]) == Credit(a) + Credit(b) + Credit(c) + Credit(d)
    ensures Counted([a, b, c, d]) == a.count + b.count + c.count + d.count
  {
    EarnedCons(d, []);
    EarnedCons(c, [d]);
    EarnedCons(b, [c, d]);
    EarnedCons(a, [b, c, d]);
    assert [d] == [d] + [];
    assert [c, d] == [c] + [d];
    assert [b, c, d] == [b] + [c, d];
    assert [a, b, c, d] == [a] + [b, c, d];
  }

  lemma {:induction false} TallyOfFive(a: Judged, b: Judged, c: Judged, d: Judged, e: Judged)
    ensures Earned([a, b, c, d, e]) == Credit(a) + Credit(b) + Credit(c) + Credit(d) + Credit(e)
    ensures Counted([a, b, c, d, e]) == a.count + b.count + c.count + d.count + e.count
  {
    TallyOfFour(b, c, d, e);
    EarnedCons(a, [b, c, d, e]);
    assert [a, b, c, d, e] == [a] + [b, c, d, e];
  }

  lemma {:induction false} TallyOfSix(a: Judged, b: Judged, c: Judged, d: Judged, e: Judged, f: Judged)
    ensures Earned([a, b, c, d, e, f]) == Credit(a) + Credit(b) + Credit(c) + Credit(d) + Credit(e) + Credit(f)
    ensures Counted([a, b, c, d, e, f]) == a.count + b.count + c.count + d.count + e.count + f.count
  {
    TallyOfFive(b, c, d, e, f);
    EarnedCons(a, [b, c, d, e, f]);
    assert [a, b, c, d, e, f] == [a] + [b, c, d, e, f];
  }

  /** The scale each mode's formula multiplies both sides by. */
  function Scale(mode: int): (k: real)
    ensures k > 0.0
  {
    if mode == 2 then 1.0 else if mode == 1 then 2.0 else 6.0
  }

  /** The tally counts what the denominator counts and earns what the
      numerator adds, both divided by the mode's scale. */
  lemma TallyTotals(mode: int, h: Hits)
    requires 0 <= mode <= 3
    ensures Counted(Tally(mode, h)) == CountTotal(mode, h)
    ensures Formula(mode, h).1 == Scale(mode) * (CountTotal(mode, h) as real)
    ensures Formula(mode, h).0 == Scale(mode) * Earned(Tally(mode, h))
  {
    if mode == 0 {
      TallyTotalsStandard(h);
    } else if mode == 1 {
      TallyTotalsTaiko(h);
    } else if mode == 2 {
      TallyTotalsCatch(h);
    } else {
      TallyTotalsMania(h);
    }
  }

  lemma {:induction false} TallyTotalsStandard(h: Hits)
    ensures Counted(Tally(0, h)) == CountTotal(0, h)
    ensures Formula(0, h).1 == 6.0 * (CountTotal(0, h) as real)
    ensures Formula(0, h).0 == 6.0 * Earned(Tally(0, h))
  {
    var t := Tally(0, h);
    TallyOfFour(t[0], t[1], t[2], t[3]);
    assert t == [t[0], t[1], t[2], t[3]];
  }

  lemma {:induction false} TallyTotalsTaiko(h: Hits)
    ensures Counted(Tally(1, h)) == CountTotal(1, h)
    ensures Formula(1, h).1 == 2.0 * (CountTotal(1, h) as real)
    ensures Formula(1, h).0 == 2.0 * Earned(Tally(1, h))
  {
    var t := Tally(1, h);
    TallyOfFour(t[0], t[1], t[2], t[3]);
    assert t == [t[0], t[1], t[2], t[3]];
  }

  lemma {:induction false} TallyTotalsCatch(h: Hits)
    ensures Counted(Tally(2, h)) == CountTotal(2, h)
    ensures Formula(2, h).1 == 1.0 * (CountTotal(2, h) as real)
    ensures Formula(2, h).0 == 1.0 * Earned(Tally(2, h))
  {
    var t := Tally(2, h);
    TallyOfFive(t[0], t[1], t[2], t[3], t[4]);
    assert t == [t[0], t[1], t[2], t[3], t[4]];
  }

  lemma {:induction false} TallyTotalsMania(h: Hits)
    ensures Counted(Tally(3, h)) == CountTotal(3, h)
    ensures Formula(3, h).1 == 6.0 * (CountTotal(3, h) as real)
    ensures Formula(3, h).0 == 6.0 * Earned(Tally(3, h))
  {
    var t := Tally(3, h);
    TallyOfSix(t[0], t[1], t[2], t[3], t[4], t[5]);
    assert t == [t[0], t[1], t[2], t[3], t[4], t[5]];
  }

  /** Once the sums fit, the accuracy is the formula's quotient, or no
      value when the denominator is zero. */
  lemma AccuracyOfFormula(mode: int, h: Hits)
    requires 0 <= mode <= 3 && HitsInI16(h) && SumsFit(RunningSums(mode, h))
    ensures var (num, den) := Formula(mode, h);
      CalculateAccuracy(mode, h) == if den == 0.0 then Err(NonFinite) else Ok(num / den)
  {
  }

  /** The formula's quotient is the credit earned over the judgements
      counted, and its denominator is zero exactly when nothing is counted. */
  lemma FormulaIsMean(mode: int, h: Hits)
    requires 0 <= mode <= 3
    ensures Formula(mode, h).1 == 0.0 <==> Counted(Tally(mode, h)) == 0
    ensures Formula(mode, h).1 != 0.0 ==>
      Formula(mode, h).0 / Formula(mode, h).1 == Earned(Tally(mode, h)) / (Counted(Tally(mode, h)) as real)
  {
    var e, n := Earned(Tally(mode, h)), Counted(Tally(mode, h)) as real;
    if mode == 0 {
      TallyTotalsStandard(h);
      MeanOfScaled(Formula(0, h).0, Formula(0, h).1, 6.0, e, n);
    } else if mode == 1 {
      TallyTotalsTaiko(h);
      MeanOfScaled(Formula(1, h).0, Formula(1, h).1, 2.0, e, n);
    } else if mode == 2 {
      TallyTotalsCatch(h);
      MeanOfScaled(Formula(2, h).0, Formula(2, h).1, 1.0, e, n);
    } else {
      TallyTotalsMania(h);
      MeanOfScaled(Formula(3, h).0, Formula(3, h).1, 6.0, e, n);
    }
  }

  /** The accuracy is defined exactly when the mode counts at least one
      judgement, and it is then the credit earned over the judgements
      counted: the formula is a weighted mean. */
  lemma AccuracyIsWeightedMean(mode: int, h: Hits)
    requires 0 <= mode <= 3 && HitsInI16(h) && SumsFit(RunningSums(mode, h))
    ensures CalculateAccuracy(mode, h).Ok? <==> Counted(Tally(mode, h)) != 0
    ensures CalculateAccuracy(mode, h).Ok? ==>
      CalculateAccuracy(mode, h).value == Earned(Tally(mode, h)) / (Counted(Tally(mode, h)) as real)
  {
    AccuracyOfFormula(mode, h);
    FormulaIsMean(mode, h);
  }

  /** Scaling numerator and denominator by the same positive factor changes
      neither whether the denominator is zero nor the quotient. */
  lemma MeanOfScaled(num: real, den: real, k: real, e: real, n: real)
    requires k > 0.0 && num == k * e && den == k * n
    ensures den == 0.0 <==> n == 0.0
    ensures n != 0.0 ==> num / den == e / n
  {
    if n != 0.0 {
      CancelScale(k, e, n);
    }
  }

  lemma CancelScale(k: real, a: real, n: real)
    requires k != 0.0 && n != 0.0
    ensures (k * a) / (k * n) == a / n
  {
  }

  predicate WeightsInUnit(t: seq<Judged>)
  {
    forall i :: 0 <= i < |t| ==> 0.0 <= t[i].weight <= 1.0 && t[i].count >= 0
  }

  lemma {:induction false} EarnedBounds(t: seq<Judged>)
    requires WeightsInUnit(t)
    ensures 0.0 <= Earned(t) <= Counted(t) as real
    ensures Counted(t) >= 0
    decreases |t|
  {
    if |t| > 0 {
      assert WeightsInUnit(t[1..]) by {
        forall i | 0 <= i < |t[1..]| ensures 0.0 <= t[1..][i].weight <= 1.0 && t[1..][i].count >= 0 {
          assert t[1..][i] == t[i + 1];
        }
      }
      EarnedBounds(t[1..]);
      CreditInUnit(t[0]);
      AddBounds(Earned(t[1..]), Counted(t[1..]) as real, Credit(t[0]), t[0].count as real);
    }
  }

  lemma AddBounds(e: real, n: real, x: real, c: real)
    requires 0.0 <= e <= n && 0.0 <= x <= c
    ensures 0.0 <= e + x <= n + c
  {
  }

  /** A judgement weighted within [0, 1] earns between nothing and its
      count. */
  lemma CreditInUnit(j: Judged)
    requires 0.0 <= j.weight <= 1.0 && j.count >= 0
    ensures 0.0 <= Credit(j) <= j.count as real
  {
    var c := j.count as real;
    assert c - j.weight * c == (1.0 - j.weight) * c;
  }

  lemma QuotientInUnit(a: real, n: real)
    requires 0.0 <= a <= n && n > 0.0
    ensures 0.0 <= a / n <= 1.0
  {
    assert a / n * n == a;
  }

  /** With non-negative counts the accuracy of every supported mode lies
      in [0, 1]. */
  lemma AccuracyInUnitInterval(mode: int, h: Hits)
    requires 0 <= mode <= 3 && HitsInI16(h) && NonNegative(h)
    requires CalculateAccuracy(mode, h).Ok?
    ensures 0.0 <= CalculateAccuracy(mode, h).value <= 1.0
  {
    var t := Tally(mode, h);
    AccuracyIsWeightedMean(mode, h);
    EarnedBounds(t);
    QuotientInUnit(Earned(t), Counted(t) as real);
  }

  /** A play of nothing but 300s is 100 % in every mode. */
  lemma OnlyGreatsIsPerfect(mode: int, n: int)
    requires 0 <= mode <= 3 && 0 < n <= I16Max
    ensures CalculateAccuracy(mode, Hits(n, 0, 0, 0, 0, 0)) == Ok(1.0)
  {
    var h := Hits(n, 0, 0, 0, 0, 0);
    assert SumsFit(RunningSums(mode, h));
    AccuracyOfFormula(mode, h);
    var num, den := Formula(mode, h).0, Formula(mode, h).1;
    assert num == den && den > 0.0;
    assert CalculateAccuracy(mode, h) == Ok(num / den);
    QuotientOfSelf(den);
  }

  lemma QuotientOfSelf(x: real)
    requires x != 0.0
    ensures x / x == 1.0
  {
  }

  /** Taiko literally: one 300 and one 50 give 50 %, the 50 only adds to the
      denominator. */
  lemma TaikoFiftyEarnsNothing()
    ensures CalculateAccuracy(1, Hits(1, 0, 1, 0, 0, 0)) == Ok(0.5)
  {
  }

  // ---------------------------------------------------------------------
  // Result-screen getters
  // ---------------------------------------------------------------------

  /** From `rulesets`: dereference at -0xb, then +0x4, then +0x38; the last
      pointer is the result-screen score object. */
  const ResultChain: seq<int> := [-0xb, 0x4, 0x38]

  const UsernameField: int := 0x28
  const ModeField: int := 0x64
  const MaxComboField: int := 0x68
  const ScoreField: int := 0x78
  const Hit100Field: int := 0x88
  const Hit300Field: int := 0x8A
  const Hit50Field: int := 0x8C
  const GekiField: int := 0x8E
  const KatuField: int := 0x90
  const MissField: int := 0x92

  function ResultUsername(m: Snapshot, rulesets: int): (r: Result<string, ReadError>)
    ensures IsChainString(m, rulesets, ResultChain, UsernameField, r)
  {
    ChainString(m, rulesets, ResultChain, UsernameField)
  }

  function ResultScore(m: Snapshot, rulesets: int): (r: Result<int, ReadError>)
    ensures r.Ok? ==> I32Min <= r.value <= I32Max
  {
    ChainI32(m, rulesets, ResultChain, ScoreField)
  }

  /** `get_result_mode`: the `i32` at +0x64 cast to `u8`, i.e. its value
      modulo 256. */
  function ResultMode(m: Snapshot, rulesets: int): (r: Result<int, ReadError>)
    ensures r.Ok? <==> ChainI32(m, rulesets, ResultChain, ModeField).Ok?
    ensures r.Ok? ==> 0 <= r.value < 256 && (ChainI32(m, rulesets, ResultChain, ModeField).value - r.value) % 256 == 0
  {
    CastU8(ChainI32(m, rulesets, ResultChain, ModeField))
  }

  /** An `as u8` cast of a read word: its value modulo 256. */
  function CastU8(word: Result<int, ReadError>): (r: Result<int, ReadError>)
    ensures r.Ok? <==> word.Ok?
    ensures r.Ok? ==> 0 <= r.value < 256 && (word.value - r.value) % 256 == 0
  {
    match word
    case Ok(w) => Ok(w % 256)
    case Err(e) => Err(e)
  }

  function ResultHit300(m: Snapshot, rulesets: int): (r: Result<int, ReadError>)
    ensures r.Ok? ==> I16Min <= r.value <= I16Max
  {
    ChainI16(m, rulesets, ResultChain, Hit300Field)
  }

  function ResultHit100(m: Snapshot, rulesets: int): (r: Result<int, ReadError>)
    ensures r.Ok? ==> I16Min <= r.value <= I16Max
  {
    ChainI16(m, rulesets, ResultChain, Hit100Field)
  }

  function ResultHit50(m: Snapshot, rulesets: int): (r: Result<int, ReadError>)
    ensures r.Ok? ==> I16Min <= r.value <= I16Max
  {
    ChainI16(m, rulesets, ResultChain, Hit50Field)
  }

  function ResultHitGeki(m: Snapshot, rulesets: int): (r: Result<int, ReadError>)
    ensures r.Ok? ==> I16Min <= r.value <= I16Max
  {
    ChainI16(m, rulesets, ResultChain, GekiField)
  }

  function ResultHitKatu(m: Snapshot, rulesets: int): (r: Result<int, ReadError>)
    ensures r.Ok? ==> I16Min <= r.value <= I16Max
  {
    ChainI16(m, rulesets, ResultChain, KatuField)
  }

  function ResultHitMiss(m: Snapshot, rulesets: int): (r: Result<int, ReadError>)
    ensures r.Ok? ==> I16Min <= r.value <= I16Max
  {
    ChainI16(m, rulesets, ResultChain, MissField)
  }

  function ResultMaxCombo(m: Snapshot, rulesets: int): (r: Result<int, ReadError>)
    ensures r.Ok? ==> I16Min <= r.value <= I16Max
  {
    ChainI16(m, rulesets, ResultChain, MaxComboField)
  }

  datatype ResultError = ReadFailed(cause: ReadError) | AccuracyFailed(reason: AccuracyError)

  /** `get_result_accuracy`: reads mode, 300, 100, 50, geki, katu and miss in
      that order (the first failing read is the error) and applies the
      formula. */
  function GetResultAccuracy(m: Snapshot, rulesets: int): (r: Result<real, ResultError>)
    ensures r.Ok? ==> ResultMode(m, rulesets).Ok? && ResultMode(m, rulesets).value <= 3
  {
    var mode :- ResultMode(m, rulesets).MapErr(e => ReadFailed(e));
    var h300 :- ResultHit300(m, rulesets).MapErr(e => ReadFailed(e));
    var h100 :- ResultHit100(m, rulesets).MapErr(e => ReadFailed(e));
    var h50 :- ResultHit50(m, rulesets).MapErr(e => ReadFailed(e));
    var geki :- ResultHitGeki(m, rulesets).MapErr(e => ReadFailed(e));
    var katu :- ResultHitKatu(m, rulesets).MapErr(e => ReadFailed(e));
    var miss :- ResultHitMiss(m, rulesets).MapErr(e => ReadFailed(e));
    CalculateAccuracy(mode, Hits(h300, h100, h50, geki, katu, miss)).MapErr(e => AccuracyFailed(e))
  }

  // ---------------------------------------------------------------------
  // Layout: what the getters read, stated as a picture of memory
  // ---------------------------------------------------------------------

  datatype ResultValues = ResultValues(username: string, score: int, modeWord: int, hits: Hits, maxCombo: int)

  /** Memory holds a result screen: the chain from `rulesets` ends at the
      score object `b`, whose fields hold these values. */
  predicate ResultScreenAt(m: Snapshot, rulesets: int, b: int, v: ResultValues)
  {
    && ChainEndsAt(m, rulesets, ResultChain, b)
    && ReadString(m, b + UsernameField) == Ok(v.username)
    && ReadI32(m, b + ScoreField) == Ok(v.score)
    && ReadI32(m, b + ModeField) == Ok(v.modeWord)
    && ReadI16(m, b + Hit300Field) == Ok(v.hits.h300)
    && ReadI16(m, b + Hit100Field) == Ok(v.hits.h100)
    && ReadI16(m, b + Hit50Field) == Ok(v.hits.h50)
    && ReadI16(m, b + GekiField) == Ok(v.hits.geki)
    && ReadI16(m, b + KatuField) == Ok(v.hits.katu)
    && ReadI16(m, b + MissField) == Ok(v.hits.miss)
    && ReadI16(m, b + MaxComboField) == Ok(v.maxCombo)
  }

  /** The name, score, mode and combo getters return their own fields of
      the result screen. */
  lemma ResultGettersReadLayout(m: Snapshot, rulesets: int, b: int, v: ResultValues)
    requires ResultScreenAt(m, rulesets, b, v)
    ensures ResultUsername(m, rulesets) == Ok(v.username)
    ensures ResultScore(m, rulesets) == Ok(v.score)
    ensures ResultMode(m, rulesets) == Ok(v.modeWord % 256)
    ensures ResultMaxCombo(m, rulesets) == Ok(v.maxCombo)
  {
    ChainReadsTarget(m, rulesets, ResultChain, b, UsernameField);
    ChainReadsTarget(m, rulesets, ResultChain, b, ScoreField);
    ChainReadsTarget(m, rulesets, ResultChain, b, ModeField);
    ChainReadsTarget(m, rulesets, ResultChain, b, MaxComboField);
  }

  /** Each hit-count getter returns its own slot of the result screen. */
  lemma ResultHitsReadLayout(m: Snapshot, rulesets: int, b: int, v: ResultValues)
    requires ResultScreenAt(m, rulesets, b, v)
    ensures ResultHit300(m, rulesets) == Ok(v.hits.h300)
    ensures ResultHit100(m, rulesets) == Ok(v.hits.h100)
    ensures ResultHit50(m, rulesets) == Ok(v.hits.h50)
    ensures ResultHitGeki(m, rulesets) == Ok(v.hits.geki)
    ensures ResultHitKatu(m, rulesets) == Ok(v.hits.katu)
    ensures ResultHitMiss(m, rulesets) == Ok(v.hits.miss)
  {
    ChainReadsTarget(m, rulesets, ResultChain, b, Hit300Field);
    ChainReadsTarget(m, rulesets, ResultChain, b, Hit100Field);
    ChainReadsTarget(m, rulesets, ResultChain, b, Hit50Field);
    ChainReadsTarget(m, rulesets, ResultChain, b, GekiField);
    ChainReadsTarget(m, rulesets, ResultChain, b, KatuField);
    ChainReadsTarget(m, rulesets, ResultChain, b, MissField);
  }

  /** On a readable result screen the accuracy is the formula applied to the
      low byte of the mode word and the six counts. */
  lemma ResultAccuracyReadsLayout(m: Snapshot, rulesets: int, b: int, v: ResultValues)
    requires ResultScreenAt(m, rulesets, b, v)
    ensures HitsInI16(v.hits)
    ensures GetResultAccuracy(m, rulesets) == CalculateAccuracy(v.modeWord % 256, v.hits).MapErr(e => AccuracyFailed(e))
  {
    ResultGettersReadLayout(m, rulesets, b, v);
    ResultHitsReadLayout(m, rulesets, b, v);
  }
}
