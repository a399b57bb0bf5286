/** `calc_pp`: the performance points of a beatmap at four accuracies. The
    performance calculator itself is a parameter: `pp(map, accuracy)` is
    what it reports for the unmodded beatmap at that accuracy (in percent). */
module Performance {
  import opened Results
  import opened Memory

  /** `f64 as i32`: truncation toward zero, saturating at the bounds of
      `i32`. */
  function SaturateToI32(x: real): (r: int)
    ensures I32Min <= r <= I32Max
    ensures x >= I32Max as real ==> r == I32Max
    ensures x <= I32Min as real ==> r == I32Min
    ensures I32Min as real < x < I32Max as real && x >= 0.0 ==> r as real <= x < r as real + 1.0
    ensures I32Min as real < x < I32Max as real && x < 0.0 ==> r as real - 1.0 < x <= r as real
  {
    if x >= I32Max as real then I32Max
    else if x <= I32Min as real then I32Min
    else if x >= 0.0 then x.Floor
    else -((-x).Floor)
  }

  /** The cast keeps the order of its inputs. */
  lemma SaturateMonotone(x: real, y: real)
    requires x <= y
    ensures SaturateToI32(x) <= SaturateToI32(y)
  {
    if I32Min as real < x < I32Max as real && I32Min as real < y < I32Max as real {
      if x >= 0.0 {
        assert x.Floor <= y.Floor;
      } else if y < 0.0 {
        assert (-y).Floor <= (-x).Floor;
      }
    }
  }

  /** Whole numbers in range pass through unchanged. */
  lemma SaturateWhole(n: int)
    requires I32Min <= n <= I32Max
    ensures SaturateToI32(n as real) == n
  {
  }

  /** The accuracies `calc_pp` asks for, in order. */
  const PpAccuracies: seq<real> := [95.0, 98.0, 99.0, 100.0]

  /** `calc_pp`: loading the beatmap is the `unwrap` that fails (`None`);
      otherwise one integer per accuracy, in order. */
  function CalcPp<M>(beatmap: Option<M>, pp: (M, real) -> real): (r: Option<seq<int>>)
    ensures r.Some? <==> beatmap.Some?
    ensures r.Some? ==> |r.value| == |PpAccuracies| == 4
    ensures r.Some? ==> forall i :: 0 <= i < 4 ==> I32Min <= r.value[i] <= I32Max
  {
    match beatmap
    case None => None
    case Some(b) => Some([SaturateToI32(pp(b, 95.0)), SaturateToI32(pp(b, 98.0)),
                          SaturateToI32(pp(b, 99.0)), SaturateToI32(pp(b, 100.0))])
  }

  /** Entry `i` is the calculator's value at the `i`-th accuracy, truncated:
      within one point of it whenever it fits an `i32`. */
  lemma CalcPpEntries<M>(b: M, pp: (M, real) -> real, i: nat)
    requires i < 4
    ensures CalcPp(Some(b), pp).value[i] == SaturateToI32(pp(b, PpAccuracies[i]))
    ensures 0.0 <= pp(b, PpAccuracies[i]) < I32Max as real ==>
      var v := CalcPp(Some(b), pp).value[i] as real; v <= pp(b, PpAccuracies[i]) < v + 1.0
  {
  }

  /** When more accuracy never means fewer points, the four values do not
      decrease. */
  lemma CalcPpOrdered<M>(b: M, pp: (M, real) -> real)
    requires forall a1, a2 :: a1 <= a2 ==> pp(b, a1) <= pp(b, a2)
    ensures var r := CalcPp(Some(b), pp).value;
      r[0] <= r[1] <= r[2] <= r[3]
  {
    SaturateMonotone(pp(b, 95.0), pp(b, 98.0));
    SaturateMonotone(pp(b, 98.0), pp(b, 99.0));
    SaturateMonotone(pp(b, 99.0), pp(b, 100.0));
  }
}
