/** The pattern filter of the menu loop: from the pattern detector's JSON
    report, the names of the tertiary patterns whose weight is close to the
    strongest one. */
module Patterns {
  import opened Results

  /** A JSON value; an object is its fields in iteration order. */
  datatype Json =
    | JNull
    | JBool(b: bool)
    | JNumber(n: real)
    | JString(s: string)
    | JArray(items: seq<Json>)
    | JObject(fields: seq<(string, Json)>)

  /** `Value::get` on an object: the value stored under `key`. Anything
      other than an object has no fields. */
  function Get(v: Json, key: string): (r: Option<Json>)
    ensures r.Some? ==> v.JObject? && exists i :: 0 <= i < |v.fields| && v.fields[i] == (key, r.value)
    ensures r.None? && v.JObject? ==> forall i :: 0 <= i < |v.fields| ==> v.fields[i].0 != key
  {
    if v.JObject? then Lookup(v.fields, key) else None
  }

  function Lookup(fields: seq<(string, Json)>, key: string): (r: Option<Json>)
    ensures r.Some? ==> exists i :: 0 <= i < |fields| && fields[i] == (key, r.value)
    ensures r.None? ==> forall i :: 0 <= i < |fields| ==> fields[i].0 != key
    decreases |fields|
  {
    if |fields| == 0 then None
    else if fields[0].0 == key then Some(fields[0].1)
    else
      var r := Lookup(fields[1..], key);
      assert forall i :: 1 <= i < |fields| ==> fields[i] == fields[1..][i - 1];
      r
  }

  type Weighted = (string, real)

  /** The fields whose value is a number above zero, with that number, in
      field order. */
  function PositiveWeights(fields: seq<(string, Json)>): (r: seq<Weighted>)
    ensures forall w <- r :: w.1 > 0.0 && (w.0, JNumber(w.1)) in fields
    ensures forall f <- fields :: f.1.JNumber? && f.1.n > 0.0 ==> (f.0, f.1.n) in r
    decreases |fields|
  {
    if |fields| == 0 then []
    else
      var rest := PositiveWeights(fields[1..]);
      assert forall f <- fields[1..] :: f in fields;
      assert forall f <- fields :: f == fields[0] || f in fields[1..];
      if fields[0].1.JNumber? && fields[0].1.n > 0.0 then [(fields[0].0, fields[0].1.n)] + rest else rest
  }

  // ---------------------------------------------------------------------
  // Sorting by decreasing weight
  // ---------------------------------------------------------------------

  predicate NonIncreasing(s: seq<Weighted>)
  {
    forall i, j :: 0 <= i < j < |s| ==> s[i].1 >= s[j].1
  }

  /** A head no lighter than the first element keeps a sorted sequence
      sorted. */
  lemma ConsNonIncreasing(h: Weighted, t: seq<Weighted>)
    requires NonIncreasing(t)
    requires |t| > 0 ==> t[0].1 <= h.1
    ensures NonIncreasing([h] + t)
  {
    forall i, j | 0 <= i < j < |[h] + t| ensures ([h] + t)[i].1 >= ([h] + t)[j].1 {
      assert ([h] + t)[j] == t[j - 1];
      if i > 0 {
        assert ([h] + t)[i] == t[i - 1];
      } else {
        assert t[0].1 >= t[j - 1].1;
      }
    }
  }

  /** Puts `x` before the first element no heavier than it, so that among
      equal weights the earlier one stays first. */
  function Insert(x: Weighted, s: seq<Weighted>): (r: seq<Weighted>)
    requires NonIncreasing(s)
    ensures NonIncreasing(r)
    ensures multiset(r) == multiset(s) + multiset{x}
    ensures r[0] == x || (|s| > 0 && r[0] == s[0])
    decreases |s|
  {
    if |s| == 0 then [x]
    else if s[0].1 > x.1 then
      var tail := Insert(x, s[1..]);
      assert s == [s[0]] + s[1..];
      assert |s| > 1 ==> s[0].1 >= s[1].1;
      ConsNonIncreasing(s[0], tail);
      assert multiset([s[0]] + tail) == multiset{s[0]} + multiset(tail);
      assert multiset(s) == multiset{s[0]} + multiset(s[1..]);
      [s[0]] + tail
    else
      ConsNonIncreasing(x, s);
      [x] + s
  }

  /** `sort_by` with the weights compared in reverse: a stable sort into
      non-increasing weight. */
  function SortDescending(s: seq<Weighted>): (r: seq<Weighted>)
    ensures NonIncreasing(r)
    ensures multiset(r) == multiset(s)
    decreases |s|
  {
    if |s| == 0 then []
    else
      assert s == [s[0]] + s[1..];
      Insert(s[0], SortDescending(s[1..]))
  }

  /** The largest weight, as an independent reference. */
  function MaxWeight(s: seq<Weighted>): (r: real)
    requires |s| > 0
    ensures forall w <- s :: w.1 <= r
    ensures exists w <- s :: w.1 == r
    decreases |s|
  {
    if |s| == 1 then s[0].1
    else
      var m := MaxWeight(s[1..]);
      assert forall w <- s :: w == s[0] || w in s[1..];
      assert forall w <- s[1..] :: w in s;
      if s[0].1 >= m then s[0].1 else m
  }

  /** The first weight after sorting is the largest one. */
  lemma SortedHeadIsMax(s: seq<Weighted>)
    requires |s| > 0
    ensures |SortDescending(s)| == |s|
    ensures SortDescending(s)[0].1 == MaxWeight(s)
  {
    var t := SortDescending(s);
    assert |t| == |multiset(t)| == |multiset(s)| == |s|;
    assert t[0] in multiset(s);
    var w :| w in s && w.1 == MaxWeight(s);
    assert w in multiset(t);
    var j :| 0 <= j < |t| && t[j] == w;
    assert t[0].1 >= t[j].1;
  }

  // ---------------------------------------------------------------------
  // The filter
  // ---------------------------------------------------------------------

  /** The elements whose weight reaches `bound`, in order. */
  function KeepAtLeast(s: seq<Weighted>, bound: real): (r: seq<Weighted>)
    ensures |r| <= |s|
    ensures |s| > 0 && s[0].1 >= bound ==> |r| > 0 && r[0] == s[0]
    decreases |s|
  {
    if |s| == 0 then []
    else if s[0].1 >= bound then [s[0]] + KeepAtLeast(s[1..], bound)
    else KeepAtLeast(s[1..], bound)
  }

  /** Everything kept is an element that reaches the bound, and every
      element that reaches it is kept. */
  lemma {:induction false} KeepAtLeastMembers(s: seq<Weighted>, bound: real)
    ensures forall w <- KeepAtLeast(s, bound) :: w in s && w.1 >= bound
    ensures forall w <- s :: w.1 >= bound ==> w in KeepAtLeast(s, bound)
    decreases |s|
  {
    if |s| > 0 {
      KeepAtLeastMembers(s[1..], bound);
      assert forall w <- s[1..] :: w in s;
      assert forall w <- s :: w == s[0] || w in s[1..];
    }
  }

  /** Filtering keeps the order. */
  lemma {:induction false} KeepAtLeastNonIncreasing(s: seq<Weighted>, bound: real)
    requires NonIncreasing(s)
    ensures NonIncreasing(KeepAtLeast(s, bound))
    decreases |s|
  {
    if |s| > 0 {
      KeepAtLeastNonIncreasing(s[1..], bound);
      var rest := KeepAtLeast(s[1..], bound);
      if s[0].1 >= bound && |rest| > 0 {
        KeepAtLeastMembers(s[1..], bound);
        assert rest[0] in rest;
        var j :| 0 <= j < |s[1..]| && s[1..][j] == rest[0];
        assert s[j + 1] == rest[0];
      }
      if s[0].1 >= bound {
        ConsNonIncreasing(s[0], rest);
      }
    }
  }

  /** Sort, then keep what reaches 0.8 of the first (largest) weight. */
  function KeepTop(ws: seq<Weighted>): seq<Weighted>
  {
    KeepNearHead(SortDescending(ws))
  }

  /** Keep what reaches 0.8 of the head's weight. */
  function KeepNearHead(sorted: seq<Weighted>): seq<Weighted>
  {
    if |sorted| == 0 then [] else KeepAtLeast(sorted, sorted[0].1 * 0.8)
  }

  /** Over a sorted sequence with a non-negative head: the kept elements are
      exactly those reaching 0.8 of the head, and the head is kept first. */
  lemma KeepNearHeadMembers(sorted: seq<Weighted>)
    requires |sorted| > 0 && sorted[0].1 >= 0.0
    ensures forall w <- KeepNearHead(sorted) :: w in sorted && w.1 >= sorted[0].1 * 0.8
    ensures forall w <- sorted :: w.1 >= sorted[0].1 * 0.8 ==> w in KeepNearHead(sorted)
    ensures |KeepNearHead(sorted)| > 0 && KeepNearHead(sorted)[0] == sorted[0]
  {
    KeepAtLeastMembers(sorted, sorted[0].1 * 0.8);
  }

  /** Over positive weights `ws`: every kept pair is one of them and reaches
      0.8 of the largest; every one that reaches it is kept; nothing is
      kept only when there is nothing,
      and otherwise the first kept pair carries the largest weight. */
  lemma KeepTopMeaning(ws: seq<Weighted>)
    requires forall w <- ws :: w.1 > 0.0
    ensures |ws| == 0 <==> KeepTop(ws) == []
    ensures |ws| > 0 ==> forall w <- KeepTop(ws) :: w in ws && w.1 >= MaxWeight(ws) * 0.8
    ensures |ws| > 0 ==> forall w <- ws :: w.1 >= MaxWeight(ws) * 0.8 ==> w in KeepTop(ws)
    ensures |ws| > 0 ==> KeepTop(ws)[0].1 == MaxWeight(ws)
  {
    var sorted := SortDescending(ws);
    if |ws| > 0 {
      SortedHeadIsMax(ws);
      var bound := sorted[0].1 * 0.8;
      assert sorted[0].1 > 0.0 by {
        assert sorted[0] in multiset(ws);
      }
      KeepNearHeadMembers(sorted);
      var kept := KeepNearHead(sorted);
      forall w <- kept ensures w in ws {
        assert w in multiset(sorted);
      }
      forall w <- ws | w.1 >= bound ensures w in kept {
        assert w in multiset(sorted);
      }
    } else {
      assert |sorted| == |multiset(sorted)| == 0;
    }
  }

  /** The kept weights do not increase. */
  lemma KeepTopOrdered(ws: seq<Weighted>)
    ensures NonIncreasing(KeepTop(ws))
  {
    var sorted := SortDescending(ws);
    if |sorted| > 0 {
      KeepAtLeastNonIncreasing(sorted, sorted[0].1 * 0.8);
    }
  }

  /** The tertiary object's fields, when the report has one. */
  function TertiaryFields(report: Json): Option<seq<(string, Json)>>
  {
    match Get(report, "TertiaryPattern")
    case Some(JObject(fields)) => Some(fields)
    case _ => None
  }

  /** The kept pairs of `analyze_patterns`: nothing unless the report has an
      object under "TertiaryPattern". */
  function KeptPatterns(report: Json): seq<Weighted>
  {
    match TertiaryFields(report)
    case Some(fields) => KeepTop(PositiveWeights(fields))
    case None => []
  }

  /** `analyze_patterns`: the names of the kept pairs. */
  function AnalyzePatterns(report: Json): (r: seq<string>)
    ensures |r| == |KeptPatterns(report)|
    ensures forall i :: 0 <= i < |r| ==> r[i] == KeptPatterns(report)[i].0
  {
    var kept := KeptPatterns(report);
    seq(|kept|, i requires 0 <= i < |kept| => kept[i].0)
  }

  /** No tertiary object, or no positive number in it: no names. */
  lemma NothingWithoutPositiveWeight(report: Json)
    ensures TertiaryFields(report).None? ==> AnalyzePatterns(report) == []
    ensures TertiaryFields(report).Some? && PositiveWeights(TertiaryFields(report).value) == [] ==> AnalyzePatterns(report) == []
  {
  }

  /** Every returned name is a tertiary pattern with a positive weight of
      at least 0.8 of the largest. */
  lemma ReturnedNamesQualify(report: Json, i: nat)
    requires i < |AnalyzePatterns(report)|
    ensures TertiaryFields(report).Some?
    ensures var fields := TertiaryFields(report).value;
      var ws := PositiveWeights(fields);
      |ws| > 0 && exists v :: (AnalyzePatterns(report)[i], JNumber(v)) in fields && v > 0.0 && v >= MaxWeight(ws) * 0.8
  {
    var fields := TertiaryFields(report).value;
    KeepTopMeaning(PositiveWeights(fields));
    var w := KeptPatterns(report)[i];
    assert w in KeptPatterns(report);
    assert (w.0, JNumber(w.1)) in fields;
  }

  /** When the tertiary object holds a positive number, the name of a
      largest weight comes first. */
  lemma StrongestPatternFirst(report: Json)
    requires TertiaryFields(report).Some? && PositiveWeights(TertiaryFields(report).value) != []
    ensures |AnalyzePatterns(report)| > 0
    ensures var ws := PositiveWeights(TertiaryFields(report).value);
      exists v :: (AnalyzePatterns(report)[0], JNumber(v)) in TertiaryFields(report).value && v == MaxWeight(ws)
  {
    var ws := PositiveWeights(TertiaryFields(report).value);
    KeepTopMeaning(ws);
    var w := KeepTop(ws)[0];
    assert w in KeepTop(ws);
    assert (w.0, JNumber(w.1)) in TertiaryFields(report).value;
  }
}
