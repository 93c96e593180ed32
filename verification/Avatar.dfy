/** The window controller of scheduler_2LSFQD.c: at the end of a time window it
    sets how many requests may be outstanding in the next one. Rounding is left
    aside, but not the float values without a number: 0/0 is a NaN here as in C. */
module Avatar {

  /** A C float, rounding aside; every comparison with NaN is false. */
  datatype Float = Num(r: real) | NaN

  predicate Less(a: Float, b: Float) { a.Num? && b.Num? && a.r < b.r }

  predicate AtLeast(a: Float, b: Float) { a.Num? && b.Num? && a.r >= b.r }

  function Times(a: Float, k: int): Float { if a.Num? then Num(a.r * k as real) else NaN }

  /** The macros of system.h. */
  function Min(a: Float, b: Float): Float { if Less(a, b) then a else b }

  function Max(a: Float, b: Float): Float { if Less(b, a) then a else b }

  function NotTiny(a: Float): Float { if Less(a, Num(0.01)) then Num(0.01) else a }

  function Ceil(r: real): int { -((-r).Floor) }

  // ---------- e_i ----------

  datatype Quotient = Finite(r: real) | PlusInf | MinusInf | Undefined

  function Divide(n: int, d: nat): Quotient {
    if d > 0 then Finite(n as real / d as real)
    else if n > 0 then PlusInf
    else if n < 0 then MinusInf
    else Undefined
  }

  /** e_i of a class: the time left of its deadline after waiting, in units of
      its 95th percentile response time, with its three corrections. */
  function Efficiency(deadline: nat, waiting: nat, percentile: nat): Float {
    var q := Divide(deadline - waiting, percentile);
    var a := if q.PlusInf? || (q.Finite? && q.r > 1000.0 && deadline > waiting)
             then Finite((deadline - waiting) as real / deadline as real) else q;
    var b := if a.MinusInf? || (a.Finite? && a.r < -1000.0) then Finite(1.1) else a;
    match b
    case Finite(r) => Num(if r < 0.001 then 0.001 else r)
    case _ => NaN
  }

  lemma QuotientSign(n: int, d: nat)
    requires d > 0
    ensures n as real / d as real > 0.0 <==> n > 0
  {
    var q := n as real / d as real;
    assert q * d as real == n as real;
    assert q > 0.0 ==> q * d as real > 0.0;
    assert q <= 0.0 ==> q * d as real <= 0.0;
  }

  lemma FractionAtMostOne(n: nat, d: nat)
    requires n <= d && d > 0
    ensures n as real / d as real <= 1.0
  {
    var f := n as real / d as real;
    assert f * d as real == n as real;
    assert f > 1.0 ==> f * d as real > d as real;
  }

  /** The only way to a NaN is a class with nothing left of its deadline and a percentile of zero. */
  lemma EfficiencyRange(deadline: nat, waiting: nat, percentile: nat)
    ensures Efficiency(deadline, waiting, percentile).NaN? <==> deadline == waiting && percentile == 0
    ensures var e := Efficiency(deadline, waiting, percentile); e.Num? ==> 0.001 <= e.r <= 1000.0
  {
    var n := deadline - waiting;
    if percentile > 0 {
      QuotientSign(n, percentile);
    }
    if n > 0 {
      FractionAtMostOne(n, deadline);
    }
  }

  // ---------- the six cases ----------

  /** What a window ends with: the threshold and the most requests outstanding in
      it, the requests completed, the two estimates of what comes, and "infinity". */
  datatype Window = Window(threshold: int, maxOutstanding: int, completed: int, lower: int, upper: int, infinite: int)

  datatype Verdict =
    | Decided(threshold: Float, xLower: real, xUpper: real, underloaded: bool)
    | CannotDecide1
    | CannotDecide2

  function Lift(x: real): real { if x < 0.01 then 0.01 else x }

  /** The case analysis for one class with old threshold t and efficiency e. */
  function Decide(w: Window, xLower: real, xUpper: real, t: Float, e: Float): Verdict {
    if Less(t, Num(w.infinite as real)) then
      var rt := NotTiny(Times(e, w.threshold));
      if Less(rt, Num(xLower)) then Decided(Num(w.infinite as real), xLower, xUpper, false)
      else if Less(Num(xUpper), rt) then Decided(Num(Lift(xUpper)), xLower, Lift(xUpper), true)
      else if Less(rt, Num(w.threshold as real)) || w.maxOutstanding >= w.threshold then
        Decided(rt, xLower, xUpper, true)
      else if AtLeast(rt, Num(w.threshold as real)) && w.maxOutstanding < w.threshold then
        Decided(t, xLower, xUpper, true)
      else CannotDecide1
    else
      var rt := NotTiny(Times(e, w.maxOutstanding));
      if w.lower as real < (if w.completed as real * 0.9 > 1.0 then w.completed as real * 0.9 else 1.0) then
        Decided(Max(rt, Num(Lift(xLower))), Lift(xLower), xUpper, true)
      else if w.upper as real >= w.completed as real * 0.9 then Decided(Num(w.infinite as real), xLower, xUpper, false)
      else CannotDecide2
  }

  predicate Positive(t: Float) { t.Num? && t.r > 0.0 }

  /** When each exit is taken, and what a decision leaves behind. */
  lemma DecideCases(w: Window, xLower: real, xUpper: real, t: Float, e: Float)
    requires w.lower <= w.upper && w.infinite > 0
    ensures Decide(w, xLower, xUpper, t, e) != CannotDecide2
    ensures Decide(w, xLower, xUpper, t, e) == CannotDecide1 <==>
              e.NaN? && Less(t, Num(w.infinite as real)) && w.maxOutstanding < w.threshold
    ensures Positive(t) && e.Num? ==>
              Decide(w, xLower, xUpper, t, e).Decided? && Positive(Decide(w, xLower, xUpper, t, e).threshold)
  {
  }

  // ---------- all classes ----------

  datatype Outcome = Done(thresholds: seq<Float>, next: Float, overload: bool) | Exit(code: int)

  /** The loop over the classes from i on. */
  function Scan(w: Window, es: seq<Float>, ts: seq<Float>, i: nat, xLower: real, xUpper: real,
                next: Float, overload: bool): Outcome
    requires |es| == |ts| && i <= |ts|
    decreases |ts| - i
  {
    if i == |ts| then Done(ts, next, overload)
    else
      match Decide(w, xLower, xUpper, ts[i], es[i])
      case CannotDecide1 => Exit(-3)
      case CannotDecide2 => Exit(-4)
      case Decided(t, xl, xu, under) => Scan(w, es, ts[i := t], i + 1, xl, xu, Min(next, t), overload && !under)
  }

  /** The class on which the analysis cannot decide. */
  ghost predicate Undecided(w: Window, e: Float, t: Float) {
    e.NaN? && Less(t, Num(w.infinite as real)) && w.maxOutstanding < w.threshold
  }

  lemma {:induction false} ScanExits(w: Window, es: seq<Float>, ts: seq<Float>, i: nat, xLower: real, xUpper: real,
                                     next: Float, overload: bool)
    requires |es| == |ts| && i <= |ts| && w.lower <= w.upper && w.infinite > 0
    ensures var r := Scan(w, es, ts, i, xLower, xUpper, next, overload);
      && (r.Exit? ==> r.code == -3)
      && (r.Exit? <==> exists j :: i <= j < |ts| && Undecided(w, es[j], ts[j]))
      && (r.Done? ==> |r.thresholds| == |ts|)
    decreases |ts| - i
  {
    if i < |ts| {
      DecideCases(w, xLower, xUpper, ts[i], es[i]);
      var v := Decide(w, xLower, xUpper, ts[i], es[i]);
      if v.Decided? {
        ScanExits(w, es, ts[i := v.threshold], i + 1, v.xLower, v.xUpper, Min(next, v.threshold),
                  overload && !v.underloaded);
        assert forall j :: i < j < |ts| ==> ts[i := v.threshold][j] == ts[j];
      } else {
        assert Undecided(w, es[i], ts[i]);
      }
    }
  }

  lemma {:induction false} ScanRange(w: Window, es: seq<Float>, ts: seq<Float>, i: nat, xLower: real, xUpper: real,
                                     next: Float, overload: bool)
    requires |es| == |ts| && i <= |ts| && w.lower <= w.upper && w.infinite > 0
    requires (forall j :: 0 <= j < |es| ==> es[j].Num?) && forall j :: 0 <= j < |ts| ==> Positive(ts[j])
    requires Positive(next) && next.r <= w.infinite as real
    ensures var r := Scan(w, es, ts, i, xLower, xUpper, next, overload);
      && r.Done? && |r.thresholds| == |ts| && (forall j :: 0 <= j < |ts| ==> Positive(r.thresholds[j]))
      && Positive(r.next) && r.next.r <= w.infinite as real
    decreases |ts| - i
  {
    if i < |ts| {
      DecideCases(w, xLower, xUpper, ts[i], es[i]);
      var v := Decide(w, xLower, xUpper, ts[i], es[i]);
      ScanRange(w, es, ts[i := v.threshold], i + 1, v.xLower, v.xUpper, Min(next, v.threshold),
                overload && !v.underloaded);
    }
  }

  /** What a class brings to the end of a window, in milliseconds. */
  datatype Class = Class(deadline: nat, waiting: nat, percentile: nat)

  function Efficiencies(cs: seq<Class>): (es: seq<Float>)
    ensures |es| == |cs|
    ensures forall i :: 0 <= i < |cs| ==> es[i] == Efficiency(cs[i].deadline, cs[i].waiting, cs[i].percentile)
  {
    seq(|cs|, i requires 0 <= i < |cs| => Efficiency(cs[i].deadline, cs[i].waiting, cs[i].percentile))
  }

  /** No completion counts as one. */
  function Counted(w: Window): Window { if w.completed == 0 then w.(completed := 1) else w }

  function Estimate(length: int, w: Window): real
    requires w.completed != 0
  {
    length as real * w.threshold as real / w.completed as real
  }

  /** The threshold part of twolsfqd_time_window. */
  function Analysis(w0: Window, cs: seq<Class>, ts: seq<Float>): Outcome
    requires |cs| == |ts|
  {
    var w := Counted(w0);
    Scan(w, Efficiencies(cs), ts, 0, Estimate(w.lower, w), Estimate(w.upper, w), Num(w.infinite as real), true)
  }

  /** The lower estimate never exceeds the upper one, so the second exit is never
      taken; the first one exactly when some class below "infinity" has used up
      its deadline waiting, has a percentile of zero, and the window never
      reached its threshold. */
  lemma ExitsExactlyWhen(w: Window, cs: seq<Class>, ts: seq<Float>)
    requires |cs| == |ts| && w.lower <= w.upper && w.infinite > 0
    ensures Analysis(w, cs, ts) != Exit(-4)
    ensures Analysis(w, cs, ts).Exit? <==>
      exists i :: 0 <= i < |cs| && cs[i].deadline == cs[i].waiting && cs[i].percentile == 0
                  && Less(ts[i], Num(w.infinite as real)) && w.maxOutstanding < w.threshold
  {
    var v, es := Counted(w), Efficiencies(cs);
    ScanExits(v, es, ts, 0, Estimate(v.lower, v), Estimate(v.upper, v), Num(v.infinite as real), true);
    forall i | 0 <= i < |cs| ensures es[i].NaN? <==> cs[i].deadline == cs[i].waiting && cs[i].percentile == 0 {
      EfficiencyRange(cs[i].deadline, cs[i].waiting, cs[i].percentile);
    }
    if i :| 0 <= i < |cs| && cs[i].deadline == cs[i].waiting && cs[i].percentile == 0
            && Less(ts[i], Num(w.infinite as real)) && w.maxOutstanding < w.threshold {
      assert Undecided(v, es[i], ts[i]);
    }
  }

  /** A window that takes the first exit: a request that has waited out its
      deadline behind another goes out when that one completes, and itself
      completes within a millisecond; the window sees both complete and nothing
      else. */
  lemma TakesFirstExit(deadline: nat)
    ensures Analysis(Window(1, 0, 2, 0, 0, 2), [Class(deadline, deadline, 0)], [Num(1.0)]) == Exit(-3)
  {
    EfficiencyRange(deadline, deadline, 0);
  }

  lemma CeilRange(r: real, n: int)
    requires 0.0 < r <= n as real
    ensures 1 <= Ceil(r) <= n
  {
  }

  /** Without a zero over zero the controller decides, and the threshold it sets
      lies between 1 and "infinity". */
  lemma ThresholdInRange(w: Window, cs: seq<Class>, ts: seq<Float>)
    requires |cs| == |ts| && w.lower <= w.upper && w.infinite > 0
    requires forall i :: 0 <= i < |ts| ==> Positive(ts[i])
    requires forall c :: c in cs ==> c.deadline != c.waiting || c.percentile != 0
    ensures var r := Analysis(w, cs, ts);
      && r.Done? && |r.thresholds| == |ts| && (forall i :: 0 <= i < |ts| ==> Positive(r.thresholds[i]))
      && r.next.Num? && 1 <= Ceil(r.next.r) <= w.infinite
  {
    var v, es := Counted(w), Efficiencies(cs);
    forall i | 0 <= i < |cs| ensures es[i].Num? {
      assert cs[i] in cs;
      EfficiencyRange(cs[i].deadline, cs[i].waiting, cs[i].percentile);
    }
    ScanRange(v, es, ts, 0, Estimate(v.lower, v), Estimate(v.upper, v), Num(v.infinite as real), true);
    CeilRange(Analysis(w, cs, ts).next.r, w.infinite);
  }

  // ---------- what the controller decides ----------

  /** The efficiency of a class: what is left of its deadline over its percentile;
      where that is above 1000, what is left over the deadline; but at least a
      thousandth; and 1.1 where it is below -1000. */
  lemma EfficiencyIs(deadline: nat, waiting: nat, percentile: nat)
    ensures var left, e := deadline - waiting, Efficiency(deadline, waiting, percentile);
      && (-1000 * percentile <= left <= 1000 * percentile && percentile > 0 ==>
            e.Num? && if 1000 * left >= percentile then e.r * percentile as real == left as real else e.r == 0.001)
      && (left > 1000 * percentile ==>
            e.Num? && if 1000 * left >= deadline then e.r * deadline as real == left as real else e.r == 0.001)
      && (left < -1000 * percentile ==> e == Num(1.1))
  {
    var left := deadline - waiting;
    if percentile > 0 {
      RatioAgainst(left, percentile, 1000.0);
      RatioAgainst(left, percentile, -1000.0);
      RatioAgainst(left, percentile, 0.001);
    }
    if deadline > 0 {
      RatioAgainst(left, deadline, 0.001);
    }
  }

  lemma RatioAgainst(n: int, d: nat, k: real)
    requires d > 0
    ensures n as real / d as real * d as real == n as real
    ensures n as real / d as real > k <==> n as real > k * d as real
    ensures n as real / d as real < k <==> n as real < k * d as real
  {
    var q := n as real / d as real;
    assert q * d as real == n as real;
    assert q > k ==> (q - k) * d as real > 0.0;
    assert q < k ==> (k - q) * d as real > 0.0;
    assert (q - k) * d as real == q * d as real - k * d as real;
  }

  /** A class over whose head the queue will stay: below infinity, and what it
      could bear is less than the least that comes; or at infinity, and what
      comes does not fall short of nine tenths of what was completed. */
  ghost predicate Crowded(w: Window, lo: real, e: Float, t: Float) {
    if t.Num? && t.r < w.infinite as real then
      e.Num? && (e.r * w.threshold as real < lo && 0.01 < lo)
    else
      10 * w.lower >= 9 * w.completed && w.lower >= 1
  }

  /** r is the larger of a and b, and the smaller. */
  ghost predicate Larger(r: real, a: real, b: real) { r >= a && r >= b && (r == a || r == b) }

  ghost predicate Smaller(r: real, a: real, b: real) { r <= a && r <= b && (r == a || r == b) }

  /** What becomes of a class below infinity with old threshold t: bears is how
      many it could bear, most the most that come. */
  ghost predicate EndsBelow(w: Window, lo: real, hi: real, e: Float, t: Float, bears: real, most: real, end: Float) {
    if Crowded(w, lo, e, t) then end == Num(w.infinite as real)
    else if bears < w.threshold as real || w.maxOutstanding >= w.threshold then end.Num? && Smaller(end.r, bears, most)
    else end == if bears <= hi then t else Num(most)
  }

  /** And of one at infinity: bears is how many it could have borne, least the
      least that come. */
  ghost predicate EndsAbove(w: Window, lo: real, e: Float, t: Float, bears: real, least: real, end: Float) {
    if Crowded(w, lo, e, t) then end == Num(w.infinite as real)
    else end.Num? && Larger(end.r, bears, least)
  }

  /** What becomes of a class with efficiency e when between lo and hi are to
      come; what it bears and the estimates count for a hundredth at least. */
  ghost predicate EndsAt(w: Window, lo: real, hi: real, e: Float, t: Float, end: Float)
    requires e.Num?
  {
    if t.Num? && t.r < w.infinite as real then
      forall bears, most :: Larger(bears, e.r * w.threshold as real, 0.01) && Larger(most, hi, 0.01) ==>
        EndsBelow(w, lo, hi, e, t, bears, most, end)
    else
      forall bears, least :: Larger(bears, e.r * w.maxOutstanding as real, 0.01) && Larger(least, lo, 0.01) ==>
        EndsAbove(w, lo, e, t, bears, least, end)
  }

  ghost predicate Estimates(lo: real, hi: real, xLower: real, xUpper: real) {
    (xLower == lo || Larger(xLower, lo, 0.01)) && (xUpper == hi || Larger(xUpper, hi, 0.01))
  }

  lemma DecidesBelow(w: Window, lo: real, hi: real, xLower: real, xUpper: real, t: Float, e: Float,
                     bears: real, most: real)
    requires w.threshold >= 1 && lo <= hi && Estimates(lo, hi, xLower, xUpper)
    requires e.Num? && t.Num? && t.r < w.infinite as real
    requires Larger(bears, e.r * w.threshold as real, 0.01) && Larger(most, hi, 0.01)
    ensures var v := Decide(w, xLower, xUpper, t, e);
      && v.Decided? && EndsBelow(w, lo, hi, e, t, bears, most, v.threshold)
      && v.underloaded == !Crowded(w, lo, e, t) && Estimates(lo, hi, v.xLower, v.xUpper)
  {
    assert NotTiny(Times(e, w.threshold)) == Num(bears);
  }

  lemma DecidesAbove(w: Window, lo: real, hi: real, xLower: real, xUpper: real, t: Float, e: Float,
                     bears: real, least: real)
    requires w.lower <= w.upper && w.completed >= 1 && Estimates(lo, hi, xLower, xUpper)
    requires e.Num? && !(t.Num? && t.r < w.infinite as real)
    requires Larger(bears, e.r * w.maxOutstanding as real, 0.01) && Larger(least, lo, 0.01)
    ensures var v := Decide(w, xLower, xUpper, t, e);
      && v.Decided? && EndsAbove(w, lo, e, t, bears, least, v.threshold)
      && v.underloaded == !Crowded(w, lo, e, t) && Estimates(lo, hi, v.xLower, v.xUpper)
  {
    assert NotTiny(Times(e, w.maxOutstanding)) == Num(bears);
  }

  function Hundredth(r: real): (m: real)
    ensures Larger(m, r, 0.01)
  {
    if r < 0.01 then 0.01 else r
  }

  /** One class, with the estimates as they are or lifted to a hundredth. */
  lemma DecidesEnd(w: Window, lo: real, hi: real, xLower: real, xUpper: real, t: Float, e: Float)
    requires w.threshold >= 1 && w.lower <= w.upper && w.completed >= 1 && lo <= hi
    requires Estimates(lo, hi, xLower, xUpper) && e.Num?
    ensures var v := Decide(w, xLower, xUpper, t, e);
      && v.Decided? && EndsAt(w, lo, hi, e, t, v.threshold) && v.underloaded == !Crowded(w, lo, e, t)
      && Estimates(lo, hi, v.xLower, v.xUpper)
  {
    hide Decide, EndsBelow, EndsAbove, Crowded;
    var v := Decide(w, xLower, xUpper, t, e);
    if t.Num? && t.r < w.infinite as real {
      DecidesBelow(w, lo, hi, xLower, xUpper, t, e, Hundredth(e.r * w.threshold as real), Hundredth(hi));
      forall bears, most | Larger(bears, e.r * w.threshold as real, 0.01) && Larger(most, hi, 0.01)
        ensures EndsBelow(w, lo, hi, e, t, bears, most, v.threshold)
      {
        DecidesBelow(w, lo, hi, xLower, xUpper, t, e, bears, most);
      }
    } else {
      DecidesAbove(w, lo, hi, xLower, xUpper, t, e, Hundredth(e.r * w.maxOutstanding as real), Hundredth(lo));
      forall bears, least | Larger(bears, e.r * w.maxOutstanding as real, 0.01) && Larger(least, lo, 0.01)
        ensures EndsAbove(w, lo, e, t, bears, least, v.threshold)
      {
        DecidesAbove(w, lo, hi, xLower, xUpper, t, e, bears, least);
      }
    }
  }

  /** next is the least of infinity and the thresholds. */
  ghost predicate Least(next: Float, first: Float, ts: seq<Float>, i: nat) {
    && next.Num? && first.Num? && next.r <= first.r && (forall j :: i <= j < |ts| && ts[j].Num? ==> next.r <= ts[j].r)
    && (next == first || exists j :: i <= j < |ts| && next == ts[j])
  }

  lemma {:induction false} ScanEnds(w: Window, es: seq<Float>, ts: seq<Float>, i: nat, lo: real, hi: real,
                                    xLower: real, xUpper: real, next: Float, overload: bool)
    requires |es| == |ts| && i <= |ts| && w.threshold >= 1 && w.lower <= w.upper && w.completed >= 1 && lo <= hi
    requires Estimates(lo, hi, xLower, xUpper) && next.Num? && forall j :: 0 <= j < |es| ==> es[j].Num?
    requires forall j :: 0 <= j < |ts| ==> ts[j].Num?
    ensures var r := Scan(w, es, ts, i, xLower, xUpper, next, overload);
      && r.Done? && |r.thresholds| == |ts| && (forall j :: 0 <= j < i ==> r.thresholds[j] == ts[j])
      && (forall j :: i <= j < |ts| ==> EndsAt(w, lo, hi, es[j], ts[j], r.thresholds[j]) && r.thresholds[j].Num?)
      && Least(r.next, next, r.thresholds, i)
      && (r.overload <==> overload && forall j :: i <= j < |ts| ==> Crowded(w, lo, es[j], ts[j]))
    decreases |ts| - i
  {
    if i < |ts| {
      DecidesEnd(w, lo, hi, xLower, xUpper, ts[i], es[i]);
      var v := Decide(w, xLower, xUpper, ts[i], es[i]);
      EndIsNumber(w, lo, hi, es[i], ts[i], v.threshold);
      hide Decide, EndsAt, Crowded, Estimates;
      ScanEnds(w, es, ts[i := v.threshold], i + 1, lo, hi, v.xLower, v.xUpper, Min(next, v.threshold),
               overload && !v.underloaded);
    }
  }

  lemma EndIsNumber(w: Window, lo: real, hi: real, e: Float, t: Float, end: Float)
    requires e.Num? && t.Num? && EndsAt(w, lo, hi, e, t, end)
    ensures end.Num?
  {
    if t.r < w.infinite as real {
      assert EndsBelow(w, lo, hi, e, t, Hundredth(e.r * w.threshold as real), Hundredth(hi), end);
    } else {
      assert EndsAbove(w, lo, e, t, Hundredth(e.r * w.maxOutstanding as real), Hundredth(lo), end);
    }
  }

  /** x stands to length as the threshold to the completed. */
  ghost predicate Scaled(x: real, length: int, threshold: int, completed: int) {
    x * completed as real == (length * threshold) as real
  }

  lemma EstimatesAre(w: Window, lo: real, hi: real)
    requires w.completed >= 1 && w.threshold >= 1 && w.lower <= w.upper
    requires Scaled(lo, w.lower, w.threshold, w.completed) && Scaled(hi, w.upper, w.threshold, w.completed)
    ensures Estimate(w.lower, w) == lo <= hi == Estimate(w.upper, w)
  {
    var lower, upper, threshold, completed := w.lower, w.upper, w.threshold, w.completed;
    assert lower * threshold <= upper * threshold;
    assert lo > hi ==> (lo - hi) * completed as real > 0.0;
    assert (lo - hi) * completed as real == lo * completed as real - hi * completed as real;
    RealQuotient((lower * threshold) as real, completed as real, lo);
    RealQuotient((upper * threshold) as real, completed as real, hi);
    assert (lower * threshold) as real == lower as real * threshold as real;
    assert (upper * threshold) as real == upper as real * threshold as real;
  }

  lemma RealQuotient(n: real, d: real, q: real)
    requires d > 0.0 && q * d == n
    ensures n / d == q
  {
    assert (n / d) * d == n;
    assert (n / d - q) * d == 0.0;
  }

  /** What a window decides for all its classes, where none is left with a zero
      over zero: lo and hi are the estimates of what comes, in requests that a
      threshold's worth of the completed stands for. Each class ends where EndsAt
      says; the next threshold is the least of theirs and infinity; and the window
      is overloaded exactly if every class is crowded. */
  lemma WindowDecides(w: Window, cs: seq<Class>, ts: seq<Float>, completed: int, lo: real, hi: real)
    requires |cs| == |ts| && w.threshold >= 1 && w.lower <= w.upper && w.completed >= 0
    requires forall j :: 0 <= j < |ts| ==> ts[j].Num?
    requires forall c :: c in cs ==> c.deadline != c.waiting || c.percentile != 0
    requires completed == if w.completed == 0 then 1 else w.completed
    requires Scaled(lo, w.lower, w.threshold, completed) && Scaled(hi, w.upper, w.threshold, completed)
    ensures var r, v, es := Analysis(w, cs, ts), w.(completed := completed), Efficiencies(cs);
      && r.Done? && |r.thresholds| == |ts|
      && (forall j :: 0 <= j < |ts| ==> es[j].Num? && EndsAt(v, lo, hi, es[j], ts[j], r.thresholds[j]))
      && Least(r.next, Num(w.infinite as real), r.thresholds, 0)
      && (r.overload <==> forall j :: 0 <= j < |ts| ==> Crowded(v, lo, es[j], ts[j]))
  {
    hide EndsAt, Crowded, Scan, Efficiency, Estimate, Scaled, Least;
    var v, es := Counted(w), Efficiencies(cs);
    forall j | 0 <= j < |cs| ensures es[j].Num? {
      assert cs[j] in cs;
      EfficiencyRange(cs[j].deadline, cs[j].waiting, cs[j].percentile);
    }
    EstimatesAre(v, lo, hi);
    ScanEnds(v, es, ts, 0, lo, hi, lo, hi, Num(v.infinite as real), true);
  }

  /** A class with a zero over zero below infinity that is not an exit takes the
      NaN for its threshold; at infinity it ends as if it bore nothing. */
  lemma NaNEnds(w: Window, xLower: real, xUpper: real, t: Float)
    requires w.lower <= w.upper && w.completed >= 1
    ensures var v := Decide(w, xLower, xUpper, t, NaN);
      if Less(t, Num(w.infinite as real)) then
        v.Decided? ==> w.maxOutstanding >= w.threshold && v.threshold == NaN && v.underloaded
      else
        && v.Decided? && v.underloaded == !Crowded(w, xLower, NaN, t)
        && if v.underloaded then v.threshold.Num? && Larger(v.threshold.r, xLower, 0.01)
           else v.threshold == Num(w.infinite as real)
  {
  }

  /** A class that waited half its deadline, in a full window, halves the threshold. */
  lemma HalvesThreshold()
    ensures Analysis(Window(10, 10, 10, 5, 10, 100), [Class(100, 50, 100)], [Num(10.0)])
            == Done([Num(5.0)], Num(5.0), false)
  {
    EfficiencyIs(100, 50, 100);
    assert Efficiency(100, 50, 100) == Num(0.5);
    assert [Num(10.0)][0 := Num(5.0)] == [Num(5.0)];
  }

  lemma CeilIs(r: real)
    ensures r <= Ceil(r) as real < r + 1.0
  {
  }

  /** The loop of the window thread over the classes, on the threshold array. */
  method Analyse(w0: Window, cs: seq<Class>, thresholds: array<Float>) returns (r: Outcome)
    requires |cs| == thresholds.Length
    modifies thresholds
    ensures r == Analysis(w0, cs, old(thresholds[..]))
    ensures r.Done? ==> r.thresholds == thresholds[..]
  {
    hide Decide;
    var w := Counted(w0);
    var xLower, xUpper := Estimate(w.lower, w), Estimate(w.upper, w);
    var next, overload := Num(w.infinite as real), true;
    var i := 0;
    while i < |cs|
      invariant i <= |cs| == thresholds.Length
      invariant Scan(w, Efficiencies(cs), thresholds[..], i, xLower, xUpper, next, overload)
             == Analysis(w0, cs, old(thresholds[..]))
    {
      var e := Efficiency(cs[i].deadline, cs[i].waiting, cs[i].percentile);
      var v := Decide(w, xLower, xUpper, thresholds[i], e);
      match v {
        case CannotDecide1 => return Exit(-3);
        case CannotDecide2 => return Exit(-4);
        case Decided(t, xl, xu, under) =>
          ghost var before := thresholds[..];
          thresholds[i] := t;
          assert thresholds[..] == before[i := t];
          if under {
            overload := false;
          }
          next, xLower, xUpper := Min(next, t), xl, xu;
      }
      i := i + 1;
    }
    r := Done(thresholds[..], next, overload);
  }
}
