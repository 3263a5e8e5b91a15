/** The correlation of two names' daily log returns (desk/indicators.py). The logarithm and the square root are
    parameters, so every theorem says what it needs of them. */
module Correlation {
  import opened Basics

  datatype Close = Close(date: int, close: real)

  // ----- the common window -----

  /** Closes by date; of two bars on one date the later entry counts. */
  function ByDate(bars: seq<Close>): map<int, real> {
    if bars == [] then map[] else ByDate(bars[..|bars| - 1])[bars[|bars| - 1].date := bars[|bars| - 1].close]
  }

  /** Of two closes on a date the later entry counts, and only dates with a bar are there. */
  lemma {:induction false} LaterCloseCounts(bars: seq<Close>, d: int, k: nat)
    ensures d in ByDate(bars) <==> exists j :: 0 <= j < |bars| && bars[j].date == d
    ensures k < |bars| && bars[k].date == d && (forall j :: k < j < |bars| ==> bars[j].date != d) ==>
              d in ByDate(bars) && ByDate(bars)[d] == bars[k].close
  {
    if bars != [] {
      var init := bars[..|bars| - 1];
      LaterCloseCounts(init, d, k);
      if j :| 0 <= j < |init| && init[j].date == d { assert bars[j].date == d; }
      if j :| 0 <= j < |bars| && bars[j].date == d {
        if j < |init| { assert init[j].date == d; }
      }
    }
  }

  predicate IsLeast(s: set<int>, d: int) { d in s && forall e :: e in s ==> d <= e }

  lemma LeastWithOneMore(rest: set<int>, x: int, d: int)
    requires IsLeast(rest, d)
    ensures IsLeast(rest + {x}, if d < x then d else x)
  {
  }

  lemma {:induction false} HasLeast(s: set<int>)
    requires |s| > 0
    ensures exists d :: IsLeast(s, d)
    decreases |s|
  {
    assert (forall e :: e !in s) ==> s == {};
    var x :| x in s;
    var rest := s - {x};
    assert s == rest + {x};
    if |rest| > 0 {
      HasLeast(rest);
      hide IsLeast;
      var d :| IsLeast(rest, d);
      LeastWithOneMore(rest, x, d);
      assert IsLeast(s, if d < x then d else x);
    } else {
      assert rest == {} && IsLeast(s, x);
    }
  }

  /** A set of dates in order. */
  function Sorted(s: set<int>): (r: seq<int>)
    ensures |r| == |s|
  {
    if |s| == 0 then []
    else
      HasLeast(s);
      var d :| d in s && IsLeast(s, d);
      [d] + Sorted(s - {d})
  }

  lemma {:induction false} SortedHolds(s: set<int>)
    ensures forall d :: d in Sorted(s) <==> d in s
    ensures forall i :: 0 <= i < |Sorted(s)| ==> Sorted(s)[i] in s
    decreases |s|
  {
    if |s| > 0 {
      HasLeast(s);
      var d :| d in s && IsLeast(s, d) && Sorted(s) == [d] + Sorted(s - {d});
      SortedHolds(s - {d});
      assert forall e :: e in s <==> e == d || e in s - {d};
      assert forall e :: e in [d] + Sorted(s - {d}) <==> e == d || e in Sorted(s - {d});
    }
  }

  lemma {:induction false} SortedRises(s: set<int>)
    ensures forall i, j :: 0 <= i < j < |Sorted(s)| ==> Sorted(s)[i] < Sorted(s)[j]
    decreases |s|
  {
    if |s| > 0 {
      HasLeast(s);
      var d :| d in s && IsLeast(s, d) && Sorted(s) == [d] + Sorted(s - {d});
      var t := Sorted(s - {d});
      SortedRises(s - {d});
      SortedHolds(s - {d});
      assert forall e :: e in s - {d} ==> d < e;
      Prepend(d, t, s - {d});
    }
  }

  lemma Prepend(d: int, t: seq<int>, rest: set<int>)
    requires forall e :: e in t ==> e in rest
    requires forall e :: e in rest ==> d < e
    requires forall i, j :: 0 <= i < j < |t| ==> t[i] < t[j]
    ensures var r := [d] + t; forall i, j :: 0 <= i < j < |r| ==> r[i] < r[j]
  {
    assert forall j :: 0 <= j < |t| ==> t[j] in t;
  }

  /** The last `k` dates that both series have a bar on, or all of them. */
  function Window(a: map<int, real>, b: map<int, real>, k: nat): (r: seq<int>)
    ensures forall i :: 0 <= i < |r| ==> r[i] in a && r[i] in b
    ensures |r| == if |a.Keys * b.Keys| <= k then |a.Keys * b.Keys| else k
  {
    var all := Sorted(a.Keys * b.Keys);
    SortedHolds(a.Keys * b.Keys);
    if |all| <= k then all else all[|all| - k..]
  }

  /** The tail of a rising sequence rises, and what is not in it comes before all of it. */
  lemma TailIsTheLatest(all: seq<int>, skip: nat, d: int)
    requires skip <= |all| && forall i, j :: 0 <= i < j < |all| ==> all[i] < all[j]
    ensures var r := all[skip..];
            && (forall i, j :: 0 <= i < j < |r| ==> r[i] < r[j])
            && (d in all && d !in r ==> forall i :: 0 <= i < |r| ==> d < r[i])
  {
    var r := all[skip..];
    assert forall i :: 0 <= i < |r| ==> r[i] == all[skip + i];
    forall m | skip <= m < |all| ensures all[m] in r { assert r[m - skip] == all[m]; }
    if d in all && d !in r {
      var m :| 0 <= m < |all| && all[m] == d;
      assert m < skip;
    }
  }

  /** The window rises, and every common date outside it is earlier than every date in it. */
  lemma WindowIsTheLatest(a: map<int, real>, b: map<int, real>, k: nat, d: int)
    ensures var r := Window(a, b, k);
            && (forall i, j :: 0 <= i < j < |r| ==> r[i] < r[j])
            && (d in a && d in b && d !in r ==> forall i :: 0 <= i < |r| ==> d < r[i])
  {
    var common := a.Keys * b.Keys;
    SortedHolds(common);
    SortedRises(common);
    hide Sorted;
    var all := Sorted(common);
    var skip := if |all| <= k then 0 else |all| - k;
    assert all[0..] == all;
    assert d in a && d in b ==> d in common && d in all;
    TailIsTheLatest(all, skip, d);
  }

  // ----- products and quotients -----

  /** Products and quotients are named, so that proofs about sums can leave them folded. */
  function Times(x: real, y: real): real { x * y }

  function Over(top: real, bottom: real): real requires bottom != 0.0 { top / bottom }

  lemma ProductSigns(x: real, y: real)
    ensures x > 0.0 && y > 0.0 ==> Times(x, y) > 0.0
    ensures x == 0.0 ==> Times(x, y) == 0.0
    ensures Times(x, y) == Times(y, x)
  {}

  lemma Opposites(x: real, y: real)
    ensures Times(-x, -y) == Times(x, y)
    ensures Times(x, -y) == -Times(x, y)
  {}

  lemma Distribute(t: real, x: real, y: real)
    ensures Times(t, x) + Times(t, y) == Times(t, x + y)
  {}

  lemma Regroup(x: real, y: real, z: real)
    ensures Times(Times(x, y), z) == Times(x, Times(y, z))
  {}

  /** A product vanishes only with a factor. */
  lemma NoZeroDivisors(x: real, y: real)
    requires x > 0.0
    ensures Times(x, y) == 0.0 <==> y == 0.0
    ensures Times(x, y) > 0.0 <==> y > 0.0
  {
    hide Times;
    ProductSigns(x, y);
    ProductSigns(x, -y);
    Opposites(x, y);
    ProductSigns(y, x);
  }

  lemma SquareSign(x: real)
    ensures Times(x, x) >= 0.0
    ensures Times(x, x) == 0.0 <==> x == 0.0
  {
    hide Times;
    ProductSigns(x, x);
    ProductSigns(-x, -x);
    Opposites(x, x);
  }

  lemma QuotientTimes(top: real, bottom: real)
    requires bottom != 0.0
    ensures Times(Over(top, bottom), bottom) == top
  {}

  /** A quotient is the one number that gives back the dividend. */
  lemma QuotientUnique(r: real, top: real, bottom: real)
    requires bottom > 0.0 && Times(r, bottom) == top
    ensures r == Over(top, bottom)
  {
    QuotientTimes(top, bottom);
    hide Times, Over;
    var q := Over(top, bottom);
    ProductSigns(bottom, r);
    ProductSigns(bottom, q);
    Opposites(bottom, q);
    Distribute(bottom, r, -q);
    NoZeroDivisors(bottom, r - q);
  }

  // ----- sums -----

  function Total(xs: seq<real>): real { if xs == [] then 0.0 else Total(xs[..|xs| - 1]) + xs[|xs| - 1] }

  function Mean(xs: seq<real>): real requires xs != [] { Over(Total(xs), |xs| as real) }

  /** Each value less the mean. */
  function Deviations(xs: seq<real>): (r: seq<real>)
    requires xs != []
    ensures |r| == |xs|
  {
    seq(|xs|, i requires 0 <= i < |xs| => xs[i] - Mean(xs))
  }

  function Dot(x: seq<real>, y: seq<real>): real
    requires |x| == |y|
  {
    if x == [] then 0.0 else Dot(x[..|x| - 1], y[..|y| - 1]) + Times(x[|x| - 1], y[|y| - 1])
  }

  // ----- the correlation -----

  /** Log returns between neighbouring dates. */
  function Returns(closes: map<int, real>, dates: seq<int>, ln: real -> real): (r: seq<real>)
    requires forall i :: 0 <= i < |dates| ==> dates[i] in closes && closes[dates[i]] > 0.0
    ensures |r| == if dates == [] then 0 else |dates| - 1
  {
    seq(if dates == [] then 0 else |dates| - 1,
        i requires 0 <= i < |dates| - 1 =>
          ln(Over(closes[dates[i + 1]], closes[dates[i]])))
  }

  ghost predicate IsSqrt(sqrt: real -> real) {
    forall x :: x >= 0.0 ==> sqrt(x) >= 0.0 && Times(sqrt(x), sqrt(x)) == x
  }

  /** Pearson's ratio of two return series; none when either never moves. */
  function Pearson(ra: seq<real>, rb: seq<real>, sqrt: real -> real): Option<real>
    requires |ra| == |rb| > 0
  {
    var x, y := Deviations(ra), Deviations(rb);
    var va, vb := Dot(x, x), Dot(y, y);
    if va == 0.0 || vb == 0.0 then None
    else
      var bottom := Times(sqrt(va), sqrt(vb));
      if bottom == 0.0 then None else Some(Over(Dot(x, y), bottom))
  }

  predicate PositiveOn(closes: map<int, real>, dates: seq<int>)
    requires forall i :: 0 <= i < |dates| ==> dates[i] in closes
  {
    forall i :: 0 <= i < |dates| ==> closes[dates[i]] > 0.0
  }

  function LogReturnCorr(a: seq<Close>, b: seq<Close>, n: nat, ln: real -> real, sqrt: real -> real): Option<real>
    requires n > 0
  {
    var ca, cb := ByDate(a), ByDate(b);
    var dates := Window(ca, cb, n + 1);
    if |dates| < n + 1 || !PositiveOn(ca, dates) || !PositiveOn(cb, dates) then None
    else Pearson(Returns(ca, dates, ln), Returns(cb, dates, ln), sqrt)
  }

  // ----- Cauchy-Schwarz -----

  lemma {:induction false} DotSymmetric(x: seq<real>, y: seq<real>)
    requires |x| == |y|
    ensures Dot(x, y) == Dot(y, x)
  {
    if x != [] {
      hide Times;
      DotSymmetric(x[..|x| - 1], y[..|y| - 1]);
      ProductSigns(x[|x| - 1], y[|y| - 1]);
    }
  }

  /** A sum of squares is never negative, and zero only over zeros. */
  lemma {:induction false} SquaresAreZeroOnlyAtZero(x: seq<real>)
    ensures Dot(x, x) >= 0.0
    ensures Dot(x, x) == 0.0 <==> forall i :: 0 <= i < |x| ==> x[i] == 0.0
  {
    hide Times;
    if x != [] {
      var init, l := x[..|x| - 1], x[|x| - 1];
      SquaresAreZeroOnlyAtZero(init);
      SquareSign(l);
      assert forall i :: 0 <= i < |init| ==> init[i] == x[i];
      assert (forall i :: 0 <= i < |x| ==> x[i] == 0.0) <==> (forall i :: 0 <= i < |init| ==> init[i] == 0.0) && l == 0.0;
    }
  }

  function Lin(p: real, y: real, q: real, x: real): real { Times(p, y) + Times(q, x) }

  /** `p*y + q*x`, entry by entry. */
  function Mix(p: real, y: seq<real>, q: real, x: seq<real>): (r: seq<real>)
    requires |x| == |y|
    ensures |r| == |x|
  {
    seq(|x|, i requires 0 <= i < |x| => Lin(p, y[i], q, x[i]))
  }

  function Quad(p: real, q: real, yy: real, xy: real, xx: real): real {
    p * p * yy + 2.0 * p * q * xy + q * q * xx
  }

  lemma QuadStep(p: real, q: real, yy: real, xy: real, xx: real, x: real, y: real)
    ensures Quad(p, q, yy, xy, xx) + Times(Lin(p, y, q, x), Lin(p, y, q, x))
         == Quad(p, q, yy + Times(y, y), xy + Times(x, y), xx + Times(x, x))
  {}

  lemma {:induction false} MixSquared(p: real, y: seq<real>, q: real, x: seq<real>)
    requires |x| == |y|
    ensures Dot(Mix(p, y, q, x), Mix(p, y, q, x)) == Quad(p, q, Dot(y, y), Dot(x, y), Dot(x, x))
  {
    var m := Mix(p, y, q, x);
    if x == [] {
      assert m == [] && Dot(y, y) == 0.0 && Dot(x, x) == 0.0 && Dot(x, y) == 0.0;
    } else {
      hide Quad, Lin, Times;
      var k := |x| - 1;
      assert forall i :: 0 <= i < k ==> y[..k][i] == y[i] && x[..k][i] == x[i];
      assert m[..k] == Mix(p, y[..k], q, x[..k]);
      MixSquared(p, y[..k], q, x[..k]);
      QuadStep(p, q, Dot(y[..k], y[..k]), Dot(x[..k], y[..k]), Dot(x[..k], x[..k]), x[k], y[k]);
    }
  }

  lemma GapIdentity(va: real, vb: real, cov: real)
    ensures Quad(va, -cov, vb, cov, va) == Times(va, Times(va, vb) - Times(cov, cov))
  {}

  lemma {:induction false} DotWithZeros(x: seq<real>, y: seq<real>)
    requires |x| == |y| && forall i :: 0 <= i < |x| ==> x[i] == 0.0
    ensures Dot(x, y) == 0.0
  {
    if x != [] { DotWithZeros(x[..|x| - 1], y[..|y| - 1]); }
  }

  /** `y` is `x` stretched by `t`. */
  ghost predicate OnLine(x: seq<real>, y: seq<real>, t: real)
    requires |x| == |y|
  {
    forall i :: 0 <= i < |x| ==> y[i] == Times(t, x[i])
  }

  lemma LineStep(t: real, xx: real, x: real, y: real)
    requires y == Times(t, x)
    ensures Times(t, xx) + Times(x, y) == Times(t, xx + Times(x, x))
    ensures Times(t, Times(t, xx)) + Times(y, y) == Times(t, Times(t, xx + Times(x, x)))
  {}

  lemma {:induction false} DotOnLine(x: seq<real>, y: seq<real>, t: real)
    requires |x| == |y| && OnLine(x, y, t)
    ensures Dot(x, y) == Times(t, Dot(x, x))
    ensures Dot(y, y) == Times(t, Times(t, Dot(x, x)))
  {
    if x != [] {
      hide Times;
      var k := |x| - 1;
      DotOnLine(x[..k], y[..k], t);
      LineStep(t, Dot(x[..k], x[..k]), x[k], y[k]);
    }
  }

  lemma SameSquareOnLine(t: real, xx: real)
    ensures Times(Times(t, xx), Times(t, xx)) == Times(xx, Times(t, Times(t, xx)))
  {}

  lemma Slope(va: real, cov: real, x: real, y: real)
    requires va > 0.0 && Lin(va, y, -cov, x) == 0.0
    ensures y == Times(Over(cov, va), x)
  {
    QuotientTimes(cov, va);
    hide Times, Over;
    var t := Over(cov, va);
    Opposites(-cov, -x);
    Opposites(cov, x);
    ProductSigns(va, y);
    Opposites(x, cov);
    ProductSigns(x, -cov);
    ProductSigns(x, cov);
    Regroup(x, t, va);
    ProductSigns(x, t);
    QuotientUnique(y, Times(cov, x), va);
    QuotientUnique(Times(x, t), Times(cov, x), va);
  }

  /** Cauchy-Schwarz, with its equality case: the squared covariance meets the bound exactly when one series is the
      other stretched. */
  lemma CauchySchwarz(x: seq<real>, y: seq<real>)
    requires |x| == |y|
    ensures Times(Dot(x, y), Dot(x, y)) <= Times(Dot(x, x), Dot(y, y))
    ensures Dot(x, x) != 0.0 ==>
              (Times(Dot(x, y), Dot(x, y)) == Times(Dot(x, x), Dot(y, y)) <==> exists t :: OnLine(x, y, t))
  {
    hide Dot, Quad, Lin, Times, Over;
    var va, vb, cov := Dot(x, x), Dot(y, y), Dot(x, y);
    SquaresAreZeroOnlyAtZero(x);
    if va == 0.0 {
      DotWithZeros(x, y);
      ProductSigns(cov, cov);
      ProductSigns(va, vb);
    } else {
      var m := Mix(va, y, -cov, x);
      MixSquared(va, y, -cov, x);
      SquaresAreZeroOnlyAtZero(m);
      GapIdentity(va, vb, cov);
      NoZeroDivisors(va, Times(va, vb) - Times(cov, cov));
      if Times(cov, cov) == Times(va, vb) {
        forall i | 0 <= i < |x| ensures y[i] == Times(Over(cov, va), x[i]) {
          assert m[i] == 0.0;
          Slope(va, cov, x[i], y[i]);
        }
        assert OnLine(x, y, Over(cov, va));
      }
      if t :| OnLine(x, y, t) {
        DotOnLine(x, y, t);
        SameSquareOnLine(t, va);
      }
    }
  }

  // ----- what the returns and the deviations are -----

  /** A logarithm: it turns products into sums. */
  ghost predicate IsLog(ln: real -> real) {
    ln(1.0) == 0.0 && forall x, y :: x > 0.0 && y > 0.0 ==> ln(Times(x, y)) == ln(x) + ln(y)
  }

  lemma LogOfProduct(ln: real -> real, x: real, y: real)
    requires IsLog(ln) && x > 0.0 && y > 0.0
    ensures ln(Times(x, y)) == ln(x) + ln(y)
  {
  }

  lemma RatiosChain(a: real, b: real, c: real)
    requires a > 0.0 && b > 0.0 && c > 0.0
    ensures Over(b, a) > 0.0 && Over(c, b) > 0.0 && Times(Over(b, a), Over(c, b)) == Over(c, a) && Over(a, a) == 1.0
  {
    QuotientTimes(b, a);
    QuotientTimes(c, b);
    assert Times(1.0, a) == a;
    hide Times, Over;
    var p, q := Over(b, a), Over(c, b);
    ProductSigns(a, p);
    NoZeroDivisors(a, p);
    ProductSigns(b, q);
    NoZeroDivisors(b, q);
    Regroup(q, p, a);
    ProductSigns(q, p);
    QuotientUnique(Times(p, q), c, a);
    QuotientUnique(1.0, a, a);
  }

  /** The returns are those between neighbouring dates: the first `k` of them add up to the move from the first date to the
      `k`-th after it, for every `k`. */
  lemma {:induction false} ReturnsTelescope(closes: map<int, real>, dates: seq<int>, ln: real -> real, k: nat)
    requires forall i :: 0 <= i < |dates| ==> dates[i] in closes && closes[dates[i]] > 0.0
    requires IsLog(ln) && k < |dates|
    ensures Total(Returns(closes, dates, ln)[..k]) == ln(Over(closes[dates[k]], closes[dates[0]]))
  {
    hide IsLog, Times, Over;
    var rs := Returns(closes, dates, ln);
    var first := closes[dates[0]];
    if k == 0 {
      RatiosChain(first, first, first);
      LogOfOne(ln);
    } else {
      ReturnsTelescope(closes, dates, ln, k - 1);
      var before, now := closes[dates[k - 1]], closes[dates[k]];
      RatiosChain(first, before, now);
      LogOfProduct(ln, Over(before, first), Over(now, before));
      assert rs[..k][..k - 1] == rs[..k - 1] && rs[..k][k - 1] == rs[k - 1];
    }
  }

  lemma LogOfOne(ln: real -> real)
    requires IsLog(ln)
    ensures ln(1.0) == 0.0
  {
  }

  lemma {:induction false} TotalLess(xs: seq<real>, ys: seq<real>, m: real)
    requires |xs| == |ys| && forall i :: 0 <= i < |xs| ==> ys[i] == xs[i] - m
    ensures Total(ys) == Total(xs) - Times(|xs| as real, m)
  {
    if xs != [] {
      TotalLess(xs[..|xs| - 1], ys[..|ys| - 1], m);
    }
  }

  /** The deviations cancel, so the mean is the mean. */
  lemma DeviationsCancel(xs: seq<real>)
    requires xs != []
    ensures Total(Deviations(xs)) == 0.0
    ensures forall i, j :: 0 <= i < |xs| && 0 <= j < |xs| ==> Deviations(xs)[i] - Deviations(xs)[j] == xs[i] - xs[j]
  {
    TotalLess(xs, Deviations(xs), Mean(xs));
    QuotientTimes(Total(xs), |xs| as real);
    hide Times, Over;
    ProductSigns(|xs| as real, Mean(xs));
  }

  // ----- what the correlation promises -----

  lemma ProductOfSquares(a: real, b: real)
    ensures Times(Times(a, a), Times(b, b)) == Times(Times(a, b), Times(a, b))
  {}

  lemma Squares(s: real, c: real)
    requires c > s > 0.0
    ensures Times(c, c) > Times(s, s)
  {
    hide Times;
    ProductSigns(c, c - s);
    ProductSigns(s, c - s);
    Distribute(c, s, c - s);
    Distribute(s, s, c - s);
    ProductSigns(s, c);
  }

  /** If `c*c <= s*s` then `c/s` lies in [-1, 1], and squares to one exactly on equality. */
  lemma RatioOfSquares(c: real, s: real)
    requires s > 0.0 && Times(c, c) <= Times(s, s)
    ensures -1.0 <= Over(c, s) <= 1.0
    ensures Times(Over(c, s), Over(c, s)) == 1.0 <==> Times(c, c) == Times(s, s)
  {
    var r := Over(c, s);
    QuotientTimes(c, s);
    assert Times(s, 1.0) == s && Times(s, -1.0) == -s && Times(1.0, Times(s, s)) == Times(s, s);
    hide Times, Over;
    if c > s { Squares(s, c); }
    if -c > s { Squares(s, -c); Opposites(c, c); }
    ProductSigns(s, r);
    Distribute(s, 1.0, -r);
    Distribute(s, 1.0, r);
    Opposites(s, r);
    NoZeroDivisors(s, 1.0 - r);
    NoZeroDivisors(s, 1.0 + r);
    ProductOfSquares(r, s);
    SquareSign(s);
    QuotientUnique(Times(r, r), Times(c, c), Times(s, s));
    QuotientUnique(1.0, Times(s, s), Times(s, s));
    QuotientTimes(Times(c, c), Times(s, s));
  }

  lemma SqrtSplits(sqrt: real -> real, va: real, vb: real)
    requires IsSqrt(sqrt) && va > 0.0 && vb > 0.0
    ensures var s := Times(sqrt(va), sqrt(vb)); s > 0.0 && Times(s, s) == Times(va, vb)
  {
    hide Times;
    SquareSign(sqrt(va));
    SquareSign(sqrt(vb));
    ProductSigns(sqrt(va), sqrt(vb));
    ProductOfSquares(sqrt(va), sqrt(vb));
  }

  /** The ratio is defined exactly when neither series is constant; it lies in [-1, 1], and reaches an end exactly
      when one series' deviations are the other's stretched. */
  lemma PearsonBound(ra: seq<real>, rb: seq<real>, sqrt: real -> real)
    requires |ra| == |rb| > 0 && IsSqrt(sqrt)
    ensures var r, x, y := Pearson(ra, rb, sqrt), Deviations(ra), Deviations(rb);
            && (r.Some? <==> Dot(x, x) != 0.0 && Dot(y, y) != 0.0)
            && (r.Some? ==> -1.0 <= r.value <= 1.0)
            && (r.Some? ==> (Times(r.value, r.value) == 1.0 <==> exists t :: OnLine(x, y, t)))
  {
    hide Dot, Deviations, Over, OnLine, Times, IsSqrt;
    var x, y := Deviations(ra), Deviations(rb);
    CauchySchwarz(x, y);
    SquaresAreZeroOnlyAtZero(x);
    SquaresAreZeroOnlyAtZero(y);
    if Dot(x, x) != 0.0 && Dot(y, y) != 0.0 {
      SqrtSplits(sqrt, Dot(x, x), Dot(y, y));
      RatioOfSquares(Dot(x, y), Times(sqrt(Dot(x, x)), sqrt(Dot(y, y))));
    }
  }

  /** The ratio is the covariance over the product of the deviations' lengths. */
  lemma PearsonIsTheRatio(ra: seq<real>, rb: seq<real>, sqrt: real -> real)
    requires |ra| == |rb| > 0 && Pearson(ra, rb, sqrt).Some?
    ensures var x, y := Deviations(ra), Deviations(rb);
            Times(Pearson(ra, rb, sqrt).value, Times(sqrt(Dot(x, x)), sqrt(Dot(y, y)))) == Dot(x, y)
  {
    var x, y := Deviations(ra), Deviations(rb);
    QuotientTimes(Dot(x, y), Times(sqrt(Dot(x, x)), sqrt(Dot(y, y))));
    hide Times, Over, Dot, Deviations;
  }

  lemma CorrelationIsBounded(a: seq<Close>, b: seq<Close>, n: nat, ln: real -> real, sqrt: real -> real)
    requires n > 0 && IsSqrt(sqrt)
    ensures var r := LogReturnCorr(a, b, n, ln, sqrt); r.Some? ==> -1.0 <= r.value <= 1.0
  {
    hide Pearson, IsSqrt, Returns, Window;
    var ca, cb := ByDate(a), ByDate(b);
    var dates := Window(ca, cb, n + 1);
    if |dates| >= n + 1 && PositiveOn(ca, dates) && PositiveOn(cb, dates) {
      PearsonBound(Returns(ca, dates, ln), Returns(cb, dates, ln), sqrt);
    }
  }

  lemma PearsonSymmetric(ra: seq<real>, rb: seq<real>, sqrt: real -> real)
    requires |ra| == |rb| > 0
    ensures Pearson(ra, rb, sqrt) == Pearson(rb, ra, sqrt)
  {
    hide Dot, Deviations, Times;
    var x, y := Deviations(ra), Deviations(rb);
    DotSymmetric(x, y);
    ProductSigns(sqrt(Dot(x, x)), sqrt(Dot(y, y)));
  }

  lemma CorrelationIsSymmetric(a: seq<Close>, b: seq<Close>, n: nat, ln: real -> real, sqrt: real -> real)
    requires n > 0
    ensures LogReturnCorr(a, b, n, ln, sqrt) == LogReturnCorr(b, a, n, ln, sqrt)
  {
    hide Pearson, Returns, Sorted;
    var ca, cb := ByDate(a), ByDate(b);
    assert ca.Keys * cb.Keys == cb.Keys * ca.Keys;
    var dates := Window(ca, cb, n + 1);
    assert dates == Window(cb, ca, n + 1);
    if |dates| >= n + 1 && PositiveOn(ca, dates) && PositiveOn(cb, dates) {
      PearsonSymmetric(Returns(ca, dates, ln), Returns(cb, dates, ln), sqrt);
    }
  }

  // ----- scaling -----

  /** The same bars quoted in another unit. */
  function Scaled(bars: seq<Close>, k: real): (r: seq<Close>)
    ensures |r| == |bars|
  {
    seq(|bars|, i requires 0 <= i < |bars| => Close(bars[i].date, Times(k, bars[i].close)))
  }

  lemma {:induction false} ScaledByDate(bars: seq<Close>, k: real)
    ensures ByDate(Scaled(bars, k)) == map d | d in ByDate(bars) :: Times(k, ByDate(bars)[d])
  {
    hide Times;
    if bars != [] {
      assert forall i :: 0 <= i < |bars| - 1 ==> bars[..|bars| - 1][i] == bars[i];
      ScaledByDate(bars[..|bars| - 1], k);
      assert Scaled(bars, k)[..|bars| - 1] == Scaled(bars[..|bars| - 1], k);
    }
  }

  lemma ScaleCancels(k: real, x: real, y: real)
    requires k > 0.0 && x > 0.0 && y > 0.0
    ensures Times(k, x) > 0.0 && Times(k, y) > 0.0 && Over(Times(k, y), Times(k, x)) == Over(y, x)
  {
    QuotientTimes(y, x);
    hide Times, Over;
    var q := Over(y, x);
    ProductSigns(k, x);
    ProductSigns(k, y);
    ProductSigns(q, k);
    Regroup(q, k, x);
    Regroup(k, q, x);
    QuotientUnique(q, Times(k, y), Times(k, x));
  }

  lemma ScaledReturns(c: map<int, real>, dates: seq<int>, k: real, ln: real -> real)
    requires k > 0.0 && forall i :: 0 <= i < |dates| ==> dates[i] in c && c[dates[i]] > 0.0
    ensures var s := map d | d in c :: Times(k, c[d]);
            && (forall i :: 0 <= i < |dates| ==> dates[i] in s && s[dates[i]] > 0.0)
            && Returns(s, dates, ln) == Returns(c, dates, ln)
  {
    hide Times, Over;
    var s := map d | d in c :: Times(k, c[d]);
    forall i | 0 <= i < |dates| ensures s[dates[i]] > 0.0 { ScaleCancels(k, c[dates[i]], c[dates[i]]); }
    SameRatiosSameReturns(c, s, dates, ln, k);
  }

  lemma SameRatiosSameReturns(c: map<int, real>, s: map<int, real>, dates: seq<int>, ln: real -> real, k: real)
    requires k > 0.0
    requires forall i :: 0 <= i < |dates| ==> dates[i] in c && c[dates[i]] > 0.0
    requires forall i :: 0 <= i < |dates| ==>
               dates[i] in s && s[dates[i]] > 0.0 && s[dates[i]] == Times(k, c[dates[i]])
    ensures Returns(s, dates, ln) == Returns(c, dates, ln)
  {
    hide Times, Over;
    forall i | 0 <= i < |dates| - 1 ensures Returns(s, dates, ln)[i] == Returns(c, dates, ln)[i] {
      ScaleCancels(k, c[dates[i]], c[dates[i + 1]]);
    }
  }

  lemma CorrelationIgnoresScale(a: seq<Close>, b: seq<Close>, k: real, n: nat, ln: real -> real, sqrt: real -> real)
    requires n > 0 && k > 0.0
    ensures LogReturnCorr(Scaled(a, k), b, n, ln, sqrt) == LogReturnCorr(a, b, n, ln, sqrt)
  {
    hide Pearson, Returns, Sorted, Scaled, Times;
    ScaledByDate(a, k);
    var ca, cb, s := ByDate(a), ByDate(b), ByDate(Scaled(a, k));
    assert s.Keys == ca.Keys;
    var dates := Window(ca, cb, n + 1);
    assert dates == Window(s, cb, n + 1);
    if PositiveOn(ca, dates) {
      ScaledReturns(ca, dates, k, ln);
    } else {
      var i :| 0 <= i < |dates| && ca[dates[i]] <= 0.0;
      assert s[dates[i]] == Times(k, ca[dates[i]]);
      NotPositive(k, ca[dates[i]]);
      assert !PositiveOn(s, dates);
    }
  }

  lemma NotPositive(k: real, x: real)
    requires k > 0.0 && x <= 0.0
    ensures Times(k, x) <= 0.0
  {
    hide Times;
    NoZeroDivisors(k, x);
  }

  // ----- itself and its inverse -----

  lemma {:induction false} LineTotal(xs: seq<real>, ys: seq<real>, t: real)
    requires |xs| == |ys| && OnLine(xs, ys, t)
    ensures Total(ys) == Times(t, Total(xs))
  {
    if xs != [] {
      hide Times;
      var k := |xs| - 1;
      LineTotal(xs[..k], ys[..k], t);
      Distribute(t, Total(xs[..k]), xs[k]);
    }
  }

  lemma LineMean(t: real, total: real, n: real)
    requires n > 0.0
    ensures Over(Times(t, total), n) == Times(t, Over(total, n))
  {
    QuotientTimes(total, n);
    hide Times, Over;
    Regroup(t, Over(total, n), n);
    QuotientUnique(Times(t, Over(total, n)), Times(t, total), n);
  }

  lemma LineDeviations(xs: seq<real>, ys: seq<real>, t: real)
    requires |xs| == |ys| > 0 && OnLine(xs, ys, t)
    ensures OnLine(Deviations(xs), Deviations(ys), t)
  {
    hide Times, Over;
    LineTotal(xs, ys, t);
    LineMean(t, Total(xs), |xs| as real);
    forall i | 0 <= i < |xs| ensures Deviations(ys)[i] == Times(t, Deviations(xs)[i]) {
      assert ys[i] == Times(t, xs[i]) && Mean(ys) == Times(t, Mean(xs));
      Opposites(t, Mean(xs));
      Distribute(t, xs[i], -Mean(xs));
    }
  }

  lemma UnitSign(sign: real, v: real)
    requires (sign == 1.0 || sign == -1.0) && v > 0.0
    ensures Times(sign, Times(sign, v)) == v && Over(Times(sign, v), v) == sign
  {}

  /** Returns that are another series' own, or its own turned over, correlate at exactly one or minus one. */
  lemma PearsonOfMirror(ra: seq<real>, rb: seq<real>, sign: real, sqrt: real -> real)
    requires |ra| == |rb| > 0 && IsSqrt(sqrt) && (sign == 1.0 || sign == -1.0)
    requires OnLine(ra, rb, sign)
    ensures var r := Pearson(ra, rb, sqrt); r.Some? ==> r.value == sign
  {
    hide Dot, Deviations, Times, Over, OnLine;
    LineDeviations(ra, rb, sign);
    var x, y := Deviations(ra), Deviations(rb);
    DotOnLine(x, y, sign);
    SquaresAreZeroOnlyAtZero(x);
    if Dot(x, x) != 0.0 { UnitSign(sign, Dot(x, x)); }
  }

  lemma SelfCorrelationIsOne(a: seq<Close>, n: nat, ln: real -> real, sqrt: real -> real)
    requires n > 0 && IsSqrt(sqrt)
    ensures var r := LogReturnCorr(a, a, n, ln, sqrt); r.Some? ==> r.value == 1.0
  {
    hide Pearson, IsSqrt, Returns, Window;
    var ca := ByDate(a);
    var dates := Window(ca, ca, n + 1);
    if |dates| >= n + 1 && PositiveOn(ca, dates) {
      var ra := Returns(ca, dates, ln);
      assert OnLine(ra, ra, 1.0);
      PearsonOfMirror(ra, ra, 1.0, sqrt);
    }
  }

  /** Every close replaced by its reciprocal. */
  function Inverted(bars: seq<Close>): (r: seq<Close>)
    requires forall i :: 0 <= i < |bars| ==> bars[i].close > 0.0
    ensures |r| == |bars|
  {
    seq(|bars|, i requires 0 <= i < |bars| => Close(bars[i].date, Over(1.0, bars[i].close)))
  }

  lemma {:induction false} InvertedByDate(bars: seq<Close>)
    requires forall i :: 0 <= i < |bars| ==> bars[i].close > 0.0
    ensures forall d :: d in ByDate(bars) ==> ByDate(bars)[d] > 0.0
    ensures ByDate(Inverted(bars)).Keys == ByDate(bars).Keys
    ensures forall d :: d in ByDate(bars) ==> ByDate(Inverted(bars))[d] == Over(1.0, ByDate(bars)[d])
  {
    hide Over;
    if bars != [] {
      var init := bars[..|bars| - 1];
      assert forall i :: 0 <= i < |init| ==> init[i] == bars[i];
      InvertedByDate(init);
      assert Inverted(bars)[..|bars| - 1] == Inverted(init);
    }
  }

  ghost predicate TurnsOver(ln: real -> real) { forall x :: x > 0.0 ==> ln(Over(1.0, x)) == -ln(x) }

  lemma TurnedOver(ln: real -> real, x: real)
    requires TurnsOver(ln) && x > 0.0
    ensures ln(Over(1.0, x)) == -ln(x)
  {}

  lemma Reciprocals(x: real, y: real)
    requires x > 0.0 && y > 0.0
    ensures Over(1.0, x) > 0.0 && Over(1.0, y) > 0.0 && Over(y, x) > 0.0
    ensures Over(Over(1.0, y), Over(1.0, x)) == Over(1.0, Over(y, x))
  {
    QuotientTimes(1.0, x);
    QuotientTimes(1.0, y);
    QuotientTimes(y, x);
    assert Times(Over(y, x), 1.0) == Over(y, x);
    hide Times, Over;
    var u, v, q := Over(1.0, x), Over(1.0, y), Over(y, x);
    ProductSigns(x, u);
    ProductSigns(y, v);
    ProductSigns(x, q);
    NoZeroDivisors(x, u);
    NoZeroDivisors(y, v);
    NoZeroDivisors(x, q);
    QuotientTimes(1.0, q);
    ReciprocalOfRatio(x, y, u, v, q, Over(1.0, q));
  }

  lemma ReciprocalOfRatio(x: real, y: real, u: real, v: real, q: real, w: real)
    requires x > 0.0 && y > 0.0 && u > 0.0 && q > 0.0
    requires Times(u, x) == 1.0 && Times(v, y) == 1.0 && Times(q, x) == y && Times(w, q) == 1.0
    ensures Over(v, u) == w
  {
    assert Times(y, 1.0) == y;
    hide Times, Over;
    Regroup(y, u, x);
    QuotientUnique(Times(y, u), y, x);
    QuotientUnique(q, y, x);
    assert Times(y, u) == q;
    Regroup(w, u, y);
    ProductSigns(u, y);
    QuotientUnique(Times(w, u), 1.0, y);
    QuotientUnique(v, 1.0, y);
    QuotientUnique(w, v, u);
  }

  lemma MinusOne(x: real)
    ensures Times(-1.0, x) == -x
  {}

  lemma InvertedReturns(c: map<int, real>, inv: map<int, real>, dates: seq<int>, ln: real -> real)
    requires TurnsOver(ln)
    requires forall i :: 0 <= i < |dates| ==> dates[i] in c && c[dates[i]] > 0.0
    requires forall i :: 0 <= i < |dates| ==>
               dates[i] in inv && inv[dates[i]] > 0.0 && inv[dates[i]] == Over(1.0, c[dates[i]])
    ensures OnLine(Returns(c, dates, ln), Returns(inv, dates, ln), -1.0)
  {
    hide Over, Times, TurnsOver;
    forall i | 0 <= i < |dates| - 1
      ensures Returns(inv, dates, ln)[i] == Times(-1.0, Returns(c, dates, ln)[i])
    {
      Reciprocals(c[dates[i]], c[dates[i + 1]]);
      TurnedOver(ln, Over(c[dates[i + 1]], c[dates[i]]));
      MinusOne(Returns(c, dates, ln)[i]);
    }
  }

  /** A series and its reciprocal correlate at exactly minus one. */
  lemma InverseCorrelationIsMinusOne(a: seq<Close>, n: nat, ln: real -> real, sqrt: real -> real)
    requires n > 0 && IsSqrt(sqrt) && TurnsOver(ln)
    requires forall i :: 0 <= i < |a| ==> a[i].close > 0.0
    ensures var r := LogReturnCorr(a, Inverted(a), n, ln, sqrt); r.Some? ==> r.value == -1.0
  {
    InvertedByDate(a);
    hide Pearson, IsSqrt, Window, Inverted, ByDate, Over, Times, Returns, OnLine, TurnsOver;
    var ca, cb := ByDate(a), ByDate(Inverted(a));
    var dates := Window(ca, cb, n + 1);
    if |dates| >= n + 1 && PositiveOn(ca, dates) && PositiveOn(cb, dates) {
      var ra, rb := Returns(ca, dates, ln), Returns(cb, dates, ln);
      assert forall i :: 0 <= i < |dates| ==> ca[dates[i]] > 0.0 && cb[dates[i]] > 0.0;
      forall i | 0 <= i < |dates| ensures cb[dates[i]] == Over(1.0, ca[dates[i]]) {
        var d := dates[i];
        assert d in ca;
      }
      InvertedReturns(ca, cb, dates, ln);
      PearsonOfMirror(ra, rb, -1.0, sqrt);
    }
  }

  // ----- when there is an answer -----

  lemma {:induction false} TotalOfConstant(xs: seq<real>, c: real)
    requires forall i :: 0 <= i < |xs| ==> xs[i] == c
    ensures Total(xs) == Times(|xs| as real, c)
  {
    if xs != [] { TotalOfConstant(xs[..|xs| - 1], c); }
  }

  /** No variance exactly when every return is the same. */
  lemma NoVarianceExactlyWhenConstant(xs: seq<real>)
    requires xs != []
    ensures Dot(Deviations(xs), Deviations(xs)) == 0.0 <==> forall i :: 0 <= i < |xs| ==> xs[i] == xs[0]
  {
    hide Dot;
    var x := Deviations(xs);
    SquaresAreZeroOnlyAtZero(x);
    if forall i :: 0 <= i < |xs| ==> xs[i] == xs[0] {
      TotalOfConstant(xs, xs[0]);
      assert Mean(xs) == xs[0];
    }
    if forall i :: 0 <= i < |x| ==> x[i] == 0.0 {
      forall i | 0 <= i < |xs| ensures xs[i] == xs[0] {
        assert x[i] == 0.0 && x[0] == 0.0;
      }
    }
  }

  ghost predicate Moves(xs: seq<real>) { exists i :: 0 < i < |xs| && xs[i] != xs[0] }

  lemma VariesExactlyWhenItMoves(xs: seq<real>)
    requires xs != []
    ensures Dot(Deviations(xs), Deviations(xs)) != 0.0 <==> Moves(xs)
  {
    NoVarianceExactlyWhenConstant(xs);
    hide Dot, Deviations;
  }

  /** There is an answer exactly when the two series share enough dates, every close on the last of them is positive
      and neither return series is constant. */
  lemma AnswersExactlyWhenBothMove(a: seq<Close>, b: seq<Close>, n: nat, ln: real -> real, sqrt: real -> real)
    requires n > 0 && IsSqrt(sqrt)
    ensures var ca, cb := ByDate(a), ByDate(b);
            var dates := Window(ca, cb, n + 1);
            LogReturnCorr(a, b, n, ln, sqrt).Some? <==>
              && |ca.Keys * cb.Keys| > n && PositiveOn(ca, dates) && PositiveOn(cb, dates)
              && Moves(Returns(ca, dates, ln)) && Moves(Returns(cb, dates, ln))
  {
    hide Pearson, IsSqrt, Returns, Window, Dot, Deviations, Moves, OnLine, ByDate, Times;
    var ca, cb := ByDate(a), ByDate(b);
    var dates := Window(ca, cb, n + 1);
    if |dates| >= n + 1 && PositiveOn(ca, dates) && PositiveOn(cb, dates) {
      var ra, rb := Returns(ca, dates, ln), Returns(cb, dates, ln);
      PearsonBound(ra, rb, sqrt);
      VariesExactlyWhenItMoves(ra);
      VariesExactlyWhenItMoves(rb);
    }
  }
}
