/** The strip of options V1 integrates: the final book of one expiry, and its contribution
    to the variance, a sum of price over squared strike weighted by strike distances. */
module VixStrips {
  import opened MarketData
  import opened OptionNames

  datatype Entry = Entry(symbol: Symbol, mid: real)

  datatype LegKind = PutLeg | CallLeg | AverageLeg

  datatype Leg = Leg(strike: Strike, kind: LegKind, price: real)

  // ----- the discrete sum

  function Strikes(book: seq<Leg>): (ks: seq<real>)
    ensures |ks| == |book| && forall i | 0 <= i < |ks| :: ks[i] == book[i].strike as real > 0.0
  {
    seq(|book|, i requires 0 <= i < |book| => book[i].strike as real)
  }

  /** Half the distance between the neighbours; at the ends, the distance to the only neighbour. */
  function DeltaK(ks: seq<real>, i: nat): real
    requires 2 <= |ks| && i < |ks|
  {
    if i == 0 then ks[1] - ks[0]
    else if i == |ks| - 1 then ks[i] - ks[i - 1]
    else (ks[i + 1] - ks[i - 1]) / 2.0
  }

  /** A product of two reals under a name of its own, so that equal factors make equal areas. */
  function Area(width: real, height: real): (a: real)
    ensures width > 0.0 && height > 0.0 ==> a > 0.0
  {
    width * height
  }

  function Square(k: real): (s: real)
    requires k > 0.0
    ensures s > 0.0
  {
    Area(k, k)
  }

  /** One term of the sum: the price over the squared strike, weighted by the strike distance. */
  function Strip(deltaK: real, strike: real, price: real): real
    requires strike > 0.0
  {
    Area(deltaK / Square(strike), price)
  }

  function Terms(book: seq<Leg>): (terms: seq<real>)
    requires 2 <= |book|
    ensures |terms| == |book|
  {
    var ks := Strikes(book);
    seq(|book|, i requires 0 <= i < |book| => Strip(DeltaK(ks, i), ks[i], book[i].price))
  }

  function Sum(xs: seq<real>): real {
    if xs == [] then 0.0 else Sum(xs[..|xs| - 1]) + xs[|xs| - 1]
  }

  /** A book of one leg has no neighbour to measure from: the source throws. */
  function Contribution(book: seq<Leg>): Option<real> {
    if book == [] then Some(0.0)
    else if |book| == 1 then None
    else Some(Sum(Terms(book)))
  }

  method ContributionGet(finalBook: seq<Leg>) returns (r: Option<real>)
    ensures r == Contribution(finalBook)
  {
    var contribution := 0.0;
    for i := 0 to |finalBook|
      invariant 0 < i ==> 2 <= |finalBook|
      invariant contribution == if i == 0 then 0.0 else Sum(Terms(finalBook)[..i])
    {
      var thisStrike, deltaK := finalBook[i].strike as real, 0.0;
      if i == 0 {
        if |finalBook| == 1 {
          return None;
        }
        deltaK := finalBook[i + 1].strike as real - thisStrike;
      } else if i == |finalBook| - 1 {
        deltaK := thisStrike - finalBook[i - 1].strike as real;
      } else {
        deltaK := (finalBook[i + 1].strike as real - finalBook[i - 1].strike as real) / 2.0;
      }
      SumExtends(Terms(finalBook), i);
      assert deltaK == DeltaK(Strikes(finalBook), i);
      contribution := contribution + Strip(deltaK, thisStrike, finalBook[i].price);
    }
    assert |finalBook| >= 2 ==> Terms(finalBook)[..|finalBook|] == Terms(finalBook);
    r := Some(contribution);
  }

  lemma SumExtends(xs: seq<real>, i: nat)
    requires i < |xs|
    ensures Sum(xs[..i + 1]) == Sum(xs[..i]) + xs[i]
    ensures Sum(xs[..0]) == 0.0
  {
    assert xs[..i + 1][..i] == xs[..i];
  }

  /** Strikes strictly increase. */
  predicate StrictlyAscending(book: seq<Leg>) {
    forall i, j | 0 <= i < j < |book| :: book[i].strike < book[j].strike
  }

  /** Price over squared strike. */
  function PerSquare(price: real, strike: real): real
    requires strike > 0.0
  {
    price / Square(strike)
  }

  /** The integrand at each leg. */
  function Integrand(book: seq<Leg>): (qs: seq<real>)
    ensures |qs| == |book|
  {
    var ks := Strikes(book);
    seq(|book|, i requires 0 <= i < |book| => PerSquare(book[i].price, ks[i]))
  }

  /** Every term is a strip: its width times the integrand. */
  ghost predicate AreStrips(ks: seq<real>, qs: seq<real>, ts: seq<real>) {
    2 <= |ks| == |qs| == |ts| && forall i: nat | i < |ks| :: ts[i] == Area(DeltaK(ks, i), qs[i])
  }

  lemma TermsAreStrips(book: seq<Leg>)
    requires 2 <= |book|
    ensures AreStrips(Strikes(book), Integrand(book), Terms(book))
  {
    var ks := Strikes(book);
    forall i: nat | i < |book|
      ensures Terms(book)[i] == Area(DeltaK(ks, i), Integrand(book)[i])
    {
      StripIsProduct(DeltaK(ks, i), ks[i], book[i].price);
    }
  }

  lemma StripIsProduct(d: real, k: real, p: real)
    requires k > 0.0
    ensures Strip(d, k, p) == Area(d, PerSquare(p, k))
  {
    Reassociate(d, Square(k), p);
  }

  lemma Reassociate(d: real, s: real, p: real)
    requires s != 0.0
    ensures d / s * p == d * (p / s)
  {
    var inverse := 1.0 / s;
    assert d / s == d * inverse && p / s == p * inverse;
  }

  // ----- the trapezoid rule

  /** The trapezoid rule for values `qs` at the first `n` points of `ks`. */
  function Trapezoids(ks: seq<real>, qs: seq<real>, n: nat): real
    requires n <= |ks| == |qs|
  {
    if n < 2 then 0.0
    else Trapezoids(ks, qs, n - 1) + Area(ks[n - 1] - ks[n - 2], qs[n - 2] + qs[n - 1]) / 2.0
  }

  lemma {:induction false} PartialTrapezoids(ks: seq<real>, qs: seq<real>, ts: seq<real>, n: nat)
    requires 1 <= n < |ks|
    requires AreStrips(ks, qs, ts)
    ensures Sum(ts[..n]) == Trapezoids(ks, qs, n) + Area((ks[1] - ks[0]) / 2.0, qs[0]) + Area((ks[n] - ks[n - 1]) / 2.0, qs[n - 1])
  {
    SumExtends(ts, n - 1);
    StripAt(ks, qs, ts, n - 1);
    if n == 1 {
      TwoHalves(ks[1] - ks[0], qs[0]);
    } else {
      PartialTrapezoids(ks, qs, ts, n - 1);
      StripStep(ks[n - 2], ks[n - 1], ks[n], qs[n - 2], qs[n - 1]);
    }
  }

  lemma StripAt(ks: seq<real>, qs: seq<real>, ts: seq<real>, i: nat)
    requires AreStrips(ks, qs, ts) && i < |ks| - 1
    ensures ts[i] == if i == 0 then Area(ks[1] - ks[0], qs[0]) else Area((ks[i + 1] - ks[i - 1]) / 2.0, qs[i])
  {
  }

  lemma TwoHalves(w: real, q: real)
    ensures Area(w, q) == Area(w / 2.0, q) + Area(w / 2.0, q)
  {
  }

  lemma StripStep(a: real, b: real, c: real, p: real, q: real)
    ensures Area((b - a) / 2.0, p) + Area((c - a) / 2.0, q) == Area(b - a, p + q) / 2.0 + Area((c - b) / 2.0, q)
  {
    assert (b - a) * (p + q) == (b - a) * p + (b - a) * q;
    assert (c - a) / 2.0 * q == (b - a) / 2.0 * q + (c - b) / 2.0 * q;
  }

  /** The trapezoid rule over all points, plus half a strip at each end. */
  function TrapezoidsAndEnds(ks: seq<real>, qs: seq<real>): real
    requires 2 <= |ks| == |qs|
  {
    var n := |ks|;
    Trapezoids(ks, qs, n) + Area((ks[1] - ks[0]) / 2.0, qs[0]) + Area((ks[n - 1] - ks[n - 2]) / 2.0, qs[n - 1])
  }

  /** The contribution is the trapezoid rule for price over squared strike, plus half a strip at
      each end. */
  lemma ContributionIsTrapezoids(book: seq<Leg>)
    requires 2 <= |book|
    ensures Contribution(book) == Some(TrapezoidsAndEnds(Strikes(book), Integrand(book)))
  {
    TermsAreStrips(book);
    SumIsTrapezoids(Strikes(book), Integrand(book), Terms(book));
  }

  lemma SumIsTrapezoids(ks: seq<real>, qs: seq<real>, ts: seq<real>)
    requires AreStrips(ks, qs, ts)
    ensures Sum(ts) == TrapezoidsAndEnds(ks, qs)
  {
    var n := |ks|;
    PartialTrapezoids(ks, qs, ts, n - 1);
    LastStrip(Sum(ts[..n - 1]), Trapezoids(ks, qs, n - 1), Area((ks[1] - ks[0]) / 2.0, qs[0]), ks[n - 1] - ks[n - 2], qs[n - 2], qs[n - 1]);
  }

  lemma LastStrip(sum: real, trapezoids: real, first: real, w: real, p: real, q: real)
    requires sum == trapezoids + first + Area(w / 2.0, p)
    ensures sum + Area(w, q) == trapezoids + Area(w, p + q) / 2.0 + first + Area(w / 2.0, q)
  {
    assert w * (p + q) == w * p + w * q;
  }

  // ----- bounds

  ghost predicate Increasing(ks: seq<real>) {
    forall i, j | 0 <= i < j < |ks| :: ks[i] < ks[j]
  }

  lemma {:induction false} SumIsMonotone(xs: seq<real>, ys: seq<real>)
    requires |xs| == |ys| && forall i | 0 <= i < |xs| :: xs[i] <= ys[i]
    ensures Sum(xs) <= Sum(ys)
    ensures (exists i :: 0 <= i < |xs| && xs[i] < ys[i]) ==> Sum(xs) < Sum(ys)
  {
    if xs != [] {
      SumIsMonotone(xs[..|xs| - 1], ys[..|ys| - 1]);
      if i :| 0 <= i < |xs| - 1 && xs[i] < ys[i] {
        assert xs[..|xs| - 1][i] < ys[..|ys| - 1][i];
      }
    }
  }

  function Scaled(xs: seq<real>, c: real): (ys: seq<real>)
    ensures |ys| == |xs| && forall i: nat | i < |xs| :: ys[i] == Area(xs[i], c)
  {
    seq(|xs|, i requires 0 <= i < |xs| => Area(xs[i], c))
  }

  lemma {:induction false} SumScales(xs: seq<real>, c: real)
    ensures Sum(Scaled(xs, c)) == Area(Sum(xs), c)
  {
    if xs != [] {
      var n := |xs| - 1;
      SumScales(xs[..n], c);
      assert forall i: nat | i < n :: Scaled(xs, c)[..n][i] == Scaled(xs[..n], c)[i];
      assert Scaled(xs, c)[..n] == Scaled(xs[..n], c);
      Distribute(Sum(xs[..n]), xs[n], c);
    }
  }

  lemma Distribute(a: real, b: real, c: real)
    ensures Area(a + b, c) == Area(a, c) + Area(b, c)
  {
  }

  function Weights(ks: seq<real>): (ws: seq<real>)
    requires 2 <= |ks|
    ensures |ws| == |ks| && forall i: nat | i < |ws| :: ws[i] == DeltaK(ks, i)
  {
    seq(|ks|, i requires 0 <= i < |ks| => DeltaK(ks, i))
  }

  /** The weights add up to the distance covered plus half a step at each end. */
  lemma {:induction false} PartialWidth(ks: seq<real>, n: nat)
    requires 1 <= n < |ks|
    ensures Sum(Weights(ks)[..n]) == (ks[n] + ks[n - 1]) / 2.0 - ks[0] + (ks[1] - ks[0]) / 2.0
  {
    SumExtends(Weights(ks), n - 1);
    if n > 1 {
      PartialWidth(ks, n - 1);
    }
  }

  lemma WidthIsBounded(ks: seq<real>)
    requires Increasing(ks) && 2 <= |ks|
    ensures Sum(Weights(ks)) <= 2.0 * (ks[|ks| - 1] - ks[0])
  {
    var n := |ks|;
    PartialWidth(ks, n - 1);
    SumExtends(Weights(ks), n - 1);
    assert Weights(ks)[..n] == Weights(ks);
    assert ks[0] < ks[n - 1];
    assert n > 2 ==> ks[0] < ks[1] < ks[n - 1] && ks[0] < ks[n - 2];
  }

  lemma DeltaKIsPositive(ks: seq<real>, i: nat)
    requires Increasing(ks) && 2 <= |ks| && i < |ks|
    ensures DeltaK(ks, i) > 0.0
  {
    assert i > 0 ==> ks[i - 1] < ks[i];
    assert i + 1 < |ks| ==> ks[i] < ks[i + 1];
  }

  lemma QuotientBounds(p: real, q: real, s: real, t: real)
    requires 0.0 <= p <= q && 0.0 < s <= t
    ensures 0.0 <= p / t <= q / s
    ensures p > 0.0 ==> p / t > 0.0
  {
    var x, y := p / t, q / s;
    assert x * t == p && y * s == q;
    assert x >= 0.0;
    assert x * s <= x * t;
    assert (y - x) * s >= 0.0;
  }

  lemma QuotientKeepsOrder(p: real, q: real, s: real)
    requires p <= q && s > 0.0
    ensures p / s <= q / s
  {
    var x, y := p / s, q / s;
    assert x * s == p && y * s == q;
    assert (y - x) * s >= 0.0;
  }

  lemma ProductKeepsOrder(d: real, x: real, y: real)
    requires d > 0.0 && x <= y
    ensures Area(d, x) <= Area(d, y)
    ensures x < y ==> Area(d, x) < Area(d, y)
  {
    var step := y - x;
    assert d * y == d * x + d * step;
    assert step > 0.0 ==> Area(d, step) > 0.0;
    assert step == 0.0 ==> d * step == 0.0;
  }

  lemma SquareKeepsOrder(a: real, b: real)
    requires 0.0 < a <= b
    ensures Square(a) <= Square(b)
  {
    ProductKeepsOrder(a, a, b);
    ProductKeepsOrder(b, a, b);
    assert Area(a, b) == Area(b, a);
  }

  /** The integrand is at most the largest price over the smallest squared strike. */
  lemma PerSquareIsBounded(p: real, price: real, least: real, k: real)
    requires 0.0 < least <= k && 0.0 <= p <= price
    ensures 0.0 <= PerSquare(p, k) <= PerSquare(price, least)
    ensures p > 0.0 ==> PerSquare(p, k) > 0.0
  {
    SquareKeepsOrder(least, k);
    QuotientBounds(p, price, Square(least), Square(k));
  }

  lemma PerSquareIsMonotone(p: real, q: real, k: real)
    requires p <= q && k > 0.0
    ensures PerSquare(p, k) <= PerSquare(q, k)
  {
    QuotientKeepsOrder(p, q, Square(k));
  }

  ghost predicate AllBetween(qs: seq<real>, c: real) {
    forall i: nat | i < |qs| :: 0.0 <= qs[i] <= c
  }

  /** Terms between nothing and `c` times their weight sum up accordingly. */
  lemma SumOfStrips(ks: seq<real>, qs: seq<real>, ts: seq<real>, c: real)
    requires Increasing(ks) && 2 <= |ks|
    requires AreStrips(ks, qs, ts)
    requires AllBetween(qs, c)
    ensures 0.0 <= Sum(ts) <= Area(2.0 * (ks[|ks| - 1] - ks[0]), c)
    ensures qs[0] > 0.0 ==> Sum(ts) > 0.0
  {
    var ws := Weights(ks);
    forall i: nat | i < |ks|
      ensures Scaled(ws, 0.0)[i] <= ts[i] <= Scaled(ws, c)[i]
      ensures qs[i] > 0.0 ==> Scaled(ws, 0.0)[i] < ts[i]
    {
      DeltaKIsPositive(ks, i);
      StripIsBetween(DeltaK(ks, i), qs[i], c);
    }
    SumIsMonotone(Scaled(ws, 0.0), ts);
    SumIsMonotone(ts, Scaled(ws, c));
    SumScales(ws, 0.0);
    SumScales(ws, c);
    WidthIsBounded(ks);
    Widen(Sum(ws), 2.0 * (ks[|ks| - 1] - ks[0]), c);
  }

  lemma StripIsBetween(d: real, q: real, c: real)
    requires d > 0.0 && 0.0 <= q <= c
    ensures Area(d, 0.0) <= Area(d, q) <= Area(d, c)
    ensures q > 0.0 ==> Area(d, 0.0) < Area(d, q)
  {
    ProductKeepsOrder(d, 0.0, q);
    ProductKeepsOrder(d, q, c);
  }

  lemma Widen(w: real, width: real, c: real)
    requires w <= width && 0.0 <= c
    ensures Area(w, c) <= Area(width, c)
  {
    assert (width - w) * c >= 0.0;
  }

  lemma StrikesIncrease(book: seq<Leg>)
    requires StrictlyAscending(book)
    ensures Increasing(Strikes(book))
  {
  }

  /** 2 (Kmax - Kmin) price / Kmin^2. */
  function UpperBound(ks: seq<real>, price: real): real
    requires ks != [] && ks[0] > 0.0
  {
    Area(2.0 * (ks[|ks| - 1] - ks[0]), PerSquare(price, ks[0]))
  }

  /** With ascending strikes and prices between zero and `price` the contribution lies between zero
      and the upper bound; it is positive when the first price is. */
  lemma ContributionIsBounded(book: seq<Leg>, price: real)
    requires StrictlyAscending(book) && 2 <= |book|
    requires forall i | 0 <= i < |book| :: 0.0 <= book[i].price <= price
    ensures Contribution(book).Some? && 0.0 <= Contribution(book).value <= UpperBound(Strikes(book), price)
    ensures book[0].price > 0.0 ==> Contribution(book).value > 0.0
  {
    TermsAreBounded(book, price);
    assert Contribution(book) == Some(Sum(Terms(book)));
  }

  lemma TermsAreBounded(book: seq<Leg>, price: real)
    requires StrictlyAscending(book) && 2 <= |book|
    requires forall i | 0 <= i < |book| :: 0.0 <= book[i].price <= price
    ensures 0.0 <= Sum(Terms(book)) <= UpperBound(Strikes(book), price)
    ensures book[0].price > 0.0 ==> Sum(Terms(book)) > 0.0
  {
    IntegrandIsBounded(book, price);
    TermsAreStrips(book);
    StrikesIncrease(book);
    StripsAreBounded(Strikes(book), Integrand(book), Terms(book), price);
  }

  lemma StripsAreBounded(ks: seq<real>, qs: seq<real>, ts: seq<real>, price: real)
    requires Increasing(ks) && AreStrips(ks, qs, ts) && ks[0] > 0.0
    requires AllBetween(qs, PerSquare(price, ks[0]))
    ensures 0.0 <= Sum(ts) <= UpperBound(ks, price)
    ensures qs[0] > 0.0 ==> Sum(ts) > 0.0
  {
    SumOfStrips(ks, qs, ts, PerSquare(price, ks[0]));
  }

  lemma IntegrandIsBounded(book: seq<Leg>, price: real)
    requires StrictlyAscending(book) && 2 <= |book|
    requires forall i | 0 <= i < |book| :: 0.0 <= book[i].price <= price
    ensures AllBetween(Integrand(book), PerSquare(price, Strikes(book)[0]))
    ensures book[0].price > 0.0 ==> Integrand(book)[0] > 0.0
  {
    var ks := Strikes(book);
    forall i: nat | i < |book|
      ensures 0.0 <= Integrand(book)[i] <= PerSquare(price, ks[0])
      ensures book[i].price > 0.0 ==> Integrand(book)[i] > 0.0
    {
      assert i > 0 ==> book[0].strike < book[i].strike;
      PerSquareIsBounded(book[i].price, price, ks[0], ks[i]);
    }
  }

  /** The same strikes at prices nowhere lower. */
  predicate NowhereLower(book: seq<Leg>, other: seq<Leg>) {
    |book| == |other| && forall i | 0 <= i < |book| :: book[i].strike == other[i].strike && book[i].price <= other[i].price
  }

  lemma TermIsMonotone(book: seq<Leg>, other: seq<Leg>, i: nat)
    requires StrictlyAscending(book) && NowhereLower(book, other) && 2 <= |book| && i < |book|
    ensures Terms(book)[i] <= Terms(other)[i]
  {
    var ks := Strikes(book);
    assert ks == Strikes(other);
    TermsAreStrips(book);
    TermsAreStrips(other);
    DeltaKIsPositive(ks, i);
    PerSquareIsMonotone(book[i].price, other[i].price, ks[i]);
    ProductKeepsOrder(DeltaK(ks, i), Integrand(book)[i], Integrand(other)[i]);
  }

  /** Raising prices never lowers the contribution. */
  lemma ContributionIsMonotone(book: seq<Leg>, other: seq<Leg>)
    requires StrictlyAscending(book) && NowhereLower(book, other) && 2 <= |book|
    ensures Contribution(book).value <= Contribution(other).value
  {
    forall i: nat | i < |book|
      ensures Terms(book)[i] <= Terms(other)[i]
    {
      TermIsMonotone(book, other, i);
    }
    SumIsMonotone(Terms(book), Terms(other));
  }
}
