/** Running statistics of the payload octets of one direction: a histogram of the first
    octets, and Welford's mean and squared deviations, over the reals. */
module ByteStats {
  import opened Octets

  // ---------------------------------------------------------------- mean and variance

  datatype Moments = Moments(n: nat, mean: real, variance: real)

  const NONE := Moments(0, 0.0, 0.0)

  function Observe(m: Moments, b: byte): (r: Moments) {
    var n := m.n + 1;
    var delta := b as real - m.mean;
    var mean := m.mean + delta / n as real;
    Moments(n, mean, m.variance + delta * (b as real - mean))
  }

  function ObserveAll(m: Moments, bs: seq<byte>): (r: Moments) {
    if bs == [] then m else Observe(ObserveAll(m, bs[..|bs| - 1]), bs[|bs| - 1])
  }

  function Sum(bs: seq<byte>): (r: real) {
    if bs == [] then 0.0 else Sum(bs[..|bs| - 1]) + bs[|bs| - 1] as real
  }

  function Times(x: real, y: real): (r: real) { x * y }

  // The sum of squared distances to a point.
  function Deviation(bs: seq<byte>, c: real): (r: real) { Spread(Times, bs, c) }

  function Spread(mul: (real, real) -> real, bs: seq<byte>, c: real): (r: real) {
    if bs == [] then 0.0
    else
      var d := bs[|bs| - 1] as real - c;
      Spread(mul, bs[..|bs| - 1], c) + mul(d, d)
  }

  // Octets may come in any split into packets.
  lemma {:induction false} ObserveSplits(m: Moments, a: seq<byte>, b: seq<byte>)
    ensures ObserveAll(ObserveAll(m, a), b) == ObserveAll(m, a + b)
    decreases |b|
  {
    if b == [] {
      assert a + b == a;
    } else {
      ObserveSplits(m, a, b[..|b| - 1]);
      assert (a + b)[..|a + b| - 1] == a + b[..|b| - 1];
    }
  }

  // The proofs take multiplication as a value and ask for a product by name, so that only the
  // steps over reals see nonlinear arithmetic.
  ghost predicate Asked(x: real, y: real) { true }

  ghost predicate IsProduct(mul: (real, real) -> real) {
    forall x, y {:trigger Asked(x, y)} :: Asked(x, y) ==> mul(x, y) == x * y
  }

  lemma Product(mul: (real, real) -> real, x: real, y: real)
    requires IsProduct(mul)
    ensures mul(x, y) == x * y
  {
    assert Asked(x, y);
  }

  // Moving the centre of n octets from c to d turns the deviation v into w.
  ghost predicate Moved(mul: (real, real) -> real, n: real, sum: real, c: real, d: real, v: real, w: real) {
    w == v + mul(n, mul(d - c, d - c)) - 2.0 * mul(d - c, sum - mul(n, c))
  }

  lemma MovedIs(mul: (real, real) -> real, n: real, sum: real, c: real, d: real, v: real, w: real)
    requires IsProduct(mul)
    ensures Moved(mul, n, sum, c, d, v, w) <==> w == v + n * ((d - c) * (d - c)) - 2.0 * ((d - c) * (sum - n * c))
  {
    Product(mul, n, mul(d - c, d - c));
    Product(mul, d - c, d - c);
    Product(mul, d - c, sum - mul(n, c));
    Product(mul, n, c);
  }

  // One more octet b.
  lemma MoveStep(n: real, sum: real, b: real, c: real, d: real)
    ensures var e := d - c;
            (n + 1.0) * (e * e) - 2.0 * (e * (sum + b - (n + 1.0) * c))
            == n * (e * e) - 2.0 * (e * (sum - n * c)) + (b - d) * (b - d) - (b - c) * (b - c)
  {
    var e := d - c;
    assert (b - d) * (b - d) == (b - c) * (b - c) - 2.0 * e * (b - c) + e * e;
    assert (n + 1.0) * (e * e) == n * (e * e) + e * e;
    assert e * (sum + b - (n + 1.0) * c) == e * (sum - n * c) + e * (b - c);
  }

  lemma MovedGrows(mul: (real, real) -> real, n: real, sum: real, b: real, c: real, d: real, v: real, w: real)
    requires IsProduct(mul) && Moved(mul, n, sum, c, d, v, w)
    ensures Moved(mul, n + 1.0, sum + b, c, d, v + mul(b - c, b - c), w + mul(b - d, b - d))
  {
    MovedIs(mul, n, sum, c, d, v, w);
    MovedIs(mul, n + 1.0, sum + b, c, d, v + mul(b - c, b - c), w + mul(b - d, b - d));
    Product(mul, b - c, b - c);
    Product(mul, b - d, b - d);
    MoveStep(n, sum, b, c, d);
  }

  lemma {:induction false} SpreadMoves(mul: (real, real) -> real, bs: seq<byte>, c: real, d: real)
    requires IsProduct(mul)
    ensures Moved(mul, |bs| as real, Sum(bs), c, d, Spread(mul, bs, c), Spread(mul, bs, d))
  {
    if bs == [] {
      MovedIs(mul, 0.0, 0.0, c, d, 0.0, 0.0);
    } else {
      var past := bs[..|bs| - 1];
      SpreadMoves(mul, past, c, d);
      MovedGrows(mul, |past| as real, Sum(past), bs[|bs| - 1] as real, c, d, Spread(mul, past, c), Spread(mul, past, d));
      assert |bs| as real == |past| as real + 1.0;
    }
  }

  // The step of the recurrence: m and m' the averages before and after the octet b.
  lemma WelfordStep(n: real, m: real, m': real, b: real)
    requires (n + 1.0) * m' == n * m + b
    ensures var e := m' - m;
            n * (e * e) + (b - m') * (b - m') == (b - m) * (b - m')
  {
    var e := m' - m;
    assert n * e == b - m' by {
      assert n * e == n * m' - n * m;
      assert (n + 1.0) * m' == n * m' + m';
    }
    assert n * (e * e) == n * e * e == (b - m') * e;
    assert (b - m') * e + (b - m') * (b - m') == (b - m') * (b - m);
  }

  // m is the average of the n octets before, v their deviation from it, w the one from m'.
  lemma AverageMoves(mul: (real, real) -> real, n: real, sum: real, m: real, m': real, b: real, v: real, w: real)
    requires IsProduct(mul) && Moved(mul, n, sum, m, m', v, w)
    requires sum == mul(n, m) && mul(n + 1.0, m') == sum + b
    ensures w + mul(b - m', b - m') == v + mul(b - m, b - m')
  {
    MovedIs(mul, n, sum, m, m', v, w);
    Product(mul, n, m);
    Product(mul, n + 1.0, m');
    Product(mul, b - m', b - m');
    Product(mul, b - m, b - m');
    WelfordStep(n, m, m', b);
  }

  lemma MeanStep(n: real, m: real, b: real)
    requires n >= 0.0
    ensures (n + 1.0) * (m + (b - m) / (n + 1.0)) == n * m + b
  {
    var k, q := n + 1.0, (b - m) / (n + 1.0);
    assert k * q == b - m;
    assert k * (m + q) == k * m + k * q;
    assert k * m == n * m + m;
  }

  // One step of the recurrence, in products asked for by name.
  ghost predicate Observed(mul: (real, real) -> real, m: Moments, b: real, r: Moments) {
    && r.n == m.n + 1 && mul(m.n as real + 1.0, r.mean) == mul(m.n as real, m.mean) + b
    && r.variance == m.variance + mul(b - m.mean, b - r.mean)
  }

  lemma ObserveIs(mul: (real, real) -> real, m: Moments, b: byte)
    requires IsProduct(mul)
    ensures Observed(mul, m, b as real, Observe(m, b))
  {
    var r, n := Observe(m, b), m.n as real;
    assert (m.n + 1) as real == n + 1.0;
    MeanStep(n, m.mean, b as real);
    Product(mul, n + 1.0, r.mean);
    Product(mul, n, m.mean);
    Product(mul, b as real - m.mean, b as real - r.mean);
  }

  // The count, the average times the count, and the squared deviations from the average.
  ghost predicate Exact(bs: seq<byte>, m: Moments) {
    m.n == |bs| && Sum(bs) == Times(|bs| as real, m.mean) && m.variance == Deviation(bs, m.mean)
  }

  ghost predicate ExactBy(mul: (real, real) -> real, bs: seq<byte>, m: Moments) {
    m.n == |bs| && Sum(bs) == mul(|bs| as real, m.mean) && m.variance == Spread(mul, bs, m.mean)
  }

  lemma ObservedIsExact(mul: (real, real) -> real, bs: seq<byte>, m: Moments, r: Moments)
    requires IsProduct(mul) && bs != [] && ExactBy(mul, bs[..|bs| - 1], m)
    requires Observed(mul, m, bs[|bs| - 1] as real, r)
    ensures ExactBy(mul, bs, r)
  {
    var past, b := bs[..|bs| - 1], bs[|bs| - 1] as real;
    SpreadMoves(mul, past, m.mean, r.mean);
    AverageMoves(mul, |past| as real, Sum(past), m.mean, r.mean, b, Spread(mul, past, m.mean), Spread(mul, past, r.mean));
    assert |bs| as real == |past| as real + 1.0;
  }

  lemma {:induction false} WelfordBy(mul: (real, real) -> real, bs: seq<byte>)
    requires IsProduct(mul)
    ensures ExactBy(mul, bs, ObserveAll(NONE, bs))
  {
    if bs == [] {
      Product(mul, 0.0, 0.0);
    } else {
      var past := bs[..|bs| - 1];
      WelfordBy(mul, past);
      ObserveIs(mul, ObserveAll(NONE, past), bs[|bs| - 1]);
      ObservedIsExact(mul, bs, ObserveAll(NONE, past), ObserveAll(NONE, bs));
    }
  }

  // The mean is the average and the accumulator the sum of squared deviations from it.
  lemma WelfordIsExact(bs: seq<byte>)
    ensures Exact(bs, ObserveAll(NONE, bs))
  {
    WelfordBy(Times, bs);
  }

  // The mean of both directions, from their counts and means.
  function BothMeans(a: Moments, b: Moments): (mean: real)
    requires a.n + b.n != 0
  {
    a.n as real / (a.n + b.n) as real * a.mean + b.n as real / (b.n + a.n) as real * b.mean
  }

  lemma WeightedMeans(a: Moments, b: Moments, x: real, y: real, n: real)
    requires a.n + b.n != 0 && n == (a.n + b.n) as real
    requires x == a.n as real * a.mean && y == b.n as real * b.mean
    ensures BothMeans(a, b) == (x + y) / n
  {
    Weighted(a.n as real, a.mean, n);
    Weighted(b.n as real, b.mean, n);
    Shares(x, y, n);
  }

  lemma BothMeansIsMean(a: seq<byte>, b: seq<byte>, ma: Moments, mb: Moments)
    requires a + b != [] && Exact(a, ma) && Exact(b, mb)
    ensures BothMeans(ma, mb) == Sum(a + b) / |a + b| as real
  {
    SumAppends(a, b);
    WeightedMeans(ma, mb, Sum(a), Sum(b), |a + b| as real);
  }

  lemma Weighted(k: real, m: real, n: real)
    requires n > 0.0
    ensures k / n * m == k * m / n
  {
    var q := k / n;
    assert q * n == k;
    assert q * m * n == k * m;
  }

  lemma Shares(x: real, y: real, n: real)
    requires n > 0.0
    ensures x / n + y / n == (x + y) / n
  {
  }

  lemma {:induction false} SumAppends(a: seq<byte>, b: seq<byte>)
    ensures Sum(a + b) == Sum(a) + Sum(b)
    decreases |b|
  {
    if b == [] {
      assert a + b == a;
    } else {
      SumAppends(a, b[..|b| - 1]);
      assert (a + b)[..|a + b| - 1] == a + b[..|b| - 1];
    }
  }

  // ---------------------------------------------------------------- histogram

  const ETTA_MIN_OCTETS := 4000

  function Freq(bs: seq<byte>, v: byte): (n: nat) {
    if bs == [] then 0 else Freq(bs[..|bs| - 1], v) + if bs[|bs| - 1] == v then 1 else 0
  }

  lemma {:induction false} FreqAppends(a: seq<byte>, b: seq<byte>, v: byte)
    ensures Freq(a + b, v) == Freq(a, v) + Freq(b, v)
    decreases |b|
  {
    if b == [] {
      assert a + b == a;
    } else {
      FreqAppends(a, b[..|b| - 1], v);
      assert (a + b)[..|a + b| - 1] == a + b[..|b| - 1];
    }
  }

  // The octets still counted when current have gone before.
  function Sampled(payload: seq<byte>, current: U32): (bs: seq<byte>) {
    if current >= ETTA_MIN_OCTETS then []
    else if |payload| <= ETTA_MIN_OCTETS - current then payload
    else payload[..ETTA_MIN_OCTETS - current]
  }

  function Tally(hist: seq<nat>, bs: seq<byte>): (r: seq<nat>)
    requires |hist| == 256
  {
    seq(256, v requires 0 <= v < 256 => hist[v] + Freq(bs, v))
  }

  function Total(hist: seq<nat>): (n: nat) {
    if hist == [] then 0 else Total(hist[..|hist| - 1]) + hist[|hist| - 1]
  }

  lemma {:induction false} TotalUpdates(hist: seq<nat>, i: nat, n: nat)
    requires i < |hist|
    ensures Total(hist[i := n]) + hist[i] == Total(hist) + n
  {
    var last := |hist| - 1;
    if i == last {
      assert hist[i := n][..last] == hist[..last];
    } else {
      TotalUpdates(hist[..last], i, n);
      assert hist[i := n][..last] == hist[..last][i := n];
    }
  }

  // Each octet adds one to its own slot.
  lemma TallyOne(hist: seq<nat>, bs: seq<byte>)
    requires |hist| == 256 && bs != []
    ensures var past, b := bs[..|bs| - 1], bs[|bs| - 1];
            Tally(hist, bs) == Tally(hist, past)[b := Tally(hist, past)[b] + 1]
  {
  }

  lemma {:induction false} TallyTotals(hist: seq<nat>, bs: seq<byte>)
    requires |hist| == 256
    ensures Total(Tally(hist, bs)) == Total(hist) + |bs|
    decreases |bs|
  {
    if bs == [] {
      assert Tally(hist, bs) == hist;
    } else {
      var past := bs[..|bs| - 1];
      TallyTotals(hist, past);
      TallyOne(hist, bs);
      TotalUpdates(Tally(hist, past), bs[|bs| - 1], Tally(hist, past)[bs[|bs| - 1]] + 1);
    }
  }
}
