/** From the rewards of a group of summaries to advantages and training data, over exact
    reals. A reward or log-probability that is None or not finite is None here. */
module Advantages {
  import opened Optional
  import opened Reals
  import opened Seqs

  // ---------------------------------------------------------------- snapping

  /** Python's `round`: to the nearest integer, and to the even one of two. */
  function Round(x: real): int {
    var f := x.Floor;
    var d := x - f as real;
    if d < 0.5 then f else if d > 0.5 then f + 1 else if f % 2 == 0 then f else f + 1
  }

  lemma RoundIsNear(x: real)
    ensures -0.5 <= x - Round(x) as real <= 0.5
  {
  }

  lemma RoundIsMonotone(x: real, y: real)
    requires x <= y
    ensures Round(x) <= Round(y)
  {
    if x.Floor < y.Floor {
      RoundIsNear(x);
    }
  }

  function Snap(r: real, snap: real): real {
    if snap > 0.0 then Round(r / snap) as real * snap else r
  }

  /** Snapping moves a reward by at most half a grid step. */
  lemma SnapIsNear(r: real, snap: real)
    requires snap > 0.0
    ensures r - snap / 2.0 <= Snap(r, snap) <= r + snap / 2.0
  {
    var q := r / snap;
    var m := Round(q) as real;
    RoundIsNear(q);
    var low, high := (q - 0.5) * snap, (q + 0.5) * snap;
    Scale(q - 0.5, m, snap, low, m * snap);
    Scale(m, q + 0.5, snap, m * snap, high);
    assert q * snap == r;
    assert low == r - snap / 2.0;
    assert high == r + snap / 2.0;
  }

  function Abs(x: real): real {
    if x < 0.0 then -x else x
  }

  /** No integer is nearer than the rounded one, and of two that are equally near the even
      one is taken. */
  lemma RoundIsNearest(x: real, m: int)
    ensures Abs(x - Round(x) as real) <= Abs(x - m as real)
    ensures m != Round(x) && Abs(x - m as real) == Abs(x - Round(x) as real) ==> Round(x) % 2 == 0
  {
    var f := x.Floor;
    if m < f {
      assert m as real <= f as real - 1.0;
    } else if m > f + 1 {
      assert m as real >= f as real + 2.0;
    }
  }

  lemma Quotient(x: real, d: real)
    requires d != 0.0
    ensures x / d * d == x
  {
  }

  lemma CompareScaled(a: real, b: real, c: real, ac: real, bc: real)
    requires 0.0 <= a <= b && c > 0.0 && ac == a * c && bc == b * c
    ensures ac <= bc && (ac == bc <==> a == b)
  {
    if a < b {
      ScaleStrictly(b, a, c, bc, ac);
    }
  }

  lemma ScaledDistance(x: real, m: real, snap: real, r: real, grid: real)
    requires snap > 0.0 && r == x * snap && grid == m * snap
    ensures Abs(r - grid) == Abs(x - m) * snap
  {
    assert r - grid == (x - m) * snap;
    if x < m {
      ScaleStrictly(m, x, snap, grid, r);
    } else {
      Scale(m, x, snap, grid, r);
    }
  }

  /** A snapped reward is a multiple of the grid; no multiple is nearer to the reward, of two
      that are equally near the even one is taken, and a multiple stays where it is. Without
      a grid nothing changes. */
  lemma SnapToGrid(r: real, snap: real, m: int) returns (k: int)
    ensures snap <= 0.0 ==> Snap(r, snap) == r
    ensures snap > 0.0 ==> Snap(r, snap) == k as real * snap
    ensures snap > 0.0 ==> Abs(r - Snap(r, snap)) <= Abs(r - m as real * snap)
    ensures snap > 0.0 && m != k && Abs(r - m as real * snap) == Abs(r - Snap(r, snap)) ==> k % 2 == 0
    ensures snap > 0.0 && r == m as real * snap ==> Snap(r, snap) == r
  {
    k := 0;
    if snap > 0.0 {
      var x := r / snap;
      k := Round(x);
      Quotient(r, snap);
      NearestScaled(x, k, m, snap, r, k as real * snap, m as real * snap);
    }
  }

  lemma NearestScaled(x: real, k: int, m: int, snap: real, r: real, mine: real, other: real)
    requires snap > 0.0 && k == Round(x)
    requires r == x * snap && mine == k as real * snap && other == m as real * snap
    ensures Abs(r - mine) <= Abs(r - other)
    ensures m != k && Abs(r - other) == Abs(r - mine) ==> k % 2 == 0
    ensures r == other ==> mine == r
  {
    hide Round, Abs;
    RoundIsNearest(x, m);
    ScaledDistance(x, k as real, snap, r, mine);
    ScaledDistance(x, m as real, snap, r, other);
    Distances(x, k as real, m as real, r, mine, other);
    CompareScaled(Abs(x - k as real), Abs(x - m as real), snap, Abs(r - mine), Abs(r - other));
  }

  lemma Distances(x: real, k: real, m: real, r: real, mine: real, other: real)
    ensures Abs(x - k) >= 0.0 && Abs(x - m) >= 0.0
    ensures Abs(r - mine) == 0.0 <==> mine == r
    ensures Abs(r - mine) >= 0.0
    ensures r == other ==> Abs(r - other) == 0.0
  {
  }

  lemma SnapIsMonotone(r: real, r': real, snap: real)
    requires r <= r'
    ensures Snap(r, snap) <= Snap(r', snap)
  {
    if snap > 0.0 {
      Shrink(r, r', snap);
      RoundIsMonotone(r / snap, r' / snap);
      Scale(Round(r / snap) as real, Round(r' / snap) as real, snap, Snap(r, snap), Snap(r', snap));
    }
  }

  // ---------------------------------------------------------------- advantages of a group

  function Sum(xs: seq<real>): real {
    if xs == [] then 0.0 else xs[0] + Sum(xs[1..])
  }

  function Mean(xs: seq<real>): real
    requires xs != []
  {
    Sum(xs) / |xs| as real
  }

  function Snapped(xs: seq<real>, snap: real): (ys: seq<real>)
    ensures |ys| == |xs|
    ensures forall i :: 0 <= i < |xs| ==> ys[i] == Snap(xs[i], snap)
  {
    seq(|xs|, i requires 0 <= i < |xs| => Snap(xs[i], snap))
  }

  function Shifted(xs: seq<real>, m: real): (ys: seq<real>)
    ensures |ys| == |xs|
    ensures forall i :: 0 <= i < |xs| ==> ys[i] == xs[i] - m
  {
    if xs == [] then [] else [xs[0] - m] + Shifted(xs[1..], m)
  }

  function Divided(xs: seq<real>, d: real): (ys: seq<real>)
    requires d != 0.0
    ensures |ys| == |xs|
    ensures forall i :: 0 <= i < |xs| ==> ys[i] == xs[i] / d
  {
    if xs == [] then [] else [xs[0] / d] + Divided(xs[1..], d)
  }

  function Squares(xs: seq<real>): real {
    if xs == [] then 0.0 else xs[0] * xs[0] + Squares(xs[1..])
  }

  function Greatest(xs: seq<real>): real
    requires xs != []
  {
    if |xs| == 1 then xs[0]
    else
      var g := Greatest(xs[1..]);
      if xs[0] > g then xs[0] else g
  }

  function Least(xs: seq<real>): real
    requires xs != []
  {
    if |xs| == 1 then xs[0]
    else
      var l := Least(xs[1..]);
      if xs[0] < l then xs[0] else l
  }

  lemma {:induction false} ExtremesAre(xs: seq<real>, i: nat)
    requires i < |xs|
    ensures Least(xs) <= xs[i] <= Greatest(xs)
    ensures Least(xs) in xs && Greatest(xs) in xs
  {
    if |xs| > 1 {
      ExtremesAre(xs[1..], if i == 0 then 0 else i - 1);
    }
  }

  datatype Config = Config(rewardSnap: real, minRewardSpread: real, normalize: bool, eps: real)

  function Centred(rewards: seq<real>, c: Config): (a: seq<real>)
    requires rewards != []
    ensures |a| == |rewards|
  {
    var snapped := Snapped(rewards, c.rewardSnap);
    Shifted(snapped, Mean(snapped))
  }

  /** `std` is the square root of the variance of the centred rewards. */
  ghost predicate IsStd(std: real, centred: seq<real>) {
    centred != [] && std >= 0.0 && std * std == Squares(centred) / |centred| as real
  }

  /** What becomes of a group; a ZeroDivisionError ends the training. */
  datatype Outcome = Dropped | Kept(advantages: seq<real>) | DivisionByZero

  predicate EnoughSpread(rewards: seq<real>, c: Config)
    requires rewards != []
  {
    var snapped := Snapped(rewards, c.rewardSnap);
    Greatest(snapped) - Least(snapped) >= c.minRewardSpread
  }

  function GroupAdvantages(rewards: seq<real>, c: Config, std: real): Outcome {
    if |rewards| < 2 || !EnoughSpread(rewards, c) then Dropped
    else if !c.normalize then Kept(Centred(rewards, c))
    else if std + c.eps == 0.0 then DivisionByZero
    else Kept(Divided(Centred(rewards, c), std + c.eps))
  }

  lemma {:induction false} SumShifted(xs: seq<real>, m: real)
    ensures Sum(Shifted(xs, m)) == Sum(xs) - |xs| as real * m
  {
    if xs != [] {
      SumShifted(xs[1..], m);
      assert Shifted(xs, m)[1..] == Shifted(xs[1..], m);
      assert |xs| as real * m == m + |xs[1..]| as real * m;
    }
  }

  lemma {:induction false} SumDivided(xs: seq<real>, d: real)
    requires d != 0.0
    ensures Sum(Divided(xs, d)) == Sum(xs) / d
  {
    if xs != [] {
      SumDivided(xs[1..], d);
      assert Divided(xs, d)[1..] == Divided(xs[1..], d);
      DivideParts(xs[0], Sum(xs[1..]), d);
    }
  }

  /** Dividing all by `d` divides the sum of squares by its square `dd`. */
  lemma {:induction false} SquaresDivided(xs: seq<real>, d: real, dd: real)
    requires d != 0.0 && dd == d * d
    ensures Squares(Divided(xs, d)) * dd == Squares(xs)
  {
    if xs != [] {
      var y, rest := xs[0] / d, Divided(xs[1..], d);
      SquaresDivided(xs[1..], d, dd);
      SquaresCons(y, rest, Squares(Divided(xs, d)));
      AddSquare(xs[0], y, d, dd, Squares(xs[1..]), Squares(rest), Squares(xs), Squares(Divided(xs, d)));
    }
  }

  lemma SquaresCons(y: real, rest: seq<real>, squares: real)
    requires squares == Squares([y] + rest)
    ensures squares == y * y + Squares(rest)
  {
    ConsRest(y, rest);
  }

  lemma AddSquare(x: real, y: real, d: real, dd: real, sx: real, sy: real, tx: real, ty: real)
    requires d != 0.0 && y == x / d && dd == d * d && sy * dd == sx
    requires tx == x * x + sx && ty == y * y + sy
    ensures ty * dd == tx
  {
    var yy := y * y;
    SquareQuotient(x, y, d, dd, yy);
    Distribute(yy, sy, dd);
  }

  lemma SquareQuotient(x: real, y: real, d: real, dd: real, yy: real)
    requires x == y * d && dd == d * d && yy == y * y
    ensures yy * dd == x * x
  {
    assert x * x == x * (y * d);
    assert x * (y * d) == (x * d) * y;
    assert x * d == y * (d * d);
  }

  /** The advantages of a group that is kept sum to zero. */
  lemma AdvantagesSumToZero(rewards: seq<real>, c: Config, std: real)
    requires GroupAdvantages(rewards, c, std).Kept?
    ensures Sum(GroupAdvantages(rewards, c, std).advantages) == 0.0
  {
    var snapped := Snapped(rewards, c.rewardSnap);
    SumShifted(snapped, Mean(snapped));
    assert |snapped| as real * (Sum(snapped) / |snapped| as real) == Sum(snapped);
    if c.normalize {
      SumDivided(Centred(rewards, c), std + c.eps);
    }
  }

  /** A group is dropped exactly when it has fewer than two rewards, or all its snapped
      rewards are closer to each other than the required spread. */
  lemma DroppedForSpread(rewards: seq<real>, c: Config, std: real)
    ensures GroupAdvantages(rewards, c, std).Dropped?
       <==> |rewards| < 2 || forall i, j :: 0 <= i < |rewards| && 0 <= j < |rewards| ==>
              Snap(rewards[i], c.rewardSnap) - Snap(rewards[j], c.rewardSnap) < c.minRewardSpread
  {
    if |rewards| >= 2 {
      var snapped := Snapped(rewards, c.rewardSnap);
      forall i | 0 <= i < |snapped| ensures Least(snapped) <= snapped[i] <= Greatest(snapped) {
        ExtremesAre(snapped, i);
      }
      ExtremesAre(snapped, 0);
    }
  }

  /** What a reward of a kept group is worth: its snapped distance from the mean of the
      snapped rewards, divided where the rewards are normalized. */
  lemma AdvantageIs(rewards: seq<real>, c: Config, std: real, i: nat)
    requires GroupAdvantages(rewards, c, std).Kept? && i < |rewards|
    ensures var a := GroupAdvantages(rewards, c, std).advantages; var snapped := Snapped(rewards, c.rewardSnap);
      && |a| == |rewards|
      && a[i] * (if c.normalize then std + c.eps else 1.0)
         == Snap(rewards[i], c.rewardSnap) - Sum(snapped) / |rewards| as real
  {
    if c.normalize {
      Quotient(Centred(rewards, c)[i], std + c.eps);
    }
  }

  lemma CentredKeepOrder(rewards: seq<real>, c: Config, i: nat, j: nat)
    requires i < |rewards| && j < |rewards| && rewards[i] <= rewards[j]
    ensures Centred(rewards, c)[i] <= Centred(rewards, c)[j]
  {
    SnapIsMonotone(rewards[i], rewards[j], c.rewardSnap);
  }

  lemma DividedKeepOrder(xs: seq<real>, d: real, i: nat, j: nat)
    requires d > 0.0 && i < |xs| && j < |xs| && xs[i] <= xs[j]
    ensures Divided(xs, d)[i] <= Divided(xs, d)[j]
  {
    Shrink(xs[i], xs[j], d);
  }

  /** A reward that is not lower never gets a lower advantage. */
  lemma AdvantagesKeepOrder(rewards: seq<real>, c: Config, std: real, i: nat, j: nat)
    requires c.normalize ==> std + c.eps > 0.0
    requires GroupAdvantages(rewards, c, std).Kept?
    requires i < |rewards| && j < |rewards| && rewards[i] <= rewards[j]
    ensures var a := GroupAdvantages(rewards, c, std).advantages;
      |a| == |rewards| && a[i] <= a[j]
  {
    CentredKeepOrder(rewards, c, i, j);
    if c.normalize {
      DividedKeepOrder(Centred(rewards, c), std + c.eps, i, j);
    }
  }

  /** Normalized advantages have a sum of squares of at most the size of the group. */
  lemma NormalizedIsBounded(rewards: seq<real>, c: Config, std: real)
    requires c.eps >= 0.0 && c.normalize
    requires rewards != [] && IsStd(std, Centred(rewards, c))
    requires GroupAdvantages(rewards, c, std).Kept?
    ensures Squares(GroupAdvantages(rewards, c, std).advantages) <= |rewards| as real
  {
    var centred := Centred(rewards, c);
    DividedIsBounded(centred, std, std + c.eps);
  }

  /** The sum of squares of normalized advantages exactly: as many times the variance as
      there are rewards, over the square of the divisor; without epsilon that is the size of
      the group. */
  lemma NormalizedSquares(rewards: seq<real>, c: Config, std: real)
    requires c.normalize && rewards != [] && IsStd(std, Centred(rewards, c))
    requires GroupAdvantages(rewards, c, std).Kept?
    ensures var d := std + c.eps;
      Squares(GroupAdvantages(rewards, c, std).advantages) * (d * d) == |rewards| as real * (std * std)
    ensures c.eps == 0.0 ==> Squares(GroupAdvantages(rewards, c, std).advantages) == |rewards| as real
  {
    hide Squares, Divided, Centred, IsStd, EnoughSpread;
    DividedSquares(Centred(rewards, c), std, std + c.eps);
  }

  lemma DividedSquares(centred: seq<real>, std: real, d: real)
    requires IsStd(std, centred) && d != 0.0
    ensures Squares(Divided(centred, d)) * (d * d) == |centred| as real * (std * std)
    ensures d == std ==> Squares(Divided(centred, d)) == |centred| as real
  {
    hide Squares, Divided;
    var dd, vv, n := d * d, std * std, |centred| as real;
    SquaresDivided(centred, d, dd);
    Quotient(Squares(centred), n);
    if d == std {
      SameFactor(Squares(Divided(centred, d)), n, d, dd, Squares(centred));
    }
  }

  lemma SameFactor(a: real, b: real, d: real, dd: real, product: real)
    requires d != 0.0 && dd == d * d && a * dd == product && b * dd == product
    ensures a == b
  {
    SquareOf(d, dd);
    if a < b {
      ScaleStrictly(b, a, dd, product, product);
    } else if a > b {
      ScaleStrictly(a, b, dd, product, product);
    }
  }

  lemma DividedIsBounded(centred: seq<real>, std: real, d: real)
    requires IsStd(std, centred) && d >= std && d != 0.0
    ensures Squares(Divided(centred, d)) <= |centred| as real
  {
    var dd, vv := d * d, std * std;
    SquaresDivided(centred, d, dd);
    ShareOfSquares(Squares(Divided(centred, d)), std, d, dd, |centred| as real, vv, Squares(centred));
  }

  lemma ShareOfSquares(s: real, std: real, d: real, dd: real, n: real, vv: real, squares: real)
    requires s * dd == squares && n > 0.0 && vv == squares / n
    requires 0.0 <= std <= d && d > 0.0 && dd == d * d && vv == std * std
    ensures s <= n
  {
    var sd := std * d;
    assert squares == vv * n;
    Scale(std, d, std, vv, sd);
    Scale(std, d, d, sd, dd);
    ScaleStrictly(d, 0.0, d, dd, 0.0);
    Scale(vv, dd, n, squares, dd * n);
    if s > n {
      ScaleStrictly(s, n, dd, squares, dd * n);
    }
  }

  lemma {:induction false} SquaresNotNegative(xs: seq<real>)
    ensures Squares(xs) >= 0.0
    ensures Squares(xs) == 0.0 <==> forall i :: 0 <= i < |xs| ==> xs[i] == 0.0
  {
    if xs != [] {
      SquaresNotNegative(xs[1..]);
      SquareOf(xs[0], xs[0] * xs[0]);
    }
  }

  lemma SquareOf(x: real, xx: real)
    requires xx == x * x
    ensures xx >= 0.0 && (xx == 0.0 <==> x == 0.0)
  {
    if x > 0.0 {
      ScaleStrictly(x, 0.0, x, xx, 0.0);
    } else if x < 0.0 {
      assert -x * -x == xx;
      ScaleStrictly(-x, 0.0, -x, xx, 0.0);
    }
  }

  /** The mean of equal numbers is that number. */
  lemma {:induction false} SumOfEqual(xs: seq<real>, x: real)
    requires forall i :: 0 <= i < |xs| ==> xs[i] == x
    ensures Sum(xs) == |xs| as real * x
  {
    if xs != [] {
      SumOfEqual(xs[1..], x);
      assert |xs| as real * x == x + |xs[1..]| as real * x;
    }
  }

  lemma NoDeviation(rewards: seq<real>, c: Config, std: real)
    requires rewards != [] && IsStd(std, Centred(rewards, c))
    ensures std == 0.0 <==> AllTied(rewards, c)
  {
    var centred := Centred(rewards, c);
    SquaresNotNegative(centred);
    SquareOf(std, std * std);
    QuotientIsZero(Squares(centred), |centred| as real);
    TiedCentred(rewards, c);
  }

  lemma QuotientIsZero(x: real, n: real)
    requires n > 0.0
    ensures x / n == 0.0 <==> x == 0.0
  {
    assert x / n * n == x;
  }

  lemma TiedCentred(rewards: seq<real>, c: Config)
    requires rewards != []
    ensures AllTied(rewards, c) <==> forall i :: 0 <= i < |rewards| ==> Centred(rewards, c)[i] == 0.0
  {
    var snapped := Snapped(rewards, c.rewardSnap);
    if AllTied(rewards, c) {
      MeanOfEqual(snapped, snapped[0]);
    } else {
      var i, j :| 0 <= i < |rewards| && 0 <= j < |rewards| && snapped[i] != snapped[j];
      assert Centred(rewards, c)[i] - Centred(rewards, c)[j] == snapped[i] - snapped[j];
    }
  }

  lemma MeanOfEqual(xs: seq<real>, x: real)
    requires xs != [] && forall i :: 0 <= i < |xs| ==> xs[i] == x
    ensures Mean(xs) == x
  {
    SumOfEqual(xs, x);
    var n := |xs| as real;
    assert n * x / n == x;
  }

  /** All rewards of the group snap to the same value. */
  predicate AllTied(rewards: seq<real>, c: Config) {
    forall i, j :: 0 <= i < |rewards| && 0 <= j < |rewards| ==>
      Snap(rewards[i], c.rewardSnap) == Snap(rewards[j], c.rewardSnap)
  }

  lemma TiedSpread(rewards: seq<real>, c: Config)
    requires rewards != [] && AllTied(rewards, c)
    ensures EnoughSpread(rewards, c) <==> c.minRewardSpread <= 0.0
  {
    var snapped := Snapped(rewards, c.rewardSnap);
    ExtremesAre(snapped, 0);
  }

  /** The division fails exactly when the rewards are normalized with no epsilon, all are
      tied, and no spread is required of them. */
  lemma DividesByZero(rewards: seq<real>, c: Config, std: real)
    requires c.eps >= 0.0 && rewards != [] && IsStd(std, Centred(rewards, c))
    ensures GroupAdvantages(rewards, c, std).DivisionByZero?
       <==> |rewards| >= 2 && c.normalize && c.eps == 0.0 && c.minRewardSpread <= 0.0 && AllTied(rewards, c)
  {
    NoDeviation(rewards, c, std);
    if AllTied(rewards, c) {
      TiedSpread(rewards, c);
    }
  }

  /** Two equal rewards, normalized with epsilon 0, and no spread required: the standard
      deviation is 0 and the division fails. */
  lemma EqualRewardsFail(x: real)
    ensures var c := Config(0.0, 0.0, true, 0.0);
      && IsStd(0.0, Centred([x, x], c))
      && GroupAdvantages([x, x], c, 0.0) == DivisionByZero
  {
    var c := Config(0.0, 0.0, true, 0.0);
    TiedCentred([x, x], c);
    SquaresNotNegative(Centred([x, x], c));
    DividesByZero([x, x], c, 0.0);
  }

  // ---------------------------------------------------------------- training data

  datatype Sample = Sample(reward: Option<real>, tokens: seq<int>, logprobs: seq<Option<real>>)

  datatype Datum = Datum(modelInput: seq<int>, targets: seq<int>, logprobs: seq<real>, advantages: seq<real>)

  /** Python's `[x] * n`, empty for a negative `n`. */
  function Repeat<T>(x: T, n: int): (s: seq<T>)
    ensures |s| == if n > 0 then n else 0
    ensures forall i :: 0 <= i < |s| ==> s[i] == x
  {
    if n <= 0 then [] else [x] + Repeat(x, n - 1)
  }

  predicate AllFinite(xs: seq<Option<real>>) {
    forall x :: x in xs ==> x.Some?
  }

  function Values(xs: seq<Option<real>>): (ys: seq<real>)
    requires AllFinite(xs)
    ensures |ys| == |xs|
    ensures forall i :: 0 <= i < |xs| ==> ys[i] == xs[i].value
  {
    seq(|xs|, i requires 0 <= i < |xs| => assert xs[i] in xs; xs[i].value)
  }

  function ToDatum(prompt: seq<int>, s: Sample, advantage: real): Datum
    requires AllFinite(s.logprobs)
  {
    var obLen := |prompt| - 1;
    var modelInput := prompt + if s.tokens == [] then [] else s.tokens[..|s.tokens| - 1];
    Datum(modelInput, Repeat(0, obLen) + s.tokens, Repeat(0.0, obLen) + Values(s.logprobs),
          Repeat(0.0, obLen) + Repeat(advantage, |modelInput| - obLen))
  }

  /** For a prompt that is not empty, all vectors of a datum have the length of prompt and
      sample less one exactly when something was sampled; then each target is the token
      after the one that is input at its place, with its own log-probability and the
      group's advantage, and nothing else is trained on. */
  lemma DatumIsAligned(prompt: seq<int>, s: Sample, advantage: real)
    requires prompt != [] && AllFinite(s.logprobs) && |s.logprobs| == |s.tokens|
    ensures var d := ToDatum(prompt, s, advantage); var len := |prompt| + |s.tokens| - 1;
      && (|d.modelInput| == |d.targets| == |d.logprobs| == |d.advantages| == len <==> s.tokens != [])
      && (s.tokens != [] ==>
           && d.modelInput == (prompt + s.tokens)[..len]
           && (forall j :: |prompt| - 1 <= j < len ==>
                && d.targets[j] == (prompt + s.tokens)[j + 1]
                && d.logprobs[j] == s.logprobs[j - (|prompt| - 1)].value
                && d.advantages[j] == advantage)
           && (forall j :: 0 <= j < |prompt| - 1 ==>
                d.targets[j] == 0 && d.logprobs[j] == 0.0 && d.advantages[j] == 0.0))
  {
  }

  function KeptSamples(group: seq<Sample>): (kept: seq<Sample>)
    ensures forall s :: s in kept ==> s in group && s.reward.Some?
  {
    if group == [] then []
    else (if group[0].reward.Some? then [group[0]] else []) + KeptSamples(group[1..])
  }

  function Rewards(kept: seq<Sample>): (rewards: seq<real>)
    requires forall s :: s in kept ==> s.reward.Some?
    ensures |rewards| == |kept|
    ensures forall i :: 0 <= i < |kept| ==> rewards[i] == kept[i].reward.value
  {
    seq(|kept|, i requires 0 <= i < |kept| => assert kept[i] in kept; kept[i].reward.value)
  }

  /** The data of the samples paired with their advantages, without those that have a
      log-probability that is not finite. */
  function ToData(prompt: seq<int>, kept: seq<Sample>, advantages: seq<real>): seq<Datum>
    requires |kept| == |advantages|
  {
    if kept == [] then []
    else
      (if AllFinite(kept[0].logprobs) then [ToDatum(prompt, kept[0], advantages[0])] else [])
      + ToData(prompt, kept[1..], advantages[1..])
  }

  /** Every sample with a reward is kept, and no other, in order. */
  lemma {:induction false} KeptConcat(a: seq<Sample>, b: seq<Sample>)
    ensures KeptSamples(a + b) == KeptSamples(a) + KeptSamples(b)
    ensures |a| == 1 ==> KeptSamples(a) == if a[0].reward.Some? then a else []
  {
    if a == [] {
      Whole(b);
      Whole(KeptSamples(b));
    } else {
      hide KeptSamples;
      var first := if a[0].reward.Some? then [a[0]] else [];
      KeptConcat(a[1..], b);
      Assoc([a[0]], a[1..], b);
      assert [a[0]] + a[1..] == a;
      KeptCons(a[0], a[1..]);
      KeptCons(a[0], a[1..] + b);
      Assoc(first, KeptSamples(a[1..]), KeptSamples(b));
      KeptNone();
    }
  }

  lemma KeptNone()
    ensures KeptSamples([]) == []
  {
  }

  lemma KeptCons(s: Sample, rest: seq<Sample>)
    ensures KeptSamples([s] + rest) == (if s.reward.Some? then [s] else []) + KeptSamples(rest)
  {
    ConsRest(s, rest);
  }

  lemma KeptNext(group: seq<Sample>, i: nat)
    requires i < |group|
    ensures var rest := KeptSamples(group[i + 1..]);
      KeptSamples(group[i..]) == if group[i].reward.Some? then [group[i]] + rest else rest
  {
    RestOfRest(group, i, 1);
    Whole(KeptSamples(group[i + 1..]));
  }

  /** Dropping the samples whose reward failed. */
  method KeepScored(group: seq<Sample>) returns (kept: seq<Sample>)
    ensures kept == KeptSamples(group)
  {
    kept := [];
    var i := 0;
    while i < |group|
      invariant 0 <= i <= |group|
      invariant kept + KeptSamples(group[i..]) == KeptSamples(group)
    {
      KeptNext(group, i);
      Assoc(kept, [group[i]], KeptSamples(group[i + 1..]));
      if group[i].reward.Some? {
        kept := kept + [group[i]];
      }
      i := i + 1;
    }
    Whole(kept);
  }

  /** Each sample gives its datum with its own advantage, or none if a log-probability of it
      is not finite, in order. */
  lemma {:induction false} DataConcat(prompt: seq<int>, a: seq<Sample>, x: seq<real>, b: seq<Sample>, y: seq<real>)
    requires |a| == |x| && |b| == |y|
    ensures ToData(prompt, a + b, x + y) == ToData(prompt, a, x) + ToData(prompt, b, y)
    ensures |a| == 1 ==>
      ToData(prompt, a, x) == (if forall p :: p in a[0].logprobs ==> p.Some? then [ToDatum(prompt, a[0], x[0])] else [])
  {
    if a == [] {
      Whole(b);
      Whole(y);
      Whole(ToData(prompt, b, y));
    } else {
      DataConcat(prompt, a[1..], x[1..], b, y);
      assert (a + b)[1..] == a[1..] + b && (x + y)[1..] == x[1..] + y;
      var first := if AllFinite(a[0].logprobs) then [ToDatum(prompt, a[0], x[0])] else [];
      Assoc(first, ToData(prompt, a[1..], x[1..]), ToData(prompt, b, y));
    }
  }

  lemma DataNext(prompt: seq<int>, kept: seq<Sample>, advantages: seq<real>, k: nat)
    requires k < |kept| == |advantages|
    ensures var later := ToData(prompt, kept[k + 1..], advantages[k + 1..]);
      ToData(prompt, kept[k..], advantages[k..])
      == if AllFinite(kept[k].logprobs) then [ToDatum(prompt, kept[k], advantages[k])] + later else later
  {
    RestOfRest(kept, k, 1);
    RestOfRest(advantages, k, 1);
    Whole(ToData(prompt, kept[k + 1..], advantages[k + 1..]));
  }

  /** The loop over the samples of a group that is kept. */
  method BuildData(prompt: seq<int>, kept: seq<Sample>, advantages: seq<real>) returns (datums: seq<Datum>)
    requires |kept| == |advantages|
    ensures datums == ToData(prompt, kept, advantages)
  {
    datums := [];
    var k := 0;
    while k < |kept|
      invariant 0 <= k <= |kept|
      invariant datums + ToData(prompt, kept[k..], advantages[k..]) == ToData(prompt, kept, advantages)
    {
      DataNext(prompt, kept, advantages, k);
      if AllFinite(kept[k].logprobs) {
        var datum := ToDatum(prompt, kept[k], advantages[k]);
        Assoc(datums, [datum], ToData(prompt, kept[k + 1..], advantages[k + 1..]));
        datums := datums + [datum];
      }
      k := k + 1;
    }
    Whole(datums);
  }

  /** The body of the loop over the groups: what it adds to the mean rewards and to the
      training data, and whether the division raised. */
  method AssembleGroup(prompt: seq<int>, group: seq<Sample>, c: Config, std: real)
    returns (means: seq<real>, datums: seq<Datum>, raised: bool)
    requires |KeptSamples(group)| >= 2 ==> IsStd(std, Centred(Rewards(KeptSamples(group)), c))
    ensures var kept := KeptSamples(group);
      var outcome := GroupAdvantages(Rewards(kept), c, std);
      && means == (if |kept| < 2 then [] else [Mean(Rewards(kept))])
      && (raised <==> outcome.DivisionByZero?)
      && datums == if outcome.Kept? then ToData(prompt, kept, outcome.advantages) else []
  {
    var kept := KeepScored(group);
    if |kept| < 2 {
      return [], [], false;
    }
    var rewards := Rewards(kept);
    means := [Mean(rewards)];
    match GroupAdvantages(rewards, c, std) {
      case Dropped => return means, [], false;
      case DivisionByZero => return means, [], true;
      case Kept(advantages) =>
        datums := BuildData(prompt, kept, advantages);
        raised := false;
    }
  }
}
