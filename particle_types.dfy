/** The particle-type table: one colour per type and three `n*n` matrices
    (attraction, minimum range, maximum range) stored row-major, plus the
    largest maximum range. Random draws are inputs: `RandomDraws` names the
    value each call of the random generator returns. */
module ParticleTypes {
  import opened Common

  /** Unity's Color; `new Color(r, g, b)` has alpha 1. */
  datatype Color = Color(r: real, g: real, b: real, a: real)

  /** The C# cast `(int)x` of a float: truncation toward zero. */
  function Trunc(x: real): (r: int)
    ensures 0.0 <= x ==> r as real <= x < r as real + 1.0
    ensures x < 0.0 ==> r as real - 1.0 < x <= r as real
  {
    if 0.0 <= x then x.Floor else -((-x).Floor)
  }

  /** The C# remainder `a % b` for `b > 0`: it takes the sign of `a`. */
  function CRem(a: int, b: int): (r: int)
    requires 0 < b
    ensures 0 <= a ==> 0 <= r < b
    ensures a < 0 ==> -b < r <= 0
  {
    if 0 <= a then a % b else -((-a) % b)
  }

  /** The sector of hue `h`: `(int)(h * 6) % 6`. */
  function Sector(h: real): int {
    CRem(Trunc(h * 6.0), 6)
  }

  /** HSV to RGB, sector by sector. A negative sector (negative hue) matches
      no case and leaves the colour black. */
  function FromHSV(h: real, s: real, v: real): Color {
    var i := Trunc(h * 6.0);
    var f := h * 6.0 - i as real;
    SectorColor(CRem(i, 6), v, v * (1.0 - s), v * (1.0 - f * s), v * (1.0 - (1.0 - f) * s))
  }

  /** The colour of one sector from the value `v` and the shades `p`, `q`
      and `t` of the conversion. */
  function SectorColor(sector: int, v: real, p: real, q: real, t: real): Color {
    if sector == 0 then Color(v, t, p, 1.0)
    else if sector == 1 then Color(q, v, p, 1.0)
    else if sector == 2 then Color(p, v, t, 1.0)
    else if sector == 3 then Color(p, q, v, 1.0)
    else if sector == 4 then Color(t, p, v, 1.0)
    else if sector == 5 then Color(v, p, q, 1.0)
    else Color(0.0, 0.0, 0.0, 1.0)
  }

  /** In every sector the channels are `v`, `p` and one shade between them. */
  lemma SectorChannels(sector: int, v: real, p: real, q: real, t: real)
    requires 0 <= sector < 6 && p <= q <= v && p <= t <= v
    ensures var c := SectorColor(sector, v, p, q, t);
      && p <= c.r <= v && p <= c.g <= v && p <= c.b <= v
      && (c.r == v || c.g == v || c.b == v)
      && (c.r == p || c.g == p || c.b == p)
      && c.a == 1.0
  {
  }

  /** `v * (1 - y)` lies between `v * (1 - s)` and `v` when `0 <= y <= s <= 1`. */
  lemma ShadeBetween(v: real, y: real, s: real)
    requires 0.0 <= v && 0.0 <= y <= s <= 1.0
    ensures v * (1.0 - s) <= v * (1.0 - y) <= v
  {
    assert v * (1.0 - y) == v - v * y;
    assert v * (1.0 - s) == v - v * s;
    assert v * y <= v * s;
    assert 0.0 <= v * y;
  }

  lemma ProductBelow(f: real, s: real)
    requires 0.0 <= f <= 1.0 && 0.0 <= s
    ensures 0.0 <= f * s <= s
  {
  }

  /** The shades `q` and `t` of a conversion lie between `p` and `v`. */
  lemma ShadesBetween(v: real, s: real, f: real) returns (p: real, q: real, t: real)
    requires 0.0 <= v && 0.0 <= s <= 1.0 && 0.0 <= f < 1.0
    ensures p == v * (1.0 - s) && q == v * (1.0 - f * s) && t == v * (1.0 - (1.0 - f) * s)
    ensures p <= q <= v && p <= t <= v
  {
    p, q, t := v * (1.0 - s), v * (1.0 - f * s), v * (1.0 - (1.0 - f) * s);
    ProductBelow(f, s);
    ProductBelow(1.0 - f, s);
    ShadeBetween(v, f * s, s);
    ShadeBetween(v, (1.0 - f) * s, s);
  }

  /** The colour of a sector, for a fraction `f` of the sector in [0, 1),
      has its channels between `v * (1 - s)` and `v`, both attained. */
  lemma ConversionChannels(sector: int, f: real, s: real, v: real)
    requires 0 <= sector < 6 && 0.0 <= f < 1.0 && 0.0 <= s <= 1.0 && 0.0 <= v
    ensures var c := SectorColor(sector, v, v * (1.0 - s), v * (1.0 - f * s), v * (1.0 - (1.0 - f) * s));
      var lo := v * (1.0 - s);
      && lo <= c.r <= v && lo <= c.g <= v && lo <= c.b <= v
      && (c.r == v || c.g == v || c.b == v)
      && (c.r == lo || c.g == lo || c.b == lo)
      && c.a == 1.0
  {
    var p, q, t := ShadesBetween(v, s, f);
    SectorChannels(sector, v, p, q, t);
  }

  /** For a non-negative hue, a saturation in [0, 1] and a non-negative
      value, every channel lies between `v * (1 - s)` and `v`, one channel is
      exactly `v` and one is exactly `v * (1 - s)`. */
  lemma {:induction false} FromHSVChannels(h: real, s: real, v: real)
    requires 0.0 <= h && 0.0 <= s <= 1.0 && 0.0 <= v
    ensures var c := FromHSV(h, s, v);
      var lo := v * (1.0 - s);
      && lo <= c.r <= v && lo <= c.g <= v && lo <= c.b <= v
      && (c.r == v || c.g == v || c.b == v)
      && (c.r == lo || c.g == lo || c.b == lo)
      && c.a == 1.0
  {
    var i := Trunc(h * 6.0);
    var f := h * 6.0 - i as real;
    assert 0.0 <= f < 1.0 && 0 <= CRem(i, 6) < 6;
    assert FromHSV(h, s, v) == SectorColor(CRem(i, 6), v, v * (1.0 - s), v * (1.0 - f * s), v * (1.0 - (1.0 - f) * s));
    ConversionChannels(CRem(i, 6), f, s, v);
  }

  /** With zero saturation every hue gives the same grey of value `v`. */
  lemma FromHSVGrey(h: real, v: real)
    requires 0.0 <= h
    ensures FromHSV(h, 0.0, v) == Color(v, v, v, 1.0)
  {
    assert 0 <= CRem(Trunc(h * 6.0), 6) < 6;
  }

  /** For a hue in [0, 1) the sector is the sixth of the circle the hue lies in. */
  lemma SectorOfHue(h: real, j: int)
    requires 0 <= j < 6
    requires j as real / 6.0 <= h < (j + 1) as real / 6.0
    ensures Sector(h) == j
  {
    assert j as real <= h * 6.0 < (j + 1) as real;
    assert Trunc(h * 6.0) == j;
  }

  /** The colour of type `i` of `num`: hue `i / num`, full saturation, value
      0.5 for even and 1 for odd types. */
  function TypeColor(i: int, num: int): Color
    requires 0 < num
  {
    FromHSV(i as real / num as real, 1.0, CRem(i, 2) as real * 0.5 + 0.5)
  }

  /** Each type's colour is fully saturated: one channel is zero, one is the
      type's value (0.5 or 1, alternating), and none exceeds it. */
  lemma TypeColorSaturated(i: int, num: int)
    requires 0 <= i < num
    ensures var c := TypeColor(i, num);
      var v := if i % 2 == 0 then 0.5 else 1.0;
      && 0.0 <= c.r <= v && 0.0 <= c.g <= v && 0.0 <= c.b <= v
      && (c.r == v || c.g == v || c.b == v)
      && (c.r == 0.0 || c.g == 0.0 || c.b == 0.0)
  {
    var v := CRem(i, 2) as real * 0.5 + 0.5;
    assert v == if i % 2 == 0 then 0.5 else 1.0;
    assert 0.0 <= i as real / num as real;
    FromHSVChannels(i as real / num as real, 1.0, v);
  }

  // ---------------------------------------------------------------------
  // Matrix indexing

  /** The largest type count whose square fits a C# `int`. */
  const MaxTypes: int := 46340

  /** Row-major index of entry `(a, b)` of an `n*n` matrix, `a*n + b`,
      written as `a` steps of `n` so that proofs about it stay linear. */
  function Idx(n: int, a: nat, b: int): int {
    if a == 0 then b else Idx(n, a - 1, b) + n
  }

  lemma {:induction false} IdxIsProduct(n: int, a: nat, b: int)
    ensures Idx(n, a, b) == a * n + b
  {
    if a != 0 {
      IdxIsProduct(n, a - 1, b);
    }
  }

  /** Entry `(a, b)` lies `b` places after the start of row `a`. */
  lemma {:induction false} IdxShift(n: int, a: nat, b: int)
    ensures Idx(n, a, b) == Idx(n, a, 0) + b
  {
    if a != 0 {
      IdxShift(n, a - 1, b);
    }
  }

  /** Later rows start later. */
  lemma {:induction false} RowStartMonotone(n: nat, a: nat, c: nat)
    requires a <= c
    ensures Idx(n, a, 0) <= Idx(n, c, 0)
  {
    if a < c {
      RowStartMonotone(n, a, c - 1);
    }
  }

  lemma IdxBounds(n: int, a: nat, b: int)
    requires a < n && 0 <= b < n
    ensures 0 <= Idx(n, a, b) < n * n
  {
    IdxShift(n, a, b);
    RowStartMonotone(n, 0, a);
    RowStartMonotone(n, a + 1, n);
    assert Idx(n, a + 1, 0) == Idx(n, a, 0) + n;
    IdxIsProduct(n, n, 0);
  }

  /** Every index of an `n*n` matrix is in bounds. */
  lemma AllIdxBounds(n: int)
    ensures forall a: nat, b {:trigger Idx(n, a, b)} :: a < n && 0 <= b < n ==> 0 <= Idx(n, a, b) < n * n
  {
    forall a: nat, b | a < n && 0 <= b < n
      ensures 0 <= Idx(n, a, b) < n * n
    {
      IdxBounds(n, a, b);
    }
  }

  /** Distinct entries have distinct indices. */
  lemma {:induction false} IdxInjective(n: int, a: nat, b: int, c: nat, d: int)
    requires a < n && 0 <= b < n && c < n && 0 <= d < n
    requires Idx(n, a, b) == Idx(n, c, d)
    ensures a == c && b == d
  {
    if a != 0 && c != 0 {
      IdxInjective(n, a - 1, b, c - 1, d);
    } else if a != 0 {
      IdxBounds(n, a - 1, b);
    } else if c != 0 {
      IdxBounds(n, c - 1, d);
    }
  }

  // ---------------------------------------------------------------------
  // Random types

  /** The values the random generator returns during one call of
      SetRandomTypes: `gaussian(i, k, 0)` is the draw for entry `(i, k)` and
      `gaussian(i, k, 1)` the one for its mirror `(k, i)` at visit `(i, k)`;
      `uniform(i, k, 0)` is the draw in [rangeMinLower, rangeMinUpper] and
      `uniform(i, k, 1)` the one in [rangeMaxLower, rangeMaxUpper]. */
  datatype RandomDraws = RandomDraws(gaussian: (int, int, int) -> real, uniform: (int, int, int) -> real)

  function Attraction(s: Settings, draws: RandomDraws, i: int, k: int, slot: int): real {
    draws.gaussian(i, k, slot) * s.attractStd + s.attractMean
  }

  /** The minimum range visit `(i, k)` writes: twice the radius on the
      diagonal, else a draw but never below twice the radius. */
  function VisitRangeMin(s: Settings, draws: RandomDraws, i: int, k: int): real {
    if i == k then s.radius * 2.0 else Max(s.radius * 2.0, draws.uniform(i, k, 0))
  }

  /** The maximum range visit `(i, k)` writes: a draw, never below the
      minimum range. */
  function VisitRangeMax(s: Settings, draws: RandomDraws, i: int, k: int): real {
    Max(VisitRangeMin(s, draws, i, k), draws.uniform(i, k, 1))
  }

  /** Visit `(c, d)` of the row-major double loop comes before visit `(i, k)`. */
  predicate Done(i: int, k: int, c: int, d: int) {
    c < i || (c == i && d < k)
  }

  /** Attraction entry `(a, b)` once the visits before `(i, k)` are done: the
      later of visit `(a, b)` (which writes it as `coord`) and visit `(b, a)`
      (which writes it as `icoord`) decides it. */
  function AttractAfter(o: real, s: Settings, draws: RandomDraws, a: int, b: int, i: int, k: int): real {
    var own := Done(i, k, a, b);
    var mirror := a != b && Done(i, k, b, a);
    if own && (!mirror || b < a) then
      (if a == b then -Abs(Attraction(s, draws, a, a, 0)) else Attraction(s, draws, a, b, 0))
    else if mirror then Attraction(s, draws, b, a, 1)
    else o
  }

  /** The visit that last wrote range entry `(a, b)` before `(i, k)`: both
      visits write the same value to the entry and its mirror. */
  function LastRangeVisit(a: int, b: int, i: int, k: int): Option<(int, int)> {
    var own := Done(i, k, a, b);
    var mirror := Done(i, k, b, a);
    if own && (!mirror || b <= a) then Some((a, b))
    else if mirror then Some((b, a))
    else None
  }

  function RangeMinAfter(o: real, s: Settings, draws: RandomDraws, a: int, b: int, i: int, k: int): real {
    match LastRangeVisit(a, b, i, k)
    case None => o
    case Some((c, d)) => VisitRangeMin(s, draws, c, d)
  }

  function RangeMaxAfter(o: real, s: Settings, draws: RandomDraws, a: int, b: int, i: int, k: int): real {
    match LastRangeVisit(a, b, i, k)
    case None => o
    case Some((c, d)) => VisitRangeMax(s, draws, c, d)
  }

  /** The attraction of `a` to `b` after SetRandomTypes. Off the diagonal the
      two directions come from different draws, so the matrix is not
      symmetric; on the diagonal the attraction is never positive. */
  function TypeAttract(s: Settings, draws: RandomDraws, a: int, b: int): (r: real)
    ensures a == b ==> r <= 0.0
  {
    if a == b then -Abs(Attraction(s, draws, a, a, 0))
    else if b < a then Attraction(s, draws, a, b, 0)
    else Attraction(s, draws, b, a, 1)
  }

  /** The ranges of `(a, b)` after SetRandomTypes come from visit
      `(max, min)`, the later of the two. */
  function TypeRangeMin(s: Settings, draws: RandomDraws, a: int, b: int): real {
    if b <= a then VisitRangeMin(s, draws, a, b) else VisitRangeMin(s, draws, b, a)
  }

  function TypeRangeMax(s: Settings, draws: RandomDraws, a: int, b: int): real {
    if b <= a then VisitRangeMax(s, draws, a, b) else VisitRangeMax(s, draws, b, a)
  }

  /** The three matrices of a type table, as values. */
  datatype Tables = Tables(attract: seq<real>, rangeMin: seq<real>, rangeMax: seq<real>)

  predicate Sized(n: int, t: Tables) {
    |t.attract| == |t.rangeMin| == |t.rangeMax| == n * n
  }

  /** Entries of table `t` after the visits before `(i, k)`, given the
      table `t0` before the first visit. */
  ghost predicate Progress(n: int, t: Tables, t0: Tables, s: Settings, draws: RandomDraws, i: int, k: int)
    requires Sized(n, t) && Sized(n, t0)
  {
    AllIdxBounds(n);
    forall a, b {:trigger Idx(n, a, b)} :: 0 <= a < n && 0 <= b < n ==>
      && t.attract[Idx(n, a, b)] == AttractAfter(t0.attract[Idx(n, a, b)], s, draws, a, b, i, k)
      && t.rangeMin[Idx(n, a, b)] == RangeMinAfter(t0.rangeMin[Idx(n, a, b)], s, draws, a, b, i, k)
      && t.rangeMax[Idx(n, a, b)] == RangeMaxAfter(t0.rangeMax[Idx(n, a, b)], s, draws, a, b, i, k)
  }

  /** `m` is the largest maximum range written by the visits before
      `(i, k)`, or 0 when none exceeds 0. */
  ghost predicate MaxSoFar(m: real, n: int, s: Settings, draws: RandomDraws, i: int, k: int) {
    && 0.0 <= m
    && (forall c, d :: 0 <= c < n && 0 <= d < n && Done(i, k, c, d) ==> VisitRangeMax(s, draws, c, d) <= m)
    && (m == 0.0 || exists c, d :: 0 <= c < n && 0 <= d < n && Done(i, k, c, d) && m == VisitRangeMax(s, draws, c, d))
  }

  /** Raising the maximum to the value of visit `(i, k)` extends it over that visit. */
  lemma MaxStep(m: real, n: int, s: Settings, draws: RandomDraws, i: int, k: int)
    requires 0 <= i < n && 0 <= k < n
    requires MaxSoFar(m, n, s, draws, i, k)
    ensures MaxSoFar(Max(m, VisitRangeMax(s, draws, i, k)), n, s, draws, i, k + 1)
  {
    var v := VisitRangeMax(s, draws, i, k);
    if v > m {
      assert Done(i, k + 1, i, k);
    } else if m != 0.0 {
      var c, d :| 0 <= c < n && 0 <= d < n && Done(i, k, c, d) && m == VisitRangeMax(s, draws, c, d);
      assert Done(i, k + 1, c, d);
    }
  }

  /** Having visited all of row `i` is the same as standing at row `i + 1`. */
  lemma RowEndCell(o: real, oMin: real, oMax: real, s: Settings, draws: RandomDraws, a: int, b: int, i: int, n: int)
    requires 0 <= a < n && 0 <= b < n
    ensures AttractAfter(o, s, draws, a, b, i, n) == AttractAfter(o, s, draws, a, b, i + 1, 0)
    ensures RangeMinAfter(oMin, s, draws, a, b, i, n) == RangeMinAfter(oMin, s, draws, a, b, i + 1, 0)
    ensures RangeMaxAfter(oMax, s, draws, a, b, i, n) == RangeMaxAfter(oMax, s, draws, a, b, i + 1, 0)
  {
    assert LastRangeVisit(a, b, i, n) == LastRangeVisit(a, b, i + 1, 0);
  }

  /** The entries after all of row `i` are the entries at the start of
      row `i + 1`. */
  lemma RowEnd(n: int, t: Tables, t0: Tables, s: Settings, draws: RandomDraws, i: int)
    requires Sized(n, t) && Sized(n, t0)
    requires Progress(n, t, t0, s, draws, i, n)
    ensures Progress(n, t, t0, s, draws, i + 1, 0)
  {
    AllIdxBounds(n);
    forall a, b | 0 <= a < n && 0 <= b < n
      ensures && t.attract[Idx(n, a, b)] == AttractAfter(t0.attract[Idx(n, a, b)], s, draws, a, b, i + 1, 0)
              && t.rangeMin[Idx(n, a, b)] == RangeMinAfter(t0.rangeMin[Idx(n, a, b)], s, draws, a, b, i + 1, 0)
              && t.rangeMax[Idx(n, a, b)] == RangeMaxAfter(t0.rangeMax[Idx(n, a, b)], s, draws, a, b, i + 1, 0)
    {
      var j := Idx(n, a, b);
      RowEndCell(t0.attract[j], t0.rangeMin[j], t0.rangeMax[j], s, draws, a, b, i, n);
    }
  }

  /** The running maximum after all of row `i` is the one at the start of
      row `i + 1`. */
  lemma MaxRowEnd(m: real, n: int, s: Settings, draws: RandomDraws, i: int)
    requires MaxSoFar(m, n, s, draws, i, n)
    ensures MaxSoFar(m, n, s, draws, i + 1, 0)
  {
    assert forall c, d :: 0 <= d < n ==> (Done(i, n, c, d) <==> Done(i + 1, 0, c, d));
  }

  /** Visit `(i, k)` decides entries `(i, k)` and `(k, i)` and leaves every
      other entry as it was. */
  lemma CellAdvance(o: real, oMin: real, oMax: real, s: Settings, draws: RandomDraws, a: int, b: int, i: int, k: int)
    ensures a == i && b == k ==>
      && AttractAfter(o, s, draws, a, b, i, k + 1)
         == (if i == k then -Abs(Attraction(s, draws, i, i, 0)) else Attraction(s, draws, i, k, 0))
      && RangeMinAfter(oMin, s, draws, a, b, i, k + 1) == VisitRangeMin(s, draws, i, k)
      && RangeMaxAfter(oMax, s, draws, a, b, i, k + 1) == VisitRangeMax(s, draws, i, k)
    ensures a == k && b == i && i != k ==>
      && AttractAfter(o, s, draws, a, b, i, k + 1) == Attraction(s, draws, i, k, 1)
      && RangeMinAfter(oMin, s, draws, a, b, i, k + 1) == VisitRangeMin(s, draws, i, k)
      && RangeMaxAfter(oMax, s, draws, a, b, i, k + 1) == VisitRangeMax(s, draws, i, k)
    ensures (a != i || b != k) && (a != k || b != i) ==>
      && AttractAfter(o, s, draws, a, b, i, k + 1) == AttractAfter(o, s, draws, a, b, i, k)
      && RangeMinAfter(oMin, s, draws, a, b, i, k + 1) == RangeMinAfter(oMin, s, draws, a, b, i, k)
      && RangeMaxAfter(oMax, s, draws, a, b, i, k + 1) == RangeMaxAfter(oMax, s, draws, a, b, i, k)
  {
    if (a != i || b != k) && (a != k || b != i) {
      assert LastRangeVisit(a, b, i, k + 1) == LastRangeVisit(a, b, i, k);
    }
  }

  /** Once every visit is done, the intermediate state is the final table. */
  lemma AllVisited(o: real, s: Settings, draws: RandomDraws, n: int, a: int, b: int)
    requires 0 <= a < n && 0 <= b < n
    ensures AttractAfter(o, s, draws, a, b, n, 0) == TypeAttract(s, draws, a, b)
    ensures RangeMinAfter(o, s, draws, a, b, n, 0) == TypeRangeMin(s, draws, a, b)
    ensures RangeMaxAfter(o, s, draws, a, b, n, 0) == TypeRangeMax(s, draws, a, b)
  {
    assert Done(n, 0, a, b) && Done(n, 0, b, a);
  }

  /** The range matrices are symmetric, the minimum range is at least twice
      the radius (exactly that on the diagonal) and the maximum range is at
      least the minimum range. */
  lemma TypeRangesShape(s: Settings, draws: RandomDraws, a: int, b: int)
    ensures TypeRangeMin(s, draws, a, b) == TypeRangeMin(s, draws, b, a)
    ensures TypeRangeMax(s, draws, a, b) == TypeRangeMax(s, draws, b, a)
    ensures s.radius * 2.0 <= TypeRangeMin(s, draws, a, b) <= TypeRangeMax(s, draws, a, b)
    ensures a == b ==> TypeRangeMin(s, draws, a, b) == s.radius * 2.0
  {
  }

  /** When every uniform draw lies in its interval, each maximum range is at
      most the largest of twice the radius and the two upper limits. */
  lemma TypeRangeMaxBounded(s: Settings, draws: RandomDraws, a: int, b: int)
    requires forall i, k :: draws.uniform(i, k, 0) <= Max(s.rangeMinLower, s.rangeMinUpper)
    requires forall i, k :: draws.uniform(i, k, 1) <= Max(s.rangeMaxLower, s.rangeMaxUpper)
    ensures TypeRangeMax(s, draws, a, b)
      <= Max(s.radius * 2.0, Max(Max(s.rangeMinLower, s.rangeMinUpper), Max(s.rangeMaxLower, s.rangeMaxUpper)))
  {
    var hi, lo := if b <= a then a else b, if b <= a then b else a;
    assert draws.uniform(hi, lo, 0) <= Max(s.rangeMinLower, s.rangeMinUpper);
    assert draws.uniform(hi, lo, 1) <= Max(s.rangeMaxLower, s.rangeMaxUpper);
  }

  /** Visit `(i, k)` of the double loop: entry `(i, k)` gets its attraction
      and ranges, its mirror `(k, i)` the mirrored attraction and the same
      ranges. */
  function Visit(n: int, t: Tables, s: Settings, draws: RandomDraws, i: int, k: int): (r: Tables)
    requires Sized(n, t) && 0 <= i < n && 0 <= k < n
    ensures Sized(n, r)
  {
    IdxBounds(n, i, k);
    IdxBounds(n, k, i);
    var coord, icoord := Idx(n, i, k), Idx(n, k, i);
    var rMin, rMax := VisitRangeMin(s, draws, i, k), VisitRangeMax(s, draws, i, k);
    Tables(
      if i == k then t.attract[coord := -Abs(Attraction(s, draws, i, k, 0))]
      else t.attract[coord := Attraction(s, draws, i, k, 0)][icoord := Attraction(s, draws, i, k, 1)],
      t.rangeMin[coord := rMin][icoord := rMin],
      t.rangeMax[coord := rMax][icoord := rMax])
  }

  /** The positions of the double loop: the start, and any point of a row
      `i < n` from `(i, 0)` to `(i, n)`, the end of the row. */
  predicate VisitPoint(n: int, i: nat, k: nat) {
    if k == 0 then i == 0 || i <= n else i < n && k <= n
  }

  /** The table after the visits before `(i, k)`, starting from `t0`. The
      end of row `i` is the start of row `i + 1`. */
  function After(n: int, t0: Tables, s: Settings, draws: RandomDraws, i: nat, k: nat): (r: Tables)
    requires Sized(n, t0) && VisitPoint(n, i, k)
    ensures Sized(n, r)
    decreases i, k
  {
    if k > 0 then Visit(n, After(n, t0, s, draws, i, k - 1), s, draws, i, k - 1)
    else if i > 0 then After(n, t0, s, draws, i - 1, n)
    else t0
  }

  /** The running maximum after the visits before `(i, k)`: 0 raised to
      the maximum range of each visit in turn. */
  function RunningMax(n: int, s: Settings, draws: RandomDraws, i: nat, k: nat): real
    requires VisitPoint(n, i, k)
    decreases i, k
  {
    if k > 0 then Max(RunningMax(n, s, draws, i, k - 1), VisitRangeMax(s, draws, i, k - 1))
    else if i > 0 then RunningMax(n, s, draws, i - 1, n)
    else 0.0
  }

  /** The running maximum is the largest maximum range of the visits so
      far, or 0 when none exceeds 0. */
  lemma {:induction false} RunningMaxIsMax(n: int, s: Settings, draws: RandomDraws, i: nat, k: nat)
    requires VisitPoint(n, i, k)
    ensures MaxSoFar(RunningMax(n, s, draws, i, k), n, s, draws, i, k)
    decreases i, k
  {
    if k > 0 {
      RunningMaxIsMax(n, s, draws, i, k - 1);
      MaxStep(RunningMax(n, s, draws, i, k - 1), n, s, draws, i, k - 1);
    } else if i > 0 {
      RunningMaxIsMax(n, s, draws, i - 1, n);
      MaxRowEnd(RunningMax(n, s, draws, i - 1, n), n, s, draws, i - 1);
    }
  }

  /** One visit advances the cellwise description by one step. */
  lemma VisitCells(n: int, t: Tables, t0: Tables, s: Settings, draws: RandomDraws, i: int, k: int)
    requires Sized(n, t) && Sized(n, t0) && 0 <= i < n && 0 <= k < n
    requires Progress(n, t, t0, s, draws, i, k)
    ensures var t' := Visit(n, t, s, draws, i, k);
      Progress(n, t', t0, s, draws, i, k + 1)
  {
    var t' := Visit(n, t, s, draws, i, k);
    IdxBounds(n, i, k);
    IdxBounds(n, k, i);
    var coord, icoord := Idx(n, i, k), Idx(n, k, i);
    if coord == icoord {
      IdxInjective(n, i, k, k, i);
    }
    AllIdxBounds(n);
    forall a, b | 0 <= a < n && 0 <= b < n
      ensures && t'.attract[Idx(n, a, b)] == AttractAfter(t0.attract[Idx(n, a, b)], s, draws, a, b, i, k + 1)
              && t'.rangeMin[Idx(n, a, b)] == RangeMinAfter(t0.rangeMin[Idx(n, a, b)], s, draws, a, b, i, k + 1)
              && t'.rangeMax[Idx(n, a, b)] == RangeMaxAfter(t0.rangeMax[Idx(n, a, b)], s, draws, a, b, i, k + 1)
    {
      var j := Idx(n, a, b);
      CellAdvance(t0.attract[j], t0.rangeMin[j], t0.rangeMax[j], s, draws, a, b, i, k);
      if (a != i || b != k) && (a != k || b != i) {
        if j == coord { IdxInjective(n, a, b, i, k); }
        if j == icoord { IdxInjective(n, a, b, k, i); }
      }
    }
  }

  /** Before the first visit every entry is the starting one. */
  lemma StartCells(n: int, t0: Tables, s: Settings, draws: RandomDraws)
    requires Sized(n, t0)
    ensures Progress(n, t0, t0, s, draws, 0, 0)
  {
    AllIdxBounds(n);
    forall a, b | 0 <= a < n && 0 <= b < n
      ensures && t0.attract[Idx(n, a, b)] == AttractAfter(t0.attract[Idx(n, a, b)], s, draws, a, b, 0, 0)
              && t0.rangeMin[Idx(n, a, b)] == RangeMinAfter(t0.rangeMin[Idx(n, a, b)], s, draws, a, b, 0, 0)
              && t0.rangeMax[Idx(n, a, b)] == RangeMaxAfter(t0.rangeMax[Idx(n, a, b)], s, draws, a, b, 0, 0)
    {
      assert LastRangeVisit(a, b, 0, 0) == None;
    }
  }

  /** The visit just before `(i, k)` within a row keeps the tables in
      step with the visits made. */
  lemma AfterVisit(n: int, t0: Tables, s: Settings, draws: RandomDraws, i: nat, k: nat)
    requires Sized(n, t0) && 0 < k <= n && i < n
    requires Progress(n, After(n, t0, s, draws, i, k - 1), t0, s, draws, i, k - 1)
    ensures Progress(n, After(n, t0, s, draws, i, k), t0, s, draws, i, k)
  {
    var t := After(n, t0, s, draws, i, k - 1);
    assert After(n, t0, s, draws, i, k) == Visit(n, t, s, draws, i, k - 1);
    VisitCells(n, t, t0, s, draws, i, k - 1);
  }

  /** The end of row `i - 1` is the start of row `i`. */
  lemma AfterRow(n: int, t0: Tables, s: Settings, draws: RandomDraws, i: nat)
    requires Sized(n, t0) && 0 < i <= n
    requires Progress(n, After(n, t0, s, draws, i - 1, n), t0, s, draws, i - 1, n)
    ensures Progress(n, After(n, t0, s, draws, i, 0), t0, s, draws, i, 0)
  {
    RowEnd(n, After(n, t0, s, draws, i - 1, n), t0, s, draws, i - 1);
  }

  /** Each entry of `After(i, k)` is the one the later of its two visits
      before `(i, k)` wrote, or the starting entry when neither is done. */
  lemma {:induction false} AfterCells(n: int, t0: Tables, s: Settings, draws: RandomDraws, i: nat, k: nat)
    requires Sized(n, t0) && VisitPoint(n, i, k)
    ensures var t := After(n, t0, s, draws, i, k);
      Progress(n, t, t0, s, draws, i, k)
    decreases i, k
  {
    if k > 0 {
      AfterCells(n, t0, s, draws, i, k - 1);
      AfterVisit(n, t0, s, draws, i, k);
    } else if i > 0 {
      AfterCells(n, t0, s, draws, i - 1, n);
      AfterRow(n, t0, s, draws, i);
    } else {
      StartCells(n, t0, s, draws);
    }
  }

  /** A fresh, cleared array of `len` floats. */
  method Zeros(len: nat) returns (a: array<real>)
    ensures fresh(a) && a.Length == len
    ensures forall j :: 0 <= j < len ==> a[j] == 0.0
  {
    a := new real[len](_ => 0.0);
  }

  /** The colour loop of initParticleTypeArrays, on a fresh array. */
  method TypeColors(num: int) returns (c: array<Color>)
    requires 0 <= num
    ensures fresh(c) && c.Length == num
    ensures forall i :: 0 <= i < num ==> c[i] == TypeColor(i, num)
  {
    c := new Color[num];
    for i := 0 to num
      invariant forall j :: 0 <= j < i ==> c[j] == TypeColor(j, num)
    {
      c[i] := TypeColor(i, num);
    }
  }

  /** The body of the double loop for visit `(i, k)`: entry `(i, k)` and
      its mirror `(k, i)` get their attraction and ranges; `written` is the
      maximum range stored at `(i, k)`. */
  method VisitPair(n: int, attract: array<real>, rangeMin: array<real>, rangeMax: array<real>,
                   i: int, k: int, s: Settings, draws: RandomDraws)
    returns (written: real)
    requires attract != rangeMin && attract != rangeMax && rangeMin != rangeMax
    requires attract.Length == rangeMin.Length == rangeMax.Length == n * n
    requires 0 <= i < n && 0 <= k < n
    modifies attract, rangeMin, rangeMax
    ensures Tables(attract[..], rangeMin[..], rangeMax[..])
      == Visit(n, old(Tables(attract[..], rangeMin[..], rangeMax[..])), s, draws, i, k)
    ensures written == VisitRangeMax(s, draws, i, k)
  {
    IdxBounds(n, i, k);
    IdxBounds(n, k, i);
    var coord := Idx(n, i, k);
    var icoord := Idx(n, k, i);
    if coord == icoord {
      IdxInjective(n, i, k, k, i);
    }
    if i == k {
      attract[coord] := -Abs(Attraction(s, draws, i, k, 0));
      rangeMin[coord] := s.radius * 2.0;
    } else {
      attract[coord] := Attraction(s, draws, i, k, 0);
      attract[icoord] := Attraction(s, draws, i, k, 1);
      rangeMin[coord] := Max(s.radius * 2.0, draws.uniform(i, k, 0));
    }
    rangeMax[coord] := Max(rangeMin[coord], draws.uniform(i, k, 1));
    rangeMin[icoord] := rangeMin[coord];
    rangeMax[icoord] := rangeMax[coord];
    written := rangeMax[coord];
  }

  /** The arrays hold the tables after the visits before `(i, k)`,
      starting from `t0`, and `m` is the running maximum of those visits. */
  ghost predicate Reached(n: int, attract: array<real>, rangeMin: array<real>, rangeMax: array<real>,
                          t0: Tables, s: Settings, draws: RandomDraws, i: int, k: int, m: real)
    reads attract, rangeMin, rangeMax
  {
    && Sized(n, t0) && 0 <= i && 0 <= k && VisitPoint(n, i, k)
    && Tables(attract[..], rangeMin[..], rangeMax[..]) == After(n, t0, s, draws, i, k)
    && m == RunningMax(n, s, draws, i, k)
  }

  /** Visit `(i, k)` followed by raising the running maximum `m` to the
      maximum range it wrote. */
  method VisitStep(n: int, attract: array<real>, rangeMin: array<real>, rangeMax: array<real>,
                   i: int, k: int, s: Settings, draws: RandomDraws, m: real, ghost t0: Tables)
    returns (m': real)
    requires attract != rangeMin && attract != rangeMax && rangeMin != rangeMax
    requires 0 <= i < n && 0 <= k < n && Reached(n, attract, rangeMin, rangeMax, t0, s, draws, i, k, m)
    modifies attract, rangeMin, rangeMax
    ensures Reached(n, attract, rangeMin, rangeMax, t0, s, draws, i, k + 1, m')
  {
    var written := VisitPair(n, attract, rangeMin, rangeMax, i, k, s, draws);
    m' := Max(m, written);
  }

  /** Row `i` of the double loop: visits `(i, 0) .. (i, n-1)` in order,
      raising the running maximum `m` to each maximum range written. */
  method VisitRow(n: int, attract: array<real>, rangeMin: array<real>, rangeMax: array<real>,
                  i: int, s: Settings, draws: RandomDraws, m: real, ghost t0: Tables)
    returns (m': real)
    requires attract != rangeMin && attract != rangeMax && rangeMin != rangeMax
    requires 0 <= i < n && Reached(n, attract, rangeMin, rangeMax, t0, s, draws, i, 0, m)
    modifies attract, rangeMin, rangeMax
    ensures Reached(n, attract, rangeMin, rangeMax, t0, s, draws, i + 1, 0, m')
  {
    m' := m;
    var k := 0;
    while k < n
      invariant 0 <= k <= n && Reached(n, attract, rangeMin, rangeMax, t0, s, draws, i, k, m')
    {
      m' := VisitStep(n, attract, rangeMin, rangeMax, i, k, s, draws, m', t0);
      k := k + 1;
    }
  }

  /** The type table. `null` stands for an array that is not created. */
  class ParticleTypes {
    var numTypes: Int32
    var colors: array?<Color>
    var attract: array?<real>
    var rangeMin: array?<real>
    var rangeMax: array?<real>
    var maxRangeMax: real

    /** The three matrices are distinct arrays and `numTypes * numTypes`
        fits a C# `int`. */
    ghost predicate Valid()
      reads this
    {
      && -MaxTypes <= numTypes <= MaxTypes
      && (attract != null && rangeMin != null ==> attract != rangeMin)
      && (attract != null && rangeMax != null ==> attract != rangeMax)
      && (rangeMin != null && rangeMax != null ==> rangeMin != rangeMax)
    }

    /** The guard of updateMaxRangeMax and setRandomTypes: the matrices
        exist and have `numTypes * numTypes` entries. */
    predicate Ready()
      reads this
    {
      && attract != null && rangeMin != null && rangeMax != null
      && attract.Length == numTypes * numTypes
      && rangeMin.Length == numTypes * numTypes
      && rangeMax.Length == numTypes * numTypes
    }

    /** A fresh component: no types, no arrays. */
    constructor()
      ensures Valid() && !Ready()
      ensures numTypes == 0 && maxRangeMax == 0.0
      ensures colors == null && attract == null && rangeMin == null && rangeMax == null
    {
      numTypes := 0;
      colors := null;
      attract := null;
      rangeMin := null;
      rangeMax := null;
      maxRangeMax := 0.0;
    }

    /** OnDisable: every created array is released. */
    method Dispose()
      requires Valid()
      modifies this
      ensures Valid() && !Ready()
      ensures colors == null && attract == null && rangeMin == null && rangeMax == null
      ensures numTypes == old(numTypes) && maxRangeMax == old(maxRangeMax)
    {
      colors := null;
      attract := null;
      rangeMin := null;
      rangeMax := null;
    }

    /** The first lines of initParticleTypeArrays: every created, non-empty
        array is released. */
    method ReleaseNonEmpty()
      requires Valid()
      modifies this
      ensures Valid()
      ensures numTypes == old(numTypes) && maxRangeMax == old(maxRangeMax)
      ensures colors == (if old(colors) != null && old(colors).Length > 0 then null else old(colors))
      ensures attract == (if old(attract) != null && old(attract).Length > 0 then null else old(attract))
      ensures rangeMin == (if old(rangeMin) != null && old(rangeMin).Length > 0 then null else old(rangeMin))
      ensures rangeMax == (if old(rangeMax) != null && old(rangeMax).Length > 0 then null else old(rangeMax))
    {
      if colors != null && colors.Length > 0 { colors := null; }
      if attract != null && attract.Length > 0 { attract := null; }
      if rangeMin != null && rangeMin.Length > 0 { rangeMin := null; }
      if rangeMax != null && rangeMax.Length > 0 { rangeMax := null; }
    }

    /** Allocates the colour array and the three zeroed matrices for `num`
        types and colours the types. Existing non-empty arrays are released
        first; a negative count then fails at the first allocation, after
        `numTypes` has been set. */
    method InitParticleTypeArrays(num: Int32) returns (outcome: Outcome<()>)
      requires Valid()
      requires -MaxTypes <= num <= MaxTypes
      modifies this
      ensures Valid()
      ensures numTypes == num && maxRangeMax == old(maxRangeMax)
      ensures num < 0 ==>
        && outcome == Threw(ArgumentOutOfRangeException)
        && colors == (if old(colors) != null && old(colors).Length > 0 then null else old(colors))
        && attract == (if old(attract) != null && old(attract).Length > 0 then null else old(attract))
        && rangeMin == (if old(rangeMin) != null && old(rangeMin).Length > 0 then null else old(rangeMin))
        && rangeMax == (if old(rangeMax) != null && old(rangeMax).Length > 0 then null else old(rangeMax))
      ensures 0 <= num ==>
        && outcome == Returned(())
        && Ready()
        && colors != null && fresh(colors) && fresh(attract) && fresh(rangeMin) && fresh(rangeMax)
        && colors.Length == num
        && (forall i :: 0 <= i < num ==> colors[i] == TypeColor(i, num))
        && (forall j :: 0 <= j < num * num ==> attract[j] == 0.0 && rangeMin[j] == 0.0 && rangeMax[j] == 0.0)
    {
      ReleaseNonEmpty();
      numTypes := num;
      if num < 0 {
        return Threw(ArgumentOutOfRangeException);
      }
      colors := TypeColors(num);
      attract := Zeros(num * num);
      rangeMin := Zeros(num * num);
      rangeMax := Zeros(num * num);
      outcome := Returned(());
    }

    /** Draws a new random type table. When the matrices are missing or of
        the wrong size nothing changes. Otherwise every entry gets its value
        from the later of its two visits, and `maxRangeMax` becomes the
        largest maximum range written during the loop (0 if none is
        positive), which bounds every final entry. */
    method SetRandomTypes(s: Settings, draws: RandomDraws)
      requires Valid()
      modifies this`maxRangeMax, attract, rangeMin, rangeMax
      ensures Valid()
      ensures !old(Ready()) ==> unchanged(this) && maxRangeMax == old(maxRangeMax)
      ensures !old(Ready()) && attract != null ==> unchanged(attract)
      ensures !old(Ready()) && rangeMin != null ==> unchanged(rangeMin)
      ensures !old(Ready()) && rangeMax != null ==> unchanged(rangeMax)
      ensures old(Ready()) ==> Ready()
      ensures old(Ready()) ==> (AllIdxBounds(numTypes); forall a, b {:trigger Idx(numTypes, a, b)} :: 0 <= a < numTypes && 0 <= b < numTypes ==>
        && attract[Idx(numTypes, a, b)] == TypeAttract(s, draws, a, b)
        && rangeMin[Idx(numTypes, a, b)] == TypeRangeMin(s, draws, a, b)
        && rangeMax[Idx(numTypes, a, b)] == TypeRangeMax(s, draws, a, b)
        && rangeMax[Idx(numTypes, a, b)] <= maxRangeMax)
      ensures old(Ready()) ==> MaxSoFar(maxRangeMax, numTypes, s, draws, numTypes, 0)
    {
      if !Ready() {
        return;
      }
      var n := numTypes;
      maxRangeMax := 0.0;
      ghost var t0 := Tables(attract[..], rangeMin[..], rangeMax[..]);
      var i := 0;
      while i < n
        invariant 0 <= i && (n <= 0 ==> i == 0) && (0 < n ==> i <= n)
        invariant Tables(attract[..], rangeMin[..], rangeMax[..]) == After(n, t0, s, draws, i, 0)
        invariant maxRangeMax == RunningMax(n, s, draws, i, 0)
      {
        maxRangeMax := VisitRow(n, attract, rangeMin, rangeMax, i, s, draws, maxRangeMax, t0);
        i := i + 1;
      }
      Finish(t0, s, draws, i);
    }

    lemma Finish(t0: Tables, s: Settings, draws: RandomDraws, i: nat)
      requires Ready() && Sized(numTypes, t0) && (i == numTypes || (numTypes <= 0 && i == 0))
      requires Tables(attract[..], rangeMin[..], rangeMax[..]) == After(numTypes, t0, s, draws, i, 0)
      requires maxRangeMax == RunningMax(numTypes, s, draws, i, 0)
      ensures MaxSoFar(maxRangeMax, numTypes, s, draws, numTypes, 0)
      ensures (AllIdxBounds(numTypes); forall a, b {:trigger Idx(numTypes, a, b)} :: 0 <= a < numTypes && 0 <= b < numTypes ==>
        && attract[Idx(numTypes, a, b)] == TypeAttract(s, draws, a, b)
        && rangeMin[Idx(numTypes, a, b)] == TypeRangeMin(s, draws, a, b)
        && rangeMax[Idx(numTypes, a, b)] == TypeRangeMax(s, draws, a, b)
        && rangeMax[Idx(numTypes, a, b)] <= maxRangeMax)
    {
      var n := numTypes;
      AfterCells(n, t0, s, draws, i, 0);
      RunningMaxIsMax(n, s, draws, i, 0);
      AllIdxBounds(n);
      forall a, b | 0 <= a < n && 0 <= b < n
        ensures && attract[Idx(n, a, b)] == TypeAttract(s, draws, a, b)
                && rangeMin[Idx(n, a, b)] == TypeRangeMin(s, draws, a, b)
                && rangeMax[Idx(n, a, b)] == TypeRangeMax(s, draws, a, b)
                && rangeMax[Idx(n, a, b)] <= maxRangeMax
      {
        var j := Idx(n, a, b);
        assert attract[j] == attract[..][j] && rangeMin[j] == rangeMin[..][j] && rangeMax[j] == rangeMax[..][j];
        AllVisited(t0.attract[j], s, draws, n, a, b);
        AllVisited(t0.rangeMin[j], s, draws, n, a, b);
        AllVisited(t0.rangeMax[j], s, draws, n, a, b);
        if b <= a {
          assert Done(n, 0, a, b);
        } else {
          assert Done(n, 0, b, a);
        }
      }
    }

    /** Raises `maxRangeMax` to the largest maximum range on or above the
        diagonal. It starts from the current value, so it never lowers it.
        When the matrices are missing or of the wrong size nothing changes. */
    method UpdateMaxRangeMax()
      requires Valid()
      modifies this`maxRangeMax
      ensures !old(Ready()) ==> maxRangeMax == old(maxRangeMax)
      ensures Ready() == old(Ready())
      ensures Ready() ==> (AllIdxBounds(numTypes);
        && old(maxRangeMax) <= maxRangeMax
        && (forall a, b {:trigger Idx(numTypes, a, b)} :: 0 <= a <= b < numTypes ==> rangeMax[Idx(numTypes, a, b)] <= maxRangeMax)
        && (maxRangeMax == old(maxRangeMax) ||
            exists a, b {:trigger Idx(numTypes, a, b)} :: 0 <= a <= b < numTypes && maxRangeMax == rangeMax[Idx(numTypes, a, b)]))
    {
      if !Ready() {
        return;
      }
      var n := numTypes;
      AllIdxBounds(n);
      var i := 0;
      while i < n
        invariant 0 <= i && (i <= n || n <= 0)
        invariant old(maxRangeMax) <= maxRangeMax
        invariant forall a, b {:trigger Idx(n, a, b)} :: 0 <= a < i && a <= b < n ==> rangeMax[Idx(n, a, b)] <= maxRangeMax
        invariant maxRangeMax == old(maxRangeMax) ||
          exists a, b {:trigger Idx(n, a, b)} :: 0 <= a <= b < n && maxRangeMax == rangeMax[Idx(n, a, b)]
      {
        var k := i;
        while k < n
          invariant i <= k <= n
          invariant old(maxRangeMax) <= maxRangeMax
          invariant forall a, b {:trigger Idx(n, a, b)} :: 0 <= a && a <= b < n && (a < i || (a == i && b < k)) ==> rangeMax[Idx(n, a, b)] <= maxRangeMax
          invariant maxRangeMax == old(maxRangeMax) ||
            exists a, b {:trigger Idx(n, a, b)} :: 0 <= a <= b < n && maxRangeMax == rangeMax[Idx(n, a, b)]
        {
          IdxBounds(n, i, k);
          var coord := Idx(n, i, k);
          if rangeMax[coord] > maxRangeMax {
            maxRangeMax := rangeMax[coord];
          }
          k := k + 1;
        }
        i := i + 1;
      }
    }
  }

  /** When the maximum-range matrix is symmetric, a bound on the entries on
      and above the diagonal bounds every entry. */
  lemma UpperTriangleBoundsAll(m: seq<real>, n: int, bound: real)
    requires |m| == n * n
    requires (AllIdxBounds(n); forall a, b {:trigger Idx(n, a, b)} :: 0 <= a < n && 0 <= b < n ==> m[Idx(n, a, b)] == m[Idx(n, b, a)])
    requires (AllIdxBounds(n); forall a, b {:trigger Idx(n, a, b)} :: 0 <= a <= b < n ==> m[Idx(n, a, b)] <= bound)
    ensures (AllIdxBounds(n); forall a, b {:trigger Idx(n, a, b)} :: 0 <= a < n && 0 <= b < n ==> m[Idx(n, a, b)] <= bound)
  {
    AllIdxBounds(n);
    forall a, b | 0 <= a < n && 0 <= b < n
      ensures m[Idx(n, a, b)] <= bound
    {
      if b < a {
        assert m[Idx(n, a, b)] == m[Idx(n, b, a)];
      }
    }
  }
}
