/**
 Rank correlation (src/shrap/research/rank_persistence.py, `spearman`). The coefficient is
 num / (sqrt(dx2) * sqrt(dy2)); it is kept as those three exact sums, so no square root is needed.
 */
module Spearman {
  import opened Wrappers
  import opened RealSums

  // ----- ranks -----

  function Insert(x: real, s: seq<real>): seq<real> {
    if s == [] || x <= s[0] then [x] + s else [s[0]] + Insert(x, s[1..])
  }

  /** `sorted(values)`. */
  function Sort(s: seq<real>): seq<real> {
    if s == [] then [] else Insert(s[0], Sort(s[1..]))
  }

  /** `{value: i for i, value in enumerate(ordered)}`: a later position overrides an earlier one. */
  function RankTable(ordered: seq<real>): map<real, nat> {
    if ordered == [] then map[] else RankTable(ordered[..|ordered| - 1])[ordered[|ordered| - 1] := |ordered| - 1]
  }

  /** How many of `s` are at most `v`. */
  function AtMost(s: seq<real>, v: real): nat {
    if s == [] then 0 else (if s[0] <= v then 1 else 0) + AtMost(s[1..], v)
  }

  ghost predicate Increasing(s: seq<real>) {
    forall j, k :: 0 <= j < k < |s| ==> s[j] <= s[k]
  }

  lemma {:induction false} InsertKeeps(x: real, s: seq<real>, v: real)
    requires Increasing(s)
    ensures Increasing(Insert(x, s))
    ensures AtMost(Insert(x, s), v) == AtMost(s, v) + if x <= v then 1 else 0
    ensures v in Insert(x, s) <==> v == x || v in s
  {
    if s == [] || x <= s[0] {
      assert ([x] + s)[1..] == s;
    } else {
      InsertKeeps(x, s[1..], v);
      var r := Insert(x, s[1..]);
      assert ([s[0]] + r)[1..] == r;
      forall k | 0 <= k < |r| ensures s[0] <= r[k] {
        InsertKeeps(x, s[1..], r[k]);
        assert r[k] in r;
      }
    }
  }

  lemma {:induction false} SortKeeps(s: seq<real>, v: real)
    ensures Increasing(Sort(s)) && AtMost(Sort(s), v) == AtMost(s, v) && (v in Sort(s) <==> v in s)
  {
    if s != [] {
      SortKeeps(s[1..], v);
      InsertKeeps(s[0], Sort(s[1..]), v);
    }
  }

  lemma {:induction false} AtMostAll(s: seq<real>, v: real)
    requires forall k :: 0 <= k < |s| ==> s[k] <= v
    ensures AtMost(s, v) == |s|
  {
    if s != [] {
      AtMostAll(s[1..], v);
    }
  }

  lemma {:induction false} AtMostSnoc(s: seq<real>, x: real, v: real)
    ensures AtMost(s + [x], v) == AtMost(s, v) + if x <= v then 1 else 0
  {
    if s == [] {
      assert [] + [x] == [x] && [x][1..] == [];
    } else {
      assert (s + [x])[1..] == s[1..] + [x];
      AtMostSnoc(s[1..], x, v);
    }
  }

  lemma {:induction false} LastPosition(ordered: seq<real>, v: real)
    requires Increasing(ordered) && v in ordered
    ensures v in RankTable(ordered) && RankTable(ordered)[v] == AtMost(ordered, v) - 1
    decreases |ordered|
  {
    var before, last := ordered[..|ordered| - 1], ordered[|ordered| - 1];
    assert ordered == before + [last];
    if last == v {
      AtMostAll(ordered, v);
    } else {
      LastPosition(before, v);
      AtMostSnoc(before, last, v);
      var k :| 0 <= k < |before| && before[k] == v;
      assert ordered[k] <= ordered[|ordered| - 1];
    }
  }

  /** Every value, ties included, gets the rank "how many are at most it, less one". */
  lemma {:induction false} RankIsCount(s: seq<real>, v: real)
    requires v in s
    ensures v in RankTable(Sort(s)) && RankTable(Sort(s))[v] == AtMost(s, v) - 1
  {
    SortKeeps(s, v);
    LastPosition(Sort(s), v);
  }

  lemma {:induction false} AllRanked(s: seq<real>)
    ensures forall i :: 0 <= i < |s| ==> s[i] in RankTable(Sort(s)) && RankTable(Sort(s))[s[i]] == AtMost(s, s[i]) - 1
  {
    forall i | 0 <= i < |s| ensures s[i] in RankTable(Sort(s)) && RankTable(Sort(s))[s[i]] == AtMost(s, s[i]) - 1 {
      RankIsCount(s, s[i]);
    }
  }

  /** The ranks of `s`, in its own order; what a missing value would read cannot arise. */
  function Ranks(s: seq<real>): (r: seq<real>)
    ensures |r| == |s|
  {
    var table := RankTable(Sort(s));
    seq(|s|, i requires 0 <= i < |s| => if s[i] in table then table[s[i]] as real else 0.0)
  }

  // ----- sums -----

  function Times(x: real, y: real): real {
    x * y
  }

  function Dot(a: seq<real>, b: seq<real>): real
    requires |a| == |b|
  {
    if a == [] then 0.0 else Dot(a[..|a| - 1], b[..|b| - 1]) + Times(a[|a| - 1], b[|b| - 1])
  }

  /** Deviations from the mean. */
  function Centred(s: seq<real>): (r: seq<real>)
    requires s != []
    ensures |r| == |s|
  {
    var mean := Sum(s) / |s| as real;
    seq(|s|, i requires 0 <= i < |s| => s[i] - mean)
  }

  datatype Rho = Rho(num: real, dx2: real, dy2: real)

  /** `spearman`. */
  function Correlate(left: seq<real>, right: seq<real>): Option<Rho> {
    if |left| < 3 || |left| != |right| then None
    else
      var xs, ys := Centred(Ranks(left)), Centred(Ranks(right));
      if Dot(xs, xs) == 0.0 || Dot(ys, ys) == 0.0 then None
      else Some(Rho(Dot(xs, ys), Dot(xs, xs), Dot(ys, ys)))
  }

  // ----- squares -----

  lemma {:induction false} Square(x: real)
    ensures Times(x, x) >= 0.0
    ensures x != 0.0 ==> Times(x, x) > 0.0
  {
    if x > 0.0 {
      PositiveProduct(x, x);
    } else if x < 0.0 {
      PositiveProduct(-x, -x);
      assert Times(-x, -x) == Times(x, x);
    }
  }

  lemma {:induction false} PositiveProduct(x: real, y: real)
    requires x > 0.0 && y > 0.0
    ensures Times(x, y) > 0.0
  {
  }

  lemma {:induction false} SquaresSum(a: seq<real>)
    ensures Dot(a, a) >= 0.0
    ensures Dot(a, a) == 0.0 <==> forall i :: 0 <= i < |a| ==> a[i] == 0.0
  {
    if a != [] {
      assert Times(0.0, 0.0) == 0.0;
      hide Times;
      var init, last := a[..|a| - 1], a[|a| - 1];
      SquaresSum(init);
      Square(last);
      assert Dot(a, a) == Dot(init, init) + Times(last, last);
      if Dot(a, a) == 0.0 {
        forall i | 0 <= i < |a| ensures a[i] == 0.0 {
          if i < |a| - 1 {
            assert a[i] == init[i];
          }
        }
      }
    }
  }

  /** `p` times `b` less `q` times `a`. */
  function Mix(a: seq<real>, b: seq<real>, p: real, q: real): (r: seq<real>)
    requires |a| == |b|
    ensures |r| == |a|
  {
    seq(|a|, i requires 0 <= i < |a| => p * b[i] - q * a[i])
  }

  /** The square of the mix, from the three inner products. */
  function MixForm(p: real, q: real, xx: real, yy: real, xy: real): real {
    p * p * yy - 2.0 * p * q * xy + q * q * xx
  }

  lemma {:induction false} MixSquares(a: seq<real>, b: seq<real>, p: real, q: real)
    requires |a| == |b|
    ensures Dot(Mix(a, b, p, q), Mix(a, b, p, q)) == MixForm(p, q, Dot(a, a), Dot(b, b), Dot(a, b))
  {
    if a == [] {
      assert MixForm(p, q, 0.0, 0.0, 0.0) == 0.0;
    } else {
      hide MixForm, Times;
      var a0, b0, m := a[..|a| - 1], b[..|b| - 1], Mix(a, b, p, q);
      var m0, x, y, l := Mix(a0, b0, p, q), a[|a| - 1], b[|b| - 1], m[|m| - 1];
      assert forall i :: 0 <= i < |m0| ==> m[i] == m0[i];
      assert m[..|m| - 1] == m0;
      MixSquares(a0, b0, p, q);
      OneSquare(x, y, l, p, q, Dot(a0, a0), Dot(b0, b0), Dot(a0, b0));
    }
  }

  lemma {:induction false} OneSquare(x: real, y: real, l: real, p: real, q: real, xx: real, yy: real, xy: real)
    requires l == p * y - q * x
    ensures MixForm(p, q, xx, yy, xy) + Times(l, l)
            == MixForm(p, q, xx + Times(x, x), yy + Times(y, y), xy + Times(x, y))
  {
    assert l * l == p * p * (y * y) - 2.0 * p * q * (x * y) + q * q * (x * x);
    assert p * p * (yy + y * y) == p * p * yy + p * p * (y * y);
    assert 2.0 * p * q * (xy + x * y) == 2.0 * p * q * xy + 2.0 * p * q * (x * y);
    assert q * q * (xx + x * x) == q * q * xx + q * q * (x * x);
  }

  lemma {:induction false} ZeroDot(a: seq<real>, b: seq<real>)
    requires |a| == |b| && forall i :: 0 <= i < |a| ==> a[i] == 0.0
    ensures Dot(a, b) == 0.0
  {
    if a != [] {
      ZeroDot(a[..|a| - 1], b[..|b| - 1]);
    }
  }

  lemma {:induction false} CancelFactor(aa: real, bb: real, ab: real)
    requires aa > 0.0 && MixForm(aa, ab, aa, bb, ab) >= 0.0
    ensures ab * ab <= aa * bb
  {
    var gap := aa * bb - ab * ab;
    assert aa * gap == MixForm(aa, ab, aa, bb, ab) by {
      assert aa * gap == aa * (aa * bb) - aa * (ab * ab);
    }
    NegativeProduct(aa, gap);
  }

  lemma {:induction false} NegativeProduct(x: real, y: real)
    requires x > 0.0
    ensures y < 0.0 ==> x * y < 0.0
  {
  }

  lemma {:induction false} CauchySchwarz(a: seq<real>, b: seq<real>)
    requires |a| == |b|
    ensures Dot(a, b) * Dot(a, b) <= Dot(a, a) * Dot(b, b)
  {
    hide Dot, Mix, MixForm;
    SquaresSum(a);
    var aa, bb, ab := Dot(a, a), Dot(b, b), Dot(a, b);
    if aa == 0.0 {
      ZeroDot(a, b);
    } else {
      MixSquares(a, b, aa, ab);
      SquaresSum(Mix(a, b, aa, ab));
      CancelFactor(aa, bb, ab);
    }
  }

  lemma {:induction false} DotCommutes(a: seq<real>, b: seq<real>)
    requires |a| == |b|
    ensures Dot(a, b) == Dot(b, a)
  {
    if a != [] {
      DotCommutes(a[..|a| - 1], b[..|b| - 1]);
    }
  }

  // ----- constant input -----

  ghost predicate Constant(s: seq<real>) {
    forall i, j :: 0 <= i < |s| && 0 <= j < |s| ==> s[i] == s[j]
  }

  lemma {:induction false} SumOfConstant(s: seq<real>, c: real)
    requires forall i :: 0 <= i < |s| ==> s[i] == c
    ensures Sum(s) == |s| as real * c
  {
    if s != [] {
      SumOfConstant(s[..|s| - 1], c);
    }
  }

  lemma {:induction false} NoSpread(s: seq<real>)
    requires s != []
    ensures Dot(Centred(s), Centred(s)) == 0.0 <==> Constant(s)
  {
    var c := Centred(s);
    SquaresSum(c);
    if Constant(s) {
      SumOfConstant(s, s[0]);
      Quotient(|s| as real, s[0]);
      assert Sum(s) / |s| as real == s[0];
      forall i | 0 <= i < |c| ensures c[i] == 0.0 {
        assert s[i] == s[0];
      }
    }
    if Dot(c, c) == 0.0 {
      forall i, j | 0 <= i < |s| && 0 <= j < |s| ensures s[i] == s[j] {
        assert c[i] == 0.0 && c[j] == 0.0;
      }
    }
  }

  lemma {:induction false} Quotient(n: real, x: real)
    requires n != 0.0
    ensures n * x / n == x
  {
  }

  lemma {:induction false} MoreAtMost(s: seq<real>, v: real, w: real)
    requires v < w
    ensures AtMost(s, v) <= AtMost(s, w)
    ensures w in s ==> AtMost(s, v) < AtMost(s, w)
  {
    if s != [] {
      MoreAtMost(s[1..], v, w);
    }
  }

  /** Ranks tell distinct values apart. */
  lemma {:induction false} RanksSeparate(s: seq<real>)
    ensures Constant(Ranks(s)) <==> Constant(s)
  {
    AllRanked(s);
    var r := Ranks(s);
    forall i, j | 0 <= i < |s| && 0 <= j < |s| ensures r[i] == r[j] <==> s[i] == s[j] {
      if s[i] < s[j] {
        MoreAtMost(s, s[i], s[j]);
      } else if s[j] < s[i] {
        MoreAtMost(s, s[j], s[i]);
      }
    }
    if Constant(r) {
      forall i, j | 0 <= i < |s| && 0 <= j < |s| ensures s[i] == s[j] {
        assert r[i] == r[j];
      }
    }
  }

  /** Undefined exactly for short, unequal-length or constant input; otherwise num^2 <= dx2 * dy2, both positive. */
  lemma {:induction false} CorrelationContract(left: seq<real>, right: seq<real>)
    ensures Correlate(left, right).None?
            <==> |left| < 3 || |left| != |right| || Constant(left) || Constant(right)
    ensures Correlate(left, right).Some? ==>
              var r := Correlate(left, right).value;
              r.dx2 > 0.0 && r.dy2 > 0.0 && r.num * r.num <= r.dx2 * r.dy2
  {
    hide Dot, Ranks, Centred, Constant;
    if |left| >= 3 && |left| == |right| {
      var xs, ys := Centred(Ranks(left)), Centred(Ranks(right));
      NoSpread(Ranks(left));
      NoSpread(Ranks(right));
      RanksSeparate(left);
      RanksSeparate(right);
      SquaresSum(xs);
      SquaresSum(ys);
      CauchySchwarz(xs, ys);
    }
  }

  // ----- what it measures -----

  lemma {:induction false} AtMostAlike(s: seq<real>, t: seq<real>, v: real, w: real)
    requires |s| == |t| && forall k :: 0 <= k < |s| ==> (s[k] <= v <==> t[k] <= w)
    ensures AtMost(s, v) == AtMost(t, w)
  {
    if s != [] {
      AtMostAlike(s[1..], t[1..], v, w);
    }
  }

  /** The same order gives rho one: the three sums agree. */
  lemma {:induction false} SameOrderIsPerfect(left: seq<real>, right: seq<real>)
    requires |left| == |right| >= 3 && !Constant(left)
    requires forall i, j :: 0 <= i < |left| && 0 <= j < |left| ==> (left[i] <= left[j] <==> right[i] <= right[j])
    ensures Correlate(left, right).Some?
    ensures var r := Correlate(left, right).value; r.num == r.dx2 == r.dy2 && r.num > 0.0
  {
    hide Constant;
    AllRanked(left);
    AllRanked(right);
    forall i | 0 <= i < |left| ensures Ranks(left)[i] == Ranks(right)[i] {
      AtMostAlike(left, right, left[i], right[i]);
    }
    assert Ranks(left) == Ranks(right);
    CorrelationContract(left, left);
  }

  ghost predicate Distinct(s: seq<real>) {
    forall i, j :: 0 <= i < j < |s| ==> s[i] != s[j]
  }

  /** Counting from below and, in another list, from above: together they count every entry once, and ties twice. */
  lemma {:induction false} AtMostOpposed(s: seq<real>, t: seq<real>, v: real, w: real)
    requires |s| == |t| && forall k :: 0 <= k < |s| ==> (s[k] <= v <==> w <= t[k])
    ensures AtMost(s, v) + AtMost(t, w) == |s| + Equal(t, w)
  {
    if s != [] {
      AtMostOpposed(s[1..], t[1..], v, w);
    }
  }

  function Equal(s: seq<real>, v: real): nat {
    if s == [] then 0 else (if s[0] == v then 1 else 0) + Equal(s[1..], v)
  }

  lemma {:induction false} NotEqual(s: seq<real>, v: real)
    requires v !in s
    ensures Equal(s, v) == 0
  {
    if s != [] {
      NotEqual(s[1..], v);
    }
  }

  lemma {:induction false} OnceEqual(s: seq<real>, i: nat)
    requires Distinct(s) && i < |s|
    ensures Equal(s, s[i]) == 1
  {
    if i == 0 {
      NotEqual(s[1..], s[0]);
    } else {
      OnceEqual(s[1..], i - 1);
    }
  }

  lemma {:induction false} SumOpposed(a: seq<real>, b: seq<real>, top: real)
    requires |a| == |b| && forall i :: 0 <= i < |a| ==> b[i] == top - a[i]
    ensures Sum(b) == |a| as real * top - Sum(a)
  {
    if a != [] {
      SumOpposed(a[..|a| - 1], b[..|b| - 1], top);
    }
  }

  lemma {:induction false} CentredOpposed(a: seq<real>, b: seq<real>, top: real)
    requires |a| == |b| && a != [] && forall i :: 0 <= i < |a| ==> b[i] == top - a[i]
    ensures forall i :: 0 <= i < |a| ==> Centred(b)[i] == -Centred(a)[i]
  {
    hide Sum;
    SumOpposed(a, b, top);
    var n := |a| as real;
    MeanOpposed(n, Sum(a), Sum(b), top);
    forall i | 0 <= i < |a| ensures Centred(b)[i] == -Centred(a)[i] {
      assert Centred(a)[i] == a[i] - Sum(a) / n;
      assert Centred(b)[i] == b[i] - Sum(b) / n;
    }
  }

  lemma {:induction false} MeanOpposed(n: real, sum: real, opposed: real, top: real)
    requires n > 0.0 && opposed == n * top - sum
    ensures opposed / n == top - sum / n
  {
    assert n * (top - sum / n) == opposed;
    Quotient(n, top - sum / n);
  }

  lemma {:induction false} DotOpposed(a: seq<real>, b: seq<real>)
    requires |a| == |b| && forall i :: 0 <= i < |a| ==> b[i] == -a[i]
    ensures Dot(a, b) == -Dot(a, a) && Dot(b, b) == Dot(a, a)
  {
    if a != [] {
      DotOpposed(a[..|a| - 1], b[..|b| - 1]);
    }
  }

  /** The opposite order, without ties, gives rho minus one. */
  lemma {:induction false} OppositeOrderIsPerfect(left: seq<real>, right: seq<real>)
    requires |left| == |right| >= 3 && Distinct(left)
    requires forall i, j :: 0 <= i < |left| && 0 <= j < |left| ==> (left[i] <= left[j] <==> right[j] <= right[i])
    ensures Correlate(left, right).Some?
    ensures var r := Correlate(left, right).value; -r.num == r.dx2 == r.dy2 && r.num < 0.0
  {
    hide Dot, Centred;
    var n, xs, ys := |left|, Ranks(left), Ranks(right);
    RanksOpposed(left, right);
    CentredOpposed(xs, ys, n as real - 1.0);
    DotOpposed(Centred(xs), Centred(ys));
    assert left[0] != left[1] && !Constant(left);
    CorrelationContract(left, left);
  }

  /** With ties the opposite order need not: a tie takes the rank of its last place, from whichever end. */
  lemma {:induction false} TiesSpoilTheMirror()
    ensures var left, right := [1.0, 1.0, 2.0, 3.0], [3.0, 3.0, 2.0, 1.0];
            && (forall i, j :: 0 <= i < 4 && 0 <= j < 4 ==> (left[i] <= left[j] <==> right[j] <= right[i]))
            && Correlate(left, right) == Some(Rho(-4.25, 2.75, 6.75))
            && 4.25 * 4.25 < 2.75 * 6.75
  {
    hide Dot, Centred, Ranks;
    FourRanks([1.0, 1.0, 2.0, 3.0]);
    FourRanks([3.0, 3.0, 2.0, 1.0]);
    var xs, ys := [1.0, 1.0, 2.0, 3.0], [3.0, 3.0, 1.0, 0.0];
    assert Ranks([1.0, 1.0, 2.0, 3.0]) == xs && Ranks([3.0, 3.0, 2.0, 1.0]) == ys;
    FourCentred(xs);
    FourCentred(ys);
    FourDot(Centred(xs), Centred(ys));
    FourDot(Centred(xs), Centred(xs));
    FourDot(Centred(ys), Centred(ys));
  }

  lemma {:induction false} FourRanks(s: seq<real>)
    requires |s| == 4
    ensures forall i :: 0 <= i < 4 ==> Ranks(s)[i] == (CountAtMost(s, s[i]) - 1) as real
  {
    AllRanked(s);
    forall i | 0 <= i < 4 ensures AtMost(s, s[i]) == CountAtMost(s, s[i]) {
      FourAtMost(s[0], s[1], s[2], s[3], s[i]);
      assert s == [s[0], s[1], s[2], s[3]];
    }
  }

  function CountAtMost(s: seq<real>, v: real): int
    requires |s| == 4
  {
    (if s[0] <= v then 1 else 0) + (if s[1] <= v then 1 else 0) + (if s[2] <= v then 1 else 0)
    + (if s[3] <= v then 1 else 0)
  }

  lemma {:induction false} FourCentred(s: seq<real>)
    requires |s| == 4
    ensures var mean := (s[0] + s[1] + s[2] + s[3]) / 4.0;
            Centred(s) == [s[0] - mean, s[1] - mean, s[2] - mean, s[3] - mean]
  {
    hide Sum;
    FourSum(s[0], s[1], s[2], s[3]);
    assert s == [s[0], s[1], s[2], s[3]];
  }

  lemma {:induction false} FourAtMost(a: real, b: real, c: real, d: real, v: real)
    ensures AtMost([a, b, c, d], v)
            == (if a <= v then 1 else 0) + (if b <= v then 1 else 0) + (if c <= v then 1 else 0)
               + if d <= v then 1 else 0
  {
    assert [a, b, c, d][1..] == [b, c, d] && [b, c, d][1..] == [c, d] && [c, d][1..] == [d] && [d][1..] == [];
    assert AtMost([d], v) == if d <= v then 1 else 0;
    assert AtMost([c, d], v) == (if c <= v then 1 else 0) + AtMost([d], v);
    assert AtMost([b, c, d], v) == (if b <= v then 1 else 0) + AtMost([c, d], v);
  }

  lemma {:induction false} FourSum(a: real, b: real, c: real, d: real)
    ensures Sum([a, b, c, d]) == a + b + c + d
  {
    SumSnoc([], [a], a);
    SumSnoc([a], [a, b], b);
    SumSnoc([a, b], [a, b, c], c);
    SumSnoc([a, b, c], [a, b, c, d], d);
  }

  lemma {:induction false} FourDot(x: seq<real>, y: seq<real>)
    requires |x| == |y| == 4
    ensures Dot(x, y) == x[0] * y[0] + x[1] * y[1] + x[2] * y[2] + x[3] * y[3]
  {
    DotSnoc(x[..3], y[..3], x, y);
    DotSnoc(x[..2], y[..2], x[..3], y[..3]);
    DotSnoc(x[..1], y[..1], x[..2], y[..2]);
    DotSnoc([], [], x[..1], y[..1]);
  }

  lemma {:induction false} DotSnoc(a: seq<real>, b: seq<real>, x: seq<real>, y: seq<real>)
    requires |a| == |b| && |x| == |y| == |a| + 1 && x[..|a|] == a && y[..|a|] == b
    ensures Dot(x, y) == Dot(a, b) + x[|a|] * y[|a|]
  {
  }

  lemma {:induction false} RanksOpposed(left: seq<real>, right: seq<real>)
    requires |left| == |right| && Distinct(left)
    requires forall i, j :: 0 <= i < |left| && 0 <= j < |left| ==> (left[i] <= left[j] <==> right[j] <= right[i])
    ensures forall i :: 0 <= i < |left| ==> Ranks(right)[i] == |left| as real - 1.0 - Ranks(left)[i]
  {
    AllRanked(left);
    AllRanked(right);
    forall i, j | 0 <= i < j < |right| ensures right[i] != right[j] {
      assert left[i] != left[j];
    }
    forall i | 0 <= i < |left| ensures Ranks(right)[i] == |left| as real - 1.0 - Ranks(left)[i] {
      AtMostOpposed(left, right, left[i], right[i]);
      OnceEqual(right, i);
    }
  }

  // ----- invariances -----

  /** Swapping the inputs swaps the spreads and keeps the numerator. */
  lemma {:induction false} Symmetric(left: seq<real>, right: seq<real>)
    ensures Correlate(right, left)
            == match Correlate(left, right) case None => None case Some(r) => Some(Rho(r.num, r.dy2, r.dx2))
  {
    if |left| >= 3 && |left| == |right| {
      DotCommutes(Centred(Ranks(left)), Centred(Ranks(right)));
    }
  }

  /** The values of `s` under `f`. */
  function Image(s: seq<real>, f: real -> real): (r: seq<real>)
    ensures |r| == |s|
  {
    seq(|s|, i requires 0 <= i < |s| => f(s[i]))
  }

  ghost predicate StrictlyIncreasing(f: real -> real) {
    forall x: real, y: real :: x < y ==> f(x) < f(y)
  }

  lemma {:induction false} AtMostImage(s: seq<real>, f: real -> real, v: real)
    requires StrictlyIncreasing(f)
    ensures AtMost(Image(s, f), f(v)) == AtMost(s, v)
  {
    if s != [] {
      assert Image(s, f)[1..] == Image(s[1..], f);
      AtMostImage(s[1..], f, v);
      assert f(s[0]) <= f(v) <==> s[0] <= v;
    }
  }

  lemma {:induction false} RanksImage(s: seq<real>, f: real -> real)
    requires StrictlyIncreasing(f)
    ensures Ranks(Image(s, f)) == Ranks(s)
  {
    AllRanked(s);
    AllRanked(Image(s, f));
    forall i | 0 <= i < |s| ensures Ranks(Image(s, f))[i] == Ranks(s)[i] {
      AtMostImage(s, f, s[i]);
    }
  }

  /** Any strictly increasing change of scale of either input leaves the correlation as it was. */
  lemma {:induction false} ScaleDoesNotMatter(left: seq<real>, right: seq<real>, f: real -> real, g: real -> real)
    requires StrictlyIncreasing(f) && StrictlyIncreasing(g)
    ensures Correlate(Image(left, f), Image(right, g)) == Correlate(left, right)
  {
    RanksImage(left, f);
    RanksImage(right, g);
  }
}
