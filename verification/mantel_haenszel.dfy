/** The Mantel-Haenszel common odds ratio of Holland and Thayer (1988) and the
    ETS delta-MH scale, over the 2x2 tables of one item across score strata. */
module MantelHaenszel {
  import opened Wrappers

  /** One stratum's table: reference correct (A) and incorrect (B), focal
      correct (C) and incorrect (D). */
  datatype Cell = Cell(a: nat, b: nat, c: nat, d: nat)

  function Size(t: Cell): nat
  {
    t.a + t.b + t.c + t.d
  }

  /** A*D/N, or nothing for an empty stratum. */
  function NumTerm(t: Cell): real
  {
    if Size(t) == 0 then 0.0 else (t.a * t.d) as real / Size(t) as real
  }

  /** B*C/N, or nothing for an empty stratum. */
  function DenTerm(t: Cell): real
  {
    if Size(t) == 0 then 0.0 else (t.b * t.c) as real / Size(t) as real
  }

  function Sum(xs: seq<real>): real
  {
    if xs == [] then 0.0 else Sum(xs[..|xs| - 1]) + xs[|xs| - 1]
  }

  lemma {:induction false} SumNonNegative(xs: seq<real>)
    requires forall i :: 0 <= i < |xs| ==> xs[i] >= 0.0
    ensures Sum(xs) >= 0.0
  {
    if xs != [] {
      SumNonNegative(xs[..|xs| - 1]);
    }
  }

  function NumTerms(ts: seq<Cell>): (r: seq<real>)
    ensures |r| == |ts| && forall i :: 0 <= i < |ts| ==> r[i] == NumTerm(ts[i])
  {
    seq(|ts|, i requires 0 <= i < |ts| => NumTerm(ts[i]))
  }

  function DenTerms(ts: seq<Cell>): (r: seq<real>)
    ensures |r| == |ts| && forall i :: 0 <= i < |ts| ==> r[i] == DenTerm(ts[i])
  {
    seq(|ts|, i requires 0 <= i < |ts| => DenTerm(ts[i]))
  }

  /** The numerator sum over the strata: sum of A*D/N. */
  function NumSum(ts: seq<Cell>): (r: real)
    ensures r >= 0.0
  {
    SumNonNegative(NumTerms(ts));
    Sum(NumTerms(ts))
  }

  /** The denominator sum over the strata: sum of B*C/N. */
  function DenSum(ts: seq<Cell>): (r: real)
    ensures r >= 0.0
  {
    SumNonNegative(DenTerms(ts));
    Sum(DenTerms(ts))
  }

  /** Extending the strata by one adds that stratum's terms to the sums. */
  lemma SumsStep(ts: seq<Cell>, i: nat)
    requires i < |ts|
    ensures NumSum(ts[..i + 1]) == NumSum(ts[..i]) + NumTerm(ts[i])
    ensures DenSum(ts[..i + 1]) == DenSum(ts[..i]) + DenTerm(ts[i])
  {
    assert NumTerms(ts[..i + 1])[..i] == NumTerms(ts[..i]);
    assert DenTerms(ts[..i + 1])[..i] == DenTerms(ts[..i]);
  }

  /** The loop over an item's strata that accumulates `num` and `den`,
      skipping strata with no responses. */
  method MhSums(strata: seq<Cell>) returns (num: real, den: real)
    ensures num == NumSum(strata) && den == DenSum(strata)
  {
    num, den := 0.0, 0.0;
    var i := 0;
    while i < |strata|
      invariant 0 <= i <= |strata|
      invariant num == NumSum(strata[..i]) && den == DenSum(strata[..i])
    {
      var t := strata[i];
      var n := t.a + t.b + t.c + t.d;
      SumsStep(strata, i);
      if n > 0 {
        num := num + (t.a * t.d) as real / n as real;
        den := den + (t.b * t.c) as real / n as real;
      }
      i := i + 1;
    }
    assert strata[..i] == strata;
  }

  /** One output row: the item, its common odds ratio, its delta-MH value
      and its flag text. */
  datatype Row = Row(itemId: string, alpha: real, delta: real, flag: string)

  /** The ETS delta-MH scale factor and the flag threshold. */
  const DeltaScale: real := -2.35
  const FlagThreshold: real := 1.5
  const FlagText: string := "FLAG"

  function Abs(x: real): real
  {
    if x < 0.0 then -x else x
  }

  /** The row of an item from its sums, or none when either sum is not
      positive. `ln` is the natural logarithm, left abstract. */
  function ItemRow(itemId: string, num: real, den: real, ln: real -> real): (r: Option<Row>)
    ensures r.Some? <==> num > 0.0 && den > 0.0
    ensures r.Some? ==> r.value.itemId == itemId
    ensures r.Some? ==> r.value.alpha > 0.0 && r.value.alpha * den == num
    ensures r.Some? ==> r.value.delta == DeltaScale * ln(r.value.alpha)
    ensures r.Some? ==> (r.value.flag == FlagText <==> Abs(r.value.delta) >= FlagThreshold)
    ensures r.Some? ==> (r.value.flag == "" <==> Abs(r.value.delta) < FlagThreshold)
  {
    if den <= 0.0 || num <= 0.0 then None
    else
      var alpha := num / den;
      var delta := DeltaScale * ln(alpha);
      Some(Row(itemId, alpha, delta, if Abs(delta) >= FlagThreshold then FlagText else ""))
  }

  /** Strata whose odds ratio A*D / (B*C) is the same constant `k`. */
  predicate ConstantOdds(ts: seq<Cell>, k: real)
  {
    forall i :: 0 <= i < |ts| ==> OddsAre(ts[i], k)
  }

  predicate OddsAre(t: Cell, k: real)
  {
    (t.a * t.d) as real == k * (t.b * t.c) as real
  }

  lemma OddsTerm(t: Cell, k: real)
    requires OddsAre(t, k)
    ensures NumTerm(t) == k * DenTerm(t)
  {
    if Size(t) > 0 {
      ScaledQuotient((t.a * t.d) as real, (t.b * t.c) as real, k, Size(t) as real);
    }
  }

  lemma ScaledQuotient(x: real, y: real, k: real, n: real)
    requires n > 0.0 && x == k * y
    ensures x / n == k * (y / n)
  {
    calc {
      k * (y / n);
      (k * y) / n;
    }
  }

  lemma PositiveProduct(x: real, y: real)
    requires x > 0.0 && y > 0.0
    ensures x * y > 0.0
  {
  }

  lemma CancelPositive(x: real, k: real, d: real)
    requires d > 0.0 && x * d == k * d
    ensures x == k
  {
    assert (x - k) * d == 0.0;
  }

  /** Strata that share the odds ratio `k` give sums in that ratio. */
  lemma {:induction false} ConstantOddsSums(ts: seq<Cell>, k: real)
    requires ConstantOdds(ts, k)
    ensures NumSum(ts) == k * DenSum(ts)
  {
    if ts != [] {
      var n := |ts| - 1;
      assert ConstantOdds(ts[..n], k) by {
        forall i | 0 <= i < n ensures OddsAre(ts[..n][i], k) {
          assert ts[..n][i] == ts[i];
        }
      }
      ConstantOddsSums(ts[..n], k);
      OddsTerm(ts[n], k);
      var b, y := DenSum(ts[..n]), DenTerm(ts[n]);
      SumsLast(ts);
      Distribute(k, b, y);
    }
  }

  /** The sums of non-empty strata split off the last stratum. */
  lemma SumsLast(ts: seq<Cell>)
    requires ts != []
    ensures NumSum(ts) == NumSum(ts[..|ts| - 1]) + NumTerm(ts[|ts| - 1])
    ensures DenSum(ts) == DenSum(ts[..|ts| - 1]) + DenTerm(ts[|ts| - 1])
  {
    var n := |ts| - 1;
    assert ts[..n + 1] == ts;
    SumsStep(ts, n);
  }

  lemma Distribute(k: real, x: real, y: real)
    ensures k * (x + y) == k * x + k * y
  {
  }

  /** When every stratum has odds ratio `k`, the common odds ratio is `k`. */
  lemma ConstantOddsAlpha(itemId: string, ts: seq<Cell>, k: real, ln: real -> real)
    requires ConstantOdds(ts, k)
    requires DenSum(ts) > 0.0 && k > 0.0
    ensures ItemRow(itemId, NumSum(ts), DenSum(ts), ln).Some?
    ensures ItemRow(itemId, NumSum(ts), DenSum(ts), ln).value.alpha == k
  {
    ConstantOddsSums(ts, k);
    PositiveProduct(k, DenSum(ts));
    var r := ItemRow(itemId, NumSum(ts), DenSum(ts), ln);
    CancelPositive(r.value.alpha, k, DenSum(ts));
  }

  /** An item that behaves alike in both groups (A*D = B*C in every stratum)
      has odds ratio 1, delta 0 and no flag. */
  lemma NoDifNoFlag(itemId: string, ts: seq<Cell>, ln: real -> real)
    requires ConstantOdds(ts, 1.0)
    requires DenSum(ts) > 0.0
    ensures var r := ItemRow(itemId, NumSum(ts), DenSum(ts), ln);
      r.Some? && r.value.alpha == 1.0 && (ln(1.0) == 0.0 ==> r.value.delta == 0.0 && r.value.flag == "")
  {
    ConstantOddsAlpha(itemId, ts, 1.0, ln);
  }

  /** The same tables with the reference and focal groups exchanged. */
  function SwapGroups(ts: seq<Cell>): (r: seq<Cell>)
    ensures |r| == |ts|
    ensures forall i :: 0 <= i < |ts| ==> r[i] == Cell(ts[i].c, ts[i].d, ts[i].a, ts[i].b)
  {
    if ts == [] then [] else SwapGroups(ts[..|ts| - 1]) + [Cell(ts[|ts| - 1].c, ts[|ts| - 1].d, ts[|ts| - 1].a, ts[|ts| - 1].b)]
  }

  /** Exchanging the groups exchanges the numerator and denominator sums. */
  lemma {:induction false} SwapGroupsSums(ts: seq<Cell>)
    ensures NumSum(SwapGroups(ts)) == DenSum(ts)
    ensures DenSum(SwapGroups(ts)) == NumSum(ts)
  {
    if ts != [] {
      var n := |ts| - 1;
      var s := SwapGroups(ts);
      assert ts[..n + 1] == ts && s[..n + 1] == s;
      assert s[..n] == SwapGroups(ts[..n]);
      SumsStep(ts, n);
      SumsStep(s, n);
      SwapGroupsSums(ts[..n]);
      assert s[n] == Cell(ts[n].c, ts[n].d, ts[n].a, ts[n].b);
      SwapTerms(ts[n]);
    }
  }

  /** Exchanging the groups of one table exchanges its two terms. */
  lemma SwapTerms(t: Cell)
    ensures NumTerm(Cell(t.c, t.d, t.a, t.b)) == DenTerm(t)
    ensures DenTerm(Cell(t.c, t.d, t.a, t.b)) == NumTerm(t)
  {
    assert t.c * t.b == t.b * t.c && t.d * t.a == t.a * t.d;
  }

  lemma ReciprocalQuotients(x: real, y: real)
    requires x > 0.0 && y > 0.0
    ensures (y / x) * (x / y) == 1.0
  {
    calc {
      (y / x) * (x / y);
      (y * x) / (x * y);
      1.0;
    }
  }

  /** Exchanging the groups inverts the odds ratio; with the logarithm law
      ln(1/x) = -ln(x) it negates delta and keeps the flag. */
  lemma SwapGroupsInverts(itemId: string, ts: seq<Cell>, ln: real -> real)
    requires NumSum(ts) > 0.0 && DenSum(ts) > 0.0
    ensures var r := ItemRow(itemId, NumSum(ts), DenSum(ts), ln);
            var s := ItemRow(itemId, NumSum(SwapGroups(ts)), DenSum(SwapGroups(ts)), ln);
      r.Some? && s.Some? && s.value.alpha * r.value.alpha == 1.0
      && (ln(s.value.alpha) == -ln(r.value.alpha) ==> s.value.delta == -r.value.delta && s.value.flag == r.value.flag)
  {
    var s := SwapGroups(ts);
    SwapGroupsSums(ts);
    assert NumSum(s) == DenSum(ts) && DenSum(s) == NumSum(ts);
    ReciprocalRows(itemId, NumSum(ts), DenSum(ts), ln);
  }

  /** The rows of exchanged sums have reciprocal odds ratios. */
  lemma ReciprocalRows(itemId: string, num: real, den: real, ln: real -> real)
    requires num > 0.0 && den > 0.0
    ensures var r := ItemRow(itemId, num, den, ln);
            var s := ItemRow(itemId, den, num, ln);
      r.Some? && s.Some? && s.value.alpha * r.value.alpha == 1.0
      && (ln(s.value.alpha) == -ln(r.value.alpha) ==> s.value.delta == -r.value.delta && s.value.flag == r.value.flag)
  {
    var r := ItemRow(itemId, num, den, ln);
    var s := ItemRow(itemId, den, num, ln);
    assert r.value.alpha == num / den && s.value.alpha == den / num;
    ReciprocalQuotients(num, den);
  }
}
