/** Request lines and their aggregation by variant (OrderService.aggregateItems). */
module Lines {
  import opened Schema

  /** Total quantity requested of one variant. */
  function QtyOf(lines: seq<Line>, v: VariantId): nat
  {
    if lines == [] then 0
    else
      var last := lines[|lines| - 1];
      QtyOf(lines[..|lines| - 1], v) + if last.variantId == v then last.quantity else 0
  }

  /** The distinct variants, in order of first occurrence: the iteration order of the
      insertion-ordered map the service fills. */
  function Keys(lines: seq<Line>): (ks: seq<VariantId>)
    ensures forall i, j :: 0 <= i < j < |ks| ==> ks[i] != ks[j]
    ensures forall v :: v in ks <==> 1 <= QtyOf(lines, v)
  {
    if lines == [] then []
    else
      var last := lines[|lines| - 1];
      var front := Keys(lines[..|lines| - 1]);
      if last.variantId in front then front else front + [last.variantId]
  }

  /** The value of the aggregated quantities of the given variants, variant by variant. */
  function ValueByKey(ks: seq<VariantId>, lines: seq<Line>, unit: VariantId -> int): int
  {
    if ks == [] then 0
    else
      var last := ks[|ks| - 1];
      ValueByKey(ks[..|ks| - 1], lines, unit) + unit(last) * QtyOf(lines, last)
  }

  /** The value of the raw lines at the given unit amounts, line by line. */
  function ValueOf(lines: seq<Line>, unit: VariantId -> int): int
  {
    if lines == [] then 0
    else
      var last := lines[|lines| - 1];
      ValueOf(lines[..|lines| - 1], unit) + unit(last.variantId) * last.quantity
  }

  /** One more line adds its own value, once, when its variant is among the distinct keys. */
  lemma {:induction false} ValueByKeyExtend(ks: seq<VariantId>, lines: seq<Line>, unit: VariantId -> int)
    requires lines != []
    requires forall i, j :: 0 <= i < j < |ks| ==> ks[i] != ks[j]
    ensures var last := lines[|lines| - 1];
            ValueByKey(ks, lines, unit) == ValueByKey(ks, lines[..|lines| - 1], unit)
                                           + if last.variantId in ks then unit(last.variantId) * last.quantity else 0
  {
    if ks != [] {
      var n, front, last := |ks| - 1, lines[..|lines| - 1], lines[|lines| - 1];
      ValueByKeyExtend(ks[..n], lines, unit);
      assert ks == ks[..n] + [ks[n]];
      UnitExtend(lines, ks[n], unit(ks[n]));
      hide QtyOf;
    }
  }

  /** The value of one variant grows by the last line's when that is its own. */
  lemma {:induction false} UnitExtend(lines: seq<Line>, v: VariantId, u: int)
    requires lines != []
    ensures var last := lines[|lines| - 1];
            u * QtyOf(lines, v)
            == u * QtyOf(lines[..|lines| - 1], v) + if last.variantId == v then u * last.quantity else 0
  {
  }

  /** Variants that are not requested have no value. */
  lemma {:induction false} ValueByKeyAppend(ks: seq<VariantId>, v: VariantId, lines: seq<Line>, unit: VariantId -> int)
    ensures ValueByKey(ks + [v], lines, unit) == ValueByKey(ks, lines, unit) + unit(v) * QtyOf(lines, v)
  {
    assert (ks + [v])[..|ks|] == ks;
  }

  /** Aggregating by variant neither loses nor invents value. */
  lemma {:induction false} AggregationPreservesValue(lines: seq<Line>, unit: VariantId -> int)
    ensures ValueByKey(Keys(lines), lines, unit) == ValueOf(lines, unit)
  {
    if lines != [] {
      var front, last := lines[..|lines| - 1], lines[|lines| - 1];
      AggregationPreservesValue(front, unit);
      ValueByKeyExtend(Keys(front), lines, unit);
      if last.variantId !in Keys(front) {
        ValueByKeyAppend(Keys(front), last.variantId, lines, unit);
        assert QtyOf(lines, last.variantId) == last.quantity;
      }
    }
  }
}
