/** The data of the two rings of the sunburst: the outer season ring, one
    slice per season weighted by its month count, and the inner month ring,
    the season table flattened season by season, one unit-weight slice per
    month. Everything is stated for an arbitrary season table first and then
    instantiated on the static one. */
module Rings {
  import opened BloomTables

  /** A slice of the outer ring. */
  datatype SeasonSlice = SeasonSlice(name: string, value: nat)

  /** A slice of the inner ring: the month, the season that lists it, and its
      weight. */
  datatype MonthSlice = MonthSlice(name: string, season: string, value: nat)

  /** The outer ring: one slice per season, in table order. */
  function SeasonRing(seasons: seq<Season>): (r: seq<SeasonSlice>)
    ensures |r| == |seasons|
    ensures forall k :: 0 <= k < |seasons| ==>
      r[k].name == seasons[k].name && r[k].value == |seasons[k].months|
  {
    seq(|seasons|, k requires 0 <= k < |seasons| => SeasonSlice(seasons[k].name, |seasons[k].months|))
  }

  /** Sum of the weights of a ring of season slices. */
  function Total(ring: seq<SeasonSlice>): nat
  {
    if |ring| == 0 then 0 else ring[0].value + Total(ring[1..])
  }

  /** Number of months listed by a season table. */
  function MonthCount(seasons: seq<Season>): nat
  {
    if |seasons| == 0 then 0 else |seasons[0].months| + MonthCount(seasons[1..])
  }

  /** The slices one season contributes to the month ring. */
  function SeasonMonths(season: Season): (r: seq<MonthSlice>)
    ensures |r| == |season.months|
    ensures forall j :: 0 <= j < |r| ==>
      r[j] == MonthSlice(season.months[j], season.name, 1)
  {
    seq(|season.months|, j requires 0 <= j < |season.months| =>
      MonthSlice(season.months[j], season.name, 1))
  }

  /** The inner ring: the seasons in table order and, within each, its months
      in table order. Every slice weighs 1, and there is one slice per listed
      month. */
  function MonthRing(seasons: seq<Season>): (r: seq<MonthSlice>)
    ensures |r| == MonthCount(seasons)
    ensures forall i :: 0 <= i < |r| ==> r[i].value == 1
  {
    if |seasons| == 0 then [] else SeasonMonths(seasons[0]) + MonthRing(seasons[1..])
  }

  /** Position in the month ring of the first month of season `k`. */
  function Offset(seasons: seq<Season>, k: nat): nat
    requires k <= |seasons|
  {
    MonthCount(seasons[..k])
  }

  /** The season ring's weights add up to the number of month slices. */
  lemma {:induction false} SeasonRingTotal(seasons: seq<Season>)
    ensures Total(SeasonRing(seasons)) == MonthCount(seasons) == |MonthRing(seasons)|
  {
    if |seasons| > 0 {
      SeasonRingTotal(seasons[1..]);
      assert SeasonRing(seasons)[1..] == SeasonRing(seasons[1..]);
    }
  }

  /** Flattening distributes over concatenation of season tables. */
  lemma {:induction false} MonthRingAppend(a: seq<Season>, b: seq<Season>)
    ensures MonthRing(a + b) == MonthRing(a) + MonthRing(b)
  {
    if |a| == 0 {
      assert a + b == b;
    } else {
      assert (a + b)[1..] == a[1..] + b;
      MonthRingAppend(a[1..], b);
    }
  }

  /** Month count of a table prefix grows by one season's months at a time. */
  lemma {:induction false} OffsetStep(seasons: seq<Season>, k: nat)
    requires k < |seasons|
    ensures Offset(seasons, k + 1) == Offset(seasons, k) + |seasons[k].months|
  {
    assert seasons[..k + 1] == seasons[..k] + [seasons[k]];
    MonthRingAppend(seasons[..k], [seasons[k]]);
    assert MonthRing([seasons[k]]) == SeasonMonths(seasons[k]) + MonthRing([]);
  }

  /** Month `j` of season `k` sits at position `Offset(seasons, k) + j` of the
      month ring, carrying its own name, its season's name and weight 1. */
  lemma {:induction false} MonthRingAt(seasons: seq<Season>, k: nat, j: nat)
    requires k < |seasons| && j < |seasons[k].months|
    ensures Offset(seasons, k) + j < |MonthRing(seasons)|
    ensures MonthRing(seasons)[Offset(seasons, k) + j] ==
      MonthSlice(seasons[k].months[j], seasons[k].name, 1)
  {
    assert seasons == seasons[..k] + seasons[k..];
    MonthRingAppend(seasons[..k], seasons[k..]);
    assert seasons[k..][0] == seasons[k];
  }

  /** Every slice of the month ring is some month `j` of some season `k`,
      found at position `Offset(seasons, k) + j`. */
  lemma {:induction false} MonthRingLocate(seasons: seq<Season>, i: nat) returns (k: nat, j: nat)
    requires i < |MonthRing(seasons)|
    ensures k < |seasons| && j < |seasons[k].months|
    ensures Offset(seasons, k) + j == i
    ensures MonthRing(seasons)[i] == MonthSlice(seasons[k].months[j], seasons[k].name, 1)
  {
    var head := |seasons[0].months|;
    if i < head {
      k, j := 0, i;
      assert seasons[..0] == [];
    } else {
      var k', j' := MonthRingLocate(seasons[1..], i - head);
      k, j := k' + 1, j';
      assert seasons[..k][1..] == seasons[1..][..k'];
      assert seasons[..k][0] == seasons[0];
    }
  }

  /** Season order first, month order second: a month of an earlier season,
      or an earlier month of the same season, comes earlier in the ring. */
  lemma {:induction false} MonthRingOrder(seasons: seq<Season>, k: nat, j: nat, k': nat, j': nat)
    requires k < |seasons| && j < |seasons[k].months|
    requires k' < |seasons| && j' < |seasons[k'].months|
    requires k < k' || (k == k' && j < j')
    ensures Offset(seasons, k) + j < Offset(seasons, k') + j'
  {
    if k < k' {
      OffsetMonotone(seasons, k + 1, k');
      OffsetStep(seasons, k);
    }
  }

  /** Offsets never decrease along the table. */
  lemma {:induction false} OffsetMonotone(seasons: seq<Season>, k: nat, k': nat)
    requires k <= k' <= |seasons|
    ensures Offset(seasons, k) <= Offset(seasons, k')
    decreases k' - k
  {
    if k < k' {
      OffsetStep(seasons, k);
      OffsetMonotone(seasons, k + 1, k');
    }
  }

  /** Each month slice names, as its season, a season of the table whose
      month list contains the slice's month. */
  lemma MonthRingBacklink(seasons: seq<Season>, i: nat)
    requires i < |MonthRing(seasons)|
    ensures exists k :: (0 <= k < |seasons| && seasons[k].name == MonthRing(seasons)[i].season &&
                         MonthRing(seasons)[i].name in seasons[k].months)
  {
    var k, j := MonthRingLocate(seasons, i);
  }

  /** When the plant table covers the season table, every month slice's
      plant lookup succeeds; when the colour table covers it, every slice's
      colour lookup succeeds, in both rings. */
  lemma RingLookupsTotal(seasons: seq<Season>, plants: map<string, seq<string>>, colours: map<string, string>)
    requires MonthsHavePlants(seasons, plants)
    requires SeasonsHaveColours(seasons, colours)
    ensures forall i :: 0 <= i < |MonthRing(seasons)| ==>
      MonthRing(seasons)[i].name in plants && MonthRing(seasons)[i].season in colours
    ensures forall k :: 0 <= k < |SeasonRing(seasons)| ==> SeasonRing(seasons)[k].name in colours
  {
    forall i | 0 <= i < |MonthRing(seasons)|
      ensures MonthRing(seasons)[i].name in plants && MonthRing(seasons)[i].season in colours
    {
      var k, j := MonthRingLocate(seasons, i);
    }
  }

  /** The month names of the ring, in ring order.  */
  function Names(ring: seq<MonthSlice>): (r: seq<string>)
    ensures |r| == |ring|
    ensures forall i :: 0 <= i < |ring| ==> r[i] == ring[i].name
  {
    seq(|ring|, i requires 0 <= i < |ring| => ring[i].name)
  }

  /** The month ring's names are the table's months, season by season: the
      ring flattens the same list `AllMonths` describes. */
  lemma {:induction false} MonthRingNames(seasons: seq<Season>)
    ensures Names(MonthRing(seasons)) == AllMonths(seasons)
  {
    if |seasons| > 0 {
      MonthRingNames(seasons[1..]);
      assert Names(MonthRing(seasons)) ==
        Names(SeasonMonths(seasons[0])) + Names(MonthRing(seasons[1..]));
      assert Names(SeasonMonths(seasons[0])) == seasons[0].months;
    }
  }

  /** The month ring built the way the component builds it: a copy of the
      season table walked season by season, each season's month list walked
      month by month, one unit-weight slice pushed per month. */
  method BuildMonthRing(seasons: seq<Season>) returns (monthData: seq<MonthSlice>)
    ensures monthData == MonthRing(seasons)
  {
    monthData := [];
    var k := 0;
    while k < |seasons|
      invariant 0 <= k <= |seasons|
      invariant monthData == MonthRing(seasons[..k])
    {
      var season := seasons[k];
      var j := 0;
      while j < |season.months|
        invariant 0 <= j <= |season.months|
        invariant monthData == MonthRing(seasons[..k]) + SeasonMonths(season)[..j]
      {
        monthData := monthData + [MonthSlice(season.months[j], season.name, 1)];
        j := j + 1;
      }
      assert SeasonMonths(season)[..j] == SeasonMonths(season);
      assert seasons[..k + 1] == seasons[..k] + [season];
      MonthRingAppend(seasons[..k], [season]);
      assert MonthRing([season]) == SeasonMonths(season) + MonthRing([]);
      k := k + 1;
    }
    assert seasons[..k] == seasons;
  }
}
