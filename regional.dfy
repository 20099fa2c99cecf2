/**
 * The regional table of the dashboard: rows (Year_BE, Province, Marriage,
 * Divorce), the region schemes that group provinces into regions, the row
 * filters the sidebar drives, and the KPI totals computed from them.
 */
module Regional {

  import opened Wrappers

  /** The sentinel both the region and the province selector use for "no restriction". */
  const All: string := "ทั้งหมด"

  /** One row of the regional wide table; the year is a Buddhist-era year. */
  datatype Row = Row(year: int, province: string, marriages: nat, divorces: nat)

  /** The two count columns. */
  datatype Field = Marriages | Divorces

  function Count(r: Row, f: Field): nat {
    match f
    case Marriages => r.marriages
    case Divorces => r.divorces
  }

  /**
   * A column sum, `df[f].sum()`; the sum of no rows is 0. It stays a plain
   * recursion over rows rather than an instance of Sorting.SumOf: a field
   * selector keeps the sums first-order, which keeps the filter and grouping
   * proofs cheap, and the counts stay natural numbers.
   */
  function Sum(rows: seq<Row>, f: Field): nat {
    if rows == [] then 0 else Count(rows[0], f) + Sum(rows[1..], f)
  }

  lemma {:induction false} SumConcat(a: seq<Row>, b: seq<Row>, f: Field)
    ensures Sum(a + b, f) == Sum(a, f) + Sum(b, f)
  {
    if a == [] {
      assert a + b == b;
    } else {
      assert (a + b)[1..] == a[1..] + b;
      SumConcat(a[1..], b, f);
    }
  }

  // ---------------------------------------------------------------------------
  // Row selection

  /** The boolean masks the dashboard applies to the regional table. */
  datatype Criterion =
    | Everything
    | Years(lo: int, hi: int)
    | Province(name: string)
    | AnyOf(names: seq<string>)
    | MappedBy(regionOf: map<string, string>)
    | InRegion(regionOf: map<string, string>, region: string)
    | Not(negated: Criterion)
    | Both(first: Criterion, second: Criterion)

  predicate Holds(c: Criterion, r: Row) {
    match c
    case Everything => true
    case Years(lo, hi) => lo <= r.year <= hi
    case Province(p) => r.province == p
    case AnyOf(ps) => r.province in ps
    case MappedBy(m) => r.province in m
    case InRegion(m, region) => r.province in m && m[r.province] == region
    case Not(c') => !Holds(c', r)
    case Both(c1, c2) => Holds(c1, r) && Holds(c2, r)
  }

  /** `df[mask]`: the rows that satisfy c, in their original order. */
  function Filter(rows: seq<Row>, c: Criterion): (kept: seq<Row>)
    ensures |kept| <= |rows|
  {
    if rows == [] then []
    else (if Holds(c, rows[0]) then [rows[0]] else []) + Filter(rows[1..], c)
  }

  /** A row is kept exactly when it is one of the rows and satisfies the mask. */
  lemma {:induction false} FilterMembers(rows: seq<Row>, c: Criterion, x: Row)
    ensures x in Filter(rows, c) <==> x in rows && Holds(c, x)
  {
    if rows != [] {
      FilterMembers(rows[1..], c, x);
      assert rows == [rows[0]] + rows[1..];
    }
  }

  /** Selection keeps the original order: it commutes with concatenation. */
  lemma {:induction false} FilterConcat(a: seq<Row>, b: seq<Row>, c: Criterion)
    ensures Filter(a + b, c) == Filter(a, c) + Filter(b, c)
  {
    if a == [] {
      assert a + b == b;
    } else {
      var head := if Holds(c, a[0]) then [a[0]] else [];
      var ab := a + b;
      assert ab[0] == a[0];
      assert ab[1..] == a[1..] + b;
      FilterConcat(a[1..], b, c);
      calc {
        Filter(ab, c);
        head + Filter(ab[1..], c);
        head + (Filter(a[1..], c) + Filter(b, c));
        { SeqAssoc(head, Filter(a[1..], c), Filter(b, c)); }
        (head + Filter(a[1..], c)) + Filter(b, c);
      }
    }
  }

  lemma SeqAssoc<T>(x: seq<T>, y: seq<T>, z: seq<T>)
    ensures x + (y + z) == (x + y) + z
  {
  }

  /** Filtering in two steps is filtering once by the conjunction. */
  lemma {:induction false} FilterFilter(rows: seq<Row>, c1: Criterion, c2: Criterion)
    ensures Filter(Filter(rows, c1), c2) == Filter(rows, Both(c1, c2))
  {
    if rows != [] {
      FilterFilter(rows[1..], c1, c2);
      var head := if Holds(c1, rows[0]) then [rows[0]] else [];
      FilterConcat(head, Filter(rows[1..], c1), c2);
    }
  }

  /** A mask every row satisfies removes nothing. */
  lemma {:induction false} FilterAllHold(rows: seq<Row>, c: Criterion)
    requires forall i :: 0 <= i < |rows| ==> Holds(c, rows[i])
    ensures Filter(rows, c) == rows
  {
    if rows != [] {
      FilterAllHold(rows[1..], c);
    }
  }

  /** The rows a mask keeps and the rows it drops account for every count. */
  lemma {:induction false} FilterSplit(rows: seq<Row>, c: Criterion, f: Field)
    ensures Sum(Filter(rows, c), f) + Sum(Filter(rows, Not(c)), f) == Sum(rows, f)
  {
    if rows != [] {
      FilterSplit(rows[1..], c, f);
      var kept := if Holds(c, rows[0]) then [rows[0]] else [];
      var dropped := if Holds(c, rows[0]) then [] else [rows[0]];
      SumConcat(kept, Filter(rows[1..], c), f);
      SumConcat(dropped, Filter(rows[1..], Not(c)), f);
    }
  }

  // ---------------------------------------------------------------------------
  // Region schemes

  /**
   * One scheme of REGION_SCHEMES: region names with their province lists, in
   * dictionary order. The type allows a name twice, which a dict does not;
   * RegionsDistinct states the dictionary's property where it is needed.
   */
  type Scheme = seq<(string, seq<string>)>

  ghost predicate RegionsDistinct(scheme: Scheme) {
    forall i, j :: 0 <= i < j < |scheme| ==> scheme[i].0 != scheme[j].0
  }

  /** `scheme[region]`; None where Python raises KeyError. Dictionary keys are distinct, so the first match is the match. */
  function Lookup(scheme: Scheme, region: string): (r: Option<seq<string>>)
    ensures r.None? <==> forall i :: 0 <= i < |scheme| ==> scheme[i].0 != region
    ensures r.Some? ==>
      exists i :: 0 <= i < |scheme| && scheme[i] == (region, r.value) && forall j :: 0 <= j < i ==> scheme[j].0 != region
  {
    if scheme == [] then None
    else if scheme[0].0 == region then Some(scheme[0].1)
    else
      var r := Lookup(scheme[1..], region);
      assert r.Some? ==> exists i :: 0 <= i < |scheme[1..]| && scheme[1..][i] == (region, r.value) && forall j :: 0 <= j < i ==> scheme[1..][j].0 != region;
      assert forall i :: 1 <= i < |scheme| ==> scheme[i] == scheme[1..][i - 1];
      r
  }

  /** In a scheme with distinct region names, looking up a region gives its own province list. */
  lemma LookupOwn(scheme: Scheme, i: int)
    requires RegionsDistinct(scheme) && 0 <= i < |scheme|
    ensures Lookup(scheme, scheme[i].0) == Some(scheme[i].1)
  {
    var r := Lookup(scheme, scheme[i].0);
    assert r.Some?;
    var k :| 0 <= k < |scheme| && scheme[k] == (scheme[i].0, r.value) && forall j :: 0 <= j < k ==> scheme[j].0 != scheme[i].0;
    assert scheme[k].0 == scheme[i].0;
  }

  /** p is listed under some region of the scheme. */
  ghost predicate Listed(scheme: Scheme, p: string) {
    exists i :: 0 <= i < |scheme| && p in scheme[i].1
  }

  /** One pass of the inner loop: every province of ps is (re)assigned to region, left to right. */
  function Assign(m: map<string, string>, ps: seq<string>, region: string): map<string, string>
    decreases |ps|
  {
    if ps == [] then m else Assign(m[ps[0] := region], ps[1..], region)
  }

  lemma {:induction false} AssignAt(m: map<string, string>, ps: seq<string>, region: string, p: string)
    ensures p in Assign(m, ps, region) <==> p in m || p in ps
    ensures p in ps ==> Assign(m, ps, region)[p] == region
    ensures p !in ps && p in m ==> Assign(m, ps, region)[p] == m[p]
    decreases |ps|
  {
    if ps != [] {
      AssignAt(m[ps[0] := region], ps[1..], region, p);
      assert p in ps <==> p == ps[0] || p in ps[1..];
    }
  }

  /** The province-to-region map create_province_to_region_mapping builds from a scheme. */
  function Invert(scheme: Scheme): map<string, string> {
    if scheme == [] then map[]
    else
      var n := |scheme| - 1;
      Assign(Invert(scheme[..n]), scheme[n].1, scheme[n].0)
  }

  /** The map's keys are exactly the provinces listed anywhere in the scheme. */
  lemma {:induction false} InvertKeys(scheme: Scheme, p: string)
    ensures p in Invert(scheme) <==> Listed(scheme, p)
  {
    if scheme != [] {
      var n := |scheme| - 1;
      InvertKeys(scheme[..n], p);
      AssignAt(Invert(scheme[..n]), scheme[n].1, scheme[n].0, p);
      assert forall i :: 0 <= i < n ==> scheme[..n][i] == scheme[i];
      if Listed(scheme, p) && p !in scheme[n].1 {
        var i :| 0 <= i < |scheme| && p in scheme[i].1;
        assert scheme[..n][i] == scheme[i];
      }
    }
  }

  /**
   * A province is mapped to a region that lists it, and to the last such
   * region in dictionary order, because the filling loop reassigns.
   */
  lemma {:induction false} InvertLastWins(scheme: Scheme, p: string)
    requires p in Invert(scheme)
    ensures exists i ::
              0 <= i < |scheme| && p in scheme[i].1 && Invert(scheme)[p] == scheme[i].0 &&
              forall j :: i < j < |scheme| ==> p !in scheme[j].1
  {
    assert scheme != [];
    var n := |scheme| - 1;
    var front := Invert(scheme[..n]);
    assert Invert(scheme) == Assign(front, scheme[n].1, scheme[n].0);
    AssignAt(front, scheme[n].1, scheme[n].0, p);
    if p in scheme[n].1 {
      assert Invert(scheme)[p] == scheme[n].0;
    } else {
      assert p in front;
      InvertLastWins(scheme[..n], p);
      var i :| 0 <= i < n && p in scheme[..n][i].1 && front[p] == scheme[..n][i].0 &&
        forall j :: i < j < n ==> p !in scheme[..n][j].1;
      assert scheme[..n][i] == scheme[i];
      assert Invert(scheme)[p] == scheme[i].0;
      assert forall j :: i < j < n ==> scheme[..n][j] == scheme[j];
      assert forall j :: i < j < |scheme| ==> p !in scheme[j].1;
    }
  }

  /** create_province_to_region_mapping: fills the map region by region, province by province. */
  method ProvinceToRegion(scheme: Scheme) returns (m: map<string, string>)
    ensures m == Invert(scheme)
  {
    m := map[];
    var i := 0;
    while i < |scheme|
      invariant 0 <= i <= |scheme|
      invariant m == Invert(scheme[..i])
    {
      var (region, provinces) := scheme[i];
      assert scheme[..i + 1][..i] == scheme[..i];
      var j := 0;
      while j < |provinces|
        invariant 0 <= j <= |provinces|
        invariant Assign(m, provinces[j..], region) == Invert(scheme[..i + 1])
      {
        assert provinces[j..][1..] == provinces[j + 1..];
        m := m[provinces[j] := region];
        j := j + 1;
      }
      i := i + 1;
    }
    assert scheme[..i] == scheme;
  }

  // ---------------------------------------------------------------------------
  // KPI totals

  /** calculate_divorce_rate: divorces per 100 marriages, 0 when there are no marriages. */
  function DivorceRate(marriages: int, divorces: int): (rate: real)
    ensures marriages <= 0 ==> rate == 0.0
    ensures marriages > 0 ==> rate * (marriages as real) == (divorces as real) * 100.0
    ensures marriages >= 0 && divorces >= 0 ==> rate >= 0.0
  {
    if marriages > 0 then divorces as real / marriages as real * 100.0 else 0.0
  }

  /** With marriages present the rate exceeds 100 exactly when divorces exceed marriages. */
  lemma DivorceRateAtMost100(marriages: int, divorces: int)
    requires marriages > 0
    ensures DivorceRate(marriages, divorces) <= 100.0 <==> divorces <= marriages
  {
    var m, d := marriages as real, divorces as real;
    var rate := DivorceRate(marriages, divorces);
    assert (rate - 100.0) * m == (d - m) * 100.0;
    if rate > 100.0 {
      MulPositive(rate - 100.0, m);
    } else {
      MulPositive(m, 100.0 - rate);
    }
  }

  /** The sign of a product of non-negative reals. */
  lemma MulPositive(x: real, y: real)
    requires x >= 0.0 && y >= 0.0
    ensures x * y >= 0.0 && (x > 0.0 && y > 0.0 ==> x * y > 0.0)
  {
  }

  datatype Kpis = Kpis(marriages: nat, divorces: nat, divorceRate: real)

  /** The three KPI cards: total marriages, total divorces and the guarded divorce rate. */
  function KpiTotals(rows: seq<Row>): (k: Kpis)
    ensures k.marriages == Sum(rows, Marriages) && k.divorces == Sum(rows, Divorces)
    ensures k.divorceRate >= 0.0
    ensures k.marriages == 0 ==> k.divorceRate == 0.0
    ensures k.marriages > 0 ==> k.divorceRate * (k.marriages as real) == (k.divorces as real) * 100.0
  {
    var m := Sum(rows, Marriages);
    var d := Sum(rows, Divorces);
    Kpis(m, d, DivorceRate(m, d))
  }

  // ---------------------------------------------------------------------------
  // Sidebar filter

  /** The second filter stage: a chosen province wins over a chosen region; None for an unknown region. */
  function Selection(scheme: Scheme, region: string, province: string): Option<Criterion> {
    if province != All then Some(Province(province))
    else if region != All then
      match Lookup(scheme, region)
      case None => None
      case Some(members) => Some(AnyOf(members))
    else Some(Everything)
  }

  /**
   * The sidebar filter: restrict to the year range, then to the province or
   * else the region. None for a table without the year column (the year mask
   * raises there) and for an unknown region (KeyError).
   */
  method FilterRegional(rows: seq<Row>, hasYearColumn: bool, lo: int, hi: int, scheme: Scheme, region: string, province: string)
    returns (filtered: Option<seq<Row>>)
    ensures filtered == if !hasYearColumn then None else
                        match Selection(scheme, region, province)
                        case None => None
                        case Some(c) => Some(Filter(rows, Both(Years(lo, hi), c)))
    ensures filtered.None? <==> !hasYearColumn || (province == All && region != All && Lookup(scheme, region).None?)
    ensures hasYearColumn && province != All ==>
      filtered.Some? && forall x :: x in filtered.value <==> x in rows && lo <= x.year <= hi && x.province == province
    ensures hasYearColumn && province == All && region != All && Lookup(scheme, region).Some? ==>
      filtered.Some? && forall x :: x in filtered.value <==>
        x in rows && lo <= x.year <= hi && x.province in Lookup(scheme, region).value
    ensures hasYearColumn && province == All && region == All ==> filtered == Some(Filter(rows, Years(lo, hi)))
  {
    if !hasYearColumn {
      return None;
    }
    var kept := Filter(rows, Years(lo, hi));
    if province != All {
      FilterFilter(rows, Years(lo, hi), Province(province));
      kept := Filter(kept, Province(province));
      forall x ensures x in kept <==> x in rows && lo <= x.year <= hi && x.province == province {
        FilterMembers(rows, Both(Years(lo, hi), Province(province)), x);
      }
    } else if region != All {
      match Lookup(scheme, region)
      case None =>
        return None;
      case Some(members) =>
        FilterFilter(rows, Years(lo, hi), AnyOf(members));
        kept := Filter(kept, AnyOf(members));
        forall x ensures x in kept <==> x in rows && lo <= x.year <= hi && x.province in members {
          FilterMembers(rows, Both(Years(lo, hi), AnyOf(members)), x);
        }
    } else {
      FilterFilter(rows, Years(lo, hi), Everything);
      FilterAllHold(kept, Everything);
    }
    return Some(kept);
  }
}
