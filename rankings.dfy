/**
 * The dashboard's rankings over the filtered rows: the top-5 provinces by
 * divorces and by marriages, each region's share of all marriages, and each
 * region's divorce rate. Rows whose province the scheme does not map are
 * dropped before regions are grouped, as `.map(...)` then `dropna` does.
 */
module Rankings {

  import opened Numbers
  import opened Sorting
  import opened Regional
  import opened Grouping

  ghost function ProvincesOf(rows: seq<Row>): set<string> {
    set r | r in rows :: r.province
  }

  /** The regions the mapped rows fall into. */
  ghost function RegionsOf(rows: seq<Row>, regionOf: map<string, string>): set<string> {
    set r | r in rows && r.province in regionOf :: regionOf[r.province]
  }

  /** Every row, labelled with its province. */
  function ProvinceTallies(rows: seq<Row>): seq<Tally> {
    if rows == [] then []
    else [Tally(rows[0].province, rows[0].marriages, rows[0].divorces)] + ProvinceTallies(rows[1..])
  }

  /** `df["Region"] = df.Province.map(regionOf)` then `dropna`: the mapped rows, labelled with their region. */
  function RegionTallies(rows: seq<Row>, regionOf: map<string, string>): seq<Tally> {
    if rows == [] then []
    else
      var r := rows[0];
      (if r.province in regionOf then [Tally(regionOf[r.province], r.marriages, r.divorces)] else [])
      + RegionTallies(rows[1..], regionOf)
  }

  lemma {:induction false} ProvinceSumsAt(rows: seq<Row>, p: string, f: Field)
    ensures SumFor(ProvinceTallies(rows), p, f) == Sum(Filter(rows, Province(p)), f)
  {
    if rows != [] {
      ProvinceSumsAt(rows[1..], p, f);
      var head := if rows[0].province == p then [rows[0]] else [];
      SumConcat(head, Filter(rows[1..], Province(p)), f);
    }
  }

  lemma {:induction false} ProvinceKeys(rows: seq<Row>)
    ensures KeySet(ProvinceTallies(rows)) == ProvincesOf(rows)
  {
    if rows != [] {
      ProvinceKeys(rows[1..]);
      assert rows == [rows[0]] + rows[1..];
      assert KeySet(ProvinceTallies(rows)) == {rows[0].province} + KeySet(ProvinceTallies(rows[1..]));
      assert ProvincesOf(rows) == {rows[0].province} + ProvincesOf(rows[1..]);
    }
  }

  lemma {:induction false} RegionSumsAt(rows: seq<Row>, regionOf: map<string, string>, region: string, f: Field)
    ensures SumFor(RegionTallies(rows, regionOf), region, f) == Sum(Filter(rows, InRegion(regionOf, region)), f)
  {
    if rows != [] {
      var r := rows[0];
      RegionSumsAt(rows[1..], regionOf, region, f);
      var rest := RegionTallies(rows[1..], regionOf);
      var counted := if r.province in regionOf && regionOf[r.province] == region then Count(r, f) else 0;
      if r.province in regionOf {
        var t := Tally(regionOf[r.province], r.marriages, r.divorces);
        assert RegionTallies(rows, regionOf) == [t] + rest;
        assert ([t] + rest)[1..] == rest;
        assert TallyCount(t, f) == Count(r, f);
        assert SumFor(RegionTallies(rows, regionOf), region, f) == counted + SumFor(rest, region, f);
      } else {
        assert [] + rest == rest;
        assert RegionTallies(rows, regionOf) == rest;
      }
      var inRegion := if r.province in regionOf && regionOf[r.province] == region then [r] else [];
      var later := Filter(rows[1..], InRegion(regionOf, region));
      assert Filter(rows, InRegion(regionOf, region)) == inRegion + later;
      SumConcat(inRegion, later, f);
      assert Sum(inRegion, f) == counted;
    }
  }

  /** The labelled rows carry exactly the counts of the mapped rows. */
  lemma {:induction false} RegionTalliesTotal(rows: seq<Row>, regionOf: map<string, string>, f: Field)
    ensures Total(RegionTallies(rows, regionOf), f) == Sum(Filter(rows, MappedBy(regionOf)), f)
  {
    if rows != [] {
      var r := rows[0];
      RegionTalliesTotal(rows[1..], regionOf, f);
      var rest := RegionTallies(rows[1..], regionOf);
      var kept := Filter(rows[1..], MappedBy(regionOf));
      if r.province in regionOf {
        var t := Tally(regionOf[r.province], r.marriages, r.divorces);
        assert RegionTallies(rows, regionOf) == [t] + rest;
        assert ([t] + rest)[1..] == rest;
        assert TallyCount(t, f) == Count(r, f);
        assert Filter(rows, MappedBy(regionOf)) == [r] + kept;
        assert ([r] + kept)[1..] == kept;
      } else {
        assert [] + rest == rest && [] + kept == kept;
        assert RegionTallies(rows, regionOf) == rest;
        assert Filter(rows, MappedBy(regionOf)) == kept;
      }
    }
  }

  lemma {:induction false} RegionKeys(rows: seq<Row>, regionOf: map<string, string>)
    ensures KeySet(RegionTallies(rows, regionOf)) == RegionsOf(rows, regionOf)
  {
    if rows != [] {
      var r := rows[0];
      RegionKeys(rows[1..], regionOf);
      assert rows == [r] + rows[1..];
      var head := if r.province in regionOf then [Tally(regionOf[r.province], r.marriages, r.divorces)] else [];
      assert RegionTallies(rows, regionOf) == head + RegionTallies(rows[1..], regionOf);
      assert KeySet(RegionTallies(rows, regionOf)) == KeySet(head) + KeySet(RegionTallies(rows[1..], regionOf));
      assert RegionsOf(rows, regionOf) ==
        (if r.province in regionOf then {regionOf[r.province]} else {}) + RegionsOf(rows[1..], regionOf);
    }
  }

  /** `groupby("Province").sum()`: one group per province of the rows, with its sums. */
  function ProvinceGroups(rows: seq<Row>): (g: seq<Tally>)
    ensures forall i, j :: 0 <= i < j < |g| ==> g[i].key != g[j].key
    ensures forall p :: (exists i :: 0 <= i < |g| && g[i].key == p) <==> p in ProvincesOf(rows)
    ensures forall i :: 0 <= i < |g| ==>
      && g[i].marriages == Sum(Filter(rows, Province(g[i].key)), Marriages)
      && g[i].divorces == Sum(Filter(rows, Province(g[i].key)), Divorces)
  {
    ProvinceKeys(rows);
    var g := GroupBy(ProvinceTallies(rows));
    assert forall i :: 0 <= i < |g| ==>
      && g[i].marriages == Sum(Filter(rows, Province(g[i].key)), Marriages)
      && g[i].divorces == Sum(Filter(rows, Province(g[i].key)), Divorces) by {
      forall i | 0 <= i < |g|
        ensures && g[i].marriages == Sum(Filter(rows, Province(g[i].key)), Marriages)
                && g[i].divorces == Sum(Filter(rows, Province(g[i].key)), Divorces)
      {
        ProvinceSumsAt(rows, g[i].key, Marriages);
        ProvinceSumsAt(rows, g[i].key, Divorces);
      }
    }
    g
  }

  /**
   * `groupby("Region").agg(Marriage=sum, Divorce=sum)` over the mapped rows:
   * one group per region they fall into, with the region's sums; the group
   * sums add up to the sums over all mapped rows.
   */
  function RegionGroups(rows: seq<Row>, regionOf: map<string, string>): (g: seq<Tally>)
    ensures forall i, j :: 0 <= i < j < |g| ==> g[i].key != g[j].key
    ensures forall region :: (exists i :: 0 <= i < |g| && g[i].key == region) <==> region in RegionsOf(rows, regionOf)
    ensures forall i :: 0 <= i < |g| ==>
      && g[i].marriages == Sum(Filter(rows, InRegion(regionOf, g[i].key)), Marriages)
      && g[i].divorces == Sum(Filter(rows, InRegion(regionOf, g[i].key)), Divorces)
    ensures Total(g, Marriages) == Sum(Filter(rows, MappedBy(regionOf)), Marriages)
    ensures Total(g, Divorces) == Sum(Filter(rows, MappedBy(regionOf)), Divorces)
  {
    var tallies := RegionTallies(rows, regionOf);
    RegionKeys(rows, regionOf);
    GroupByTotal(tallies, Marriages);
    GroupByTotal(tallies, Divorces);
    RegionTalliesTotal(rows, regionOf, Marriages);
    RegionTalliesTotal(rows, regionOf, Divorces);
    var g := GroupBy(tallies);
    assert forall i :: 0 <= i < |g| ==>
      && g[i].marriages == Sum(Filter(rows, InRegion(regionOf, g[i].key)), Marriages)
      && g[i].divorces == Sum(Filter(rows, InRegion(regionOf, g[i].key)), Divorces) by {
      forall i | 0 <= i < |g|
        ensures && g[i].marriages == Sum(Filter(rows, InRegion(regionOf, g[i].key)), Marriages)
                && g[i].divorces == Sum(Filter(rows, InRegion(regionOf, g[i].key)), Divorces)
      {
        RegionSumsAt(rows, regionOf, g[i].key, Marriages);
        RegionSumsAt(rows, regionOf, g[i].key, Divorces);
      }
    }
    g
  }

  // ---------------------------------------------------------------------------
  // Top-5 provinces

  /** The number of provinces the pie charts show. */
  const TopCount: nat := 5

  /** One province with its summed count. */
  datatype Ranked = Ranked(province: string, total: nat)

  function RankedKey(x: Ranked): Num {
    Finite(x.total as real)
  }

  function Project(g: seq<Tally>, f: Field): (r: seq<Ranked>)
    ensures |r| == |g|
    ensures forall i :: 0 <= i < |r| ==> r[i] == Ranked(g[i].key, TallyCount(g[i], f))
  {
    if g == [] then [] else [Ranked(g[0].key, TallyCount(g[0], f))] + Project(g[1..], f)
  }

  function ProvinceOf(x: Ranked): string {
    x.province
  }

  /** What sorting keeps of a per-province projection: labels, values and coverage. */
  lemma SortedRankingFacts(rows: seq<Row>, f: Field, projected: seq<Ranked>, sorted: seq<Ranked>)
    requires multiset(sorted) == multiset(projected)
    requires SortedDesc(sorted, RankedKey)
    requires forall i, j :: 0 <= i < j < |projected| ==> projected[i].province != projected[j].province
    requires forall k :: 0 <= k < |projected| ==>
      projected[k].province in ProvincesOf(rows) && projected[k].total == Sum(Filter(rows, Province(projected[k].province)), f)
    requires forall p :: p in ProvincesOf(rows) ==> exists k :: 0 <= k < |projected| && projected[k].province == p
    ensures forall i, j :: 0 <= i < j < |sorted| ==> sorted[i].province != sorted[j].province
    ensures forall i :: 0 <= i < |sorted| ==>
      sorted[i].province in ProvincesOf(rows) && sorted[i].total == Sum(Filter(rows, Province(sorted[i].province)), f)
    ensures forall p :: p in ProvincesOf(rows) ==> exists i :: 0 <= i < |sorted| && sorted[i].province == p
    ensures forall i, j :: 0 <= i < j < |sorted| ==> sorted[i].total >= sorted[j].total
  {
    LabelsStayDistinct(projected, sorted, ProvinceOf);
    SameElements(projected, sorted);
    forall i | 0 <= i < |sorted|
      ensures sorted[i].province in ProvincesOf(rows) && sorted[i].total == Sum(Filter(rows, Province(sorted[i].province)), f)
    {
      assert sorted[i] in projected;
    }
    forall p | p in ProvincesOf(rows) ensures exists i :: 0 <= i < |sorted| && sorted[i].province == p {
      var k :| 0 <= k < |projected| && projected[k].province == p;
      assert projected[k] in sorted;
    }
    forall i, j | 0 <= i < j < |sorted| ensures sorted[i].total >= sorted[j].total {
      assert AtLeast(RankedKey(sorted[i]), RankedKey(sorted[j]));
    }
  }

  /** The per-province projection of the province groups, before sorting. */
  lemma ProjectedFacts(rows: seq<Row>, f: Field, groups: seq<Tally>)
    requires groups == ProvinceGroups(rows)
    ensures var projected := Project(groups, f);
      && (forall i, j :: 0 <= i < j < |projected| ==> projected[i].province != projected[j].province)
      && (forall k :: 0 <= k < |projected| ==>
            projected[k].province in ProvincesOf(rows) && projected[k].total == Sum(Filter(rows, Province(projected[k].province)), f))
      && (forall p :: p in ProvincesOf(rows) ==> exists k :: 0 <= k < |projected| && projected[k].province == p)
  {
    var projected := Project(groups, f);
    forall k | 0 <= k < |projected|
      ensures projected[k].province in ProvincesOf(rows)
      ensures projected[k].total == Sum(Filter(rows, Province(projected[k].province)), f)
    {
      assert projected[k] == Ranked(groups[k].key, TallyCount(groups[k], f));
      assert exists i :: 0 <= i < |groups| && groups[i].key == projected[k].province;
      assert TallyCount(groups[k], f) == if f == Marriages then groups[k].marriages else groups[k].divorces;
    }
    ProjectedCoverage(groups, f, ProvincesOf(rows), projected);
  }

  lemma ProjectedCoverage(groups: seq<Tally>, f: Field, keys: set<string>, projected: seq<Ranked>)
    requires projected == Project(groups, f)
    requires forall p :: p in keys ==> exists i :: 0 <= i < |groups| && groups[i].key == p
    ensures forall p :: p in keys ==> exists k :: 0 <= k < |projected| && projected[k].province == p
  {
    forall p | p in keys ensures exists k :: 0 <= k < |projected| && projected[k].province == p {
      var k :| 0 <= k < |groups| && groups[k].key == p;
      assert projected[k].province == p;
    }
  }

  /**
   * `groupby("Province")[f].sum().sort_values(ascending=False)`: one entry
   * per province of the rows, holding its summed count, largest first.
   */
  function ProvinceRanking(rows: seq<Row>, f: Field): (ranked: seq<Ranked>)
    ensures forall i, j :: 0 <= i < j < |ranked| ==> ranked[i].province != ranked[j].province
    ensures forall i :: 0 <= i < |ranked| ==>
      ranked[i].province in ProvincesOf(rows) && ranked[i].total == Sum(Filter(rows, Province(ranked[i].province)), f)
    ensures forall p :: p in ProvincesOf(rows) ==> exists i :: 0 <= i < |ranked| && ranked[i].province == p
    ensures forall i, j :: 0 <= i < j < |ranked| ==> ranked[i].total >= ranked[j].total
  {
    var groups := ProvinceGroups(rows);
    var projected := Project(groups, f);
    var sorted := SortDesc(projected, RankedKey);
    ProjectedFacts(rows, f, groups);
    SortedRankingFacts(rows, f, projected, sorted);
    sorted
  }

  /** What `head(n)` keeps of a descending per-province ranking. */
  lemma HeadFacts(rows: seq<Row>, f: Field, ranked: seq<Ranked>, top: seq<Ranked>)
    requires |top| == if |ranked| < TopCount then |ranked| else TopCount
    requires top == ranked[..|top|]
    requires forall i, j :: 0 <= i < j < |ranked| ==> ranked[i].province != ranked[j].province
    requires forall i :: 0 <= i < |ranked| ==>
      ranked[i].province in ProvincesOf(rows) && ranked[i].total == Sum(Filter(rows, Province(ranked[i].province)), f)
    requires forall p :: p in ProvincesOf(rows) ==> exists i :: 0 <= i < |ranked| && ranked[i].province == p
    requires forall i, j :: 0 <= i < j < |ranked| ==> ranked[i].total >= ranked[j].total
    ensures forall i, j :: 0 <= i < j < |top| ==> top[i].province != top[j].province
    ensures forall i :: 0 <= i < |top| ==>
      top[i].province in ProvincesOf(rows) && top[i].total == Sum(Filter(rows, Province(top[i].province)), f)
    ensures forall i, j :: 0 <= i < j < |top| ==> top[i].total >= top[j].total
    ensures |top| < TopCount ==> forall p :: p in ProvincesOf(rows) ==> exists i :: 0 <= i < |top| && top[i].province == p
    ensures forall p :: p in ProvincesOf(rows) && (forall i :: 0 <= i < |top| ==> top[i].province != p) ==>
      0 < |top| && Sum(Filter(rows, Province(p)), f) <= top[|top| - 1].total
  {
    var n := |top|;
    assert forall i :: 0 <= i < n ==> top[i] == ranked[i];
    if n < TopCount {
      assert top == ranked;
    }
    forall p | p in ProvincesOf(rows) && (forall i :: 0 <= i < n ==> top[i].province != p)
      ensures 0 < n && Sum(Filter(rows, Province(p)), f) <= top[n - 1].total
    {
      assert forall i :: 0 <= i < n ==> ranked[i].province != p by {
        forall i | 0 <= i < n ensures ranked[i].province != p {
          assert top[i] == ranked[i];
        }
      }
      var j :| 0 <= j < |ranked| && ranked[j].province == p;
      assert ranked[n - 1].total >= ranked[j].total;
    }
  }

  /** `... .head(5)`: the top-5 provinces by one count column. */
  function TopProvinces(rows: seq<Row>, f: Field): (top: seq<Ranked>)
    ensures |top| <= TopCount
    ensures forall i, j :: 0 <= i < j < |top| ==> top[i].province != top[j].province
    ensures forall i :: 0 <= i < |top| ==>
      top[i].province in ProvincesOf(rows) && top[i].total == Sum(Filter(rows, Province(top[i].province)), f)
    ensures forall i, j :: 0 <= i < j < |top| ==> top[i].total >= top[j].total
    ensures |top| < TopCount ==> forall p :: p in ProvincesOf(rows) ==> exists i :: 0 <= i < |top| && top[i].province == p
    ensures forall p :: p in ProvincesOf(rows) && (forall i :: 0 <= i < |top| ==> top[i].province != p) ==>
      0 < |top| && Sum(Filter(rows, Province(p)), f) <= top[|top| - 1].total
  {
    var ranked := ProvinceRanking(rows, f);
    var n := if |ranked| < TopCount then |ranked| else TopCount;
    var top := ranked[..n];
    HeadFacts(rows, f, ranked, top);
    top
  }

  // ---------------------------------------------------------------------------
  // Region rankings

  /** One region of the divorce-rate ranking. */
  datatype RegionRate = RegionRate(region: string, marriages: nat, divorces: nat, rate: Num)

  function RateKey(x: RegionRate): Num {
    x.rate
  }

  function RateRegion(x: RegionRate): string {
    x.region
  }

  /** `df["Divorce_Rate"] = df["Divorce"] / df["Marriage"] * 100`, unguarded. */
  function WithRates(g: seq<Tally>): (r: seq<RegionRate>)
    ensures |r| == |g|
    ensures forall i :: 0 <= i < |r| ==>
      r[i] == RegionRate(g[i].key, g[i].marriages, g[i].divorces, Percent(g[i].divorces, g[i].marriages))
  {
    if g == [] then []
    else [RegionRate(g[0].key, g[0].marriages, g[0].divorces, Percent(g[0].divorces, g[0].marriages))] + WithRates(g[1..])
  }

  /** The rates of the region groups, before sorting. */
  lemma RatesOfGroups(rows: seq<Row>, regionOf: map<string, string>, groups: seq<Tally>, rated: seq<RegionRate>)
    requires groups == RegionGroups(rows, regionOf) && rated == WithRates(groups)
    ensures forall i, j :: 0 <= i < j < |rated| ==> rated[i].region != rated[j].region
    ensures forall k :: 0 <= k < |rated| ==>
      && rated[k].region in RegionsOf(rows, regionOf)
      && rated[k].marriages == Sum(Filter(rows, InRegion(regionOf, rated[k].region)), Marriages)
      && rated[k].divorces == Sum(Filter(rows, InRegion(regionOf, rated[k].region)), Divorces)
      && rated[k].rate == Percent(rated[k].divorces, rated[k].marriages)
    ensures forall region :: region in RegionsOf(rows, regionOf) ==> exists k :: 0 <= k < |rated| && rated[k].region == region
  {
    forall k | 0 <= k < |rated|
      ensures rated[k].region in RegionsOf(rows, regionOf)
      ensures rated[k].marriages == Sum(Filter(rows, InRegion(regionOf, rated[k].region)), Marriages)
      ensures rated[k].divorces == Sum(Filter(rows, InRegion(regionOf, rated[k].region)), Divorces)
      ensures rated[k].rate == Percent(rated[k].divorces, rated[k].marriages)
    {
      assert rated[k].region == groups[k].key;
      assert exists i :: 0 <= i < |groups| && groups[i].key == rated[k].region;
    }
    forall region | region in RegionsOf(rows, regionOf) ensures exists k :: 0 <= k < |rated| && rated[k].region == region {
      var k :| 0 <= k < |groups| && groups[k].key == region;
      assert rated[k].region == region;
    }
  }

  /** What sorting keeps of the per-region rates: labels, values and coverage. */
  lemma SortedRateFacts(rows: seq<Row>, regionOf: map<string, string>, rated: seq<RegionRate>, sorted: seq<RegionRate>)
    requires multiset(sorted) == multiset(rated)
    requires forall i, j :: 0 <= i < j < |rated| ==> rated[i].region != rated[j].region
    requires forall k :: 0 <= k < |rated| ==>
      && rated[k].region in RegionsOf(rows, regionOf)
      && rated[k].marriages == Sum(Filter(rows, InRegion(regionOf, rated[k].region)), Marriages)
      && rated[k].divorces == Sum(Filter(rows, InRegion(regionOf, rated[k].region)), Divorces)
      && rated[k].rate == Percent(rated[k].divorces, rated[k].marriages)
    requires forall region :: region in RegionsOf(rows, regionOf) ==> exists k :: 0 <= k < |rated| && rated[k].region == region
    ensures forall i, j :: 0 <= i < j < |sorted| ==> sorted[i].region != sorted[j].region
    ensures forall region :: (exists i :: 0 <= i < |sorted| && sorted[i].region == region) <==> region in RegionsOf(rows, regionOf)
    ensures forall i :: 0 <= i < |sorted| ==>
      && sorted[i].marriages == Sum(Filter(rows, InRegion(regionOf, sorted[i].region)), Marriages)
      && sorted[i].divorces == Sum(Filter(rows, InRegion(regionOf, sorted[i].region)), Divorces)
      && sorted[i].rate == Percent(sorted[i].divorces, sorted[i].marriages)
  {
    LabelsStayDistinct(rated, sorted, RateRegion);
    SameElements(rated, sorted);
    forall i | 0 <= i < |sorted|
      ensures sorted[i].region in RegionsOf(rows, regionOf)
      ensures sorted[i].marriages == Sum(Filter(rows, InRegion(regionOf, sorted[i].region)), Marriages)
      ensures sorted[i].divorces == Sum(Filter(rows, InRegion(regionOf, sorted[i].region)), Divorces)
      ensures sorted[i].rate == Percent(sorted[i].divorces, sorted[i].marriages)
    {
      assert sorted[i] in rated;
    }
    forall region | region in RegionsOf(rows, regionOf) ensures exists i :: 0 <= i < |sorted| && sorted[i].region == region {
      var k :| 0 <= k < |rated| && rated[k].region == region;
      assert rated[k] in sorted;
    }
  }

  /**
   * The regional divorce-rate ranking: one entry per region of the mapped
   * rows, with the region's combined marriages and divorces and the rate of
   * the combined counts, sorted by rate from the highest down.
   */
  function RegionDivorceRates(rows: seq<Row>, regionOf: map<string, string>): (out: seq<RegionRate>)
    ensures forall i, j :: 0 <= i < j < |out| ==> out[i].region != out[j].region
    ensures forall region :: (exists i :: 0 <= i < |out| && out[i].region == region) <==> region in RegionsOf(rows, regionOf)
    ensures forall i :: 0 <= i < |out| ==>
      && out[i].marriages == Sum(Filter(rows, InRegion(regionOf, out[i].region)), Marriages)
      && out[i].divorces == Sum(Filter(rows, InRegion(regionOf, out[i].region)), Divorces)
      && out[i].rate == Percent(out[i].divorces, out[i].marriages)
    ensures SortedDesc(out, RateKey)
    ensures multiset(out) == multiset(WithRates(RegionGroups(rows, regionOf)))
  {
    var groups := RegionGroups(rows, regionOf);
    var rated := WithRates(groups);
    var sorted := SortDesc(rated, RateKey);
    RatesOfGroups(rows, regionOf, groups, rated);
    SortedRateFacts(rows, regionOf, rated, sorted);
    sorted
  }

  /** One region of the marriage-share ranking. */
  datatype RegionShare = RegionShare(region: string, marriages: nat, share: Num)

  function ShareKey(x: RegionShare): Num {
    x.share
  }

  function ShareRegion(x: RegionShare): string {
    x.region
  }

  /** `df["Marriage_Rate"] = df["Marriage"] / total * 100`, unguarded. */
  function WithShares(g: seq<Tally>, total: nat): (r: seq<RegionShare>)
    ensures |r| == |g|
    ensures forall i :: 0 <= i < |r| ==> r[i] == RegionShare(g[i].key, g[i].marriages, Percent(g[i].marriages, total))
  {
    if g == [] then []
    else [RegionShare(g[0].key, g[0].marriages, Percent(g[0].marriages, total))] + WithShares(g[1..], total)
  }

  /** What sorting keeps of the per-region shares: labels, values and coverage. */
  lemma SortedShareFacts(rows: seq<Row>, regionOf: map<string, string>, total: nat, shared: seq<RegionShare>, sorted: seq<RegionShare>)
    requires multiset(sorted) == multiset(shared)
    requires forall i, j :: 0 <= i < j < |shared| ==> shared[i].region != shared[j].region
    requires forall k :: 0 <= k < |shared| ==>
      && shared[k].region in RegionsOf(rows, regionOf)
      && shared[k].marriages == Sum(Filter(rows, InRegion(regionOf, shared[k].region)), Marriages)
      && shared[k].share == Percent(shared[k].marriages, total)
    requires forall region :: region in RegionsOf(rows, regionOf) ==> exists k :: 0 <= k < |shared| && shared[k].region == region
    ensures forall i, j :: 0 <= i < j < |sorted| ==> sorted[i].region != sorted[j].region
    ensures forall region :: (exists i :: 0 <= i < |sorted| && sorted[i].region == region) <==> region in RegionsOf(rows, regionOf)
    ensures forall i :: 0 <= i < |sorted| ==>
      && sorted[i].marriages == Sum(Filter(rows, InRegion(regionOf, sorted[i].region)), Marriages)
      && sorted[i].share == Percent(sorted[i].marriages, total)
  {
    LabelsStayDistinct(shared, sorted, ShareRegion);
    SameElements(shared, sorted);
    forall i | 0 <= i < |sorted|
      ensures sorted[i].region in RegionsOf(rows, regionOf)
      ensures sorted[i].marriages == Sum(Filter(rows, InRegion(regionOf, sorted[i].region)), Marriages)
      ensures sorted[i].share == Percent(sorted[i].marriages, total)
    {
      assert sorted[i] in shared;
    }
    forall region | region in RegionsOf(rows, regionOf) ensures exists i :: 0 <= i < |sorted| && sorted[i].region == region {
      var k :| 0 <= k < |shared| && shared[k].region == region;
      assert shared[k] in sorted;
    }
  }

  /** The shares of the region groups, before sorting. */
  lemma SharesOfGroups(rows: seq<Row>, regionOf: map<string, string>, groups: seq<Tally>, total: nat)
    requires groups == RegionGroups(rows, regionOf)
    ensures var shared := WithShares(groups, total);
      && (forall i, j :: 0 <= i < j < |shared| ==> shared[i].region != shared[j].region)
      && (forall k :: 0 <= k < |shared| ==>
            && shared[k].region in RegionsOf(rows, regionOf)
            && shared[k].marriages == Sum(Filter(rows, InRegion(regionOf, shared[k].region)), Marriages)
            && shared[k].share == Percent(shared[k].marriages, total))
      && (forall region :: region in RegionsOf(rows, regionOf) ==> exists k :: 0 <= k < |shared| && shared[k].region == region)
  {
    var shared := WithShares(groups, total);
    forall k | 0 <= k < |shared|
      ensures shared[k].region in RegionsOf(rows, regionOf)
      ensures shared[k].marriages == Sum(Filter(rows, InRegion(regionOf, shared[k].region)), Marriages)
      ensures shared[k].share == Percent(shared[k].marriages, total)
    {
      assert shared[k].region == groups[k].key;
      assert exists i :: 0 <= i < |groups| && groups[i].key == shared[k].region;
    }
    forall region | region in RegionsOf(rows, regionOf) ensures exists k :: 0 <= k < |shared| && shared[k].region == region {
      var k :| 0 <= k < |groups| && groups[k].key == region;
      assert shared[k].region == region;
    }
  }

  /**
   * The regional marriage-share ranking: one entry per region of the mapped
   * rows, with the region's marriages and their percentage of all mapped
   * marriages, sorted by share from the highest down.
   */
  function RegionMarriageShares(rows: seq<Row>, regionOf: map<string, string>): (out: seq<RegionShare>)
    ensures forall i, j :: 0 <= i < j < |out| ==> out[i].region != out[j].region
    ensures forall region :: (exists i :: 0 <= i < |out| && out[i].region == region) <==> region in RegionsOf(rows, regionOf)
    ensures forall i :: 0 <= i < |out| ==>
      && out[i].marriages == Sum(Filter(rows, InRegion(regionOf, out[i].region)), Marriages)
      && out[i].share == Percent(out[i].marriages, Sum(Filter(rows, MappedBy(regionOf)), Marriages))
    ensures SortedDesc(out, ShareKey)
    ensures multiset(out) == multiset(WithShares(RegionGroups(rows, regionOf), Sum(Filter(rows, MappedBy(regionOf)), Marriages)))
  {
    var groups := RegionGroups(rows, regionOf);
    var total := Sum(Filter(rows, MappedBy(regionOf)), Marriages);
    var shared := WithShares(groups, total);
    var sorted := SortDesc(shared, ShareKey);
    SharesOfGroups(rows, regionOf, groups, total);
    SortedShareFacts(rows, regionOf, total, shared, sorted);
    sorted
  }

  /** The numeric value of a share; only used when every share is finite. */
  function ShareValue(x: RegionShare): real {
    if x.share.Finite? then x.share.value else 0.0
  }

  lemma {:induction false} SharesScale(g: seq<Tally>, total: nat)
    requires total > 0
    ensures SumOf(WithShares(g, total), ShareValue) * (total as real) == (Total(g, Marriages) as real) * 100.0
    decreases |g|
  {
    if g != [] {
      var w := WithShares(g, total);
      assert w[1..] == WithShares(g[1..], total);
      SharesScale(g[1..], total);
      var head := ShareValue(w[0]);
      var rest := SumOf(w[1..], ShareValue);
      assert head * (total as real) == (g[0].marriages as real) * 100.0;
      assert rest * (total as real) == (Total(g[1..], Marriages) as real) * 100.0;
      assert SumOf(w, ShareValue) == head + rest;
      assert (head + rest) * (total as real) == head * (total as real) + rest * (total as real);
    }
  }

  lemma CancelTotal(sum: real, total: real, scaled: real)
    requires total > 0.0 && scaled == total && sum * total == scaled * 100.0
    ensures sum == 100.0
  {
    assert (sum - 100.0) * total == 0.0;
  }

  lemma SharesSum(groups: seq<Tally>, total: nat)
    requires total > 0 && Total(groups, Marriages) == total
    ensures SumOf(WithShares(groups, total), ShareValue) == 100.0
  {
    SharesScale(groups, total);
    var sum := SumOf(WithShares(groups, total), ShareValue);
    CancelTotal(sum, total as real, Total(groups, Marriages) as real);
  }

  lemma SortedSharesSum(out: seq<RegionShare>, groups: seq<Tally>, total: nat)
    requires total > 0 && Total(groups, Marriages) == total
    requires multiset(out) == multiset(WithShares(groups, total))
    ensures SumOf(out, ShareValue) == 100.0
  {
    SumOfPermutation(out, WithShares(groups, total), ShareValue);
    SharesSum(groups, total);
  }

  lemma SharesFinite(out: seq<RegionShare>, groups: seq<Tally>, total: nat)
    requires total > 0
    requires multiset(out) == multiset(WithShares(groups, total))
    ensures forall i :: 0 <= i < |out| ==> out[i].share.Finite?
  {
    var shared := WithShares(groups, total);
    forall i | 0 <= i < |out| ensures out[i].share.Finite? {
      assert out[i] in multiset(shared);
      var k :| 0 <= k < |shared| && shared[k] == out[i];
      assert out[i].share == Percent(groups[k].marriages, total);
    }
  }

  /**
   * When any mapped row has a marriage, every region's share is a finite
   * percentage and the shares add up to 100.
   */
  lemma SharesSumTo100(rows: seq<Row>, regionOf: map<string, string>)
    requires Sum(Filter(rows, MappedBy(regionOf)), Marriages) > 0
    ensures forall i :: 0 <= i < |RegionMarriageShares(rows, regionOf)| ==> RegionMarriageShares(rows, regionOf)[i].share.Finite?
    ensures SumOf(RegionMarriageShares(rows, regionOf), ShareValue) == 100.0
  {
    var total := Sum(Filter(rows, MappedBy(regionOf)), Marriages);
    SharesFinite(RegionMarriageShares(rows, regionOf), RegionGroups(rows, regionOf), total);
    SortedSharesSum(RegionMarriageShares(rows, regionOf), RegionGroups(rows, regionOf), total);
  }

  lemma {:induction false} TotalZero(g: seq<Tally>, f: Field)
    requires Total(g, f) == 0
    ensures forall i :: 0 <= i < |g| ==> TallyCount(g[i], f) == 0
    decreases |g|
  {
    if g != [] {
      TotalZero(g[1..], f);
      assert forall i :: 1 <= i < |g| ==> g[i] == g[1..][i - 1];
    }
  }

  /**
   * When no mapped row has a marriage, the division by a zero total makes
   * every share NaN rather than raising.
   */
  lemma SharesWithoutMarriages(rows: seq<Row>, regionOf: map<string, string>)
    requires Sum(Filter(rows, MappedBy(regionOf)), Marriages) == 0
    ensures forall i :: 0 <= i < |RegionMarriageShares(rows, regionOf)| ==> RegionMarriageShares(rows, regionOf)[i].share.NaN?
  {
    var groups := RegionGroups(rows, regionOf);
    var out := RegionMarriageShares(rows, regionOf);
    TotalZero(groups, Marriages);
    forall i | 0 <= i < |out| ensures out[i].share.NaN? {
      assert out[i] in WithShares(groups, 0) by {
        assert out[i] in multiset(WithShares(groups, 0));
      }
      var k :| 0 <= k < |groups| && WithShares(groups, 0)[k] == out[i];
      assert TallyCount(groups[k], Marriages) == 0;
    }
  }

  /** When the scheme maps every province to one region, every entry of the ranking is that region. */
  lemma OneRegion(rows: seq<Row>, regionOf: map<string, string>, region: string, k: nat)
    requires forall p :: p in regionOf ==> regionOf[p] == region
    requires k < |rows| && rows[k].province in regionOf
    ensures var out := RegionDivorceRates(rows, regionOf);
      |out| >= 1 && forall j :: 0 <= j < |out| ==> out[j].region == region
  {
    var out := RegionDivorceRates(rows, regionOf);
    assert region in RegionsOf(rows, regionOf) by {
      assert rows[k] in rows;
    }
    forall j | 0 <= j < |out| ensures out[j].region == region {
      assert out[j].region in RegionsOf(rows, regionOf);
      var r :| r in rows && r.province in regionOf && regionOf[r.province] == out[j].region;
    }
  }

  /**
   * Two provinces of one region: the region's rate is the rate of the
   * combined counts (14 divorces per 100 marriages), not the mean of the
   * provinces' own rates (50 and 10).
   */
  lemma CombinedRateScenario(rows: seq<Row>, regionOf: map<string, string>)
    requires rows == [Row(2560, "A", 10, 5), Row(2560, "B", 90, 9)]
    requires regionOf == map["A" := "R", "B" := "R"]
    ensures var out := RegionDivorceRates(rows, regionOf);
      && |out| >= 1
      && (forall j :: 0 <= j < |out| ==> out[j].region == "R" && out[j].rate == Finite(14.0))
      && (DivorceRate(10, 5) + DivorceRate(90, 9)) / 2.0 == 30.0
  {
    OneRegion(rows, regionOf, "R", 0);
    var out := RegionDivorceRates(rows, regionOf);
    CombinedCounts(rows, regionOf);
    forall j | 0 <= j < |out| ensures out[j].rate == Finite(14.0) {
      assert out[j].region == "R";
      assert out[j].marriages == Sum(Filter(rows, InRegion(regionOf, "R")), Marriages);
      assert out[j].divorces == Sum(Filter(rows, InRegion(regionOf, "R")), Divorces);
      assert out[j].rate == Percent(14, 100);
      assert out[j].rate.value * 100.0 == 1400.0;
    }
    assert DivorceRate(10, 5) == 50.0 && DivorceRate(90, 9) == 10.0;
  }

  lemma CombinedCounts(rows: seq<Row>, regionOf: map<string, string>)
    requires rows == [Row(2560, "A", 10, 5), Row(2560, "B", 90, 9)]
    requires regionOf == map["A" := "R", "B" := "R"]
    ensures Sum(Filter(rows, InRegion(regionOf, "R")), Marriages) == 100
    ensures Sum(Filter(rows, InRegion(regionOf, "R")), Divorces) == 14
  {
    FilterAllHold(rows, InRegion(regionOf, "R"));
    assert rows[1..][1..] == [];
    assert Sum(rows[1..], Marriages) == 90 && Sum(rows[1..], Divorces) == 9;
  }
}
