/**
 * `groupby(key).sum()` over labelled counts. A Tally is either one input row
 * carrying its group label (a province, or the region the province maps to)
 * or one output group carrying the summed counts of its label.
 */
module Grouping {

  import opened Regional
  import opened Sorting

  datatype Tally = Tally(key: string, marriages: nat, divorces: nat)

  function TallyCount(t: Tally, f: Field): nat {
    match f
    case Marriages => t.marriages
    case Divorces => t.divorces
  }

  /** The sum of one column over all entries; the grouped frame's `.sum()`, over tallies as Regional.Sum is over rows. */
  function Total(s: seq<Tally>, f: Field): nat {
    if s == [] then 0 else TallyCount(s[0], f) + Total(s[1..], f)
  }

  /** The sum of one column over the entries labelled k. */
  function SumFor(s: seq<Tally>, k: string, f: Field): nat {
    if s == [] then 0 else (if s[0].key == k then TallyCount(s[0], f) else 0) + SumFor(s[1..], k, f)
  }

  ghost function KeySet(s: seq<Tally>): set<string> {
    set t | t in s :: t.key
  }

  /** The distinct labels of s. */
  function KeysOf(s: seq<Tally>): (ks: seq<string>)
    ensures Distinct(ks)
    ensures forall k :: k in ks <==> k in KeySet(s)
  {
    if s == [] then []
    else
      assert s == [s[0]] + s[1..];
      var rest := KeysOf(s[1..]);
      if s[0].key in rest then rest else [s[0].key] + rest
  }

  /** One group per label in ks, with the label's sums. */
  function Groups(s: seq<Tally>, ks: seq<string>): (g: seq<Tally>)
    ensures |g| == |ks|
    ensures forall i :: 0 <= i < |g| ==>
      g[i] == Tally(ks[i], SumFor(s, ks[i], Marriages), SumFor(s, ks[i], Divorces))
  {
    if ks == [] then []
    else [Tally(ks[0], SumFor(s, ks[0], Marriages), SumFor(s, ks[0], Divorces))] + Groups(s, ks[1..])
  }

  /** `groupby(key).sum()`: one group per distinct label, holding that label's sums. */
  function GroupBy(s: seq<Tally>): (g: seq<Tally>)
    ensures forall i, j :: 0 <= i < j < |g| ==> g[i].key != g[j].key
    ensures forall k :: (exists i :: 0 <= i < |g| && g[i].key == k) <==> k in KeySet(s)
    ensures forall i :: 0 <= i < |g| ==>
      g[i].marriages == SumFor(s, g[i].key, Marriages) && g[i].divorces == SumFor(s, g[i].key, Divorces)
  {
    var ks := KeysOf(s);
    var g := Groups(s, ks);
    assert forall k :: (exists i :: 0 <= i < |g| && g[i].key == k) <==> k in ks by {
      forall k ensures (exists i :: 0 <= i < |g| && g[i].key == k) <==> k in ks {
        if k in ks {
          var i :| 0 <= i < |ks| && ks[i] == k;
          assert g[i].key == k;
        }
      }
    }
    g
  }

  lemma {:induction false} GroupsOfNothing(ks: seq<string>, f: Field)
    ensures Total(Groups([], ks), f) == 0
  {
    if ks != [] {
      GroupsOfNothing(ks[1..], f);
    }
  }

  /** Adding one entry in front adds its count to the group of its label, if that label is grouped. */
  lemma {:induction false} GroupsCons(t: Tally, s: seq<Tally>, ks: seq<string>, f: Field)
    requires Distinct(ks)
    ensures Total(Groups([t] + s, ks), f) == Total(Groups(s, ks), f) + (if t.key in ks then TallyCount(t, f) else 0)
  {
    assert ([t] + s)[1..] == s;
    if ks != [] {
      GroupsCons(t, s, ks[1..], f);
      assert t.key == ks[0] ==> t.key !in ks[1..];
      assert t.key in ks <==> t.key == ks[0] || t.key in ks[1..];
    }
  }

  lemma {:induction false} GroupsTotal(s: seq<Tally>, ks: seq<string>, f: Field)
    requires Distinct(ks)
    requires forall t :: t in s ==> t.key in ks
    ensures Total(Groups(s, ks), f) == Total(s, f)
  {
    if s == [] {
      GroupsOfNothing(ks, f);
    } else {
      assert s == [s[0]] + s[1..];
      GroupsCons(s[0], s[1..], ks, f);
      GroupsTotal(s[1..], ks, f);
    }
  }

  /** Grouping neither loses nor invents counts: the group sums add up to the column sum. */
  lemma GroupByTotal(s: seq<Tally>, f: Field)
    ensures Total(GroupBy(s), f) == Total(s, f)
  {
    GroupsTotal(s, KeysOf(s), f);
  }
}
