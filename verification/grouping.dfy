/** The `Map`-keyed fold both MySQL introspectors use to turn the
    column rows of the information schema into tables: one group per key,
    groups in the order their key first appears, rows of a group in input
    order. */
module Grouping {

  /** The rows whose key is `k`, in input order. */
  function Filter<T>(items: seq<T>, key: T -> string, k: string): (r: seq<T>)
    ensures |r| <= |items|
    ensures forall x | x in r :: x in items && key(x) == k
  {
    if |items| == 0 then []
    else (if key(items[0]) == k then [items[0]] else []) + Filter(items[1..], key, k)
  }

  predicate HasKey<T>(items: seq<T>, key: T -> string, k: string) {
    exists i | 0 <= i < |items| :: key(items[i]) == k
  }

  /** The position of the first row with key `k`. */
  function FirstIndex<T>(items: seq<T>, key: T -> string, k: string): (r: nat)
    requires HasKey(items, key, k)
    ensures r < |items| && key(items[r]) == k
    ensures forall i | 0 <= i < r :: key(items[i]) != k
  {
    if key(items[0]) == k then 0
    else
      assert HasKey(items[1..], key, k) by {
        var i :| 0 <= i < |items| && key(items[i]) == k;
        assert key(items[1..][i - 1]) == k;
      }
      1 + FirstIndex(items[1..], key, k)
  }

  predicate Distinct(ks: seq<string>) {
    forall i, j | 0 <= i < j < |ks| :: ks[i] != ks[j]
  }

  /** The state of the fold: the keys in insertion order and the rows
      collected under each. */
  datatype Grouped<T> = Grouped(keys: seq<string>, groups: map<string, seq<T>>)

  ghost predicate Describes<T>(g: Grouped<T>, items: seq<T>, key: T -> string) {
    && (forall k :: k in g.groups <==> k in g.keys)
    && (forall k :: k in g.keys <==> HasKey(items, key, k))
    && Distinct(g.keys)
    && (forall k | k in g.groups :: g.groups[k] == Filter(items, key, k))
    && (forall i, j | 0 <= i < j < |g.keys| ::
          FirstIndex(items, key, g.keys[i]) < FirstIndex(items, key, g.keys[j]))
  }

  /** The loop of `getTables`: look the key up; start a group when it is
      new, otherwise append the row to its group. */
  function Collect<T>(items: seq<T>, key: T -> string): (g: Grouped<T>)
    decreases |items|
  {
    if |items| == 0 then Grouped([], map[])
    else
      var g := Collect(items[..|items| - 1], key);
      var x := items[|items| - 1];
      var k := key(x);
      if k in g.groups then Grouped(g.keys, g.groups[k := g.groups[k] + [x]])
      else Grouped(g.keys + [k], g.groups[k := [x]])
  }

  lemma {:induction false} FilterSnoc<T>(items: seq<T>, x: T, key: T -> string, k: string)
    ensures Filter(items + [x], key, k) == Filter(items, key, k) + (if key(x) == k then [x] else [])
  {
    if |items| == 0 {
      assert [x][1..] == [];
    } else {
      assert (items + [x])[1..] == items[1..] + [x];
      FilterSnoc(items[1..], x, key, k);
    }
  }

  lemma HasKeySnoc<T>(items: seq<T>, x: T, key: T -> string, k: string)
    ensures HasKey(items + [x], key, k) <==> HasKey(items, key, k) || key(x) == k
  {
    if HasKey(items + [x], key, k) {
      var i :| 0 <= i < |items + [x]| && key((items + [x])[i]) == k;
      if i < |items| {
        assert key(items[i]) == k;
      }
    }
    if HasKey(items, key, k) {
      var i :| 0 <= i < |items| && key(items[i]) == k;
      assert key((items + [x])[i]) == k;
    }
    if key(x) == k {
      assert key((items + [x])[|items|]) == k;
    }
  }

  lemma {:induction false} FirstIndexSnoc<T>(items: seq<T>, x: T, key: T -> string, k: string)
    requires HasKey(items + [x], key, k)
    ensures HasKey(items, key, k) ==> FirstIndex(items + [x], key, k) == FirstIndex(items, key, k)
    ensures !HasKey(items, key, k) ==> FirstIndex(items + [x], key, k) == |items|
  {
    HasKeySnoc(items, x, key, k);
    var r := FirstIndex(items + [x], key, k);
    if HasKey(items, key, k) {
      var q := FirstIndex(items, key, k);
      assert key((items + [x])[q]) == k;
    }
  }

  /** The fold collects exactly the filtered rows under each key, creates
      one group per key that occurs, and orders the groups by the first
      appearance of their key. */
  lemma {:induction false} CollectDescribes<T>(items: seq<T>, key: T -> string)
    ensures Describes(Collect(items, key), items, key)
    decreases |items|
  {
    if |items| > 0 {
      var init := items[..|items| - 1];
      var x := items[|items| - 1];
      var k := key(x);
      assert init + [x] == items;
      CollectDescribes(init, key);
      var g := Collect(init, key);
      var g' := Collect(items, key);
      forall k' ensures k' in g'.keys <==> HasKey(items, key, k') {
        HasKeySnoc(init, x, key, k');
      }
      forall k' | k' in g'.groups ensures g'.groups[k'] == Filter(items, key, k') {
        FilterSnoc(init, x, key, k');
        if k' == k && k !in g.groups {
          FilterEmpty(init, key, k);
        }
      }
      forall i, j | 0 <= i < j < |g'.keys|
        ensures FirstIndex(items, key, g'.keys[i]) < FirstIndex(items, key, g'.keys[j])
      {
        HasKeySnoc(init, x, key, g'.keys[i]);
        HasKeySnoc(init, x, key, g'.keys[j]);
        FirstIndexSnoc(init, x, key, g'.keys[i]);
        FirstIndexSnoc(init, x, key, g'.keys[j]);
        if j < |g.keys| {
          assert g'.keys[i] == g.keys[i] && g'.keys[j] == g.keys[j];
        } else {
          assert g'.keys[i] == g.keys[i] && HasKey(init, key, g.keys[i]);
          assert g'.keys[j] == k && k !in g.keys;
        }
      }
    }
  }

  /** `Array.from(tables.values())`: the groups in insertion order. */
  function GroupBy<T>(items: seq<T>, key: T -> string): (r: seq<seq<T>>)
    ensures |r| == |Collect(items, key).keys|
    ensures forall i | 0 <= i < |r| :: r[i] == Filter(items, key, Collect(items, key).keys[i])
    ensures forall i | 0 <= i < |r| :: |r[i]| > 0 && key(r[i][0]) == Collect(items, key).keys[i]
  {
    CollectDescribes(items, key);
    var g := Collect(items, key);
    assert forall k | k in g.keys :: |Filter(items, key, k)| > 0 && key(Filter(items, key, k)[0]) == k by {
      forall k | k in g.keys ensures |Filter(items, key, k)| > 0 && key(Filter(items, key, k)[0]) == k {
        FilterNonEmpty(items, key, k);
      }
    }
    seq(|g.keys|, i requires 0 <= i < |g.keys| => g.groups[g.keys[i]])
  }

  /** Distinct groups have distinct keys. */
  lemma GroupKeysDistinct<T>(items: seq<T>, key: T -> string)
    ensures var gs := GroupBy(items, key);
      forall i, j | 0 <= i < j < |gs| :: key(gs[i][0]) != key(gs[j][0])
  {
    CollectDescribes(items, key);
  }

  /** Every row lands in the group of its key. */
  lemma GroupsCoverItems<T>(items: seq<T>, key: T -> string)
    ensures var gs := GroupBy(items, key);
      forall x | x in items :: exists i | 0 <= i < |gs| :: key(gs[i][0]) == key(x)
  {
    CollectDescribes(items, key);
    var g := Collect(items, key);
    var gs := GroupBy(items, key);
    forall x | x in items ensures exists i | 0 <= i < |gs| :: key(gs[i][0]) == key(x) {
      var n :| 0 <= n < |items| && items[n] == x;
      assert HasKey(items, key, key(x));
      var i :| 0 <= i < |g.keys| && g.keys[i] == key(x);
      assert key(gs[i][0]) == key(x);
    }
  }

  /** The groups appear in the order of their key's first row. */
  lemma GroupsInFirstRowOrder<T>(items: seq<T>, key: T -> string)
    ensures var gs := GroupBy(items, key);
      forall i, j | 0 <= i < j < |gs| ::
        FirstIndex(items, key, key(gs[i][0])) < FirstIndex(items, key, key(gs[j][0]))
  {
    CollectDescribes(items, key);
  }

  lemma {:induction false} FilterEmpty<T>(items: seq<T>, key: T -> string, k: string)
    requires !HasKey(items, key, k)
    ensures Filter(items, key, k) == []
  {
    if |items| > 0 {
      FilterEmpty(items[1..], key, k);
    }
  }

  lemma {:induction false} FilterNonEmpty<T>(items: seq<T>, key: T -> string, k: string)
    requires HasKey(items, key, k)
    ensures |Filter(items, key, k)| > 0 && key(Filter(items, key, k)[0]) == k
  {
    if key(items[0]) != k {
      var i :| 0 <= i < |items| && key(items[i]) == k;
      assert key(items[1..][i - 1]) == k;
      FilterNonEmpty(items[1..], key, k);
    }
  }

  /** No row is lost or duplicated: the group sizes add up to the input. */
  lemma {:induction false} FilterSizes<T>(items: seq<T>, key: T -> string, ks: seq<string>)
    requires Distinct(ks)
    requires forall x | x in items :: key(x) in ks
    ensures SumSizes(items, key, ks) == |items|
  {
    if |items| == 0 {
      SumSizesNone(key, ks);
    } else {
      var init := items[..|items| - 1];
      var x := items[|items| - 1];
      assert init + [x] == items;
      assert x in items;
      FilterSizes(init, key, ks);
      SumSizesSnoc(init, x, key, ks);
    }
  }

  lemma {:induction false} SumSizesNone<T>(key: T -> string, ks: seq<string>)
    ensures SumSizes([], key, ks) == 0
  {
    if |ks| > 0 {
      SumSizesNone(key, ks[1..]);
    }
  }

  function SumSizes<T>(items: seq<T>, key: T -> string, ks: seq<string>): nat {
    if |ks| == 0 then 0 else |Filter(items, key, ks[0])| + SumSizes(items, key, ks[1..])
  }

  lemma {:induction false} SumSizesSnoc<T>(items: seq<T>, x: T, key: T -> string, ks: seq<string>)
    requires Distinct(ks)
    ensures SumSizes(items + [x], key, ks) == SumSizes(items, key, ks) + (if key(x) in ks then 1 else 0)
  {
    if |ks| > 0 {
      FilterSnoc(items, x, key, ks[0]);
      SumSizesSnoc(items, x, key, ks[1..]);
      assert key(x) in ks <==> key(x) == ks[0] || key(x) in ks[1..];
    }
  }

  /** Grouping is a partition of the rows. */
  lemma GroupSizesAddUp<T>(items: seq<T>, key: T -> string)
    ensures SumSizes(items, key, Collect(items, key).keys) == |items|
  {
    CollectDescribes(items, key);
    var g := Collect(items, key);
    forall x | x in items ensures key(x) in g.keys {
      var n :| 0 <= n < |items| && items[n] == x;
      assert HasKey(items, key, key(x));
    }
    FilterSizes(items, key, g.keys);
  }
}
