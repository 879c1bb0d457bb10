/** A pandas Series indexed by strings, as `groupby(...).sum()` produces it:
    one entry per key, keys in ascending order. */
module LabelledSeries {
  import opened Text

  datatype Entry = Entry(key: string, value: int)

  type Series = seq<Entry>

  /** Keys strictly ascending, hence each key at most once. */
  predicate Sorted(s: Series) {
    forall i, j :: 0 <= i < j < |s| ==> Less(s[i].key, s[j].key)
  }

  function Keys(s: Series): set<string> {
    set e | e in s :: e.key
  }

  /** The value at `k`, with a missing key read as 0 (`fill_value=0`). */
  function Lookup(s: Series, k: string): int {
    if |s| == 0 then 0 else if s[0].key == k then s[0].value else Lookup(s[1..], k)
  }

  /** `series.sum()`; 0 for the empty series. */
  function Sum(s: Series): int {
    if |s| == 0 then 0 else s[0].value + Sum(s[1..])
  }

  /** Every key of `s` is above `k`. */
  predicate Above(k: string, s: Series) {
    forall x :: x in Keys(s) ==> Less(k, x)
  }

  lemma KeysCons(e: Entry, s: Series)
    ensures Keys([e] + s) == {e.key} + Keys(s)
  {
    assert forall x :: x in [e] + s <==> x == e || x in s;
  }

  lemma KeysTail(s: Series)
    requires |s| > 0
    ensures Keys(s) == {s[0].key} + Keys(s[1..])
  {
    KeysCons(s[0], s[1..]);
    assert s == [s[0]] + s[1..];
  }

  /** In a sorted series the head key is below all the others. */
  lemma SortedHead(s: Series)
    requires Sorted(s) && |s| > 0
    ensures Sorted(s[1..]) && Above(s[0].key, s[1..])
  {
    forall x | x in Keys(s[1..]) ensures Less(s[0].key, x) {
      var e :| e in s[1..] && e.key == x;
      var j :| 0 <= j < |s[1..]| && s[1..][j] == e;
      assert s[j + 1] == e;
    }
  }

  /** A sorted series with a smaller key put in front stays sorted. */
  lemma SortedCons(e: Entry, s: Series)
    requires Sorted(s) && Above(e.key, s)
    ensures Sorted([e] + s)
  {
    var r := [e] + s;
    forall i, j | 0 <= i < j < |r| ensures Less(r[i].key, r[j].key) {
      if i == 0 {
        assert r[j] == s[j - 1] && s[j - 1] in s;
      } else {
        assert r[i] == s[i - 1] && r[j] == s[j - 1];
      }
    }
  }

  /** A key below every key of the series is not in it, and reads as 0. */
  lemma AboveAbsent(k: string, s: Series)
    requires Above(k, s)
    ensures k !in Keys(s) && Lookup(s, k) == 0
  {
    LessIrreflexive(k);
    LookupAbsent(s, k);
  }

  lemma {:induction false} LookupAbsent(s: Series, k: string)
    requires k !in Keys(s)
    ensures Lookup(s, k) == 0
  {
    if |s| > 0 {
      KeysTail(s);
      LookupAbsent(s[1..], k);
    }
  }

  /** Adds `v` at key `k`, creating the entry when it is missing: one step of a
      grouped sum. */
  function Insert(s: Series, k: string, v: int): (r: Series)
    requires Sorted(s)
    ensures Sorted(r)
    ensures Keys(r) == Keys(s) + {k}
    ensures forall c :: Lookup(r, c) == Lookup(s, c) + (if c == k then v else 0)
    ensures Sum(r) == Sum(s) + v
  {
    if |s| == 0 then
      KeysCons(Entry(k, v), []);
      [Entry(k, v)]
    else
      var h := s[0];
      SortedHead(s);
      KeysTail(s);
      if h.key == k then
        var r := [Entry(k, h.value + v)] + s[1..];
        KeysCons(Entry(k, h.value + v), s[1..]);
        SortedCons(Entry(k, h.value + v), s[1..]);
        AboveAbsent(k, s[1..]);
        r
      else if Less(k, h.key) then
        var r := [Entry(k, v)] + s;
        KeysCons(Entry(k, v), s);
        forall x | x in Keys(s) ensures Less(k, x) {
          if x != h.key { LessTransitive(k, h.key, x); }
        }
        SortedCons(Entry(k, v), s);
        AboveAbsent(k, s);
        r
      else
        LessTotal(k, h.key);
        var t := Insert(s[1..], k, v);
        KeysCons(h, t);
        SortedCons(h, t);
        [h] + t
  }

  /** `a.add(b, fill_value=0)`: the union of the keys, values added, a key
      missing on one side counted as 0. */
  function Add(a: Series, b: Series): (r: Series)
    requires Sorted(a) && Sorted(b)
    ensures Sorted(r)
    ensures Keys(r) == Keys(a) + Keys(b)
    ensures forall c :: Lookup(r, c) == Lookup(a, c) + Lookup(b, c)
    decreases |a| + |b|
  {
    if |a| == 0 then b
    else if |b| == 0 then a
    else
      var x, y := a[0], b[0];
      SortedHead(a);
      SortedHead(b);
      KeysTail(a);
      KeysTail(b);
      if x.key == y.key then
        var e := Entry(x.key, x.value + y.value);
        var t := Add(a[1..], b[1..]);
        AboveAbsent(x.key, a[1..]);
        AboveAbsent(x.key, b[1..]);
        KeysCons(e, t);
        SortedCons(e, t);
        [e] + t
      else if Less(x.key, y.key) then
        var t := Add(a[1..], b);
        forall k | k in Keys(b) ensures Less(x.key, k) {
          if k != y.key { LessTransitive(x.key, y.key, k); }
        }
        AboveAbsent(x.key, a[1..]);
        AboveAbsent(x.key, b);
        KeysCons(x, t);
        SortedCons(x, t);
        [x] + t
      else
        LessTotal(x.key, y.key);
        var t := Add(a, b[1..]);
        forall k | k in Keys(a) ensures Less(y.key, k) {
          if k != x.key { LessTransitive(y.key, x.key, k); }
        }
        AboveAbsent(y.key, a);
        AboveAbsent(y.key, b[1..]);
        KeysCons(y, t);
        SortedCons(y, t);
        [y] + t
  }

  /** The total of a sum of series is the sum of their totals. */
  lemma {:induction false} SumAdd(a: Series, b: Series)
    requires Sorted(a) && Sorted(b)
    ensures Sum(Add(a, b)) == Sum(a) + Sum(b)
    decreases |a| + |b|
  {
    if |a| > 0 && |b| > 0 {
      SortedHead(a);
      SortedHead(b);
      if a[0].key == b[0].key {
        SumAdd(a[1..], b[1..]);
      } else if Less(a[0].key, b[0].key) {
        SumAdd(a[1..], b);
      } else {
        SumAdd(a, b[1..]);
      }
    }
  }

  /** `series.apply(f)`: `f` applied to every value, keys untouched. */
  function Apply(s: Series, f: int -> int): (r: Series)
    ensures |r| == |s| && Keys(r) == Keys(s)
    ensures Sorted(s) ==> Sorted(r)
    ensures forall c :: c in Keys(s) ==> Lookup(r, c) == f(Lookup(s, c))
    ensures forall c :: c !in Keys(s) ==> Lookup(r, c) == 0
  {
    if |s| == 0 then []
    else
      var t := Apply(s[1..], f);
      var e := Entry(s[0].key, f(s[0].value));
      KeysTail(s);
      KeysCons(e, t);
      assert Sorted(s) ==> Sorted([e] + t) by {
        if Sorted(s) {
          SortedHead(s);
          SortedCons(e, t);
        }
      }
      [e] + t
  }
}
