/** `Money.calculate_share`: what is owed for shared expenses since the last
    settlement, per category, in round amounts. */
module Share {
  import opened Wrappers
  import opened Dates
  import opened Ledger
  import opened LabelledSeries

  /** The category of a row that records a settlement payment. */
  const SettlementCategory := "Share_Payment"

  /** The description marking one party's own expenses. */
  const JaynesDescription := "Jayne's"

  /** Python's `a // b` for a positive divisor: rounds toward minus infinity. */
  function FloorDiv(a: int, b: int): (q: int)
    requires b > 0
    ensures q * b <= a < q * b + b
  {
    a / b
  }

  function Abs(x: int): nat {
    if x < 0 then -x else x
  }

  /** `abs(sum // unit) * 10`, the rounding the tracker applies per category.
      The signed sum is floor-divided first, so a negative sum (an expense)
      has its magnitude rounded UP to whole units, a positive sum DOWN. */
  function Bucket(sum: int, unit: int): (r: int)
    requires unit > 0
    ensures r >= 0 && r % 10 == 0
    ensures sum >= 0 ==> (r / 10) * unit <= sum < (r / 10) * unit + unit
    ensures sum < 0 ==> (r / 10) * unit - unit < -sum <= (r / 10) * unit
  {
    var q := FloorDiv(sum, unit);
    assert sum < 0 ==> q < 0;
    Abs(q) * 10
  }

  /** The bucketing of the "Jayne's" rows: tens of the category sum. */
  function JaynesBucket(sum: int): int {
    Bucket(sum, 10)
  }

  /** The bucketing of the shared rows: half the category sum, in tens. */
  function SharedBucket(sum: int): int {
    Bucket(sum, 20)
  }

  /** The date of the latest settlement row, `None` when there is none
      (pandas' `max()` of an empty column is NaN). */
  function LatestSettlement(rows: seq<Transaction>): (r: Option<CalendarDate>)
    ensures r.None? <==> forall i :: 0 <= i < |rows| ==> rows[i].category != SettlementCategory
    ensures r.Some? ==> exists i :: 0 <= i < |rows| && rows[i].category == SettlementCategory && rows[i].date == r.value
    ensures r.Some? ==> forall i :: 0 <= i < |rows| && rows[i].category == SettlementCategory ==> !Before(r.value, rows[i].date)
  {
    if |rows| == 0 then None
    else
      var rest := LatestSettlement(rows[1..]);
      assert forall i :: 1 <= i < |rows| ==> rows[i] == rows[1..][i - 1];
      if rows[0].category != SettlementCategory then
        assert rest.Some? ==> exists i :: 0 <= i < |rows| && rows[i].category == SettlementCategory && rows[i].date == rest.value by {
          if rest.Some? {
            var i :| 0 <= i < |rows[1..]| && rows[1..][i].category == SettlementCategory && rows[1..][i].date == rest.value;
            assert rows[i + 1] == rows[1..][i];
          }
        }
        rest
      else
        match rest
        case None => Some(rows[0].date)
        case Some(d) =>
          assert exists i :: 0 <= i < |rows| && rows[i].category == SettlementCategory && rows[i].date == d by {
            var i :| 0 <= i < |rows[1..]| && rows[1..][i].category == SettlementCategory && rows[1..][i].date == d;
            assert rows[i + 1] == rows[1..][i];
          }
          Some(Latest(rows[0].date, d))
  }

  /** The aggregation cutoff: the latest settlement, or the epoch when none
      was recorded. */
  function Cutoff(rows: seq<Transaction>): (c: CalendarDate)
    ensures (forall i :: 0 <= i < |rows| ==> rows[i].category != SettlementCategory) ==> c == Epoch
    ensures (exists i :: 0 <= i < |rows| && rows[i].category == SettlementCategory) ==>
      && (exists i :: 0 <= i < |rows| && rows[i].category == SettlementCategory && rows[i].date == c)
      && (forall i :: 0 <= i < |rows| && rows[i].category == SettlementCategory ==> !Before(c, rows[i].date))
  {
    match LatestSettlement(rows)
    case None => Epoch
    case Some(d) => d
  }

  /** The rows dated strictly after the cutoff. No settlement row is among
      them, since none is dated after the latest settlement. */
  function Window(rows: seq<Transaction>): (r: seq<Transaction>)
    ensures forall x :: multiset(r)[x] == if Before(Cutoff(rows), x.date) then multiset(rows)[x] else 0
    ensures forall i :: 0 <= i < |r| ==> r[i].category != SettlementCategory
    ensures (forall i :: 0 <= i < |rows| ==> rows[i].category != SettlementCategory) ==>
      forall i :: 0 <= i < |r| ==> Before(Epoch, r[i].date)
  {
    var c := Cutoff(rows);
    var r := DatedAfter(rows, c);
    assert forall i :: 0 <= i < |r| ==> r[i].category != SettlementCategory by {
      forall i | 0 <= i < |r| ensures r[i].category != SettlementCategory {
        assert multiset(r)[r[i]] > 0;
        assert r[i] in rows;
        var k :| 0 <= k < |rows| && rows[k] == r[i];
      }
    }
    r
  }

  predicate IsJaynes(t: Transaction) {
    t.description == JaynesDescription
  }

  predicate IsShared(t: Transaction) {
    t.share
  }

  /** `groupby("Category")["Amount"].sum()`. */
  function GroupByCategory(rows: seq<Transaction>): (r: Series)
    ensures Sorted(r)
    ensures Keys(r) == Categories(rows)
    ensures forall c :: Lookup(r, c) == CategoryTotal(rows, c)
    ensures Sum(r) == TotalAmount(rows)
  {
    if |rows| == 0 then []
    else
      CategoriesCons(rows);
      assert forall c :: (CategoryTotal(rows, c)
          == (if rows[0].category == c then rows[0].amount else 0) + CategoryTotal(rows[1..], c)) by {
        forall c { CategoryTotalCons(rows, c); }
      }
      Insert(GroupByCategory(rows[1..]), rows[0].category, rows[0].amount)
  }

  /** Per-category amounts of the "Jayne's" rows of a window (`jayne_category`). */
  function JaynesSeries(window: seq<Transaction>): (r: Series)
    ensures Sorted(r)
    ensures Keys(r) == Categories(Filter(window, IsJaynes))
    ensures forall c :: Lookup(r, c) == JaynesBucket(CategoryTotal(Filter(window, IsJaynes), c))
  {
    BucketedLookup(Filter(window, IsJaynes), JaynesBucket);
    Apply(GroupByCategory(Filter(window, IsJaynes)), JaynesBucket)
  }

  /** Per-category amounts of the shared rows of a window (`shared_category`). */
  function SharedSeries(window: seq<Transaction>): (r: Series)
    ensures Sorted(r)
    ensures Keys(r) == Categories(Filter(window, IsShared))
    ensures forall c :: Lookup(r, c) == SharedBucket(CategoryTotal(Filter(window, IsShared), c))
  {
    BucketedLookup(Filter(window, IsShared), SharedBucket);
    Apply(GroupByCategory(Filter(window, IsShared)), SharedBucket)
  }

  /** Bucketing a grouped sum reads, at any category, as the bucket of that
      category's total; a category without rows reads as 0. */
  lemma BucketedLookup(rows: seq<Transaction>, f: int -> int)
    requires f(0) == 0
    ensures forall c :: Lookup(Apply(GroupByCategory(rows), f), c) == f(CategoryTotal(rows, c))
  {
    forall c | c !in Categories(rows) ensures CategoryTotal(rows, c) == 0 {
      CategoryTotalAbsent(rows, c);
    }
  }

  /** `shared_category.add(jayne_category, fill_value=0)` over a window:
      every category of either kind of row, with both bucketed amounts added. */
  function Payments(window: seq<Transaction>): (r: Series)
    ensures Sorted(r)
    ensures Keys(r) == Categories(Filter(window, IsShared)) + Categories(Filter(window, IsJaynes))
    ensures forall c :: Lookup(r, c) == SharedBucket(CategoryTotal(Filter(window, IsShared), c))
                                      + JaynesBucket(CategoryTotal(Filter(window, IsJaynes), c))
  {
    Add(SharedSeries(window), JaynesSeries(window))
  }

  /** A series whose values are all bucketed totals a non-negative multiple of 10. */
  lemma {:induction false} BucketedSum(s: Series, f: int -> int)
    requires forall x :: f(x) >= 0 && f(x) % 10 == 0
    ensures Sum(Apply(s, f)) >= 0 && Sum(Apply(s, f)) % 10 == 0
  {
    if |s| > 0 {
      BucketedSum(s[1..], f);
    }
  }

  /** The bucketed series of either kind total a non-negative multiple of 10. */
  lemma SeriesRound(window: seq<Transaction>)
    ensures Sum(SharedSeries(window)) >= 0 && Sum(SharedSeries(window)) % 10 == 0
    ensures Sum(JaynesSeries(window)) >= 0 && Sum(JaynesSeries(window)) % 10 == 0
  {
    BucketedSum(GroupByCategory(Filter(window, IsShared)), SharedBucket);
    BucketedSum(GroupByCategory(Filter(window, IsJaynes)), JaynesBucket);
  }

  /** The total of the payments is the shared total plus the "Jayne's" total,
      a non-negative multiple of 10. */
  lemma PaymentsTotal(window: seq<Transaction>)
    ensures Sum(Payments(window)) == Sum(SharedSeries(window)) + Sum(JaynesSeries(window))
    ensures Sum(Payments(window)) >= 0 && Sum(Payments(window)) % 10 == 0
  {
    SumAdd(SharedSeries(window), JaynesSeries(window));
    SeriesRound(window);
    TensAdd(Sum(Payments(window)), Sum(SharedSeries(window)), Sum(JaynesSeries(window)));
  }

  lemma TensAdd(t: int, a: int, b: int)
    requires t == a + b && a % 10 == 0 && b % 10 == 0
    ensures t % 10 == 0
  {
  }

  /** What `calculate_share` prints: the amount per category and their total. */
  datatype ShareReport = ShareReport(payments: Series, total: int)

  /** `Money.calculate_share`. */
  function CalculateShare(rows: seq<Transaction>): (r: ShareReport)
    ensures r.payments == Payments(Window(rows))
    ensures r.total == Sum(SharedSeries(Window(rows))) + Sum(JaynesSeries(Window(rows)))
    ensures r.total >= 0 && r.total % 10 == 0
    ensures |Window(rows)| == 0 ==> r.payments == [] && r.total == 0
  {
    var payments := Payments(Window(rows));
    PaymentsTotal(Window(rows));
    ShareReport(payments, Sum(payments))
  }

  /** Two dates neither of which is before the other are the same date. */
  lemma SameDate(a: CalendarDate, b: CalendarDate)
    requires !Before(a, b) && !Before(b, a)
    ensures a == b
  {
  }

  /** Appending a row that is not a settlement leaves the cutoff where it was. */
  lemma CutoffAppend(rows: seq<Transaction>, x: Transaction)
    requires x.category != SettlementCategory
    ensures Cutoff(rows + [x]) == Cutoff(rows)
  {
    var all := rows + [x];
    assert forall i :: 0 <= i < |rows| ==> all[i] == rows[i];
    if exists i :: 0 <= i < |rows| && rows[i].category == SettlementCategory {
      var i :| 0 <= i < |rows| && rows[i].category == SettlementCategory;
      assert all[i].category == SettlementCategory;
      var c, c' := Cutoff(rows), Cutoff(all);
      var j :| 0 <= j < |all| && all[j].category == SettlementCategory && all[j].date == c';
      assert j < |rows|;
      var k :| 0 <= k < |rows| && rows[k].category == SettlementCategory && rows[k].date == c;
      assert all[k] == rows[k];
      SameDate(c, c');
    }
  }

  /** The window only grows by the appended row, if that row is late enough. */
  lemma WindowAppend(rows: seq<Transaction>, x: Transaction)
    requires x.category != SettlementCategory
    ensures Window(rows + [x]) == Window(rows) + DatedAfter([x], Cutoff(rows))
  {
    CutoffAppend(rows, x);
    DatedAfterAppend(rows, [x], Cutoff(rows));
  }

  /** A late row that is neither "Jayne's" nor shared adds nothing to either selection. */
  lemma SelectionsUnchanged(w: seq<Transaction>, x: Transaction, d: Date)
    requires !IsJaynes(x) && !IsShared(x)
    ensures Filter(w + DatedAfter([x], d), IsShared) == Filter(w, IsShared)
    ensures Filter(w + DatedAfter([x], d), IsJaynes) == Filter(w, IsJaynes)
  {
    var tail := DatedAfter([x], d);
    DatedAfterSingle(x, d);
    assert Filter(tail, IsShared) == [] && Filter(tail, IsJaynes) == [] by {
      if tail != [] {
        assert tail == [x] && [x][1..] == [];
      }
    }
    FilterAppend(w, tail, IsShared);
    FilterAppend(w, tail, IsJaynes);
    assert Filter(w, IsShared) + [] == Filter(w, IsShared);
    assert Filter(w, IsJaynes) + [] == Filter(w, IsJaynes);
  }

  /** A row that is not a settlement, not "Jayne's" and not flagged `Share`
      changes nothing in the report: such rows never contribute. */
  lemma UnrelatedRowIgnored(rows: seq<Transaction>, x: Transaction)
    requires x.category != SettlementCategory && !IsJaynes(x) && !IsShared(x)
    ensures CalculateShare(rows + [x]) == CalculateShare(rows)
  {
    var w, tail := Window(rows), DatedAfter([x], Cutoff(rows));
    assert Window(rows + [x]) == w + tail by {
      WindowAppend(rows, x);
    }
    assert Payments(w + tail) == Payments(w) by {
      SelectionsUnchanged(w, x, Cutoff(rows));
    }
  }

  /** Recording a settlement dated no earlier than any other row empties the
      report: the next settlement starts from zero. */
  lemma SettlementResets(rows: seq<Transaction>, p: Transaction)
    requires p.category == SettlementCategory
    requires forall i :: 0 <= i < |rows| ==> !Before(p.date, rows[i].date)
    ensures CalculateShare(rows + [p]) == ShareReport([], 0)
  {
    var all := rows + [p];
    assert all[|rows|] == p;
    var c := Cutoff(all);
    var j :| 0 <= j < |all| && all[j].category == SettlementCategory && all[j].date == c;
    assert j < |rows| ==> all[j] == rows[j];
    SameDate(c, p.date);
    var w := Window(all);
    if |w| > 0 {
      assert false;
    }
  }

  /** The worked example: a single "Jayne's" expense of 23 in June 2021, with
      no settlement on record. The sum -23 floor-divides to -3, so the
      payment is 30, not the 20 a truncate-the-magnitude reading would give. */
  lemma JaynesExample()
    ensures var row := Transaction(Date(2021, 6, 1), JaynesDescription, "Food", -23, "Card", false);
            CalculateShare([row]) == ShareReport([Entry("Food", 30)], 30)
  {
    var row := Transaction(Date(2021, 6, 1), JaynesDescription, "Food", -23, "Card", false);
    assert Cutoff([row]) == Epoch;
    DatedAfterSingle(row, Epoch);
    assert Window([row]) == [row];
    assert [row][1..] == [];
    assert Filter([row], IsShared) == [];
    assert Filter([row], IsJaynes) == [row];
    assert GroupByCategory([row]) == [Entry("Food", -23)];
    assert Bucket(-23, 10) == 30;
  }
}
