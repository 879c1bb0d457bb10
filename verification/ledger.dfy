/** The "Transactions" sheet: one record per row, and the row selections and
    column sums the tracker builds on it (`df.loc[mask]`, `["Amount"].sum()`). */
module Ledger {
  import opened Dates

  /** One row of the Transactions sheet. `amount` is signed: negative for an expense. */
  datatype Transaction = Transaction(
    date: CalendarDate,
    description: string,
    category: string,
    amount: int,
    source: string,
    share: bool)

  /** `df.loc[mask]`: the rows satisfying `p`, each as often as in `s`. */
  function Filter<T(==,!new)>(s: seq<T>, p: T -> bool): (r: seq<T>)
    ensures |r| <= |s|
    ensures forall i :: 0 <= i < |r| ==> p(r[i])
    ensures forall x :: multiset(r)[x] == if p(x) then multiset(s)[x] else 0
  {
    if |s| == 0 then []
    else
      assert s == [s[0]] + s[1..];
      if p(s[0]) then [s[0]] + Filter(s[1..], p) else Filter(s[1..], p)
  }

  lemma {:induction false} FilterAppend<T(!new)>(a: seq<T>, b: seq<T>, p: T -> bool)
    ensures Filter(a + b, p) == Filter(a, p) + Filter(b, p)
  {
    if |a| > 0 {
      assert (a + b)[1..] == a[1..] + b;
      FilterAppend(a[1..], b, p);
    } else {
      assert a + b == b;
    }
  }

  /** A selection every row passes keeps them all. */
  lemma {:induction false} FilterAll<T(!new)>(s: seq<T>, p: T -> bool)
    requires forall i :: 0 <= i < |s| ==> p(s[i])
    ensures Filter(s, p) == s
  {
    if |s| > 0 {
      FilterAll(s[1..], p);
    }
  }

  /** A selection no row passes is empty. */
  lemma {:induction false} FilterNone<T(!new)>(s: seq<T>, p: T -> bool)
    requires forall i :: 0 <= i < |s| ==> !p(s[i])
    ensures Filter(s, p) == []
  {
    if |s| > 0 {
      FilterNone(s[1..], p);
    }
  }

  /** `df["Amount"].sum()`; 0 for no rows. */
  function TotalAmount(rows: seq<Transaction>): int {
    if |rows| == 0 then 0 else rows[0].amount + TotalAmount(rows[1..])
  }

  lemma {:induction false} TotalAmountAppend(a: seq<Transaction>, b: seq<Transaction>)
    ensures TotalAmount(a + b) == TotalAmount(a) + TotalAmount(b)
  {
    if |a| > 0 {
      assert (a + b)[1..] == a[1..] + b;
      TotalAmountAppend(a[1..], b);
    } else {
      assert a + b == b;
    }
  }

  /** The rows dated strictly after `d`: `df.loc[df["Date"] > d]`. */
  function DatedAfter(rows: seq<Transaction>, d: Date): (r: seq<Transaction>)
    ensures forall i :: 0 <= i < |r| ==> Before(d, r[i].date)
    ensures forall t :: multiset(r)[t] == if Before(d, t.date) then multiset(rows)[t] else 0
  {
    Filter(rows, (t: Transaction) => Before(d, t.date))
  }

  lemma DatedAfterAppend(a: seq<Transaction>, b: seq<Transaction>, d: Date)
    ensures DatedAfter(a + b, d) == DatedAfter(a, d) + DatedAfter(b, d)
  {
    FilterAppend(a, b, (t: Transaction) => Before(d, t.date));
  }

  /** One row, seen on its own: it is kept exactly when it is dated after `d`. */
  lemma DatedAfterSingle(x: Transaction, d: Date)
    ensures DatedAfter([x], d) == if Before(d, x.date) then [x] else []
  {
    assert [x][1..] == [];
  }

  /** Sum of `Amount` over the rows whose `Category` is `c`. */
  function CategoryTotal(rows: seq<Transaction>, c: string): int {
    TotalAmount(Filter(rows, (t: Transaction) => t.category == c))
  }

  /** Sum of `Amount` over the rows whose `Source` is `account`:
      `transactions[transactions["Source"] == account]["Amount"].sum()`. */
  function Flow(rows: seq<Transaction>, account: string): (r: int)
    ensures (forall i :: 0 <= i < |rows| ==> rows[i].source != account) ==> r == 0
    ensures (forall i :: 0 <= i < |rows| ==> rows[i].source == account) ==> r == TotalAmount(rows)
  {
    var p := (t: Transaction) => t.source == account;
    assert (forall i :: 0 <= i < |rows| ==> !p(rows[i])) ==> Filter(rows, p) == [] by {
      if forall i :: 0 <= i < |rows| ==> !p(rows[i]) {
        FilterNone(rows, p);
      }
    }
    assert (forall i :: 0 <= i < |rows| ==> p(rows[i])) ==> Filter(rows, p) == rows by {
      if forall i :: 0 <= i < |rows| ==> p(rows[i]) {
        FilterAll(rows, p);
      }
    }
    TotalAmount(Filter(rows, p))
  }

  /** The set of categories present among the rows. */
  function Categories(rows: seq<Transaction>): set<string> {
    set t | t in rows :: t.category
  }

  lemma CategoriesCons(rows: seq<Transaction>)
    requires |rows| > 0
    ensures Categories(rows) == {rows[0].category} + Categories(rows[1..])
  {
    assert forall t :: t in rows <==> t == rows[0] || t in rows[1..] by {
      assert rows == [rows[0]] + rows[1..];
    }
  }

  /** Splitting off the first row splits the category total accordingly. */
  lemma CategoryTotalCons(rows: seq<Transaction>, c: string)
    requires |rows| > 0
    ensures CategoryTotal(rows, c)
         == (if rows[0].category == c then rows[0].amount else 0) + CategoryTotal(rows[1..], c)
  {
  }

  /** A category that no row carries totals 0. */
  lemma {:induction false} CategoryTotalAbsent(rows: seq<Transaction>, c: string)
    requires c !in Categories(rows)
    ensures CategoryTotal(rows, c) == 0
  {
    if |rows| > 0 {
      assert rows[0] in rows;
      assert Categories(rows[1..]) <= Categories(rows) by {
        forall k | k in Categories(rows[1..]) ensures k in Categories(rows) {
          var t :| t in rows[1..] && t.category == k;
          assert t in rows;
        }
      }
      CategoryTotalAbsent(rows[1..], c);
    }
  }

  /** Cash flow is additive over consecutive stretches of the ledger. */
  lemma FlowAppend(a: seq<Transaction>, b: seq<Transaction>, account: string)
    ensures Flow(a + b, account) == Flow(a, account) + Flow(b, account)
  {
    var p := (t: Transaction) => t.source == account;
    FilterAppend(a, b, p);
    TotalAmountAppend(Filter(a, p), Filter(b, p));
  }

  /** One row, seen on its own: its amount counts for its own account only. */
  lemma FlowSingle(x: Transaction, account: string)
    ensures Flow([x], account) == if x.source == account then x.amount else 0
  {
    assert [x][0] == x && [x][1..] == [];
    assert TotalAmount([x]) == x.amount;
  }

  /** An account that no row names has no flow. */
  lemma {:induction false} FlowAbsent(rows: seq<Transaction>, account: string)
    requires forall i :: 0 <= i < |rows| ==> rows[i].source != account
    ensures Flow(rows, account) == 0
  {
    if |rows| > 0 {
      FlowAbsent(rows[1..], account);
    }
  }
}
