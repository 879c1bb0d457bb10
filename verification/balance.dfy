/** `Money.update_balance` and `Money._check_columns`: a new snapshot column
    for the "Account Balance" sheet, computed from the latest snapshot plus
    the cash flow recorded since its date. */
module Balance {
  import opened Wrappers
  import opened Text
  import opened Dates
  import opened Ledger

  /** The first column of the sheet, naming the account of each row. */
  const AccountLabel := "Account"

  /** The label of the opening-balance column, which stands for the epoch. */
  const InitLabel := "Init Balance"

  /** The prefix pandas gives to a header cell that was left empty. */
  const UnnamedPrefix := "Unnamed"

  /** One account: its name and one balance per snapshot column. */
  datatype Row = Row(account: string, balances: seq<int>)

  /** The "Account Balance" sheet: the account column, then the snapshot
      columns `labels` from left to right. */
  datatype Table = Table(labels: seq<string>, rows: seq<Row>)

  /** Every row has one balance per snapshot column, as in a data frame. */
  predicate Rectangular(t: Table) {
    forall i :: 0 <= i < |t.rows| ==> |t.rows[i].balances| == |t.labels|
  }

  /** `account_balance.columns`. */
  function Columns(t: Table): seq<string> {
    [AccountLabel] + t.labels
  }

  predicate HasUnnamedColumn(columns: seq<string>) {
    exists i :: 0 <= i < |columns| && StartsWith(columns[i], UnnamedPrefix)
  }

  /** `Money._check_columns`: whether some column name starts with "Unnamed". */
  method CheckColumns(columns: seq<string>) returns (malformed: bool)
    ensures malformed <==> exists i :: 0 <= i < |columns| && StartsWith(columns[i], UnnamedPrefix)
  {
    for i := 0 to |columns|
      invariant forall j :: 0 <= j < i ==> !StartsWith(columns[j], UnnamedPrefix)
    {
      if StartsWith(columns[i], UnnamedPrefix) {
        return true;
      }
    }
    return false;
  }

  /** The date a snapshot label stands for: the epoch for "Init Balance",
      otherwise the ISO date the label spells (`pd.to_datetime`). */
  function BaselineDate(header: string): (r: Option<CalendarDate>)
    ensures header == InitLabel ==> r == Some(Epoch)
    ensures header != InitLabel ==> forall d: CalendarDate :: r == Some(d) <==> header == FormatIso(d)
  {
    if header == InitLabel then Some(Epoch)
    else
      assert forall d: CalendarDate :: ParseIso(header) == Some(d) <==> header == FormatIso(d) by {
        forall d: CalendarDate ensures ParseIso(header) == Some(d) <==> header == FormatIso(d) {
          ParseIsoIff(header, d);
        }
      }
      ParseIso(header)
  }

  /** The position of the first column labelled `header`. */
  function IndexOf(labels: seq<string>, header: string): (r: Option<nat>)
    ensures r.None? <==> header !in labels
    ensures r.Some? ==> r.value < |labels| && labels[r.value] == header
    ensures r.Some? ==> forall j :: 0 <= j < r.value ==> labels[j] != header
  {
    if |labels| == 0 then None
    else if labels[0] == header then Some(0)
    else match IndexOf(labels[1..], header)
      case None => None
      case Some(k) => Some(k + 1)
  }

  /** The balance of row `i` in the column labelled `header`. */
  function Cell(t: Table, i: int, header: string): int
    requires Rectangular(t) && 0 <= i < |t.rows| && header in t.labels
  {
    t.rows[i].balances[IndexOf(t.labels, header).value]
  }

  /** `df[header] = values`: replaces the column in place when the label is
      already there, appends it on the right otherwise. */
  function WithColumn(t: Table, header: string, values: seq<int>): (r: Table)
    requires Rectangular(t) && |values| == |t.rows|
    ensures Rectangular(r) && header in r.labels
    ensures r.labels == if header in t.labels then t.labels else t.labels + [header]
    ensures |r.rows| == |t.rows|
    ensures forall i :: 0 <= i < |t.rows| ==> r.rows[i].account == t.rows[i].account
    ensures forall i :: 0 <= i < |t.rows| ==> Cell(r, i, header) == values[i]
    ensures forall i, j :: 0 <= i < |t.rows| && 0 <= j < |t.labels| && t.labels[j] != header ==>
      r.rows[i].balances[j] == t.rows[i].balances[j]
  {
    match IndexOf(t.labels, header)
    case Some(j) =>
      Table(t.labels, seq(|t.rows|, i requires 0 <= i < |t.rows| =>
        Row(t.rows[i].account, t.rows[i].balances[j := values[i]])))
    case None =>
      var labels := t.labels + [header];
      assert IndexOf(labels, header) == Some(|t.labels|);
      Table(labels, seq(|t.rows|, i requires 0 <= i < |t.rows| =>
        Row(t.rows[i].account, t.rows[i].balances + [values[i]])))
  }

  /** Why `update_balance` stops without writing anything. */
  datatype BalanceError =
    | UnnamedColumns(columns: seq<string>)  // `_check_columns` failed: report and `sys.exit()`
    | UnparsableBaseline(header: string)     // `pd.to_datetime` cannot read the rightmost label

  /** The label of the rightmost column, `columns[-1]`. */
  function LatestLabel(t: Table): (r: string)
    ensures r == Columns(t)[|Columns(t)| - 1]
  {
    if |t.labels| == 0 then AccountLabel else t.labels[|t.labels| - 1]
  }

  /** The rightmost snapshot of row `i`. */
  function Baseline(t: Table, i: int): int
    requires Rectangular(t) && 0 <= i < |t.rows| && |t.labels| > 0
  {
    t.rows[i].balances[|t.labels| - 1]
  }

  /** The new snapshot: each account's baseline plus its flow in the window. */
  function NewValues(t: Table, window: seq<Transaction>): (r: seq<int>)
    requires Rectangular(t) && |t.labels| > 0
    ensures |r| == |t.rows|
    ensures forall i :: 0 <= i < |t.rows| ==> r[i] == Baseline(t, i) + Flow(window, t.rows[i].account)
    ensures window == [] ==> forall i :: 0 <= i < |t.rows| ==> r[i] == Baseline(t, i)
  {
    seq(|t.rows|, i requires 0 <= i < |t.rows| => Baseline(t, i) + Flow(window, t.rows[i].account))
  }

  /** `Money.update_balance`, with the clock reading `today` as a parameter and
      the updated sheet returned instead of written. */
  function UpdateBalance(t: Table, txs: seq<Transaction>, today: CalendarDate): (r: Result<Table, BalanceError>)
    requires Rectangular(t)
    ensures r == Failure(UnnamedColumns(Columns(t)))
        <==> exists i :: 0 <= i < |Columns(t)| && StartsWith(Columns(t)[i], UnnamedPrefix)
    ensures r == Failure(UnparsableBaseline(LatestLabel(t)))
        <==> !HasUnnamedColumn(Columns(t)) && BaselineDate(LatestLabel(t)).None?
    ensures r.Success? <==> !HasUnnamedColumn(Columns(t)) && BaselineDate(LatestLabel(t)).Some?
    ensures r.Success? ==> |t.labels| > 0 && BaselineDate(LatestLabel(t)).Some?
    ensures r.Success? ==> var s := r.value;
      && Rectangular(s)
      && s.labels == (if FormatIso(today) in t.labels then t.labels else t.labels + [FormatIso(today)])
      && |s.rows| == |t.rows|
      && (forall i :: 0 <= i < |t.rows| ==> s.rows[i].account == t.rows[i].account)
      && (forall i, j :: 0 <= i < |t.rows| && 0 <= j < |t.labels| && t.labels[j] != FormatIso(today) ==>
            s.rows[i].balances[j] == t.rows[i].balances[j])
      && (forall i :: 0 <= i < |t.rows| ==>
            Cell(s, i, FormatIso(today))
            == Baseline(t, i) + Flow(DatedAfter(txs, BaselineDate(LatestLabel(t)).value), t.rows[i].account))
  {
    var columns := Columns(t);
    if HasUnnamedColumn(columns) then Failure(UnnamedColumns(columns))
    else
      match BaselineDate(LatestLabel(t))
      case None => Failure(UnparsableBaseline(LatestLabel(t)))
      case Some(b) =>
        assert |t.labels| > 0;
        Success(WithColumn(t, FormatIso(today), NewValues(t, DatedAfter(txs, b))))
  }

  /** A snapshot label written by the tracker is never mistaken for an unnamed column. */
  lemma IsoNotUnnamed(d: CalendarDate)
    ensures !StartsWith(FormatIso(d), UnnamedPrefix)
  {
    var s := FormatIso(d);
    assert IsDigit(s[..4][0]);
  }

  /** Adding the tracker's column keeps a table free of unnamed columns. */
  lemma NamedAfterUpdate(t: Table, today: CalendarDate, s: Table)
    requires !HasUnnamedColumn(Columns(t))
    requires s.labels == if FormatIso(today) in t.labels then t.labels else t.labels + [FormatIso(today)]
    ensures !HasUnnamedColumn(Columns(s))
  {
    IsoNotUnnamed(today);
    forall i | 0 <= i < |Columns(s)| ensures !StartsWith(Columns(s)[i], UnnamedPrefix) {
      if i < |Columns(t)| {
        assert Columns(s)[i] == Columns(t)[i];
      }
    }
  }

  /** No transaction dated after `d` means no flow after `d`, for any account. */
  lemma QuietSince(txs: seq<Transaction>, d: Date, account: string)
    requires forall k :: 0 <= k < |txs| ==> !Before(d, txs[k].date)
    ensures DatedAfter(txs, d) == [] && Flow(DatedAfter(txs, d), account) == 0
  {
    FilterNone(txs, (t: Transaction) => Before(d, t.date));
  }

  /** An account without transactions in the window keeps its baseline balance. */
  lemma NoActivityKeepsBalance(t: Table, txs: seq<Transaction>, today: CalendarDate, b: CalendarDate, i: int)
    requires Rectangular(t) && !HasUnnamedColumn(Columns(t))
    requires BaselineDate(LatestLabel(t)) == Some(b)
    requires 0 <= i < |t.rows|
    requires forall k :: 0 <= k < |txs| && Before(b, txs[k].date) ==> txs[k].source != t.rows[i].account
    ensures UpdateBalance(t, txs, today).Success?
    ensures Cell(UpdateBalance(t, txs, today).value, i, FormatIso(today)) == Baseline(t, i)
  {
    var w := DatedAfter(txs, b);
    forall j | 0 <= j < |w| ensures w[j].source != t.rows[i].account {
      assert multiset(w)[w[j]] > 0;
      assert w[j] in txs;
    }
    FlowAbsent(w, t.rows[i].account);
  }

  /** One more transaction in the window moves only its own account's new
      value, by its amount. */
  lemma NewValuesAppend(t: Table, window: seq<Transaction>, x: Transaction)
    requires Rectangular(t) && |t.labels| > 0
    ensures forall i :: 0 <= i < |t.rows| ==>
      NewValues(t, window + [x])[i]
      == NewValues(t, window)[i] + (if x.source == t.rows[i].account then x.amount else 0)
  {
    forall i | 0 <= i < |t.rows|
      ensures Flow(window + [x], t.rows[i].account)
              == Flow(window, t.rows[i].account) + (if x.source == t.rows[i].account then x.amount else 0)
    {
      FlowAppend(window, [x], t.rows[i].account);
      FlowSingle(x, t.rows[i].account);
    }
  }

  /** A transaction dated on or before the baseline is not counted: entering
      it late changes nothing. */
  lemma BackdatedEntryIgnored(t: Table, txs: seq<Transaction>, x: Transaction, today: CalendarDate, b: CalendarDate)
    requires Rectangular(t)
    requires BaselineDate(LatestLabel(t)) == Some(b)
    requires !Before(b, x.date)
    ensures UpdateBalance(t, txs + [x], today) == UpdateBalance(t, txs, today)
  {
    DatedAfterAppend(txs, [x], b);
    DatedAfterSingle(x, b);
    assert DatedAfter(txs, b) + [] == DatedAfter(txs, b);
  }

  /** Storing a column that is already there changes nothing. */
  lemma WithSameColumn(t: Table, header: string, values: seq<int>)
    requires Rectangular(t) && |values| == |t.rows| && header in t.labels
    requires forall i :: 0 <= i < |t.rows| ==> values[i] == Cell(t, i, header)
    ensures WithColumn(t, header, values) == t
  {
    var r := WithColumn(t, header, values);
    var j := IndexOf(t.labels, header).value;
    assert r.labels == t.labels;
    forall i | 0 <= i < |t.rows| ensures r.rows[i] == t.rows[i] {
      assert r.rows[i].balances == t.rows[i].balances[j := values[i]];
    }
  }

  /** When the checks pass, the update is the new column computed from the
      baseline date. */
  lemma UpdateBalanceSuccess(t: Table, txs: seq<Transaction>, today: CalendarDate, b: CalendarDate)
    requires Rectangular(t) && !HasUnnamedColumn(Columns(t))
    requires BaselineDate(LatestLabel(t)) == Some(b)
    ensures |t.labels| > 0
    ensures UpdateBalance(t, txs, today) == Success(WithColumn(t, FormatIso(today), NewValues(t, DatedAfter(txs, b))))
  {
  }

  /** After the column is stored, the rightmost column and its values. */
  lemma LatestAfterWith(t: Table, header: string, values: seq<int>)
    requires Rectangular(t) && |values| == |t.rows| && |t.labels| > 0
    ensures var r := WithColumn(t, header, values);
      && |r.labels| > 0
      && (header !in t.labels ==> LatestLabel(r) == header)
      && (header in t.labels ==> LatestLabel(r) == LatestLabel(t))
      && forall i :: 0 <= i < |t.rows| ==>
           (Baseline(r, i) == if header !in t.labels || IndexOf(t.labels, header).value == |t.labels| - 1
                              then values[i] else Baseline(t, i))
  {
    var r := WithColumn(t, header, values);
    if header !in t.labels {
      assert IndexOf(r.labels, header).value == |r.labels| - 1 by {
        var k := IndexOf(r.labels, header).value;
        assert r.labels == t.labels + [header];
      }
    }
  }

  /** The baseline the second run on the same day starts from, and the
      values it computes: those already in the day's column. */
  lemma RerunValues(t: Table, txs: seq<Transaction>, today: CalendarDate, b: CalendarDate) returns (b1: CalendarDate)
    requires Rectangular(t) && |t.labels| > 0
    requires BaselineDate(LatestLabel(t)) == Some(b)
    requires forall k :: 0 <= k < |txs| ==> !Before(today, txs[k].date)
    ensures var t1 := WithColumn(t, FormatIso(today), NewValues(t, DatedAfter(txs, b)));
      && BaselineDate(LatestLabel(t1)) == Some(b1)
      && |t1.labels| > 0
      && forall i :: 0 <= i < |t1.rows| ==>
           NewValues(t1, DatedAfter(txs, b1))[i] == Cell(t1, i, FormatIso(today))
  {
    var h := FormatIso(today);
    var values := NewValues(t, DatedAfter(txs, b));
    var t1 := WithColumn(t, h, values);
    LatestAfterWith(t, h, values);
    var replacesLast := h !in t.labels || IndexOf(t.labels, h).value == |t.labels| - 1;
    assert h != InitLabel;
    ParseFormatIso(today);
    b1 := if h !in t.labels then today else b;
    assert replacesLast ==> b1 == today by {
      if h in t.labels && replacesLast {
        assert LatestLabel(t) == h;
      }
    }
    forall i | 0 <= i < |t1.rows| ensures NewValues(t1, DatedAfter(txs, b1))[i] == Cell(t1, i, h) {
      if replacesLast {
        QuietSince(txs, today, t.rows[i].account);
      }
    }
  }

  /** Updating twice on the same day, with no transaction dated after that
      day, gives the table of the first update: the second run replaces the
      day's column with the same values instead of adding a column. */
  lemma SameDayRerun(t: Table, txs: seq<Transaction>, today: CalendarDate)
    requires Rectangular(t) && UpdateBalance(t, txs, today).Success?
    requires forall k :: 0 <= k < |txs| ==> !Before(today, txs[k].date)
    ensures UpdateBalance(UpdateBalance(t, txs, today).value, txs, today) == UpdateBalance(t, txs, today)
  {
    var h := FormatIso(today);
    var b := BaselineDate(LatestLabel(t)).value;
    UpdateBalanceSuccess(t, txs, today, b);
    var t1 := WithColumn(t, h, NewValues(t, DatedAfter(txs, b)));
    assert !HasUnnamedColumn(Columns(t1)) by {
      NamedAfterUpdate(t, today, t1);
    }
    var b1 := RerunValues(t, txs, today, b);
    UpdateBalanceSuccess(t1, txs, today, b1);
    WithSameColumn(t1, h, NewValues(t1, DatedAfter(txs, b1)));
  }

  /** The second of two updates, given what the first one left: a baseline
      dated `d1` holding the first baseline plus the flow since `b0`. */
  lemma SecondUpdate(t0: Table, t1: Table, seen: seq<Transaction>, later: seq<Transaction>,
                     b0: CalendarDate, d1: CalendarDate, d2: CalendarDate)
    requires Rectangular(t0) && |t0.labels| > 0
    requires Rectangular(t1) && !HasUnnamedColumn(Columns(t1)) && |t1.labels| > 0
    requires BaselineDate(LatestLabel(t1)) == Some(d1) && !Before(d1, b0)
    requires |t1.rows| == |t0.rows|
    requires forall i :: 0 <= i < |t0.rows| ==> t1.rows[i].account == t0.rows[i].account
    requires forall i :: 0 <= i < |t0.rows| ==>
      Baseline(t1, i) == Baseline(t0, i) + Flow(DatedAfter(seen, b0), t0.rows[i].account)
    requires forall k :: 0 <= k < |seen| ==> !Before(d1, seen[k].date)
    requires forall k :: 0 <= k < |later| ==> Before(d1, later[k].date)
    ensures UpdateBalance(t1, seen + later, d2).Success?
    ensures forall i :: 0 <= i < |t0.rows| ==>
      Cell(UpdateBalance(t1, seen + later, d2).value, i, FormatIso(d2))
      == Baseline(t0, i) + Flow(DatedAfter(seen + later, b0), t0.rows[i].account)
  {
    UpdateBalanceSuccess(t1, seen + later, d2, d1);
    WindowsAfterUpdate(seen, later, b0, d1);
    var values2 := NewValues(t1, later);
    forall i | 0 <= i < |t0.rows|
      ensures values2[i] == Baseline(t0, i) + Flow(DatedAfter(seen + later, b0), t0.rows[i].account)
    {
      FlowAppend(DatedAfter(seen, b0), later, t0.rows[i].account);
    }
  }

  /** Which transactions each of two successive updates looks at. */
  lemma WindowsAfterUpdate(seen: seq<Transaction>, later: seq<Transaction>, b0: Date, d1: Date)
    requires !Before(d1, b0)
    requires forall k :: 0 <= k < |seen| ==> !Before(d1, seen[k].date)
    requires forall k :: 0 <= k < |later| ==> Before(d1, later[k].date)
    ensures DatedAfter(seen + later, d1) == later
    ensures DatedAfter(seen + later, b0) == DatedAfter(seen, b0) + later
  {
    DatedAfterAppend(seen, later, d1);
    FilterNone(seen, (t: Transaction) => Before(d1, t.date));
    FilterAll(later, (t: Transaction) => Before(d1, t.date));
    assert [] + later == later;
    DatedAfterAppend(seen, later, b0);
    FilterAll(later, (t: Transaction) => Before(b0, t.date));
  }

  /** Two successive updates agree with a single update over the whole
      period: when no transaction the first update saw is dated after its
      day, and every transaction entered since is dated later, the second
      new column holds the first baseline plus all flow since that baseline. */
  lemma IncrementalUpdates(t0: Table, seen: seq<Transaction>, later: seq<Transaction>,
                           b0: CalendarDate, d1: CalendarDate, d2: CalendarDate)
    requires Rectangular(t0) && !HasUnnamedColumn(Columns(t0))
    requires BaselineDate(LatestLabel(t0)) == Some(b0)
    requires FormatIso(d1) !in t0.labels && !Before(d1, b0)
    requires forall k :: 0 <= k < |seen| ==> !Before(d1, seen[k].date)
    requires forall k :: 0 <= k < |later| ==> Before(d1, later[k].date)
    ensures UpdateBalance(t0, seen, d1).Success?
    ensures var t1 := UpdateBalance(t0, seen, d1).value;
      && UpdateBalance(t1, seen + later, d2).Success?
      && forall i :: 0 <= i < |t0.rows| ==>
           Cell(UpdateBalance(t1, seen + later, d2).value, i, FormatIso(d2))
           == Baseline(t0, i) + Flow(DatedAfter(seen + later, b0), t0.rows[i].account)
  {
    var h1 := FormatIso(d1);
    var values := NewValues(t0, DatedAfter(seen, b0));
    UpdateBalanceSuccess(t0, seen, d1, b0);
    var t1 := WithColumn(t0, h1, values);
    assert !HasUnnamedColumn(Columns(t1)) by {
      NamedAfterUpdate(t0, d1, t1);
    }
    LatestAfterWith(t0, h1, values);
    assert BaselineDate(LatestLabel(t1)) == Some(d1) by {
      assert h1 != InitLabel;
      ParseFormatIso(d1);
    }
    SecondUpdate(t0, t1, seen, later, b0, d1, d2);
  }

  /** A transaction dated after the day of an update is counted by that
      update, and again by the next one: the next update starts from the
      day's label and takes every row dated after it. Two updates then add
      its amount twice, where one update over the whole period adds it once. */
  lemma FutureDatedCountedTwice(t0: Table, x: Transaction, b0: CalendarDate, d1: CalendarDate, d2: CalendarDate, i: int)
    requires Rectangular(t0) && !HasUnnamedColumn(Columns(t0))
    requires BaselineDate(LatestLabel(t0)) == Some(b0)
    requires FormatIso(d1) !in t0.labels && Before(b0, d1) && Before(d1, x.date)
    requires 0 <= i < |t0.rows| && x.source == t0.rows[i].account
    ensures UpdateBalance(t0, [x], d1).Success?
    ensures var t1 := UpdateBalance(t0, [x], d1).value;
      && UpdateBalance(t1, [x], d2).Success?
      && Cell(UpdateBalance(t1, [x], d2).value, i, FormatIso(d2)) == Baseline(t0, i) + 2 * x.amount
    ensures Cell(UpdateBalance(t0, [x], d2).value, i, FormatIso(d2)) == Baseline(t0, i) + x.amount
  {
    var t1 := FirstUpdateCounts(t0, x, b0, d1, i);
    assert Before(b0, x.date);
    DatedAfterSingle(x, b0);
    FlowSingle(x, t0.rows[i].account);
    UpdateBalanceSuccess(t0, [x], d2, b0);
    UpdateBalanceSuccess(t1, [x], d2, d1);
    DatedAfterSingle(x, d1);
  }

  /** The first update of `FutureDatedCountedTwice`: it already counts the
      transaction, and leaves a baseline dated `d1`. */
  lemma FirstUpdateCounts(t0: Table, x: Transaction, b0: CalendarDate, d1: CalendarDate, i: int) returns (t1: Table)
    requires Rectangular(t0) && !HasUnnamedColumn(Columns(t0))
    requires BaselineDate(LatestLabel(t0)) == Some(b0)
    requires FormatIso(d1) !in t0.labels && Before(b0, x.date)
    requires 0 <= i < |t0.rows| && x.source == t0.rows[i].account
    ensures UpdateBalance(t0, [x], d1) == Success(t1)
    ensures Rectangular(t1) && !HasUnnamedColumn(Columns(t1)) && |t1.labels| > 0
    ensures BaselineDate(LatestLabel(t1)) == Some(d1)
    ensures |t1.rows| == |t0.rows| && t1.rows[i].account == t0.rows[i].account
    ensures Baseline(t1, i) == Baseline(t0, i) + x.amount
  {
    var h1 := FormatIso(d1);
    UpdateBalanceSuccess(t0, [x], d1, b0);
    DatedAfterSingle(x, b0);
    FlowSingle(x, t0.rows[i].account);
    var values := NewValues(t0, DatedAfter([x], b0));
    t1 := WithColumn(t0, h1, values);
    assert !HasUnnamedColumn(Columns(t1)) by {
      NamedAfterUpdate(t0, d1, t1);
    }
    LatestAfterWith(t0, h1, values);
    assert BaselineDate(LatestLabel(t1)) == Some(d1) by {
      assert h1 != InitLabel;
      ParseFormatIso(d1);
    }
  }
}
