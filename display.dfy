/** The movement list as `displayMovements` lays it out (script.js:110-136): an
    optional ascending sort of a copy of the amounts, then one row per position with
    its number, kind, amount and date. */
module Display {

  /** `mov > 0 ? 'deposit' : 'withdrawal'`: a zero movement is listed as a withdrawal. */
  datatype Kind = Deposit | Withdrawal

  function KindOf(amount: real): Kind
  {
    if amount > 0.0 then Deposit else Withdrawal
  }

  /** One rendered line: its 1-based number, kind, amount and the timestamp whose
      relative label is shown. */
  datatype Row = Row(number: nat, kind: Kind, amount: real, stamp: int)

  /** A movement together with the date recorded for it. */
  datatype Entry = Entry(amount: real, stamp: int)

  ghost predicate Ascending(s: seq<real>)
  {
    forall i, j :: 0 <= i < j < |s| ==> s[i] <= s[j]
  }

  ghost predicate AscendingEntries(s: seq<Entry>)
  {
    forall i, j :: 0 <= i < j < |s| ==> s[i].amount <= s[j].amount
  }

  /** Inserts `x` before the first element not smaller than it. */
  function Insert(x: real, s: seq<real>): (r: seq<real>)
    ensures |r| == |s| + 1
    ensures multiset(r) == multiset(s) + multiset{x}
  {
    if s == [] then [x]
    else if x <= s[0] then [x] + s
    else
      assert s == [s[0]] + s[1..];
      [s[0]] + Insert(x, s[1..])
  }

  lemma {:induction false} InsertAscending(x: real, s: seq<real>)
    requires Ascending(s)
    ensures Ascending(Insert(x, s))
  {
    if s != [] && x > s[0] {
      var rest := Insert(x, s[1..]);
      InsertAscending(x, s[1..]);
      forall k | 0 <= k < |rest| ensures s[0] <= rest[k] {
        assert rest[k] in multiset(rest);
        assert rest[k] in multiset(s[1..]) || rest[k] == x;
      }
    }
  }

  /** `slice().sort((a, b) => a - b)`: an ascending copy of the amounts; the account's
      own movements are a value here and are never touched. */
  function SortAscending(s: seq<real>): (r: seq<real>)
    ensures |r| == |s|
    ensures multiset(r) == multiset(s)
    ensures Ascending(r)
  {
    if s == [] then [] else
      assert s == [s[0]] + s[1..];
      InsertAscending(s[0], SortAscending(s[1..]));
      Insert(s[0], SortAscending(s[1..]))
  }

  /** Insertion by amount; an entry goes before the entries of equal amount. */
  function InsertEntry(e: Entry, s: seq<Entry>): (r: seq<Entry>)
    ensures |r| == |s| + 1
    ensures multiset(r) == multiset(s) + multiset{e}
  {
    if s == [] then [e]
    else if e.amount <= s[0].amount then [e] + s
    else
      assert s == [s[0]] + s[1..];
      [s[0]] + InsertEntry(e, s[1..])
  }

  lemma {:induction false} InsertEntryAscending(e: Entry, s: seq<Entry>)
    requires AscendingEntries(s)
    ensures AscendingEntries(InsertEntry(e, s))
  {
    if s != [] && e.amount > s[0].amount {
      var rest := InsertEntry(e, s[1..]);
      InsertEntryAscending(e, s[1..]);
      forall k | 0 <= k < |rest| ensures s[0].amount <= rest[k].amount {
        assert rest[k] in multiset(rest);
        assert rest[k] in multiset(s[1..]) || rest[k] == e;
      }
    }
  }

  function SortEntries(s: seq<Entry>): (r: seq<Entry>)
    ensures |r| == |s|
    ensures multiset(r) == multiset(s)
    ensures AscendingEntries(r)
  {
    if s == [] then [] else
      assert s == [s[0]] + s[1..];
      InsertEntryAscending(s[0], SortEntries(s[1..]));
      InsertEntry(s[0], SortEntries(s[1..]))
  }

  function Amounts(s: seq<Entry>): (r: seq<real>)
    ensures |r| == |s|
  {
    if s == [] then [] else [s[0].amount] + Amounts(s[1..])
  }

  /** Pairs each movement with the date at the same position. */
  function Entries(movements: seq<real>, dates: seq<int>): (r: seq<Entry>)
    requires |dates| == |movements|
    ensures |r| == |movements|
    ensures forall i :: 0 <= i < |r| ==> r[i] == Entry(movements[i], dates[i])
  {
    if movements == [] then [] else [Entry(movements[0], dates[0])] + Entries(movements[1..], dates[1..])
  }

  function RowsOf(amounts: seq<real>, stamps: seq<int>): (rows: seq<Row>)
    requires |stamps| == |amounts|
  {
    seq(|amounts|, i requires 0 <= i < |amounts| => Row(i + 1, KindOf(amounts[i]), amounts[i], stamps[i]))
  }

  /** The rows as script.js:115-122 builds them: the amounts are sorted when asked, but
      the date of row `i` is always `movementsDates[i]`, the date of the movement that
      was at position `i` before sorting. */
  function RowsAsWritten(movements: seq<real>, dates: seq<int>, sort: bool): (rows: seq<Row>)
    requires |dates| == |movements|
  {
    RowsOf(if sort then SortAscending(movements) else movements, dates)
  }

  /** Numbers entries from 1 in the order given. */
  function Numbered(es: seq<Entry>): (rows: seq<Row>)
  {
    seq(|es|, i requires 0 <= i < |es| => Row(i + 1, KindOf(es[i].amount), es[i].amount, es[i].stamp))
  }

  /** The rows as intended: movements are sorted together with their own dates. */
  function Rows(movements: seq<real>, dates: seq<int>, sort: bool): (rows: seq<Row>)
    requires |dates| == |movements|
  {
    var es := Entries(movements, dates);
    Numbered(if sort then SortEntries(es) else es)
  }

  /** What a row shows of a movement: its amount and its date. */
  function Shown(rows: seq<Row>): (es: seq<Entry>)
  {
    seq(|rows|, i requires 0 <= i < |rows| => Entry(rows[i].amount, rows[i].stamp))
  }

  lemma {:induction false} InsertEntryAmounts(e: Entry, s: seq<Entry>)
    ensures Amounts(InsertEntry(e, s)) == Insert(e.amount, Amounts(s))
  {
    if s != [] && e.amount > s[0].amount {
      InsertEntryAmounts(e, s[1..]);
      assert Amounts(s)[1..] == Amounts(s[1..]);
    }
  }

  /** Sorting entries by amount and then dropping the dates gives the sorted amounts. */
  lemma {:induction false} SortEntriesAmounts(s: seq<Entry>)
    ensures Amounts(SortEntries(s)) == SortAscending(Amounts(s))
  {
    if s != [] {
      SortEntriesAmounts(s[1..]);
      InsertEntryAmounts(s[0], SortEntries(s[1..]));
      assert Amounts(s)[0] == s[0].amount && Amounts(s)[1..] == Amounts(s[1..]);
    }
  }

  lemma {:induction false} AmountsOfEntries(movements: seq<real>, dates: seq<int>)
    requires |dates| == |movements|
    ensures Amounts(Entries(movements, dates)) == movements
  {
    if movements != [] {
      AmountsOfEntries(movements[1..], dates[1..]);
    }
  }

  /** The intended rows are numbered 1.. and marked a deposit exactly when positive;
      every row shows a movement with the date recorded for that movement, and each
      movement appears exactly once. */
  lemma RowsKeepDates(movements: seq<real>, dates: seq<int>, sort: bool)
    requires |dates| == |movements|
    ensures var rows := Rows(movements, dates, sort);
      && |rows| == |movements|
      && (forall i :: 0 <= i < |rows| ==> rows[i].number == i + 1)
      && (forall i :: 0 <= i < |rows| ==> (rows[i].kind == Deposit <==> rows[i].amount > 0.0))
      && multiset(Shown(rows)) == multiset(Entries(movements, dates))
  {
    var es := Entries(movements, dates);
    var ordered := if sort then SortEntries(es) else es;
    assert Shown(Numbered(ordered)) == ordered;
  }

  /** Unsorted, the rows are the movements in their recorded order with their own dates;
      sorted, the amounts are the ascending copy of the movements. */
  lemma RowsOrder(movements: seq<real>, dates: seq<int>, sort: bool)
    requires |dates| == |movements|
    ensures var rows := Rows(movements, dates, sort);
      && |rows| == |movements|
      && (!sort ==> forall i :: 0 <= i < |rows| ==> rows[i].amount == movements[i] && rows[i].stamp == dates[i])
      && (sort ==> forall i :: 0 <= i < |rows| ==> rows[i].amount == SortAscending(movements)[i])
  {
    if sort {
      var es := Entries(movements, dates);
      SortEntriesAmounts(es);
      AmountsOfEntries(movements, dates);
      AmountsAt(SortEntries(es));
    }
  }

  lemma {:induction false} AmountsAt(s: seq<Entry>)
    ensures forall i :: 0 <= i < |s| ==> Amounts(s)[i] == s[i].amount
  {
    if s != [] {
      AmountsAt(s[1..]);
    }
  }

  /** The rows as written: row `i` shows the `i`-th amount of the (possibly sorted) copy,
      with the date recorded at position `i`. */
  lemma RowsAsWrittenShape(movements: seq<real>, dates: seq<int>, sort: bool)
    requires |dates| == |movements|
    ensures var rows, amounts := RowsAsWritten(movements, dates, sort), if sort then SortAscending(movements) else movements;
      && |rows| == |movements|
      && forall i :: 0 <= i < |rows| ==> rows[i] == Row(i + 1, KindOf(amounts[i]), amounts[i], dates[i])
  {
  }

  /** The written and the intended rows differ only in their dates, and only when sorted:
      unsorted they are the same rows, and sorted they agree in number, kind and amount. */
  lemma RowsAsWrittenAgree(movements: seq<real>, dates: seq<int>, sort: bool)
    requires |dates| == |movements|
    ensures var written, intended := RowsAsWritten(movements, dates, sort), Rows(movements, dates, sort);
      && |written| == |intended|
      && (forall i :: 0 <= i < |written| ==>
            written[i].number == intended[i].number && written[i].kind == intended[i].kind
            && written[i].amount == intended[i].amount)
      && (!sort ==> written == intended)
  {
    RowsOrder(movements, dates, sort);
    RowsAsWrittenShape(movements, dates, sort);
  }

  /** The sorted view pairs amounts with the wrong dates: two deposits, 2 on day 10 and
      1 on day 20. Sorted, the row for the 1 shows day 10, the date of the 2. */
  lemma SortedRowsMisdated()
    ensures RowsAsWritten([2.0, 1.0], [10, 20], true)[0] == Row(1, Deposit, 1.0, 10)
    ensures Rows([2.0, 1.0], [10, 20], true)[0] == Row(1, Deposit, 1.0, 20)
  {
    assert SortAscending([1.0]) == [1.0];
    assert SortAscending([2.0, 1.0]) == [1.0, 2.0];
    var es := Entries([2.0, 1.0], [10, 20]);
    assert es == [Entry(2.0, 10), Entry(1.0, 20)];
    assert SortEntries([Entry(1.0, 20)]) == [Entry(1.0, 20)];
    assert SortEntries(es) == [Entry(1.0, 20), Entry(2.0, 10)];
  }
}
