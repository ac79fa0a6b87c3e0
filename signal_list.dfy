/** The signal list (components/SignalList.tsx): the action filter, the
    newest-first sort, the CALL/PUT/total counters and the CSV export.

    Under the 'all' filter the effect sorts the store's own array, because
    `filtered` is then the very array the store holds; `Refresh` models that
    by writing the sorted order back into the store. */
module SignalList {
  import opened Types
  import opened Text
  import opened TradingContext

  /** The filter buttons: 'all', 'call' and 'put'. */
  datatype Filter = All | CallOnly | PutOnly

  /** Whether a filter lets a signal through. */
  predicate Keeps(f: Filter, s: Signal)
  {
    match f
    case All => true
    case CallOnly => s.action == CALL
    case PutOnly => s.action == PUT
  }

  /** `signals.filter(...)` for the chosen action, and `signals` itself for 'all'. */
  function FilterByAction(signals: seq<Signal>, f: Filter): (r: seq<Signal>)
    ensures |r| <= |signals|
    ensures forall k :: 0 <= k < |r| ==> Keeps(f, r[k])
    ensures f == All ==> r == signals
    ensures |r| == |signals| <==> forall k :: 0 <= k < |signals| ==> Keeps(f, signals[k])
    ensures |r| == 0 <==> forall k :: 0 <= k < |signals| ==> !Keeps(f, signals[k])
  {
    if |signals| == 0 then []
    else if Keeps(f, signals[0]) then [signals[0]] + FilterByAction(signals[1..], f)
    else FilterByAction(signals[1..], f)
  }

  /** The filter keeps every copy of a signal it lets through and no other. */
  lemma {:induction false} FilterByActionExact(signals: seq<Signal>, f: Filter)
    ensures forall x :: multiset(FilterByAction(signals, f))[x]
                        == if Keeps(f, x) then multiset(signals)[x] else 0
  {
    if |signals| > 0 {
      FilterByActionExact(signals[1..], f);
      assert signals == [signals[0]] + signals[1..];
    }
  }

  /** The CALL counter above the list. */
  function CallCount(signals: seq<Signal>): (n: nat)
    ensures n <= |signals|
    ensures n == |signals| <==> forall k :: 0 <= k < |signals| ==> signals[k].action == CALL
    ensures n == 0 <==> forall k :: 0 <= k < |signals| ==> signals[k].action != CALL
  {
    |FilterByAction(signals, CallOnly)|
  }

  /** The PUT counter above the list. */
  function PutCount(signals: seq<Signal>): (n: nat)
    ensures n <= |signals|
    ensures n == |signals| <==> forall k :: 0 <= k < |signals| ==> signals[k].action == PUT
    ensures n == 0 <==> forall k :: 0 <= k < |signals| ==> signals[k].action != PUT
  {
    |FilterByAction(signals, PutOnly)|
  }

  /** Every signal is a CALL or a PUT, so the two counters add up to the total. */
  lemma {:induction false} CountsAddUp(signals: seq<Signal>)
    ensures CallCount(signals) + PutCount(signals) == |signals|
  {
    if |signals| > 0 {
      CountsAddUp(signals[1..]);
    }
  }

  function Millis(s: Signal): int
  {
    s.timestamp.millis
  }

  /** Timestamps never increase along the list: newest first. */
  ghost predicate NewestFirst(s: seq<Signal>)
  {
    forall i, j :: 0 <= i < j < |s| ==> Millis(s[i]) >= Millis(s[j])
  }

  /** Exchanges two neighbouring cells. */
  method SwapWithPrevious(a: array<Signal>, j: int)
    requires 0 < j < a.Length
    modifies a
    ensures a[..] == old(a[..])[j - 1 := old(a[j])][j := old(a[j - 1])]
    ensures multiset(a[..]) == multiset(old(a[..]))
  {
    a[j - 1], a[j] := a[j], a[j - 1];
  }

  /** The in-place `filtered.sort((a, b) => time(b) - time(a))`: a stable
      insertion sort that moves each signal left past older ones. */
  method SortNewestFirst(a: array<Signal>)
    modifies a
    ensures NewestFirst(a[..])
    ensures multiset(a[..]) == multiset(old(a[..]))
  {
    var i := 0;
    while i < a.Length
      invariant 0 <= i <= a.Length
      invariant forall p, q :: 0 <= p < q < i ==> Millis(a[p]) >= Millis(a[q])
      invariant multiset(a[..]) == multiset(old(a[..]))
    {
      var j := i;
      while j > 0 && Millis(a[j - 1]) < Millis(a[j])
        invariant 0 <= j <= i
        invariant forall p, q :: 0 <= p < q <= i && p != j && q != j ==> Millis(a[p]) >= Millis(a[q])
        invariant forall q :: j < q <= i ==> Millis(a[j]) > Millis(a[q])
        invariant multiset(a[..]) == multiset(old(a[..]))
      {
        SwapWithPrevious(a, j);
        j := j - 1;
      }
      i := i + 1;
    }
  }

  /** A signal that appears twice in a list occurs at least twice in its multiset. */
  lemma RepeatedTwice(t: seq<Signal>, i: int, j: int)
    requires 0 <= i < j < |t| && t[i] == t[j]
    ensures multiset(t)[t[i]] >= 2
  {
    assert t == t[..j] + t[j..];
    assert t[i] == t[..j][i];
    assert t[j] == t[j..][0];
  }

  /** In a list with unique ids no signal occurs twice. */
  lemma {:induction false} UniqueOccursOnce(s: seq<Signal>, x: Signal)
    requires UniqueIds(s)
    ensures multiset(s)[x] <= 1
  {
    if |s| > 0 {
      assert s == [s[0]] + s[1..];
      UniqueOccursOnce(s[1..], x);
      if s[0] == x {
        forall k | 0 <= k < |s| - 1
          ensures s[1..][k] != x
        {
          assert s[1..][k] == s[k + 1];
        }
      }
    }
  }

  /** Reordering a list keeps its ids unique. */
  lemma UniqueIdsPermutation(s: seq<Signal>, t: seq<Signal>)
    requires UniqueIds(s) && multiset(s) == multiset(t)
    ensures UniqueIds(t)
  {
    forall i, j | 0 <= i < j < |t|
      ensures t[i].id != t[j].id
    {
      assert t[i] in multiset(t) && t[j] in multiset(t);
      var p :| 0 <= p < |s| && s[p] == t[i];
      var q :| 0 <= q < |s| && s[q] == t[j];
      if t[i] == t[j] {
        RepeatedTwice(t, i, j);
        UniqueOccursOnce(s, t[i]);
        assert false;
      } else if p < q {
        assert s[p].id != s[q].id;
      } else {
        assert s[q].id != s[p].id;
      }
    }
  }

  /** The list component's own state: the selected filter and `sortedSignals`. */
  class SignalListView {
    var filter: Filter
    var sortedSignals: seq<Signal>

    /** `useState('all')` and `useState(signals)`: the first render shows the
        store's list as it is. */
    constructor (store: TradingStore)
      ensures filter == All && sortedSignals == store.signals
    {
      filter := All;
      sortedSignals := store.signals;
    }

    /** A click on a filter button. */
    method SetFilter(f: Filter)
      modifies this
      ensures filter == f && sortedSignals == old(sortedSignals)
    {
      filter := f;
    }

    /** One run of the effect: filter, sort newest first, publish. Under 'all'
        the sort works on the store's own array and so reorders the store. */
    method Refresh(store: TradingStore)
      modifies this, store`signals
      ensures filter == old(filter)
      ensures NewestFirst(sortedSignals)
      ensures multiset(sortedSignals) == multiset(FilterByAction(old(store.signals), filter))
      ensures filter == All ==> store.signals == sortedSignals
      ensures filter != All ==> store.signals == old(store.signals)
      ensures old(store.Valid()) ==> store.Valid()
    {
      var filtered := FilterByAction(store.signals, filter);
      var a := new Signal[|filtered|](i requires 0 <= i < |filtered| => filtered[i]);
      assert a[..] == filtered;
      SortNewestFirst(a);
      sortedSignals := a[..];
      if filter == All {
        if store.Valid() {
          UniqueIdsPermutation(store.signals, a[..]);
        }
        store.signals := a[..];
      }
    }
  }

  /** The CSV header row. */
  const CSV_HEADER: seq<string> := ["Symbol", "Action", "Price", "Confidence", "Logic", "Timestamp"]

  /** The header row is the one line `Symbol,Action,Price,Confidence,Logic,Timestamp`. */
  lemma HeaderLine()
    ensures Join(CSV_HEADER, ',') == "Symbol,Action,Price,Confidence,Logic,Timestamp"
    ensures '\n' !in Join(CSV_HEADER, ',')
  {
    HeaderCells();
    HeaderText();
    JoinExcludes(CSV_HEADER, ',', '\n');
  }

  /** The header row, joined cell by cell. */
  lemma HeaderCells()
    ensures Join(CSV_HEADER, ',')
         == "Symbol" + "," + ("Action" + "," + ("Price" + "," + ("Confidence" + "," + ("Logic" + "," + "Timestamp"))))
  {
    JoinCons("Logic", ["Timestamp"], ',');
    JoinCons("Confidence", ["Logic", "Timestamp"], ',');
    JoinCons("Price", ["Confidence", "Logic", "Timestamp"], ',');
    JoinCons("Action", ["Price", "Confidence", "Logic", "Timestamp"], ',');
    JoinCons("Symbol", ["Action", "Price", "Confidence", "Logic", "Timestamp"], ',');
  }

  /** The joined cells spelt out as one literal. */
  lemma HeaderText()
    ensures "Symbol" + "," + ("Action" + "," + ("Price" + "," + ("Confidence" + "," + ("Logic" + "," + "Timestamp"))))
         == "Symbol,Action,Price,Confidence,Logic,Timestamp"
  {
  }

  /** The cells of one exported row; `localeString` stands for the browser's
      `Date.prototype.toLocaleString`. */
  function CsvFields(s: Signal, localeString: Timestamp -> string): seq<string>
  {
    [s.symbol, ActionName(s.action), s.price.shown, IntToString(s.confidence),
     s.logic, localeString(s.timestamp)]
  }

  /** `row.join(',')`: no cell is quoted or escaped. */
  function CsvRow(s: Signal, localeString: Timestamp -> string): string
  {
    Join(CsvFields(s, localeString), ',')
  }

  /** `exportSignals`: the header and one row per stored signal, in store
      order, joined by newlines. */
  function ExportCsv(signals: seq<Signal>, localeString: Timestamp -> string): string
  {
    Join([Join(CSV_HEADER, ',')] + CsvRows(signals, localeString), '\n')
  }

  /** `signals.map(...)` followed by `row.join(',')` on each row. */
  function CsvRows(signals: seq<Signal>, localeString: Timestamp -> string): (rows: seq<string>)
    ensures |rows| == |signals|
    ensures forall i :: 0 <= i < |signals| ==> rows[i] == CsvRow(signals[i], localeString)
  {
    seq(|signals|, i requires 0 <= i < |signals| => CsvRow(signals[i], localeString))
  }

  /** The text cells of a signal hold no line break. */
  predicate SingleLine(s: Signal, localeString: Timestamp -> string)
  {
    '\n' !in s.symbol && '\n' !in s.price.shown && '\n' !in s.logic
    && '\n' !in localeString(s.timestamp)
  }

  /** The text cells of a signal hold no comma. */
  predicate CommaFree(s: Signal, localeString: Timestamp -> string)
  {
    ',' !in s.symbol && ',' !in s.price.shown && ',' !in s.logic
    && ',' !in localeString(s.timestamp)
  }

  /** Neither the action nor a rendered integer contains a comma or a line break. */
  lemma FixedCellsPlain(s: Signal)
    ensures ',' !in ActionName(s.action) && '\n' !in ActionName(s.action)
    ensures ',' !in IntToString(s.confidence) && '\n' !in IntToString(s.confidence)
  {
    var c := IntToString(s.confidence);
    assert forall k :: 0 <= k < |c| ==> c[k] != ',' && c[k] != '\n';
  }

  /** When no cell holds a line break, the export reads back as the header line
      followed by one line per signal, in store order. */
  lemma ExportCsvLines(signals: seq<Signal>, localeString: Timestamp -> string)
    requires forall i :: 0 <= i < |signals| ==> SingleLine(signals[i], localeString)
    ensures |Split(ExportCsv(signals, localeString), '\n')| == |signals| + 1
    ensures Split(ExportCsv(signals, localeString), '\n')[0]
            == "Symbol,Action,Price,Confidence,Logic,Timestamp"
    ensures forall i :: 0 <= i < |signals| ==>
              Split(ExportCsv(signals, localeString), '\n')[i + 1] == CsvRow(signals[i], localeString)
  {
    var lines := [Join(CSV_HEADER, ',')] + CsvRows(signals, localeString);
    HeaderLine();
    forall k | 0 <= k < |lines|
      ensures '\n' !in lines[k]
    {
      if k > 0 {
        RowSingleLine(signals[k - 1], localeString);
      }
    }
    SplitJoin(lines, '\n');
    assert Split(ExportCsv(signals, localeString), '\n') == lines;
  }

  /** A row of single-line cells is a single line. */
  lemma RowSingleLine(s: Signal, localeString: Timestamp -> string)
    requires SingleLine(s, localeString)
    ensures '\n' !in CsvRow(s, localeString)
  {
    FixedCellsPlain(s);
    JoinExcludes(CsvFields(s, localeString), ',', '\n');
  }

  /** When no cell holds a comma, a row reads back as its six cells. */
  lemma CsvRowCells(s: Signal, localeString: Timestamp -> string)
    requires CommaFree(s, localeString)
    ensures Split(CsvRow(s, localeString), ',') == CsvFields(s, localeString)
  {
    FixedCellsPlain(s);
    SplitJoin(CsvFields(s, localeString), ',');
  }

  /** Cells are not quoted: a comma inside the logic text splits it into two
      cells, so the row reads back as seven cells and every later column shifts. */
  lemma CommaInLogicShiftsColumns(s: Signal, localeString: Timestamp -> string, before: string, after: string)
    requires s.logic == before + "," + after
    requires ',' !in before && ',' !in after
    requires ',' !in s.symbol && ',' !in s.price.shown && ',' !in localeString(s.timestamp)
    ensures |Split(CsvRow(s, localeString), ',')| == 7
    ensures Split(CsvRow(s, localeString), ',')[4] == before
    ensures Split(CsvRow(s, localeString), ',')[5] == after
  {
    FixedCellsPlain(s);
    var pre := [s.symbol, ActionName(s.action), s.price.shown, IntToString(s.confidence)];
    var post := [localeString(s.timestamp)];
    assert CsvFields(s, localeString) == pre + [before + [','] + after] + post;
    JoinSplitsPart(pre, before, after, post, ',');
    SplitJoin(pre + [before, after] + post, ',');
  }
}
