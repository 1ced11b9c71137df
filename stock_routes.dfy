/** The POST stock-data handler of the stock routes: it validates the
    requested interval, picks the Alpha Vantage fetcher for it, renames the
    fetched columns, adds a trade-date and a time column, and runs the
    requested statistics. */
module StockRoutes {
  import opened PySemantics

  // ---------------------------------------------------------------------------
  // Interval whitelist and fetcher dispatch
  // ---------------------------------------------------------------------------

  /** The intervals the handler accepts. */
  const StockDataIntervals: seq<string> :=
    ["1min", "5min", "15min", "30min", "60min", "daily", "weekly", "monthly"]

  predicate IsAcceptedInterval(interval: string)
  {
    interval in StockDataIntervals
  }

  /** A call into the time-series client, with the arguments the handler passes. */
  datatype Fetch =
    | Monthly(symbol: string)
    | Weekly(symbol: string)
    | DailyAdjusted(symbol: string, outputSize: string)
    | Intraday(symbol: string, interval: string, outputSize: string)

  /** The fetcher the `if`/`elif` chain picks: monthly, weekly and daily
      (adjusted, full history) by name, and the intraday fetcher, with the
      interval passed through, for everything else. */
  function Dispatch(symbol: string, interval: string): (f: Fetch)
    ensures f.symbol == symbol
    ensures f.Monthly? <==> interval == "monthly"
    ensures f.Weekly? <==> interval == "weekly"
    ensures f.DailyAdjusted? <==> interval == "daily"
    ensures f.DailyAdjusted? || f.Intraday? ==> f.outputSize == "full"
    ensures f.Intraday? ==> f.interval == interval
  {
    if interval == "monthly" then Monthly(symbol)
    else if interval == "weekly" then Weekly(symbol)
    else if interval == "daily" then DailyAdjusted(symbol, "full")
    else Intraday(symbol, interval, "full")
  }

  /** The symbol and interval a fetch serves. */
  function RequestOf(f: Fetch): (string, string)
  {
    match f
    case Monthly(symbol) => (symbol, "monthly")
    case Weekly(symbol) => (symbol, "weekly")
    case DailyAdjusted(symbol, _) => (symbol, "daily")
    case Intraday(symbol, interval, _) => (symbol, interval)
  }

  /** The fetch determines the request it was made for, so distinct requests
      never share a fetch. */
  lemma DispatchRoundTrip(symbol: string, interval: string)
    ensures RequestOf(Dispatch(symbol, interval)) == (symbol, interval)
  {
  }

  /** On an accepted interval the intraday fetcher is only used for the five
      minute-based intervals. */
  lemma DispatchIntradayIntervals(symbol: string, interval: string)
    requires IsAcceptedInterval(interval)
    ensures Dispatch(symbol, interval).Intraday? <==> interval in ["1min", "5min", "15min", "30min", "60min"]
  {
  }

  // ---------------------------------------------------------------------------
  // Fetched tables
  // ---------------------------------------------------------------------------

  /** A row label of a fetched table: a timestamp, split into the day and the
      time of day that `index.date` and `index.time` read. */
  datatype Stamp = Stamp(date: nat, time: nat)

  /** A table cell: a price or volume, a date or a time of day. */
  datatype Cell = Num(x: real) | Day(date: nat) | Clock(time: nat)

  /** A table stored by column: `cells[j]` is the column named `columns[j]`,
      with one entry per row label. */
  datatype Frame = Frame(index: seq<Stamp>, columns: seq<string>, cells: seq<seq<Cell>>)

  predicate WellFormed(t: Frame)
  {
    |t.cells| == |t.columns| && forall j :: 0 <= j < |t.cells| ==> |t.cells[j]| == |t.index|
  }

  /** The first position of `name` in `names`, or `|names|` when it is absent. */
  function FirstIndexOf(names: seq<string>, name: string): (j: nat)
    ensures j <= |names|
    ensures j < |names| <==> name in names
    ensures j < |names| ==> names[j] == name
    ensures forall k :: 0 <= k < j ==> names[k] != name
  {
    if names == [] then 0
    else if names[0] == name then 0
    else 1 + FirstIndexOf(names[1..], name)
  }

  /** `data[names]`: the named columns in the given order; a KeyError naming a
      column the table lacks when there is one. */
  function SelectColumns(t: Frame, names: seq<string>): (r: Result<Frame>)
    requires WellFormed(t)
    ensures r.Ok? <==> forall k :: 0 <= k < |names| ==> names[k] in t.columns
    ensures r.Err? ==> r.error.KeyError? && r.error.key in names && r.error.key !in t.columns
    ensures r.Ok? ==> && WellFormed(r.value)
                      && r.value.index == t.index
                      && r.value.columns == names
                      && forall k :: 0 <= k < |names| ==> r.value.cells[k] == t.cells[FirstIndexOf(t.columns, names[k])]
  {
    if names == [] then Ok(Frame(t.index, [], []))
    else
      var j := FirstIndexOf(t.columns, names[0]);
      if j == |t.columns| then Err(KeyError(names[0]))
      else
        match SelectColumns(t, names[1..])
        case Err(e) => Err(e)
        case Ok(rest) => Ok(Frame(t.index, [names[0]] + rest.columns, [t.cells[j]] + rest.cells))
  }

  ghost predicate Distinct(names: seq<string>)
  {
    forall i, j :: 0 <= i < j < |names| ==> names[i] != names[j]
  }

  /** Selecting a table's own (distinct) columns gives the table back. */
  lemma SelectOwnColumns(t: Frame)
    requires WellFormed(t) && Distinct(t.columns)
    ensures SelectColumns(t, t.columns) == Ok(t)
  {
    var r := SelectColumns(t, t.columns);
    forall k | 0 <= k < |t.columns|
      ensures FirstIndexOf(t.columns, t.columns[k]) == k
    {
      assert FirstIndexOf(t.columns, t.columns[k]) <= k;
    }
    assert r.value.cells == t.cells;
  }

  /** The five columns the daily branch keeps. */
  const DailyColumns: seq<string> := ["1. open", "2. high", "3. low", "4. close", "6. volume"]

  /** The names the handler gives the columns. */
  const ColumnNames: seq<string> := ["open", "high", "low", "close", "volume"]

  /** The table the handler goes on with after a successful fetch: the daily
      branch projects to DailyColumns, the others keep what they fetched. */
  function Projected(interval: string, t: Frame): (r: Result<Frame>)
    requires WellFormed(t)
    ensures interval != "daily" ==> r == Ok(t)
    ensures interval == "daily" ==> r == SelectColumns(t, DailyColumns)
  {
    if interval == "daily" then SelectColumns(t, DailyColumns) else Ok(t)
  }

  /** `index.date` and `index.time` as columns. */
  function DateCells(index: seq<Stamp>): (c: seq<Cell>)
    ensures |c| == |index| && forall i :: 0 <= i < |index| ==> c[i] == Day(index[i].date)
  {
    seq(|index|, i requires 0 <= i < |index| => Day(index[i].date))
  }

  function TimeCells(index: seq<Stamp>): (c: seq<Cell>)
    ensures |c| == |index| && forall i :: 0 <= i < |index| ==> c[i] == Clock(index[i].time)
  {
    seq(|index|, i requires 0 <= i < |index| => Clock(index[i].time))
  }

  /** The pandas DataFrame the handler relabels and extends in place. */
  class DataFrame {
    var index: seq<Stamp>
    var columns: seq<string>
    var cells: seq<seq<Cell>>

    function Value(): Frame
      reads this
    {
      Frame(index, columns, cells)
    }

    ghost predicate Valid()
      reads this
    {
      WellFormed(Value())
    }

    constructor (t: Frame)
      requires WellFormed(t)
      ensures Valid() && Value() == t
    {
      index, columns, cells := t.index, t.columns, t.cells;
    }

    /** `data.columns = names`: relabels every column, or raises a ValueError
        (and changes nothing) when the number of names is not the width. */
    method SetColumns(names: seq<string>) returns (err: Option<PyError>)
      requires Valid()
      modifies this
      ensures Valid()
      ensures err.None? <==> |names| == |old(columns)|
      ensures err.None? ==> columns == names && index == old(index) && cells == old(cells)
      ensures err.Some? ==> err.value == ValueError("Length mismatch") && Value() == old(Value())
    {
      if |names| != |columns| {
        return Some(ValueError("Length mismatch"));
      }
      columns := names;
      return None;
    }

    /** `data[name] = values`: overwrites the first column of that name, or
        appends a new last column when there is none. */
    method Assign(name: string, values: seq<Cell>)
      requires Valid() && |values| == |index|
      modifies this
      ensures Valid()
      ensures index == old(index)
      ensures var j := FirstIndexOf(old(columns), name);
              if j < |old(columns)| then columns == old(columns) && cells == old(cells)[j := values]
              else columns == old(columns) + [name] && cells == old(cells) + [values]
    {
      var j := FirstIndexOf(columns, name);
      if j < |columns| {
        cells := cells[j := values];
      } else {
        columns := columns + [name];
        cells := cells + [values];
      }
    }
  }

  // ---------------------------------------------------------------------------
  // The statistic loop
  // ---------------------------------------------------------------------------

  /** The routines the loop can start. */
  datatype Statistic = ValueAtRiskRoutine | HurstRoutine

  /** What one requested name starts: "var" the value-at-risk routine, "hurst"
      the Hurst-exponent routine, anything else nothing. */
  function RoutinesFor(name: string): seq<Statistic>
  {
    (if name == "var" then [ValueAtRiskRoutine] else []) + (if name == "hurst" then [HurstRoutine] else [])
  }

  /** At most one routine per name, and each routine for its own name. */
  lemma RoutinesForName(name: string)
    ensures |RoutinesFor(name)| <= 1
    ensures ValueAtRiskRoutine in RoutinesFor(name) <==> name == "var"
    ensures HurstRoutine in RoutinesFor(name) <==> name == "hurst"
  {
  }

  /** The routines started, in order, for the requested names. */
  function StatisticCalls(names: seq<string>): (r: seq<Statistic>)
    ensures |r| <= |names|
  {
    if names == [] then []
    else
      RoutinesForName(names[0]);
      RoutinesFor(names[0]) + StatisticCalls(names[1..])
  }

  /** The loop over `calculate`: visits the names in order and records each
      routine it starts. */
  method RunStatistics(names: seq<string>) returns (calls: seq<Statistic>)
    ensures calls == StatisticCalls(names)
  {
    calls := [];
    for i := 0 to |names|
      invariant calls == StatisticCalls(names[..i])
    {
      assert names[..i + 1] == names[..i] + [names[i]];
      StatisticCallsConcat(names[..i], [names[i]]);
      StatisticCallsSingle(names[i]);
      var statistic := names[i];
      if statistic == "var" {
        calls := calls + [ValueAtRiskRoutine];
      }
      if statistic == "hurst" {
        calls := calls + [HurstRoutine];
      }
    }
    assert names[..|names|] == names;
  }

  /** The routines for a concatenation of requests are those of each part, in order. */
  lemma {:induction false} StatisticCallsConcat(a: seq<string>, b: seq<string>)
    ensures StatisticCalls(a + b) == StatisticCalls(a) + StatisticCalls(b)
  {
    if a == [] {
      assert a + b == b;
    } else {
      assert (a + b)[0] == a[0];
      assert (a + b)[1..] == a[1..] + b;
      StatisticCallsConcat(a[1..], b);
    }
  }

  /** A request with a single name starts what that name calls for. */
  lemma StatisticCallsSingle(name: string)
    ensures StatisticCalls([name]) == RoutinesFor(name)
  {
    assert [name][1..] == [];
  }

  /** A routine is started exactly when its name is requested. */
  lemma {:induction false} StatisticCallsMembership(names: seq<string>)
    ensures ValueAtRiskRoutine in StatisticCalls(names) <==> "var" in names
    ensures HurstRoutine in StatisticCalls(names) <==> "hurst" in names
  {
    if names != [] {
      StatisticCallsMembership(names[1..]);
      assert names == [names[0]] + names[1..];
    }
  }

  /** Unknown names start nothing. */
  lemma {:induction false} StatisticCallsUnknown(names: seq<string>)
    ensures (forall i :: 0 <= i < |names| ==> names[i] != "var" && names[i] != "hurst")
            ==> StatisticCalls(names) == []
  {
    if names != [] {
      var rest := names[1..];
      StatisticCallsUnknown(rest);
      assert forall i :: 0 <= i < |rest| ==> rest[i] == names[i + 1];
    }
  }

  // ---------------------------------------------------------------------------
  // The handler
  // ---------------------------------------------------------------------------

  datatype StockRequest = StockRequest(symbol: string, interval: string, calculate: seq<string>)

  /** What a fetcher returns: a table with its metadata, or a ValueError. */
  datatype FetchOutcome = Fetched(frame: Frame, meta: map<string, string>) | FetchValueError(message: string)

  /** How the handler ends: an HTTP error, an exception it does not catch, or
      the relabelled table with the metadata and the routines it started
      (which the handler goes on to plot). */
  datatype PostResponse =
    | Rejected(status: int, detail: string)
    | Failed(error: PyError)
    | Plotted(frame: Frame, meta: map<string, string>, statistics: seq<Statistic>)

  /** The table after the relabelling and the two added columns. */
  function Relabelled(p: Frame): Frame
  {
    Frame(p.index, ColumnNames + ["TradeDate", "time"], p.cells + [DateCells(p.index), TimeCells(p.index)])
  }

  /** How the handler ends for a request whose fetch, if one is made, returns
      `outcome`. */
  function Response(req: StockRequest, outcome: FetchOutcome): (r: PostResponse)
    requires outcome.Fetched? ==> WellFormed(outcome.frame)
    ensures r.Rejected? ==> r.status == 400
    ensures r.Failed? ==> r.error.KeyError? || r.error == ValueError("Length mismatch")
    ensures r.Plotted? ==> r.frame.columns == ColumnNames + ["TradeDate", "time"] && r.statistics == StatisticCalls(req.calculate)
  {
    if !IsAcceptedInterval(req.interval) then Rejected(400, "incorrect interval value.")
    else if outcome.FetchValueError? then Rejected(400, "incorrect symbol value. " + outcome.message)
    else
      match Projected(req.interval, outcome.frame)
      case Err(e) => Failed(e)
      case Ok(p) =>
        if |p.columns| != |ColumnNames| then Failed(ValueError("Length mismatch"))
        else Plotted(Relabelled(p), outcome.meta, StatisticCalls(req.calculate))
  }

  /** Lines 80-83 of the handler: relabels the five columns, then adds the
      trade date and the time of day of every row as two new columns. */
  method RenameAndStamp(data: DataFrame) returns (err: Option<PyError>)
    requires data.Valid()
    modifies data
    ensures err.None? <==> |old(data.columns)| == |ColumnNames|
    ensures err.None? ==> data.Value() == Relabelled(old(data.Value()))
    ensures err.Some? ==> err.value == ValueError("Length mismatch") && data.Value() == old(data.Value())
  {
    ghost var p := data.Value();
    err := data.SetColumns(ColumnNames);
    if err.Some? {
      return;
    }
    StampColumnsAreNew();
    data.Assign("TradeDate", DateCells(data.index));
    assert data.Value() == Frame(p.index, ColumnNames + ["TradeDate"], p.cells + [DateCells(p.index)]);
    data.Assign("time", TimeCells(data.index));
  }

  /** Neither "TradeDate" nor "time" is one of the relabelled columns, so both
      assignments append. */
  lemma StampColumnsAreNew()
    ensures FirstIndexOf(ColumnNames, "TradeDate") == |ColumnNames|
    ensures FirstIndexOf(ColumnNames + ["TradeDate"], "time") == |ColumnNames| + 1
  {
    assert "TradeDate" !in ColumnNames;
    assert "time" !in ColumnNames + ["TradeDate"];
  }

  /** The POST handler. `fetch` stands for the time-series client; `calls`
      lists the fetches it makes: none for a rejected interval, otherwise the
      one Dispatch picks. */
  method GetStockData(req: StockRequest, fetch: Fetch -> FetchOutcome) returns (resp: PostResponse, calls: seq<Fetch>)
    requires forall f :: fetch(f).Fetched? ==> WellFormed(fetch(f).frame)
    ensures calls == if IsAcceptedInterval(req.interval) then [Dispatch(req.symbol, req.interval)] else []
    ensures resp == Response(req, fetch(Dispatch(req.symbol, req.interval)))
  {
    if !IsAcceptedInterval(req.interval) {
      return Rejected(400, "incorrect interval value."), [];
    }
    var f := Dispatch(req.symbol, req.interval);
    calls := [f];
    var outcome := fetch(f);
    if outcome.FetchValueError? {
      return Rejected(400, "incorrect symbol value. " + outcome.message), calls;
    }
    var frame := outcome.frame;
    assert WellFormed(frame);
    var projected := Projected(req.interval, frame);
    if projected.Err? {
      return Failed(projected.error), calls;
    }
    var data := new DataFrame(projected.value);
    var err := RenameAndStamp(data);
    if err.Some? {
      return Failed(err.value), calls;
    }
    var statistics := RunStatistics(req.calculate);
    resp := Plotted(data.Value(), outcome.meta, statistics);
  }

  /** An interval outside the whitelist is refused whatever the client would
      return (and GetStockData then makes no fetch). */
  lemma RejectedInterval(req: StockRequest, outcome: FetchOutcome)
    requires outcome.Fetched? ==> WellFormed(outcome.frame)
    ensures Response(req, outcome) == Rejected(400, "incorrect interval value.") <==> !IsAcceptedInterval(req.interval)
  {
    if IsAcceptedInterval(req.interval) && outcome.FetchValueError? {
      assert ("incorrect symbol value. " + outcome.message)[10] == 's';
      assert "incorrect interval value."[10] == 'i';
    }
  }

  /** A ValueError from the client becomes a 400 carrying its message; no
      other outcome produces a 400 on an accepted interval. */
  lemma SymbolError(req: StockRequest, outcome: FetchOutcome)
    requires outcome.Fetched? ==> WellFormed(outcome.frame)
    requires IsAcceptedInterval(req.interval)
    ensures Response(req, outcome).Rejected? <==> outcome.FetchValueError?
    ensures outcome.FetchValueError? ==>
              Response(req, outcome) == Rejected(400, "incorrect symbol value. " + outcome.message)
  {
  }

  /** The handler gets to the plot exactly when the interval is accepted, the
      fetch succeeds and the table it goes on with has five columns; the
      table then has the columns open, high, low, close, volume, TradeDate and
      time, keeps the fetched row labels and the (projected) values, and the
      routines are those the names ask for. */
  lemma PlottedTable(req: StockRequest, outcome: FetchOutcome)
    requires outcome.Fetched? ==> WellFormed(outcome.frame)
    ensures Response(req, outcome).Plotted? <==>
              && IsAcceptedInterval(req.interval) && outcome.Fetched?
              && Projected(req.interval, outcome.frame).Ok?
              && |Projected(req.interval, outcome.frame).value.columns| == 5
    ensures Response(req, outcome).Plotted? ==>
              var t := Response(req, outcome).frame;
              var p := Projected(req.interval, outcome.frame).value;
              && WellFormed(t)
              && t.columns == ["open", "high", "low", "close", "volume", "TradeDate", "time"]
              && t.index == outcome.frame.index
              && t.cells[..5] == p.cells
              && (forall i :: 0 <= i < |t.index| ==> t.cells[5][i] == Day(t.index[i].date) && t.cells[6][i] == Clock(t.index[i].time))
              && Response(req, outcome).meta == outcome.meta
              && Response(req, outcome).statistics == StatisticCalls(req.calculate)
  {
    var r := Response(req, outcome);
    if r.Plotted? {
      var p := Projected(req.interval, outcome.frame).value;
      assert r.frame == Relabelled(p);
      assert r.frame.cells[..5] == p.cells;
    }
  }

  /** The uncaught exceptions: a KeyError when the daily table lacks one of
      the kept columns, and a ValueError when the table is not five columns
      wide. */
  lemma HandlerFailures(req: StockRequest, outcome: FetchOutcome)
    requires outcome.Fetched? ==> WellFormed(outcome.frame)
    ensures Response(req, outcome).Failed? ==>
              && IsAcceptedInterval(req.interval) && outcome.Fetched?
              && var p := Projected(req.interval, outcome.frame);
              && (p.Err? ==> req.interval == "daily" && Response(req, outcome).error == p.error
                             && p.error.KeyError? && p.error.key in DailyColumns && p.error.key !in outcome.frame.columns)
              && (p.Ok? ==> |p.value.columns| != 5 && Response(req, outcome).error == ValueError("Length mismatch"))
  {
  }

  /** The daily branch keeps the adjusted-daily columns 1-4 and 6 (the
      adjusted close and the dividend columns are dropped), and fails with a
      KeyError when one of them is missing. */
  lemma DailyProjection(t: Frame)
    requires WellFormed(t)
    ensures var p := Projected("daily", t);
            && (p.Ok? <==> forall k :: 0 <= k < 5 ==> DailyColumns[k] in t.columns)
            && (p.Ok? ==> p.value.columns == DailyColumns && |p.value.columns| == |ColumnNames|)
            && (p.Err? ==> p.error.KeyError? && p.error.key in DailyColumns)
  {
  }
}
