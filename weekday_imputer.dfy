/** `WeekdayImputer`: fills a blank weekday label with the three-letter name of
    the row's date. */
module WeekdayImputation {
  import opened Outcomes
  import opened Frames
  import opened Calendar
  import opened PyArgs
  import PyDicts

  /** The positions, in increasing order, of the rows from `from` on whose cell is blank. */
  function BlankRowsFrom(cells: seq<Cell>, from: nat): (r: seq<nat>)
    requires from <= |cells|
    ensures forall k :: 0 <= k < |r| ==> from <= r[k] < |cells| && IsBlank(cells[r[k]])
    ensures forall k, l :: 0 <= k < l < |r| ==> r[k] < r[l]
    decreases |cells| - from
  {
    if from == |cells| then []
    else if IsBlank(cells[from]) then [from] + BlankRowsFrom(cells, from + 1)
    else BlankRowsFrom(cells, from + 1)
  }

  /** No blank row from `from` on is missed. */
  lemma {:induction false} BlankRowsFromComplete(cells: seq<Cell>, from: nat, i: nat)
    requires from <= i < |cells| && IsBlank(cells[i])
    ensures i in BlankRowsFrom(cells, from)
    decreases |cells| - from
  {
    var r := BlankRowsFrom(cells, from);
    if i == from {
      assert r[0] == i;
    } else {
      BlankRowsFromComplete(cells, from + 1, i);
      var rest := BlankRowsFrom(cells, from + 1);
      var k :| 0 <= k < |rest| && rest[k] == i;
      if IsBlank(cells[from]) {
        assert r[k + 1] == i;
      } else {
        assert r[k] == i;
      }
    }
  }

  /** `X[X[weekday].isnull() | (X[weekday] == '')].index`: the blank rows of a
      column, in row order. */
  function BlankRows(cells: seq<Cell>): (r: seq<nat>)
    ensures forall k :: 0 <= k < |r| ==> r[k] < |cells| && IsBlank(cells[r[k]])
    ensures forall i :: 0 <= i < |cells| ==> (i in r <==> IsBlank(cells[i]))
    ensures forall k, l :: 0 <= k < l < |r| ==> r[k] < r[l]
    ensures (forall i :: 0 <= i < |cells| ==> !IsBlank(cells[i])) ==> r == []
  {
    var r := BlankRowsFrom(cells, 0);
    forall i | 0 <= i < |cells| && IsBlank(cells[i])
      ensures i in r
    {
      BlankRowsFromComplete(cells, 0, i);
    }
    forall i | 0 <= i < |cells| && i in r
      ensures IsBlank(cells[i])
    {
      var k :| 0 <= k < |r| && r[k] == i;
    }
    assert r != [] ==> IsBlank(cells[r[0]]);
    r
  }

  /** `weekday, dteday = self.variables`, raising ValueError unless there are exactly two. */
  function Unpack(variables: seq<string>): (r: Result<(string, string)>)
    ensures r.Ok? <==> |variables| == 2
    ensures r.Ok? ==> r.value == (variables[0], variables[1])
    ensures r.Err? ==> r.error.ValueError?
  {
    if |variables| == 2 then Ok((variables[0], variables[1]))
    else if |variables| > 2 then Err(ValueError("too many values to unpack (expected 2)"))
    else Err(ValueError("not enough values to unpack (expected 2, got " + PyDicts.IntToStr(|variables|) + ")"))
  }

  /** Whether every row listed in `rows` has a date in column `dteday`. */
  predicate DatedRows(dates: seq<Cell>, rows: seq<nat>) {
    forall k :: 0 <= k < |rows| ==> rows[k] < |dates| && dates[rows[k]].Date?
  }

  /** The cells of the weekday column once the listed rows hold their dates' short day names. */
  function NamedCells(wk: seq<Cell>, dates: seq<Cell>, rows: seq<nat>): (r: seq<Cell>)
    requires |wk| == |dates|
    requires forall i :: 0 <= i < |wk| && i in rows ==> dates[i].Date?
    ensures |r| == |wk|
    ensures forall i :: 0 <= i < |wk| ==> r[i] == if i in rows then Str(ShortDayName(dates[i].day)) else wk[i]
  {
    seq(|wk|, i requires 0 <= i < |wk| => if i in rows then Str(ShortDayName(dates[i].day)) else wk[i])
  }

  /** `X.loc[rows, weekday] = X.loc[rows, dteday].dt.day_name().apply(lambda x: x[:3])`
      on a copy of `x`. Fails with KeyError when `dteday` is absent, with
      AttributeError when it is not a datetime column, and with TypeError when a
      listed row has no date (the name of a NaT is NaN, which cannot be sliced). */
  function FillRows(x: Frame, weekday: string, dteday: string, rows: seq<nat>): (r: Result<Frame>)
    requires WellFormed(x) && weekday in x.cols
    requires forall k :: 0 <= k < |rows| ==> rows[k] < x.rows
    ensures r.Ok? <==> dteday in x.cols && x.cols[dteday].dtype == DateTime && DatedRows(x.cols[dteday].cells, rows)
    ensures dteday !in x.cols ==> r == Err(KeyError(dteday))
    ensures dteday in x.cols && x.cols[dteday].dtype != DateTime ==> r.Err? && r.error.AttributeError?
    ensures r.Ok? ==> WellFormed(r.value) && OnlyChanged(x, r.value, {weekday})
    ensures r.Ok? ==> forall i :: 0 <= i < x.rows ==>
      r.value.cols[weekday].cells[i] ==
        if i in rows then Str(ShortDayName(x.cols[dteday].cells[i].day)) else x.cols[weekday].cells[i]
    ensures r.Ok? && rows == [] ==> r.value == x
  {
    if dteday !in x.cols then Err(KeyError(dteday))
    else if x.cols[dteday].dtype != DateTime then Err(AttributeError(".dt"))
    else if !DatedRows(x.cols[dteday].cells, rows) then Err(TypeError("'float' object is not subscriptable"))
    else
      var before := x.cols[weekday];
      var cells := NamedCells(before.cells, x.cols[dteday].cells, rows);
      assert rows == [] ==> cells == before.cells;
      Ok(WithColumn(x, weekday, Column(Settled(before.dtype, cells), cells)))
  }

  /** What `WeekdayImputer.transform` returns for a frame, whatever rows `fit` saw:
      the blank rows are found again in `x` itself. */
  function Impute(variables: seq<string>, x: Frame): (r: Result<Frame>)
    requires WellFormed(x)
    ensures r.Ok? <==>
      && |variables| == 2
      && variables[0] in x.cols && variables[1] in x.cols
      && x.cols[variables[1]].dtype == DateTime
      && forall i :: 0 <= i < x.rows && IsBlank(x.cols[variables[0]].cells[i]) ==> x.cols[variables[1]].cells[i].Date?
    ensures |variables| != 2 ==> r.Err? && r.error.ValueError?
    ensures |variables| == 2 && variables[0] !in x.cols ==> r == Err(KeyError(variables[0]))
    ensures |variables| == 2 && variables[0] in x.cols && variables[1] !in x.cols ==> r == Err(KeyError(variables[1]))
    ensures r.Ok? ==> WellFormed(r.value) && OnlyChanged(x, r.value, {variables[0]})
    ensures r.Ok? ==> forall i :: 0 <= i < x.rows ==>
      var c := x.cols[variables[0]].cells[i];
      r.value.cols[variables[0]].cells[i] ==
        if IsBlank(c) then Str(ShortDayName(x.cols[variables[1]].cells[i].day)) else c
    ensures r.Ok? ==> forall i :: 0 <= i < x.rows ==> !IsBlank(r.value.cols[variables[0]].cells[i])
  {
    match Unpack(variables)
    case Err(e) => Err(e)
    case Ok((weekday, dteday)) =>
      if weekday !in x.cols then Err(KeyError(weekday))
      else
        var rows := BlankRows(x.cols[weekday].cells);
        var r := FillRows(x, weekday, dteday, rows);
        if dteday in x.cols then
          DatedBlankRows(x.cols[weekday].cells, x.cols[dteday].cells);
          if r.Ok? then
            NoBlankLeft(x.cols[weekday].cells, x.cols[dteday].cells, r.value.cols[weekday].cells);
            r
          else r
        else r
  }

  /** Every blank row has a date exactly when every row `BlankRows` lists has one. */
  lemma DatedBlankRows(wk: seq<Cell>, dates: seq<Cell>)
    requires |wk| == |dates|
    ensures DatedRows(dates, BlankRows(wk)) <==> forall i :: 0 <= i < |wk| && IsBlank(wk[i]) ==> dates[i].Date?
  {
    var rows := BlankRows(wk);
    if forall i :: 0 <= i < |wk| && IsBlank(wk[i]) ==> dates[i].Date? {
      forall k | 0 <= k < |rows|
        ensures rows[k] < |dates| && dates[rows[k]].Date?
      {
        assert IsBlank(wk[rows[k]]);
      }
    }
    if DatedRows(dates, rows) {
      forall i | 0 <= i < |wk| && IsBlank(wk[i])
        ensures dates[i].Date?
      {
        assert i in rows;
        var k :| 0 <= k < |rows| && rows[k] == i;
      }
    }
  }

  /** Once each blank cell holds its date's short day name, no cell is blank. */
  lemma NoBlankLeft(wk: seq<Cell>, dates: seq<Cell>, filled: seq<Cell>)
    requires |wk| == |dates| == |filled|
    requires forall i :: 0 <= i < |wk| && IsBlank(wk[i]) ==> dates[i].Date?
    requires forall i :: 0 <= i < |wk| ==>
      filled[i] == if i in BlankRows(wk) then Str(ShortDayName(dates[i].day)) else wk[i]
    ensures forall i :: 0 <= i < |wk| ==> !IsBlank(filled[i])
  {
    forall i | 0 <= i < |wk|
      ensures !IsBlank(filled[i])
    {
      if IsBlank(wk[i]) {
        assert |ShortDayName(dates[i].day)| == 3;
      }
    }
  }

  /** Imputing twice is imputing once: no blank weekday is left for the second pass. */
  lemma ImputeIdempotent(variables: seq<string>, x: Frame)
    requires WellFormed(x) && Impute(variables, x).Ok?
    ensures Impute(variables, Impute(variables, x).value) == Impute(variables, x)
  {
    var y := Impute(variables, x).value;
    var wk := variables[0];
    assert BlankRows(y.cols[wk].cells) == [];
  }

  /** The transformer: `variables` names the weekday column, then the date column;
      `fillValue` is `fill_value`, the blank rows last found. */
  class WeekdayImputer {
    const variables: seq<string>
    var fillValue: Option<seq<nat>>

    constructor (variables: seq<string>)
      ensures this.variables == variables && fillValue == None
    {
      this.variables := variables;
      fillValue := None;
    }

    /** `fit`: records the blank rows of the weekday column. */
    method Fit(x: Frame) returns (r: Outcome)
      requires WellFormed(x)
      modifies this
      ensures r.Pass? <==> |variables| == 2 && variables[0] in x.cols
      ensures |variables| != 2 ==> r.Fail? && r.error.ValueError?
      ensures |variables| == 2 && variables[0] !in x.cols ==> r == Fail(KeyError(variables[0]))
      ensures fillValue == if r.Pass? then Some(BlankRows(x.cols[variables[0]].cells)) else old(fillValue)
    {
      var pair := Unpack(variables);
      if pair.Err? {
        return Fail(pair.error);
      }
      var weekday := pair.value.0;
      if weekday !in x.cols {
        return Fail(KeyError(weekday));
      }
      fillValue := Some(BlankRows(x.cols[weekday].cells));
      r := Pass;
    }

    /** `transform`: recomputes the blank rows into `fill_value`, then fills them
      in a copy of `x`; `fill_value` is updated even when the fill then fails. */
    method Transform(x: Frame) returns (r: Result<Frame>)
      requires WellFormed(x)
      modifies this
      ensures r == Impute(variables, x)
      ensures fillValue ==
        if |variables| == 2 && variables[0] in x.cols then Some(BlankRows(x.cols[variables[0]].cells))
        else old(fillValue)
    {
      var pair := Unpack(variables);
      if pair.Err? {
        return Err(pair.error);
      }
      var (weekday, dteday) := pair.value;
      if weekday !in x.cols {
        return Err(KeyError(weekday));
      }
      var rows := BlankRows(x.cols[weekday].cells);
      fillValue := Some(rows);
      r := FillRows(x, weekday, dteday, rows);
    }
  }

  /** `WeekdayImputer(variables)`: rejects anything but a list of strings. */
  method NewWeekdayImputer(variables: Value) returns (r: Result<WeekdayImputer>)
    ensures r.Ok? <==> StringList(variables).Ok?
    ensures r.Err? ==> r.error == StringList(variables).error
    ensures r.Ok? ==> fresh(r.value) && r.value.variables == StringList(variables).value && r.value.fillValue == None
  {
    match StringList(variables)
    case Err(e) =>
      return Err(e);
    case Ok(names) =>
      var imputer := new WeekdayImputer(names);
      return Ok(imputer);
  }
}
