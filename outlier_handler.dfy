/** `OutlierHandler`: learns a (lower, upper) pair per column from two quantiles
    and clips the columns to it. */
module OutlierHandling {
  import opened Outcomes
  import opened Frames
  import opened PyArgs

  /** `np.where(x > upper, upper, x)` followed by `np.where(y < lower, lower, y)`:
      the upper bound is applied first, so when the bounds cross the lower wins. */
  function Clip(x: real, lower: real, upper: real): (r: real)
    ensures lower <= upper ==> lower <= r <= upper
    ensures lower <= x <= upper ==> r == x
    ensures lower <= upper && x > upper ==> r == upper
    ensures x < lower ==> r == lower
    ensures lower > upper ==> r == lower
  {
    var y := if x > upper then upper else x;
    if y < lower then lower else y
  }

  /** Clipping twice with the same bounds is clipping once, crossed bounds included. */
  lemma ClipIdempotent(x: real, lower: real, upper: real)
    ensures Clip(Clip(x, lower, upper), lower, upper) == Clip(x, lower, upper)
  {
  }

  /** A cell clipped: a number is clipped, a null compares false both times and stays. */
  function ClipCell(c: Cell, bounds: (real, real)): (r: Cell)
    ensures c.Num? ==> r == Num(Clip(c.x, bounds.0, bounds.1))
    ensures !c.Num? ==> r == c
  {
    if c.Num? then Num(Clip(c.x, bounds.0, bounds.1)) else c
  }

  /** Whether the cells can be compared with a float: no string and no date among them. */
  predicate Comparable(cells: seq<Cell>) {
    forall i :: 0 <= i < |cells| ==> cells[i].Missing? || cells[i].Num?
  }

  function ClipCells(cells: seq<Cell>, bounds: (real, real)): (r: seq<Cell>)
    ensures |r| == |cells|
    ensures forall i :: 0 <= i < |cells| ==> r[i] == ClipCell(cells[i], bounds)
  {
    seq(|cells|, i requires 0 <= i < |cells| => ClipCell(cells[i], bounds))
  }

  /** The non-null numbers of a column, in row order: what `Series.quantile` ranks. */
  function Values(cells: seq<Cell>): (r: seq<real>)
    requires Comparable(cells)
    ensures |r| <= |cells|
    ensures forall y :: y in r <==> Num(y) in cells
  {
    if cells == [] then []
    else if cells[0].Num? then [cells[0].x] + Values(cells[1..])
    else Values(cells[1..])
  }

  /** The values of two stretches of rows are the values of the first followed
      by those of the second: `Values` keeps the row order. */
  lemma {:induction false} ValuesConcat(a: seq<Cell>, b: seq<Cell>)
    requires Comparable(a) && Comparable(b)
    ensures Comparable(a + b) && Values(a + b) == Values(a) + Values(b)
    decreases |a|
  {
    if a == [] {
      assert a + b == b;
    } else {
      assert (a + b)[0] == a[0] && (a + b)[1..] == a[1..] + b;
      ValuesConcat(a[1..], b);
    }
  }

  /** Whether `fit` can compute bounds for column `v` of `x`: it exists and
      holds numbers and nulls only. */
  predicate Measurable(x: Frame, v: string) {
    v in x.cols && Comparable(x.cols[v].cells)
  }

  /** Whether `fit` can compute bounds for each of the columns `vs` of `x`. */
  predicate AllMeasurable(x: Frame, vs: seq<string>) {
    forall v :: v in vs ==> v in x.cols && Comparable(x.cols[v].cells)
  }

  /** Whether `transform` can clip each of the columns `vs` of `x` to `bounds`:
      each has a pair, exists, is not a datetime column (a datetime64 Series
      refuses to be compared with a float, even when it holds only NaT) and
      holds numbers and nulls only. */
  predicate AllClippable(x: Frame, bounds: map<string, (real, real)>, vs: seq<string>) {
    forall v :: v in vs ==> v in bounds && v in x.cols && x.cols[v].dtype != DateTime && Comparable(x.cols[v].cells)
  }

  /** The class: `variables` lists the columns, `lowerQuantile` and
      `upperQuantile` are the constructor's quantiles, `bounds` is `bounds_`,
      absent until `fit` has run. */
  class OutlierHandler {
    const variables: seq<string>
    const lowerQuantile: real
    const upperQuantile: real
    var bounds: Option<map<string, (real, real)>>

    constructor (variables: seq<string>, lowerQuantile: real, upperQuantile: real)
      ensures this.variables == variables && this.lowerQuantile == lowerQuantile && this.upperQuantile == upperQuantile
      ensures bounds == None
    {
      this.variables := variables;
      this.lowerQuantile := lowerQuantile;
      this.upperQuantile := upperQuantile;
      bounds := None;
    }

    /** The pair `fit` stores for a column: its two quantiles. */
    function PairFor(cells: seq<Cell>, quantile: (seq<real>, real) -> real): (real, real)
      requires Comparable(cells)
    {
      (quantile(Values(cells), lowerQuantile), quantile(Values(cells), upperQuantile))
    }

    /** The bounds `fit` stores after measuring the columns `vs` of `x`, one after
        the other. */
    function BoundsOf(x: Frame, vs: seq<string>, quantile: (seq<real>, real) -> real): map<string, (real, real)>
      requires AllMeasurable(x, vs)
      decreases |vs|
    {
      if vs == [] then map[]
      else
        var v := vs[|vs| - 1];
        assert v in vs;
        BoundsOf(x, vs[..|vs| - 1], quantile)[v := PairFor(x.cols[v].cells, quantile)]
    }

    /** What `fit` promises of `bounds_`: a pair for each listed column and no
        other, the quantiles of that column's values. */
    lemma {:induction false} BoundsOfSpec(x: Frame, vs: seq<string>, quantile: (seq<real>, real) -> real)
      requires AllMeasurable(x, vs)
      ensures forall v :: v in BoundsOf(x, vs, quantile) <==> v in vs
      ensures forall v :: v in vs ==> BoundsOf(x, vs, quantile)[v] == PairFor(x.cols[v].cells, quantile)
      decreases |vs|
    {
      if vs != [] {
        var v := vs[|vs| - 1];
        assert forall u :: u in vs <==> u in vs[..|vs| - 1] || u == v;
        BoundsOfSpec(x, vs[..|vs| - 1], quantile);
      }
    }

    /** One round of `fit`'s loop: measuring one more column adds its pair. */
    lemma MeasuredStep(x: Frame, vs: seq<string>, v: string, quantile: (seq<real>, real) -> real)
      requires AllMeasurable(x, vs) && Measurable(x, v)
      ensures AllMeasurable(x, vs + [v])
      ensures BoundsOf(x, vs + [v], quantile) == BoundsOf(x, vs, quantile)[v := PairFor(x.cols[v].cells, quantile)]
    {
      assert (vs + [v])[..|vs|] == vs;
    }

    /** `fit`: `bounds_` is replaced by an empty dict, then filled with one pair per
        listed column. A column that is absent (KeyError) or holds anything but
        numbers and nulls (TypeError) stops the loop, leaving the pairs of the
        columns before it. Bounds are floats here: the Timestamp bounds pandas
        computes for a datetime column are not part of this model. */
    method Fit(x: Frame, quantile: (seq<real>, real) -> real) returns (r: Outcome)
      requires WellFormed(x)
      modifies this
      ensures r.Pass? <==> AllMeasurable(x, variables)
      ensures r.Pass? ==> bounds == Some(BoundsOf(x, variables, quantile))
      ensures r.Fail? ==> exists k ::
        && 0 <= k < |variables| && !Measurable(x, variables[k])
        && (variables[k] !in x.cols ==> r == Fail(KeyError(variables[k])))
        && (variables[k] in x.cols ==> r.error.TypeError?)
        && AllMeasurable(x, variables[..k])
        && bounds == Some(BoundsOf(x, variables[..k], quantile))
    {
      bounds := Some(map[]);
      for k := 0 to |variables|
        invariant AllMeasurable(x, variables[..k])
        invariant bounds == Some(BoundsOf(x, variables[..k], quantile))
      {
        var v := variables[k];
        assert v in variables;
        if v !in x.cols {
          return Fail(KeyError(v));
        }
        if !Comparable(x.cols[v].cells) {
          return Fail(TypeError("'<' not supported"));
        }
        assert variables[..k + 1] == variables[..k] + [v];
        MeasuredStep(x, variables[..k], v, quantile);
        bounds := Some(bounds.value[v := PairFor(x.cols[v].cells, quantile)]);
      }
      assert variables[..|variables|] == variables;
      r := Pass;
    }

    /** `transform`: a copy of `x` whose listed columns are clipped to their
        bounds. Never fitted: AttributeError; a column without bounds or absent
        from `x`: KeyError; a datetime column, or strings or dates in it: TypeError. */
    method Transform(x: Frame) returns (r: Result<Frame>)
      requires WellFormed(x)
      ensures r.Ok? <==> variables == [] || (bounds.Some? && AllClippable(x, bounds.value, variables))
      ensures bounds.None? && variables != [] ==> r == Err(AttributeError("bounds_"))
      ensures r.Ok? && variables == [] ==> r.value == x
      ensures r.Ok? && variables != [] ==> r.value == ClipAll(x, bounds.value, variables)
    {
      var y := x;
      for k := 0 to |variables|
        invariant k > 0 ==> bounds.Some? && AllClippable(x, bounds.value, variables[..k])
        invariant y == ClipAll(x, if k > 0 then bounds.value else map[], variables[..k])
      {
        var v := variables[k];
        assert v in variables;
        if bounds.None? {
          return Err(AttributeError("bounds_"));
        }
        if v !in bounds.value || v !in y.cols {
          return Err(KeyError(v));
        }
        ClipStep(x, bounds.value, variables[..k], v);
        var col := y.cols[v];
        if col.dtype == DateTime || !Comparable(col.cells) {
          return Err(TypeError("'>' not supported"));
        }
        y := y.(cols := y.cols[v := Clipped(col, bounds.value[v])]);
        assert variables[..k + 1] == variables[..k] + [v];
        ClipAllStep(x, bounds.value, variables[..k], v);
      }
      assert variables[..|variables|] == variables;
      r := Ok(y);
    }
  }

  /** The copy `transform` returns: the columns `vs` of `x` clipped, one after
      the other, each to its own bounds. */
  function ClipAll(x: Frame, bounds: map<string, (real, real)>, vs: seq<string>): (r: Frame)
    requires AllClippable(x, bounds, vs)
    ensures r.rows == x.rows && r.names == x.names && r.cols.Keys == x.cols.Keys
    decreases |vs|
  {
    if vs == [] then x
    else
      var v := vs[|vs| - 1];
      var y := ClipAll(x, bounds, vs[..|vs| - 1]);
      y.(cols := y.cols[v := Clipped(x.cols[v], bounds[v])])
  }

  /** What `transform` promises of its copy: a DataFrame whose listed columns are
      clipped once to their bounds, with every other column, the column order and
      the row count as they were. */
  lemma {:induction false} ClipAllSpec(x: Frame, bounds: map<string, (real, real)>, vs: seq<string>)
    requires WellFormed(x) && AllClippable(x, bounds, vs)
    ensures WellFormed(ClipAll(x, bounds, vs)) && OnlyChanged(x, ClipAll(x, bounds, vs), set v | v in vs)
    ensures forall v :: v in vs ==> ClipAll(x, bounds, vs).cols[v] == Clipped(x.cols[v], bounds[v])
    decreases |vs|
  {
    if vs != [] {
      var v := vs[|vs| - 1];
      var front := vs[..|vs| - 1];
      assert forall u :: u in vs <==> u in front || u == v;
      ClipAllSpec(x, bounds, front);
      ClipFits(x.cols[v], bounds[v], x.rows);
    }
  }

  /** Clipping one more column extends `ClipAll` by that column. */
  lemma ClipAllStep(x: Frame, bounds: map<string, (real, real)>, vs: seq<string>, v: string)
    requires AllClippable(x, bounds, vs)
    requires v in bounds && v in x.cols && x.cols[v].dtype != DateTime && Comparable(x.cols[v].cells)
    ensures AllClippable(x, bounds, vs + [v])
    ensures ClipAll(x, bounds, vs + [v]) == ClipAll(x, bounds, vs).(cols := ClipAll(x, bounds, vs).cols[v := Clipped(x.cols[v], bounds[v])])
  {
    assert (vs + [v])[..|vs|] == vs;
  }

  /** A clipped column still fits its frame. */
  lemma ClipFits(col: Column, bounds: (real, real), rows: nat)
    requires ColumnFits(col, rows)
    ensures ColumnFits(Clipped(col, bounds), rows)
  {
    var c := Clipped(col, bounds);
    forall i | 0 <= i < rows
      ensures Conforms(c.cells[i], c.dtype)
    {
      assert Conforms(col.cells[i], col.dtype);
    }
  }

  /** One round of `transform`'s loop: in a copy where the columns `done` are
      clipped already, clipping column `v` once more gives what clipping it in
      `x` gives, and fails exactly where it would have failed in `x`. */
  lemma ClipStep(x: Frame, bounds: map<string, (real, real)>, done: seq<string>, v: string)
    requires WellFormed(x) && v in bounds && v in x.cols
    requires AllClippable(x, bounds, done)
    ensures Clipped(ClipAll(x, bounds, done).cols[v], bounds[v]) == Clipped(x.cols[v], bounds[v])
    ensures ClipAll(x, bounds, done).cols[v].dtype == x.cols[v].dtype
    ensures Comparable(ClipAll(x, bounds, done).cols[v].cells) <==> Comparable(x.cols[v].cells)
  {
    ClipAllSpec(x, bounds, done);
    ClippedTwice(x.cols[v], bounds[v]);
    ClippedComparable(x.cols[v], bounds[v]);
  }

  /** `X[var] = np.where(...)` twice over: a column with its numbers clipped, its dtype kept. */
  function Clipped(col: Column, bounds: (real, real)): (r: Column)
    ensures r.dtype == col.dtype && |r.cells| == |col.cells|
    ensures forall i :: 0 <= i < |col.cells| ==> r.cells[i] == ClipCell(col.cells[i], bounds)
  {
    Column(col.dtype, ClipCells(col.cells, bounds))
  }

  lemma ClippedComparable(col: Column, bounds: (real, real))
    ensures Comparable(Clipped(col, bounds).cells) <==> Comparable(col.cells)
  {
    var r := Clipped(col, bounds);
    assert forall i :: 0 <= i < |col.cells| ==> (r.cells[i].Num? <==> col.cells[i].Num?) && (r.cells[i].Missing? <==> col.cells[i].Missing?);
  }

  lemma ClippedTwice(col: Column, bounds: (real, real))
    ensures Clipped(Clipped(col, bounds), bounds) == Clipped(col, bounds)
  {
    var once := Clipped(col, bounds);
    var twice := Clipped(once, bounds);
    forall i | 0 <= i < |col.cells|
      ensures twice.cells[i] == once.cells[i]
    {
      if col.cells[i].Num? {
        ClipIdempotent(col.cells[i].x, bounds.0, bounds.1);
      }
    }
  }

  /** `transform` with fixed bounds is idempotent: its copy can be clipped again,
      and clipping it again gives the same frame. */
  lemma ClipAllIdempotent(x: Frame, bounds: map<string, (real, real)>, vs: seq<string>)
    requires WellFormed(x) && AllClippable(x, bounds, vs)
    ensures AllClippable(ClipAll(x, bounds, vs), bounds, vs)
    ensures ClipAll(ClipAll(x, bounds, vs), bounds, vs) == ClipAll(x, bounds, vs)
  {
    var y := ClipAll(x, bounds, vs);
    ClipAllSpec(x, bounds, vs);
    forall v | v in vs
      ensures v in y.cols && y.cols[v].dtype != DateTime && Comparable(y.cols[v].cells)
    {
      ClippedComparable(x.cols[v], bounds[v]);
    }
    var z := ClipAll(y, bounds, vs);
    ClipAllSpec(y, bounds, vs);
    forall v | v in vs
      ensures z.cols[v] == y.cols[v]
    {
      ClippedTwice(x.cols[v], bounds[v]);
    }
    assert z.cols == y.cols;
  }

  /** With quantiles in order and a quantile function monotone in its level, every
      fitted pair is in order, so `transform` keeps each clipped column inside it. */
  lemma FittedBoundsOrdered(h: OutlierHandler, x: Frame, quantile: (seq<real>, real) -> real, v: string)
    requires h.lowerQuantile <= h.upperQuantile
    requires forall s, p, q :: p <= q ==> quantile(s, p) <= quantile(s, q)
    requires AllMeasurable(x, h.variables)
    requires v in h.BoundsOf(x, h.variables, quantile)
    ensures h.BoundsOf(x, h.variables, quantile)[v].0 <= h.BoundsOf(x, h.variables, quantile)[v].1
  {
    h.BoundsOfSpec(x, h.variables, quantile);
  }

  /** `OutlierHandler(variables, lower_quantile=0.25, upper_quantile=0.75)`:
      rejects anything but a list of strings (ValueError), then a quantile that
      is not a number (TypeError) or lies outside [0, 1] (ValueError). */
  method NewOutlierHandler(variables: Value, lower: Value := VNum(0.25), upper: Value := VNum(0.75))
    returns (r: Result<OutlierHandler>)
    ensures r.Ok? <==> StringList(variables).Ok? && Quantiles(lower, upper).Ok?
    ensures StringList(variables).Err? ==> r == Err(StringList(variables).error)
    ensures StringList(variables).Ok? && Quantiles(lower, upper).Err? ==> r == Err(Quantiles(lower, upper).error)
    ensures r.Ok? ==> fresh(r.value) && r.value.bounds == None
    ensures r.Ok? ==> r.value.variables == StringList(variables).value
    ensures r.Ok? ==> (r.value.lowerQuantile, r.value.upperQuantile) == Quantiles(lower, upper).value
  {
    match StringList(variables)
    case Err(e) =>
      return Err(e);
    case Ok(names) =>
      match Quantiles(lower, upper)
      case Err(e) =>
        return Err(e);
      case Ok(qs) =>
        var handler := new OutlierHandler(names, qs.0, qs.1);
        return Ok(handler);
  }
}
