/** `WeathersitImputer`: learns the most frequent value of a column and fills
    that column's blanks with it. */
module WeathersitImputation {
  import opened Outcomes
  import opened Frames
  import opened PyArgs

  // ---- the order pandas sorts tied modes in ----

  /** Python's `s <= t` on strings: lexicographic by code point. */
  predicate StrLe(s: string, t: string) {
    s == [] || (t != [] && (s[0] < t[0] || (s[0] == t[0] && StrLe(s[1..], t[1..]))))
  }

  lemma {:induction false} StrLeTotal(s: string, t: string)
    ensures StrLe(s, t) || StrLe(t, s)
  {
    if s != [] && t != [] && s[0] == t[0] {
      StrLeTotal(s[1..], t[1..]);
    }
  }

  lemma {:induction false} StrLeAntisymmetric(s: string, t: string)
    requires StrLe(s, t) && StrLe(t, s)
    ensures s == t
  {
    if s != [] && t != [] {
      StrLeAntisymmetric(s[1..], t[1..]);
      assert s == [s[0]] + s[1..] && t == [t[0]] + t[1..];
    }
  }

  lemma {:induction false} StrLeTransitive(s: string, t: string, u: string)
    requires StrLe(s, t) && StrLe(t, u)
    ensures StrLe(s, u)
  {
    if s != [] && t != [] && u != [] && s[0] == t[0] && t[0] == u[0] {
      StrLeTransitive(s[1..], t[1..], u[1..]);
    }
  }

  function Rank(c: Cell): nat {
    match c
    case Missing => 0
    case Num(_) => 1
    case Str(_) => 2
    case Date(_) => 3
  }

  /** The order tied modes are sorted in: numbers, strings and dates each in
      their natural order, and numbers before strings, as pandas' `safe_sort`
      puts them; a date is placed after both. */
  predicate CellLe(a: Cell, b: Cell) {
    if a.Num? && b.Num? then a.x <= b.x
    else if a.Str? && b.Str? then StrLe(a.s, b.s)
    else if a.Date? && b.Date? then a.day <= b.day
    else Rank(a) <= Rank(b)
  }

  /** `CellLe` is a total order. */
  lemma CellLeTotalOrder(a: Cell, b: Cell, c: Cell)
    ensures CellLe(a, b) || CellLe(b, a)
    ensures CellLe(a, b) && CellLe(b, a) ==> a == b
    ensures CellLe(a, b) && CellLe(b, c) ==> CellLe(a, c)
  {
    if a.Str? && b.Str? {
      StrLeTotal(a.s, b.s);
      if CellLe(a, b) && CellLe(b, a) { StrLeAntisymmetric(a.s, b.s); }
      if c.Str? && CellLe(a, b) && CellLe(b, c) { StrLeTransitive(a.s, b.s, c.s); }
    }
  }

  // ---- the mode ----

  function Count(cells: seq<Cell>, c: Cell): nat {
    multiset(cells)[c]
  }

  /** `a` comes before `b` in `Series.mode()`: more frequent, or as frequent and smaller. */
  predicate Precedes(cells: seq<Cell>, a: Cell, b: Cell) {
    Count(cells, a) > Count(cells, b) || (Count(cells, a) == Count(cells, b) && CellLe(a, b))
  }

  /** The non-null cell of `cand` that precedes all others, counting in `cells`. */
  function Best(cells: seq<Cell>, cand: seq<Cell>): (r: Option<Cell>)
    ensures r.None? <==> forall i :: 0 <= i < |cand| ==> cand[i] == Missing
    ensures r.Some? ==> r.value != Missing && r.value in cand
    ensures r.Some? ==> forall i :: 0 <= i < |cand| && cand[i] != Missing ==> Precedes(cells, r.value, cand[i])
  {
    if cand == [] then None
    else
      var rest := Best(cells, cand[1..]);
      assert forall i :: 1 <= i < |cand| ==> cand[i] == cand[1..][i - 1];
      if cand[0] == Missing then rest
      else if rest.None? then
        CellLeTotalOrder(cand[0], cand[0], cand[0]);
        Some(cand[0])
      else
        CellLeTotalOrder(cand[0], cand[0], cand[0]);
        CellLeTotalOrder(cand[0], rest.value, rest.value);
        if Precedes(cells, cand[0], rest.value) then
          assert forall i :: 1 <= i < |cand| && cand[i] != Missing ==> Precedes(cells, cand[0], cand[i]) by {
            forall i | 1 <= i < |cand| && cand[i] != Missing
              ensures Precedes(cells, cand[0], cand[i])
            {
              CellLeTotalOrder(cand[0], rest.value, cand[i]);
            }
          }
          Some(cand[0])
        else rest
  }

  /** `Series.mode()[0]`: the most frequent non-null cell, the smallest among
      equally frequent ones; None when every cell is null, where `[0]` raises. */
  function Mode(cells: seq<Cell>): (r: Option<Cell>)
    ensures r.None? <==> forall i :: 0 <= i < |cells| ==> cells[i] == Missing
    ensures r.Some? ==> r.value != Missing && r.value in cells
    ensures r.Some? ==> forall c :: c in cells && c != Missing ==>
      Count(cells, c) <= Count(cells, r.value) &&
      (Count(cells, c) == Count(cells, r.value) ==> CellLe(r.value, c))
  {
    Best(cells, cells)
  }

  /** The mode is unique: any non-null cell at least as frequent as every other
      and smallest among the equally frequent is the one `Mode` picks. */
  lemma ModeUnique(cells: seq<Cell>, m: Cell)
    requires m != Missing && m in cells
    requires forall c :: c in cells && c != Missing ==> Precedes(cells, m, c)
    ensures Mode(cells) == Some(m)
  {
    var r := Mode(cells).value;
    CellLeTotalOrder(m, r, r);
  }

  /** The mode of ["sunny", "", "rainy", "sunny"] is "sunny": '' is an ordinary
      value here, counted once. */
  lemma SunnyExample()
    ensures Mode([Str("sunny"), Str(""), Str("rainy"), Str("sunny")]) == Some(Str("sunny"))
  {
    var cells := [Str("sunny"), Str(""), Str("rainy"), Str("sunny")];
    assert multiset(cells) == multiset{Str("sunny"), Str("sunny"), Str(""), Str("rainy")};
    assert Count(cells, Str("sunny")) == 2;
    assert Count(cells, Str("")) == 1 && Count(cells, Str("rainy")) == 1;
    CellLeTotalOrder(Str("sunny"), Str("sunny"), Str("sunny"));
    ModeUnique(cells, Str("sunny"));
  }

  // ---- the fill ----

  /** `col.replace('', pd.NA).fillna(fill)`: every blank cell becomes `fill`. */
  function FillBlanks(cells: seq<Cell>, fill: Cell): (r: seq<Cell>)
    ensures |r| == |cells|
    ensures forall i :: 0 <= i < |cells| ==> r[i] == if IsBlank(cells[i]) then fill else cells[i]
  {
    seq(|cells|, i requires 0 <= i < |cells| => if IsBlank(cells[i]) then fill else cells[i])
  }

  /** The transformer: `variables` names the column, `fillValue` is `fill_value`,
      absent until `fit` has run. */
  class WeathersitImputer {
    const variables: string
    var fillValue: Option<Cell>

    constructor (variables: string)
      ensures this.variables == variables && fillValue == None
    {
      this.variables := variables;
      fillValue := None;
    }

    /** `fit`: stores the column's mode; `X[variables]` raises KeyError for an
        absent column, and `mode()[0]` raises KeyError(0) when it has no value. */
    method Fit(x: Frame) returns (r: Outcome)
      requires WellFormed(x)
      modifies this
      ensures r.Pass? <==> variables in x.cols && Mode(x.cols[variables].cells).Some?
      ensures variables !in x.cols ==> r == Fail(KeyError(variables))
      ensures variables in x.cols && Mode(x.cols[variables].cells).None? ==> r == Fail(KeyError("0"))
      ensures fillValue == if r.Pass? then Mode(x.cols[variables].cells) else old(fillValue)
    {
      if variables !in x.cols {
        return Fail(KeyError(variables));
      }
      var m := Mode(x.cols[variables].cells);
      if m.None? {
        return Fail(KeyError("0"));
      }
      fillValue := m;
      r := Pass;
    }

    /** `transform`: a copy of `x` whose column `variables` has every null and
        every '' replaced by `fill_value`. Absent column: KeyError, raised before
        `fill_value` is read; never fitted: AttributeError. */
    function Transform(x: Frame): (r: Result<Frame>)
      reads this
      requires WellFormed(x)
      ensures r.Ok? <==> variables in x.cols && fillValue.Some?
      ensures variables !in x.cols ==> r == Err(KeyError(variables))
      ensures variables in x.cols && fillValue.None? ==> r == Err(AttributeError("fill_value"))
      ensures r.Ok? ==> WellFormed(r.value) && OnlyChanged(x, r.value, {variables})
      ensures r.Ok? ==> forall i :: 0 <= i < x.rows ==>
        r.value.cols[variables].cells[i] ==
          if IsBlank(x.cols[variables].cells[i]) then fillValue.value else x.cols[variables].cells[i]
    {
      if variables !in x.cols then Err(KeyError(variables))
      else if fillValue.None? then Err(AttributeError("fill_value"))
      else
        var before := x.cols[variables];
        var cells := FillBlanks(before.cells, fillValue.value);
        Ok(WithColumn(x, variables, Column(Settled(before.dtype, cells), cells)))
    }
  }

  /** Filling twice is filling once, for every stored value, '' included. */
  lemma TransformIdempotent(imputer: WeathersitImputer, x: Frame)
    requires WellFormed(x) && imputer.Transform(x).Ok?
    ensures imputer.Transform(imputer.Transform(x).value) == imputer.Transform(x)
  {
    var v := imputer.variables;
    var y := imputer.Transform(x).value;
    var z := imputer.Transform(y).value;
    assert z.cols[v].cells == y.cols[v].cells;
    assert z.cols[v] == y.cols[v];
    assert z.cols == y.cols;
  }

  /** `WeathersitImputer(variables)`: rejects anything but a str. */
  method NewWeathersitImputer(variables: Value) returns (r: Result<WeathersitImputer>)
    ensures r.Ok? <==> variables.VStr?
    ensures r.Err? ==> r.error == ValueError("variables should be a str")
    ensures r.Ok? ==> fresh(r.value) && r.value.variables == variables.s && r.value.fillValue == None
  {
    match Name(variables)
    case Err(e) =>
      return Err(e);
    case Ok(name) =>
      var imputer := new WeathersitImputer(name);
      return Ok(imputer);
  }
}
