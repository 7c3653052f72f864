/** `Mapper`: replaces each value of one column by its integer code from a
    mapping table. */
module OrdinalMapping {
  import opened Outcomes
  import opened Frames
  import opened PyDicts
  import opened PyArgs

  /** The table's entry for one cell, as `Series.map(dict)` looks it up: a string
      under its str key, a whole number under its int key (`1.0 == 1` in Python);
      a null, a fraction or a date finds no entry. */
  function Lookup(d: seq<(Key, int)>, c: Cell): (r: Option<int>)
    ensures c.Str? ==> r == Get(d, KStr(c.s))
    ensures c.Num? && c.x == c.x.Floor as real ==> r == Get(d, KInt(c.x.Floor))
    ensures c.Missing? || c.Date? || (c.Num? && c.x != c.x.Floor as real) ==> r.None?
  {
    match c
    case Str(s) => Get(d, KStr(s))
    case Num(x) => if x == x.Floor as real then Get(d, KInt(x.Floor)) else None
    case _ => None
  }

  /** `col.map(d).astype('int')`: the code of every cell, or None when some cell
      has no entry (its NaN makes the int cast raise). */
  function Codes(d: seq<(Key, int)>, cells: seq<Cell>): (r: Option<seq<int>>)
    ensures r.Some? <==> forall i :: 0 <= i < |cells| ==> Lookup(d, cells[i]).Some?
    ensures r.Some? ==> |r.value| == |cells| && forall i :: 0 <= i < |cells| ==> Lookup(d, cells[i]) == Some(r.value[i])
  {
    if cells == [] then Some([])
    else match Lookup(d, cells[0])
      case None => None
      case Some(v) =>
        match Codes(d, cells[1..])
        case None =>
          assert forall i :: 1 <= i < |cells| ==> cells[i] == cells[1..][i - 1];
          None
        case Some(rest) => Some([v] + rest)
  }

  /** The int column holding `codes`. */
  function IntColumn(codes: seq<int>): (r: Column)
    ensures r.dtype == Numeric && |r.cells| == |codes|
    ensures forall i :: 0 <= i < |codes| ==> r.cells[i] == Num(codes[i] as real)
  {
    Column(Numeric, seq(|codes|, i requires 0 <= i < |codes| => Num(codes[i] as real)))
  }

  /** What `Mapper.transform` returns, and the table it leaves in `self.mappings`:
      the keys are rewritten with `str(k)` when the column is of dtype object and
      with `int(k)` otherwise, then every cell is replaced by its code. An absent
      column raises KeyError and a key `int()` rejects raises ValueError, both
      before the table is rebound; a cell without an entry fails the int cast
      after it. */
  function MapColumn(variables: string, mappings: Dict, x: Frame): (r: (Result<Frame>, Dict))
    requires WellFormed(x)
    ensures variables !in x.cols ==> r == (Err(KeyError(variables)), mappings)
    ensures variables in x.cols ==>
      var toStr := x.cols[variables].dtype == Object;
      var table := CoerceKeys(mappings, toStr);
      && (table.Err? ==> r.0.Err? && r.0.error.ValueError? && r.1 == mappings)
      && (table.Ok? ==> r.1 == table.value)
      && (table.Ok? ==> (r.0.Ok? <==> forall i :: 0 <= i < x.rows ==> Lookup(table.value, x.cols[variables].cells[i]).Some?))
      && (table.Ok? && r.0.Err? ==> r.0.error == IntCastingNaN(variables))
    ensures r.0.Ok? ==> WellFormed(r.0.value) && OnlyChanged(x, r.0.value, {variables})
    ensures r.0.Ok? ==> r.0.value.cols[variables].dtype == Numeric
    ensures r.0.Ok? ==> forall i :: 0 <= i < x.rows ==>
      exists v :: Lookup(r.1, x.cols[variables].cells[i]) == Some(v) && r.0.value.cols[variables].cells[i] == Num(v as real)
  {
    if variables !in x.cols then (Err(KeyError(variables)), mappings)
    else
      var col := x.cols[variables];
      match CoerceKeys(mappings, col.dtype == Object)
      case Err(e) => (Err(e), mappings)
      case Ok(table) =>
        match Codes(table, col.cells)
        case None => (Err(IntCastingNaN(variables)), table)
        case Some(codes) =>
          var mapped := IntColumn(codes);
          assert forall i :: 0 <= i < x.rows ==> Lookup(table, col.cells[i]) == Some(codes[i]);
          (Ok(WithColumn(x, variables, mapped)), table)
  }

  /** The transformer: `variables` names the column, `mappings` is the table,
      which `transform` rebinds to its key-rewritten copy. */
  class Mapper {
    const variables: string
    var mappings: Dict

    constructor (variables: string, mappings: Dict)
      ensures this.variables == variables && this.mappings == mappings
    {
      this.variables := variables;
      this.mappings := mappings;
    }

    method Transform(x: Frame) returns (r: Result<Frame>)
      requires WellFormed(x)
      modifies this
      ensures (r, mappings) == MapColumn(variables, old(mappings), x)
    {
      if variables !in x.cols {
        return Err(KeyError(variables));
      }
      var col := x.cols[variables];
      var table := CoerceKeys(mappings, col.dtype == Object);
      if table.Err? {
        return Err(table.error);
      }
      mappings := table.value;
      var codes := Codes(mappings, col.cells);
      if codes.None? {
        return Err(IntCastingNaN(variables));
      }
      r := Ok(WithColumn(x, variables, IntColumn(codes.value)));
    }
  }

  /** `Mapper(variables, mappings)`: rejects a non-str column name, then a non-dict table. */
  method NewMapper(variables: Value, mappings: Value) returns (r: Result<Mapper>)
    ensures r.Ok? <==> variables.VStr? && mappings.VDict?
    ensures !variables.VStr? ==> r == Err(ValueError("variables should be a str"))
    ensures variables.VStr? && !mappings.VDict? ==> r == Err(ValueError("mappings should be a dict"))
    ensures r.Ok? ==> fresh(r.value) && r.value.variables == variables.s && r.value.mappings == mappings.d
  {
    match Name(variables)
    case Err(e) =>
      return Err(e);
    case Ok(name) =>
      match Table(mappings)
      case Err(e) =>
        return Err(e);
      case Ok(table) =>
        var mapper := new Mapper(name, table);
        return Ok(mapper);
  }

  function SeasonTable(): Dict {
    [(KStr("spring"), 1), (KStr("summer"), 2)]
  }

  function SeasonFrame(values: seq<string>): Frame {
    Frame(|values|, ["season"], map["season" := Column(Object, seq(|values|, i requires 0 <= i < |values| => Str(values[i])))])
  }

  /** The table {"spring": 1, "summer": 2} maps the string column
      ["spring", "summer"] to the int column [1, 2]. */
  lemma SeasonsMapped()
    ensures MapColumn("season", SeasonTable(), SeasonFrame(["spring", "summer"])).0
      == Ok(Frame(2, ["season"], map["season" := Column(Numeric, [Num(1.0), Num(2.0)])]))
  {
    var table := SeasonTable();
    var x := SeasonFrame(["spring", "summer"]);
    CoerceKeysOfCoerced(table, true);
    assert x.cols["season"].cells == [Str("spring"), Str("summer")];
    assert Lookup(table, Str("spring")) == Some(1);
    assert Lookup(table, Str("summer")) == Some(2);
    var cells := [Str("spring"), Str("summer")];
    assert cells[1..] == [Str("summer")] && cells[1..][1..] == [];
    assert Codes(table, []) == Some([]);
    assert [2] + [] == [2] && [1] + [2] == [1, 2];
    assert Codes(table, [Str("summer")]) == Some([2]);
    assert Codes(table, cells) == Some([1, 2]);
    var col := IntColumn([1, 2]);
    assert col.cells == [Num(1.0), Num(2.0)];
    assert x.cols["season" := col] == map["season" := Column(Numeric, [Num(1.0), Num(2.0)])];
  }

  /** The same table fails on ["spring", "autumn"]: "autumn" has no entry. */
  lemma AutumnUnmapped()
    ensures MapColumn("season", SeasonTable(), SeasonFrame(["spring", "autumn"])).0 == Err(IntCastingNaN("season"))
  {
    var table := SeasonTable();
    var x := SeasonFrame(["spring", "autumn"]);
    CoerceKeysOfCoerced(table, true);
    assert x.cols["season"].cells[1] == Str("autumn");
    assert Lookup(table, Str("autumn")) == None;
  }
}
