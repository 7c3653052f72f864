/** Constructor arguments as dynamically typed Python values, and the
    `isinstance` and range checks the transformers' constructors make. */
module PyArgs {
  import opened Outcomes
  import opened PyDicts

  /** A Python value passed to a constructor. */
  datatype Value =
    | VStr(s: string)
    | VNum(x: real)
    | VList(items: seq<Value>)
    | VDict(d: Dict)
    | VNone

  /** The strings of `items` when every item is a `str`. */
  function StrItems(items: seq<Value>): (r: Option<seq<string>>)
    ensures r.Some? <==> forall i :: 0 <= i < |items| ==> items[i].VStr?
    ensures r.Some? ==> |r.value| == |items| && forall i :: 0 <= i < |items| ==> r.value[i] == items[i].s
  {
    if items == [] then Some([])
    else if !items[0].VStr? then None
    else match StrItems(items[1..])
      case None => None
      case Some(rest) => Some([items[0].s] + rest)
  }

  /** The checks `isinstance(variables, list)` and then "every item is a str"
      that `WeekdayImputer` and `OutlierHandler` make, each raising ValueError. */
  function StringList(v: Value): (r: Result<seq<string>>)
    ensures r.Ok? <==> v.VList? && forall i :: 0 <= i < |v.items| ==> v.items[i].VStr?
    ensures r.Ok? ==> |r.value| == |v.items| && forall i :: 0 <= i < |v.items| ==> r.value[i] == v.items[i].s
    ensures !v.VList? ==> r == Err(ValueError("variable should be list of strings"))
    ensures v.VList? && r.Err? ==> r == Err(ValueError("all variables should be strings"))
  {
    if !v.VList? then Err(ValueError("variable should be list of strings"))
    else match StrItems(v.items)
      case None => Err(ValueError("all variables should be strings"))
      case Some(names) => Ok(names)
  }

  /** The check `isinstance(variables, str)`, raising ValueError. */
  function Name(v: Value): (r: Result<string>)
    ensures r.Ok? <==> v.VStr?
    ensures r.Ok? ==> r.value == v.s
    ensures r.Err? ==> r.error == ValueError("variables should be a str")
  {
    if v.VStr? then Ok(v.s) else Err(ValueError("variables should be a str"))
  }

  /** The check `isinstance(mappings, dict)`, raising ValueError. */
  function Table(v: Value): (r: Result<Dict>)
    ensures r.Ok? <==> v.VDict?
    ensures r.Ok? ==> r.value == v.d
    ensures r.Err? ==> r.error == ValueError("mappings should be a dict")
  {
    if v.VDict? then Ok(v.d) else Err(ValueError("mappings should be a dict"))
  }

  /** Python's `0 <= q <= 1`; comparing anything but a number raises TypeError. */
  function InUnitRange(q: Value): (r: Result<bool>)
    ensures r.Ok? <==> q.VNum?
    ensures r.Ok? ==> (r.value <==> 0.0 <= q.x <= 1.0)
  {
    if q.VNum? then Ok(0.0 <= q.x && q.x <= 1.0)
    else Err(TypeError("'<=' not supported between instances"))
  }

  /** `0 <= lower <= 1 and 0 <= upper <= 1`, raising ValueError when false. The
      `and` stops at an out-of-range `lower` before `upper` is compared. Nothing
      relates the two quantiles: `lower > upper` is accepted. */
  function Quantiles(lower: Value, upper: Value): (r: Result<(real, real)>)
    ensures r.Ok? <==> lower.VNum? && upper.VNum? && 0.0 <= lower.x <= 1.0 && 0.0 <= upper.x <= 1.0
    ensures r.Ok? ==> r.value == (lower.x, upper.x)
    ensures lower.VNum? && !(0.0 <= lower.x <= 1.0) ==> r == Err(ValueError("quantiles should be between 0 and 1"))
    ensures !lower.VNum? ==> r.Err? && r.error.TypeError?
    ensures lower.VNum? && 0.0 <= lower.x <= 1.0 && !upper.VNum? ==> r.Err? && r.error.TypeError?
    ensures lower.VNum? && 0.0 <= lower.x <= 1.0 && upper.VNum? && !(0.0 <= upper.x <= 1.0) ==>
      r == Err(ValueError("quantiles should be between 0 and 1"))
  {
    match InUnitRange(lower)
    case Err(e) => Err(e)
    case Ok(lowerOk) =>
      if !lowerOk then Err(ValueError("quantiles should be between 0 and 1"))
      else match InUnitRange(upper)
        case Err(e) => Err(e)
        case Ok(upperOk) =>
          if !upperOk then Err(ValueError("quantiles should be between 0 and 1"))
          else Ok((lower.x, upper.x))
  }

  /** The default quantiles, 0.25 and 0.75, pass the constructor's check. */
  lemma DefaultQuantilesAccepted()
    ensures Quantiles(VNum(0.25), VNum(0.75)) == Ok((0.25, 0.75))
  {
  }

  /** Crossed quantiles pass the constructor's check. */
  lemma CrossedQuantilesAccepted()
    ensures Quantiles(VNum(0.75), VNum(0.25)) == Ok((0.75, 0.25))
  {
  }
}
