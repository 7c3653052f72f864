/** `drop_columns`: the frame without the named columns. */
module ColumnDropping {
  import opened Outcomes
  import opened Frames

  /** The labels of `names` not in `drop`, in their order. */
  function Without(names: seq<string>, drop: seq<string>): (r: seq<string>)
    ensures forall n :: n in r <==> n in names && n !in drop
    ensures Distinct(names) ==> Distinct(r)
    ensures |r| <= |names|
  {
    if names == [] then []
    else
      var rest := Without(names[1..], drop);
      assert forall n :: n in names[1..] ==> n in names;
      if names[0] in drop then rest
      else
        assert Distinct(names) ==> names[0] !in names[1..];
        [names[0]] + rest
  }

  /** The position of `n` in `s`. */
  function Pos(s: seq<string>, n: string): (i: nat)
    requires n in s
    ensures i < |s| && s[i] == n
    ensures forall j :: 0 <= j < i ==> s[j] != n
  {
    if s[0] == n then 0 else 1 + Pos(s[1..], n)
  }

  /** Dropping keeps the remaining columns in their order. */
  lemma {:induction false} WithoutKeepsOrder(names: seq<string>, drop: seq<string>, a: string, b: string)
    requires a in Without(names, drop) && b in Without(names, drop)
    ensures Pos(Without(names, drop), a) < Pos(Without(names, drop), b) <==> Pos(names, a) < Pos(names, b)
  {
    var r := Without(names, drop);
    var rest := Without(names[1..], drop);
    if names[0] in drop {
      assert r == rest;
      assert a != names[0] && b != names[0];
      assert Pos(names, a) == 1 + Pos(names[1..], a);
      assert Pos(names, b) == 1 + Pos(names[1..], b);
      WithoutKeepsOrder(names[1..], drop, a, b);
    } else if a == names[0] || b == names[0] {
      assert Pos(r, names[0]) == 0 && Pos(names, names[0]) == 0;
    } else {
      assert Pos(r, a) == 1 + Pos(rest, a) && Pos(r, b) == 1 + Pos(rest, b);
      assert Pos(names, a) == 1 + Pos(names[1..], a);
      assert Pos(names, b) == 1 + Pos(names[1..], b);
      WithoutKeepsOrder(names[1..], drop, a, b);
    }
  }

  /** The labels of `drop` that `names` lacks, in the order given. */
  function Absent(names: seq<string>, drop: seq<string>): (r: seq<string>)
    ensures forall n :: n in r <==> n in drop && n !in names
  {
    if drop == [] then []
    else
      assert forall n :: n in drop[1..] ==> n in drop;
      (if drop[0] in names then [] else [drop[0]]) + Absent(names, drop[1..])
  }

  /** The frame left once the columns named in `drop` are taken out: the other
      columns, in their order, with their rows as they were. */
  function Kept(x: Frame, drop: seq<string>): (r: Frame)
    requires WellFormed(x)
    ensures WellFormed(r) && r.rows == x.rows
    ensures forall n :: n in r.names <==> n in x.names && n !in drop
    ensures r.cols.Keys == x.cols.Keys - set n | n in drop
    ensures forall n :: n in r.cols ==> r.cols[n] == x.cols[n]
    ensures forall a, b :: a in r.names && b in r.names ==>
      (Pos(r.names, a) < Pos(r.names, b) <==> Pos(x.names, a) < Pos(x.names, b))
  {
    var names := Without(x.names, drop);
    forall a, b | a in names && b in names
      ensures Pos(names, a) < Pos(names, b) <==> Pos(x.names, a) < Pos(x.names, b)
    {
      WithoutKeepsOrder(x.names, drop, a, b);
    }
    Frame(x.rows, names, map n | n in x.cols && n !in drop :: x.cols[n])
  }

  /** `X.drop(columns=drop)`: every other column, in order, with its rows as they
      were; a label `X` lacks raises KeyError naming every such label. */
  function DropColumns(x: Frame, drop: seq<string>): (r: Result<Frame>)
    requires WellFormed(x)
    ensures r.Err? <==> exists n :: n in drop && n !in x.cols
    ensures r.Err? ==> r.error == LabelsNotFound(Absent(x.names, drop))
    ensures r.Ok? ==> r.value == Kept(x, drop)
  {
    var missing := Absent(x.names, drop);
    if missing != [] then
      assert missing[0] in drop && missing[0] !in x.cols;
      Err(LabelsNotFound(missing))
    else
      Ok(Kept(x, drop))
  }
}
