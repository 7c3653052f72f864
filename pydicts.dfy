/** The mapping tables of the ordinal mapper: Python dicts from str or int keys
    to ints, and the `str(k)` / `int(k)` conversions applied to their keys. */
module PyDicts {
  import opened Outcomes

  /** A dictionary key: a Python `str` or `int`. */
  datatype Key = KStr(s: string) | KInt(i: int)

  predicate DistinctKeys(d: seq<(Key, int)>) {
    forall i, j :: 0 <= i < j < |d| ==> d[i].0 != d[j].0
  }

  /** A Python dict: its items in insertion order, each key at most once. */
  type Dict = d: seq<(Key, int)> | DistinctKeys(d) witness []

  /** The keys of `d`. */
  function KeySet(d: seq<(Key, int)>): (ks: set<Key>)
    ensures forall i :: 0 <= i < |d| ==> d[i].0 in ks
  {
    if d == [] then {} else {d[0].0} + KeySet(d[1..])
  }

  lemma {:induction false} KeyIndex(d: seq<(Key, int)>, k: Key) returns (i: nat)
    requires k in KeySet(d)
    ensures i < |d| && d[i].0 == k
  {
    if d[0].0 == k {
      i := 0;
    } else {
      var j := KeyIndex(d[1..], k);
      i := j + 1;
    }
  }

  /** `d.get(k)`. */
  function Get(d: seq<(Key, int)>, k: Key): (r: Option<int>)
    ensures r.Some? <==> k in KeySet(d)
    ensures r.Some? ==> (k, r.value) in d
  {
    if d == [] then None
    else if d[0].0 == k then Some(d[0].1)
    else Get(d[1..], k)
  }

  /** `d[k] = v`: an existing key keeps its place and takes the new value, a new
      key goes last. */
  function Put(d: seq<(Key, int)>, k: Key, v: int): (r: seq<(Key, int)>)
    ensures KeySet(r) == KeySet(d) + {k}
    ensures k !in KeySet(d) ==> r == d + [(k, v)]
  {
    if d == [] then [(k, v)]
    else if d[0].0 == k then [(k, v)] + d[1..]
    else [d[0]] + Put(d[1..], k, v)
  }

  /** Storing into a dict leaves its keys distinct. */
  lemma {:induction false} PutDistinct(d: seq<(Key, int)>, k: Key, v: int)
    requires DistinctKeys(d)
    ensures DistinctKeys(Put(d, k, v))
  {
    if d != [] && d[0].0 != k {
      PutDistinct(d[1..], k, v);
      var tail := Put(d[1..], k, v);
      HeadKeyNotInTail(d);
      forall j | 0 <= j < |tail| ensures tail[j].0 != d[0].0 {
        assert tail[j].0 in KeySet(tail);
      }
    } else if d != [] {
      var r := Put(d, k, v);
      forall i, j | 0 <= i < j < |r| ensures r[i].0 != r[j].0 {
        assert r[i].0 == d[i].0 && r[j].0 == d[j].0;
      }
    }
  }

  /** After `d[k] = v`, `d.get(k)` is `v` and every other key reads as before. */
  lemma {:induction false} GetPut(d: seq<(Key, int)>, k: Key, v: int, k': Key)
    ensures Get(Put(d, k, v), k') == if k' == k then Some(v) else Get(d, k')
  {
    if d != [] && d[0].0 != k {
      GetPut(d[1..], k, v, k');
    }
  }

  // ---- str(int) and int(str) ----

  predicate IsDigit(c: char) { '0' <= c <= '9' }

  predicate AllDigits(s: string) {
    forall i :: 0 <= i < |s| ==> IsDigit(s[i])
  }

  function DigitChar(n: nat): (c: char)
    requires n < 10
    ensures IsDigit(c) && c as int - '0' as int == n
  {
    ('0' as int + n) as char
  }

  /** The decimal digits of `n`, without leading zeros. */
  function NatToStr(n: nat): (r: string)
    ensures |r| >= 1 && AllDigits(r)
  {
    if n < 10 then [DigitChar(n)] else NatToStr(n / 10) + [DigitChar(n % 10)]
  }

  /** `str(i)` for an int. */
  function IntToStr(i: int): string {
    if i < 0 then "-" + NatToStr(-i) else NatToStr(i)
  }

  /** The number a string of decimal digits denotes. */
  function DigitsValue(s: string): nat
    requires AllDigits(s)
  {
    if s == [] then 0 else DigitsValue(s[..|s| - 1]) * 10 + (s[|s| - 1] as int - '0' as int)
  }

  /** `int(s)` for a string: an optional sign then one or more decimal digits;
      anything else raises ValueError. */
  function ParseInt(s: string): (r: Option<int>)
    ensures r.Some? <==> (|s| >= 1 && AllDigits(s)) || (|s| >= 2 && (s[0] == '-' || s[0] == '+') && AllDigits(s[1..]))
  {
    if |s| >= 2 && (s[0] == '-' || s[0] == '+') && AllDigits(s[1..]) then
      var v: int := DigitsValue(s[1..]);
      Some(if s[0] == '-' then -v else v)
    else if |s| >= 1 && AllDigits(s) then Some(DigitsValue(s))
    else None
  }

  lemma {:induction false} NatToStrValue(n: nat)
    ensures DigitsValue(NatToStr(n)) == n
  {
    var r := NatToStr(n);
    if n >= 10 {
      NatToStrValue(n / 10);
      assert r[..|r| - 1] == NatToStr(n / 10);
    }
  }

  /** `int(str(i)) == i` for every int. */
  lemma IntToStrRoundTrip(i: int)
    ensures ParseInt(IntToStr(i)) == Some(i)
  {
    var s := IntToStr(i);
    if i < 0 {
      NatToStrValue(-i);
      assert s[0] == '-' && s[1..] == NatToStr(-i);
      assert ParseInt(s) == Some(0 - DigitsValue(s[1..]) as int);
    } else {
      NatToStrValue(i);
      assert IsDigit(s[0]);
      assert ParseInt(s) == Some(DigitsValue(s));
    }
  }

  // ---- key coercion ----

  /** `str(k)` if `toStr`, else `int(k)`; None where `int()` raises. */
  function CoerceKey(k: Key, toStr: bool): (r: Option<Key>)
    ensures r.Some? ==> (if toStr then r.value.KStr? else r.value.KInt?)
    ensures (if toStr then k.KStr? else k.KInt?) ==> r == Some(k)
    ensures !toStr && k.KStr? ==> (r.Some? <==> ParseInt(k.s).Some?)
  {
    match k
    case KStr(s) =>
      if toStr then Some(k)
      else (match ParseInt(s) case None => None case Some(i) => Some(KInt(i)))
    case KInt(i) =>
      if toStr then Some(KStr(IntToStr(i))) else Some(k)
  }

  /** The error `int(k)` raises for a string key that is not an integer literal. */
  function BadLiteral(k: Key): Error {
    ValueError("invalid literal for int() with base 10: '" + (if k.KStr? then k.s else "") + "'")
  }

  predicate InCoercedForm(d: seq<(Key, int)>, toStr: bool) {
    forall k :: k in KeySet(d) ==> (if toStr then k.KStr? else k.KInt?)
  }

  predicate AllCoercible(items: seq<(Key, int)>, toStr: bool) {
    forall i :: 0 <= i < |items| ==> CoerceKey(items[i].0, toStr).Some?
  }

  /** The items of `items` put into `acc` in order with coerced keys, the
      comprehension `{str(k) or int(k): v for k, v in items}` resumed after `acc`. */
  function CoerceInto(acc: Dict, items: seq<(Key, int)>, toStr: bool): (r: Result<Dict>)
    requires InCoercedForm(acc, toStr)
    ensures r.Ok? ==> InCoercedForm(r.value, toStr)
    ensures r.Ok? <==> AllCoercible(items, toStr)
    ensures r.Err? ==> r.error.ValueError?
    decreases |items|
  {
    if items == [] then Ok(acc)
    else match CoerceKey(items[0].0, toStr)
      case None => Err(BadLiteral(items[0].0))
      case Some(k) =>
        PutDistinct(acc, k, items[0].1);
        CoerceInto(Put(acc, k, items[0].1), items[1..], toStr)
  }

  /** The dict comprehension that rewrites a mapping table's keys: `str(k)` for
      every key when `toStr`, `int(k)` otherwise. */
  function CoerceKeys(d: Dict, toStr: bool): (r: Result<Dict>)
    ensures r.Ok? <==> AllCoercible(d, toStr)
    ensures r.Err? ==> r.error.ValueError?
    ensures r.Ok? ==> InCoercedForm(r.value, toStr)
    ensures r.Ok? ==> forall k :: k in KeySet(r.value) <==> exists i :: 0 <= i < |d| && CoerceKey(d[i].0, toStr) == Some(k)
  {
    var r := CoerceInto([], d, toStr);
    assert r.Ok? ==> forall k :: k in KeySet(r.value) <==> exists i :: 0 <= i < |d| && CoerceKey(d[i].0, toStr) == Some(k) by {
      if r.Ok? {
        forall k
          ensures k in KeySet(r.value) <==> exists i :: 0 <= i < |d| && CoerceKey(d[i].0, toStr) == Some(k)
        {
          CoerceIntoKeys([], d, toStr, k);
        }
      }
    }
    r
  }

  /** The keys the comprehension leaves are those of `acc` and the coerced keys
      of `items`, and no other. */
  lemma {:induction false} CoerceIntoKeys(acc: Dict, items: seq<(Key, int)>, toStr: bool, k: Key)
    requires InCoercedForm(acc, toStr)
    requires CoerceInto(acc, items, toStr).Ok?
    ensures k in KeySet(CoerceInto(acc, items, toStr).value) <==>
      k in KeySet(acc) || exists j :: 0 <= j < |items| && CoerceKey(items[j].0, toStr) == Some(k)
    decreases |items|
  {
    if items != [] {
      var k0 := CoerceKey(items[0].0, toStr).value;
      PutDistinct(acc, k0, items[0].1);
      var acc' := Put(acc, k0, items[0].1);
      CoerceIntoKeys(acc', items[1..], toStr, k);
      if exists j :: 0 <= j < |items| && CoerceKey(items[j].0, toStr) == Some(k) {
        var j :| 0 <= j < |items| && CoerceKey(items[j].0, toStr) == Some(k);
        if j > 0 {
          assert CoerceKey(items[1..][j - 1].0, toStr) == Some(k);
        }
      }
      if exists j :: 0 <= j < |items[1..]| && CoerceKey(items[1..][j].0, toStr) == Some(k) {
        var j :| 0 <= j < |items[1..]| && CoerceKey(items[1..][j].0, toStr) == Some(k);
        assert CoerceKey(items[j + 1].0, toStr) == Some(k);
      }
    }
  }

  lemma {:induction false} NotInKeySet(d: seq<(Key, int)>, k: Key)
    requires forall i :: 0 <= i < |d| ==> d[i].0 != k
    ensures k !in KeySet(d)
  {
    if d != [] {
      NotInKeySet(d[1..], k);
    }
  }

  lemma HeadKeyNotInTail(d: seq<(Key, int)>)
    requires d != [] && DistinctKeys(d)
    ensures d[0].0 !in KeySet(d[1..])
  {
    NotInKeySet(d[1..], d[0].0);
  }

  lemma AppendFront<T>(a: seq<T>, b: seq<T>)
    requires b != []
    ensures (a + [b[0]]) + b[1..] == a + b
  {
    assert b == [b[0]] + b[1..];
  }

  lemma {:induction false} CoerceIntoCoerced(acc: Dict, items: seq<(Key, int)>, toStr: bool)
    requires DistinctKeys(items)
    requires InCoercedForm(acc, toStr) && InCoercedForm(items, toStr)
    requires KeySet(acc) !! KeySet(items)
    ensures CoerceInto(acc, items, toStr) == Ok(acc + items)
    decreases |items|
  {
    if items == [] {
      assert acc + items == acc;
    } else {
      var k := items[0].0;
      assert KeySet(items) == {k} + KeySet(items[1..]);
      assert CoerceKey(k, toStr) == Some(k);
      HeadKeyNotInTail(items);
      PutDistinct(acc, k, items[0].1);
      var acc' := Put(acc, k, items[0].1);
      assert acc' == acc + [items[0]];
      CoerceIntoCoerced(acc', items[1..], toStr);
      AppendFront(acc, items);
    }
  }

  /** A table whose keys already have the target type is left as it is. */
  lemma CoerceKeysOfCoerced(d: Dict, toStr: bool)
    requires InCoercedForm(d, toStr)
    ensures CoerceKeys(d, toStr) == Ok(d)
  {
    CoerceIntoCoerced([], d, toStr);
    assert [] + d == d;
  }

  /** Rewriting the keys of an already rewritten table changes nothing, so
      repeated mapper calls on columns of the same dtype see the same table. */
  lemma CoerceKeysIdempotent(d: Dict, toStr: bool)
    requires CoerceKeys(d, toStr).Ok?
    ensures CoerceKeys(CoerceKeys(d, toStr).value, toStr) == CoerceKeys(d, toStr)
  {
    CoerceKeysOfCoerced(CoerceKeys(d, toStr).value, toStr);
  }

  /** Items whose keys do not coerce to `k` leave the entry for `k` as it was. */
  lemma {:induction false} CoerceIntoUntouched(acc: Dict, items: seq<(Key, int)>, toStr: bool, k: Key)
    requires InCoercedForm(acc, toStr)
    requires CoerceInto(acc, items, toStr).Ok?
    requires forall j :: 0 <= j < |items| ==> CoerceKey(items[j].0, toStr) != Some(k)
    ensures Get(CoerceInto(acc, items, toStr).value, k) == Get(acc, k)
    decreases |items|
  {
    if items != [] {
      var k0 := CoerceKey(items[0].0, toStr).value;
      PutDistinct(acc, k0, items[0].1);
      GetPut(acc, k0, items[0].1, k);
      CoerceIntoUntouched(Put(acc, k0, items[0].1), items[1..], toStr, k);
    }
  }

  /** When no later key of the table coerces to the same key, the rewritten
      table maps the coerced key to the item's value: the last item wins. */
  lemma {:induction false} CoerceIntoGet(acc: Dict, items: seq<(Key, int)>, toStr: bool, i: nat)
    requires InCoercedForm(acc, toStr)
    requires CoerceInto(acc, items, toStr).Ok?
    requires i < |items|
    requires forall j :: i < j < |items| ==> CoerceKey(items[j].0, toStr) != CoerceKey(items[i].0, toStr)
    ensures CoerceKey(items[i].0, toStr).Some?
    ensures Get(CoerceInto(acc, items, toStr).value, CoerceKey(items[i].0, toStr).value) == Some(items[i].1)
    decreases |items|
  {
    var k0 := CoerceKey(items[0].0, toStr).value;
    PutDistinct(acc, k0, items[0].1);
    var acc' := Put(acc, k0, items[0].1);
    if i == 0 {
      GetPut(acc, k0, items[0].1, k0);
      CoerceIntoUntouched(acc', items[1..], toStr, k0);
    } else {
      CoerceIntoGet(acc', items[1..], toStr, i - 1);
    }
  }

  /** `Mapper`'s rewriting of the table finds each item's value under its
      coerced key, unless a later item's key coerces to the same key: where
      keys collide, the last item's value wins. */
  lemma CoerceKeysGet(d: Dict, toStr: bool, i: nat)
    requires CoerceKeys(d, toStr).Ok?
    requires i < |d|
    requires forall j :: i < j < |d| ==> CoerceKey(d[j].0, toStr) != CoerceKey(d[i].0, toStr)
    ensures CoerceKey(d[i].0, toStr).Some?
    ensures Get(CoerceKeys(d, toStr).value, CoerceKey(d[i].0, toStr).value) == Some(d[i].1)
  {
    CoerceIntoGet([], d, toStr, i);
  }

  /** A key that is no item's coerced key has no entry in the rewritten table. */
  lemma CoerceKeysMiss(d: Dict, toStr: bool, k: Key)
    requires CoerceKeys(d, toStr).Ok?
    requires forall i :: 0 <= i < |d| ==> CoerceKey(d[i].0, toStr) != Some(k)
    ensures Get(CoerceKeys(d, toStr).value, k) == None
  {
  }
}
