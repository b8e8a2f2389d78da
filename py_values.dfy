/**
 * Python values as the run configurations, graph attributes and stored
 * result bundles of the pipeline hold them: integers, booleans, strings,
 * None, lists, insertion-ordered dictionaries and plain objects.
 * A dictionary is an association list in insertion order; well-formed
 * dictionaries have distinct keys. Python's `==`, `str()` and the
 * exceptions the pipeline raises are modelled here too.
 */
module PyValues {

  datatype Value =
    | VInt(i: int)
    | VBool(b: bool)
    | VStr(s: string)
    | VNone
    | VList(items: seq<Value>)
    | VDict(entries: seq<(string, Value)>)
      /** an instance of class `cls` whose attribute dictionary is `fields` */
    | VObject(cls: string, fields: seq<(string, Value)>)

  /** A Python dict with string keys, in insertion order. */
  type Dict = seq<(string, Value)>

  /** Why a plain `raise Exception(...)` was raised. */
  datatype Reason =
    | FilenameTooLong
    | AlgPropsMissing
    | StageNotImplemented
    | GraphMissing
    | RunConfigMismatch

  /** The Python exceptions the modelled code raises. */
  datatype Error =
    | KeyError(key: string)
    | ValueError
    | TypeError
    | NotImplementedError
    | UnboundLocalError(name: string)
    | Exception(reason: Reason)

  datatype Result<T> = Ok(value: T) | Err(error: Error)

  datatype Outcome = Pass | Fail(error: Error)

  datatype Option<T> = None | Some(value: T)

  // ---------------------------------------------------------------------
  // Dictionary operations
  // ---------------------------------------------------------------------

  function Keys(d: Dict): set<string>
  {
    if d == [] then {} else {d[0].0} + Keys(d[1..])
  }

  ghost predicate DistinctKeys(d: Dict)
  {
    forall i, j :: 0 <= i < j < |d| ==> d[i].0 != d[j].0
  }

  /** `d.get(k)`: the value stored under `k`, if any. */
  function Get(d: Dict, k: string): (r: Option<Value>)
    ensures r.Some? <==> k in Keys(d)
  {
    if d == [] then None
    else if d[0].0 == k then Some(d[0].1)
    else Get(d[1..], k)
  }

  /** The dictionary without the entry for `k` (unchanged if there is none). */
  function Remove(d: Dict, k: string): (r: Dict)
    ensures Keys(r) == Keys(d) - {k}
    ensures |r| <= |d|
  {
    if d == [] then []
    else if d[0].0 == k then Remove(d[1..], k)
    else [d[0]] + Remove(d[1..], k)
  }

  /** `d[k] = v`: an existing key keeps its position, a new one goes last. */
  function Set(d: Dict, k: string, v: Value): (r: Dict)
    ensures Keys(r) == Keys(d) + {k}
  {
    if d == [] then [(k, v)]
    else if d[0].0 == k then [(k, v)] + d[1..]
    else [d[0]] + Set(d[1..], k, v)
  }

  /** `d.pop(k)` on a copy of `d`: a missing key raises KeyError. */
  function Pop(d: Dict, k: string): (r: Result<Dict>)
    ensures r.Ok? <==> k in Keys(d)
    ensures r.Ok? ==> Keys(r.value) == Keys(d) - {k}
    ensures r.Err? ==> r.error == KeyError(k)
  {
    if k in Keys(d) then Ok(Remove(d, k)) else Err(KeyError(k))
  }

  lemma {:induction false} GetSet(d: Dict, k: string, v: Value, k': string)
    ensures Get(Set(d, k, v), k') == if k' == k then Some(v) else Get(d, k')
  {
    if d != [] && d[0].0 != k && d[0].0 != k' {
      GetSet(d[1..], k, v, k');
    }
  }

  lemma {:induction false} GetRemove(d: Dict, k: string, k': string)
    ensures Get(Remove(d, k), k') == if k' == k then None else Get(d, k')
  {
    if d != [] {
      GetRemove(d[1..], k, k');
    }
  }

  /** Overwriting a key and then removing it is the same as removing it. */
  lemma {:induction false} RemoveSet(d: Dict, k: string, v: Value)
    ensures Remove(Set(d, k, v), k) == Remove(d, k)
  {
    if d != [] && d[0].0 != k {
      RemoveSet(d[1..], k, v);
    }
  }

  /** Removing two keys commutes. */
  lemma {:induction false} RemoveRemove(d: Dict, k: string, k': string)
    ensures Remove(Remove(d, k), k') == Remove(Remove(d, k'), k)
  {
    if d != [] {
      RemoveRemove(d[1..], k, k');
    }
  }

  /** Overwriting one key and removing another commute. */
  lemma {:induction false} RemoveSetOther(d: Dict, k: string, v: Value, k': string)
    requires k != k'
    ensures Remove(Set(d, k, v), k') == Set(Remove(d, k'), k, v)
  {
    if d != [] && d[0].0 != k {
      RemoveSetOther(d[1..], k, v, k');
    }
  }

  lemma {:induction false} DistinctKeysTail(d: Dict)
    requires d != [] && DistinctKeys(d)
    ensures DistinctKeys(d[1..]) && d[0].0 !in Keys(d[1..])
  {
    forall j | 0 <= j < |d[1..]|
      ensures d[1..][j].0 != d[0].0
    {
      assert d[1..][j] == d[j + 1];
    }
    KeysAbsent(d[1..], d[0].0);
  }

  lemma {:induction false} KeysAbsent(d: Dict, k: string)
    requires forall j :: 0 <= j < |d| ==> d[j].0 != k
    ensures k !in Keys(d)
  {
    if d != [] {
      KeysAbsent(d[1..], k);
    }
  }

  /** The position of a key that is present. */
  lemma {:induction false} KeyIndex(d: Dict, k: string) returns (i: nat)
    requires k in Keys(d)
    ensures i < |d| && d[i].0 == k
    ensures Get(d, k) == Some(d[i].1)
    ensures forall j :: 0 <= j < i ==> d[j].0 != k
  {
    if d[0].0 == k {
      i := 0;
    } else {
      i := KeyIndex(d[1..], k);
      i := i + 1;
    }
  }

  /** The keys of a concatenation are the keys of both parts. */
  lemma {:induction false} KeysAppend(a: Dict, b: Dict)
    ensures Keys(a + b) == Keys(a) + Keys(b)
  {
    if a != [] {
      KeysAppend(a[1..], b);
      assert (a + b)[1..] == a[1..] + b;
    } else {
      assert a + b == b;
    }
  }

  /** A dictionary has at most as many keys as entries, and exactly as many when its keys are distinct. */
  lemma {:induction false} KeysCard(d: Dict)
    ensures |Keys(d)| <= |d|
    ensures DistinctKeys(d) ==> |Keys(d)| == |d|
  {
    if d != [] {
      KeysCard(d[1..]);
      var rest := Keys(d[1..]);
      assert Keys(d) == rest + {d[0].0};
      if d[0].0 in rest {
        assert Keys(d) == rest;
        if DistinctKeys(d) {
          DistinctKeysTail(d);
          assert false;
        }
      } else {
        assert |rest + {d[0].0}| == |rest| + 1;
        if DistinctKeys(d) {
          DistinctKeysTail(d);
        }
      }
    }
  }

  /** Every key present has an entry. */
  lemma {:induction false} KeysIndex(d: Dict, i: nat)
    requires i < |d|
    ensures d[i].0 in Keys(d)
  {
    if i > 0 {
      KeysIndex(d[1..], i - 1);
    }
  }

  lemma {:induction false} DistinctKeysGet(d: Dict, i: nat)
    requires DistinctKeys(d) && i < |d|
    ensures Get(d, d[i].0) == Some(d[i].1)
  {
    KeysIndex(d, i);
    var j := KeyIndex(d, d[i].0);
    assert j == i;
  }

  lemma {:induction false} RemoveDistinct(d: Dict, k: string)
    requires DistinctKeys(d)
    ensures DistinctKeys(Remove(d, k))
  {
    if d != [] {
      DistinctKeysTail(d);
      RemoveDistinct(d[1..], k);
      var r := Remove(d[1..], k);
      if d[0].0 != k {
        assert d[0].0 !in Keys(r);
        forall j | 0 < j < |r| + 1
          ensures ([d[0]] + r)[j].0 != d[0].0
        {
          KeysIndex(r, j - 1);
        }
      }
    }
  }

  // ---------------------------------------------------------------------
  // Python's `==`
  // ---------------------------------------------------------------------

  /**
   * Python equality on the values above. A bool equals the integer 1 or 0
   * it stands for. Dictionaries are equal when they have the same number of
   * entries and every key of the left one maps, in the right one, to an
   * equal value; the order of insertion does not matter. Objects are
   * compared by class and fields.
   */
  predicate Eq(a: Value, b: Value)
    decreases a
  {
    match a
    case VInt(n) => (b.VInt? && b.i == n) || (b.VBool? && n == BoolToInt(b.b))
    case VBool(x) => (b.VBool? && b.b == x) || (b.VInt? && b.i == BoolToInt(x))
    case VList(xs) =>
      b.VList? && |xs| == |b.items| &&
      forall i :: 0 <= i < |xs| ==> Eq(xs[i], b.items[i])
    case VDict(es) =>
      b.VDict? && |es| == |b.entries| &&
      forall i :: 0 <= i < |es| ==> EntryIn(es[i], b.entries)
    case _ => a == b
  }

  /** `int(b)`: True is 1 and False is 0. */
  function BoolToInt(b: bool): int
  {
    if b then 1 else 0
  }

  /** Some entry of `es` has the key of `e` and a value equal to that of `e`. */
  predicate EntryIn(e: (string, Value), es: Dict)
    decreases e, 0
  {
    exists j :: 0 <= j < |es| && es[j].0 == e.0 && Eq(e.1, es[j].1)
  }

  /** Every value equals itself. */
  lemma {:induction false} EqRefl(a: Value)
    ensures Eq(a, a)
    decreases a
  {
    match a
    case VList(xs) =>
      forall i | 0 <= i < |xs|
        ensures Eq(xs[i], xs[i])
      {
        EqRefl(xs[i]);
      }
    case VDict(es) =>
      forall i | 0 <= i < |es|
        ensures EntryIn(es[i], es)
      {
        EqRefl(es[i].1);
        assert es[i].0 == es[i].0;
      }
    case _ =>
  }

  // ---------------------------------------------------------------------
  // `str()` and `str.replace(" ", "")`
  // ---------------------------------------------------------------------

  function DigitChar(d: nat): char
    requires d < 10
  {
    ['0', '1', '2', '3', '4', '5', '6', '7', '8', '9'][d]
  }

  /** Decimal digits of a natural number, as `str()` writes them. */
  function NatToString(n: nat): (s: string)
    ensures |s| >= 1
    ensures forall i :: 0 <= i < |s| ==> '0' <= s[i] <= '9'
  {
    if n < 10 then [DigitChar(n)] else NatToString(n / 10) + [DigitChar(n % 10)]
  }

  function IntToString(n: int): (s: string)
  {
    if n < 0 then "-" + NatToString(-n) else NatToString(n)
  }

  /** `repr()` of a value, as `str()` of a container renders its members. */
  function Render(v: Value): string
    decreases v, 1
  {
    match v
    case VInt(n) => IntToString(n)
    case VBool(b) => if b then "True" else "False"
    case VStr(s) => "'" + s + "'"
    case VNone => "None"
    case VList(xs) => "[" + RenderItems(xs, 0) + "]"
    case VDict(es) => "{" + RenderEntries(es, 0) + "}"
    case VObject(c, _) => "<" + c + " object>"
  }

  function RenderItems(xs: seq<Value>, i: nat): string
    decreases VList(xs), 0, |xs| - i
  {
    if i >= |xs| then ""
    else (if i > 0 then ", " else "") + Render(xs[i]) + RenderItems(xs, i + 1)
  }

  function RenderEntries(es: seq<(string, Value)>, i: nat): string
    decreases VDict(es), 0, |es| - i
  {
    if i >= |es| then ""
    else (if i > 0 then ", " else "") + "'" + es[i].0 + "': " + Render(es[i].1) + RenderEntries(es, i + 1)
  }

  /** `s.replace(" ", "")`. */
  function RemoveSpaces(s: string): (r: string)
    ensures ' ' !in r
    ensures |r| <= |s|
  {
    if s == [] then []
    else if s[0] == ' ' then RemoveSpaces(s[1..])
    else [s[0]] + RemoveSpaces(s[1..])
  }

  /** Removing spaces keeps every other character, quotes included, as often as before. */
  lemma {:induction false} RemoveSpacesKeeps(s: string, c: char)
    requires c != ' '
    ensures Count(RemoveSpaces(s), c) == Count(s, c)
  {
    if s != [] {
      RemoveSpacesKeeps(s[1..], c);
      if s[0] != ' ' {
        assert ([s[0]] + RemoveSpaces(s[1..]))[1..] == RemoveSpaces(s[1..]);
      }
    }
  }

  /** A string without spaces is left as it is, so removing spaces is idempotent. */
  lemma {:induction false} RemoveSpacesIdempotent(s: string)
    ensures RemoveSpaces(RemoveSpaces(s)) == RemoveSpaces(s)
  {
    if s != [] {
      RemoveSpacesIdempotent(s[1..]);
      if s[0] != ' ' {
        assert ([s[0]] + RemoveSpaces(s[1..]))[1..] == RemoveSpaces(s[1..]);
      }
    }
  }

  // ---------------------------------------------------------------------
  // Sequences
  // ---------------------------------------------------------------------

  /** `xs.count(x)` */
  function Count<T(==)>(xs: seq<T>, x: T): nat
  {
    if xs == [] then 0 else (if xs[0] == x then 1 else 0) + Count(xs[1..], x)
  }

  /** Appending one element counts it once more when it is `x`. */
  lemma {:induction false} CountSnoc<T>(xs: seq<T>, y: T, x: T)
    ensures Count(xs + [y], x) == Count(xs, x) + (if y == x then 1 else 0)
  {
    if xs != [] {
      CountSnoc(xs[1..], y, x);
      assert (xs + [y])[1..] == xs[1..] + [y];
    }
  }

  /** No element occurs twice. */
  predicate Distinct<T(==)>(xs: seq<T>)
  {
    forall i, j :: 0 <= i < j < |xs| ==> xs[i] != xs[j]
  }
}
