/** Decoded JSON values as Python holds them, and the Python exceptions the core can raise. */
module Json {
  import opened Wrappers
  import opened Text

  /** A value of `json.load`. A number keeps its literal text: the core only stores and prints numbers. */
  datatype Value =
    | Null
    | Bool(b: bool)
    | Num(literal: string)
    | Str(s: string)
    | List(items: seq<Value>)
    | Obj(fields: seq<(string, Value)>)

  /** A dict, as its `items()` in insertion order. A decoded dict has distinct keys; the type
      does not enforce it (`Get` takes the first binding of a key). */
  type Record = seq<(string, Value)>

  /** The exception classes the core raises. */
  datatype Error = TypeError | ValueError | KeyError | IndexError | AttributeError | FileNotFoundError

  /** `d[k]`, or None when `k` is not a key. */
  function Get(d: Record, k: string): Option<Value> {
    if d == [] then None
    else if d[0].0 == k then Some(d[0].1)
    else Get(d[1..], k)
  }

  /** A key is found exactly when some binding has it, and the value found is bound to it. */
  lemma {:induction false} GetMeaning(d: Record, k: string)
    ensures Get(d, k).Some? <==> exists i :: 0 <= i < |d| && d[i].0 == k
    ensures Get(d, k).Some? ==> exists i :: 0 <= i < |d| && d[i] == (k, Get(d, k).value)
  {
    if d != [] && d[0].0 != k {
      GetMeaning(d[1..], k);
      if exists i :: 0 <= i < |d[1..]| && d[1..][i].0 == k {
        var i :| 0 <= i < |d[1..]| && d[1..][i].0 == k;
        assert d[i + 1].0 == k;
      }
      if Get(d, k).Some? {
        var i :| 0 <= i < |d[1..]| && d[1..][i] == (k, Get(d, k).value);
        assert d[i + 1] == (k, Get(d, k).value);
      }
    }
  }

  /** The binding at `i` is the one found when no earlier binding has its key. */
  lemma {:induction false} GetAt(d: Record, i: nat)
    requires i < |d|
    requires forall j :: 0 <= j < i ==> d[j].0 != d[i].0
    ensures Get(d, d[i].0) == Some(d[i].1)
  {
    if i > 0 {
      assert d[1..][i - 1] == d[i];
      GetAt(d[1..], i - 1);
    }
  }

  predicate HasKey(d: Record, k: string) {
    Get(d, k).Some?
  }

  /** `d.get(k, default)` */
  function GetOr(d: Record, k: string, default: Value): Value {
    match Get(d, k)
    case Some(v) => v
    case None => default
  }

  /** `list(d.keys())` */
  function Keys(d: Record): seq<string> {
    seq(|d|, i requires 0 <= i < |d| => d[i].0)
  }

  /** `repr(v)`. Strings are always shown in single quotes; the escaping Python applies to quotes
      and backslashes inside them is not modelled. */
  function Repr(v: Value): string {
    match v
    case Null => "None"
    case Bool(b) => if b then "True" else "False"
    case Num(t) => t
    case Str(s) => "'" + s + "'"
    case List(xs) => "[" + Join(seq(|xs|, i requires 0 <= i < |xs| => Repr(xs[i])), ", ") + "]"
    case Obj(fs) => "{" + Join(seq(|fs|, i requires 0 <= i < |fs| => "'" + fs[i].0 + "': " + Repr(fs[i].1)), ", ") + "}"
  }

  /** `str(v)`, which is what an f-string field shows. */
  function Show(v: Value): string {
    if v.Str? then v.s else Repr(v)
  }

  /** The elements `for x in v` visits: a list's items, a string's characters, a dict's keys;
      anything else is not iterable. */
  function Iterate(v: Value): Result<seq<Value>, Error> {
    match v
    case List(xs) => Ok(xs)
    case Str(s) => Ok(seq(|s|, i requires 0 <= i < |s| => Str([s[i]])))
    case Obj(fs) => Ok(seq(|fs|, i requires 0 <= i < |fs| => Str(fs[i].0)))
    case _ => Err(TypeError)
  }

  /** Iterating a string visits its characters, one-character strings that join back to it. */
  lemma {:induction false} IterateString(s: string)
    ensures Iterate(Str(s)).Ok? && |Iterate(Str(s)).value| == |s|
    ensures Strings(Iterate(Str(s)).value).Ok?
    ensures Join(Strings(Iterate(Str(s)).value).value, "") == s
  {
    var vs := Iterate(Str(s)).value;
    var ws := Strings(vs).value;
    assert ws == Chars(s);
    JoinChars(s);
  }

  /** Iterating a dict visits its keys in order: exactly the strings `in` finds in it. */
  lemma {:induction false} IterateObject(fs: Record)
    ensures Iterate(Obj(fs)).Ok?
    ensures Strings(Iterate(Obj(fs)).value) == Ok(Keys(fs))
    ensures forall k :: Str(k) in Iterate(Obj(fs)).value <==> HasKey(fs, k)
  {
    var vs := Iterate(Obj(fs)).value;
    assert Strings(vs).value == Keys(fs);
    forall k ensures Str(k) in vs <==> HasKey(fs, k) {
      GetMeaning(fs, k);
      if Str(k) in vs {
        var i :| 0 <= i < |vs| && vs[i] == Str(k);
        assert fs[i].0 == k;
      }
      if HasKey(fs, k) {
        var i :| 0 <= i < |fs| && fs[i].0 == k;
        assert vs[i] == Str(k);
      }
    }
  }

  /** The one-character strings of `s`. */
  function Chars(s: string): seq<string> {
    seq(|s|, i requires 0 <= i < |s| => [s[i]])
  }

  lemma {:induction false} JoinChars(s: string)
    ensures Join(Chars(s), "") == s
    decreases |s|
  {
    if |s| >= 2 {
      assert Chars(s)[1..] == Chars(s[1..]);
      JoinChars(s[1..]);
      assert s == [s[0]] + s[1..];
    }
  }

  /** The strings of `vs`, or TypeError if one is not a string (what `str.join` demands). */
  function Strings(vs: seq<Value>): (r: Result<seq<string>, Error>)
    ensures r.Ok? <==> forall i :: 0 <= i < |vs| ==> vs[i].Str?
    ensures r.Ok? ==> |r.value| == |vs| && forall i :: 0 <= i < |vs| ==> r.value[i] == vs[i].s
    ensures r.Err? ==> r.error == TypeError
  {
    if vs == [] then Ok([])
    else if !vs[0].Str? then Err(TypeError)
    else
      match Strings(vs[1..])
      case Err(e) => Err(e)
      case Ok(rest) => Ok([vs[0].s] + rest)
  }
}
