/** The query matching of get_establishments.py: `search_dict`, the record filter,
    `fuzzy_search` and the exact-name fallback. */
module Matching {
  import opened Wrappers
  import opened Text
  import opened Json
  import opened Ranking

  /** `fuzz.token_set_ratio(query, value)`: an external similarity score, left uninterpreted. */
  type Scorer = (string, Value) -> int

  /** The fields `search_dict` looks at, in this order. */
  const SearchFields: seq<string> := ["name", "description", "cuisines", "category"]

  /** `q in v` for a field value: substring for a string, element for a list, key for a dict;
      other values are not containers. */
  function Probe(q: string, v: Value): Result<bool, Error> {
    match v
    case Str(s) => Ok(Contains(s, q))
    case List(xs) => Ok(Str(q) in xs)
    case Obj(fs) => Ok(HasKey(fs, q))
    case _ => Err(TypeError)
  }

  /** One step of `search_dict`: an absent or None field is skipped, otherwise it is probed. */
  function FieldHit(q: string, d: Record, f: string): Result<bool, Error> {
    match Get(d, f)
    case None => Ok(false)
    case Some(v) => if v.Null? then Ok(false) else Probe(q, v)
  }

  /** `search_dict` over the fields `fs`: true at the first field that contains `q`. */
  function SearchIn(q: string, d: Record, fs: seq<string>): (r: Result<bool, Error>)
    ensures r.Err? ==> r.error == TypeError
  {
    if fs == [] then Ok(false)
    else
      match FieldHit(q, d, fs[0])
      case Err(e) => Err(e)
      case Ok(hit) => if hit then Ok(true) else SearchIn(q, d, fs[1..])
  }

  /** Field `i` is the first field of `fs` that contains the query, every field before it
      being absent, None or without the query. */
  predicate FirstHit(q: string, d: Record, fs: seq<string>, i: nat) {
    i < |fs| && FieldHit(q, d, fs[i]) == Ok(true) && forall j :: 0 <= j < i ==> FieldHit(q, d, fs[j]) == Ok(false)
  }

  /** `search_dict` is false exactly when no field contains the query. */
  lemma {:induction false} SearchInFalse(q: string, d: Record, fs: seq<string>)
    ensures SearchIn(q, d, fs) == Ok(false) <==> forall i :: 0 <= i < |fs| ==> FieldHit(q, d, fs[i]) == Ok(false)
  {
    if fs != [] {
      SearchInFalse(q, d, fs[1..]);
      if FieldHit(q, d, fs[0]) == Ok(false) {
        assert forall i :: 1 <= i < |fs| ==> fs[i] == fs[1..][i - 1];
      } else {
        assert !(forall i :: 0 <= i < |fs| ==> FieldHit(q, d, fs[i]) == Ok(false)) by {
          assert FieldHit(q, d, fs[0]) != Ok(false);
        }
      }
    }
  }

  /** `search_dict` is true exactly when some field is the first that contains the query. */
  lemma {:induction false} SearchInTrue(q: string, d: Record, fs: seq<string>)
    ensures SearchIn(q, d, fs) == Ok(true) <==> exists i :: FirstHit(q, d, fs, i)
  {
    if fs != [] {
      SearchInTrue(q, d, fs[1..]);
      if FieldHit(q, d, fs[0]) == Ok(true) {
        assert FirstHit(q, d, fs, 0);
      } else if FieldHit(q, d, fs[0]) == Ok(false) {
        if SearchIn(q, d, fs[1..]) == Ok(true) {
          var i :| FirstHit(q, d, fs[1..], i);
          FirstHitShift(q, d, fs, i);
        }
        if exists i :: FirstHit(q, d, fs, i) {
          var i :| FirstHit(q, d, fs, i);
          FirstHitUnshift(q, d, fs, i);
        }
      } else {
        forall i: nat ensures !FirstHit(q, d, fs, i) {
          assert FieldHit(q, d, fs[0]).Err?;
        }
      }
    }
  }

  lemma {:induction false} FirstHitShift(q: string, d: Record, fs: seq<string>, i: nat)
    requires fs != [] && FieldHit(q, d, fs[0]) == Ok(false) && FirstHit(q, d, fs[1..], i)
    ensures FirstHit(q, d, fs, i + 1)
  {
    assert fs[i + 1] == fs[1..][i];
    forall j | 0 <= j < i + 1 ensures FieldHit(q, d, fs[j]) == Ok(false) {
      if j > 0 {
        assert fs[j] == fs[1..][j - 1];
      }
    }
  }

  lemma {:induction false} FirstHitUnshift(q: string, d: Record, fs: seq<string>, i: nat)
    requires fs != [] && FieldHit(q, d, fs[0]) == Ok(false) && FirstHit(q, d, fs, i)
    ensures i > 0 && FirstHit(q, d, fs[1..], i - 1)
  {
    assert fs[1..][i - 1] == fs[i];
    forall j | 0 <= j < i - 1 ensures FieldHit(q, d, fs[1..][j]) == Ok(false) {
      assert fs[1..][j] == fs[j + 1];
    }
  }

  /** `search_dict(search_string, my_dict)`: the loop over the fields with early return. */
  method SearchDict(q: string, d: Record) returns (r: Result<bool, Error>)
    ensures r == SearchIn(q, d, SearchFields)
  {
    for i := 0 to |SearchFields|
      invariant SearchIn(q, d, SearchFields) == SearchIn(q, d, SearchFields[i..])
    {
      assert SearchFields[i..][1..] == SearchFields[i + 1..];
      var f := SearchFields[i];
      var v := Get(d, f);
      if v.None? {
        continue;
      }
      if !v.value.Null? {
        var hit := Probe(q, v.value);
        if hit.Err? {
          return Err(hit.error);
        }
        if hit.value {
          return Ok(true);
        }
      }
    }
    return Ok(false);
  }

  /** The truth value of the generator expression that ends the filter condition: a generator
      object is always true, whatever it would yield. */
  const GeneratorIsTruthy: bool := true

  /** `[x for x in data if search_dict(q, x) or (<generator>)]` */
  function Filter(q: string, data: seq<Record>): (r: Result<seq<Record>, Error>)
    ensures r.Ok? <==> forall i :: 0 <= i < |data| ==> SearchIn(q, data[i], SearchFields).Ok?
    ensures r.Ok? ==> r.value == data
    ensures r.Err? ==> r.error == TypeError
  {
    if data == [] then Ok([])
    else
      match SearchIn(q, data[0], SearchFields)
      case Err(e) => Err(e)
      case Ok(hit) =>
        var keep := hit || GeneratorIsTruthy;
        match Filter(q, data[1..])
        case Err(e) => Err(e)
        case Ok(rest) => Ok((if keep then [data[0]] else []) + rest)
  }

  /** `query_text.lower().strip()`; ASCII whitespace is unchanged by lowering, so the order is immaterial. */
  function Normalize(query: string): string {
    Lower(Strip(query))
  }

  /** The sort key `fuzz.token_set_ratio(query_text, x['name'])`. */
  function NameKey(q: string, score: Scorer): Record -> int {
    d => score(q, GetOr(d, "name", Null))
  }

  /** `fuzzy_search(query_text, list_of_dicts)`: every record passes the filter, so the result is
      all of `data`, ranked by name score with ties in input order. TypeError comes from
      `search_dict`, KeyError from a record without a name when the sort keys are computed. */
  function FuzzySearch(query: string, data: seq<Record>, score: Scorer): (r: Result<seq<Record>, Error>)
    ensures r.Ok? ==> r.value == SortDesc(data, NameKey(Normalize(query), score))
    ensures r.Err? ==> r.error == TypeError || r.error == KeyError
  {
    var q := Normalize(query);
    match Filter(q, data)
    case Err(e) => Err(e)
    case Ok(matches) =>
      if exists i :: 0 <= i < |matches| && !HasKey(matches[i], "name") then Err(KeyError)
      else Ok(SortDesc(matches, NameKey(q, score)))
  }

  /** The search succeeds exactly when no record's field probe raises and every record has a name. */
  lemma {:induction false} FuzzySearchOk(query: string, data: seq<Record>, score: Scorer)
    ensures FuzzySearch(query, data, score).Ok? <==>
      (forall i :: 0 <= i < |data| ==> SearchIn(Normalize(query), data[i], SearchFields).Ok?) &&
      (forall i :: 0 <= i < |data| ==> HasKey(data[i], "name"))
  {
    var f := Filter(Normalize(query), data);
    if f.Ok? {
      assert f.value == data;
    }
  }

  /** The ranked result is a permutation of the records, in non-increasing name score, and
      records of equal score keep their input order. */
  lemma {:induction false} FuzzySearchRanks(query: string, data: seq<Record>, score: Scorer, k: int)
    requires FuzzySearch(query, data, score).Ok?
    ensures multiset(FuzzySearch(query, data, score).value) == multiset(data)
    ensures SortedDesc(FuzzySearch(query, data, score).value, NameKey(Normalize(query), score))
    ensures WithKey(FuzzySearch(query, data, score).value, NameKey(Normalize(query), score), k)
         == WithKey(data, NameKey(Normalize(query), score), k)
  {
    SortDescStable(data, NameKey(Normalize(query), score), k);
  }

  /** Every record the search returns is a stored record that has a name. */
  lemma {:induction false} FuzzySearchFrom(query: string, data: seq<Record>, score: Scorer, d: Record)
    requires FuzzySearch(query, data, score).Ok? && d in FuzzySearch(query, data, score).value
    ensures d in data && HasKey(d, "name")
  {
    FuzzySearchRanks(query, data, score, 0);
    assert d in multiset(FuzzySearch(query, data, score).value);
    assert d in multiset(data);
    var i :| 0 <= i < |data| && data[i] == d;
    FuzzySearchOk(query, data, score);
  }

  lemma {:induction false} LowerKeepsSpace(s: string)
    ensures forall i :: 0 <= i < |s| ==> (IsSpace(Lower(s)[i]) <==> IsSpace(s[i]))
  {
  }

  /** Normalising twice is normalising once. */
  lemma {:induction false} NormalizeIdempotent(query: string)
    ensures Normalize(Normalize(query)) == Normalize(query)
  {
    var t := Strip(query);
    var u := Lower(t);
    LowerKeepsSpace(t);
    assert LStripBy(u, IsSpace) == u;
    assert RStripBy(u, IsSpace) == u;
    LowerIdempotent(t);
  }

  /** Queries that differ only in letter case or surrounding whitespace rank alike. */
  lemma {:induction false} FuzzySearchIgnoresCase(q1: string, q2: string, data: seq<Record>, score: Scorer)
    requires Normalize(q1) == Normalize(q2)
    ensures FuzzySearch(q1, data, score) == FuzzySearch(q2, data, score)
  {
  }

  /** Running the search on a normalised query changes nothing. */
  lemma {:induction false} FuzzySearchOfNormalized(query: string, data: seq<Record>, score: Scorer)
    ensures FuzzySearch(Normalize(query), data, score) == FuzzySearch(query, data, score)
  {
    NormalizeIdempotent(query);
  }

  /** `establishment['name'].lower() == user_input.lower()` */
  function NameEquals(d: Record, input: string): Result<bool, Error> {
    match Get(d, "name")
    case None => Err(KeyError)
    case Some(v) => if v.Str? then Ok(Lower(v.s) == Lower(input)) else Err(AttributeError)
  }

  /** `[e for e in data if e['name'].lower() == user_input.lower()]` */
  function ExactMatches(input: string, data: seq<Record>): (r: Result<seq<Record>, Error>)
    ensures r.Ok? <==> forall i :: 0 <= i < |data| ==> NameEquals(data[i], input).Ok?
    ensures r.Ok? ==> forall d :: d in r.value <==> d in data && NameEquals(d, input) == Ok(true)
    ensures r.Ok? ==> |r.value| <= |data|
    ensures r.Err? ==> r.error == KeyError || r.error == AttributeError
  {
    if data == [] then Ok([])
    else
      match NameEquals(data[0], input)
      case Err(e) => Err(e)
      case Ok(eq) =>
        match ExactMatches(input, data[1..])
        case Err(e) => Err(e)
        case Ok(rest) =>
          assert forall d :: d in data <==> d == data[0] || d in data[1..];
          Ok((if eq then [data[0]] else []) + rest)
  }
}
