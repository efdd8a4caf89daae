/** `get_establishments(user_input)`: the three-stage search over the stored records and the
    reply built from its first match. */
module Establishments {
  import opened Wrappers
  import opened Text
  import opened Json
  import opened Ranking
  import opened Matching
  import opened Alternatives
  import opened Formatter

  const NoMatches: string := "No matches found."

  /** `[e for e in alt_establishments if 'name' in e]` */
  function Named(ds: seq<Record>): (r: seq<Record>)
    ensures forall d :: d in r <==> d in ds && HasKey(d, "name")
    ensures |r| <= |ds|
  {
    if ds == [] then []
    else
      assert forall d :: d in ds <==> d == ds[0] || d in ds[1..];
      (if HasKey(ds[0], "name") then [ds[0]] else []) + Named(ds[1..])
  }

  /** The reply: the rendered first match, or the fixed text when there is none. */
  function Reply(matches: seq<Record>): Result<string, Error> {
    if matches == [] then Ok(NoMatches) else Rendered(matches[0])
  }

  /** The two fallback stages: a case-insensitive exact name match, then a fuzzy search over
      the named records found by the alternative queries. */
  function Fallback(input: string, data: seq<Record>, score: Scorer, sc: SpellChecker): Result<string, Error> {
    match ExactMatches(input, data)
    case Err(e) => Err(e)
    case Ok(exact) =>
      if exact != [] then Reply(exact)
      else
        match AlternativeMatches(input, data, score, sc)
        case Err(e) => Err(e)
        case Ok(alts) =>
          match FuzzySearch(input, Named(alts), score)
          case Err(e) => Err(e)
          case Ok(found) => Reply(found)
  }

  /** The reply to `input` over the records `data`, with the fuzzy scorer and spell checker
      given as oracles: the fallback stages run when the fuzzy search finds nothing. */
  function Search(input: string, data: seq<Record>, score: Scorer, sc: SpellChecker): Result<string, Error> {
    match FuzzySearch(input, data, score)
    case Err(e) => Err(e)
    case Ok(primary) => if primary != [] then Reply(primary) else Fallback(input, data, score, sc)
  }

  /** The body of `if not matching_establishments:` together with the formatting that follows. */
  method SearchFallback(input: string, data: seq<Record>, score: Scorer, sc: SpellChecker, weekday: string)
    returns (r: Result<string, Error>)
    ensures r == Fallback(input, data, score, sc)
  {
    var exact := ExactMatches(input, data);
    if exact.Err? {
      return Err(exact.error);
    }
    var matches := exact.value;
    if matches == [] {
      var alts := GenerateAlternatives(input, data, score, sc);
      if alts.Err? {
        return Err(alts.error);
      }
      var found := FuzzySearch(input, Named(alts.value), score);
      if found.Err? {
        return Err(found.error);
      }
      matches := found.value;
      if matches == [] {
        return Ok(NoMatches);
      }
    }
    r := FormatEstablishment(matches[0], weekday);
  }

  /** `get_establishments`, with the file contents, the scorer, the spell checker and the
      current weekday passed in. */
  method GetEstablishments(input: string, data: seq<Record>, score: Scorer, sc: SpellChecker, weekday: string)
    returns (r: Result<string, Error>)
    ensures r == Search(input, data, score, sc)
  {
    var matching := FuzzySearch(input, data, score);
    if matching.Err? {
      return Err(matching.error);
    }
    if matching.value == [] {
      r := SearchFallback(input, data, score, sc, weekday);
      return;
    }
    r := FormatEstablishment(matching.value[0], weekday);
  }

  /** With no stored records every stage finds nothing and the fixed reply is returned. */
  lemma {:induction false} SearchOfEmptyStore(input: string, score: Scorer, sc: SpellChecker)
    ensures Search(input, [], score, sc) == Ok(NoMatches)
  {
    assert FuzzySearch(input, [], score) == Ok([]);
    assert ExactMatches(input, []) == Ok([]);
    AlternativesEmptyStore(input, score, sc);
    assert Named([]) == [];
    assert FuzzySearch(input, [], score) == Ok([]);
  }

  /** A successful fuzzy search returns every stored record, so the two fallback stages run
      only when there are no stored records. */
  lemma {:induction false} FallbacksOnlyForEmptyStore(input: string, data: seq<Record>, score: Scorer)
    requires FuzzySearch(input, data, score) == Ok([])
    ensures data == []
  {
  }

  /** Over a non-empty store the reply renders the best-scoring record, or fails with the
      fuzzy search's error. */
  lemma {:induction false} SearchOfStoredRecords(input: string, data: seq<Record>, score: Scorer, sc: SpellChecker)
    requires data != []
    ensures FuzzySearch(input, data, score).Err? ==>
      Search(input, data, score, sc) == Err(FuzzySearch(input, data, score).error)
    ensures FuzzySearch(input, data, score).Ok? ==>
      exists top :: top in data && Search(input, data, score, sc) == Rendered(top) &&
        forall d :: d in data ==> NameKey(Normalize(input), score)(d) <= NameKey(Normalize(input), score)(top)
  {
    var key := NameKey(Normalize(input), score);
    if FuzzySearch(input, data, score).Ok? {
      SortDescHead(data, key);
      var top := SortDesc(data, key)[0];
      assert Search(input, data, score, sc) == Rendered(top);
    }
  }

  /** The reply depends on the query only through its lower-cased, stripped form. */
  lemma {:induction false} SearchIgnoresCaseAndPadding(q1: string, q2: string, data: seq<Record>, score: Scorer, sc: SpellChecker)
    requires Normalize(q1) == Normalize(q2)
    ensures Search(q1, data, score, sc) == Search(q2, data, score, sc)
  {
    if data == [] {
      SearchOfEmptyStore(q1, score, sc);
      SearchOfEmptyStore(q2, score, sc);
    } else {
      FuzzySearchIgnoresCase(q1, q2, data, score);
    }
  }

  /** A fallback reply is an error, the fixed text, or the rendering of a stored record that
      has a name. */
  lemma {:induction false} FallbackRendersStoredRecord(input: string, data: seq<Record>, score: Scorer, sc: SpellChecker)
    ensures Fallback(input, data, score, sc).Err? || Fallback(input, data, score, sc) == Ok(NoMatches) ||
      exists d :: d in data && HasKey(d, "name") && Fallback(input, data, score, sc) == Rendered(d)
  {
    var exact := ExactMatches(input, data);
    if exact.Ok? && exact.value != [] {
      var d := exact.value[0];
      assert d in exact.value;
      assert Fallback(input, data, score, sc) == Rendered(d);
    } else if exact.Ok? {
      var alts := AlternativeMatches(input, data, score, sc);
      if alts.Ok? {
        var found := FuzzySearch(input, Named(alts.value), score);
        if found.Ok? && found.value != [] {
          var d := found.value[0];
          FuzzySearchFrom(input, Named(alts.value), score, d);
          AlternativeMatchesFromStore(input, data, score, sc);
          assert Fallback(input, data, score, sc) == Rendered(d);
        }
      }
    }
  }

  /** Every reply is an error, the fixed text, or the rendering of a stored record that has a
      name. */
  lemma {:induction false} SearchRendersStoredRecord(input: string, data: seq<Record>, score: Scorer, sc: SpellChecker)
    ensures Search(input, data, score, sc).Err? || Search(input, data, score, sc) == Ok(NoMatches) ||
      exists d :: d in data && HasKey(d, "name") && Search(input, data, score, sc) == Rendered(d)
  {
    var primary := FuzzySearch(input, data, score);
    if primary.Ok? && primary.value != [] {
      FuzzySearchFrom(input, data, score, primary.value[0]);
      assert Search(input, data, score, sc) == Rendered(primary.value[0]);
    } else if primary.Ok? {
      FallbackRendersStoredRecord(input, data, score, sc);
    }
  }
}
