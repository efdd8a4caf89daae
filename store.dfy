/** `write_establishment_to_json_file`: lower-case a record's texts and append it to the store. */
module Store {
  import opened Wrappers
  import opened Text
  import opened Json
  import opened Locations

  /** `value.lower() if isinstance(value, str) else value` */
  function LowerValue(v: Value): Value {
    if v.Str? then Str(Lower(v.s)) else v
  }

  /** The dict comprehension over `new_data.items()`. */
  function LowerValues(d: Record): Record {
    seq(|d|, i requires 0 <= i < |d| => (d[i].0, LowerValue(d[i].1)))
  }

  predicate NoUpper(s: string) {
    forall i :: 0 <= i < |s| ==> !('A' <= s[i] <= 'Z')
  }

  /** Normalising keeps the keys and their order, leaves non-string values as they are, and
      leaves no upper-case letter in any string value (strings nested in lists or dicts
      are not touched). */
  lemma {:induction false} LowerValuesMeaning(d: Record)
    ensures Keys(LowerValues(d)) == Keys(d)
    ensures forall i :: 0 <= i < |d| && !d[i].1.Str? ==> LowerValues(d)[i].1 == d[i].1
    ensures forall i :: 0 <= i < |d| && d[i].1.Str? ==>
      LowerValues(d)[i].1.Str? && |LowerValues(d)[i].1.s| == |d[i].1.s| && NoUpper(LowerValues(d)[i].1.s)
  {
  }

  /** Looking a key up after normalising gives the normalised value of the lookup before. */
  lemma {:induction false} GetLowerValues(d: Record, k: string)
    ensures Get(LowerValues(d), k) == (match Get(d, k) case None => None case Some(v) => Some(LowerValue(v)))
  {
    if d != [] {
      assert LowerValues(d)[1..] == LowerValues(d[1..]);
      GetLowerValues(d[1..], k);
    }
  }

  /** Normalising twice is normalising once. */
  lemma {:induction false} LowerValuesIdempotent(d: Record)
    ensures LowerValues(LowerValues(d)) == LowerValues(d)
  {
    forall i | 0 <= i < |d| ensures LowerValue(LowerValue(d[i].1)) == LowerValue(d[i].1) {
      if d[i].1.Str? {
        LowerIdempotent(d[i].1.s);
      }
    }
  }

  /** The details record keeps its eleven keys, in order, when stored. */
  lemma {:induction false} StoredDetailsKeys(resp: Response)
    requires LocationDetails(resp).Ok?
    ensures Keys(LowerValues(LocationDetails(resp).value)) == DetailKeys
  {
    LowerValuesMeaning(LocationDetails(resp).value);
  }

  /** `stores.json` as the write finds it: missing, not valid JSON, or holding a JSON value. */
  datatype StoreFile = Absent | Undecodable | Decoded(json: Value)

  /** The new file contents: the old list with the normalised record appended, or `[record]`
      when the old contents do not decode. A missing file raises FileNotFoundError, since
      only the decoding error is caught; a value without `append` raises AttributeError. */
  function Written(f: StoreFile, newData: Record): (r: Result<Value, Error>)
    ensures r.Ok? ==> r.value.List?
    ensures r.Err? <==> f.Absent? || (f.Decoded? && !f.json.List?)
  {
    match f
    case Absent => Err(FileNotFoundError)
    case Undecodable => Ok(List([Obj(LowerValues(newData))]))
    case Decoded(v) => if v.List? then Ok(List(v.items + [Obj(LowerValues(newData))])) else Err(AttributeError)
  }

  /** A write keeps every stored record in place and adds the normalised record at the end. */
  lemma {:induction false} WrittenAppends(f: StoreFile, newData: Record)
    requires Written(f, newData).Ok?
    ensures var before := if f.Decoded? then f.json.items else [];
      var after := Written(f, newData).value.items;
      |after| == |before| + 1 && after[..|before|] == before && after[|before|] == Obj(LowerValues(newData))
    ensures var before := if f.Decoded? then f.json.items else [];
      multiset(Written(f, newData).value.items) == multiset(before) + multiset{Obj(LowerValues(newData))}
  {
    var before := if f.Decoded? then f.json.items else [];
    assert Written(f, newData).value.items == before + [Obj(LowerValues(newData))];
  }

  /** Two writes append the two records in the order written. */
  lemma {:induction false} WrittenTwice(f: StoreFile, a: Record, b: Record)
    requires Written(f, a).Ok?
    ensures Written(Decoded(Written(f, a).value), b).Ok?
    ensures var before := if f.Decoded? then f.json.items else [];
      Written(Decoded(Written(f, a).value), b).value.items == before + [Obj(LowerValues(a)), Obj(LowerValues(b))]
  {
  }

  /** The store file, updated in place by each write. Writing it back with `json.dump` and
      reading it again gives the same value, so the file is held as its decoded contents. */
  class JsonStore {
    var file: StoreFile

    constructor(contents: StoreFile)
      ensures file == contents
    {
      file := contents;
    }

    /** `write_establishment_to_json_file(new_data)`: on an error the file is left as it was. */
    method WriteEstablishment(newData: Record) returns (r: Result<(), Error>)
      modifies this
      ensures r.Ok? <==> Written(old(file), newData).Ok?
      ensures r.Err? ==> r.error == Written(old(file), newData).error && file == old(file)
      ensures r.Ok? ==> file == Decoded(Written(old(file), newData).value)
    {
      var normalised := LowerValues(newData);
      var data: seq<Value>;
      match file {
        case Absent =>
          return Err(FileNotFoundError);
        case Undecodable =>
          data := [];
        case Decoded(v) =>
          if !v.List? {
            return Err(AttributeError);
          }
          data := v.items;
      }
      data := data + [Obj(normalised)];
      file := Decoded(List(data));
      r := Ok(());
    }
  }
}
