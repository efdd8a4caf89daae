/** The provider-response logic of add_establishment.py: choosing the location id from a
    search response, and shaping a details response into the record that is stored. */
module Locations {
  import opened Wrappers
  import opened Text
  import opened Json
  import opened Matching

  /** An HTTP response: its status code, and its body decoded as JSON (None when the body is
      not valid JSON). */
  datatype Response = Response(status: int, body: Option<Value>)

  /** `response.json()`: JSONDecodeError is a ValueError. */
  function Decoded(resp: Response): (r: Result<Value, Error>)
    ensures r.Err? <==> resp.body.None?
    ensures r.Err? ==> r.error == ValueError
  {
    match resp.body
    case None => Err(ValueError)
    case Some(v) => Ok(v)
  }

  /** `v[key]` for a string key: a dict lookup (None for KeyError); other values are not
      subscriptable by a string. */
  function ItemByKey(v: Value, key: string): Result<Option<Value>, Error> {
    match v
    case Obj(fs) => Ok(Get(fs, key))
    case _ => Err(TypeError)
  }

  /** `v[0]`: the first item of a list or character of a string (None for IndexError when
      empty, and for the KeyError of a dict, whose keys are strings). */
  function FirstItem(v: Value): Result<Option<Value>, Error> {
    match v
    case List(xs) => Ok(if xs == [] then None else Some(xs[0]))
    case Str(s) => Ok(if s == [] then None else Some(Str([s[0]])))
    case Obj(_) => Ok(None)
    case _ => Err(TypeError)
  }

  /** What the `try` block catches. */
  const Caught: Option<Value> := Some(Str(""))

  /** `get_location_id` over the search response: None (Python's None) when the status is not
      200 or there is no "data", `''` when the KeyError or IndexError of the lookup is caught,
      otherwise the first result's `location_id`. The function's own `return None` is `None`
      here, while a `location_id` stored as JSON null is `Some(Null)`. */
  function LocationId(resp: Response): (r: Result<Option<Value>, Error>)
    ensures resp.status != 200 ==> r == Ok(None)
    ensures resp.status == 200 && resp.body.Some? && resp.body.value.Obj? && !HasKey(resp.body.value.fields, "data") ==> r == Ok(None)
    ensures resp.status == 200 && resp.body.Some? && resp.body.value.Obj? && Get(resp.body.value.fields, "data") == Some(List([])) ==> r == Ok(Caught)
  {
    if resp.status != 200 then Ok(None)
    else
      match Decoded(resp)
      case Err(e) => Err(e)
      case Ok(json) =>
        match Probe("data", json)
        case Err(e) => Err(e)
        case Ok(found) =>
          if !found then Ok(None)
          else
            match ItemByKey(json, "data")
            case Err(e) => Err(e)
            case Ok(None) => Ok(Caught)
            case Ok(Some(data)) =>
              match FirstItem(data)
              case Err(e) => Err(e)
              case Ok(None) => Ok(Caught)
              case Ok(Some(first)) =>
                match ItemByKey(first, "location_id")
                case Err(e) => Err(e)
                case Ok(None) => Ok(Caught)
                case Ok(Some(id)) => Ok(Some(id))
  }

  /** The first item of a non-empty "data" list gives the id when it has one, and `''` when not. */
  lemma {:induction false} LocationIdOfFirst(resp: Response, fs: seq<(string, Value)>, xs: seq<Value>)
    requires resp.status == 200 && resp.body == Some(Obj(fs)) && Get(fs, "data") == Some(List(xs))
    requires xs != [] && xs[0].Obj?
    ensures LocationId(resp) == (if HasKey(xs[0].fields, "location_id") then Ok(Get(xs[0].fields, "location_id")) else Ok(Caught))
  {
    assert Probe("data", Obj(fs)) == Ok(true);
  }

  /** Conversely, an id other than `''` is the `location_id` of the first item in the
      response's "data" (a dict within a list, for a dict response). */
  lemma {:induction false} LocationIdSource(resp: Response)
    requires LocationId(resp).Ok? && LocationId(resp).value.Some? && LocationId(resp).value != Caught
    ensures resp.status == 200 && resp.body.Some? && resp.body.value.Obj?
    ensures Get(resp.body.value.fields, "data").Some? && Get(resp.body.value.fields, "data").value.List?
    ensures var xs := Get(resp.body.value.fields, "data").value.items;
      xs != [] && xs[0].Obj? && Get(xs[0].fields, "location_id") == LocationId(resp).value
  {
    var json := resp.body.value;
    assert json.Obj? by {
      assert ItemByKey(json, "data").Ok?;
    }
  }

  /** The keys of the details record, in order. */
  const DetailKeys: seq<string> := ["name", "description", "address_string", "website", "rating", "phone",
                                     "longitude", "latitude", "cuisines", "category", "hours"]

  /** The provider fields copied as they are, or None when absent. */
  const PlainKeys: seq<string> := ["name", "description", "website", "rating", "phone", "longitude", "latitude"]

  /** `data.get(outer, {}).get(inner)`: None when `outer` is absent; a present value must be a dict. */
  function Nested(d: Record, outer: string, inner: string): (r: Result<Value, Error>)
    ensures !HasKey(d, outer) ==> r == Ok(Null)
    ensures r.Err? <==> HasKey(d, outer) && !Get(d, outer).value.Obj?
    ensures r.Err? ==> r.error == AttributeError
  {
    match Get(d, outer)
    case None => Ok(Null)
    case Some(v) => if v.Obj? then Ok(GetOr(v.fields, inner, Null)) else Err(AttributeError)
  }

  /** `[c.get("name") for c in items]`: every item must be a dict. */
  function Names(items: seq<Value>): (r: Result<seq<Value>, Error>)
    ensures r.Ok? <==> forall i :: 0 <= i < |items| ==> items[i].Obj?
    ensures r.Ok? ==> |r.value| == |items| && forall i :: 0 <= i < |items| ==> r.value[i] == GetOr(items[i].fields, "name", Null)
    ensures r.Err? ==> r.error == AttributeError
  {
    if items == [] then Ok([])
    else if !items[0].Obj? then Err(AttributeError)
    else
      match Names(items[1..])
      case Err(e) => Err(e)
      case Ok(rest) => Ok([GetOr(items[0].fields, "name", Null)] + rest)
  }

  /** `[cuisine.get("name") for cuisine in data.get("cuisine", [])]` */
  function CuisineNames(d: Record): Result<seq<Value>, Error> {
    match Iterate(GetOr(d, "cuisine", List([])))
    case Err(e) => Err(e)
    case Ok(items) => Names(items)
  }

  /** The details record for provider data `d`, the entries evaluated in order. */
  function DetailsOf(d: Record): (r: Result<Record, Error>)
    ensures r.Ok? ==> Keys(r.value) == DetailKeys
  {
    match Nested(d, "address_obj", "address_string")
    case Err(e) => Err(e)
    case Ok(address) =>
      match CuisineNames(d)
      case Err(e) => Err(e)
      case Ok(cuisines) =>
        match Nested(d, "category", "localized_name")
        case Err(e) => Err(e)
        case Ok(category) =>
          match Nested(d, "hours", "weekday_text")
          case Err(e) => Err(e)
          case Ok(hours) => Ok(DetailsRecord(d, address, cuisines, category, hours))
  }

  /** The `results` dict once its computed entries are known. */
  function DetailsRecord(d: Record, address: Value, cuisines: seq<Value>, category: Value, hours: Value): (r: Record)
    ensures Keys(r) == DetailKeys
  {
    [("name", GetOr(d, "name", Null)), ("description", GetOr(d, "description", Null)),
     ("address_string", address), ("website", GetOr(d, "website", Null)),
     ("rating", GetOr(d, "rating", Null)), ("phone", GetOr(d, "phone", Null)),
     ("longitude", GetOr(d, "longitude", Null)), ("latitude", GetOr(d, "latitude", Null)),
     ("cuisines", List(cuisines)), ("category", category), ("hours", hours)]
  }

  lemma {:induction false} DetailsRecordField(d: Record, address: Value, cuisines: seq<Value>, category: Value, hours: Value, i: nat)
    requires i < 11
    ensures Get(DetailsRecord(d, address, cuisines, category, hours), DetailKeys[i]) ==
      Some(DetailsRecord(d, address, cuisines, category, hours)[i].1)
  {
    var rec := DetailsRecord(d, address, cuisines, category, hours);
    assert Keys(rec) == DetailKeys;
    assert forall j :: 0 <= j < 11 ==> rec[j].0 == DetailKeys[j];
    GetAt(rec, i);
  }

  /** `get_location_details` over the details response: `data.get` needs a dict. */
  function LocationDetails(resp: Response): (r: Result<Record, Error>)
    ensures r.Ok? ==> Keys(r.value) == DetailKeys
    ensures r.Err? ==> r.error in {ValueError, AttributeError, TypeError}
  {
    match Decoded(resp)
    case Err(e) => Err(e)
    case Ok(json) =>
      if !json.Obj? then Err(AttributeError) else DetailsOf(json.fields)
  }

  /** Where a copied field sits in the details record. */
  function PlainIndex(k: string): (i: nat)
    requires k in PlainKeys
    ensures i < 11 && DetailKeys[i] == k
  {
    if k == "name" then 0 else if k == "description" then 1 else if k == "website" then 3
    else if k == "rating" then 4 else if k == "phone" then 5 else if k == "longitude" then 6 else 7
  }

  lemma {:induction false} DetailsRecordPlain(d: Record, address: Value, cuisines: seq<Value>, category: Value, hours: Value, k: string)
    requires k in PlainKeys
    ensures Get(DetailsRecord(d, address, cuisines, category, hours), k) == Some(GetOr(d, k, Null))
  {
    var i := PlainIndex(k);
    DetailsRecordField(d, address, cuisines, category, hours, i);
  }

  /** A provider field copied into the record is the provider's value, or None when absent. */
  lemma {:induction false} DetailsPlainFields(d: Record, k: string)
    requires DetailsOf(d).Ok? && k in PlainKeys
    ensures Get(DetailsOf(d).value, k) == Some(GetOr(d, k, Null))
    ensures !HasKey(d, k) ==> Get(DetailsOf(d).value, k) == Some(Null)
  {
    var address := Nested(d, "address_obj", "address_string").value;
    var cuisines := CuisineNames(d).value;
    var category := Nested(d, "category", "localized_name").value;
    var hours := Nested(d, "hours", "weekday_text").value;
    assert DetailsOf(d).value == DetailsRecord(d, address, cuisines, category, hours);
    DetailsRecordPlain(d, address, cuisines, category, hours, k);
  }

  /** The cuisines are the provider's cuisine names in the provider's order, and `[]` when the
      provider gives none. */
  lemma {:induction false} DetailsCuisines(d: Record)
    requires DetailsOf(d).Ok?
    ensures Get(DetailsOf(d).value, "cuisines") == Some(List(CuisineNames(d).value))
    ensures !HasKey(d, "cuisine") ==> CuisineNames(d) == Ok([])
    ensures HasKey(d, "cuisine") && Get(d, "cuisine").value.List? ==>
      var xs := Get(d, "cuisine").value.items;
      var cs := CuisineNames(d).value;
      |cs| == |xs| && forall i :: 0 <= i < |xs| ==> xs[i].Obj? && cs[i] == GetOr(xs[i].fields, "name", Null)
  {
    var address := Nested(d, "address_obj", "address_string").value;
    var cuisines := CuisineNames(d).value;
    var category := Nested(d, "category", "localized_name").value;
    var hours := Nested(d, "hours", "weekday_text").value;
    assert DetailsOf(d).value == DetailsRecord(d, address, cuisines, category, hours);
    DetailsRecordField(d, address, cuisines, category, hours, 8);
  }

  /** The address, category and hours come from the inner key of the provider's dict, and are
      None when that dict is absent. */
  lemma {:induction false} DetailsNestedFields(d: Record)
    requires DetailsOf(d).Ok?
    ensures Get(DetailsOf(d).value, "address_string") == Some(Nested(d, "address_obj", "address_string").value)
    ensures Get(DetailsOf(d).value, "category") == Some(Nested(d, "category", "localized_name").value)
    ensures Get(DetailsOf(d).value, "hours") == Some(Nested(d, "hours", "weekday_text").value)
    ensures !HasKey(d, "hours") ==> Get(DetailsOf(d).value, "hours") == Some(Null)
  {
    var address := Nested(d, "address_obj", "address_string").value;
    var cuisines := CuisineNames(d).value;
    var category := Nested(d, "category", "localized_name").value;
    var hours := Nested(d, "hours", "weekday_text").value;
    assert DetailsOf(d).value == DetailsRecord(d, address, cuisines, category, hours);
    DetailsRecordField(d, address, cuisines, category, hours, 2);
    DetailsRecordField(d, address, cuisines, category, hours, 9);
    DetailsRecordField(d, address, cuisines, category, hours, 10);
  }
}
