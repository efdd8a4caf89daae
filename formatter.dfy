/** The display block get_establishments.py renders for the first match. */
module Formatter {
  import opened Wrappers
  import opened Text
  import opened Json

  function CapitalizeAll(ws: seq<string>): seq<string> {
    seq(|ws|, i requires 0 <= i < |ws| => Capitalize(ws[i]))
  }

  /** The numbered name line for the first (and only) rendered match. */
  function NameLine(name: string): string {
    "1. \U{1F354} " + Join(CapitalizeAll(Split(name)), " ") + ":"
  }

  /** `str(establishment.get(key, '-'))`: an absent key shows the dash (as does a stored `"-"`). */
  function Shown(d: Record, key: string): (r: string)
    ensures !HasKey(d, key) ==> r == "-"
    ensures HasKey(d, key) ==> r == Show(Get(d, key).value)
  {
    Show(GetOr(d, key, Str("-")))
  }

  /** `', '.join(establishment.get('cuisines', []))` */
  function CuisineText(d: Record): Result<string, Error> {
    match Iterate(GetOr(d, "cuisines", List([])))
    case Err(e) => Err(e)
    case Ok(items) =>
      match Strings(items)
      case Err(e) => Err(e)
      case Ok(names) => Ok(Join(names, ", "))
  }

  /** `day_string, hours_string = hours_string.split(': ')`: exactly one separator is needed. */
  function HoursEntry(v: Value): Result<(string, string), Error> {
    if !v.Str? then Err(AttributeError)
    else
      var parts := SplitSep(v.s, ": ");
      if |parts| != 2 then Err(ValueError) else Ok((parts[0], parts[1]))
  }

  /** `f'{day_string.capitalize()}: {hours_string}'` */
  function HoursLine(e: (string, string)): string {
    Capitalize(e.0) + ": " + e.1
  }

  /** `hours_list` after the loop, or the error of the first entry that does not split. */
  function HoursLines(entries: seq<Value>): Result<seq<string>, Error> {
    if entries == [] then Ok([])
    else
      match HoursEntry(entries[0])
      case Err(e) => Err(e)
      case Ok(p) =>
        match HoursLines(entries[1..])
        case Err(e) => Err(e)
        case Ok(rest) => Ok([HoursLine(p)] + rest)
  }

  /** One line per stored entry, in stored order, when every entry splits. */
  lemma {:induction false} HoursLinesOk(entries: seq<Value>)
    ensures HoursLines(entries).Ok? <==> forall j :: 0 <= j < |entries| ==> HoursEntry(entries[j]).Ok?
    ensures HoursLines(entries).Ok? ==> |HoursLines(entries).value| == |entries|
    ensures HoursLines(entries).Ok? ==>
      forall j :: 0 <= j < |entries| ==> HoursLines(entries).value[j] == HoursLine(HoursEntry(entries[j]).value)
  {
    if entries != [] {
      HoursLinesOk(entries[1..]);
      assert forall j :: 1 <= j < |entries| ==> entries[j] == entries[1..][j - 1];
    }
  }

  /** The error raised is that of the first entry that does not split. */
  lemma {:induction false} HoursLinesFirstError(entries: seq<Value>, k: nat)
    requires k < |entries| && HoursEntry(entries[k]).Err?
    requires forall j :: 0 <= j < k ==> HoursEntry(entries[j]).Ok?
    ensures HoursLines(entries) == Err(HoursEntry(entries[k]).error)
  {
    if k > 0 {
      assert forall j :: 0 <= j < k - 1 ==> entries[1..][j] == entries[j + 1];
      HoursLinesFirstError(entries[1..], k - 1);
    }
  }

  const CuisineLabel: string := "\U{1F37D}\U{FE0F} Cuisine: "
  const RatingLabel: string := "\U{2B50}\U{FE0F} Rating: "
  const WebsiteLabel: string := "\U{1F47E} Website: "
  const HoursLabel: string := "\U{1F565} Hours: "

  /** The five parts of the block joined by newlines; the hours part is itself the day's hours
      entries joined by newlines, so the block has four lines plus one per entry. */
  function Block(name: string, cuisine: string, rating: string, website: string, hours: seq<string>): string {
    Join([NameLine(name), CuisineLabel + Capitalize(cuisine), RatingLabel + rating, WebsiteLabel + website,
          HoursLabel + Join(hours, "\n")], "\n")
  }

  /** The rendered block for record `d`, raising as the Python statements do, in their order:
      KeyError for a missing name, then the cuisine join, then the hours loop, then `name.split()`. */
  function Rendered(d: Record): Result<string, Error> {
    match Get(d, "name")
    case None => Err(KeyError)
    case Some(name) =>
      match CuisineText(d)
      case Err(e) => Err(e)
      case Ok(cuisine) =>
        match Iterate(GetOr(d, "hours", List([])))
        case Err(e) => Err(e)
        case Ok(entries) =>
          match HoursLines(entries)
          case Err(e) => Err(e)
          case Ok(lines) =>
            if !name.Str? then Err(AttributeError)
            else Ok(Block(name.s, cuisine, Shown(d, "rating"), Shown(d, "website"), lines))
  }

  /** `if weekday in day_string: formatted_hours = hours_string` */
  function PickToday(e: (string, string), weekday: string, todays: string): (r: string)
    ensures r == e.1 || r == todays
    ensures r == e.1 <== Contains(e.0, weekday)
  {
    if Contains(e.0, weekday) then e.1 else todays
  }

  /** The hours loop. Each day is matched against the current weekday to pick out today's
      hours, a value the caller then overwrites. */
  method FormatHours(entries: seq<Value>, weekday: string) returns (r: Result<seq<string>, Error>, todays: string)
    ensures r == HoursLines(entries)
  {
    todays := "-";
    var hoursList: seq<string> := [];
    for k := 0 to |entries|
      invariant forall j :: 0 <= j < k ==> HoursEntry(entries[j]).Ok?
      invariant |hoursList| == k
      invariant forall j :: 0 <= j < k ==> hoursList[j] == HoursLine(HoursEntry(entries[j]).value)
    {
      var entry := HoursEntry(entries[k]);
      if entry.Err? {
        HoursLinesFirstError(entries, k);
        return Err(entry.error), todays;
      }
      todays := PickToday(entry.value, weekday, todays);
      hoursList := hoursList + [HoursLine(entry.value)];
    }
    HoursLinesOk(entries);
    assert HoursLines(entries).value == hoursList;
    r := Ok(hoursList);
  }

  /** The formatting of `matching_establishments[:1]`. The current weekday is computed and
      matched against each day, but the hours it picks are overwritten by the full list, so the
      result is the same for every weekday. */
  method FormatEstablishment(d: Record, weekday: string) returns (r: Result<string, Error>)
    ensures r == Rendered(d)
  {
    var nameValue := Get(d, "name");
    if nameValue.None? {
      return Err(KeyError);
    }
    var name := nameValue.value;
    var cuisine := CuisineText(d);
    if cuisine.Err? {
      return Err(cuisine.error);
    }
    var rating := Shown(d, "rating");
    var website := Shown(d, "website");
    var hoursData := Iterate(GetOr(d, "hours", List([])));
    if hoursData.Err? {
      return Err(hoursData.error);
    }
    var hoursList, formattedHours := FormatHours(hoursData.value, weekday);
    if hoursList.Err? {
      return Err(hoursList.error);
    }
    formattedHours := Join(hoursList.value, "\n");
    if !name.Str? {
      return Err(AttributeError);
    }
    r := Ok(Join([NameLine(name.s), CuisineLabel + Capitalize(cuisine.value), RatingLabel + rating,
                  WebsiteLabel + website, HoursLabel + formattedHours], "\n"));
  }

  /** Only the name, cuisines, rating, website and hours of a record reach the display. */
  lemma {:induction false} RenderedDependsOnShownFields(d1: Record, d2: Record)
    requires Get(d1, "name") == Get(d2, "name") && Get(d1, "cuisines") == Get(d2, "cuisines")
    requires Get(d1, "rating") == Get(d2, "rating") && Get(d1, "website") == Get(d2, "website")
    requires Get(d1, "hours") == Get(d2, "hours")
    ensures Rendered(d1) == Rendered(d2)
  {
    SameLookups(d1, d2, "cuisines");
    SameLookups(d1, d2, "rating");
    SameLookups(d1, d2, "website");
    SameLookups(d1, d2, "hours");
    assert CuisineText(d1) == CuisineText(d2);
    RenderedOfParts(d1, d2);
  }

  /** Lookups of a key bound alike in two records agree. */
  lemma {:induction false} SameLookups(d1: Record, d2: Record, k: string)
    requires Get(d1, k) == Get(d2, k)
    ensures Shown(d1, k) == Shown(d2, k)
    ensures GetOr(d1, k, List([])) == GetOr(d2, k, List([]))
  {
  }

  lemma {:induction false} RenderedOfParts(d1: Record, d2: Record)
    requires Get(d1, "name") == Get(d2, "name") && CuisineText(d1) == CuisineText(d2)
    requires GetOr(d1, "hours", List([])) == GetOr(d2, "hours", List([]))
    requires Shown(d1, "rating") == Shown(d2, "rating") && Shown(d1, "website") == Shown(d2, "website")
    ensures Rendered(d1) == Rendered(d2)
  {
  }

  lemma {:induction false} CapitalizeKeepsWord(w: string)
    requires IsWord(w)
    ensures IsWord(Capitalize(w))
  {
  }

  /** The name line shows the name's words, each capitalised, separated by single spaces. */
  lemma {:induction false} NameLineWords(name: string)
    ensures Split(Join(CapitalizeAll(Split(name)), " ")) == CapitalizeAll(Split(name))
  {
    var ws := CapitalizeAll(Split(name));
    forall k | 0 <= k < |ws| ensures IsWord(ws[k]) {
      CapitalizeKeepsWord(Split(name)[k]);
    }
    SplitJoin(ws);
  }

  lemma {:induction false} JoinLast(xs: seq<string>, a: string, ys: seq<string>, sep: string)
    requires ys != []
    ensures Join(xs + [a + Join(ys, sep)], sep) == Join(xs + [a + ys[0]] + ys[1..], sep)
  {
    if xs == [] {
      if |ys| > 1 {
        assert ([a + ys[0]] + ys[1..])[1..] == ys[1..];
      }
    } else {
      JoinLast(xs[1..], a, ys, sep);
      assert (xs + [a + Join(ys, sep)])[1..] == xs[1..] + [a + Join(ys, sep)];
      assert (xs + [a + ys[0]] + ys[1..])[1..] == xs[1..] + [a + ys[0]] + ys[1..];
    }
  }

  /** Read line by line, the block is the name, cuisine, rating and website lines, then the
      hours label followed by one line per stored hours entry. */
  lemma {:induction false} BlockLines(name: string, cuisine: string, rating: string, website: string, hours: seq<string>)
    requires hours != []
    requires forall k, i :: 0 <= k < |hours| && 0 <= i < |hours[k]| ==> hours[k][i] != '\n'
    requires forall i :: 0 <= i < |name| ==> name[i] != '\n'
    requires forall i :: 0 <= i < |cuisine| ==> cuisine[i] != '\n'
    requires forall i :: 0 <= i < |rating| ==> rating[i] != '\n'
    requires forall i :: 0 <= i < |website| ==> website[i] != '\n'
    ensures SplitOn(Block(name, cuisine, rating, website, hours), '\n') ==
      [NameLine(name), CuisineLabel + Capitalize(cuisine), RatingLabel + rating, WebsiteLabel + website,
       HoursLabel + hours[0]] + hours[1..]
  {
    var l0, l1, l2, l3 := NameLine(name), CuisineLabel + Capitalize(cuisine), RatingLabel + rating, WebsiteLabel + website;
    var head := [l0, l1, l2, l3];
    JoinLast(head, HoursLabel, hours, "\n");
    Snoc(l0, l1, l2, l3, HoursLabel + Join(hours, "\n"));
    Snoc(l0, l1, l2, l3, HoursLabel + hours[0]);
    NameLineNoNewline(name);
    CapitalizeNoNewline(cuisine);
    LabelsNoNewline();
    LabelLine(CuisineLabel, Capitalize(cuisine));
    LabelLine(RatingLabel, rating);
    LabelLine(WebsiteLabel, website);
    LabelLine(HoursLabel, hours[0]);
    FiveLines(l0, l1, l2, l3, HoursLabel + hours[0]);
    assert LinesNoNewline(hours[1..]);
    ConcatLines([l0, l1, l2, l3, HoursLabel + hours[0]], hours[1..]);
    SplitOnJoin([l0, l1, l2, l3, HoursLabel + hours[0]] + hours[1..], '\n');
  }

  predicate NoNewline(t: string) {
    forall i :: 0 <= i < |t| ==> t[i] != '\n'
  }

  predicate LinesNoNewline(xs: seq<string>) {
    forall k, i :: 0 <= k < |xs| && 0 <= i < |xs[k]| ==> xs[k][i] != '\n'
  }

  lemma {:induction false} Snoc<T>(a: T, b: T, c: T, d: T, e: T)
    ensures [a, b, c, d] + [e] == [a, b, c, d, e]
  {
  }

  lemma {:induction false} LabelsNoNewline()
    ensures NoNewline(CuisineLabel) && NoNewline(RatingLabel) && NoNewline(WebsiteLabel) && NoNewline(HoursLabel)
  {
  }

  lemma {:induction false} LabelLine(tag: string, x: string)
    requires NoNewline(tag) && NoNewline(x)
    ensures NoNewline(tag + x)
  {
    forall i | 0 <= i < |tag + x| ensures (tag + x)[i] != '\n' {
      if i >= |tag| {
        assert (tag + x)[i] == x[i - |tag|];
      }
    }
  }

  lemma {:induction false} FiveLines(a: string, b: string, c: string, d: string, e: string)
    requires NoNewline(a) && NoNewline(b) && NoNewline(c) && NoNewline(d) && NoNewline(e)
    ensures LinesNoNewline([a, b, c, d, e])
  {
    var xs := [a, b, c, d, e];
    forall k, i | 0 <= k < 5 && 0 <= i < |xs[k]| ensures xs[k][i] != '\n' {
      assert NoNewline(xs[k]);
    }
  }

  lemma {:induction false} ConcatLines(xs: seq<string>, ys: seq<string>)
    requires LinesNoNewline(xs) && LinesNoNewline(ys)
    ensures LinesNoNewline(xs + ys)
  {
    var zs := xs + ys;
    forall k, i | 0 <= k < |zs| && 0 <= i < |zs[k]| ensures zs[k][i] != '\n' {
      if k >= |xs| {
        assert zs[k] == ys[k - |xs|];
      } else {
        assert zs[k] == xs[k];
      }
    }
  }

  lemma {:induction false} CapitalizeNoNewline(s: string)
    requires forall i :: 0 <= i < |s| ==> s[i] != '\n'
    ensures forall i :: 0 <= i < |Capitalize(s)| ==> Capitalize(s)[i] != '\n'
  {
  }

  lemma {:induction false} JoinNoNewline(ws: seq<string>)
    requires forall k, i :: 0 <= k < |ws| && 0 <= i < |ws[k]| ==> ws[k][i] != '\n'
    ensures forall i :: 0 <= i < |Join(ws, " ")| ==> Join(ws, " ")[i] != '\n'
  {
    if |ws| > 1 {
      JoinNoNewline(ws[1..]);
      assert Join(ws, " ") == ws[0] + " " + Join(ws[1..], " ");
    }
  }

  lemma {:induction false} NameLineNoNewline(name: string)
    ensures forall i :: 0 <= i < |NameLine(name)| ==> NameLine(name)[i] != '\n'
  {
    var ws := CapitalizeAll(Split(name));
    forall k, i | 0 <= k < |ws| && 0 <= i < |ws[k]| ensures ws[k][i] != '\n' {
      CapitalizeKeepsWord(Split(name)[k]);
      assert IsWord(ws[k]);
    }
    JoinNoNewline(ws);
  }
}
