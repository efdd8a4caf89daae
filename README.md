# Restaurant finder: search pipeline and agent record shaping

This project models in Dafny the two cores of a small restaurant-finder service. Everything it
proves is proved about this model.

**Search (`get_establishments.py`).** A user's query runs over a stored list of establishment
records in four steps:

- `fuzzy_search` lower-cases and trims the query.
- It filters the records with `search_dict` and ranks them by a fuzzy similarity score of their
  names.
- If nothing is found, a case-insensitive exact name match is tried.
- After that, a set of alternative queries is tried. It contains every "delete a contiguous run
  of words" variant plus spell-corrected variants. Their results are flattened, de-duplicated
  and re-ranked.

The best match is rendered as a text block: a name line, the cuisine, rating and website
lines, then one line per opening-hours entry of the day (`'\n'.join` of the hours list). If there is none, the reply is `No matches found.`.

**Adding an establishment (`add_establishment.py`).** The model covers:

- the output parser of the language-model agent: a "Final Answer" test, then an `Action:` /
  `Action Input:` regular expression;
- the prompt builder: the scratchpad, the tools text and `str.format`;
- the decisions `get_location_id` and `get_location_details` take over a provider response;
- the lower-casing and append that `write_establishment_to_json_file` performs on the JSON
  store.

## How the model is built

- **Records and errors.** Records are JSON objects kept as ordered `(key, value)` sequences,
  because Python dicts keep insertion order and the de-duplication compares `tuple(items())`.
  Python exceptions are an `Error` datatype. Every step returns a `Result` and raises in the
  order the Python statements evaluate.
- **Oracles.** The fuzzy scorer (`fuzz.token_set_ratio`) and the spell checker
  (`SpellChecker.unknown`, `SpellChecker.correction`) are function-valued parameters and are not
  interpreted.
- **Inputs.** The HTTP responses, the store file's contents and the current weekday are also
  parameters.
- **Loops become methods.** Where the source loops and appends, the model is a method with the
  same loops. Its postcondition ties the result to a specification function, and the lemmas
  state the properties of that function. This covers `search_dict`, the alternative generator,
  the collection of result lists, the hour formatting, the block formatter, `format_messages`
  and the store write.
- **Expressions become functions.** Comprehensions, the fallback chain, the parser, the
  normalisation and the details dict are functions.

Three behaviours are modelled as the code is written, not as a reader might expect:

- **The record filter accepts every record.** The condition of the filter in `fuzzy_search`
  ends in a parenthesised generator expression, and a generator object is always true. As a
  result:
  - `fuzzy_search` sorts all records by their name score;
  - the fallback stages run only when the store is empty (`Establishments.FallbacksOnlyForEmptyStore`);
  - over a non-empty store, the reply renders a top-scoring stored record or reports the error
    the primary search raised (`Establishments.SearchOfStoredRecords`).
- **The weekday makes no difference.** The hours text picked for the current weekday is
  overwritten by the full list of hours, so the rendered block does not depend on the weekday.
  `Formatter.FormatEstablishment` takes the weekday as a parameter, and its result is
  `Rendered(d)`, which has no weekday argument.
- **The cuisine line is capitalised as one string.** `capitalize()` applies to the whole joined
  cuisine string: only its first letter is upper case and the rest is lower case. It is not
  title-cased per word.

Descriptions of the behaviour differ from the code in four places. The model follows the code in
each:

- **Missing fields.** The block is not crash-free for missing fields. A record without `name`
  raises KeyError. Absent cuisines or hours render as empty text, not as a dash. Only rating and
  website default to `-`.
- **Weekday display.** No separate "today's hours" value is shown.
- **Cuisine case.** The cuisine list is capitalised as one string, not per word.
- **Missing store file.** The store write catches only `json.JSONDecodeError`. A missing
  `stores.json` therefore raises FileNotFoundError, despite the comment beside the handler
  (`Store.Written`).

## Model

| member | source | states |
|---|---|---|
| Text.SplitJoin | get_establishments.py:56 | joining words with single spaces and splitting the result again gives back the same words |
| Text.ReplaceSelf | get_establishments.py:66 | replacing a word by itself leaves the text unchanged |
| Text.AfterLastMeaning | add_establishment.py:97 | `split(sep)[-1]` is a suffix of the text without `sep` in it; it is the whole text exactly when `sep` does not occur, and otherwise `sep` stands right before it |
| Text.SplitSepLast | add_establishment.py:97 | the last piece of `split(sep)` is the text after the last separator found by a left-to-right, non-overlapping scan (`AfterLast`) |
| Json.Strings | get_establishments.py:105 | `', '.join` succeeds exactly when every item is a string and then joins those strings in order; otherwise TypeError |
| Json.GetMeaning | get_establishments.py:33-35 | `field in my_dict` holds exactly when some binding of the dict has that key, and `my_dict[field]` is a value bound to that key |
| Json.IterateString | get_establishments.py:113-115 | `for x in s` over a string visits one-character strings, one per character, that join back to `s` |
| Json.IterateObject | get_establishments.py:113-115 | `for x in d` over a dict visits its keys in order, and a string is visited exactly when `in` finds it as a key |
| Ranking.SortDesc | get_establishments.py:44 | the sort result is a permutation of its input, of the same length, in non-increasing key order |
| Ranking.SortDescStable | get_establishments.py:44 | for every key value, the records with that key keep their input order (stability of `sorted`) |
| Ranking.SortDescHead | get_establishments.py:44 | the first sorted record is an input record whose key is at least that of every input record |
| Matching.SearchDict | get_establishments.py:31-37 | the field loop with its early return computes `SearchIn` over name, description, cuisines and category |
| Matching.SearchInFalse | get_establishments.py:31-37 | `search_dict` is false exactly when no field hits: each is absent, None, or does not contain the query |
| Matching.SearchInTrue | get_establishments.py:31-37 | `search_dict` is true exactly when some field is present, not None and contains the query (substring of a string, element of a list, key of a dict) with every earlier field not hitting |
| Matching.SearchIn | get_establishments.py:35 | the only error `search_dict` raises is TypeError (`in` on a number or bool) |
| Matching.Filter | get_establishments.py:40-43 | the filter succeeds exactly when `search_dict` raises for no record, and it then keeps every record, because the trailing generator is truthy |
| Matching.FuzzySearch | get_establishments.py:27-45 | a result is the records sorted by the name score of the lower-cased, trimmed query; errors are TypeError or KeyError |
| Matching.FuzzySearchOk | get_establishments.py:27-45 | the search succeeds exactly when `search_dict` raises for no record and every record has a name |
| Matching.FuzzySearchFrom | get_establishments.py:40-45 | every record the search returns is a stored record that has a name |
| Matching.FuzzySearchRanks | get_establishments.py:40-45 | the ranked result is a permutation of the records, non-increasing in the name score, and records of equal score keep their input order |
| Matching.NormalizeIdempotent | get_establishments.py:28 | lower-casing and trimming twice is the same as doing it once |
| Matching.FuzzySearchIgnoresCase | get_establishments.py:28 | queries that agree after lower-casing and trimming give identical search results |
| Matching.FuzzySearchOfNormalized | get_establishments.py:28 | searching with an already normalised query changes nothing |
| Matching.ExactMatches | get_establishments.py:90 | the exact-name fallback keeps exactly the records whose lower-cased name equals the lower-cased input; it raises KeyError for a record without a name, or AttributeError for a name that is not a string |
| Alternatives.DeletionAlternatives | get_establishments.py:50-57 | the nested `for i` / `for j` loops produce `Deletions(words, k)`, one variant `words[:i] + words[j:]` per pair i < j, in loop order |
| Alternatives.DeletionsLength | get_establishments.py:54-57 | after the first n rows of the outer loop, 2·length = n·(2k − n + 1) |
| Alternatives.DeletionCount | get_establishments.py:54-57 | a query of k words yields exactly k·(k+1)/2 alternatives, duplicates not removed |
| Alternatives.DeletionsGrow | get_establishments.py:54-57 | each row of the outer loop only appends: the variants of the first m rows are a prefix of those of the first n ≥ m |
| Alternatives.DeletionsAt | get_establishments.py:54-57 | the variant for the pair (i, j) sits at a fixed index, determined by i and j, of the alternatives list |
| Alternatives.DeletionsCover | get_establishments.py:54-57 | a string is an alternative exactly when it is `' '.join(words[:i] + words[j:])` for some i < j |
| Alternatives.EmptyVariant | get_establishments.py:54-57 | for a non-empty query, the empty string (i = 0, j = k) is among the alternatives, at index k − 1 |
| Alternatives.DeletionWords | get_establishments.py:56 | the words of an alternative are `words[:i] + words[j:]` |
| Alternatives.DeletionIsNotQuery | get_establishments.py:56 | an alternative has k − (j − i) words and is never the query itself |
| Alternatives.SpellAlternatives | get_establishments.py:60-68 | the outer spell loop computes `SpellVariants` of the deletion alternatives |
| Alternatives.CorrectAlternative | get_establishments.py:62-68 | the middle loop, over the misspelled words of one alternative, computes `WordsOf` |
| Alternatives.CorrectWord | get_establishments.py:64-68 | the inner loop, over the corrections of one word, computes `CorrectionsOf` |
| Alternatives.SpellVariantsMeaning | get_establishments.py:60-68 | every spell alternative is missing from the deletion alternatives and is some alternative with a reported-unknown word replaced (`str.replace`) by one of the words of its correction |
| Alternatives.CorrectionsOfMeaning | get_establishments.py:65-68 | a variant added for one word is missing from the alternatives and is the alternative with that word replaced by one of its corrections |
| Alternatives.WordsOfMeaning | get_establishments.py:63-68 | a variant added for one alternative comes from one of its unknown words and one of that word's corrections |
| Alternatives.SelfCorrectionAddsNothing | get_establishments.py:65-67 | a word whose correction is itself adds no spell alternative |
| Alternatives.CollectMatches | get_establishments.py:71-76 | the collecting loop computes `Collect`, skipping TypeError and ValueError |
| Alternatives.CollectOk | get_establishments.py:72-76 | collecting succeeds exactly when no query's search raises an exception other than TypeError and ValueError (for the fuzzy search, KeyError is the only such one) |
| Alternatives.CollectStep | get_establishments.py:72-76 | one round of the loop: an uncaught exception propagates, a caught one skips the query, a result is appended |
| Alternatives.CollectFrom | get_establishments.py:72-76 | every collected list is the search result of one of the queries |
| Alternatives.CollectNothing | get_establishments.py:72-76 | a search that finds nothing for any query contributes one empty list per query |
| Alternatives.FuzzySearchEmpty | get_establishments.py:40-45 | the fuzzy search over an empty store returns an empty list |
| Alternatives.Flatten | get_establishments.py:79 | a record is in the flattened list exactly when it is in one of the sublists |
| Alternatives.FlattenEmpties | get_establishments.py:79 | flattening empty lists gives the empty list |
| Alternatives.Distinct | get_establishments.py:82 | de-duplication keeps the same set of records, with no two equal and no more than before |
| Alternatives.Dedup | get_establishments.py:82 | de-duplication succeeds exactly when no field value is a list or dict (unhashable, TypeError); it then has no two equal records, and a record is in it exactly when it was in the flattened list |
| Alternatives.GenerateAlternatives | get_establishments.py:48-84 | `generate_alternatives` computes `AlternativeMatches`: deletions, then spell variants, then collect, flatten and de-duplicate |
| Alternatives.MatchesOfFromStore | get_establishments.py:72-84 | the de-duplicated matches of any queries are distinct and are all stored records |
| Alternatives.AlternativeMatchesFromStore | get_establishments.py:48-84 | the records found by the alternative queries are distinct stored records |
| Alternatives.MatchesOfEmptyStore | get_establishments.py:72-84 | over an empty store, any queries give no matches |
| Alternatives.AlternativesEmptyStore | get_establishments.py:48-84 | over an empty store, the alternative queries give no matches |
| Establishments.Named | get_establishments.py:95 | keeps exactly the records with a `name` key, and no more than given |
| Establishments.SearchFallback | get_establishments.py:88-99 | the fallback body (exact match, then the alternatives re-ranked by the original input, then `No matches found.`), followed by the formatting, computes `Fallback` |
| Establishments.GetEstablishments | get_establishments.py:86-141 | the whole request computes `Search`: the primary search, the fallbacks when it is empty, and then the rendered first match |
| Establishments.SearchOfEmptyStore | get_establishments.py:87-99 | over an empty store, every stage is empty and the reply is exactly `No matches found.` |
| Establishments.FallbacksOnlyForEmptyStore | get_establishments.py:87-88 | the primary search is empty only when the store is empty, so the fallback stages never run for a non-empty store |
| Establishments.SearchOfStoredRecords | get_establishments.py:87-103 | over a non-empty store, the reply is the primary search's error, or the rendering of a stored record whose name score is maximal |
| Establishments.SearchIgnoresCaseAndPadding | get_establishments.py:28-99 | queries that agree after lower-casing and trimming get the same reply |
| Establishments.FallbackRendersStoredRecord | get_establishments.py:90-99 | the fallback reply is an error, or `No matches found.`, or the rendering of a named stored record |
| Establishments.SearchRendersStoredRecord | get_establishments.py:87-104 | every reply is an error, or `No matches found.`, or the rendering of a named stored record |
| Formatter.Shown | get_establishments.py:106-107 | an absent rating or website key shows `-`; a present one shows `str` of its stored value (even None, and a stored `"-"` shows `-` too) |
| Formatter.PickToday | get_establishments.py:117-118 | the day's hours are picked when the weekday occurs in the day string |
| Formatter.FormatHours | get_establishments.py:113-120 | the hours loop computes `HoursLines`: one `Day: hours` line per entry, or the first entry's error |
| Formatter.HoursLinesOk | get_establishments.py:115-119 | the hours lines exist exactly when every entry is a string with exactly one `': '`; there is then one line per entry, in stored order, with the day capitalised |
| Formatter.HoursLinesFirstError | get_establishments.py:115-116 | otherwise the error is that of the first entry that does not split (AttributeError for a non-string, ValueError for a wrong piece count) |
| Formatter.FormatEstablishment | get_establishments.py:102-132 | the formatter computes `Rendered(d)`, which takes no weekday argument, so the output does not depend on the weekday |
| Formatter.RenderedDependsOnShownFields | get_establishments.py:104-127 | the rendering depends only on name, cuisines, rating, website and hours |
| Formatter.CapitalizeKeepsWord | get_establishments.py:123 | capitalising a word keeps it a single word |
| Formatter.NameLineWords | get_establishments.py:123 | the name line's words are the name's words, each capitalised, separated by single spaces |
| Formatter.BlockLines | get_establishments.py:123-131 | for single-line fields, splitting the block on newlines gives the name line, the capitalised cuisine line, the rating line, the website line, the hours label with the first hours line, then the other hours lines in order |
| Formatter.NameLineNoNewline | get_establishments.py:123 | the name line is a single line |
| Formatter.CapitalizeNoNewline | get_establishments.py:124 | capitalising adds no newline |
| Formatter.JoinNoNewline | get_establishments.py:123 | joining single-line words with spaces gives a single line |
| OutputParser.ScanSeparator | add_establishment.py:101 | a `\s*\d*\s*` run ends at a character that is neither whitespace nor a digit, or at the end of the text |
| OutputParser.ScanSeparatorMeaning | add_establishment.py:101 | the scan stops at e exactly when `s[lo..e]` splits as spaces, digits, spaces and the character at e cannot extend the run; it fails exactly when no such e exists |
| OutputParser.ScanSound | add_establishment.py:101 | the text the scan skips splits as `\s*`, `\d*`, `\s*` (the split is returned) |
| OutputParser.ScanComplete | add_establishment.py:101 | any `\s*\d*\s*` split followed by a character that cannot extend it is where the scan stops |
| OutputParser.ActionHeader | add_establishment.py:101 | an `Action\s*\d*\s*:` header found at i ends in a colon at least six characters on |
| OutputParser.ActionHeaderMeaning | add_establishment.py:101 | `Action\s*\d*\s*:` matches at i with its colon at c exactly when `Action` is at i and a `\s*\d*\s*` run leads from i+6 to a colon at c |
| OutputParser.InputHeader | add_establishment.py:101 | an `Action\s*\d*\s*Input\s*\d*\s*:` header ends in a colon at least eleven characters on |
| OutputParser.InputHeaderMeaning | add_establishment.py:101 | `Action\s*\d*\s*Input\s*\d*\s*:` matches at i with its colon at c exactly when `Action`, a run, `Input` at some k, and a run lead from i to a colon at c |
| OutputParser.InputHeaderSound | add_establishment.py:101 | a found input header has that shape, with the position of `Input` returned |
| OutputParser.InputHeaderComplete | add_establishment.py:101 | any text of that shape is found as an input header with that colon |
| OutputParser.LazyEndFirst | add_establishment.py:101 | the lazy group `(.*?)` ends at the first newline followed by an input header, and there is no match exactly when no such newline exists |
| OutputParser.FirstMatchAt | add_establishment.py:102 | the match `re.search` finds is a match at its own start index |
| OutputParser.FirstMatchLeftmost | add_establishment.py:102 | no match starts before the one found |
| OutputParser.FirstMatchNone | add_establishment.py:102-104 | `re.search` finds nothing exactly when no index starts a match |
| OutputParser.FirstMatchLazy | add_establishment.py:101 | in the match found, the action header ends at the group's colon, and the tool group ends at the first newline that is followed by an input header |
| OutputParser.FinishStep | add_establishment.py:94-99 | the finish value is whitespace-trimmed and its log is the raw text |
| OutputParser.ActionStep | add_establishment.py:105-110 | the tool is whitespace-trimmed, the input neither starts nor ends with `"`, and the log is the raw text |
| OutputParser.Parse | add_establishment.py:91-110 | any text containing `Final Answer` is a Finish, even when Action lines are present; otherwise the parse fails (ValueError) exactly when the regex does not match; the log is always the raw text |
| OutputParser.AfterLastFinalAnswer | add_establishment.py:97 | the piece after the last `Final Answer:` is the answer when the answer itself does not contain the marker |
| OutputParser.ParseFinish | add_establishment.py:93-99 | a text ending in `Final Answer:` and an answer parses to Finish with the stripped answer and the full text as log |
| OutputParser.ActionTextMatch | add_establishment.py:101-102 | `Action: t\nAction Input: x` matches at 0, with the tool group ending at the first newline |
| OutputParser.ActionTextTool | add_establishment.py:105 | the stripped tool group of that text is the trimmed tool |
| OutputParser.ActionTextInput | add_establishment.py:106-109 | the input group, after `[\s]*`, `strip(" ")` and `strip('"')`, is the trimmed input |
| OutputParser.ParseAction | add_establishment.py:101-110 | `Action: t\nAction Input: x` parses back to Action(t, x) with the full text as log (round trip) |
| Prompt.ScratchpadAppend | add_establishment.py:69-71 | the scratchpad of consecutive runs of steps is the concatenation of their scratchpads |
| Prompt.ScratchpadOfSteps | add_establishment.py:69-71 | the scratchpad is every step's `log + "\nObservation: " + obs + "\nThought: "` in order; step k sits between the scratchpads of the steps before and after it |
| Prompt.ToolsTextLines | add_establishment.py:75 | for single-line names and descriptions, the tools text has exactly one `name: description` line per tool, in order |
| Prompt.NextBrace | add_establishment.py:78 | finds the first `{` or `}` at or after the index, or the end of the template |
| Prompt.FormatPlain | add_establishment.py:78 | a template without braces formats to itself, whatever the arguments |
| Prompt.FormatUnparse | add_establishment.py:78 | a template built from literal characters (braces doubled) and named fields, with every field given, formats to the literal text with each field replaced by its value |
| Prompt.PromptArgsOverride | add_establishment.py:73-77 | `agent_scratchpad`, `tools` and `tool_names` are set from the steps and tools, overriding the caller's values; every other argument passes through unchanged |
| Prompt.FormatMessages | add_establishment.py:64-79 | the `thoughts +=` loop and the `kwargs` updates compute `PromptText`: KeyError without `intermediate_steps`, otherwise the template formatted with the generated variables |
| Locations.Decoded | add_establishment.py:148 | `response.json()` fails, with ValueError, exactly when the body is not JSON |
| Locations.LocationId | add_establishment.py:148-158 | None for a status other than 200 or no `data` key; `''` when `data` is an empty list |
| Locations.LocationIdOfFirst | add_establishment.py:152-158 | with a non-empty `data` list whose first item is an object, the result is its `location_id`, or `''` when that key is absent |
| Locations.LocationIdSource | add_establishment.py:148-158 | any id other than None and `''` is the `location_id` of the first item of the `data` list of a 200 response |
| Locations.Nested | add_establishment.py:180 | `d.get(outer, {}).get(inner)` is None when the outer key is absent, and raises AttributeError exactly when the present outer value is not a dict |
| Locations.Names | add_establishment.py:186 | the cuisine names are each item's `name` (None when absent), in provider order; AttributeError when an item is not a dict |
| Locations.DetailsOf | add_establishment.py:178-188 | the details record has exactly the eleven keys, in order |
| Locations.DetailsRecordField | add_establishment.py:178-188 | each of the eleven keys looks up its own entry |
| Locations.LocationDetails | add_establishment.py:175-190 | the details of a response have exactly the eleven keys; the errors are ValueError, AttributeError or TypeError |
| Locations.DetailsRecordPlain | add_establishment.py:178-185 | the plain keys copy the provider value, or None |
| Locations.DetailsPlainFields | add_establishment.py:178-185 | name, description, website, rating, phone, longitude and latitude are the provider's values, and None when absent |
| Locations.DetailsCuisines | add_establishment.py:186 | cuisines are the provider cuisine names in order, and `[]` when the provider gives none |
| Locations.DetailsNestedFields | add_establishment.py:180-188 | address_string, category and hours come from the nested objects, and hours is None when absent |
| Store.LowerValuesMeaning | add_establishment.py:194-195 | normalisation keeps the keys in order, leaves non-string values unchanged, and leaves no upper-case letter in a string value of the same length |
| Store.GetLowerValues | add_establishment.py:194-195 | every key looks up the lower-cased stored value |
| Store.LowerValuesIdempotent | add_establishment.py:194-195 | normalisation is idempotent |
| Store.StoredDetailsKeys | add_establishment.py:194-195 | a normalised details record still has exactly the eleven keys |
| Store.Written | add_establishment.py:198-206 | the write succeeds exactly when the file exists and either does not decode or holds a list; a missing file raises FileNotFoundError and a non-list raises AttributeError |
| Store.WrittenAppends | add_establishment.py:198-206 | the stored list after a write is the old list (`[]` for undecodable contents) with the normalised record appended at the end, one more element as a multiset |
| Store.WrittenTwice | add_establishment.py:198-206 | two writes append their normalised records in order |
| Store.JsonStore.WriteEstablishment | add_establishment.py:192-210 | the store's file after the call holds the appended list when the write succeeds, and is unchanged on error |

## Left out

- The Telegram bot, the HTTP API routing and the database writer are not part of this model:
  they are I/O and user interface only. The database writer's lower-casing is the same
  comprehension as `Store.LowerValues`.
- The language-model agent machinery (chat model, chain, agent executor, web-search tool) and
  `add_location`'s orchestration: these are foreign, non-deterministic services.
- `requests.get` and the URL construction in `get_location_id` and `get_location_details`: the
  response is a parameter (`Locations.Response`: a status and an optional decoded body).
- Reading `stores.json` in the search and writing it in the store: the contents are parameters.
  `Store.JsonStore` holds the file's decoded contents in a field and takes it that `json.dump`
  followed by `json.load` gives the same value back.
- The internals of `fuzz.token_set_ratio` and `SpellChecker`. The score is any integer (its
  0..100 range is never needed), `unknown` is any function from words to words, and
  `correction` returns a string. Newer spell-checker versions can return None, which would make
  `corrections.split()` raise AttributeError.
- `datetime`/`pytz`: the weekday is a parameter, and it has no effect on the output.
- Alternatives.Dedup: Python iterates a set in an unspecified order, and the model keeps each
  record where it first occurs. Every property stated about the result holds whatever the order
  (distinct records, same set), and the final ranking re-sorts them. Records are also compared
  structurally, with numbers as their literal text: Python's tuple equality merges `1`, `1.0`
  and `true`, so records differing only in such number spellings stay apart in the model but
  are merged by Python. The program only de-duplicates results from an empty store, where this
  cannot arise.
- Alternatives.SpellAlternatives: the three nested loops are three methods, one per loop level,
  each proved against its own function.
- Json.Repr: the escaping of quotes and backslashes inside strings is not modelled. Numbers are
  kept as their literal JSON text, so float formatting is not modelled either.
- Text.Lower: lower-casing, `capitalize()` and the whitespace tests are ASCII only. Unicode case
  mapping is not modelled. Text.IsDigit is ASCII only as well, while the regex class `\d` on a
  Python string matches every Unicode decimal digit.
- Json.Record: a record is an ordered list of bindings and may repeat a key, which no decoded
  dict does; `Json.Get` takes the first binding, whereas `json.load` keeps the last. Decoded
  records are taken to have distinct keys.
- Prompt.FormatFrom: conversions (`!r`), format specs (`:>10`), and attribute or index field
  names are treated as part of a plain key.
- Prompt.FormatMessages: `intermediate_steps` is a sequence of steps or absent. A value of
  another type, which would fail in the unpacking loop, is not modelled.
- Prompt.FormatMessages: the list holding one human message is returned as the message's
  content string.
- Prompt.ToolsTextLines: its precondition needs single-line tool descriptions. The search
  tool's description in the source contains a newline, so for that tool the lemma does not
  apply, though the tools text is still what `Prompt.ToolsText` defines.
- Formatter.HoursEntry: `split(': ')` is modelled for string entries only. Any non-string entry
  raises AttributeError.
