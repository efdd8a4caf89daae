/** `generate_alternatives` of get_establishments.py: word-deletion variants, spell-corrected
    variants, one search per variant, flatten and de-duplicate. */
module Alternatives {
  import opened Wrappers
  import opened Text
  import opened Json
  import opened Matching
  import opened Ranking

  /** The external spell checker: `unknown(words)` as the order in which its result set is visited,
      and `correction(word)`. Both are left uninterpreted. */
  datatype SpellChecker = SpellChecker(unknown: seq<string> -> seq<string>, correction: string -> string)

  /** `' '.join(words[:i] + words[j:])`: the query with the words `i` to `j - 1` removed. */
  function DeletionOf(words: seq<string>, i: nat, j: nat): string
    requires i < j <= |words|
  {
    Join(words[..i] + words[j..], " ")
  }

  /** The variants the inner loop adds for one `i`: `j` runs from `i + 1` to `len(words)`. */
  function Row(words: seq<string>, i: nat): seq<string>
    requires i < |words|
  {
    seq(|words| - i, d requires 0 <= d < |words| - i => DeletionOf(words, i, i + 1 + d))
  }

  /** The variants the outer loop has added after its first `n` rounds. */
  function Deletions(words: seq<string>, n: nat): seq<string>
    requires n <= |words|
  {
    if n == 0 then [] else Deletions(words, n - 1) + Row(words, n - 1)
  }

  /** One more round of the inner loop extends the row by the next variant. */
  lemma {:induction false} RowPrefix(words: seq<string>, i: nat, c: nat)
    requires i < |words| && c < |words| - i
    ensures Row(words, i)[..c + 1] == Row(words, i)[..c] + [DeletionOf(words, i, i + 1 + c)]
  {
  }

  /** The nested `for i` / `for j` loops that build `alternatives`. */
  method DeletionAlternatives(query: string) returns (alternatives: seq<string>)
    ensures alternatives == Deletions(Split(query), |Split(query)|)
  {
    var words := Split(query);
    alternatives := [];
    for i := 0 to |words|
      invariant alternatives == Deletions(words, i)
    {
      for j := i + 1 to |words| + 1
        invariant alternatives == Deletions(words, i) + Row(words, i)[..j - i - 1]
      {
        RowPrefix(words, i, j - i - 1);
        alternatives := alternatives + [Join(words[..i] + words[j..], " ")];
      }
      assert Row(words, i)[..|words| - i] == Row(words, i);
    }
  }

  lemma {:induction false} DeletionsLength(words: seq<string>, n: nat)
    requires n <= |words|
    ensures 2 * |Deletions(words, n)| == n * (2 * |words| - n + 1)
  {
    if n > 0 {
      DeletionsLength(words, n - 1);
      DeletionsStep(words, n);
      RowSum(n, |words|, |Deletions(words, n - 1)|);
    }
  }

  lemma {:induction false} DeletionsStep(words: seq<string>, n: nat)
    requires 0 < n <= |words|
    ensures |Deletions(words, n)| == |Deletions(words, n - 1)| + (|words| - n + 1)
  {
  }

  /** Adding row n - 1, of k - n + 1 variants, to the first n - 1 rows. */
  lemma {:induction false} RowSum(n: nat, k: nat, x: nat)
    requires 0 < n <= k && 2 * x == (n - 1) * (2 * k - n + 2)
    ensures 2 * (x + (k - n + 1)) == n * (2 * k - n + 1)
  {
    assert (n - 1) * (2 * k - n + 2) == n * (2 * k - n + 2) - (2 * k - n + 2);
    assert n * (2 * k - n + 2) == n * (2 * k - n + 1) + n;
  }

  /** k(k+1)/2, the number of pairs i < j with 0 <= i < k and j <= k. */
  function Pairs(k: nat): nat {
    k * (k + 1) / 2
  }

  /** A query of `k` words has exactly k(k+1)/2 deletion variants, duplicates included. */
  lemma {:induction false} DeletionCount(query: string)
    ensures |Deletions(Split(query), |Split(query)|)| == Pairs(|Split(query)|)
  {
    var words := Split(query);
    DeletionsLength(words, |words|);
    PairsOfDouble(|words|, |Deletions(words, |words|)|);
  }

  lemma {:induction false} PairsOfDouble(k: nat, x: nat)
    requires 2 * x == k * (2 * k - k + 1)
    ensures x == Pairs(k)
  {
    assert 2 * k - k + 1 == k + 1;
  }

  /** Later rows of the outer loop only append: the variants of the first `m` rows are a
      prefix of those of the first `n`. */
  lemma {:induction false} DeletionsGrow(words: seq<string>, m: nat, n: nat)
    requires m <= n <= |words|
    ensures |Deletions(words, m)| <= |Deletions(words, n)|
    ensures Deletions(words, n)[..|Deletions(words, m)|] == Deletions(words, m)
    decreases n
  {
    if m < n {
      DeletionsGrow(words, m, n - 1);
      var prev := Deletions(words, n - 1);
      assert Deletions(words, n) == prev + Row(words, n - 1);
      assert Deletions(words, n)[..|Deletions(words, m)|] == prev[..|Deletions(words, m)|];
    }
  }

  /** The variant that removes words `i` to `j - 1` sits at position |Deletions(words, i)| + (j - i - 1):
      `i` is the outer loop, `j` the inner one. */
  lemma {:induction false} DeletionsAt(words: seq<string>, n: nat, i: nat, j: nat)
    requires i < n <= |words| && i < j <= |words|
    ensures |Deletions(words, i)| + (j - i - 1) < |Deletions(words, n)|
    ensures Deletions(words, n)[|Deletions(words, i)| + (j - i - 1)] == DeletionOf(words, i, j)
  {
    var idx := |Deletions(words, i)| + (j - i - 1);
    assert Deletions(words, n) == Deletions(words, n - 1) + Row(words, n - 1);
    if i < n - 1 {
      DeletionsAt(words, n - 1, i, j);
      assert Deletions(words, n)[idx] == Deletions(words, n - 1)[idx];
    } else {
      assert Deletions(words, n)[idx] == Row(words, i)[j - i - 1];
    }
  }

  /** Every deletion variant removes a non-empty contiguous run of words, and every such run
      gives a variant. */
  lemma {:induction false} DeletionsCover(words: seq<string>, n: nat, a: string)
    requires n <= |words|
    ensures a in Deletions(words, n) <==> exists i, j :: 0 <= i < n && i < j <= |words| && a == DeletionOf(words, i, j)
  {
    if n > 0 {
      DeletionsCover(words, n - 1, a);
      if a in Row(words, n - 1) {
        var d :| 0 <= d < |words| - (n - 1) && Row(words, n - 1)[d] == a;
        assert a == DeletionOf(words, n - 1, n + d);
      }
      if exists i, j :: 0 <= i < n && i < j <= |words| && a == DeletionOf(words, i, j) {
        var i, j :| 0 <= i < n && i < j <= |words| && a == DeletionOf(words, i, j);
        DeletionsAt(words, n, i, j);
      }
    }
  }

  /** The last variant of the first round removes every word: the empty query is among the variants. */
  lemma {:induction false} EmptyVariant(words: seq<string>)
    requires words != []
    ensures |words| - 1 < |Deletions(words, |words|)|
    ensures Deletions(words, |words|)[|words| - 1] == ""
  {
    DeletionsAt(words, |words|, 0, |words|);
    assert words[..0] + words[|words|..] == [];
  }

  /** A variant splits back into the words that remain. */
  lemma {:induction false} DeletionWords(words: seq<string>, i: nat, j: nat)
    requires forall k :: 0 <= k < |words| ==> IsWord(words[k])
    requires i < j <= |words|
    ensures Split(DeletionOf(words, i, j)) == words[..i] + words[j..]
  {
    var rest := words[..i] + words[j..];
    forall k | 0 <= k < |rest| ensures IsWord(rest[k]) {
      if k < i { assert rest[k] == words[k]; } else { assert rest[k] == words[k + j - i]; }
    }
    SplitJoin(rest);
  }

  /** So a variant has k - (j - i) words, fewer than the query, and is never the query itself. */
  lemma {:induction false} DeletionIsNotQuery(query: string, i: nat, j: nat)
    requires i < j <= |Split(query)|
    ensures |Split(DeletionOf(Split(query), i, j))| == |Split(query)| - (j - i)
    ensures DeletionOf(Split(query), i, j) != query
  {
    var words := Split(query);
    var alt := DeletionOf(words, i, j);
    DeletionWords(words, i, j);
    assert |Split(alt)| < |words|;
  }

  /** The variants the innermost loop adds for one misspelled `word` of `alt`, one per word of its
      correction, skipping those already among the deletion variants `alts`. */
  function CorrectionsOf(alt: string, word: string, cs: seq<string>, alts: seq<string>): seq<string> {
    if cs == [] then []
    else
      var fixed := Replace(alt, word, cs[|cs| - 1]);
      CorrectionsOf(alt, word, cs[..|cs| - 1], alts) + (if fixed in alts then [] else [fixed])
  }

  /** The variants the middle loop adds for the misspelled words `ws` of `alt`. */
  function WordsOf(alt: string, ws: seq<string>, alts: seq<string>, sc: SpellChecker): seq<string> {
    if ws == [] then []
    else
      var w := ws[|ws| - 1];
      WordsOf(alt, ws[..|ws| - 1], alts, sc) + CorrectionsOf(alt, w, Split(sc.correction(w)), alts)
  }

  /** `spell_alternatives` after the outer loop has visited `todo`. */
  function SpellVariants(todo: seq<string>, alts: seq<string>, sc: SpellChecker): seq<string> {
    if todo == [] then []
    else
      var a := todo[|todo| - 1];
      SpellVariants(todo[..|todo| - 1], alts, sc) + WordsOf(a, sc.unknown(Split(a)), alts, sc)
  }

  /** The outer loop of the three that build `spell_alternatives`; the two inner ones are
      `CorrectAlternative` and `CorrectWord`. */
  method SpellAlternatives(alternatives: seq<string>, sc: SpellChecker) returns (spell: seq<string>)
    ensures spell == SpellVariants(alternatives, alternatives, sc)
  {
    spell := [];
    for a := 0 to |alternatives|
      invariant spell == SpellVariants(alternatives[..a], alternatives, sc)
    {
      var added := CorrectAlternative(alternatives[a], alternatives, sc);
      spell := spell + added;
      SpellStep(alternatives, a, sc);
    }
    assert alternatives[..|alternatives|] == alternatives;
  }

  /** The middle loop, over the words the checker does not know. */
  method CorrectAlternative(alternative: string, alternatives: seq<string>, sc: SpellChecker) returns (added: seq<string>)
    ensures added == WordsOf(alternative, sc.unknown(Split(alternative)), alternatives, sc)
  {
    var misspelled := sc.unknown(Split(alternative));
    added := [];
    for w := 0 to |misspelled|
      invariant added == WordsOf(alternative, misspelled[..w], alternatives, sc)
    {
      var more := CorrectWord(alternative, misspelled[w], alternatives, sc);
      added := added + more;
      WordsStep(alternative, misspelled, w, alternatives, sc);
    }
    assert misspelled[..|misspelled|] == misspelled;
  }

  /** The innermost loop: one variant per word of the correction of `word`, unless it is
      already a deletion variant. */
  method CorrectWord(alternative: string, word: string, alternatives: seq<string>, sc: SpellChecker) returns (added: seq<string>)
    ensures added == CorrectionsOf(alternative, word, Split(sc.correction(word)), alternatives)
  {
    var corrections := Split(sc.correction(word));
    added := [];
    for c := 0 to |corrections|
      invariant added == CorrectionsOf(alternative, word, corrections[..c], alternatives)
    {
      var corrected := Replace(alternative, word, corrections[c]);
      if corrected !in alternatives {
        added := added + [corrected];
      }
      CorrectionsStep(alternative, word, corrections, c, alternatives);
    }
    assert corrections[..|corrections|] == corrections;
  }

  lemma {:induction false} CorrectionsStep(alt: string, word: string, cs: seq<string>, c: nat, alts: seq<string>)
    requires c < |cs|
    ensures CorrectionsOf(alt, word, cs[..c + 1], alts) == CorrectionsOf(alt, word, cs[..c], alts) +
      (if Replace(alt, word, cs[c]) in alts then [] else [Replace(alt, word, cs[c])])
  {
    assert cs[..c + 1][..c] == cs[..c];
  }

  lemma {:induction false} WordsStep(alt: string, ws: seq<string>, w: nat, alts: seq<string>, sc: SpellChecker)
    requires w < |ws|
    ensures WordsOf(alt, ws[..w + 1], alts, sc) == WordsOf(alt, ws[..w], alts, sc) + CorrectionsOf(alt, ws[w], Split(sc.correction(ws[w])), alts)
  {
    assert ws[..w + 1][..w] == ws[..w];
  }

  lemma {:induction false} SpellStep(todo: seq<string>, a: nat, sc: SpellChecker)
    requires a < |todo|
    ensures SpellVariants(todo[..a + 1], todo, sc) == SpellVariants(todo[..a], todo, sc) + WordsOf(todo[a], sc.unknown(Split(todo[a])), todo, sc)
  {
    assert todo[..a + 1][..a] == todo[..a];
  }

  /** What a corrected variant is. */
  ghost predicate CorrectedFrom(x: string, todo: seq<string>, sc: SpellChecker) {
    exists a, w, c :: a in todo && w in sc.unknown(Split(a)) && c in Split(sc.correction(w)) && x == Replace(a, w, c)
  }

  lemma {:induction false} CorrectionsOfMeaning(alt: string, word: string, cs: seq<string>, alts: seq<string>, x: string)
    requires x in CorrectionsOf(alt, word, cs, alts)
    ensures x !in alts && exists c :: c in cs && x == Replace(alt, word, c)
  {
    if cs != [] {
      var front := cs[..|cs| - 1];
      if x in CorrectionsOf(alt, word, front, alts) {
        CorrectionsOfMeaning(alt, word, front, alts, x);
        var c :| c in front && x == Replace(alt, word, c);
        assert c in cs;
      } else {
        assert x == Replace(alt, word, cs[|cs| - 1]);
      }
    }
  }

  lemma {:induction false} WordsOfMeaning(alt: string, ws: seq<string>, alts: seq<string>, sc: SpellChecker, x: string)
    requires x in WordsOf(alt, ws, alts, sc)
    ensures x !in alts && exists w, c :: w in ws && c in Split(sc.correction(w)) && x == Replace(alt, w, c)
  {
    if ws != [] {
      var front := ws[..|ws| - 1];
      var w := ws[|ws| - 1];
      if x in WordsOf(alt, front, alts, sc) {
        WordsOfMeaning(alt, front, alts, sc, x);
        var w', c :| w' in front && c in Split(sc.correction(w')) && x == Replace(alt, w', c);
        assert w' in ws;
      } else {
        CorrectionsOfMeaning(alt, w, Split(sc.correction(w)), alts, x);
      }
    }
  }

  /** A spell variant is never one of the deletion variants, and it is a deletion variant with one
      misspelled word replaced by a word of its correction. */
  lemma {:induction false} SpellVariantsMeaning(todo: seq<string>, alts: seq<string>, sc: SpellChecker, x: string)
    requires x in SpellVariants(todo, alts, sc)
    ensures x !in alts
    ensures CorrectedFrom(x, todo, sc)
  {
    assert todo != [];
    var front := todo[..|todo| - 1];
    var a := todo[|todo| - 1];
    assert SpellVariants(todo, alts, sc) == SpellVariants(front, alts, sc) + WordsOf(a, sc.unknown(Split(a)), alts, sc);
    if x in SpellVariants(front, alts, sc) {
      SpellVariantsMeaning(front, alts, sc, x);
      CorrectedFromPrefix(x, todo, sc);
    } else {
      WordsOfMeaning(a, sc.unknown(Split(a)), alts, sc, x);
      CorrectedFromLast(x, todo, sc);
    }
  }

  lemma {:induction false} CorrectedFromPrefix(x: string, todo: seq<string>, sc: SpellChecker)
    requires todo != [] && CorrectedFrom(x, todo[..|todo| - 1], sc)
    ensures CorrectedFrom(x, todo, sc)
  {
    var a, w, c :| a in todo[..|todo| - 1] && w in sc.unknown(Split(a)) && c in Split(sc.correction(w)) && x == Replace(a, w, c);
    assert a in todo;
  }

  lemma {:induction false} CorrectedFromLast(x: string, todo: seq<string>, sc: SpellChecker)
    requires todo != []
    requires exists w, c :: (w in sc.unknown(Split(todo[|todo| - 1])) && c in Split(sc.correction(w)) &&
      x == Replace(todo[|todo| - 1], w, c))
    ensures CorrectedFrom(x, todo, sc)
  {
    var a := todo[|todo| - 1];
    var w, c :| w in sc.unknown(Split(a)) && c in Split(sc.correction(w)) && x == Replace(a, w, c);
    assert a in todo;
  }

  /** A word the checker corrects to itself adds no variant: the replacement gives back the
      alternative, which is already present. */
  lemma {:induction false} SelfCorrectionAddsNothing(alt: string, word: string, alts: seq<string>)
    requires alt in alts && IsWord(word)
    ensures CorrectionsOf(alt, word, Split(word), alts) == []
  {
    SplitJoin([word]);
    assert Split(word) == [word];
    ReplaceSelf(alt, word);
    assert [word][..0] == [];
  }

  /** The search the loop runs on each query. */
  type Search = string -> Result<seq<Record>, Error>

  /** `fuzzy_search(q, data)` for every query `q`. */
  function FuzzySearcher(data: seq<Record>, score: Scorer): Search {
    q => FuzzySearch(q, data, score)
  }

  /** A search outcome the loop's `except (TypeError, ValueError)` lets it go past. */
  predicate Skippable(m: Result<seq<Record>, Error>) {
    m.Ok? || m.error == TypeError || m.error == ValueError
  }

  /** `establishment_lists` after the loop with its `try`/`except (TypeError, ValueError)`:
      a query whose search raises one of those is skipped, any other error propagates. */
  function Collect(queries: seq<string>, search: Search, acc: seq<seq<Record>>): Result<seq<seq<Record>>, Error>
    decreases |queries|
  {
    if queries == [] then Ok(acc)
    else
      match search(queries[0])
      case Ok(m) => Collect(queries[1..], search, acc + [m])
      case Err(e) =>
        if e == TypeError || e == ValueError then Collect(queries[1..], search, acc)
        else Err(e)
  }

  method CollectMatches(queries: seq<string>, data: seq<Record>, score: Scorer) returns (r: Result<seq<seq<Record>>, Error>)
    ensures r == Collect(queries, FuzzySearcher(data, score), [])
  {
    var lists: seq<seq<Record>> := [];
    for k := 0 to |queries|
      invariant Collect(queries[k..], FuzzySearcher(data, score), lists) == Collect(queries, FuzzySearcher(data, score), [])
    {
      assert queries[k..][1..] == queries[k + 1..];
      var found := FuzzySearch(queries[k], data, score);
      assert found == FuzzySearcher(data, score)(queries[k..][0]);
      if found.Ok? {
        lists := lists + [found.value];
      } else if found.error != TypeError && found.error != ValueError {
        return Err(found.error);
      }
    }
    return Ok(lists);
  }

  /** Collection fails exactly when some query's search raises an error other than TypeError
      and ValueError (for `fuzzy_search`, a KeyError). */
  lemma {:induction false} CollectOk(queries: seq<string>, search: Search, acc: seq<seq<Record>>)
    ensures Collect(queries, search, acc).Ok? <==> forall k :: 0 <= k < |queries| ==> Skippable(search(queries[k]))
    decreases |queries|
  {
    if queries != [] {
      CollectStep(queries, search, acc);
      if Skippable(search(queries[0])) {
        CollectOk(queries[1..], search, Kept(acc, search(queries[0])));
        assert forall k :: 1 <= k < |queries| ==> queries[k] == queries[1..][k - 1];
      }
    }
  }

  /** `acc` after one query: its result appended when the search succeeds. */
  function Kept(acc: seq<seq<Record>>, m: Result<seq<Record>, Error>): seq<seq<Record>> {
    if m.Ok? then acc + [m.value] else acc
  }

  /** One round of the loop: an error it does not catch propagates, anything else goes on with
      the next query. */
  lemma {:induction false} CollectStep(queries: seq<string>, search: Search, acc: seq<seq<Record>>)
    requires queries != []
    ensures !Skippable(search(queries[0])) ==> Collect(queries, search, acc) == Err(search(queries[0]).error)
    ensures Skippable(search(queries[0])) ==>
      Collect(queries, search, acc) == Collect(queries[1..], search, Kept(acc, search(queries[0])))
  {
  }

  /** Every collected list is already in `acc` or is the search result of one of the queries. */
  lemma {:induction false} CollectFrom(queries: seq<string>, search: Search, acc: seq<seq<Record>>, l: seq<Record>)
    requires Collect(queries, search, acc).Ok?
    requires l in Collect(queries, search, acc).value
    ensures l in acc || exists q :: q in queries && search(q) == Ok(l)
    decreases |queries|
  {
    if queries != [] {
      var m := search(queries[0]);
      CollectStep(queries, search, acc);
      var next := Kept(acc, m);
      CollectFrom(queries[1..], search, next, l);
      if l !in next {
        var q :| q in queries[1..] && search(q) == Ok(l);
        assert q in queries;
      } else if l !in acc {
        assert l == m.value;
        assert queries[0] in queries;
      }
    }
  }

  /** Empty lists, `n` of them. */
  function Empties(n: nat): seq<seq<Record>> {
    seq(n, _ => [])
  }

  /** Over an empty store, every query yields an empty list. */
  lemma {:induction false} FuzzySearchEmpty(q: string, score: Scorer)
    ensures FuzzySearch(q, [], score) == Ok([])
  {
  }

  /** A search that finds nothing for every query collects one empty list per query. */
  lemma {:induction false} CollectNothing(queries: seq<string>, search: Search, n: nat)
    requires forall q :: search(q) == Ok([])
    ensures Collect(queries, search, Empties(n)) == Ok(Empties(n + |queries|))
    decreases |queries|
  {
    if queries != [] {
      CollectStep(queries, search, Empties(n));
      assert Empties(n) + [[]] == Empties(n + 1);
      CollectNothing(queries[1..], search, n + 1);
    }
  }

  /** The flattening comprehension. */
  function Flatten(ls: seq<seq<Record>>): (r: seq<Record>)
    ensures forall d :: d in r <==> exists i :: 0 <= i < |ls| && d in ls[i]
  {
    if ls == [] then []
    else
      assert forall i :: 1 <= i < |ls| ==> ls[i] == ls[1..][i - 1];
      ls[0] + Flatten(ls[1..])
  }

  lemma {:induction false} FlattenEmpties(n: nat)
    ensures Flatten(Empties(n)) == []
  {
    if n > 0 {
      assert Empties(n)[1..] == Empties(n - 1);
      FlattenEmpties(n - 1);
    }
  }

  /** A dict value can be a member of a tuple that is hashed: lists and dicts cannot. */
  predicate Hashable(v: Value) {
    !v.List? && !v.Obj?
  }

  predicate HashableRecord(d: Record) {
    forall i :: 0 <= i < |d| ==> Hashable(d[i].1)
  }

  predicate NoDuplicates(s: seq<Record>) {
    forall i, j :: 0 <= i < j < |s| ==> s[i] != s[j]
  }

  /** The distinct records of `s`, each where it first occurs. */
  function Distinct(s: seq<Record>): (r: seq<Record>)
    ensures forall d :: d in r <==> d in s
    ensures NoDuplicates(r)
    ensures |r| <= |s|
  {
    if s == [] then []
    else
      var front := Distinct(s[..|s| - 1]);
      assert forall d :: d in s <==> d in s[..|s| - 1] || d == s[|s| - 1];
      if s[|s| - 1] in front then front else front + [s[|s| - 1]]
  }

  /** `[dict(t) for t in set(tuple(e.items()) for e in flattened_list)]`: hashing fails with
      TypeError if a record holds a list or dict value; otherwise the result holds each distinct
      record once (records are equal when their items are equal in order). */
  function Dedup(flat: seq<Record>): (r: Result<seq<Record>, Error>)
    ensures r.Ok? <==> forall i :: 0 <= i < |flat| ==> HashableRecord(flat[i])
    ensures r.Ok? ==> NoDuplicates(r.value) && forall d :: d in r.value <==> d in flat
    ensures r.Err? ==> r.error == TypeError
  {
    if exists i :: 0 <= i < |flat| && !HashableRecord(flat[i]) then Err(TypeError)
    else Ok(Distinct(flat))
  }

  /** The queries `generate_alternatives` searches with: `alternatives + spell_alternatives`. */
  function AlternativeQueries(query: string, sc: SpellChecker): seq<string> {
    var alts := Deletions(Split(query), |Split(query)|);
    alts + SpellVariants(alts, alts, sc)
  }

  /** Search with every query, flatten, de-duplicate. */
  function MatchesOf(queries: seq<string>, data: seq<Record>, score: Scorer): Result<seq<Record>, Error> {
    match Collect(queries, FuzzySearcher(data, score), [])
    case Err(e) => Err(e)
    case Ok(lists) => Dedup(Flatten(lists))
  }

  /** `generate_alternatives(query_text)` as a value. */
  function AlternativeMatches(query: string, data: seq<Record>, score: Scorer, sc: SpellChecker): Result<seq<Record>, Error> {
    MatchesOf(AlternativeQueries(query, sc), data, score)
  }

  method GenerateAlternatives(query: string, data: seq<Record>, score: Scorer, sc: SpellChecker) returns (r: Result<seq<Record>, Error>)
    ensures r == AlternativeMatches(query, data, score, sc)
  {
    var alternatives := DeletionAlternatives(query);
    var spellAlternatives := SpellAlternatives(alternatives, sc);
    var lists := CollectMatches(alternatives + spellAlternatives, data, score);
    if lists.Err? {
      return Err(lists.error);
    }
    var flattened := Flatten(lists.value);
    r := Dedup(flattened);
  }

  /** Every record the searches find is a stored record, and it is kept once. */
  lemma {:induction false} MatchesOfFromStore(queries: seq<string>, data: seq<Record>, score: Scorer)
    requires MatchesOf(queries, data, score).Ok?
    ensures NoDuplicates(MatchesOf(queries, data, score).value)
    ensures forall d :: d in MatchesOf(queries, data, score).value ==> d in data
  {
    var lists := Collect(queries, FuzzySearcher(data, score), []).value;
    forall d | d in MatchesOf(queries, data, score).value ensures d in data {
      var i :| 0 <= i < |lists| && d in lists[i];
      CollectFrom(queries, FuzzySearcher(data, score), [], lists[i]);
      var q :| q in queries && FuzzySearcher(data, score)(q) == Ok(lists[i]);
      assert FuzzySearch(q, data, score) == Ok(lists[i]);
      assert d in multiset(SortDesc(data, NameKey(Normalize(q), score)));
    }
  }

  /** Every record the alternatives find is a stored record, found once. */
  lemma {:induction false} AlternativeMatchesFromStore(query: string, data: seq<Record>, score: Scorer, sc: SpellChecker)
    requires AlternativeMatches(query, data, score, sc).Ok?
    ensures NoDuplicates(AlternativeMatches(query, data, score, sc).value)
    ensures forall d :: d in AlternativeMatches(query, data, score, sc).value ==> d in data
  {
    MatchesOfFromStore(AlternativeQueries(query, sc), data, score);
  }

  /** Over an empty store the searches find nothing. */
  lemma {:induction false} MatchesOfEmptyStore(queries: seq<string>, score: Scorer)
    ensures MatchesOf(queries, [], score) == Ok([])
  {
    assert Empties(0) == [];
    forall q ensures FuzzySearcher([], score)(q) == Ok([]) {
      FuzzySearchEmpty(q, score);
    }
    CollectNothing(queries, FuzzySearcher([], score), 0);
    FlattenEmpties(|queries|);
    assert Dedup([]) == Ok([]);
  }

  /** Over an empty store the alternatives find nothing. */
  lemma {:induction false} AlternativesEmptyStore(query: string, score: Scorer, sc: SpellChecker)
    ensures AlternativeMatches(query, [], score, sc) == Ok([])
  {
    MatchesOfEmptyStore(AlternativeQueries(query, sc), score);
  }
}
