/** The Python `str` operations the core relies on, over `seq<char>`.
    Case mapping and whitespace are those of ASCII. */
module Text {
  import opened Wrappers

  /** `str.isspace()` on ASCII: the characters `split()`, `strip()` and the regex class `\s` skip. */
  predicate IsSpace(c: char) {
    c == ' ' || c == '\t' || c == '\n' || c == '\r' || c == '\U{B}' || c == '\U{C}' || '\U{1C}' <= c <= '\U{1F}'
  }

  /** The regex class `\d` on ASCII. */
  predicate IsDigit(c: char) {
    '0' <= c <= '9'
  }

  function LowerChar(c: char): char {
    if 'A' <= c <= 'Z' then (c as int + 32) as char else c
  }

  function UpperChar(c: char): char {
    if 'a' <= c <= 'z' then (c as int - 32) as char else c
  }

  /** `str.lower()` */
  function Lower(s: string): string {
    seq(|s|, i requires 0 <= i < |s| => LowerChar(s[i]))
  }

  /** `str.capitalize()`: first character upper case, the rest lower case. */
  function Capitalize(s: string): string {
    if s == [] then [] else [UpperChar(s[0])] + Lower(s[1..])
  }

  lemma {:induction false} LowerIdempotent(s: string)
    ensures Lower(Lower(s)) == Lower(s)
  {
  }

  /** `str.lstrip(chars)` for the character class `p`. */
  function LStripBy(s: string, p: char -> bool): (r: string)
    ensures |r| <= |s| && r == s[|s| - |r|..]
    ensures forall i :: 0 <= i < |s| - |r| ==> p(s[i])
    ensures r != [] ==> !p(r[0])
  {
    if s != [] && p(s[0]) then
      var r := LStripBy(s[1..], p);
      assert s[|s| - |r|..] == s[1..][|s| - 1 - |r|..];
      assert forall i :: 1 <= i < |s| - |r| ==> s[i] == s[1..][i - 1];
      r
    else s
  }

  /** `str.rstrip(chars)` for the character class `p`. */
  function RStripBy(s: string, p: char -> bool): (r: string)
    ensures |r| <= |s| && r == s[..|r|]
    ensures forall i :: |r| <= i < |s| ==> p(s[i])
    ensures r != [] ==> !p(r[|r| - 1])
  {
    if s != [] && p(s[|s| - 1]) then RStripBy(s[..|s| - 1], p) else s
  }

  /** `str.strip(chars)` for the character class `p`. */
  function StripBy(s: string, p: char -> bool): (r: string)
    ensures r != [] ==> !p(r[0]) && !p(r[|r| - 1])
  {
    RStripBy(LStripBy(s, p), p)
  }

  /** Stripping a class that neither end belongs to changes nothing. */
  lemma {:induction false} StripByNothing(s: string, p: char -> bool)
    requires s == [] || (!p(s[0]) && !p(s[|s| - 1]))
    ensures StripBy(s, p) == s
  {
  }

  /** Leading characters of the class are all removed. */
  lemma {:induction false} LStripByPrefix(pre: string, s: string, p: char -> bool)
    requires forall i :: 0 <= i < |pre| ==> p(pre[i])
    ensures LStripBy(pre + s, p) == LStripBy(s, p)
  {
    if pre == [] {
      assert pre + s == s;
    } else {
      assert (pre + s)[0] == pre[0];
      assert (pre + s)[1..] == pre[1..] + s;
      LStripByPrefix(pre[1..], s, p);
    }
  }

  /** `str.strip()` */
  function Strip(s: string): string {
    StripBy(s, IsSpace)
  }

  /** Length of the leading run of non-whitespace characters. */
  function WordLen(s: string): (n: nat)
    ensures n <= |s|
    ensures forall i :: 0 <= i < n ==> !IsSpace(s[i])
    ensures n < |s| ==> IsSpace(s[n])
  {
    if s == [] || IsSpace(s[0]) then 0 else 1 + WordLen(s[1..])
  }

  /** A word as `str.split()` produces it: non-empty, no whitespace. */
  predicate IsWord(w: string) {
    w != [] && forall i :: 0 <= i < |w| ==> !IsSpace(w[i])
  }

  /** `str.split()` with no argument: the maximal runs of non-whitespace characters, in order. */
  function Split(s: string): (r: seq<string>)
    ensures forall k :: 0 <= k < |r| ==> IsWord(r[k])
    decreases |s|
  {
    var t := LStripBy(s, IsSpace);
    if t == [] then []
    else
      var n := WordLen(t);
      assert IsWord(t[..n]);
      ConsWords(t[..n], Split(t[n..]));
      [t[..n]] + Split(t[n..])
  }

  lemma {:induction false} ConsWords(w: string, ws: seq<string>)
    requires IsWord(w) && forall k :: 0 <= k < |ws| ==> IsWord(ws[k])
    ensures forall k :: 0 <= k < |[w] + ws| ==> IsWord(([w] + ws)[k])
  {
    forall k | 0 <= k < |[w] + ws| ensures IsWord(([w] + ws)[k]) {
      if k > 0 {
        assert ([w] + ws)[k] == ws[k - 1];
      }
    }
  }

  /** `sep.join(ws)` */
  function Join(ws: seq<string>, sep: string): string {
    if ws == [] then []
    else if |ws| == 1 then ws[0]
    else ws[0] + sep + Join(ws[1..], sep)
  }

  lemma {:induction false} WordLenOfWord(w: string, rest: string)
    requires IsWord(w)
    requires rest == [] || IsSpace(rest[0])
    ensures WordLen(w + rest) == |w|
  {
    if |w| > 1 {
      assert (w + rest)[1..] == w[1..] + rest;
      WordLenOfWord(w[1..], rest);
    } else {
      assert (w + rest)[1..] == rest;
    }
  }

  /** A word followed by nothing or by whitespace is split off whole. */
  lemma {:induction false} SplitWord(w: string, rest: string)
    requires IsWord(w)
    requires rest == [] || IsSpace(rest[0])
    ensures Split(w + rest) == [w] + Split(rest)
  {
    var s := w + rest;
    assert s[0] == w[0];
    assert LStripBy(s, IsSpace) == s;
    WordLenOfWord(w, rest);
    assert s[..|w|] == w;
    assert s[|w|..] == rest;
  }

  /** Leading space does not change the words. */
  lemma {:induction false} SplitSpace(t: string)
    ensures Split(" " + t) == Split(t)
  {
    assert (" " + t)[1..] == t;
    assert LStripBy(" " + t, IsSpace) == LStripBy(t, IsSpace);
  }

  /** Splitting a space-joined sequence of words gives the words back. */
  lemma {:induction false} SplitJoin(ws: seq<string>)
    requires forall k :: 0 <= k < |ws| ==> IsWord(ws[k])
    ensures Split(Join(ws, " ")) == ws
  {
    if ws == [] {
      assert Split([]) == [];
    } else if |ws| == 1 {
      SplitWord(ws[0], []);
      assert ws[0] + [] == ws[0];
      assert Split([]) == [];
      assert [ws[0]] == ws;
    } else {
      SplitJoin(ws[1..]);
      SplitJoinStep(ws);
    }
  }

  lemma {:induction false} SplitJoinStep(ws: seq<string>)
    requires |ws| > 1 && IsWord(ws[0])
    requires Split(Join(ws[1..], " ")) == ws[1..]
    ensures Split(Join(ws, " ")) == ws
  {
    JoinCons(ws, " ");
    SplitWordSpace(ws[0], Join(ws[1..], " "));
    HeadTail(ws);
  }

  lemma {:induction false} JoinCons(ws: seq<string>, sep: string)
    requires |ws| > 1
    ensures Join(ws, sep) == ws[0] + (sep + Join(ws[1..], sep))
  {
  }

  /** A word, a space and more text split into the word and the words of the text. */
  lemma {:induction false} SplitWordSpace(w: string, t: string)
    requires IsWord(w)
    ensures Split(w + (" " + t)) == [w] + Split(t)
  {
    SplitWord(w, " " + t);
    SplitSpace(t);
  }

  /** A non-empty sequence is its head followed by its tail. */
  lemma {:induction false} HeadTail<T>(s: seq<T>)
    requires s != []
    ensures [s[0]] + s[1..] == s
  {
  }

  predicate OccursAt(s: string, pat: string, i: nat) {
    i + |pat| <= |s| && s[i..i + |pat|] == pat
  }

  lemma {:induction false} OccursAtShift(s: string, pat: string, k: nat, j: nat)
    requires k <= |s|
    ensures OccursAt(s[k..], pat, j) <==> OccursAt(s, pat, k + j)
  {
    if j + |pat| <= |s| - k {
      assert s[k..][j..j + |pat|] == s[k + j..k + j + |pat|];
    }
  }

  /** `s.find(pat, from)`: the first occurrence at or after `from`. */
  function FindFrom(s: string, pat: string, from: nat): (r: Option<nat>)
    ensures r.Some? ==> from <= r.value && OccursAt(s, pat, r.value)
    ensures r.Some? ==> forall i :: from <= i < r.value ==> !OccursAt(s, pat, i)
    ensures r.None? ==> forall i :: from <= i ==> !OccursAt(s, pat, i)
    decreases |s| - from
  {
    if from + |pat| > |s| then None
    else if OccursAt(s, pat, from) then Some(from)
    else FindFrom(s, pat, from + 1)
  }

  /** `pat in s` for strings: substring test. */
  predicate Contains(s: string, pat: string) {
    FindFrom(s, pat, 0).Some?
  }

  lemma {:induction false} ContainsMeaning(s: string, pat: string)
    ensures Contains(s, pat) <==> exists i :: OccursAt(s, pat, i)
  {
  }

  /** `s.split(sep)`, `sep` non-empty: the pieces between the occurrences of `sep`, found left to right. */
  function SplitSep(s: string, sep: string): (r: seq<string>)
    requires sep != []
    ensures |r| >= 1
    decreases |s|
  {
    match FindFrom(s, sep, 0)
    case None => [s]
    case Some(i) => [s[..i]] + SplitSep(s[i + |sep|..], sep)
  }

  /** `s.split(sep)[-1]`: what follows the last separator a left-to-right, non-overlapping scan
      finds, or all of `s`. */
  function AfterLast(s: string, sep: string): (r: string)
    requires sep != []
    ensures |r| <= |s|
    decreases |s|
  {
    match FindFrom(s, sep, 0)
    case None => s
    case Some(i) => AfterLast(s[i + |sep|..], sep)
  }

  /** The last piece is a suffix of `s`, holds no separator, is all of `s` exactly when `s`
      holds none, and otherwise has a separator right before it. */
  lemma {:induction false} AfterLastMeaning(s: string, sep: string)
    requires sep != []
    ensures AfterLast(s, sep) == s[|s| - |AfterLast(s, sep)|..]
    ensures !Contains(AfterLast(s, sep), sep)
    ensures |AfterLast(s, sep)| == |s| <==> !Contains(s, sep)
    ensures |AfterLast(s, sep)| < |s| ==> OccursAt(s, sep, |s| - |AfterLast(s, sep)| - |sep|)
  {
    AfterLastSuffix(s, sep);
    AfterLastAfterSep(s, sep);
    AfterLastNoSep(s, sep);
    AfterLastWhole(s, sep);
  }

  /** Past the first separator, the last piece of the rest is the last piece of `s`. */
  lemma {:induction false} AfterLastCut(s: string, sep: string, i: nat)
    requires sep != [] && FindFrom(s, sep, 0) == Some(i)
    ensures i + |sep| <= |s| && AfterLast(s, sep) == AfterLast(s[i + |sep|..], sep)
  {
  }

  /** Without a separator, the last piece is all of `s`. */
  lemma {:induction false} AfterLastNone(s: string, sep: string)
    requires sep != [] && !Contains(s, sep)
    ensures AfterLast(s, sep) == s
  {
  }

  /** The last piece starts at some index `k` of `s`. */
  lemma {:induction false} AfterLastStart(s: string, sep: string) returns (k: nat)
    requires sep != []
    ensures k <= |s| && AfterLast(s, sep) == s[k..]
    decreases |s|
  {
    match FindFrom(s, sep, 0)
    case None =>
      k := 0;
    case Some(i) =>
      AfterLastCut(s, sep, i);
      var j := i + |sep|;
      var k' := AfterLastStart(s[j..], sep);
      assert s[j..][k'..] == s[j + k'..];
      k := j + k';
  }

  lemma {:induction false} AfterLastSuffix(s: string, sep: string)
    requires sep != []
    ensures AfterLast(s, sep) == s[|s| - |AfterLast(s, sep)|..]
  {
    var k := AfterLastStart(s, sep);
    assert |s| - |AfterLast(s, sep)| == k;
  }

  lemma {:induction false} AfterLastAfterSep(s: string, sep: string)
    requires sep != []
    ensures |AfterLast(s, sep)| < |s| ==>
      |AfterLast(s, sep)| + |sep| <= |s| && OccursAt(s, sep, |s| - |AfterLast(s, sep)| - |sep|)
    decreases |s|
  {
    match FindFrom(s, sep, 0)
    case None =>
    case Some(i) =>
      AfterLastCut(s, sep, i);
      var t := s[i + |sep|..];
      AfterLastAfterSep(t, sep);
      AfterSepStep(s, sep, i, AfterLast(t, sep));
  }

  /** A separator at `i`, and a tail `r` of the rest that comes right after one there, or is
      all of the rest: then `r` comes right after a separator in `s`. */
  lemma {:induction false} AfterSepStep(s: string, sep: string, i: nat, r: string)
    requires i + |sep| <= |s| && OccursAt(s, sep, i) && |r| <= |s| - i - |sep|
    requires |r| < |s| - i - |sep| ==>
      |r| + |sep| <= |s| - i - |sep| && OccursAt(s[i + |sep|..], sep, |s| - i - |sep| - |r| - |sep|)
    ensures |r| < |s| ==> |r| + |sep| <= |s| && OccursAt(s, sep, |s| - |r| - |sep|)
  {
    if |r| < |s| - i - |sep| {
      OccursAtShift(s, sep, i + |sep|, |s| - i - |sep| - |r| - |sep|);
    }
  }

  lemma {:induction false} AfterLastNoSep(s: string, sep: string)
    requires sep != []
    ensures !Contains(AfterLast(s, sep), sep)
    decreases |s|
  {
    var f := FindFrom(s, sep, 0);
    if f.Some? {
      assert AfterLast(s, sep) == AfterLast(s[f.value + |sep|..], sep);
      AfterLastNoSep(s[f.value + |sep|..], sep);
    }
  }

  lemma {:induction false} AfterLastWhole(s: string, sep: string)
    requires sep != []
    ensures |AfterLast(s, sep)| == |s| <==> !Contains(s, sep)
  {
    var f := FindFrom(s, sep, 0);
    if f.Some? {
      assert AfterLast(s, sep) == AfterLast(s[f.value + |sep|..], sep);
    }
  }

  lemma {:induction false} SplitSepLast(s: string, sep: string)
    requires sep != []
    ensures SplitSep(s, sep)[|SplitSep(s, sep)| - 1] == AfterLast(s, sep)
    decreases |s|
  {
    var f := FindFrom(s, sep, 0);
    if f.Some? {
      var t := s[f.value + |sep|..];
      assert SplitSep(s, sep) == [s[..f.value]] + SplitSep(t, sep);
      assert AfterLast(s, sep) == AfterLast(t, sep);
      SplitSepLast(t, sep);
    }
  }

  /** `s.replace("", rep)`: `rep` before, between and after every character. */
  function ReplaceEmpty(s: string, rep: string): string {
    if s == [] then rep else rep + [s[0]] + ReplaceEmpty(s[1..], rep)
  }

  /** `s.replace(pat, rep)`: every non-overlapping occurrence, left to right. */
  function Replace(s: string, pat: string, rep: string): string
    decreases |s|
  {
    if pat == [] then ReplaceEmpty(s, rep)
    else
      match FindFrom(s, pat, 0)
      case None => s
      case Some(i) => s[..i] + rep + Replace(s[i + |pat|..], pat, rep)
  }

  lemma {:induction false} ReplaceEmptyByEmpty(s: string)
    ensures ReplaceEmpty(s, []) == s
  {
    if s != [] {
      ReplaceEmptyByEmpty(s[1..]);
    }
  }

  /** Replacing a word by itself changes nothing. */
  lemma {:induction false} ReplaceSelf(s: string, w: string)
    ensures Replace(s, w, w) == s
    decreases |s|
  {
    if w == [] {
      ReplaceEmptyByEmpty(s);
    } else {
      match FindFrom(s, w, 0)
      case None =>
      case Some(i) =>
        ReplaceSelf(s[i + |w|..], w);
        ReplaceSelfStep(s, w, i);
    }
  }

  lemma {:induction false} ReplaceSelfStep(s: string, w: string, i: nat)
    requires w != [] && FindFrom(s, w, 0) == Some(i)
    requires Replace(s[i + |w|..], w, w) == s[i + |w|..]
    ensures Replace(s, w, w) == s
  {
    assert OccursAt(s, w, i);
    Rejoin(s, i, i + |w|);
  }

  lemma {:induction false} Rejoin(s: string, i: nat, j: nat)
    requires i <= j <= |s|
    ensures s[..i] + s[i..j] + s[j..] == s
  {
  }

  /** `s.split(c)` for a one-character separator. */
  function SplitOn(s: string, c: char): seq<string> {
    SplitSep(s, [c])
  }

  lemma {:induction false} NoOccurrence(x: string, c: char, from: nat)
    requires forall i :: 0 <= i < |x| ==> x[i] != c
    ensures FindFrom(x, [c], from) == None
    decreases |x| - from
  {
    if from + 1 <= |x| {
      assert x[from..from + 1][0] == x[from];
      NoOccurrence(x, c, from + 1);
    }
  }

  /** `sep.join` and `split(sep)` are inverse when no piece contains the separator. */
  lemma {:induction false} SplitOnJoin(xs: seq<string>, c: char)
    requires xs != []
    requires forall k, i :: 0 <= k < |xs| && 0 <= i < |xs[k]| ==> xs[k][i] != c
    ensures SplitOn(Join(xs, [c]), c) == xs
  {
    if |xs| == 1 {
      NoOccurrence(xs[0], c, 0);
    } else {
      var x := xs[0];
      var t := Join(xs[1..], [c]);
      var s := Join(xs, [c]);
      assert s == x + [c] + t;
      assert OccursAt(s, [c], |x|) by {
        assert s[|x|..|x| + 1] == [c];
      }
      var j := FindFrom(s, [c], 0).value;
      assert j == |x|;
      assert s[..j] == x;
      assert s[j + 1..] == t;
      SplitOnJoin(xs[1..], c);
    }
  }
}
