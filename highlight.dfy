/**
 * Phrase highlighting in the editor's review panel: a fixed list of phrases is
 * sorted longest-first in place, then every case-insensitive occurrence of each
 * phrase is wrapped, one phrase after another, in a `<mark>` element that
 * carries the id of a review comment. The phrase is escaped before it becomes a
 * regular expression, so it is matched literally.
 */
module Highlight {
  import opened Wrappers
  import opened Text

  datatype ReviewComment = ReviewComment(id: string, text: string, position: int)

  datatype HighlightWord = HighlightWord(word: string, comment: ReviewComment)

  const Comment1 := ReviewComment("comment-1", "Zinsbouw versoepeld voor betere leesbaarheid", 50)
  const Comment2 := ReviewComment("comment-2", "Tone-of-voice gecontroleerd op basis van merkrichtlijnen", 150)

  const Transformatie := HighlightWord("digitale transformatie", Comment1)
  const Wereld := HighlightWord("moderne zakelijke wereld", Comment2)
  const Bedrijven := HighlightWord("bedrijven", Comment1)
  const Aanpassen := HighlightWord("aanpassen", Comment2)

  /** The phrases in the order they are declared. */
  const HighlightWords: seq<HighlightWord> := [Transformatie, Wereld, Bedrijven, Aanpassen]

  const MarkClass := "bg-yellow-200/60 px-1 rounded relative group hover:bg-yellow-300/70 transition-colors"

  function OpenTag(commentId: string): string {
    "<mark class=\"" + MarkClass + "\" data-comment-id=\"" + commentId + "\">"
  }

  const CloseTag := "</mark>"

  /** "digitale transformatie" and "bedrijven" point at the first comment, the other two at the second. */
  lemma CommentAssignment()
    ensures forall w | w in HighlightWords ::
      (w.comment == Comment1 <==> w.word == "digitale transformatie" || w.word == "bedrijven")
    ensures forall w | w in HighlightWords ::
      (w.comment == Comment2 <==> w.word == "moderne zakelijke wereld" || w.word == "aanpassen")
  {
  }

  // ---------------------------------------------------------------------------
  // Escaping a phrase into a regular expression
  // ---------------------------------------------------------------------------

  /** The characters the escaping replacement puts a backslash in front of. */
  predicate IsMeta(c: char) {
    c in ".*+?^${}()|[]\\"
  }

  /** `word.replace(/[.*+?^${}()|[\]\\]/g, '\\$&')`. */
  function Escape(s: string): (r: string)
    ensures |r| >= |s|
    decreases |s|
  {
    if s == [] then []
    else (if IsMeta(s[0]) then ['\\', s[0]] else [s[0]]) + Escape(s[1..])
  }

  /**
   * The literal text a regular-expression source stands for, when it stands for
   * one: plain characters and backslash-escaped metacharacters. A bare
   * metacharacter, or a backslash before anything else (a class such as `\d`),
   * makes it a pattern that is not a literal.
   */
  function LiteralOf(src: string): (r: Option<string>)
    ensures r.Some? ==> |r.value| <= |src|
    decreases |src|
  {
    if src == [] then Some([])
    else if src[0] == '\\' then
      if |src| >= 2 && IsMeta(src[1]) then
        match LiteralOf(src[2..])
        case Some(rest) => Some([src[1]] + rest)
        case None => None
      else None
    else if IsMeta(src[0]) then None
    else
      match LiteralOf(src[1..])
      case Some(rest) => Some([src[0]] + rest)
      case None => None
  }

  /** Escaping makes every phrase a literal pattern that stands for exactly that phrase. */
  lemma {:induction false} EscapeIsLiteral(s: string)
    ensures LiteralOf(Escape(s)) == Some(s)
    decreases |s|
  {
    if s != [] {
      EscapeIsLiteral(s[1..]);
      var e := Escape(s);
      if IsMeta(s[0]) {
        assert e[2..] == Escape(s[1..]);
      } else {
        assert e[1..] == Escape(s[1..]);
      }
      assert [s[0]] + s[1..] == s;
    }
  }

  // ---------------------------------------------------------------------------
  // One global, case-insensitive replace
  // ---------------------------------------------------------------------------

  /** `t` matches the phrase `p` at `i`, ignoring case. */
  predicate MatchesAt(t: string, i: int, p: string) {
    0 <= i && i + |p| <= |t| && forall k :: 0 <= k < |p| ==> Lower(t[i + k]) == Lower(p[k])
  }

  /** `t` holds the phrase `p` somewhere, ignoring case. */
  predicate Occurs(t: string, p: string) {
    exists i | 0 <= i <= |t| :: MatchesAt(t, i, p)
  }

  /**
   * `t.replace(/(p)/gi, open + "$1" + CloseTag)`: scanning from the left, each
   * match is wrapped with the matched text as it stood, and scanning resumes
   * after it.
   */
  /** A matched text between the opening tag and `CloseTag`. */
  function Mark(open: string, matched: string): string {
    open + matched + CloseTag
  }

  function ReplaceAll(t: string, p: string, open: string): (r: string)
    requires p != []
    ensures |r| >= |t|
    decreases |t|
  {
    if t == [] then []
    else if MatchesAt(t, 0, p) then Mark(open, t[..|p|]) + ReplaceAll(t[|p|..], p, open)
    else [t[0]] + ReplaceAll(t[1..], p, open)
  }

  /** The `i` flag: a match is a slice whose lower-cased form is the lower-cased phrase. */
  lemma MatchesAtLower(t: string, i: int, p: string)
    ensures MatchesAt(t, i, p) <==> 0 <= i && i + |p| <= |t| && ToLower(t[i..i + |p|]) == ToLower(p)
  {
    if 0 <= i && i + |p| <= |t| {
      var a, b := ToLower(t[i..i + |p|]), ToLower(p);
      if MatchesAt(t, i, p) {
        assert forall k | 0 <= k < |p| :: a[k] == b[k];
      } else {
        var k :| 0 <= k < |p| && Lower(t[i + k]) != Lower(p[k]);
        assert a[k] != b[k];
      }
    }
  }

  lemma MatchesAtTail(t: string, i: int, p: string)
    requires t != [] && 0 <= i
    ensures MatchesAt(t[1..], i, p) <==> MatchesAt(t, i + 1, p)
  {
    if i + |p| <= |t| - 1 {
      assert forall m | i <= m < i + |p| :: t[1..][m] == t[m + 1];
    }
  }

  /** A phrase placed between two texts occurs in the result. */
  lemma OccursMiddle(pre: string, p: string, post: string)
    ensures Occurs(pre + p + post, p)
  {
    var t := pre + p + post;
    assert forall k | 0 <= k < |p| :: t[|pre| + k] == p[k];
    assert MatchesAt(t, |pre|, p);
  }

  /** The leftmost match is wrapped first, with its own casing between the tags. */
  lemma ReplaceAllLeftmost(t: string, p: string, open: string)
    requires p != [] && MatchesAt(t, 0, p)
    ensures ReplaceAll(t, p, open)[..|open| + |p| + |CloseTag|] == open + t[..|p|] + CloseTag
  {
  }

  /** No match of `p` starts before index `i` of `t`. */
  predicate NoMatchBefore(t: string, p: string, i: int) {
    forall j | 0 <= j < i :: !MatchesAt(t, j, p)
  }

  /** Dropping the first character of a match-free prefix leaves a shorter match-free prefix. */
  lemma NoMatchBeforeTail(t: string, p: string, i: int)
    requires t != [] && 0 < i && NoMatchBefore(t, p, i)
    ensures !MatchesAt(t, 0, p) && NoMatchBefore(t[1..], p, i - 1)
  {
    forall j | 0 <= j < i - 1
      ensures !MatchesAt(t[1..], j, p)
    {
      MatchesAtTail(t, j, p);
    }
  }

  /** A match at the front is wrapped and the scan resumes after it. */
  lemma ReplaceAllWrap(t: string, p: string, open: string)
    requires p != [] && MatchesAt(t, 0, p)
    ensures ReplaceAll(t, p, open) == Mark(open, t[..|p|]) + ReplaceAll(t[|p|..], p, open)
  {
  }

  /** A match at `i` is a match at the front of the text from `i` on. */
  lemma MatchesAtShift(t: string, i: int, p: string)
    requires MatchesAt(t, i, p)
    ensures MatchesAt(t[i..], 0, p)
  {
    assert forall k | 0 <= k < |p| :: t[i..][k] == t[i + k];
  }

  /** Without a match at the front, the first character is copied and the scan moves on. */
  lemma ReplaceAllSkip(t: string, p: string, open: string)
    requires p != [] && t != [] && !MatchesAt(t, 0, p)
    ensures ReplaceAll(t, p, open) == [t[0]] + ReplaceAll(t[1..], p, open)
  {
  }

  /** Text before the first match is copied unchanged. */
  lemma {:induction false} ReplaceAllCopiesPrefix(t: string, p: string, open: string, i: int)
    requires p != [] && 0 <= i <= |t| && NoMatchBefore(t, p, i)
    ensures ReplaceAll(t, p, open) == t[..i] + ReplaceAll(t[i..], p, open)
    decreases i
  {
    if i > 0 {
      NoMatchBeforeTail(t, p, i);
      ghost var tail := t[1..];
      ReplaceAllSkip(t, p, open);
      ReplaceAllCopiesPrefix(tail, p, open, i - 1);
      assert [t[0]] + tail[..i - 1] == t[..i];
      assert tail[i - 1..] == t[i..];
      assert ReplaceAll(t, p, open) == [t[0]] + (tail[..i - 1] + ReplaceAll(t[i..], p, open));
    }
  }

  /**
   * The `g` flag: the first match, at `i`, is wrapped with its own casing,
   * the text before it is copied as it stood, and the scan resumes right
   * after the match on the rest of the text.
   */
  lemma ReplaceAllFirst(t: string, p: string, open: string, i: int)
    requires p != [] && 0 <= i && MatchesAt(t, i, p) && NoMatchBefore(t, p, i)
    ensures ReplaceAll(t, p, open) == t[..i] + Mark(open, t[i..i + |p|]) + ReplaceAll(t[i + |p|..], p, open)
  {
    ReplaceAllCopiesPrefix(t, p, open, i);
    var rest := t[i..];
    MatchesAtShift(t, i, p);
    ReplaceAllWrap(rest, p, open);
    assert rest[..|p|] == t[i..i + |p|];
    assert rest[|p|..] == t[i + |p|..];
  }

  /** Both occurrences in "abAB" are wrapped, each with its own casing, where a first-match-only replace would stop after one. */
  lemma ReplaceAllWrapsEvery(open: string)
    ensures ReplaceAll("abAB", "ab", open) == Mark(open, "ab") + Mark(open, "AB")
  {
    var t := "abAB";
    assert MatchesAt(t, 0, "ab");
    assert t[2..] == "AB" && MatchesAt(t[2..], 0, "ab");
    assert t[2..][2..] == [];
  }

  /** Text without the phrase comes back unchanged. */
  lemma {:induction false} ReplaceAllAbsent(t: string, p: string, open: string)
    requires p != [] && !Occurs(t, p)
    ensures ReplaceAll(t, p, open) == t
    decreases |t|
  {
    if t != [] {
      assert !MatchesAt(t, 0, p);
      forall i | 0 <= i <= |t[1..]|
        ensures !MatchesAt(t[1..], i, p)
      {
        MatchesAtTail(t, i, p);
      }
      ReplaceAllAbsent(t[1..], p, open);
    }
  }

  /** Text with the phrase comes back strictly longer. */
  lemma {:induction false} ReplaceAllPresent(t: string, p: string, open: string)
    requires p != [] && Occurs(t, p)
    ensures |ReplaceAll(t, p, open)| > |t|
    decreases |t|
  {
    var i :| 0 <= i <= |t| && MatchesAt(t, i, p);
    if !MatchesAt(t, 0, p) {
      MatchesAtTail(t, i - 1, p);
      assert 0 <= i - 1 <= |t[1..]|;
      ReplaceAllPresent(t[1..], p, open);
    }
  }

  /** One pass changes the text exactly when the phrase occurs in it. */
  lemma ReplaceAllChanges(t: string, p: string, open: string)
    requires p != []
    ensures ReplaceAll(t, p, open) == t <==> !Occurs(t, p)
    ensures ReplaceAll(t, p, open) == t || |ReplaceAll(t, p, open)| > |t|
  {
    if Occurs(t, p) {
      ReplaceAllPresent(t, p, open);
    } else {
      ReplaceAllAbsent(t, p, open);
    }
  }

  // ---------------------------------------------------------------------------
  // All phrases, one after another
  // ---------------------------------------------------------------------------

  predicate Phrases(ws: seq<HighlightWord>) {
    forall w | w in ws :: w.word != []
  }

  /** The replace for one phrase, wrapping it in a mark that carries its comment id. */
  function Pass(t: string, w: HighlightWord): (r: string)
    requires w.word != []
    ensures |r| >= |t|
  {
    ReplaceAll(t, w.word, OpenTag(w.comment.id))
  }

  /** The passes for `ws`, first to last, each over the previous one's output. */
  function ApplyAll(t: string, ws: seq<HighlightWord>): (r: string)
    requires Phrases(ws)
    ensures |r| >= |t|
    decreases |ws|
  {
    if ws == [] then t else Pass(ApplyAll(t, ws[..|ws| - 1]), ws[|ws| - 1])
  }

  /** A text that holds none of the phrases comes through every pass unchanged. */
  lemma {:induction false} ApplyAllAbsent(t: string, ws: seq<HighlightWord>)
    requires Phrases(ws)
    requires forall w | w in ws :: !Occurs(t, w.word)
    ensures ApplyAll(t, ws) == t
    decreases |ws|
  {
    if ws != [] {
      ApplyAllAbsent(t, ws[..|ws| - 1]);
      ReplaceAllAbsent(t, ws[|ws| - 1].word, OpenTag(ws[|ws| - 1].comment.id));
    }
  }

  /**
   * A text that holds one of the phrases comes out strictly longer: either an
   * earlier pass already wrapped something, or the text reaches that phrase's
   * pass untouched and is wrapped there.
   */
  lemma {:induction false} ApplyAllPresent(t: string, ws: seq<HighlightWord>, w: HighlightWord)
    requires Phrases(ws) && w in ws && Occurs(t, w.word)
    ensures |ApplyAll(t, ws)| > |t|
    decreases |ws|
  {
    var init := ws[..|ws| - 1];
    var last := ws[|ws| - 1];
    var before := ApplyAll(t, init);
    ReplaceAllChanges(before, last.word, OpenTag(last.comment.id));
    assert ws == init + [last];
    if w in init {
      ApplyAllPresent(t, init, w);
    } else if before == t {
      ReplaceAllPresent(t, last.word, OpenTag(last.comment.id));
    } else {
      ApplyAllSameOrLonger(t, init);
    }
  }

  /** Every pass sequence leaves a text either as it was or strictly longer. */
  lemma {:induction false} ApplyAllSameOrLonger(t: string, ws: seq<HighlightWord>)
    requires Phrases(ws)
    ensures ApplyAll(t, ws) == t || |ApplyAll(t, ws)| > |t|
    decreases |ws|
  {
    if ws != [] {
      var last := ws[|ws| - 1];
      ApplyAllSameOrLonger(t, ws[..|ws| - 1]);
      ReplaceAllChanges(ApplyAll(t, ws[..|ws| - 1]), last.word, OpenTag(last.comment.id));
    }
  }

  // ---------------------------------------------------------------------------
  // Sorting the phrases, longest first
  // ---------------------------------------------------------------------------

  function Len(w: HighlightWord): int {
    |w.word|
  }

  /**
   * `x` placed after every element at least as long, and before the shorter
   * ones that follow: the position a stable sort by `b.word.length -
   * a.word.length` gives it when it comes last.
   */
  function Insert(s: seq<HighlightWord>, x: HighlightWord): (r: seq<HighlightWord>)
    ensures |r| == |s| + 1
    decreases |s|
  {
    if s == [] || Len(s[|s| - 1]) >= Len(x) then s + [x]
    else Insert(s[..|s| - 1], x) + [s[|s| - 1]]
  }

  /** `highlightWords.sort((a, b) => b.word.length - a.word.length)`. */
  function SortByLength(s: seq<HighlightWord>): (r: seq<HighlightWord>)
    ensures |r| == |s|
    decreases |s|
  {
    if s == [] then [] else Insert(SortByLength(s[..|s| - 1]), s[|s| - 1])
  }

  predicate SortedByLength(s: seq<HighlightWord>) {
    forall i, j :: 0 <= i < j < |s| ==> Len(s[i]) >= Len(s[j])
  }

  lemma {:induction false} InsertPermutes(s: seq<HighlightWord>, x: HighlightWord)
    ensures multiset(Insert(s, x)) == multiset(s) + multiset{x}
    decreases |s|
  {
    if s != [] && Len(s[|s| - 1]) < Len(x) {
      InsertPermutes(s[..|s| - 1], x);
      assert s == s[..|s| - 1] + [s[|s| - 1]];
    }
  }

  lemma {:induction false} InsertSorted(s: seq<HighlightWord>, x: HighlightWord)
    requires SortedByLength(s)
    ensures SortedByLength(Insert(s, x))
    decreases |s|
  {
    if s != [] && Len(s[|s| - 1]) < Len(x) {
      var init, last := s[..|s| - 1], s[|s| - 1];
      InsertSorted(init, x);
      InsertPermutes(init, x);
      var q := Insert(init, x);
      forall i | 0 <= i < |q|
        ensures Len(q[i]) >= Len(last)
      {
        assert q[i] in multiset(q);
        if q[i] != x {
          assert q[i] in multiset(init);
          var k :| 0 <= k < |init| && init[k] == q[i];
          assert s[k] == q[i];
        }
      }
      var r := Insert(s, x);
      assert r == q + [last];
      forall i, j | 0 <= i < j < |r|
        ensures Len(r[i]) >= Len(r[j])
      {
        if j < |q| {
          assert r[i] == q[i] && r[j] == q[j];
        } else {
          assert r[i] == q[i] && r[j] == last;
        }
      }
    }
  }

  /** The sort yields a longest-first order of the very same phrases. */
  lemma {:induction false} SortByLengthCorrect(s: seq<HighlightWord>)
    ensures SortedByLength(SortByLength(s))
    ensures multiset(SortByLength(s)) == multiset(s)
    decreases |s|
  {
    if s != [] {
      SortByLengthCorrect(s[..|s| - 1]);
      InsertSorted(SortByLength(s[..|s| - 1]), s[|s| - 1]);
      InsertPermutes(SortByLength(s[..|s| - 1]), s[|s| - 1]);
      assert s == s[..|s| - 1] + [s[|s| - 1]];
    }
  }

  /**
   * The phrase list sorts to "moderne zakelijke wereld" (24), "digitale
   * transformatie" (22), then "bedrijven" and "aanpassen" (9 each) in their
   * declared order.
   */
  lemma SortedHighlightWords()
    ensures SortByLength(HighlightWords) == [Wereld, Transformatie, Bedrijven, Aanpassen]
  {
    assert Len(Transformatie) == 22 && Len(Wereld) == 24 && Len(Bedrijven) == 9 && Len(Aanpassen) == 9;
    assert HighlightWords[..1] == [Transformatie];
    assert HighlightWords[..2] == [Transformatie, Wereld];
    assert HighlightWords[..3] == [Transformatie, Wereld, Bedrijven];
    assert SortByLength([Transformatie]) == [Transformatie];
    assert SortByLength([Transformatie, Wereld]) == Insert([Transformatie], Wereld) == [Wereld, Transformatie];
    assert [Transformatie, Wereld, Bedrijven][..2] == [Transformatie, Wereld];
    assert SortByLength([Transformatie, Wereld, Bedrijven]) == Insert([Wereld, Transformatie], Bedrijven);
    assert Insert([Wereld, Transformatie], Bedrijven) == [Wereld, Transformatie, Bedrijven];
    assert SortByLength(HighlightWords) == Insert([Wereld, Transformatie, Bedrijven], Aanpassen);
  }

  /** Sorting keeps every phrase non-empty. */
  lemma SortedPhrases(s: seq<HighlightWord>)
    requires Phrases(s)
    ensures Phrases(SortByLength(s))
  {
    SortByLengthCorrect(s);
    var r := SortByLength(s);
    forall w | w in r
      ensures w.word != []
    {
      assert w in multiset(s);
    }
  }

  /**
   * Where the insertion lands: after the longest prefix ending in a phrase at
   * least as long, in front of a run of shorter phrases.
   */
  lemma {:induction false} InsertAt(sorted: seq<HighlightWord>, x: HighlightWord, j: int)
    requires 0 <= j <= |sorted|
    requires j == 0 || Len(sorted[j - 1]) >= Len(x)
    requires forall k | j <= k < |sorted| :: Len(sorted[k]) < Len(x)
    ensures Insert(sorted, x) == sorted[..j] + [x] + sorted[j..]
    decreases |sorted|
  {
    if j == |sorted| {
      assert sorted[..j] == sorted && sorted[j..] == [];
    } else {
      var init, last := sorted[..|sorted| - 1], sorted[|sorted| - 1];
      InsertAt(init, x, j);
      assert init[..j] == sorted[..j];
      assert init[j..] + [last] == sorted[j..];
    }
  }

  /** The array after the scan: the prefix, the inserted phrase, then the shifted rest. */
  lemma Assemble(b: seq<HighlightWord>, sorted: seq<HighlightWord>, x: HighlightWord, j: int)
    requires 0 <= j <= |sorted| && |b| == |sorted| + 1
    requires forall k | 0 <= k < j :: b[k] == sorted[k]
    requires b[j] == x
    requires forall k | j < k < |b| :: b[k] == sorted[k - 1]
    ensures b == sorted[..j] + [x] + sorted[j..]
  {
  }

  /** Moves `a[i]` left past the shorter phrases in front of it, which are already sorted. */
  method InsertLast(a: array<HighlightWord>, i: int)
    requires 0 <= i < a.Length
    modifies a
    ensures a[..i + 1] == Insert(old(a[..i]), old(a[i]))
    ensures a[i + 1..] == old(a[i + 1..])
  {
    ghost var before := a[..];
    ghost var sorted := before[..i];
    var x := a[i];
    var j := i;
    while j > 0 && Len(a[j - 1]) < Len(x)
      invariant 0 <= j <= i
      invariant forall k {:trigger a[k]} :: 0 <= k < j ==> a[k] == sorted[k]
      invariant forall k {:trigger a[k]} :: j < k <= i ==> a[k] == sorted[k - 1]
      invariant forall k {:trigger a[k]} :: i < k < a.Length ==> a[k] == before[k]
      invariant forall k {:trigger sorted[k]} :: j <= k < i ==> Len(sorted[k]) < Len(x)
      decreases j
    {
      a[j] := a[j - 1];
      j := j - 1;
    }
    InsertAt(sorted, x, j);
    a[j] := x;
    ghost var after := a[..];
    assert forall k | i < k < a.Length :: after[k] == before[k];
    Assemble(after[..i + 1], sorted, x, j);
    assert after[i + 1..] == before[i + 1..];
  }

  /** The stable insertion sort, in place, proved to produce `SortByLength`. */
  method SortInPlace(a: array<HighlightWord>)
    modifies a
    ensures a[..] == SortByLength(old(a[..]))
  {
    ghost var input := a[..];
    var i := 0;
    while i < a.Length
      invariant 0 <= i <= a.Length
      invariant a[..i] == SortByLength(input[..i])
      invariant a[i..] == input[i..]
      decreases a.Length - i
    {
      assert a[i] == input[i] && a[i + 1..] == input[i + 1..];
      InsertLast(a, i);
      assert input[..i + 1][..i] == input[..i];
      assert SortByLength(input[..i + 1]) == Insert(SortByLength(input[..i]), input[i]);
      i := i + 1;
    }
    assert input[..a.Length] == input;
    assert a[..a.Length] == a[..];
  }

  // ---------------------------------------------------------------------------
  // getHighlightedContent
  // ---------------------------------------------------------------------------

  /**
   * What `getHighlightedContent` returns for `doc`: "" for an empty document,
   * otherwise the sorted phrases applied in turn, falling back to `doc` when
   * that is empty.
   */
  function Highlighted(doc: string): (r: string)
    ensures |r| >= |doc|
  {
    if doc == [] then []
    else
      SortedPhrases(HighlightWords);
      var content := ApplyAll(doc, SortByLength(HighlightWords));
      if content != [] then content else doc
  }

  /** The `forEach` over the sorted phrases: each escaped phrase rewrites `content` in turn. */
  method ApplyPhrases(doc: string, highlightWords: array<HighlightWord>) returns (content: string)
    requires Phrases(highlightWords[..])
    ensures content == ApplyAll(doc, highlightWords[..])
  {
    content := doc;
    for i := 0 to highlightWords.Length
      invariant content == ApplyAll(doc, highlightWords[..i])
    {
      var w := highlightWords[i];
      assert w in highlightWords[..];
      EscapeIsLiteral(w.word);
      var pattern := LiteralOf(Escape(w.word));
      assert highlightWords[..i + 1][..i] == highlightWords[..i];
      content := ReplaceAll(content, pattern.value, OpenTag(w.comment.id));
    }
    assert highlightWords[..highlightWords.Length] == highlightWords[..];
  }

  /** `getHighlightedContent`: sort a copy of the phrase list in place, then run the phrase loop. */
  method HighlightedContent(doc: string) returns (r: string)
    ensures r == Highlighted(doc)
  {
    if doc == [] {
      return [];
    }
    var highlightWords := new HighlightWord[|HighlightWords|](i requires 0 <= i < |HighlightWords| => HighlightWords[i]);
    assert highlightWords[..] == HighlightWords;
    SortInPlace(highlightWords);
    SortedPhrases(HighlightWords);
    var content := ApplyPhrases(doc, highlightWords);
    r := if content != [] then content else doc;
  }

  /** An empty document highlights to "", and any other never does. */
  lemma HighlightedEmpty(doc: string)
    ensures Highlighted(doc) == [] <==> doc == []
  {
  }

  /**
   * The document comes back unchanged exactly when it holds none of the
   * phrases, in any casing.
   */
  lemma HighlightedUnchanged(doc: string)
    ensures Highlighted(doc) == doc <==> forall w | w in HighlightWords :: !Occurs(doc, w.word)
  {
    if doc != [] {
      SortedPhrases(HighlightWords);
      var sorted := SortByLength(HighlightWords);
      SortedHighlightWords();
      if forall w | w in HighlightWords :: !Occurs(doc, w.word) {
        ApplyAllAbsent(doc, sorted);
      } else {
        var w :| w in HighlightWords && Occurs(doc, w.word);
        ApplyAllPresent(doc, sorted, w);
      }
    }
  }

  // ---------------------------------------------------------------------------
  // Provenance: the marks are the only thing added
  // ---------------------------------------------------------------------------

  /** A character of the output together with whether a pass inserted it. */
  datatype Glyph = Glyph(c: char, inserted: bool)

  function Chars(g: seq<Glyph>): (s: string)
    ensures |s| == |g|
    ensures forall i :: 0 <= i < |g| ==> s[i] == g[i].c
  {
    seq(|g|, i requires 0 <= i < |g| => g[i].c)
  }

  /** The characters that were in the document, with every inserted one dropped. */
  function Original(g: seq<Glyph>): string
    decreases |g|
  {
    if g == [] then [] else (if g[0].inserted then [] else [g[0].c]) + Original(g[1..])
  }

  /** The document's own characters. */
  function Source(s: string): (g: seq<Glyph>)
    ensures Chars(g) == s
  {
    seq(|s|, i requires 0 <= i < |s| => Glyph(s[i], false))
  }

  /** Characters a pass inserts. */
  function Markup(s: string): (g: seq<Glyph>)
    ensures Chars(g) == s
  {
    seq(|s|, i requires 0 <= i < |s| => Glyph(s[i], true))
  }

  lemma {:induction false} OriginalAppend(a: seq<Glyph>, b: seq<Glyph>)
    ensures Original(a + b) == Original(a) + Original(b)
    decreases |a|
  {
    if a != [] {
      assert (a + b)[1..] == a[1..] + b;
      assert (a + b)[0] == a[0];
      OriginalAppend(a[1..], b);
      var h := if a[0].inserted then [] else [a[0].c];
      assert Original(a) == h + Original(a[1..]);
      assert Original(a + b) == h + (Original(a[1..]) + Original(b));
      assert h + (Original(a[1..]) + Original(b)) == (h + Original(a[1..])) + Original(b);
    } else {
      assert a + b == b;
    }
  }

  lemma {:induction false} OriginalInserted(g: seq<Glyph>)
    requires forall i :: 0 <= i < |g| ==> g[i].inserted
    ensures Original(g) == []
    decreases |g|
  {
    if g != [] {
      OriginalInserted(g[1..]);
    }
  }

  lemma {:induction false} OriginalSource(s: string)
    ensures Original(Source(s)) == s
    decreases |s|
  {
    if s != [] {
      assert Source(s)[1..] == Source(s[1..]);
      OriginalSource(s[1..]);
    }
  }

  /** `Mark`, on glyphs: the matched glyphs between an opening and a closing tag, both inserted. */
  function MarkGlyphs(open: string, matched: seq<Glyph>): seq<Glyph> {
    Markup(open) + matched + Markup(CloseTag)
  }

  /** `ReplaceAll`, on glyphs: the same matching on the characters, with the tags marked as inserted. */
  function TrackedReplaceAll(g: seq<Glyph>, p: string, open: string): (r: seq<Glyph>)
    requires p != []
    decreases |g|
  {
    if g == [] then []
    else if MatchesAt(Chars(g), 0, p) then MarkGlyphs(open, g[..|p|]) + TrackedReplaceAll(g[|p|..], p, open)
    else [g[0]] + TrackedReplaceAll(g[1..], p, open)
  }

  lemma CharsAppend(a: seq<Glyph>, b: seq<Glyph>)
    ensures Chars(a + b) == Chars(a) + Chars(b)
  {
  }

  lemma CharsSlices(g: seq<Glyph>, n: int)
    requires 0 <= n <= |g|
    ensures Chars(g[..n]) == Chars(g)[..n] && Chars(g[n..]) == Chars(g)[n..]
  {
  }

  /** The marked glyphs spell the marked characters. */
  lemma CharsMarked(open: string, matched: seq<Glyph>)
    ensures Chars(MarkGlyphs(open, matched)) == Mark(open, Chars(matched))
  {
    CharsAppend(Markup(open), matched);
    CharsAppend(Markup(open) + matched, Markup(CloseTag));
  }

  /** The tracked replace spells out the plain one. */
  lemma {:induction false} TrackedReplaceAllChars(g: seq<Glyph>, p: string, open: string)
    requires p != []
    ensures Chars(TrackedReplaceAll(g, p, open)) == ReplaceAll(Chars(g), p, open)
    decreases |g|
  {
    if g != [] {
      var t := Chars(g);
      if MatchesAt(t, 0, p) {
        var rest := g[|p|..];
        TrackedReplaceAllChars(rest, p, open);
        CharsSlices(g, |p|);
        CharsMarked(open, g[..|p|]);
        CharsAppend(MarkGlyphs(open, g[..|p|]), TrackedReplaceAll(rest, p, open));
      } else {
        TrackedReplaceAllChars(g[1..], p, open);
        CharsSlices(g, 1);
        CharsAppend([g[0]], TrackedReplaceAll(g[1..], p, open));
      }
    }
  }

  /** Wrapping glyphs in inserted tags leaves their original characters alone. */
  lemma OriginalMarked(open: string, matched: seq<Glyph>)
    ensures Original(MarkGlyphs(open, matched)) == Original(matched)
  {
    var m, c := Markup(open), Markup(CloseTag);
    OriginalInserted(m);
    OriginalInserted(c);
    OriginalAppend(m, matched);
    OriginalAppend(m + matched, c);
  }

  /** The tracked replace keeps the original characters, in order. */
  lemma {:induction false} TrackedReplaceAllOriginal(g: seq<Glyph>, p: string, open: string)
    requires p != []
    ensures Original(TrackedReplaceAll(g, p, open)) == Original(g)
    decreases |g|
  {
    if g != [] {
      if MatchesAt(Chars(g), 0, p) {
        var head, rest := g[..|p|], g[|p|..];
        TrackedReplaceAllOriginal(rest, p, open);
        OriginalMarked(open, head);
        OriginalAppend(MarkGlyphs(open, head), TrackedReplaceAll(rest, p, open));
        OriginalAppend(head, rest);
        assert head + rest == g;
      } else {
        TrackedReplaceAllOriginal(g[1..], p, open);
        OriginalAppend([g[0]], TrackedReplaceAll(g[1..], p, open));
      }
    }
  }

  function TrackedApplyAll(g: seq<Glyph>, ws: seq<HighlightWord>): seq<Glyph>
    requires Phrases(ws)
    decreases |ws|
  {
    if ws == [] then g
    else
      var w := ws[|ws| - 1];
      TrackedReplaceAll(TrackedApplyAll(g, ws[..|ws| - 1]), w.word, OpenTag(w.comment.id))
  }

  lemma {:induction false} TrackedApplyAllCorrect(g: seq<Glyph>, ws: seq<HighlightWord>)
    requires Phrases(ws)
    ensures Chars(TrackedApplyAll(g, ws)) == ApplyAll(Chars(g), ws)
    ensures Original(TrackedApplyAll(g, ws)) == Original(g)
    decreases |ws|
  {
    if ws != [] {
      var w := ws[|ws| - 1];
      TrackedApplyAllCorrect(g, ws[..|ws| - 1]);
      TrackedReplaceAllChars(TrackedApplyAll(g, ws[..|ws| - 1]), w.word, OpenTag(w.comment.id));
      TrackedReplaceAllOriginal(TrackedApplyAll(g, ws[..|ws| - 1]), w.word, OpenTag(w.comment.id));
    }
  }

  /** The highlighted document with every character marked as the document's own or inserted. */
  function Provenance(doc: string): seq<Glyph> {
    if doc == [] then []
    else
      SortedPhrases(HighlightWords);
      TrackedApplyAll(Source(doc), SortByLength(HighlightWords))
  }

  /**
   * The round trip: the highlighted output is the document with characters
   * only inserted, so removing what the passes inserted gives the document
   * back, casing included.
   */
  lemma HighlightRoundTrip(doc: string)
    ensures Chars(Provenance(doc)) == Highlighted(doc)
    ensures Original(Provenance(doc)) == doc
  {
    SortedPhrases(HighlightWords);
    TrackedApplyAllCorrect(Source(doc), SortByLength(HighlightWords));
    OriginalSource(doc);
  }
}
