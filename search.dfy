/**
 * The home page's catalogue search (src/pages/Index.tsx): the list of
 * experiences is filtered by a case-insensitive substring match of the
 * search term against title, location and category.
 */
module Catalogue {
  import opened Records
  import opened Text

  /** The filter's predicate: the lower-cased term occurs in the lower-cased title, location or category. */
  predicate Matches(e: Experience, term: string) {
    var t := ToLower(term);
    Contains(ToLower(e.title), t) || Contains(ToLower(e.location), t) || Contains(ToLower(e.category), t)
  }

  /** `a` can be obtained from `b` by deleting elements, keeping the order of the rest. */
  predicate IsSubsequence<T(==)>(a: seq<T>, b: seq<T>)
    decreases |b|
  {
    if b == [] then a == []
    else (a != [] && a[0] == b[0] && IsSubsequence(a[1..], b[1..])) || IsSubsequence(a, b[1..])
  }

  /**
   * `experiences.filter(...)`: keeps exactly the experiences that match,
   * every copy of them, in their original order.
   */
  function Search(xs: seq<Experience>, term: string): (r: seq<Experience>)
    ensures |r| <= |xs|
    ensures IsSubsequence(r, xs)
    ensures forall e :: e in r <==> e in xs && Matches(e, term)
    ensures forall e :: multiset(r)[e] == if Matches(e, term) then multiset(xs)[e] else 0
  {
    if xs == [] then []
    else
      var rest := Search(xs[1..], term);
      assert xs == [xs[0]] + xs[1..];
      if Matches(xs[0], term) then
        assert ([xs[0]] + rest)[1..] == rest;
        [xs[0]] + rest
      else
        rest
  }

  /** The empty term matches every experience, so the list is shown unfiltered. */
  lemma {:induction false} SearchEmptyTermKeepsAll(xs: seq<Experience>)
    ensures Search(xs, "") == xs
  {
    if xs != [] {
      ContainsEmpty(ToLower(xs[0].title));
      SearchEmptyTermKeepsAll(xs[1..]);
    }
  }

  /** Two search terms that differ only in the case of their letters select the same experiences. */
  lemma {:induction false} SearchIgnoresCase(xs: seq<Experience>, term: string, term': string)
    requires SameIgnoringCase(term, term')
    ensures Search(xs, term) == Search(xs, term')
  {
    ToLowerEqualIffSameIgnoringCase(term, term');
    if xs != [] {
      SearchIgnoresCase(xs[1..], term, term');
    }
  }

  /** In particular, typing the term in capitals changes nothing. */
  lemma SearchUpperCaseTerm(xs: seq<Experience>, term: string)
    ensures Search(xs, ToUpper(term)) == Search(xs, term)
  {
    ToUpperSameIgnoringCase(term);
    SearchIgnoresCase(xs, ToUpper(term), term);
  }

  /** An experience that matches a longer term also matches the term it extends. */
  lemma MatchesExtendedTerm(e: Experience, term: string, more: string)
    requires Matches(e, term + more)
    ensures Matches(e, term)
  {
    ToLowerAppend(term, more);
    var t, m := ToLower(term), ToLower(more);
    if Contains(ToLower(e.title), t + m) {
      ContainsPrefixOfTerm(ToLower(e.title), t, m);
    } else if Contains(ToLower(e.location), t + m) {
      ContainsPrefixOfTerm(ToLower(e.location), t, m);
    } else {
      ContainsPrefixOfTerm(ToLower(e.category), t, m);
    }
  }

  /**
   * Typing more characters only narrows the result: the result for the
   * extended term is a subsequence of the result for the shorter one.
   */
  lemma {:induction false} SearchNarrowsAsTermGrows(xs: seq<Experience>, term: string, more: string)
    ensures IsSubsequence(Search(xs, term + more), Search(xs, term))
  {
    if xs != [] {
      SearchNarrowsAsTermGrows(xs[1..], term, more);
      var a, b := Search(xs[1..], term + more), Search(xs[1..], term);
      if Matches(xs[0], term + more) {
        MatchesExtendedTerm(xs[0], term, more);
        assert ([xs[0]] + a)[1..] == a && ([xs[0]] + b)[1..] == b;
      } else if Matches(xs[0], term) {
        assert ([xs[0]] + b)[1..] == b;
      }
    }
  }

  /** The "Clear Search" button: the term becomes empty and every experience is listed again. */
  function ClearSearch(): (term: string)
    ensures forall xs :: Search(xs, term) == xs
  {
    forall xs ensures Search(xs, "") == xs {
      SearchEmptyTermKeepsAll(xs);
    }
    ""
  }
}
