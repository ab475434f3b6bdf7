/** The author search of components/posts/PopularAuthors.tsx: the list of
    popular authors narrowed to those whose name contains the query, both
    lower-cased. */
module PopularAuthors {
  import opened Common
  import opened Types

  predicate NameMatches(author: PopularAuthor, q: string) {
    Includes(ToLower(author.name), q)
  }

  /** `authors.filter((author) => author.name.toLowerCase().includes(q))` */
  function Matching(authors: seq<PopularAuthor>, q: string): (r: seq<PopularAuthor>)
    ensures forall a :: a in r <==> a in authors && NameMatches(a, q)
    ensures |r| <= |authors|
  {
    if authors == [] then []
    else (if NameMatches(authors[0], q) then [authors[0]] else []) + Matching(authors[1..], q)
  }

  /** `xs` is `ys` with some entries left out, the rest in order. */
  predicate IsSubsequence(xs: seq<PopularAuthor>, ys: seq<PopularAuthor>)
    decreases |ys|
  {
    xs == [] || (ys != [] && ((xs[0] == ys[0] && IsSubsequence(xs[1..], ys[1..])) || IsSubsequence(xs, ys[1..])))
  }

  lemma {:induction false} SubsequenceOfItself(xs: seq<PopularAuthor>)
    ensures IsSubsequence(xs, xs)
    decreases |xs|
  {
    if xs != [] {
      SubsequenceOfItself(xs[1..]);
    }
  }

  /** The matches keep the order of the list, and each author occurs among
      them exactly as often as in the list when the name matches, and not
      at all otherwise. */
  lemma {:induction false} MatchingKeepsOrder(authors: seq<PopularAuthor>, q: string)
    ensures IsSubsequence(Matching(authors, q), authors)
    ensures forall a :: multiset(Matching(authors, q))[a] == if NameMatches(a, q) then multiset(authors)[a] else 0
  {
    MatchingIsSubsequence(authors, q);
    MatchingCounts(authors, q);
  }

  lemma {:induction false} MatchingIsSubsequence(authors: seq<PopularAuthor>, q: string)
    ensures IsSubsequence(Matching(authors, q), authors)
    decreases |authors|
  {
    if authors != [] {
      MatchingIsSubsequence(authors[1..], q);
      var rest := Matching(authors[1..], q);
      if NameMatches(authors[0], q) {
        assert Matching(authors, q) == [authors[0]] + rest;
        assert Matching(authors, q)[1..] == rest;
      } else {
        assert Matching(authors, q) == rest;
      }
    }
  }

  lemma {:induction false} MatchingCounts(authors: seq<PopularAuthor>, q: string)
    ensures forall a :: multiset(Matching(authors, q))[a] == if NameMatches(a, q) then multiset(authors)[a] else 0
    decreases |authors|
  {
    if authors != [] {
      MatchingCounts(authors[1..], q);
      var x := authors[0];
      var head := if NameMatches(x, q) then [x] else [];
      var rest := Matching(authors[1..], q);
      assert authors == [x] + authors[1..];
      assert multiset(authors) == multiset{x} + multiset(authors[1..]);
      assert Matching(authors, q) == head + rest;
      assert multiset(Matching(authors, q)) == multiset(head) + multiset(rest);
    }
  }

  /** `filteredAuthors`: the query is lower-cased and then trimmed; a blank
      query keeps the whole list. */
  function FilteredAuthors(authors: seq<PopularAuthor>, searchQuery: string): (r: seq<PopularAuthor>)
    ensures Trim(ToLower(searchQuery)) == "" ==> r == authors
    ensures Trim(ToLower(searchQuery)) != "" ==>
      forall a :: a in r <==> a in authors && NameMatches(a, Trim(ToLower(searchQuery)))
  {
    var q := Trim(ToLower(searchQuery));
    if q == "" then authors else Matching(authors, q)
  }

  /** The result is always the list with some authors left out, in order. */
  lemma {:induction false} FilteredIsSubsequence(authors: seq<PopularAuthor>, searchQuery: string)
    ensures IsSubsequence(FilteredAuthors(authors, searchQuery), authors)
  {
    if Trim(ToLower(searchQuery)) == "" {
      SubsequenceOfItself(authors);
    } else {
      MatchingKeepsOrder(authors, Trim(ToLower(searchQuery)));
    }
  }

  /** "작가를 찾을 수 없습니다" shows exactly when there are no authors, or
      the query is not blank and no author's name contains it. */
  lemma {:induction false} EmptyStateWhenNoMatch(authors: seq<PopularAuthor>, searchQuery: string)
    ensures var q := Trim(ToLower(searchQuery));
      FilteredAuthors(authors, searchQuery) == [] <==>
        authors == [] || (q != "" && forall a :: a in authors ==> !NameMatches(a, q))
  {
    var r := FilteredAuthors(authors, searchQuery);
    if r != [] {
      assert r[0] in r;
    }
  }
}
