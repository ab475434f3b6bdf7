/** The "합본 보기" dialog of a completed story,
    components/posts/FullStoryView.tsx: the paragraphs, sorted in place by
    turn number, and their contents joined by a blank line. */
module FullStoryView {
  import opened Common
  import opened Types

  predicate SortedByTurn(s: seq<Paragraph>) {
    forall i, j :: 0 <= i < j < |s| ==> s[i].turnNumber <= s[j].turnNumber
  }

  /** `.map((p) => p.content)` */
  function Contents(s: seq<Paragraph>): (r: seq<string>)
    ensures |r| == |s| && forall k :: 0 <= k < |s| ==> r[k] == s[k].content
  {
    if s == [] then [] else [s[0].content] + Contents(s[1..])
  }

  lemma {:induction false} ContentsAppend(s: seq<Paragraph>, t: seq<Paragraph>)
    ensures Contents(s + t) == Contents(s) + Contents(t)
  {
    var whole, parts := Contents(s + t), Contents(s) + Contents(t);
    forall k | 0 <= k < |whole| ensures whole[k] == parts[k] {
      if k < |s| {
        assert (s + t)[k] == s[k];
      } else {
        assert (s + t)[k] == t[k - |s|];
      }
    }
  }

  /** Taking out the paragraph at `i` takes out its content. */
  lemma {:induction false} ContentsRemove(t: seq<Paragraph>, i: nat)
    requires i < |t|
    ensures multiset(Contents(t)) == multiset(Contents(t[..i] + t[i + 1..])) + multiset{t[i].content}
  {
    var front, back := t[..i], t[i + 1..];
    assert t == front + ([t[i]] + back);
    ContentsAppend(front, [t[i]] + back);
    assert ([t[i]] + back)[1..] == back;
    assert Contents([t[i]] + back) == [t[i].content] + Contents(back);
    ContentsAppend(front, back);
  }

  /** Both sides of a permutation lose the same paragraph. */
  lemma {:induction false} RemoveMatching(s: seq<Paragraph>, t: seq<Paragraph>, i: nat)
    requires multiset(s) == multiset(t) && s != [] && i < |t| && t[i] == s[0]
    ensures multiset(s[1..]) == multiset(t[..i] + t[i + 1..])
  {
    MultisetWithout(t, i);
    MultisetWithout(s, 0);
    assert s[..0] + s[1..] == s[1..];
    MultisetCancel(multiset(s[1..]), multiset(t[..i] + t[i + 1..]), s[0]);
  }

  lemma {:induction false} MultisetWithout<T>(t: seq<T>, i: nat)
    requires i < |t|
    ensures multiset(t) == multiset(t[..i] + t[i + 1..]) + multiset{t[i]}
  {
    assert t == t[..i] + [t[i]] + t[i + 1..];
  }

  lemma {:induction false} MultisetCancel<T>(a: multiset<T>, b: multiset<T>, x: T)
    requires a + multiset{x} == b + multiset{x}
    ensures a == b
  {
    forall y ensures a[y] == b[y] {
      assert (a + multiset{x})[y] == (b + multiset{x})[y];
    }
  }

  /** Paragraphs that are a permutation of each other have contents that
      are a permutation of each other. */
  lemma {:induction false} ContentsPermutation(s: seq<Paragraph>, t: seq<Paragraph>)
    requires multiset(s) == multiset(t)
    ensures multiset(Contents(s)) == multiset(Contents(t))
    decreases |s|
  {
    if s != [] {
      assert s[0] in multiset(t);
      var i :| 0 <= i < |t| && t[i] == s[0];
      RemoveMatching(s, t, i);
      ContentsPermutation(s[1..], t[..i] + t[i + 1..]);
      ContentsRemove(t, i);
      assert Contents(s) == [s[0].content] + Contents(s[1..]);
    }
  }

  /** `paragraphs.sort((a, b) => a.turnNumber - b.turnNumber)`, in place, as
      an insertion sort that moves a paragraph left only past a strictly
      larger turn number. */
  method SortByTurn(a: array<Paragraph>)
    modifies a
    ensures SortedByTurn(a[..])
    ensures multiset(a[..]) == multiset(old(a[..]))
  {
    var i := 0;
    while i < a.Length
      invariant 0 <= i <= a.Length
      invariant SortedByTurn(a[..i])
      invariant multiset(a[..]) == multiset(old(a[..]))
    {
      Insert(a, i);
      i := i + 1;
    }
    assert a[..a.Length] == a[..];
  }

  /** While the paragraph that started at `i` sits at `j`: every other pair
      up to `i` is in order, and it is no larger than anything after it. */
  predicate Inserting(s: seq<Paragraph>, i: nat, j: nat)
    requires j <= i < |s|
  {
    && (forall k, l :: 0 <= k < l <= i && k != j && l != j ==> s[k].turnNumber <= s[l].turnNumber)
    && (forall l :: j < l <= i ==> s[j].turnNumber <= s[l].turnNumber)
  }

  lemma {:induction false} InsertStarts(s: seq<Paragraph>, i: nat)
    requires i < |s| && SortedByTurn(s[..i])
    ensures Inserting(s, i, i)
  {
    forall k, l | 0 <= k < l <= i && k != i && l != i ensures s[k].turnNumber <= s[l].turnNumber {
      assert s[..i][k] == s[k] && s[..i][l] == s[l];
    }
  }

  lemma {:induction false} InsertSwaps(s: seq<Paragraph>, i: nat, j: nat)
    requires 0 < j <= i < |s| && Inserting(s, i, j) && s[j - 1].turnNumber > s[j].turnNumber
    ensures Inserting(s[j - 1 := s[j]][j := s[j - 1]], i, j - 1)
  {
  }

  lemma {:induction false} InsertEnds(s: seq<Paragraph>, i: nat, j: nat)
    requires j <= i < |s| && Inserting(s, i, j) && (j == 0 || s[j - 1].turnNumber <= s[j].turnNumber)
    ensures SortedByTurn(s[..i + 1])
  {
    forall k, l | 0 <= k < l <= i ensures s[k].turnNumber <= s[l].turnNumber {
      if l == j {
        assert s[k].turnNumber <= s[j - 1].turnNumber <= s[j].turnNumber;
      }
    }
  }

  /** One step of the sort: the paragraph at `i` moves left into the
      sorted prefix before it. */
  method Insert(a: array<Paragraph>, i: nat)
    requires i < a.Length && SortedByTurn(a[..i])
    modifies a
    ensures SortedByTurn(a[..i + 1])
    ensures multiset(a[..]) == multiset(old(a[..]))
  {
    var j := i;
    InsertStarts(a[..], i);
    while j > 0 && a[j - 1].turnNumber > a[j].turnNumber
      invariant 0 <= j <= i
      invariant multiset(a[..]) == multiset(old(a[..]))
      invariant Inserting(a[..], i, j)
    {
      InsertSwaps(a[..], i, j);
      a[j - 1], a[j] := a[j], a[j - 1];
      j := j - 1;
    }
    InsertEnds(a[..], i, j);
  }

  /** `fullText`: the array ends up sorted by turn number (a permutation of
      what it held), and the text is its contents in that order, joined by
      a blank line; no paragraphs give "". */
  method FullText(paragraphs: array<Paragraph>) returns (text: string)
    modifies paragraphs
    ensures SortedByTurn(paragraphs[..]) && multiset(paragraphs[..]) == multiset(old(paragraphs[..]))
    ensures text == Join(Contents(paragraphs[..]), "\n\n")
    ensures multiset(Contents(paragraphs[..])) == multiset(Contents(old(paragraphs[..])))
    ensures paragraphs.Length == 0 ==> text == ""
  {
    ghost var before := paragraphs[..];
    SortByTurn(paragraphs);
    ContentsPermutation(paragraphs[..], before);
    text := Join(Contents(paragraphs[..]), "\n\n");
  }
}
