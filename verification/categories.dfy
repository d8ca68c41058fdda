/**
  The category list both copies derive from the quotes with
  `[...new Set(quotes.map(quote => quote.category))]`, the statistics panel and the
  category buttons built from that list.
 */
module Categories {
  import opened Quotes

  /** `quotes.map(quote => quote.category)`. */
  function CategoriesOf(qs: seq<Quote>): (cs: seq<string>)
    ensures |cs| == |qs|
    ensures forall i | 0 <= i < |qs| :: cs[i] == qs[i].category
  {
    seq(|qs|, i requires 0 <= i < |qs| => qs[i].category)
  }

  predicate NoDuplicates(s: seq<string>) {
    forall i, j | 0 <= i < j < |s| :: s[i] != s[j]
  }

  /** Position of the first occurrence of `x` in `cs`. */
  function FirstIndex(cs: seq<string>, x: string): (k: nat)
    requires x in cs
    ensures k < |cs| && cs[k] == x && x !in cs[..k]
  {
    if cs[0] == x then 0
    else
      assert cs == [cs[0]] + cs[1..];
      var k := 1 + FirstIndex(cs[1..], x);
      assert cs[..k] == [cs[0]] + cs[1..][..k - 1];
      k
  }

  /** The elements of `cs` in the order a JavaScript Set enumerates them: each value
      once, at the place where it was first inserted. */
  function Dedup(cs: seq<string>): (r: seq<string>)
    ensures forall x :: x in r <==> x in cs
    ensures NoDuplicates(r)
  {
    if cs == [] then []
    else
      var d := Dedup(cs[..|cs| - 1]);
      var last := cs[|cs| - 1];
      assert cs == cs[..|cs| - 1] + [last];
      if last in d then d else d + [last]
  }

  /** The categories of the collection, each once, in order of first occurrence. */
  function DistinctCategories(qs: seq<Quote>): (r: seq<string>)
    ensures forall c :: c in r <==> exists q | q in qs :: q.category == c
    ensures forall c | c in r :: c in CategoriesOf(qs)
    ensures NoDuplicates(r)
  {
    var cs := CategoriesOf(qs);
    assert forall c :: c in cs <==> exists q | q in qs :: q.category == c by {
      forall c | c in cs ensures exists q | q in qs :: q.category == c {
        var i :| 0 <= i < |cs| && cs[i] == c;
        assert qs[i] in qs;
      }
      forall c | exists q | q in qs :: q.category == c ensures c in cs {
        var q :| q in qs && q.category == c;
        var i :| 0 <= i < |qs| && qs[i] == q;
        assert cs[i] == c;
      }
    }
    Dedup(cs)
  }

  lemma FirstIndexOfPrefix(cs: seq<string>, n: nat, x: string)
    requires n <= |cs| && x in cs[..n]
    ensures FirstIndex(cs, x) == FirstIndex(cs[..n], x)
  {
  }

  /** The Set keeps first-occurrence order: an earlier entry of the list was first
      seen earlier in the collection. */
  lemma {:induction false} DedupFirstOccurrenceOrder(cs: seq<string>)
    ensures forall i, j | 0 <= i < j < |Dedup(cs)| ::
      FirstIndex(cs, Dedup(cs)[i]) < FirstIndex(cs, Dedup(cs)[j])
  {
    if cs != [] {
      var n := |cs| - 1;
      var init := cs[..n];
      var last := cs[n];
      var d := Dedup(init);
      DedupFirstOccurrenceOrder(init);
      assert cs == init + [last];
      forall x | x in d ensures x in cs && FirstIndex(cs, x) == FirstIndex(init, x) < n {
        FirstIndexOfPrefix(cs, n, x);
      }
      if last !in d {
        assert last !in cs[..n];
        assert FirstIndex(cs, last) == n;
      }
    }
  }

  /** The category list in terms of the quotes: every category appears once, and for
      any two entries the first quote carrying the earlier one comes first. */
  lemma DistinctCategoriesOrder(qs: seq<Quote>)
    ensures forall i, j | 0 <= i < j < |DistinctCategories(qs)| ::
      FirstIndex(CategoriesOf(qs), DistinctCategories(qs)[i])
        < FirstIndex(CategoriesOf(qs), DistinctCategories(qs)[j])
  {
    DedupFirstOccurrenceOrder(CategoriesOf(qs));
  }

  /** Adding a quote adds its category at the end of the list if it is new, and leaves
      the list as it was otherwise. */
  lemma DistinctCategoriesAfterAppend(qs: seq<Quote>, q: Quote)
    ensures DistinctCategories(qs + [q]) ==
      if q.category in DistinctCategories(qs) then DistinctCategories(qs)
      else DistinctCategories(qs) + [q.category]
  {
    var cs := CategoriesOf(qs + [q]);
    assert cs[..|cs| - 1] == CategoriesOf(qs);
  }

  /** A list without duplicates has as many entries as its set of values. */
  lemma {:induction false} NoDuplicatesCard(s: seq<string>)
    requires NoDuplicates(s)
    ensures |set x | x in s| == |s|
  {
    if s != [] {
      var init := s[..|s| - 1];
      var last := s[|s| - 1];
      assert s == init + [last];
      NoDuplicatesCard(init);
      assert last !in init;
      assert (set x | x in s) == (set x | x in init) + {last};
    }
  }

  /** The two numbers of the statistics panel. */
  datatype Stats = Stats(totalQuotes: nat, categories: nat)

  /** `updateStats`: the number of quotes, and the size of the Set of their categories,
      which is the length of the category list (the number of generated buttons in the
      persistent copy; the minimal copy gives a category "all" no button). */
  function StatsOf(qs: seq<Quote>): (s: Stats)
    ensures s.totalQuotes == |qs|
    ensures s.categories == |DistinctCategories(qs)|
  {
    var d := DistinctCategories(qs);
    NoDuplicatesCard(d);
    assert (set q | q in qs :: q.category) == (set x | x in d);
    Stats(|qs|, |set q | q in qs :: q.category|)
  }

  /** A category button: its `data-category` and whether it is marked active. */
  datatype Button = Button(category: string, active: bool)

  /** One button per entry of `cs`, in order, the one equal to `current` marked. */
  function ButtonsFor(cs: seq<string>, current: string): (r: seq<Button>)
    ensures |r| == |cs|
    ensures forall i | 0 <= i < |r| :: r[i].category == cs[i] && (r[i].active <==> cs[i] == current)
  {
    seq(|cs|, i requires 0 <= i < |cs| => Button(cs[i], cs[i] == current))
  }

  /** `cs` without the entries equal to `x`, in order. */
  function Without(cs: seq<string>, x: string): (r: seq<string>)
    ensures forall y :: y in r <==> y in cs && y != x
    ensures NoDuplicates(cs) ==> NoDuplicates(r)
  {
    if cs == [] then []
    else
      var rest := Without(cs[1..], x);
      assert NoDuplicates(cs) ==> cs[0] !in cs[1..];
      if cs[0] == x then rest else [cs[0]] + rest
  }

  /** Removing a value that is not there changes nothing. */
  lemma {:induction false} WithoutAbsent(cs: seq<string>, x: string)
    requires x !in cs
    ensures Without(cs, x) == cs
  {
    if cs != [] {
      WithoutAbsent(cs[1..], x);
      assert cs == [cs[0]] + cs[1..];
    }
  }

  /** In a list without duplicates, a value found after the head sits one place
      further on than in the tail. */
  lemma FirstIndexPastHead(cs: seq<string>, y: string)
    requires NoDuplicates(cs) && cs != [] && y in cs[1..]
    ensures y in cs && FirstIndex(cs, y) == 1 + FirstIndex(cs[1..], y)
  {
    var k :| 0 <= k < |cs| - 1 && cs[1..][k] == y;
    assert cs[k + 1] == y && cs[0] != y;
  }

  /** Skipping a value keeps the relative order of the values kept. */
  lemma {:induction false} WithoutKeepsOrder(cs: seq<string>, x: string)
    requires NoDuplicates(cs)
    ensures forall i, j | 0 <= i < j < |Without(cs, x)| ::
      FirstIndex(cs, Without(cs, x)[i]) < FirstIndex(cs, Without(cs, x)[j])
  {
    if cs != [] {
      var tail := cs[1..];
      var rest := Without(tail, x);
      var r := Without(cs, x);
      assert NoDuplicates(tail);
      WithoutKeepsOrder(tail, x);
      var skip := if cs[0] == x then 0 else 1;
      assert r == (if cs[0] == x then [] else [cs[0]]) + rest;
      forall i, j | 0 <= i < j < |r| ensures FirstIndex(cs, r[i]) < FirstIndex(cs, r[j]) {
        assert r[j] == rest[j - skip] && rest[j - skip] in tail;
        FirstIndexPastHead(cs, r[j]);
        if i >= skip {
          assert r[i] == rest[i - skip] && rest[i - skip] in tail;
          FirstIndexPastHead(cs, r[i]);
        }
      }
    }
  }

  /** The category list with one category skipped is still in order of first
      occurrence in the collection. */
  lemma WithoutCategoryOrder(qs: seq<Quote>, x: string)
    ensures forall c | c in Without(DistinctCategories(qs), x) :: c in CategoriesOf(qs)
    ensures forall i, j | 0 <= i < j < |Without(DistinctCategories(qs), x)| ::
      FirstIndex(CategoriesOf(qs), Without(DistinctCategories(qs), x)[i])
        < FirstIndex(CategoriesOf(qs), Without(DistinctCategories(qs), x)[j])
  {
    var d := DistinctCategories(qs);
    var w := Without(d, x);
    WithoutKeepsOrder(d, x);
    DistinctCategoriesOrder(qs);
    forall i, j | 0 <= i < j < |w|
      ensures FirstIndex(CategoriesOf(qs), w[i]) < FirstIndex(CategoriesOf(qs), w[j])
    {
      var a, b := FirstIndex(d, w[i]), FirstIndex(d, w[j]);
      assert a < b && d[a] == w[i] && d[b] == w[j];
    }
  }
}
