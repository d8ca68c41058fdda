/**
  The quote record and the pure operations both copies of the widget perform on the
  list of quotes: building a record from the form, deleting by position, filtering by
  the selected category and picking the quote to show.
 */
module Quotes {
  import opened Text

  datatype Option<+T> = None | Some(value: T)

  /** One entry of the collection; `text` is the only thing that identifies it. */
  datatype Quote = Quote(text: string, category: string)

  /** What the quote display shows: the "No quotes available" placeholder or a quote. */
  datatype Display = Placeholder | Shown(quote: Quote)

  /** The selector value that means "no filter". */
  const AllCategory: string := "all"

  /** Both fields are non-empty, as the add form and the import check demand. */
  predicate WellFormed(q: Quote) {
    q.text != [] && q.category != []
  }

  predicate AllWellFormed(qs: seq<Quote>) {
    forall i | 0 <= i < |qs| :: WellFormed(qs[i])
  }

  /** The eight quotes the page starts with when nothing else is known. */
  const DefaultQuotes: seq<Quote> := [
    Quote("The only way to do great work is to love what you do.", "Motivation"),
    Quote("Life is what happens to you while you're busy making other plans.", "Life"),
    Quote("In the middle of difficulty lies opportunity.", "Wisdom"),
    Quote("It does not matter how slowly you go as long as you do not stop.", "Perseverance"),
    Quote("The future belongs to those who believe in the beauty of their dreams.", "Dreams"),
    Quote("Be the change that you wish to see in the world.", "Inspiration"),
    Quote("The only true wisdom is in knowing you know nothing.", "Wisdom"),
    Quote("Success is not final, failure is not fatal: it is the courage to continue that counts.", "Success")
  ]

  /** The default quotes satisfy the same rule as quotes added through the form. */
  lemma DefaultQuotesWellFormed()
    ensures AllWellFormed(DefaultQuotes)
  {
  }

  // ---------------------------------------------------------------- adding

  /** The record the add form produces from its two inputs, or None when the form is
      rejected because the trimmed text or the trimmed category is empty. */
  function NewQuote(text: string, category: string): (r: Option<Quote>)
    ensures r.Some? <==> !AllWhitespace(text) && !AllWhitespace(category)
    ensures r.Some? ==> WellFormed(r.value)
    ensures r.Some? ==> IsTrimmed(r.value.text) && IsTrimmed(r.value.category)
    ensures r.Some? ==> r.value.text == Trim(text) && r.value.category == Trim(category)
  {
    var t, c := Trim(text), Trim(category);
    if t == [] || c == [] then None else Some(Quote(t, c))
  }

  /** Re-entering a stored record, with any amount of surrounding whitespace, yields
      that same record: the form neither loses nor alters a trimmed quote. */
  lemma NewQuoteRoundTrip(q: Quote, pad1: string, pad2: string, pad3: string, pad4: string)
    requires WellFormed(q) && IsTrimmed(q.text) && IsTrimmed(q.category)
    requires AllWhitespace(pad1) && AllWhitespace(pad2) && AllWhitespace(pad3) && AllWhitespace(pad4)
    ensures NewQuote(pad1 + q.text + pad2, pad3 + q.category + pad4) == Some(q)
  {
    TrimPadded(pad1, q.text, pad2);
    TrimPadded(pad3, q.category, pad4);
  }

  // -------------------------------------------------------------- deleting

  /** Where `splice(start, 1)` starts on an array of length `len`: a negative start
      counts back from the end (clamped at 0), a large one is clamped at `len`. */
  function SpliceStart(len: nat, start: int): (k: nat)
    ensures k <= len
    ensures 0 <= start ==> (k == start || (k == len && start >= len))
    ensures start < 0 ==> (k == len + start || (k == 0 && len + start < 0))
  {
    if start < 0 then (if len + start < 0 then 0 else len + start)
    else if start < len then start
    else len
  }

  /** `quotes.splice(index, 1)`: removes at most one element. */
  function RemoveAt(qs: seq<Quote>, index: int): (r: seq<Quote>)
    ensures 0 <= index < |qs| ==> r == qs[..index] + qs[index + 1..]
    ensures index >= |qs| ==> r == qs
    ensures -|qs| <= index < 0 ==> r == qs[..|qs| + index] + qs[|qs| + index + 1..]
    ensures index < -|qs| ==> r == (if qs == [] then [] else qs[1..])
  {
    var k := SpliceStart(|qs|, index);
    if k < |qs| then qs[..k] + qs[k + 1..] else qs
  }

  /** Deleting a position that exists removes exactly that quote: the list is one
      shorter, the quotes before it stay put, those after it move up by one, and the
      quotes kept are the old ones less one copy of the deleted one. */
  lemma RemoveAtInRange(qs: seq<Quote>, index: int)
    requires 0 <= index < |qs|
    ensures |RemoveAt(qs, index)| == |qs| - 1
    ensures forall j | 0 <= j < index :: RemoveAt(qs, index)[j] == qs[j]
    ensures forall j | index <= j < |qs| - 1 :: RemoveAt(qs, index)[j] == qs[j + 1]
    ensures multiset(RemoveAt(qs, index)) + multiset{qs[index]} == multiset(qs)
  {
    var r := RemoveAt(qs, index);
    assert qs == qs[..index] + [qs[index]] + qs[index + 1..];
    assert r == qs[..index] + qs[index + 1..];
  }

  /** A delete never invents quotes, so it keeps every record well formed. */
  lemma RemoveAtKeepsWellFormed(qs: seq<Quote>, index: int)
    ensures AllWellFormed(qs) ==> AllWellFormed(RemoveAt(qs, index))
  {
  }

  /** Appending a well-formed quote keeps every record well formed. */
  lemma AppendKeepsWellFormed(qs: seq<Quote>, q: Quote)
    requires WellFormed(q)
    ensures AllWellFormed(qs) ==> AllWellFormed(qs + [q])
  {
  }

  // ------------------------------------------------------------- filtering

  /** `quotes.filter(quote => quote.category === c)`. */
  function Matching(qs: seq<Quote>, c: string): (r: seq<Quote>)
    ensures |r| <= |qs|
    ensures forall q :: q in r <==> q in qs && q.category == c
  {
    if qs == [] then []
    else (if qs[0].category == c then [qs[0]] else []) + Matching(qs[1..], c)
  }

  /** The list the random pick draws from: all quotes when the selector is "all",
      otherwise the quotes of the selected category. */
  function FilterByCategory(qs: seq<Quote>, current: string): (r: seq<Quote>)
    ensures current == AllCategory ==> r == qs
    ensures current != AllCategory ==> forall q :: q in r <==> q in qs && q.category == current
  {
    if current != AllCategory then Matching(qs, current) else qs
  }

  /** Filtering keeps the original order: it commutes with concatenation. */
  lemma {:induction false} MatchingAppend(a: seq<Quote>, b: seq<Quote>, c: string)
    ensures Matching(a + b, c) == Matching(a, c) + Matching(b, c)
  {
    if a == [] {
      assert a + b == b;
    } else {
      assert (a + b)[1..] == a[1..] + b;
      MatchingAppend(a[1..], b, c);
    }
  }

  /** Filtering keeps every copy of a matching quote and no copy of any other. */
  lemma {:induction false} MatchingCounts(qs: seq<Quote>, c: string, q: Quote)
    ensures multiset(Matching(qs, c))[q] == if q.category == c then multiset(qs)[q] else 0
  {
    if qs != [] {
      assert qs == [qs[0]] + qs[1..];
      MatchingCounts(qs[1..], c, q);
    }
  }

  /** Adding a quote extends the filtered list by that quote exactly when it matches. */
  lemma FilterAfterAppend(qs: seq<Quote>, q: Quote, current: string)
    ensures FilterByCategory(qs + [q], current)
         == FilterByCategory(qs, current) + (if current == AllCategory || q.category == current then [q] else [])
  {
    if current != AllCategory {
      MatchingAppend(qs, [q], current);
      assert Matching([q], current) == (if q.category == current then [q] else []) + Matching([], current);
    }
  }

  // --------------------------------------------------------------- picking

  /** `Math.floor(Math.random() * length)` with `rand` standing for Math.random(). */
  function PickIndex(rand: real, n: nat): (k: nat)
    requires 0.0 <= rand < 1.0 && n > 0
    ensures k < n
  {
    var x := rand * n as real;
    assert 0.0 <= x < n as real;
    x.Floor
  }

  /** Every position can be drawn: rand = k / n selects position k. */
  lemma PickIndexReaches(k: nat, n: nat)
    requires k < n
    ensures 0.0 <= k as real / n as real < 1.0
    ensures PickIndex(k as real / n as real, n) == k
  {
  }

  /** The quote showRandomQuote draws from a filtered list, or None for the
      "No quotes available" branch. */
  function Pick(filtered: seq<Quote>, rand: real): (r: Option<Quote>)
    requires 0.0 <= rand < 1.0
    ensures r.None? <==> filtered == []
    ensures r.Some? ==> r.value in filtered
  {
    if filtered == [] then None else Some(filtered[PickIndex(rand, |filtered|)])
  }

  /** What the display shows after a pick. */
  function DisplayOf(p: Option<Quote>): (d: Display)
    ensures d.Placeholder? <==> p.None?
    ensures d.Shown? ==> d.quote == p.value
  {
    if p.Some? then Shown(p.value) else Placeholder
  }

  /** A drawn quote is one of the stored quotes and belongs to the selected category
      unless the selector is "all"; nothing is drawn only when no quote matches. */
  lemma PickRespectsFilter(qs: seq<Quote>, current: string, rand: real)
    requires 0.0 <= rand < 1.0
    ensures Pick(FilterByCategory(qs, current), rand).None?
        <==> forall q | q in qs :: current != AllCategory && q.category != current
    ensures Pick(FilterByCategory(qs, current), rand).Some? ==>
        var q := Pick(FilterByCategory(qs, current), rand).value;
        q in qs && (current != AllCategory ==> q.category == current)
  {
  }

  /** Every quote of the filtered list can be the one shown. */
  lemma PickCovers(filtered: seq<Quote>, k: nat)
    requires k < |filtered|
    ensures 0.0 <= k as real / |filtered| as real < 1.0
    ensures Pick(filtered, k as real / |filtered| as real) == Some(filtered[k])
  {
    PickIndexReaches(k, |filtered|);
  }
}
