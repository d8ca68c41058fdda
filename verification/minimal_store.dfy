/**
  The minimal copy of the quote widget (script.js): the same list of quotes and
  selected category, kept in memory only.
 */
module MinimalQuotes {
  import opened Text
  import opened Quotes
  import opened Categories
  import PersistentQuotes

  /** The buttons generated after the fixed "All Categories" button: one per distinct
      category other than "all", in order of first occurrence, the one equal to the
      selected category marked active. */
  function CategoryButtons(qs: seq<Quote>, current: string): (r: seq<Button>)
    ensures forall i | 0 <= i < |r| :: r[i].category != AllCategory && r[i].category in DistinctCategories(qs)
    ensures forall i | 0 <= i < |r| :: r[i].category in CategoriesOf(qs)
    ensures forall q | q in qs && q.category != AllCategory :: exists i | 0 <= i < |r| :: r[i].category == q.category
    ensures forall i, j | 0 <= i < j < |r| :: r[i].category != r[j].category
    ensures forall i | 0 <= i < |r| :: r[i].active <==> r[i].category == current
    ensures forall i, j | 0 <= i < j < |r| ::
      FirstIndex(CategoriesOf(qs), r[i].category) < FirstIndex(CategoriesOf(qs), r[j].category)
  {
    var d := DistinctCategories(qs);
    var cs := Without(d, AllCategory);
    var r := ButtonsFor(cs, current);
    forall i | 0 <= i < |r|
      ensures r[i].category != AllCategory && r[i].category in DistinctCategories(qs)
    {
      assert r[i].category == cs[i] && cs[i] in cs;
    }
    forall q | q in qs && q.category != AllCategory
      ensures exists i | 0 <= i < |r| :: r[i].category == q.category
    {
      assert q.category in cs;
      var i :| 0 <= i < |cs| && cs[i] == q.category;
      assert r[i].category == q.category;
    }
    WithoutCategoryOrder(qs, AllCategory);
    r
  }

  /** The two copies build the same category buttons, except that the persistent one
      also gives a button to a category called "all". */
  lemma SameButtonsWithoutAllCategory(qs: seq<Quote>, current: string)
    requires forall q | q in qs :: q.category != AllCategory
    ensures CategoryButtons(qs, current) == PersistentQuotes.CategoryButtons(qs, current)
  {
    WithoutAbsent(DistinctCategories(qs), AllCategory);
  }

  class QuoteBoard {
    var quotes: seq<Quote>
    var currentCategory: string
    var display: Display

    /** Page load: the eight default quotes, no filter, and a random quote shown. */
    constructor (rand: real)
      requires 0.0 <= rand < 1.0
      ensures quotes == DefaultQuotes && currentCategory == AllCategory
      ensures AllWellFormed(quotes)
      ensures display == DisplayOf(Pick(DefaultQuotes, rand))
    {
      quotes := DefaultQuotes;
      currentCategory := AllCategory;
      display := Placeholder;
      DefaultQuotesWellFormed();
      new;
      ShowRandomQuote(rand);
    }

    /** `showRandomQuote`: the placeholder when no quote has the selected category,
        otherwise a quote drawn from those that have it. */
    method ShowRandomQuote(rand: real)
      requires 0.0 <= rand < 1.0
      modifies this
      ensures display == DisplayOf(Pick(FilterByCategory(quotes, currentCategory), rand))
      ensures display.Shown? ==> display.quote in quotes
      ensures display.Shown? && currentCategory != AllCategory ==> display.quote.category == currentCategory
      ensures quotes == old(quotes) && currentCategory == old(currentCategory)
    {
      var filtered := quotes;
      if currentCategory != AllCategory {
        filtered := Matching(quotes, currentCategory);
      }
      if |filtered| == 0 {
        display := Placeholder;
        return;
      }
      var randomIndex := PickIndex(rand, |filtered|);
      display := Shown(filtered[randomIndex]);
      PickRespectsFilter(quotes, currentCategory, rand);
    }

    /** `addQuote`: rejects the form when the trimmed text or category is empty;
        otherwise appends the trimmed record. */
    method AddQuote(text: string, category: string) returns (added: bool)
      modifies this
      ensures added <==> !AllWhitespace(text) && !AllWhitespace(category)
      ensures !added ==> quotes == old(quotes)
      ensures added ==> quotes == old(quotes) + [Quote(Trim(text), Trim(category))]
      ensures AllWellFormed(old(quotes)) ==> AllWellFormed(quotes)
      ensures currentCategory == old(currentCategory) && display == old(display)
    {
      var quoteText := Trim(text);
      var quoteCategory := Trim(category);
      if quoteText == [] || quoteCategory == [] {
        return false;
      }
      var q := Quote(quoteText, quoteCategory);
      AppendKeepsWellFormed(quotes, q);
      quotes := quotes + [q];
      return true;
    }

    /** `deleteQuote`: without confirmation nothing changes; with it the quote at
        `index` is spliced out and a new quote is drawn. */
    method DeleteQuote(index: int, confirmed: bool, rand: real)
      requires 0.0 <= rand < 1.0
      modifies this
      ensures !confirmed ==> quotes == old(quotes) && display == old(display)
      ensures confirmed ==> quotes == RemoveAt(old(quotes), index)
      ensures confirmed ==> display == DisplayOf(Pick(FilterByCategory(quotes, currentCategory), rand))
      ensures AllWellFormed(old(quotes)) ==> AllWellFormed(quotes)
      ensures currentCategory == old(currentCategory)
    {
      if confirmed {
        RemoveAtKeepsWellFormed(quotes, index);
        quotes := RemoveAt(quotes, index);
        ShowRandomQuote(rand);
      }
    }

    /** A click on a category button: selects its category and draws a quote under
        the new filter. */
    method SelectCategory(category: string, rand: real)
      requires 0.0 <= rand < 1.0
      modifies this
      ensures currentCategory == category && quotes == old(quotes)
      ensures display == DisplayOf(Pick(FilterByCategory(quotes, category), rand))
      ensures display.Shown? && category != AllCategory ==> display.quote.category == category
    {
      currentCategory := category;
      ShowRandomQuote(rand);
    }

    /** `updateStats`. */
    function Statistics(): (s: Stats)
      reads this
      ensures s.totalQuotes == |quotes| && s.categories == |DistinctCategories(quotes)|
    {
      StatsOf(quotes)
    }
  }
}
