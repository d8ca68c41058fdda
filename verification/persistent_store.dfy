/**
  The persistent copy of the quote widget (dom-manipulation/script.js): the global list
  of quotes and the selected category, the copy of the list kept in local storage, and
  the last shown quote kept in session storage. Each storage slot is a field holding
  the decoded value; JSON text is not modelled.
 */
module PersistentQuotes {
  import opened Text
  import opened Quotes
  import opened Categories
  import opened Import

  /** The buttons generated from the quotes, after the fixed "All Categories" button:
      one per distinct category in order of first occurrence, a category called "all"
      included, and the one equal to the selected category marked. */
  function CategoryButtons(qs: seq<Quote>, current: string): (r: seq<Button>)
    ensures |r| == |DistinctCategories(qs)|
    ensures forall i | 0 <= i < |r| :: r[i].category == DistinctCategories(qs)[i]
    ensures forall i, j | 0 <= i < j < |r| :: r[i].category != r[j].category
    ensures forall i | 0 <= i < |r| :: r[i].active <==> r[i].category == current
  {
    ButtonsFor(DistinctCategories(qs), current)
  }

  /** Unlike the minimal copy, this one does not skip "all": a quote whose category is
      "all" gives a second button for the "all" selector. */
  lemma AllCategoryGetsSecondButton(qs: seq<Quote>, current: string)
    requires exists q | q in qs :: q.category == AllCategory
    ensures exists i | 0 <= i < |CategoryButtons(qs, current)| ::
      CategoryButtons(qs, current)[i].category == AllCategory
  {
    var d := DistinctCategories(qs);
    assert AllCategory in d;
    var i :| 0 <= i < |d| && d[i] == AllCategory;
    assert CategoryButtons(qs, current)[i].category == AllCategory;
  }

  class QuoteStore {
    var quotes: seq<Quote>
    var currentCategory: string
    var display: Display
    /** The 'quotes' entry of local storage. */
    var saved: Option<seq<Quote>>
    /** The 'lastQuote' entry of session storage. */
    var lastQuote: Option<Quote>

    /** Local storage holds exactly the current list. */
    predicate Persisted()
      reads this
    {
      saved == Some(quotes)
    }

    /** Page load. The stored list is used whenever one is stored, even an empty one;
        the eight default quotes only when nothing is. A quote remembered in the session
        is shown again; otherwise a random one is drawn. */
    constructor Load(stored: Option<seq<Quote>>, session: Option<Quote>, rand: real)
      requires 0.0 <= rand < 1.0
      ensures quotes == (if stored.Some? then stored.value else DefaultQuotes)
      ensures currentCategory == AllCategory
      ensures saved == stored
      ensures stored.None? ==> AllWellFormed(quotes)
      ensures session.Some? ==> display == Shown(session.value) && lastQuote == session
      ensures session.None? ==> display == DisplayOf(Pick(quotes, rand))
      ensures session.None? ==> lastQuote == Pick(quotes, rand)
    {
      quotes := if stored.Some? then stored.value else DefaultQuotes;
      currentCategory := AllCategory;
      saved := stored;
      lastQuote := session;
      display := Placeholder;
      DefaultQuotesWellFormed();
      new;
      if session.Some? {
        display := Shown(session.value);
      } else {
        ShowRandomQuote(rand);
      }
    }

    /** `saveQuotes`. */
    method SaveQuotes()
      modifies this
      ensures Persisted()
      ensures quotes == old(quotes) && currentCategory == old(currentCategory)
      ensures display == old(display) && lastQuote == old(lastQuote)
    {
      saved := Some(quotes);
    }

    /** `showRandomQuote`: draws from the quotes of the selected category. With none to
        draw from it shows the placeholder and leaves the session slot alone; otherwise
        it shows the drawn quote and remembers it in the session slot. */
    method ShowRandomQuote(rand: real)
      requires 0.0 <= rand < 1.0
      modifies this
      ensures display == DisplayOf(Pick(FilterByCategory(quotes, currentCategory), rand))
      ensures lastQuote == (if display.Shown? then Some(display.quote) else old(lastQuote))
      ensures display.Shown? ==> display.quote in quotes
      ensures display.Shown? && currentCategory != AllCategory ==> display.quote.category == currentCategory
      ensures quotes == old(quotes) && currentCategory == old(currentCategory) && saved == old(saved)
    {
      var filtered := quotes;
      if currentCategory != AllCategory {
        filtered := Matching(quotes, currentCategory);
      }
      if |filtered| == 0 {
        display := Placeholder;
        return;
      }
      var randomIndex := PickIndex(rand, |filtered|);
      var randomQuote := filtered[randomIndex];
      display := Shown(randomQuote);
      lastQuote := Some(randomQuote);
      PickRespectsFilter(quotes, currentCategory, rand);
    }

    /** `addQuote`: rejects the form when the trimmed text or category is empty and
        changes nothing; otherwise appends the trimmed record and saves the list. */
    method AddQuote(text: string, category: string) returns (added: bool)
      modifies this
      ensures added <==> !AllWhitespace(text) && !AllWhitespace(category)
      ensures !added ==> quotes == old(quotes) && saved == old(saved)
      ensures added ==> quotes == old(quotes) + [Quote(Trim(text), Trim(category))] && Persisted()
      ensures AllWellFormed(old(quotes)) ==> AllWellFormed(quotes)
      ensures currentCategory == old(currentCategory)
      ensures display == old(display) && lastQuote == old(lastQuote)
    {
      var quoteText := Trim(text);
      var quoteCategory := Trim(category);
      if quoteText == [] || quoteCategory == [] {
        return false;
      }
      var q := Quote(quoteText, quoteCategory);
      AppendKeepsWellFormed(quotes, q);
      quotes := quotes + [q];
      SaveQuotes();
      return true;
    }

    /** `deleteQuote`: without confirmation nothing changes. With it, the quote at
        `index` is spliced out, the list is saved and a new quote is drawn. */
    method DeleteQuote(index: int, confirmed: bool, rand: real)
      requires 0.0 <= rand < 1.0
      modifies this
      ensures !confirmed ==>
        quotes == old(quotes) && saved == old(saved) && display == old(display) && lastQuote == old(lastQuote)
      ensures confirmed ==> quotes == RemoveAt(old(quotes), index) && Persisted()
      ensures confirmed ==> display == DisplayOf(Pick(FilterByCategory(quotes, currentCategory), rand))
      ensures confirmed ==> lastQuote == (if display.Shown? then Some(display.quote) else old(lastQuote))
      ensures AllWellFormed(old(quotes)) ==> AllWellFormed(quotes)
      ensures currentCategory == old(currentCategory)
    {
      if confirmed {
        RemoveAtKeepsWellFormed(quotes, index);
        quotes := RemoveAt(quotes, index);
        SaveQuotes();
        ShowRandomQuote(rand);
      }
    }

    /** A click on a category button (or on "All Categories"): selects that category
        and draws a quote under the new filter. */
    method SelectCategory(category: string, rand: real)
      requires 0.0 <= rand < 1.0
      modifies this
      ensures currentCategory == category
      ensures display == DisplayOf(Pick(FilterByCategory(quotes, category), rand))
      ensures display.Shown? && category != AllCategory ==> display.quote.category == category
      ensures lastQuote == (if display.Shown? then Some(display.quote) else old(lastQuote))
      ensures quotes == old(quotes) && saved == old(saved)
    {
      currentCategory := category;
      ShowRandomQuote(rand);
    }

    /** `importFromJsonFile` once the file is read and parsed: every element is checked
        before any is appended, so the list either gains all of them, in order, and is
        saved, or stays as it was. */
    method ImportFromJson(file: ImportFile) returns (outcome: ImportOutcome)
      modifies this
      ensures outcome == ImportVerdict(file)
      ensures outcome.Imported? ==> quotes == old(quotes) + ToQuotes(file.items) && Persisted()
      ensures !outcome.Imported? ==> quotes == old(quotes) && saved == old(saved)
      ensures AllWellFormed(old(quotes)) ==> AllWellFormed(quotes)
      ensures currentCategory == old(currentCategory)
      ensures display == old(display) && lastQuote == old(lastQuote)
    {
      match file
      case NoFile =>
        return Skipped;
      case Unparsable =>
        return Rejected(ParseError);
      case NotAnArray =>
        return Rejected(InvalidFormat);
      case Elements(items) =>
        var ok := ValidateElements(items);
        if !ok {
          return Rejected(InvalidQuote);
        }
        var imported := ToQuotes(items);
        quotes := quotes + imported;
        SaveQuotes();
        return Imported(|items|);
    }

    /** The statistics panel for the current list. */
    function Statistics(): (s: Stats)
      reads this
      ensures s.totalQuotes == |quotes| && s.categories == |DistinctCategories(quotes)|
    {
      StatsOf(quotes)
    }
  }
}
