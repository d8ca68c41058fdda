/**
  The "Import Quotes" file, already read and decoded, and the check the persistent copy
  runs over it before it appends anything.
 */
module Import {
  import opened Quotes

  /** One element of the decoded array. `Record` is a JSON object; each field is None
      when it is missing, null or undefined. Any other JSON value (null, a number, a
      string, an array) is `NotARecord`: reading `.text` of it gives undefined or
      throws, and either way the import is refused. */
  datatype Element = NotARecord | Record(text: Option<string>, category: Option<string>)

  /** What the file input delivers: no file chosen, a file JSON.parse rejects, a value
      that is not an array, or an array. */
  datatype ImportFile = NoFile | Unparsable | NotAnArray | Elements(items: seq<Element>)

  /** Why the import failed: JSON.parse threw, the value is not an array, or an element
      lacks a truthy text or category. A null or undefined element makes the check
      itself throw a TypeError, whose message differs from the invalid-quote one; the
      model files that case under `InvalidQuote` too, since the list is left unchanged
      either way. */
  datatype ImportError = ParseError | InvalidFormat | InvalidQuote

  datatype ImportOutcome = Skipped | Imported(count: nat) | Rejected(error: ImportError)

  /** JavaScript truthiness of a string field: present and not empty. */
  predicate Truthy(f: Option<string>) {
    f.Some? && f.value != ""
  }

  /** `quote.text && quote.category`. */
  predicate ValidElement(e: Element) {
    e.Record? && Truthy(e.text) && Truthy(e.category)
  }

  predicate AllValid(items: seq<Element>) {
    forall i | 0 <= i < |items| :: ValidElement(items[i])
  }

  /** The record an accepted element becomes: its fields, untrimmed. */
  function ToQuote(e: Element): (q: Quote)
    requires ValidElement(e)
    ensures WellFormed(q)
  {
    Quote(e.text.value, e.category.value)
  }

  /** The quotes an accepted array appends, element by element, in order. */
  function ToQuotes(items: seq<Element>): (qs: seq<Quote>)
    requires AllValid(items)
    ensures |qs| == |items|
    ensures forall i | 0 <= i < |items| :: qs[i] == ToQuote(items[i])
    ensures AllWellFormed(qs)
  {
    seq(|items|, i requires 0 <= i < |items| && AllValid(items) => ToQuote(items[i]))
  }

  /** The `for...of` check: stops at the first element without a text or a category. */
  method ValidateElements(items: seq<Element>) returns (ok: bool)
    ensures ok <==> AllValid(items)
  {
    var i := 0;
    while i < |items|
      invariant 0 <= i <= |items|
      invariant forall j | 0 <= j < i :: ValidElement(items[j])
    {
      if !ValidElement(items[i]) {
        return false;
      }
      i := i + 1;
    }
    return true;
  }

  /** The outcome of importing `file`: all or nothing. Only an array whose every
      element has both fields is imported, and then all of it. */
  function ImportVerdict(file: ImportFile): (o: ImportOutcome)
    ensures o.Imported? <==> file.Elements? && AllValid(file.items)
    ensures o.Imported? ==> o.count == |file.items|
    ensures o == Skipped <==> file == NoFile
    ensures o == Rejected(ParseError) <==> file == Unparsable
    ensures o == Rejected(InvalidFormat) <==> file == NotAnArray
  {
    match file
    case NoFile => Skipped
    case Unparsable => Rejected(ParseError)
    case NotAnArray => Rejected(InvalidFormat)
    case Elements(items) => if AllValid(items) then Imported(|items|) else Rejected(InvalidQuote)
  }

  /** One bad element anywhere rejects the whole file, however many good ones surround it. */
  lemma OneBadElementRejects(before: seq<Element>, bad: Element, after: seq<Element>)
    requires !ValidElement(bad)
    ensures ImportVerdict(Elements(before + [bad] + after)) == Rejected(InvalidQuote)
  {
    assert (before + [bad] + after)[|before|] == bad;
  }
}
