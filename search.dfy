/**
 * The site search's own logic: the `sortMiddleware` comparator handed to the search library and
 * the `input` listener that decides, from the trimmed query, whether to clear the results, ask
 * for a longer query, or schedule a search. The library's matching and rendering are not part
 * of this model; titles and queries are taken as already lower-cased and dates as numbers.
 */
module Search {
  import opened Wrappers
  import opened Strings

  // ---------------------------------------------------------------------------
  // sortMiddleware

  /** A search result as the comparator sees it; `query` is the optional `query` property. */
  datatype Entry = Entry(title: string, date: int, query: Option<string>)

  /** A JavaScript value that is a non-empty string is truthy. */
  predicate Truthy(q: Option<string>) {
    q.Some? && q.value != ""
  }

  /** `a.query || b.query || ''`. */
  function EffectiveQuery(a: Entry, b: Entry): (q: string)
    ensures Truthy(a.query) ==> q == a.query.value
    ensures !Truthy(a.query) && Truthy(b.query) ==> q == b.query.value
    ensures !Truthy(a.query) && !Truthy(b.query) ==> q == ""
  {
    if Truthy(a.query) then a.query.value else if Truthy(b.query) then b.query.value else ""
  }

  predicate TitleMatches(e: Entry, q: string) {
    Contains(e.title, q)
  }

  /**
   * sortMiddleware(a, b): negative when `a` goes first. A title match goes first; among entries
   * that both match or both do not, the newer date goes first.
   */
  function Compare(a: Entry, b: Entry): (r: int)
    ensures var q := EffectiveQuery(a, b);
      && (TitleMatches(a, q) && !TitleMatches(b, q) ==> r == -1)
      && (!TitleMatches(a, q) && TitleMatches(b, q) ==> r == 1)
      && (TitleMatches(a, q) == TitleMatches(b, q) ==> r == b.date - a.date)
  {
    var q := EffectiveQuery(a, b);
    var aMatch := IndexOf(a.title, q) != -1;
    var bMatch := IndexOf(b.title, q) != -1;
    if aMatch && !bMatch then -1
    else if !aMatch && bMatch then 1
    else b.date - a.date
  }

  /** The intended order for a fixed query: title matches first, then newer before older. */
  predicate Before(q: string, a: Entry, b: Entry) {
    (TitleMatches(a, q) && !TitleMatches(b, q))
    || (TitleMatches(a, q) == TitleMatches(b, q) && a.date > b.date)
  }

  /** `Before` is a strict order: irreflexive and transitive. */
  lemma BeforeIsStrictOrder(q: string, a: Entry, b: Entry, c: Entry)
    ensures !Before(q, a, a)
    ensures Before(q, a, b) && Before(q, b, c) ==> Before(q, a, c)
    ensures Before(q, a, b) ==> !Before(q, b, a)
  {
  }

  /** The comparator's sign follows `Before` for the query it uses. */
  lemma CompareFollowsBefore(a: Entry, b: Entry)
    ensures var q := EffectiveQuery(a, b);
      (Compare(a, b) < 0 <==> Before(q, a, b))
      && (Compare(a, b) > 0 <==> Before(q, b, a))
  {
  }

  /** When both entries carry the same query, swapping them flips the comparator's sign. */
  lemma CompareAntisymmetric(a: Entry, b: Entry)
    requires a.query == b.query
    ensures Compare(a, b) == -Compare(b, a)
  {
  }

  /** The empty query occurs in every title. */
  lemma EmptyQueryMatches(e: Entry)
    ensures TitleMatches(e, "")
  {
    assert OccursAt(e.title, "", 0);
  }

  /**
   * When neither entry carries a query, the query is '' and every title contains it, so the
   * order is by date alone.
   */
  lemma NoQueryDateOrder(a: Entry, b: Entry)
    requires !Truthy(a.query) && !Truthy(b.query)
    ensures Compare(a, b) == b.date - a.date
  {
    EmptyQueryMatches(a);
    EmptyQueryMatches(b);
  }

  /**
   * When the entries carry different queries the comparator is not antisymmetric: each
   * argument order picks the first entry's query, and each says its first argument goes first.
   */
  lemma DifferentQueriesDisagree()
    ensures var a := Entry("jekyll", 0, Some("jekyll"));
      var b := Entry("python", 0, Some("python"));
      Compare(a, b) == -1 && Compare(b, a) == -1
  {
    var a := Entry("jekyll", 0, Some("jekyll"));
    var b := Entry("python", 0, Some("python"));
    assert OccursAt(a.title, "jekyll", 0);
    assert OccursAt(b.title, "python", 0);
    assert !Contains(b.title, "jekyll") by {
      forall j | 0 <= j <= |b.title| ensures !OccursAt(b.title, "jekyll", j) {
        if j == 0 {
          assert b.title[0] != "jekyll"[0];
        }
      }
    }
    assert !Contains(a.title, "python") by {
      forall j | 0 <= j <= |a.title| ensures !OccursAt(a.title, "python", j) {
        if j == 0 {
          assert a.title[0] != "python"[0];
        }
      }
    }
  }

  // ---------------------------------------------------------------------------
  // The input listener

  const MinQueryLength: nat := 2

  /** What the listener does with the field's value. */
  datatype Action = ClearResults | ShowHint | ScheduleSearch(query: string)

  /** The trimmed value decides: empty clears, one character asks for more, longer searches. */
  function Classify(value: string): (a: Action)
    ensures a == ClearResults <==> forall k :: 0 <= k < |value| ==> IsSpace(value[k])
    ensures a == ShowHint <==> |Trim(value)| == 1
    ensures a.ScheduleSearch? ==> a.query == Trim(value) && |a.query| >= MinQueryLength
    ensures a.ScheduleSearch? <==> |Trim(value)| >= MinQueryLength
  {
    TrimEmptyIff(value);
    var query := Trim(value);
    if |query| == 0 then ClearResults
    else if |query| < MinQueryLength then ShowHint
    else ScheduleSearch(query)
  }

  /** A scheduled query has no white space at either end and is a piece of what was typed. */
  lemma ScheduledQueryIsTrimmed(value: string)
    requires Classify(value).ScheduleSearch?
    ensures var q := Classify(value).query;
      !IsSpace(q[0]) && !IsSpace(q[|q| - 1])
      && exists a :: IsTrimAt(value, q, a)
  {
  }

  /** White space around the typed text never changes what the listener does. */
  lemma ClassifyIgnoresPadding(value: string, before: string, after: string)
    requires forall k :: 0 <= k < |before| ==> IsSpace(before[k])
    requires forall k :: 0 <= k < |after| ==> IsSpace(after[k])
    ensures Classify(before + Trim(value) + after) == Classify(value)
  {
    TrimOfPadded(before, Trim(value), after);
  }

  /** What the results area shows after the listener has run. */
  datatype View = Blank | Hint | Loading

  /** The search field's results area and the one pending search timer. */
  class SearchBox {
    var view: View
    var pending: Option<string>

    constructor ()
      ensures view == Blank && pending == None
    {
      view := Blank;
      pending := None;
    }

    /** The `input` listener: clear the old timer, then act on the trimmed value. */
    method OnInput(value: string)
      modifies this
      ensures match Classify(value)
        case ClearResults => view == Blank && pending == None
        case ShowHint => view == Hint && pending == None
        case ScheduleSearch(q) => view == Loading && pending == Some(q)
    {
      var query := Trim(value);
      pending := None;
      if |query| == 0 {
        view := Blank;
        return;
      }
      if |query| < MinQueryLength {
        view := Hint;
        return;
      }
      view := Loading;
      pending := Some(query);
    }

    /** The timer fires: the pending query, if any, is handed to the search library. */
    method OnTimer() returns (searched: Option<string>)
      modifies this
      ensures searched == old(pending) && pending == None && view == old(view)
    {
      searched := pending;
      pending := None;
    }
  }

  /** Only the last of a burst of inputs is searched: a later input replaces the pending query. */
  method LastInputWins(box: SearchBox, first: string, second: string) returns (searched: Option<string>)
    modifies box
    ensures searched == if Classify(second).ScheduleSearch? then Some(Trim(second)) else None
  {
    box.OnInput(first);
    box.OnInput(second);
    searched := box.OnTimer();
  }
}
