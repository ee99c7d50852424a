/**
 * The icon picker (`app/components/IconPicker.tsx`): the search filter over the
 * icon names and the state behind the grid, i.e. how many icons are shown, whether
 * the search box is open, and the query as typed and as settled after the debounce.
 * The full icon list is the icon font's glyph names, a parameter here.
 */
module IconPicker {
  import opened Strings

  /** `DEFAULT_ICONS`: what the grid offers before anything is searched for. */
  const DefaultIcons: seq<string> := [
    "run", "dumbbell", "book-open-variant", "meditation", "water", "food-apple", "sleep",
    "brush", "music", "pencil", "yoga", "bike", "swim", "weight", "book-open", "pill",
    "coffee", "bed", "toothbrush", "guitar-acoustic", "pencil-outline", "heart", "star",
    "target", "flag", "trophy", "medal", "crown", "lightning-bolt", "fire", "clock"]

  /** The grid grows and starts in steps of this many icons. */
  const PageSize := 12

  /** `searchTerms.every(term => iconName.includes(term))` on the lower-cased name. */
  predicate MatchesAll(icon: string, terms: seq<string>) {
    forall k :: 0 <= k < |terms| ==> Contains(ToLower(icon), terms[k])
  }

  /** `ALL_ICONS.filter(...)`: the icons matching every term, in their original order. */
  function FilterIcons(icons: seq<string>, terms: seq<string>): (r: seq<string>)
    ensures forall x :: x in r <==> x in icons && MatchesAll(x, terms)
    ensures |r| <= |icons|
  {
    if icons == [] then []
    else
      var x := icons[|icons| - 1];
      assert icons == icons[..|icons| - 1] + [x];
      FilterIcons(icons[..|icons| - 1], terms) + if MatchesAll(x, terms) then [x] else []
  }

  /** Filtering keeps the order: the filter of a concatenation is the concatenation of the filters. */
  lemma {:induction false} FilterIconsConcat(a: seq<string>, b: seq<string>, terms: seq<string>)
    ensures FilterIcons(a + b, terms) == FilterIcons(a, terms) + FilterIcons(b, terms)
    decreases |b|
  {
    if b == [] {
      assert a + b == a;
    } else {
      var front, x := b[..|b| - 1], b[|b| - 1];
      assert (a + b)[..|a + b| - 1] == a + front;
      assert (a + b)[|a + b| - 1] == x;
      FilterIconsConcat(a, front, terms);
    }
  }

  /** With no terms every icon matches, so the filter keeps the whole list. */
  lemma {:induction false} NoTermsKeepAll(icons: seq<string>)
    ensures FilterIcons(icons, []) == icons
    decreases |icons|
  {
    if icons != [] {
      NoTermsKeepAll(icons[..|icons| - 1]);
      assert icons == icons[..|icons| - 1] + [icons[|icons| - 1]];
    }
  }

  /**
   * `filteredIcons`: the default icons for the empty query; otherwise the icons of
   * the full list whose lower-cased names contain every word of the lower-cased query.
   */
  function FilteredIcons(query: string, allIcons: seq<string>): (r: seq<string>)
    ensures query == "" ==> r == DefaultIcons
    ensures query != "" ==> forall x :: x in r <==> x in allIcons && MatchesAll(x, Words(ToLower(query)))
  {
    if query == "" then DefaultIcons
    else FilterIcons(allIcons, Words(ToLower(query)))
  }

  /** Lower-casing neither makes nor removes white space. */
  lemma LowerKeepsSpace(s: string)
    ensures AllSpace(ToLower(s)) <==> AllSpace(s)
  {
    forall i | 0 <= i < |s| ensures IsSpace(ToLower(s)[i]) <==> IsSpace(s[i]) {
      assert ToLower(s)[i] == LowerChar(s[i]);
    }
  }

  /** A query of white space only has no terms, so every icon of the full list is offered, in order. */
  lemma BlankQueryOffersAll(query: string, allIcons: seq<string>)
    requires query != "" && AllSpace(query)
    ensures FilteredIcons(query, allIcons) == allIcons
  {
    LowerKeepsSpace(query);
    NoTermsKeepAll(allIcons);
  }

  /** Upper and lower case in the query make no difference. */
  lemma QueryCaseIgnored(query: string, allIcons: seq<string>)
    ensures FilteredIcons(ToLower(query), allIcons) == FilteredIcons(query, allIcons)
  {
    ToLowerIdempotent(query);
  }

  /** A query that only adds words narrows the result: every icon it offers the shorter query offers too. */
  lemma MoreWordsNarrow(icons: seq<string>, terms: seq<string>, more: seq<string>)
    ensures forall x :: x in FilterIcons(icons, terms + more) ==> x in FilterIcons(icons, terms)
  {
    forall x | x in FilterIcons(icons, terms + more) ensures MatchesAll(x, terms) {
      forall k | 0 <= k < |terms| ensures Contains(ToLower(x), terms[k]) {
        assert (terms + more)[k] == terms[k];
      }
    }
  }

  function Min(a: int, b: int): int {
    if a <= b then a else b
  }

  /**
   * The picker's state.  `debouncedQuery` is what the filter sees: it catches up
   * with `searchQuery` when the debounce settles.
   */
  class IconPickerState {
    const allIcons: seq<string>
    var showSearch: bool
    var searchQuery: string
    var debouncedQuery: string
    var visibleCount: int

    /** The shown count is always a positive whole number of pages. */
    predicate Valid()
      reads this
    {
      visibleCount >= PageSize && visibleCount % PageSize == 0
    }

    function Filtered(): seq<string>
      reads this
    {
      FilteredIcons(debouncedQuery, allIcons)
    }

    /** `filteredIcons.slice(0, visibleCount)`: the first `visibleCount` matches, or all of them. */
    function Shown(): (r: seq<string>)
      reads this
      requires Valid()
      ensures |r| == Min(visibleCount, |Filtered()|) && r == Filtered()[..|r|]
    {
      Filtered()[..Min(visibleCount, |Filtered()|)]
    }

    /** The "more" button is there iff some matches are hidden. */
    predicate HasMore()
      reads this
    {
      |Filtered()| > visibleCount
    }

    constructor (allIcons: seq<string>)
      ensures this.allIcons == allIcons
      ensures !showSearch && searchQuery == "" && debouncedQuery == "" && visibleCount == PageSize
      ensures Valid() && Shown() == DefaultIcons[..PageSize] && HasMore()
    {
      this.allIcons := allIcons;
      showSearch := false;
      searchQuery := "";
      debouncedQuery := "";
      visibleCount := PageSize;
    }

    /** Typing in the search box: only the query as typed changes. */
    method ChangeText(text: string)
      modifies this
      ensures searchQuery == text
      ensures showSearch == old(showSearch) && debouncedQuery == old(debouncedQuery) && visibleCount == old(visibleCount)
    {
      searchQuery := text;
    }

    /** The debounce settles: a changed settled query sends the grid back to its first page. */
    method Settle()
      requires Valid()
      modifies this
      ensures Valid()
      ensures debouncedQuery == searchQuery && searchQuery == old(searchQuery) && showSearch == old(showSearch)
      ensures visibleCount == if old(debouncedQuery) != old(searchQuery) then PageSize else old(visibleCount)
    {
      if debouncedQuery != searchQuery {
        debouncedQuery := searchQuery;
        visibleCount := PageSize;
      }
    }

    /** The "more" button: opens the search box and shows one more page. */
    method PressMore()
      requires Valid()
      modifies this
      ensures Valid()
      ensures showSearch && visibleCount == old(visibleCount) + PageSize
      ensures searchQuery == old(searchQuery) && debouncedQuery == old(debouncedQuery)
      ensures old(Shown()) == Shown()[..|old(Shown())|]
      ensures old(HasMore()) ==> |Shown()| > |old(Shown())|
    {
      showSearch := true;
      visibleCount := visibleCount + PageSize;
    }

    /** "Show Less": closes and clears the search and goes back to the first page. */
    method ShowLess()
      modifies this
      ensures Valid()
      ensures !showSearch && searchQuery == "" && visibleCount == PageSize
      ensures debouncedQuery == old(debouncedQuery)
    {
      showSearch := false;
      searchQuery := "";
      visibleCount := PageSize;
    }
  }

  /** After "Show Less" settles, the grid is back to its first page of default icons. */
  method ShowLessThenSettle(p: IconPickerState) returns (shown: seq<string>)
    requires p.Valid()
    modifies p
    ensures p.Valid() && !p.showSearch && p.debouncedQuery == ""
    ensures shown == p.Shown() == DefaultIcons[..PageSize]
  {
    p.ShowLess();
    p.Settle();
    shown := p.Shown();
  }
}
