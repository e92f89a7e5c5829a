/**
 * The searchable business selector: a text box that filters the borrower
 * list as the user types, a list of matches, and a "create new business"
 * option for a name that is not listed yet.
 */
module BorrowerSearch {
  import opened Wrappers
  import opened Text
  import opened Arrays

  datatype Borrower = Borrower(id: int, name: string)

  /** The filter test: the lower-cased name includes the lower-cased search term. */
  predicate NameMatches(term: string, b: Borrower) {
    Contains(Lower(b.name), Lower(term))
  }

  /** The filter test as the callback handed to `filter`. */
  function MatchesTerm(term: string): Borrower -> bool {
    b => NameMatches(term, b)
  }

  /** `filteredBorrowers`: the borrowers whose name matches, in list order. */
  function Filtered(borrowers: seq<Borrower>, term: string): (r: seq<Borrower>)
    ensures |r| <= |borrowers|
    ensures forall i :: 0 <= i < |r| ==> r[i] in borrowers && NameMatches(term, r[i])
    ensures forall i :: 0 <= i < |borrowers| && NameMatches(term, borrowers[i]) ==> borrowers[i] in r
  {
    Filter(MatchesTerm(term), borrowers)
  }

  /** The filter keeps list order: it distributes over concatenation. */
  lemma FilteredKeepsOrder(a: seq<Borrower>, b: seq<Borrower>, term: string)
    ensures Filtered(a + b, term) == Filtered(a, term) + Filtered(b, term)
  {
    FilterAppend(MatchesTerm(term), a, b);
  }

  /** An empty search term lists every borrower, in order. */
  lemma FilteredByEmptyTerm(borrowers: seq<Borrower>)
    ensures Filtered(borrowers, "") == borrowers
  {
    forall i | 0 <= i < |borrowers| ensures MatchesTerm("")(borrowers[i]) {
      ContainsEmpty(Lower(borrowers[i].name));
    }
    FilterKeepsAll(MatchesTerm(""), borrowers);
  }

  /** A term longer than every name lists nothing. */
  lemma FilteredByLongTerm(borrowers: seq<Borrower>, term: string)
    requires forall i :: 0 <= i < |borrowers| ==> |borrowers[i].name| < |term|
    ensures Filtered(borrowers, term) == []
  {
    forall i | 0 <= i < |borrowers| ensures !MatchesTerm(term)(borrowers[i]) {
      if NameMatches(term, borrowers[i]) {
        ContainsNotLonger(Lower(borrowers[i].name), Lower(term));
      }
    }
    FilterKeepsNone(MatchesTerm(term), borrowers);
  }

  /** The two names are equal ignoring case. */
  predicate SameName(name: string, term: string) {
    Lower(name) == Lower(term)
  }

  /**
   * The "create new" condition: the term is not empty and no listed match
   * has exactly that name ignoring case.
   */
  predicate OffersCreateNew(borrowers: seq<Borrower>, term: string) {
    var shown := Filtered(borrowers, term);
    term != "" && !(exists i :: 0 <= i < |shown| && SameName(shown[i].name, term))
  }

  /**
   * Checking only the listed matches loses nothing: "create new" is offered
   * exactly when the term is not empty and NO borrower at all has that name
   * ignoring case.
   */
  lemma CreateNewIffNameUnknown(borrowers: seq<Borrower>, term: string)
    ensures OffersCreateNew(borrowers, term)
      <==> term != "" && forall i :: 0 <= i < |borrowers| ==> !SameName(borrowers[i].name, term)
  {
    var shown := Filtered(borrowers, term);
    if exists i :: 0 <= i < |borrowers| && SameName(borrowers[i].name, term) {
      var i :| 0 <= i < |borrowers| && SameName(borrowers[i].name, term);
      ContainsSelf(Lower(term));
      assert NameMatches(term, borrowers[i]);
      var j :| 0 <= j < |shown| && shown[j] == borrowers[i];
      assert SameName(shown[j].name, term);
    }
    if exists j :: 0 <= j < |shown| && SameName(shown[j].name, term) {
      var j :| 0 <= j < |shown| && SameName(shown[j].name, term);
      var i :| 0 <= i < |borrowers| && borrowers[i] == shown[j];
      assert SameName(borrowers[i].name, term);
    }
  }

  /** `selectedBorrower?.name || ''`. */
  function DisplayName(selected: Option<Borrower>): string {
    match selected
    case Some(b) => b.name
    case None => ""
  }

  /** A callback the dropdown makes to its parent. */
  datatype Notice =
    | Quiet                        // no callback
    | Selected(choice: Option<Borrower>)  // `onSelect(choice)`
    | CreateRequested(name: string)       // `onCreateNew(name)`

  /** One dropdown element: whether the list is open, the search term and the text shown. */
  class Dropdown {
    var isOpen: bool
    var searchTerm: string
    var displayValue: string

    constructor (selected: Option<Borrower>)
      ensures !isOpen && searchTerm == "" && displayValue == DisplayName(selected)
    {
      isOpen := false;
      searchTerm := "";
      displayValue := DisplayName(selected);
    }

    /** The list is rendered: open and not disabled. */
    function ListShown(disabled: bool): bool
      reads this
    {
      isOpen && !disabled
    }

    /** The "create new" row is rendered. */
    function CreateNewShown(borrowers: seq<Borrower>, disabled: bool): (shown: bool)
      reads this
      ensures shown ==> ListShown(disabled) && searchTerm != ""
    {
      ListShown(disabled) && OffersCreateNew(borrowers, searchTerm)
    }

    /** `handleSelect(b)`: report the choice, show its name, clear the term, close. */
    method HandleSelect(b: Borrower) returns (notice: Notice)
      modifies this
      ensures notice == Selected(Some(b))
      ensures displayValue == b.name && searchTerm == "" && !isOpen
      ensures forall disabled :: !ListShown(disabled)
    {
      notice := Selected(Some(b));
      displayValue := b.name;
      searchTerm := "";
      isOpen := false;
    }

    /** `handleInputChange(value)`: show and search for `value`, open; clearing the box clears the choice. */
    method HandleInputChange(value: string) returns (notice: Notice)
      modifies this
      ensures displayValue == value && searchTerm == value && isOpen
      ensures forall disabled :: ListShown(disabled) <==> !disabled
      ensures notice == if value == "" then Selected(None) else Quiet
    {
      displayValue := value;
      searchTerm := value;
      isOpen := true;
      notice := Quiet;
      if value == "" {
        notice := Selected(None);
      }
    }

    /**
     * `handleCreateNew()`: submit the trimmed term when it is not blank, then
     * clear the term and close; a blank term does nothing. The text shown
     * is kept either way.
     */
    method HandleCreateNew() returns (notice: Notice)
      modifies this
      ensures displayValue == old(displayValue)
      ensures !Blank(old(searchTerm)) ==>
        && notice == CreateRequested(Trim(old(searchTerm)))
        && notice.name != "" && !IsWhitespace(notice.name[0]) && !IsWhitespace(notice.name[|notice.name| - 1])
        && searchTerm == "" && !isOpen && (forall disabled :: !ListShown(disabled))
      ensures Blank(old(searchTerm)) ==> notice == Quiet && unchanged(this)
    {
      var name := Trim(searchTerm);
      if name != "" {
        ghost var k := TrimShape(searchTerm);
        notice := CreateRequested(name);
        searchTerm := "";
        isOpen := false;
      } else {
        notice := Quiet;
      }
    }

    /** The text box gets the focus: open the list. */
    method HandleFocus()
      modifies this
      ensures isOpen && searchTerm == old(searchTerm) && displayValue == old(displayValue)
      ensures forall disabled :: ListShown(disabled) <==> !disabled
    {
      isOpen := true;
    }

    /**
     * A mouse press outside the element: close, and when nothing is selected,
     * drop the typed text and the term.
     */
    method HandleClickOutside(selected: Option<Borrower>)
      modifies this
      ensures !isOpen && forall disabled :: !ListShown(disabled)
      ensures selected.None? && old(displayValue) != "" ==> displayValue == "" && searchTerm == ""
      ensures !(selected.None? && old(displayValue) != "") ==>
        displayValue == old(displayValue) && searchTerm == old(searchTerm)
    {
      isOpen := false;
      if selected.None? && displayValue != "" {
        displayValue := "";
        searchTerm := "";
      }
    }

    /** The parent changed `selectedBorrower`: show its name. */
    method SyncSelection(selected: Option<Borrower>)
      modifies this
      ensures displayValue == DisplayName(selected)
      ensures isOpen == old(isOpen) && searchTerm == old(searchTerm)
    {
      displayValue := DisplayName(selected);
    }
  }
}
