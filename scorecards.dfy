/**
 * The scorecards tab: the risk band of a score, the borrower and account
 * pickers that feed a calculation request, and the table of scorecards
 * ordered newest first.
 */
module Scorecards {
  import opened Wrappers
  import opened Arrays

  datatype Risk = Low | Medium | High

  /** The band of a score: 70 and above is Low, 40 and above Medium, below that High. */
  function RiskLevel(score: real): Risk {
    if score >= 70.0 then Low else if score >= 40.0 then Medium else High
  }

  /** The bands ordered by how risky they are. */
  function Severity(r: Risk): nat {
    match r
    case Low => 0
    case Medium => 1
    case High => 2
  }

  /** The three bands partition the scores at 40 and 70. */
  lemma RiskBands(score: real)
    ensures RiskLevel(score) == Low <==> 70.0 <= score
    ensures RiskLevel(score) == Medium <==> 40.0 <= score < 70.0
    ensures RiskLevel(score) == High <==> score < 40.0
  {
  }

  /** A higher score never lands in a riskier band. */
  lemma RiskMonotone(lower: real, higher: real)
    requires lower <= higher
    ensures Severity(RiskLevel(higher)) <= Severity(RiskLevel(lower))
  {
  }

  /** The text colour of a band. */
  function BandColor(r: Risk): string {
    match r
    case Low => "text-green-600"
    case Medium => "text-yellow-600"
    case High => "text-red-600"
  }

  /** The colour of a score, computed as the table computes it, from the score itself. */
  function RiskColor(score: real): string {
    if score >= 70.0 then "text-green-600" else if score >= 40.0 then "text-yellow-600" else "text-red-600"
  }

  /** The colour always agrees with the band shown beside it. */
  lemma RiskColorMatchesBand(score: real)
    ensures RiskColor(score) == BandColor(RiskLevel(score))
  {
  }

  datatype TradingAccount = TradingAccount(id: int, borrowerId: int)

  /** A scorecard row; `createdAt` is the creation time in milliseconds. */
  datatype Scorecard = Scorecard(
    id: int, borrowerId: int, tradingAccountId: int, riskFactorId: int, score: real, createdAt: int)

  /** `accounts.map(acc => acc.borrower_id)`. */
  function BorrowerIds(accounts: seq<TradingAccount>): seq<int> {
    seq(|accounts|, i requires 0 <= i < |accounts| => accounts[i].borrowerId)
  }

  /** `xs` without the values in `seen` and without repeats, each kept where it first occurs. */
  function DistinctFrom(xs: seq<int>, seen: set<int>): (r: seq<int>)
    ensures forall x :: x in r <==> x in xs && x !in seen
    ensures forall i, j :: 0 <= i < j < |r| ==> r[i] != r[j]
  {
    if xs == [] then []
    else if xs[0] in seen then DistinctFrom(xs[1..], seen)
    else [xs[0]] + DistinctFrom(xs[1..], seen + {xs[0]})
  }

  /** `Array.from(new Set(ids))`. */
  function UniqueBorrowerIds(accounts: seq<TradingAccount>): (ids: seq<int>)
    ensures forall x :: x in ids <==> x in BorrowerIds(accounts)
    ensures forall i, j :: 0 <= i < j < |ids| ==> ids[i] != ids[j]
  {
    DistinctFrom(BorrowerIds(accounts), {})
  }

  /** Where `x` first occurs in `xs`. */
  function FirstIndex(xs: seq<int>, x: int): (k: nat)
    requires x in xs
    ensures k < |xs| && xs[k] == x
  {
    if xs[0] == x then 0 else 1 + FirstIndex(xs[1..], x)
  }

  lemma {:induction false} DistinctFromKeepsFirstOccurrenceOrder(xs: seq<int>, seen: set<int>, i: int, j: int)
    requires 0 <= i < j < |DistinctFrom(xs, seen)|
    ensures DistinctFrom(xs, seen)[i] in xs && DistinctFrom(xs, seen)[j] in xs
    ensures FirstIndex(xs, DistinctFrom(xs, seen)[i]) < FirstIndex(xs, DistinctFrom(xs, seen)[j])
    decreases |xs|
  {
    var r := DistinctFrom(xs, seen);
    if xs[0] in seen {
      assert r == DistinctFrom(xs[1..], seen);
      DistinctFromKeepsFirstOccurrenceOrder(xs[1..], seen, i, j);
      assert r[i] != xs[0] && r[j] != xs[0];
    } else {
      var rest := DistinctFrom(xs[1..], seen + {xs[0]});
      assert r == [xs[0]] + rest;
      assert r[j] == rest[j - 1] && r[j] != xs[0] && r[j] in xs[1..];
      assert FirstIndex(xs, r[j]) == 1 + FirstIndex(xs[1..], r[j]);
      if i > 0 {
        assert r[i] == rest[i - 1] && r[i] != xs[0] && r[i] in xs[1..];
        DistinctFromKeepsFirstOccurrenceOrder(xs[1..], seen + {xs[0]}, i - 1, j - 1);
      }
    }
  }

  /** The borrower options come in the order in which each id first appears among the accounts. */
  lemma UniqueBorrowerIdsInFirstOccurrenceOrder(accounts: seq<TradingAccount>, i: int, j: int)
    requires 0 <= i < j < |UniqueBorrowerIds(accounts)|
    ensures var ids := UniqueBorrowerIds(accounts);
      FirstIndex(BorrowerIds(accounts), ids[i]) < FirstIndex(BorrowerIds(accounts), ids[j])
  {
    DistinctFromKeepsFirstOccurrenceOrder(BorrowerIds(accounts), {}, i, j);
  }

  /** A picker value: `''` (nothing picked) or a number. */
  datatype Selection = Unset | Chosen(id: int)

  /** The value is truthy: a number other than 0. */
  predicate IsSet(s: Selection) {
    s.Chosen? && s.id != 0
  }

  /** `e.target.value ? Number(e.target.value) : ''`; None is the placeholder option. */
  function FromChoice(choice: Option<int>): (s: Selection)
    ensures IsSet(s) <==> choice.Some? && choice.value != 0
    ensures IsSet(s) ==> s.id == choice.value
  {
    match choice
    case Some(id) => Chosen(id)
    case None => Unset
  }

  function BelongsTo(borrowerId: int): TradingAccount -> bool {
    (acc: TradingAccount) => acc.borrowerId == borrowerId
  }

  /** `filteredAccounts`: nothing until a borrower is picked, then that borrower's accounts in order. */
  function FilteredAccounts(accounts: seq<TradingAccount>, selected: Selection): (r: seq<TradingAccount>)
    ensures !IsSet(selected) ==> r == []
    ensures IsSet(selected) ==> forall i :: 0 <= i < |r| ==> r[i] in accounts && r[i].borrowerId == selected.id
    ensures IsSet(selected) ==>
      forall i :: 0 <= i < |accounts| && accounts[i].borrowerId == selected.id ==> accounts[i] in r
  {
    if IsSet(selected) then Filter(BelongsTo(selected.id), accounts) else []
  }

  /** The account filter keeps list order: it distributes over concatenation. */
  lemma FilteredAccountsKeepOrder(a: seq<TradingAccount>, b: seq<TradingAccount>, selected: Selection)
    ensures FilteredAccounts(a + b, selected) == FilteredAccounts(a, selected) + FilteredAccounts(b, selected)
  {
    if IsSet(selected) {
      FilterAppend(BelongsTo(selected.id), a, b);
    }
  }

  /**
   * Every borrower offered in the picker has an account to pick once chosen,
   * unless its id is 0, which reads as "nothing picked".
   */
  lemma OfferedBorrowersHaveAccounts(accounts: seq<TradingAccount>, id: int)
    requires id in UniqueBorrowerIds(accounts)
    ensures id != 0 ==> FilteredAccounts(accounts, FromChoice(Some(id))) != []
    ensures id == 0 ==> FilteredAccounts(accounts, FromChoice(Some(id))) == []
  {
    var ids := BorrowerIds(accounts);
    var k :| 0 <= k < |ids| && ids[k] == id;
    assert accounts[k].borrowerId == id;
  }

  /** Both pickers hold a truthy value: the guard of `handleCalculateScore`. */
  predicate CanCalculate(borrower: Selection, account: Selection) {
    IsSet(borrower) && IsSet(account)
  }

  const SelectBothAlert: string := "Please select both a borrower and trading account"
  const CalculationFailedAlert: string := "Failed to calculate scorecard"

  /** How `handleCalculateScore` starts. */
  datatype CalcStart =
    | Refused(alert: string)                      // the guard failed: an alert, no request
    | Requested(borrowerId: int, accountId: int)  // the calculation request is sent

  /** How the awaited request ends. */
  datatype CalcEnd =
    | Refreshed            // success: pickers reset, `onRefresh()` called
    | Failed(alert: string)  // the request threw: an alert

  /** The tab's three state fields. */
  class ScorecardsTab {
    var loading: bool
    var selectedBorrower: Selection
    var selectedAccount: Selection

    constructor ()
      ensures !loading && selectedBorrower == Unset && selectedAccount == Unset
    {
      loading := false;
      selectedBorrower := Unset;
      selectedAccount := Unset;
    }

    /** The calculate button is disabled. */
    function CalculateDisabled(): bool
      reads this
    {
      loading || !IsSet(selectedBorrower) || !IsSet(selectedAccount)
    }

    /**
     * The account picker is disabled (no borrower picked) exactly when it
     * could not list an account whatever the accounts are.
     */
    function AccountPickerDisabled(): (disabled: bool)
      reads this
      ensures disabled <==> forall accounts :: FilteredAccounts(accounts, selectedBorrower) == []
    {
      if IsSet(selectedBorrower) then
        assert FilteredAccounts([TradingAccount(0, selectedBorrower.id)], selectedBorrower) != [];
        false
      else true
    }

    /** The borrower picker changed: take the new value and always drop the account. */
    method ChangeBorrower(choice: Option<int>)
      modifies this
      ensures selectedBorrower == FromChoice(choice) && selectedAccount == Unset
      ensures loading == old(loading)
    {
      selectedBorrower := FromChoice(choice);
      selectedAccount := Unset;
    }

    /** The account picker changed. */
    method ChangeAccount(choice: Option<int>)
      modifies this
      ensures selectedAccount == FromChoice(choice)
      ensures selectedBorrower == old(selectedBorrower) && loading == old(loading)
    {
      selectedAccount := FromChoice(choice);
    }

    /**
     * `handleCalculateScore` up to its `await`: without both picks it alerts
     * and changes nothing; otherwise it sets `loading` and sends the request.
     */
    method StartCalculation() returns (start: CalcStart)
      modifies this
      ensures !old(CalculateDisabled()) ==> start.Requested?
      ensures old(CalculateDisabled()) && !old(loading) ==> start.Refused?
      ensures !CanCalculate(old(selectedBorrower), old(selectedAccount)) ==>
        start == Refused(SelectBothAlert) && unchanged(this)
      ensures CanCalculate(old(selectedBorrower), old(selectedAccount)) ==>
        && start == Requested(old(selectedBorrower).id, old(selectedAccount).id)
        && loading
        && selectedBorrower == old(selectedBorrower) && selectedAccount == old(selectedAccount)
    {
      if !IsSet(selectedBorrower) || !IsSet(selectedAccount) {
        return Refused(SelectBothAlert);
      }
      loading := true;
      start := Requested(selectedBorrower.id, selectedAccount.id);
    }

    /**
     * `handleCalculateScore` after its `await`: on success both pickers are
     * reset and the parent refreshes; on failure an alert; `loading` ends
     * either way.
     */
    method FinishCalculation(succeeded: bool) returns (end: CalcEnd)
      modifies this
      ensures !loading
      ensures succeeded ==> end == Refreshed && selectedBorrower == Unset && selectedAccount == Unset
      ensures !succeeded ==>
        end == Failed(CalculationFailedAlert)
        && selectedBorrower == old(selectedBorrower) && selectedAccount == old(selectedAccount)
    {
      if succeeded {
        selectedBorrower := Unset;
        selectedAccount := Unset;
        end := Refreshed;
      } else {
        end := Failed(CalculationFailedAlert);
      }
      loading := false;
    }
  }

  /** The table order: newest first, by creation time. */
  predicate NewestFirst(s: seq<Scorecard>) {
    forall i, j :: 0 <= i < j < |s| ==> s[i].createdAt >= s[j].createdAt
  }

  /** Exchange two neighbouring rows. */
  method SwapAdjacent(a: array<Scorecard>, j: int)
    requires 0 < j < a.Length
    modifies a
    ensures a[j - 1] == old(a[j]) && a[j] == old(a[j - 1])
    ensures forall k :: 0 <= k < a.Length && k != j - 1 && k != j ==> a[k] == old(a[k])
    ensures multiset(a[..]) == multiset(old(a[..]))
  {
    a[j - 1], a[j] := a[j], a[j - 1];
  }

  /** Move row `i` towards the front past every older row, leaving rows 0..i newest first. */
  method InsertNewest(a: array<Scorecard>, i: int)
    requires 0 < i < a.Length
    requires forall p, q :: 0 <= p < q < i ==> a[p].createdAt >= a[q].createdAt
    modifies a
    ensures forall p, q :: 0 <= p < q <= i ==> a[p].createdAt >= a[q].createdAt
    ensures forall k :: i < k < a.Length ==> a[k] == old(a[k])
    ensures multiset(a[..]) == multiset(old(a[..]))
  {
    var j := i;
    while j > 0 && a[j - 1].createdAt < a[j].createdAt
      invariant 0 <= j <= i
      invariant forall p, q :: 0 <= p < q <= i && p != j && q != j ==> a[p].createdAt >= a[q].createdAt
      invariant forall q :: j < q <= i ==> a[j].createdAt > a[q].createdAt
      invariant forall k :: i < k < a.Length ==> a[k] == old(a[k])
      invariant multiset(a[..]) == multiset(old(a[..]))
    {
      SwapAdjacent(a, j);
      j := j - 1;
    }
  }

  /**
   * The `.sort` of the table: reorders the scorecards in place so that the
   * newest comes first (insertion by adjacent swaps).
   */
  method SortNewestFirst(a: array<Scorecard>)
    modifies a
    ensures NewestFirst(a[..])
    ensures multiset(a[..]) == multiset(old(a[..]))
  {
    var i := 1;
    while i < a.Length
      invariant a.Length == 0 || 1 <= i <= a.Length
      invariant forall p, q :: 0 <= p < q < i && q < a.Length ==> a[p].createdAt >= a[q].createdAt
      invariant multiset(a[..]) == multiset(old(a[..]))
    {
      InsertNewest(a, i);
      i := i + 1;
    }
  }
}
