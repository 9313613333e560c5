/**
 * The in-memory store `appData` and the event handlers that change it in
 * place: adding and deleting cases, donations and aid records, adding family
 * members, archiving and restoring cases, and attaching or clearing photos.
 */
module AppStore {
  import opened Wrappers
  import opened Text
  import opened Seqs
  import opened Records

  /** The separator used to store several category tags in one `type` string. */
  const TagSeparator := " - "
  /** The `status` every new case starts with ("under study"). */
  const NewCaseStatus := "قيد الدراسة"
  /** The donation `type` used when no tag was chosen ("general"). */
  const GeneralDonationType := "عام"

  /** The tags of a new donation: the ticked boxes, then the trimmed free-text tag when there is one. */
  function DonationTags(selected: seq<string>, other: string): seq<string> {
    var o := Trim(other);
    selected + (if o != "" then [o] else [])
  }

  /**
   * The `type` of a new donation: its tags joined with " - ", or the general
   * type when that join is empty. Every tag occurs in it, so each tag's
   * per-category "donated" figure picks the donation up.
   */
  function DonationType(selected: seq<string>, other: string): (r: string)
    ensures r != ""
    ensures forall t :: t in DonationTags(selected, other) ==> Contains(r, t)
  {
    var tags := DonationTags(selected, other);
    var joined := Join(tags, TagSeparator);
    var r := if joined == "" then GeneralDonationType else joined;
    assert forall t :: t in tags ==> Contains(r, t) by {
      forall t | t in tags ensures Contains(r, t) {
        var k :| 0 <= k < |tags| && tags[k] == t;
        JoinContainsPart(tags, TagSeparator, k);
        if joined == "" {
          assert t == "";
          assert IsPrefix(t, r);
        }
      }
    }
    r
  }

  /** `c` with `rec` pushed onto its aid history, the history being created when missing. */
  function WithAid(c: Case, rec: Expense): Case {
    c.(aidHistory := Some(AidHistoryOf(c) + [rec]))
  }

  /**
   * The case list after an aid record is synchronised into it: only the first
   * case whose name equals the beneficiary gains the record in its history;
   * no other case and no other field changes, and without such a case nothing changes.
   */
  function SyncAidHistory(cases: seq<Case>, rec: Expense): (r: seq<Case>)
    ensures |r| == |cases|
    ensures IndexOfName(cases, rec.beneficiary).None? ==> r == cases
    ensures forall j :: 0 <= j < |r| && r[j] != cases[j] ==> IndexOfName(cases, rec.beneficiary) == Some(j)
    ensures forall j :: 0 <= j < |r| ==> r[j].(aidHistory := cases[j].aidHistory) == cases[j]
    ensures forall j :: 0 <= j < |r| ==>
      AidHistoryOf(r[j]) == AidHistoryOf(cases[j]) + (if IndexOfName(cases, rec.beneficiary) == Some(j) then [rec] else [])
    ensures forall j :: 0 <= j < |r| && IndexOfName(cases, rec.beneficiary) == Some(j) ==> r[j].aidHistory.Some?
  {
    match IndexOfName(cases, rec.beneficiary)
    case None => cases
    case Some(i) => cases[i := WithAid(cases[i], rec)]
  }

  /**
   * The case list after `hidden` is set to `flag` on the first case with `id`:
   * no other case and no other field changes, and an unknown id changes nothing.
   */
  function SetHidden(cases: seq<Case>, id: int, flag: bool): (r: seq<Case>)
    ensures |r| == |cases|
    ensures IndexOfId(cases, id).None? ==> r == cases
    ensures forall j :: 0 <= j < |r| && r[j] != cases[j] ==> IndexOfId(cases, id) == Some(j)
    ensures forall j :: 0 <= j < |r| ==> r[j].(hidden := cases[j].hidden) == cases[j]
    ensures forall j :: 0 <= j < |r| && IndexOfId(cases, id) == Some(j) ==> r[j].hidden == Some(flag)
  {
    match IndexOfId(cases, id)
    case None => cases
    case Some(i) => cases[i := cases[i].(hidden := Some(flag))]
  }

  /** A case as loaded from the data file: a missing `hidden` becomes `false`. */
  function DefaultHidden(c: Case): (d: Case)
    ensures d.hidden.Some? && (IsHidden(d) <==> IsHidden(c))
    ensures d.(hidden := c.hidden) == c
  {
    if c.hidden.None? then c.(hidden := Some(false)) else c
  }

  /**
   * Deleting cases by id keeps the other cases in their original order, each
   * as many times as before, and removes every case with that id.
   */
  lemma DeleteCaseKeepsOthers(cases: seq<Case>, id: int)
    ensures Subsequence(Filter(cases, CaseIdIsNot(id)), cases)
    ensures forall c :: c in Filter(cases, CaseIdIsNot(id)) ==> c.id != id
    ensures forall c: Case :: c.id != id ==> multiset(Filter(cases, CaseIdIsNot(id)))[c] == multiset(cases)[c]
  {
    FilterSubsequence(cases, CaseIdIsNot(id));
    forall c: Case | c.id != id ensures multiset(Filter(cases, CaseIdIsNot(id)))[c] == multiset(cases)[c] {
      FilterCount(cases, CaseIdIsNot(id), c);
    }
  }

  /**
   * Deleting expenses by id keeps the other expenses in their original order,
   * each as many times as before, and removes every expense with that id.
   */
  lemma DeleteExpenseKeepsOthers(expenses: seq<Expense>, id: int)
    ensures Subsequence(Filter(expenses, ExpenseIdIsNot(id)), expenses)
    ensures forall e :: e in Filter(expenses, ExpenseIdIsNot(id)) ==> e.id != id
    ensures forall e: Expense :: e.id != id ==> multiset(Filter(expenses, ExpenseIdIsNot(id)))[e] == multiset(expenses)[e]
  {
    FilterSubsequence(expenses, ExpenseIdIsNot(id));
    forall e: Expense | e.id != id ensures multiset(Filter(expenses, ExpenseIdIsNot(id)))[e] == multiset(expenses)[e] {
      FilterCount(expenses, ExpenseIdIsNot(id), e);
    }
  }

  /**
   * Because deleting an expense leaves the aid histories alone, an aid record
   * synchronised into a case stays in that case's history after the record
   * itself is deleted from the expenses.
   */
  lemma StaleAidHistory(cases: seq<Case>, expenses: seq<Expense>, rec: Expense, i: nat)
    requires IndexOfName(cases, rec.beneficiary) == Some(i)
    ensures i < |SyncAidHistory(cases, rec)| && rec in AidHistoryOf(SyncAidHistory(cases, rec)[i])
    ensures rec !in Filter(expenses + [rec], ExpenseIdIsNot(rec.id))
  {
    var h := AidHistoryOf(SyncAidHistory(cases, rec)[i]);
    assert h[|h| - 1] == rec;
  }

  /** Restoring right after archiving gives the same list as restoring alone. */
  lemma RestoreAfterHide(cases: seq<Case>, id: int)
    ensures SetHidden(SetHidden(cases, id, true), id, false) == SetHidden(cases, id, false)
  {
    var hidden := SetHidden(cases, id, true);
    assert forall j :: 0 <= j < |cases| ==> hidden[j].id == cases[j].id by {
      forall j | 0 <= j < |cases| ensures hidden[j].id == cases[j].id {
        assert hidden[j].(hidden := cases[j].hidden) == cases[j];
      }
    }
  }

  class Store {
    var cases: seq<Case>
    var donations: seq<Donation>
    var expenses: seq<Expense>

    /** A store holding the given collections (a missing `expenses` array is the empty one). */
    constructor (cases: seq<Case>, donations: seq<Donation>, expenses: seq<Expense>)
      ensures this.cases == cases && this.donations == donations && this.expenses == expenses
    {
      this.cases := cases;
      this.donations := donations;
      this.expenses := expenses;
    }

    /** After loading from the data file, every case without a `hidden` flag gets `false`. */
    method ApplyHiddenDefault()
      modifies this
      ensures |cases| == |old(cases)|
      ensures forall j :: 0 <= j < |cases| ==> cases[j] == DefaultHidden(old(cases)[j])
      ensures donations == old(donations) && expenses == old(expenses)
    {
      var i := 0;
      while i < |cases|
        invariant 0 <= i <= |cases| == |old(cases)|
        invariant forall j :: 0 <= j < i ==> cases[j] == DefaultHidden(old(cases)[j])
        invariant forall j :: i <= j < |cases| ==> cases[j] == old(cases)[j]
        invariant donations == old(donations) && expenses == old(expenses)
      {
        if cases[i].hidden.None? {
          cases := cases[i := cases[i].(hidden := Some(false))];
        }
        i := i + 1;
      }
    }

    /**
     * The "add case" form: a case is added only when a name is given; its
     * `type` is the ticked tags joined with " - ", its date the form's date or
     * `today`, and it has no `hidden`, member, history or photo property yet.
     */
    method AddNewCase(
      id: int, center: string, name: string, nationalId: string, job: string, phone: string,
      spouseName: string, spouseId: string, familyMembers: string, socialStatus: string,
      selectedTypes: seq<string>, amount: string, source: string, dateInput: string,
      address: string, note: string, today: string)
      returns (added: bool)
      modifies this
      ensures added <==> name != ""
      ensures donations == old(donations) && expenses == old(expenses)
      ensures !added ==> cases == old(cases)
      ensures added ==> cases == old(cases) + [Case(
        id, center, name, nationalId, job, phone, spouseName, spouseId, familyMembers, socialStatus,
        Join(selectedTypes, TagSeparator), amount, source, address, note, NewCaseStatus,
        if dateInput != "" then dateInput else today, None, None, None, None, None)]
    {
      added := name != "";
      if added {
        var kind := Join(selectedTypes, TagSeparator);
        var date := if dateInput != "" then dateInput else today;
        var c := Case(id, center, name, nationalId, job, phone, spouseName, spouseId, familyMembers,
          socialStatus, kind, amount, source, address, note, NewCaseStatus, date, None, None, None, None, None);
        cases := cases + [c];
      }
    }

    /** Permanent deletion: every case with `id` goes, the others stay in order. */
    method DeleteCase(id: int)
      modifies this
      ensures cases == Filter(old(cases), CaseIdIsNot(id))
      ensures donations == old(donations) && expenses == old(expenses)
    {
      cases := Filter(cases, CaseIdIsNot(id));
    }

    /**
     * The "add donation" form: `amountInput` is parsed; the donation is added
     * only when the donor is given and the parsed amount is a non-zero number.
     */
    method AddNewDonation(
      id: int, donor: string, amountInput: string, dateInput: string, today: string,
      selectedTypes: seq<string>, otherType: string)
      returns (added: bool)
      modifies this
      ensures added <==> donor != "" && ParseNumber(amountInput).Some? && ParseNumber(amountInput).value != 0
      ensures cases == old(cases) && expenses == old(expenses)
      ensures !added ==> donations == old(donations)
      ensures added ==> donations == old(donations) + [Donation(
        id, if dateInput != "" then dateInput else today, donor, ParseNumber(amountInput).value,
        DonationType(selectedTypes, otherType))]
    {
      var amount := ParseNumber(amountInput);
      var date := if dateInput != "" then dateInput else today;
      var kind := DonationType(selectedTypes, otherType);
      added := donor != "" && amount.Some? && amount.value != 0;
      if added {
        donations := donations + [Donation(id, date, donor, amount.value, kind)];
      }
    }

    /**
     * The "record aid" form: with a beneficiary and an amount, exactly one
     * record is appended to the expenses and the same record is pushed onto
     * the history of the first case whose name equals the beneficiary.
     */
    method AddNewAidRecord(
      id: int, date: string, beneficiary: string, nationalId: string, amount: string,
      category: string, month: string, responsible: string, signature: string)
      returns (added: bool)
      modifies this
      ensures added <==> beneficiary != "" && amount != ""
      ensures donations == old(donations)
      ensures !added ==> cases == old(cases) && expenses == old(expenses)
      ensures added ==>
        var rec := Expense(id, date, beneficiary, nationalId, amount, category, month, responsible, signature);
        expenses == old(expenses) + [rec] && cases == SyncAidHistory(old(cases), rec)
    {
      added := beneficiary != "" && amount != "";
      if added {
        var rec := Expense(id, date, beneficiary, nationalId, amount, category, month, responsible, signature);
        expenses := expenses + [rec];
        var caseIndex := IndexOfName(cases, beneficiary);
        if caseIndex.Some? {
          var i := caseIndex.value;
          cases := cases[i := WithAid(cases[i], rec)];
        }
      }
    }

    /**
     * Permanent deletion of an expense: every expense with `id` goes, the
     * others stay in order; no case's aid history is touched.
     */
    method DeleteExpense(id: int)
      modifies this
      ensures expenses == Filter(old(expenses), ExpenseIdIsNot(id))
      ensures cases == old(cases) && donations == old(donations)
    {
      expenses := Filter(expenses, ExpenseIdIsNot(id));
    }

    /**
     * The "add family member" form: with a member name and a case with
     * `caseId`, the member is appended to that case's list (created when missing).
     */
    method SaveMemberToCase(caseId: int, name: string, idNo: string, relation: string, age: string, job: string)
      returns (added: bool)
      modifies this
      ensures added <==> name != "" && IndexOfId(old(cases), caseId).Some?
      ensures donations == old(donations) && expenses == old(expenses)
      ensures !added ==> cases == old(cases)
      ensures added ==> var i := IndexOfId(old(cases), caseId).value;
        cases == old(cases)[i := old(cases)[i].(members := Some(MembersOf(old(cases)[i]) + [Member(name, idNo, relation, age, job)]))]
    {
      added := false;
      if name != "" {
        var caseIndex := IndexOfId(cases, caseId);
        if caseIndex.Some? {
          var i := caseIndex.value;
          var m := Member(name, idNo, relation, age, job);
          cases := cases[i := cases[i].(members := Some(MembersOf(cases[i]) + [m]))];
          added := true;
        }
      }
    }

    /** Archives the first case with `id`. */
    method HideCase(id: int)
      modifies this
      ensures cases == SetHidden(old(cases), id, true)
      ensures donations == old(donations) && expenses == old(expenses)
    {
      var index := IndexOfId(cases, id);
      if index.Some? {
        var i := index.value;
        cases := cases[i := cases[i].(hidden := Some(true))];
      }
    }

    /** Brings the first case with `id` back from the archive. */
    method RestoreCase(id: int)
      modifies this
      ensures cases == SetHidden(old(cases), id, false)
      ensures donations == old(donations) && expenses == old(expenses)
    {
      var index := IndexOfId(cases, id);
      if index.Some? {
        var i := index.value;
        cases := cases[i := cases[i].(hidden := Some(false))];
      }
    }

    /**
     * Links a photo (`kind == "photo"`) or an ID-card image (any other kind)
     * by file name: with a non-empty path and a case with `id`, that one field
     * of the first such case is set.
     */
    method ManualImagePath(id: int, kind: string, path: string)
      modifies this
      ensures donations == old(donations) && expenses == old(expenses)
      ensures path == "" || IndexOfId(old(cases), id).None? ==> cases == old(cases)
      ensures path != "" && IndexOfId(old(cases), id).Some? ==>
        var i := IndexOfId(old(cases), id).value;
        cases == old(cases)[i := if kind == "photo" then old(cases)[i].(photoUrl := Some(path))
                                 else old(cases)[i].(idCardUrl := Some(path))]
    {
      if path != "" {
        var index := IndexOfId(cases, id);
        if index.Some? {
          var i := index.value;
          if kind == "photo" {
            cases := cases[i := cases[i].(photoUrl := Some(path))];
          } else {
            cases := cases[i := cases[i].(idCardUrl := Some(path))];
          }
        }
      }
    }

    /** Deletes the photo (`kind == "photo"`) or ID-card link of the first case with `caseId`. */
    method RemoveImage(caseId: int, kind: string)
      modifies this
      ensures donations == old(donations) && expenses == old(expenses)
      ensures IndexOfId(old(cases), caseId).None? ==> cases == old(cases)
      ensures IndexOfId(old(cases), caseId).Some? ==>
        var i := IndexOfId(old(cases), caseId).value;
        cases == old(cases)[i := if kind == "photo" then old(cases)[i].(photoUrl := None)
                                 else old(cases)[i].(idCardUrl := None)]
    {
      var index := IndexOfId(cases, caseId);
      if index.Some? {
        var i := index.value;
        if kind == "photo" {
          cases := cases[i := cases[i].(photoUrl := None)];
        } else {
          cases := cases[i := cases[i].(idCardUrl := None)];
        }
      }
    }
  }
}
