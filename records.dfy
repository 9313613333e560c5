/**
 * The records of the charity office's in-memory store: cases (families),
 * donations and expenses (aid disbursements). Properties that a record may
 * lack in the stored JSON (`hidden`, `members`, `aidHistory`, the two photo
 * links) are `Option`s.
 */
module Records {
  import opened Wrappers
  import opened Text

  /** One family member of a case, as the member form saves it. */
  datatype Member = Member(name: string, idNo: string, relation: string, age: string, job: string)

  /** An aid disbursement; `amount` is free text (it may be a quantity such as "2 cartons"). */
  datatype Expense = Expense(
    id: int, date: string, beneficiary: string, nationalId: string, amount: string,
    category: string, month: string, responsible: string, signature: string)

  /** An inbound donation; `amount` is the number the form parsed, `kind` (the JSON `type` property) the joined category tags. */
  datatype Donation = Donation(id: int, date: string, donor: string, amount: int, kind: string)

  /** A beneficiary family; `kind` is the JSON `type` property (the joined classification tags). */
  datatype Case = Case(
    id: int, center: string, name: string, nationalId: string, job: string, phone: string,
    spouseName: string, spouseId: string, familyMembers: string, socialStatus: string,
    kind: string, amount: string, source: string, address: string, note: string,
    status: string, date: string,
    hidden: Option<bool>, members: Option<seq<Member>>, aidHistory: Option<seq<Expense>>,
    photoUrl: Option<string>, idCardUrl: Option<string>)

  /** `if (c.hidden)`: only an explicit `true` archives a case. */
  predicate IsHidden(c: Case) {
    c.hidden == Some(true)
  }

  /** `cases.findIndex(p)`: the first index whose case satisfies `p`, or `None` (-1) when there is none. */
  function IndexWhere(cases: seq<Case>, p: Case -> bool): (r: Option<nat>)
    ensures r.Some? ==> r.value < |cases| && p(cases[r.value])
    ensures r.Some? ==> forall j :: 0 <= j < r.value ==> !p(cases[j])
    ensures r.None? ==> forall j :: 0 <= j < |cases| ==> !p(cases[j])
  {
    if |cases| == 0 then None
    else if p(cases[0]) then Some(0)
    else match IndexWhere(cases[1..], p)
      case None => None
      case Some(i) => Some(i + 1)
  }

  function NameIs(name: string): Case -> bool {
    (c: Case) => c.name == name
  }

  function IdIs(id: int): Case -> bool {
    (c: Case) => c.id == id
  }

  /** `cases.findIndex(c => c.name === name)`. */
  function IndexOfName(cases: seq<Case>, name: string): Option<nat> {
    IndexWhere(cases, NameIs(name))
  }

  /** `cases.findIndex(c => c.id === id)`. */
  function IndexOfId(cases: seq<Case>, id: int): Option<nat> {
    IndexWhere(cases, IdIs(id))
  }

  /** `c.aidHistory || []`. */
  function AidHistoryOf(c: Case): seq<Expense> {
    c.aidHistory.GetOr([])
  }

  /** `c.members || []`. */
  function MembersOf(c: Case): seq<Member> {
    c.members.GetOr([])
  }

  /** The filter `c => c.id !== id` of a case deletion. */
  function CaseIdIsNot(id: int): Case -> bool {
    (c: Case) => c.id != id
  }

  /** The filter `e => e.id !== id` of an expense deletion. */
  function ExpenseIdIsNot(id: int): Expense -> bool {
    (e: Expense) => e.id != id
  }

  /** `parseFloat(d.amount) || 0` for a donation, whose amount is already a number. */
  function DonationAmount(d: Donation): int {
    d.amount
  }

  /** `parseFloat(e.amount) || 0`. */
  function ExpenseAmount(e: Expense): int {
    NumberOr0(e.amount)
  }

  /** `parseFloat(c.amount) || 0`. */
  function CaseAmount(c: Case): int {
    NumberOr0(c.amount)
  }
}
