/**
 * The read-only queries over the store: the cases page listing and the
 * archive listing, the beneficiary drop-down of the aid form, the duplicate
 * warning of the case form, the global search and the date-range reports.
 */
module Search {
  import opened Wrappers
  import opened Text
  import opened Seqs
  import opened Records
  import opened NationalId
  import opened AppStore

  /** The beneficiary drop-down shows at most this many cases. */
  const AidDropdownLimit := 50
  /** The duplicate warning of the case form lists at most this many cases. */
  const DuplicateWarningLimit := 10
  /** The duplicate warning needs at least this many characters. */
  const DuplicateWarningMinLength := 2

  /**
   * `s.filter(p).slice(0, n)`: the first `n` matches, or all of them when
   * there are fewer; so they are in input order, and below the cap they are
   * exactly the selection of the matches.
   */
  lemma CappedFilter<T(!new)>(s: seq<T>, p: T -> bool, n: nat)
    ensures Take(Filter(s, p), n) == Filter(s, p)[..|Take(Filter(s, p), n)|]
    ensures |Take(Filter(s, p), n)| == if |Filter(s, p)| < n then |Filter(s, p)| else n
    ensures Subsequence(Take(Filter(s, p), n), s)
    ensures forall x :: x in Take(Filter(s, p), n) ==> x in s && p(x)
    ensures |Take(Filter(s, p), n)| < n ==> Selects(Take(Filter(s, p), n), s, p)
  {
    var f := Filter(s, p);
    FilterSelects(s, p);
    if |f| > n {
      PrefixSubsequence(f, s, n);
      forall x | x in f[..n] ensures x in f {
        var i :| 0 <= i < n && f[..n][i] == x;
        assert f[i] == x;
      }
    } else {
      assert f[..|f|] == f;
    }
  }

  /** The text the cases page searches: name, national ID, spouse name and spouse ID. */
  function CaseSearchText(c: Case): string {
    c.name + " " + c.nationalId + " " + c.spouseName + " " + c.spouseId
  }

  predicate IsListedCase(c: Case, filter: string) {
    !IsHidden(c) && Contains(Lower(CaseSearchText(c)), Lower(filter))
  }

  function ListedCase(filter: string): Case -> bool {
    (c: Case) => IsListedCase(c, filter)
  }

  /**
   * The cases page: the non-archived cases whose search text contains the
   * filter, ignoring case, in collection order.
   */
  function CaseList(cases: seq<Case>, filter: string): (r: seq<Case>)
    ensures Selects(r, cases, ListedCase(filter))
    ensures forall c :: c in r <==> c in cases && !IsHidden(c) && Contains(Lower(CaseSearchText(c)), Lower(filter))
  {
    FilterSelects(cases, ListedCase(filter));
    forall c | c in cases && IsListedCase(c, filter) ensures c in Filter(cases, ListedCase(filter)) {
      FilterKeeps(cases, ListedCase(filter), c);
    }
    Filter(cases, ListedCase(filter))
  }

  function HiddenCase(): Case -> bool {
    (c: Case) => IsHidden(c)
  }

  /** The archive page: the archived cases, in collection order. */
  function HiddenCases(cases: seq<Case>): (r: seq<Case>)
    ensures Selects(r, cases, HiddenCase())
    ensures forall c :: c in r <==> c in cases && IsHidden(c)
  {
    FilterSelects(cases, HiddenCase());
    forall c | c in cases && IsHidden(c) ensures c in Filter(cases, HiddenCase()) {
      FilterKeeps(cases, HiddenCase(), c);
    }
    Filter(cases, HiddenCase())
  }

  /** Without a filter, every case appears exactly once: on the cases page or in the archive. */
  lemma ListingsPartition(cases: seq<Case>)
    ensures multiset(CaseList(cases, "")) + multiset(HiddenCases(cases)) == multiset(cases)
  {
    forall c ensures multiset(CaseList(cases, ""))[c] + multiset(HiddenCases(cases))[c] == multiset(cases)[c] {
      FilterCount(cases, ListedCase(""), c);
      FilterCount(cases, HiddenCase(), c);
      assert IsPrefix(Lower(""), Lower(CaseSearchText(c)));
    }
  }

  /** An archived case leaves the cases page, whatever the filter, and appears in the archive. */
  lemma HideMovesToArchive(cases: seq<Case>, id: int, filter: string, i: nat)
    requires IndexOfId(cases, id) == Some(i)
    ensures i < |SetHidden(cases, id, true)|
    ensures SetHidden(cases, id, true)[i] !in CaseList(SetHidden(cases, id, true), filter)
    ensures SetHidden(cases, id, true)[i] in HiddenCases(SetHidden(cases, id, true))
  {
  }

  /** A restored case leaves the archive and, without a filter, is back on the cases page. */
  lemma RestoreMovesBack(cases: seq<Case>, id: int, i: nat)
    requires IndexOfId(cases, id) == Some(i)
    ensures i < |SetHidden(cases, id, false)|
    ensures SetHidden(cases, id, false)[i] in CaseList(SetHidden(cases, id, false), "")
    ensures SetHidden(cases, id, false)[i] !in HiddenCases(SetHidden(cases, id, false))
  {
    assert IsPrefix(Lower(""), Lower(CaseSearchText(SetHidden(cases, id, false)[i])));
  }

  predicate IsAidBeneficiaryMatch(c: Case, q: string) {
    Contains(Lower(c.name), q) || (c.nationalId != "" && Contains(c.nationalId, q))
  }

  function AidBeneficiaryMatch(q: string): Case -> bool {
    (c: Case) => IsAidBeneficiaryMatch(c, q)
  }

  /**
   * `filterAidBeneficiaries`: cases whose name (ignoring case) or national ID
   * contains the typed text, in collection order, at most 50 of them, and all
   * of them when fewer than 50 are shown.
   */
  function FilterAidBeneficiaries(cases: seq<Case>, val: string): (r: seq<Case>)
    ensures |r| <= AidDropdownLimit
    ensures |r| == if |Filter(cases, AidBeneficiaryMatch(Lower(val)))| < AidDropdownLimit
      then |Filter(cases, AidBeneficiaryMatch(Lower(val)))| else AidDropdownLimit
    ensures r == Filter(cases, AidBeneficiaryMatch(Lower(val)))[..|r|]
    ensures Subsequence(r, cases)
    ensures forall c :: c in r ==> IsAidBeneficiaryMatch(c, Lower(val))
    ensures |r| < AidDropdownLimit ==> Selects(r, cases, AidBeneficiaryMatch(Lower(val)))
  {
    CappedFilter(cases, AidBeneficiaryMatch(Lower(val)), AidDropdownLimit);
    Take(Filter(cases, AidBeneficiaryMatch(Lower(val))), AidDropdownLimit)
  }

  /** The case-form field whose input triggers the duplicate warning. */
  datatype SearchField = NameField | NationalIdField | PhoneField | SpouseNameField | SpouseIdField

  /**
   * Whether case `c` is reported for query `q` typed into `field`: a name is
   * compared with both the name and the spouse name (ignoring case), an ID
   * with both the national ID and the spouse ID, a phone with the phone.
   */
  predicate IsExistingCaseMatch(c: Case, field: SearchField, q: string) {
    match field
    case NameField | SpouseNameField =>
      (c.name != "" && Contains(Lower(c.name), q)) || (c.spouseName != "" && Contains(Lower(c.spouseName), q))
    case NationalIdField | SpouseIdField =>
      (c.nationalId != "" && Contains(c.nationalId, q)) || (c.spouseId != "" && Contains(c.spouseId, q))
    case PhoneField =>
      c.phone != "" && Contains(Lower(c.phone), q)
  }

  function ExistingCaseMatch(field: SearchField, q: string): Case -> bool {
    (c: Case) => IsExistingCaseMatch(c, field, q)
  }

  /**
   * `searchExistingCases`: nothing for input shorter than two characters;
   * otherwise the matching cases in collection order, at most 10, and all of
   * them when fewer than 10 are shown.
   */
  function SearchExistingCases(cases: seq<Case>, field: SearchField, val: string): (r: seq<Case>)
    ensures |val| < DuplicateWarningMinLength ==> r == []
    ensures |r| <= DuplicateWarningLimit
    ensures |val| >= DuplicateWarningMinLength ==>
      (|r| == if |Filter(cases, ExistingCaseMatch(field, Lower(val)))| < DuplicateWarningLimit
        then |Filter(cases, ExistingCaseMatch(field, Lower(val)))| else DuplicateWarningLimit)
      && r == Filter(cases, ExistingCaseMatch(field, Lower(val)))[..|r|]
    ensures Subsequence(r, cases)
    ensures forall c :: c in r ==> IsExistingCaseMatch(c, field, Lower(val))
    ensures |val| >= DuplicateWarningMinLength && |r| < DuplicateWarningLimit ==>
      Selects(r, cases, ExistingCaseMatch(field, Lower(val)))
  {
    if |val| < DuplicateWarningMinLength then []
    else
      CappedFilter(cases, ExistingCaseMatch(field, Lower(val)), DuplicateWarningLimit);
      Take(Filter(cases, ExistingCaseMatch(field, Lower(val))), DuplicateWarningLimit)
  }

  /**
   * The warning is symmetric between husband and wife: the name and spouse
   * name fields give the same list, and so do the two ID fields.
   */
  lemma SpouseFieldsCrossChecked(cases: seq<Case>, val: string)
    ensures SearchExistingCases(cases, NameField, val) == SearchExistingCases(cases, SpouseNameField, val)
    ensures SearchExistingCases(cases, NationalIdField, val) == SearchExistingCases(cases, SpouseIdField, val)
  {
    var q := Lower(val);
    FilterExt(cases, ExistingCaseMatch(NameField, q), ExistingCaseMatch(SpouseNameField, q));
    FilterExt(cases, ExistingCaseMatch(NationalIdField, q), ExistingCaseMatch(SpouseIdField, q));
  }

  predicate IsGlobalCaseMatch(c: Case, q: string) {
    Contains(Lower(c.name), q) || (c.nationalId != "" && Contains(c.nationalId, q)) || (c.phone != "" && Contains(c.phone, q))
  }

  predicate IsGlobalDonationMatch(d: Donation, q: string) {
    Contains(Lower(d.donor), q) || Contains(Lower(d.kind), q)
  }

  predicate IsGlobalAidMatch(e: Expense, q: string) {
    Contains(Lower(e.beneficiary), q) || (e.nationalId != "" && Contains(e.nationalId, q))
    || (e.category != "" && Contains(Lower(e.category), q))
  }

  function GlobalCaseMatch(q: string): Case -> bool {
    (c: Case) => IsGlobalCaseMatch(c, q)
  }

  function GlobalDonationMatch(q: string): Donation -> bool {
    (d: Donation) => IsGlobalDonationMatch(d, q)
  }

  function GlobalAidMatch(q: string): Expense -> bool {
    (e: Expense) => IsGlobalAidMatch(e, q)
  }

  datatype SearchResults = SearchResults(estimatedAge: Option<int>, cases: seq<Case>, donations: seq<Donation>, aid: seq<Expense>)

  /**
   * The global search page: the age read from the query when it is a
   * national ID, and every case (archived ones included), donation and aid
   * record matching the lower-cased query, each list in collection order.
   */
  function GlobalSearch(cs: seq<Case>, ds: seq<Donation>, es: seq<Expense>, query: string): (r: SearchResults)
    ensures r.estimatedAge == CalculateAgeFromId(query)
    ensures Selects(r.cases, cs, GlobalCaseMatch(Lower(query)))
    ensures Selects(r.donations, ds, GlobalDonationMatch(Lower(query)))
    ensures Selects(r.aid, es, GlobalAidMatch(Lower(query)))
    ensures forall c :: c in r.cases <==> c in cs && IsGlobalCaseMatch(c, Lower(query))
    ensures forall d :: d in r.donations <==> d in ds && IsGlobalDonationMatch(d, Lower(query))
    ensures forall e :: e in r.aid <==> e in es && IsGlobalAidMatch(e, Lower(query))
  {
    var q := Lower(query);
    FilterSelects(cs, GlobalCaseMatch(q));
    FilterSelects(ds, GlobalDonationMatch(q));
    FilterSelects(es, GlobalAidMatch(q));
    forall c | c in cs && IsGlobalCaseMatch(c, q) ensures c in Filter(cs, GlobalCaseMatch(q)) {
      FilterKeeps(cs, GlobalCaseMatch(q), c);
    }
    forall d | d in ds && IsGlobalDonationMatch(d, q) ensures d in Filter(ds, GlobalDonationMatch(q)) {
      FilterKeeps(ds, GlobalDonationMatch(q), d);
    }
    forall e | e in es && IsGlobalAidMatch(e, q) ensures e in Filter(es, GlobalAidMatch(q)) {
      FilterKeeps(es, GlobalAidMatch(q), e);
    }
    SearchResults(CalculateAgeFromId(query),
      Filter(cs, GlobalCaseMatch(q)), Filter(ds, GlobalDonationMatch(q)), Filter(es, GlobalAidMatch(q)))
  }

  /** `from <= date && date <= to` on date strings. */
  predicate InPeriod(date: string, from: string, to: string) {
    LexLe(from, date) && LexLe(date, to)
  }

  function DonationInPeriod(from: string, to: string): Donation -> bool {
    (d: Donation) => InPeriod(d.date, from, to)
  }

  function AidInPeriod(from: string, to: string): Expense -> bool {
    (e: Expense) => InPeriod(e.date, from, to)
  }

  function CaseInPeriod(from: string, to: string): Case -> bool {
    (c: Case) => InPeriod(c.date, from, to) && !IsHidden(c)
  }

  datatype ReportKind = DonationsKind | AidKind | CasesKind

  /** A report's rows, in collection order, with the sum of their amounts where the report shows one. */
  datatype Report =
    | DonationReport(donations: seq<Donation>, donationTotal: int)
    | AidReport(aid: seq<Expense>, aidTotal: int)
    | CaseReport(cases: seq<Case>)

  /**
   * `generateReport`: refused (`None`) unless both ends of the period are
   * given; otherwise the records of the chosen kind dated within the period,
   * both ends included (archived cases left out), with their total.
   */
  function GenerateReport(kind: ReportKind, from: string, to: string, cs: seq<Case>, ds: seq<Donation>, es: seq<Expense>)
    : (r: Option<Report>)
    ensures r.None? <==> from == "" || to == ""
    ensures r.Some? && kind == DonationsKind ==> (
      r.value.DonationReport?
      && Selects(r.value.donations, ds, DonationInPeriod(from, to))
      && (forall d :: d in r.value.donations <==> d in ds && InPeriod(d.date, from, to))
      && r.value.donationTotal == Sum(r.value.donations, DonationAmount))
    ensures r.Some? && kind == AidKind ==> (
      r.value.AidReport?
      && Selects(r.value.aid, es, AidInPeriod(from, to))
      && (forall e :: e in r.value.aid <==> e in es && InPeriod(e.date, from, to))
      && r.value.aidTotal == Sum(r.value.aid, ExpenseAmount))
    ensures r.Some? && kind == CasesKind ==> (
      r.value.CaseReport?
      && Selects(r.value.cases, cs, CaseInPeriod(from, to))
      && (forall c :: c in r.value.cases <==> c in cs && InPeriod(c.date, from, to) && !IsHidden(c)))
  {
    if from == "" || to == "" then None
    else match kind
      case DonationsKind =>
        var rows := Filter(ds, DonationInPeriod(from, to));
        FilterSelects(ds, DonationInPeriod(from, to));
        forall d | d in ds && InPeriod(d.date, from, to) ensures d in rows {
          FilterKeeps(ds, DonationInPeriod(from, to), d);
        }
        Some(DonationReport(rows, Sum(rows, DonationAmount)))
      case AidKind =>
        var rows := Filter(es, AidInPeriod(from, to));
        FilterSelects(es, AidInPeriod(from, to));
        forall e | e in es && InPeriod(e.date, from, to) ensures e in rows {
          FilterKeeps(es, AidInPeriod(from, to), e);
        }
        Some(AidReport(rows, Sum(rows, ExpenseAmount)))
      case CasesKind =>
        var rows := Filter(cs, CaseInPeriod(from, to));
        FilterSelects(cs, CaseInPeriod(from, to));
        forall c | c in cs && InPeriod(c.date, from, to) && !IsHidden(c) ensures c in rows {
          FilterKeeps(cs, CaseInPeriod(from, to), c);
        }
        Some(CaseReport(rows))
  }

  /** No date lies in a period whose start comes after its end. */
  lemma EmptyPeriod(date: string, from: string, to: string)
    requires !LexLe(from, to)
    ensures !InPeriod(date, from, to)
  {
    if InPeriod(date, from, to) {
      LexLeTransitive(from, date, to);
    }
  }

  /** A report over a period whose start comes after its end has no rows and a zero total. */
  lemma ReversedPeriodReport(kind: ReportKind, from: string, to: string, cs: seq<Case>, ds: seq<Donation>, es: seq<Expense>)
    requires from != "" && to != "" && !LexLe(from, to)
    ensures GenerateReport(kind, from, to, cs, ds, es) ==
      Some(match kind
        case DonationsKind => DonationReport([], 0)
        case AidKind => AidReport([], 0)
        case CasesKind => CaseReport([]))
  {
    forall date ensures !InPeriod(date, from, to) {
      EmptyPeriod(date, from, to);
    }
    FilterNone(ds, DonationInPeriod(from, to));
    FilterNone(es, AidInPeriod(from, to));
    FilterNone(cs, CaseInPeriod(from, to));
  }
}
