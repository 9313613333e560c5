/**
 * The figures of the dashboard page: the list of categories seen in the
 * data, each category's donated / disbursed / balance figures, and the
 * global totals.
 */
module Dashboard {
  import opened Text
  import opened Seqs
  import opened Records
  import opened AppStore

  /** The four tags shown when the data mention no category at all. */
  const DefaultCategories: seq<string> := ["الصدقات", "زكاة مال", "مستفيدي كرتونة", "لحوم صكوك"]

  /** `filter(Boolean)` on strings. */
  function NonEmpty(s: string): bool {
    s != ""
  }

  /** `donations.map(d => d.type).flatMap(t => t.split(' - '))`. */
  function DonationTypePieces(ds: seq<Donation>): seq<string> {
    if |ds| == 0 then [] else Split(ds[0].kind, TagSeparator) + DonationTypePieces(ds[1..])
  }

  /** `cases.map(c => c.source)`. */
  function CaseSources(cs: seq<Case>): seq<string> {
    if |cs| == 0 then [] else [cs[0].source] + CaseSources(cs[1..])
  }

  /** `expenses.map(e => e.category)`. */
  function ExpenseCategories(es: seq<Expense>): seq<string> {
    if |es| == 0 then [] else [es[0].category] + ExpenseCategories(es[1..])
  }

  /** Every non-empty category mention, in the order the dashboard reads them. */
  function CategoryMentions(ds: seq<Donation>, cs: seq<Case>, es: seq<Expense>): (r: seq<string>)
    ensures forall x :: x in r ==> x != ""
  {
    Filter(DonationTypePieces(ds), NonEmpty) + Filter(CaseSources(cs), NonEmpty) + Filter(ExpenseCategories(es), NonEmpty)
  }

  /** `[...new Set(s)]`: one copy of each element, kept where it first appears. */
  function Dedup(s: seq<string>): seq<string> {
    if |s| == 0 then []
    else
      var d := Dedup(s[..|s| - 1]);
      if s[|s| - 1] in d then d else d + [s[|s| - 1]]
  }

  /** The position of the first occurrence of `x` in `s`. */
  function FirstIndex(s: seq<string>, x: string): (k: nat)
    requires x in s
    ensures k < |s| && s[k] == x
    ensures forall j :: 0 <= j < k ==> s[j] != x
  {
    if s[0] == x then 0 else 1 + FirstIndex(s[1..], x)
  }

  lemma FirstIndexSnoc(s: seq<string>, y: string, x: string)
    requires x in s
    ensures FirstIndex(s + [y], x) == FirstIndex(s, x)
  {
    var b := FirstIndex(s, x);
    assert (s + [y])[b] == x;
    forall j | 0 <= j < b ensures (s + [y])[j] != x {
      assert (s + [y])[j] == s[j];
    }
  }

  /** `Dedup` keeps each element once, loses none, and orders them by first appearance. */
  lemma {:induction false} DedupSpec(s: seq<string>)
    ensures forall i, j :: 0 <= i < j < |Dedup(s)| ==> Dedup(s)[i] != Dedup(s)[j]
    ensures forall x :: x in Dedup(s) <==> x in s
    ensures forall i, j :: 0 <= i < j < |Dedup(s)| ==> FirstIndex(s, Dedup(s)[i]) < FirstIndex(s, Dedup(s)[j])
  {
    if |s| > 0 {
      var p, y := s[..|s| - 1], s[|s| - 1];
      assert s == p + [y];
      var d := Dedup(p);
      DedupSpec(p);
      forall x | x in p ensures FirstIndex(s, x) == FirstIndex(p, x) {
        FirstIndexSnoc(p, y, x);
      }
      if y !in d {
        assert Dedup(s) == d + [y];
        assert FirstIndex(s, y) == |p|;
      }
    }
  }

  /**
   * The dashboard's category list: every non-empty category mentioned by a
   * donation type (split on " - "), a case source or an expense category,
   * each once, in order of first mention; the four default tags when there is none.
   */
  function Categories(ds: seq<Donation>, cs: seq<Case>, es: seq<Expense>): (r: seq<string>)
    ensures forall i, j :: 0 <= i < j < |r| ==> r[i] != r[j]
    ensures CategoryMentions(ds, cs, es) == [] ==> r == DefaultCategories
    ensures CategoryMentions(ds, cs, es) != [] ==>
      forall x :: x in r <==> x in CategoryMentions(ds, cs, es)
    ensures CategoryMentions(ds, cs, es) != [] ==>
      forall i, j :: 0 <= i < j < |r| ==>
        FirstIndex(CategoryMentions(ds, cs, es), r[i]) < FirstIndex(CategoryMentions(ds, cs, es), r[j])
  {
    var all := CategoryMentions(ds, cs, es);
    var d := Dedup(all);
    DedupSpec(all);
    assert all != [] ==> all[0] in d;
    if |d| == 0 then DefaultCategories else d
  }

  /** A donation counts for `cat` when its type contains `cat`. */
  function DonationMatches(cat: string): Donation -> bool {
    (d: Donation) => d.kind != "" && Contains(d.kind, cat)
  }

  /** An expense counts for `cat` only when its category is exactly `cat`. */
  function ExpenseMatches(cat: string): Expense -> bool {
    (e: Expense) => e.category == cat
  }

  function Donated(ds: seq<Donation>, cat: string): int {
    Sum(Filter(ds, DonationMatches(cat)), DonationAmount)
  }

  function Disbursed(es: seq<Expense>, cat: string): int {
    Sum(Filter(es, ExpenseMatches(cat)), ExpenseAmount)
  }

  datatype CategoryStat = CategoryStat(donated: int, disbursed: int, balance: int)

  /** `catStats`: one entry per listed category whose balance is what was donated minus what was disbursed. */
  function CategoryStats(ds: seq<Donation>, es: seq<Expense>, cats: seq<string>): (m: map<string, CategoryStat>)
    ensures m.Keys == set cat | cat in cats
    ensures forall cat :: cat in m ==>
      m[cat].donated == Donated(ds, cat) && m[cat].disbursed == Disbursed(es, cat)
      && m[cat].balance == m[cat].donated - m[cat].disbursed
  {
    map cat | cat in cats :: CategoryStat(Donated(ds, cat), Disbursed(es, cat), Donated(ds, cat) - Disbursed(es, cat))
  }

  /** A new donation adds its amount to the "donated" figure of exactly the categories its type contains. */
  lemma DonatedAppend(ds: seq<Donation>, d: Donation, cat: string)
    ensures Donated(ds + [d], cat) == Donated(ds, cat) + (if d.kind != "" && Contains(d.kind, cat) then d.amount else 0)
  {
    FilterAppend(ds, [d], DonationMatches(cat));
    SumAppend(Filter(ds, DonationMatches(cat)), Filter([d], DonationMatches(cat)), DonationAmount);
  }

  /**
   * A new expense adds its parsed amount (0 when unparseable) to the
   * "disbursed" figure of its own category and of no other.
   */
  lemma DisbursedAppend(es: seq<Expense>, e: Expense, cat: string)
    ensures Disbursed(es + [e], cat) == Disbursed(es, cat) + (if e.category == cat then NumberOr0(e.amount) else 0)
  {
    FilterAppend(es, [e], ExpenseMatches(cat));
    SumAppend(Filter(es, ExpenseMatches(cat)), Filter([e], ExpenseMatches(cat)), ExpenseAmount);
  }

  /**
   * The matching is asymmetric: a donation typed "a - b" counts for both `a`
   * and `b`, an expense whose category is "a - b" counts for neither, only for "a - b" itself.
   */
  lemma MatchingAsymmetry(d: Donation, e: Expense, a: string, b: string)
    requires a != "" && b != ""
    requires d.kind == a + TagSeparator + b && e.category == a + TagSeparator + b
    ensures Donated([d], a) == d.amount && Donated([d], b) == d.amount
    ensures Disbursed([e], a) == 0 && Disbursed([e], b) == 0
    ensures Disbursed([e], a + TagSeparator + b) == NumberOr0(e.amount)
  {
    ContainsPrefix(a, TagSeparator + b);
    assert a + (TagSeparator + b) == d.kind;
    ContainsPrefix(b, "");
    assert b + "" == b;
    ContainsInSuffix(a + TagSeparator, b, b);
    assert DonationMatches(a)(d) && DonationMatches(b)(d);
    assert Filter([d], DonationMatches(a)) == [d];
    assert Filter([d], DonationMatches(b)) == [d];
    assert Sum([d], DonationAmount) == d.amount by { assert [d][1..] == []; }
    assert |e.category| > |a| && |e.category| > |b|;
    assert Filter([e], ExpenseMatches(a)) == [];
    assert Filter([e], ExpenseMatches(b)) == [];
    assert Filter([e], ExpenseMatches(a + TagSeparator + b)) == [e];
  }

  /**
   * A donation recorded through the form counts its full amount towards the
   * "donated" figure of every tag it was given.
   */
  lemma NewDonationCountsForItsTags(
    ds: seq<Donation>, id: int, date: string, donor: string, amount: int,
    selected: seq<string>, other: string, t: string)
    requires t in DonationTags(selected, other)
    ensures Donated(ds + [Donation(id, date, donor, amount, DonationType(selected, other))], t)
      == Donated(ds, t) + amount
  {
    DonatedAppend(ds, Donation(id, date, donor, amount, DonationType(selected, other)), t);
  }

  datatype Totals = Totals(totalDonations: int, actualAidDisbursed: int, scheduledMonthlyAid: int, totalBalance: int)

  /**
   * The four dashboard totals. The cash balance is donations minus
   * disbursements; the case amounts are summed on their own and never enter it.
   */
  function DashboardTotals(cs: seq<Case>, ds: seq<Donation>, es: seq<Expense>): (t: Totals)
    ensures t.totalBalance == t.totalDonations - t.actualAidDisbursed
    ensures t.totalDonations == Sum(ds, DonationAmount)
    ensures t.actualAidDisbursed == Sum(es, ExpenseAmount)
    ensures t.scheduledMonthlyAid == Sum(cs, CaseAmount)
  {
    var donations := Sum(ds, DonationAmount);
    var disbursed := Sum(es, ExpenseAmount);
    Totals(donations, disbursed, Sum(cs, CaseAmount), donations - disbursed)
  }

  /** The case list has no influence on the cash balance. */
  lemma BalanceIgnoresCases(cs1: seq<Case>, cs2: seq<Case>, ds: seq<Donation>, es: seq<Expense>)
    ensures DashboardTotals(cs1, ds, es).totalBalance == DashboardTotals(cs2, ds, es).totalBalance
  {
  }

  /** Recording a donation raises the balance by its amount. */
  lemma BalanceAfterDonation(cs: seq<Case>, ds: seq<Donation>, es: seq<Expense>, d: Donation)
    ensures DashboardTotals(cs, ds + [d], es).totalBalance == DashboardTotals(cs, ds, es).totalBalance + d.amount
  {
    SumAppend(ds, [d], DonationAmount);
  }

  /** Recording aid lowers the balance by its parsed amount; a non-numeric amount leaves it as it was. */
  lemma BalanceAfterAid(cs: seq<Case>, ds: seq<Donation>, es: seq<Expense>, e: Expense)
    ensures DashboardTotals(cs, ds, es + [e]).totalBalance == DashboardTotals(cs, ds, es).totalBalance - NumberOr0(e.amount)
    ensures ParseNumber(e.amount).None? ==> DashboardTotals(cs, ds, es + [e]) == DashboardTotals(cs, ds, es)
  {
    SumAppend(es, [e], ExpenseAmount);
  }

  /** The expenses with `id`. */
  function ExpenseIdIs(id: int): Expense -> bool {
    (e: Expense) => e.id == id
  }

  /** Deleting the expenses with `id` gives their amounts back to the balance. */
  lemma BalanceAfterDeleteExpense(cs: seq<Case>, ds: seq<Donation>, es: seq<Expense>, id: int)
    ensures DashboardTotals(cs, ds, Filter(es, ExpenseIdIsNot(id))).totalBalance
      == DashboardTotals(cs, ds, es).totalBalance + Sum(Filter(es, ExpenseIdIs(id)), ExpenseAmount)
  {
    SumFilterSplit(es, ExpenseIdIsNot(id), ExpenseIdIs(id), ExpenseAmount);
  }
}
