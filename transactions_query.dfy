/**
 * The transaction list query (lib/transactions.ts): one order-preserving
 * filter over the transaction list by month, account and free-text search.
 * The list itself is a parameter rather than the fixed mock data.
 */
module TransactionsQuery {
  import opened Wrappers
  import opened Text
  import opened Domain

  /** The optional query filters; `null` and `undefined` are both None. */
  datatype Filters = Filters(month: Option<string>, account: Option<string>, search: Option<string>)

  /** `monthMap`: display names of months to their `YYYY-MM` date prefix. */
  const MONTH_MAP: map<string, string> := map["January 2024" := "2024-01"]

  const ALL_ACCOUNTS := "All Accounts"

  /** `filters.month ? monthMap[filters.month] ?? filters.month : undefined` */
  function MonthKey(month: Option<string>): (k: Option<string>)
    ensures k.Some? <==> Truthy(month)
    ensures Truthy(month) && month.value in MONTH_MAP ==> k.value == MONTH_MAP[month.value]
    ensures Truthy(month) && month.value !in MONTH_MAP ==> k.value == month.value
  {
    if !Truthy(month) then None
    else if month.value in MONTH_MAP then Some(MONTH_MAP[month.value])
    else month
  }

  /** `filters.search?.toLowerCase().trim()` */
  function NormalizedSearch(search: Option<string>): (n: Option<string>)
    ensures n.Some? <==> search.Some?
    ensures n.Some? ==> n.value == Trim(ToLower(search.value))
  {
    match search
    case None => None
    case Some(s) => Some(Trim(ToLower(s)))
  }

  /** The account filter applies only to a real account name. */
  predicate FiltersByAccount(account: Option<string>) {
    Truthy(account) && account.value != ALL_ACCOUNTS
  }

  /** The searched text: merchant and description, lowercased. */
  function Haystack(t: Transaction): string {
    ToLower(t.merchant + " " + t.description)
  }

  /** The predicate given to `filter`. */
  predicate Matches(filters: Filters, t: Transaction) {
    var monthKey := MonthKey(filters.month);
    var search := NormalizedSearch(filters.search);
    && (Truthy(monthKey) ==> StartsWith(t.date, monthKey.value))
    && (FiltersByAccount(filters.account) ==> t.account == filters.account.value)
    && (Truthy(search) ==> Contains(Haystack(t), search.value))
  }

  /** `r` is `s` with some elements dropped and the rest in their original order. */
  predicate IsSubsequence(r: seq<Transaction>, s: seq<Transaction>) {
    if r == [] then true
    else if s == [] then false
    else if r[|r| - 1] == s[|s| - 1] then IsSubsequence(r[..|r| - 1], s[..|s| - 1])
    else IsSubsequence(r, s[..|s| - 1])
  }

  /** `getTransactions(filters)` over the list `all`. */
  function GetTransactions(all: seq<Transaction>, filters: Filters): (r: seq<Transaction>)
    ensures forall t :: t in r <==> t in all && Matches(filters, t)
    ensures IsSubsequence(r, all)
    ensures forall x :: multiset(r)[x] == if Matches(filters, x) then multiset(all)[x] else 0
  {
    if all == [] then []
    else
      var init := all[..|all| - 1];
      var last := all[|all| - 1];
      assert all == init + [last];
      assert multiset(all) == multiset(init) + multiset{last};
      var prefix := GetTransactions(init, filters);
      if Matches(filters, last) then prefix + [last] else prefix
  }

  /** With no filter set, every transaction matches. */
  lemma NoFiltersMatchEverything(t: Transaction)
    ensures Matches(Filters(None, None, None), t)
  {
  }

  /** A subsequence is never longer than its source, and one of the same length is the source itself. */
  lemma {:induction false} SubsequenceOfSameLength(r: seq<Transaction>, s: seq<Transaction>)
    requires IsSubsequence(r, s)
    ensures |r| <= |s|
    ensures |r| == |s| ==> r == s
  {
    if r != [] && s != [] {
      var r', s' := r[..|r| - 1], s[..|s| - 1];
      if r[|r| - 1] == s[|s| - 1] {
        SubsequenceOfSameLength(r', s');
        assert r == r' + [r[|r| - 1]] && s == s' + [s[|s| - 1]];
      } else {
        SubsequenceOfSameLength(r, s');
      }
    }
  }

  /** With no filter set, the whole list comes back in order. */
  lemma NoFiltersKeepsEverything(all: seq<Transaction>)
    ensures GetTransactions(all, Filters(None, None, None)) == all
  {
    var r := GetTransactions(all, Filters(None, None, None));
    forall x {
      NoFiltersMatchEverything(x);
    }
    assert multiset(r) == multiset(all);
    assert |r| == |multiset(r)| == |all|;
    SubsequenceOfSameLength(r, all);
  }

  /** Two filter settings that accept the same transactions give the same list. */
  lemma {:induction false} SameVerdictSameResult(all: seq<Transaction>, f: Filters, g: Filters)
    requires forall t :: t in all ==> (Matches(f, t) <==> Matches(g, t))
    ensures GetTransactions(all, f) == GetTransactions(all, g)
  {
    if all != [] {
      SameVerdictSameResult(all[..|all| - 1], f, g);
    }
  }

  /** A search of only white space imposes no filter. */
  lemma BlankSearchIsNoSearch(all: seq<Transaction>, f: Filters)
    requires f.search.Some? && AllSpace(f.search.value)
    ensures GetTransactions(all, f) == GetTransactions(all, f.(search := None))
  {
    var lowered := ToLower(f.search.value);
    assert AllSpace(lowered);
    assert !Truthy(NormalizedSearch(f.search));
    SameVerdictSameResult(all, f, f.(search := None));
  }

  /** "All Accounts" is the same as no account filter. */
  lemma AllAccountsIsNoAccountFilter(all: seq<Transaction>, f: Filters)
    requires f.account == Some(ALL_ACCOUNTS)
    ensures GetTransactions(all, f) == GetTransactions(all, f.(account := None))
  {
    SameVerdictSameResult(all, f, f.(account := None));
  }

  /** A month name in `monthMap` filters by its date prefix, so every result
      is dated in that month. */
  lemma MonthNameSelectsItsPrefix(all: seq<Transaction>, f: Filters)
    requires f.month == Some("January 2024")
    ensures forall t :: t in GetTransactions(all, f) ==> StartsWith(t.date, "2024-01")
  {
  }
}
