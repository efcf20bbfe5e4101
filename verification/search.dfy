/**
 The search boxes of the contracts and customers pages: a case-insensitive
 substring test against a few text fields (plus, for contracts, a status
 drop-down), and the customer counters of the customers page.
 */
module Search {
  import opened Common
  import opened Types
  import Text
  import Store
  import Dashboard
  import Classifier

  /** `field.toLowerCase().includes(term.toLowerCase())`. */
  predicate Matches(field: string, term: string) {
    Text.Contains(Text.Lower(field), Text.Lower(term))
  }

  /** The text test of the contracts page: name, customer name or type. */
  predicate ContractMatchesTerm(c: Contract, term: string) {
    Matches(c.name, term) || Matches(c.customerName, term) || Matches(ContractTypeName(c.kind), term)
  }

  /** The status drop-down of the contracts page: `'all'` or a stored status literal. */
  predicate StatusMatches(c: Contract, statusFilter: string) {
    statusFilter == "all" || ContractStatusName(c.status) == statusFilter
  }

  function ContractSearch(term: string, statusFilter: string): Contract -> bool {
    (c: Contract) => ContractMatchesTerm(c, term) && StatusMatches(c, statusFilter)
  }

  /** `filteredContracts`: the contracts passing both tests, in list order. */
  function FilteredContracts(cs: seq<Contract>, term: string, statusFilter: string): (r: seq<Contract>)
    ensures forall i :: 0 <= i < |cs| ==>
              (cs[i] in r <==> ContractMatchesTerm(cs[i], term) && StatusMatches(cs[i], statusFilter))
    ensures forall i :: 0 <= i < |r| ==> r[i] in cs
    ensures IsSubsequence(r, cs)
  {
    Filter(cs, ContractSearch(term, statusFilter))
  }

  /** An empty search term matches every field. */
  lemma EmptyTermMatches(field: string)
    ensures Matches(field, "")
  {
    Text.ContainsEmpty(Text.Lower(field));
  }

  /** An empty term with status `'all'` shows the whole list. */
  lemma FilteredContractsShowAll(cs: seq<Contract>)
    ensures FilteredContracts(cs, "", "all") == cs
  {
    forall i | 0 <= i < |cs|
      ensures ContractSearch("", "all")(cs[i])
    {
      EmptyTermMatches(cs[i].name);
    }
    FilterAll(cs, ContractSearch("", "all"));
  }

  /** The search ignores the case of the term. */
  lemma FilteredContractsIgnoreCase(cs: seq<Contract>, term: string, statusFilter: string)
    ensures FilteredContracts(cs, Text.Lower(term), statusFilter) == FilteredContracts(cs, term, statusFilter)
  {
    Text.LowerIdempotent(term);
    FilterAgree(cs, ContractSearch(Text.Lower(term), statusFilter), ContractSearch(term, statusFilter));
  }

  /** A term that matches in a field matches every piece of that field it
      contains: typing more characters can only narrow the result. */
  lemma MatchesNarrow(field: string, shorter: string, longer: string)
    requires Text.Contains(Text.Lower(longer), Text.Lower(shorter))
    requires Matches(field, longer)
    ensures Matches(field, shorter)
  {
    Text.ContainsTransitive(Text.Lower(field), Text.Lower(longer), Text.Lower(shorter));
  }

  /** Extending the term keeps the result inside the previous result. */
  lemma FilteredContractsNarrow(cs: seq<Contract>, shorter: string, longer: string, statusFilter: string)
    requires Text.Contains(Text.Lower(longer), Text.Lower(shorter))
    ensures forall i :: 0 <= i < |cs| && cs[i] in FilteredContracts(cs, longer, statusFilter)
              ==> cs[i] in FilteredContracts(cs, shorter, statusFilter)
  {
    forall i | 0 <= i < |cs| && cs[i] in FilteredContracts(cs, longer, statusFilter)
      ensures cs[i] in FilteredContracts(cs, shorter, statusFilter)
    {
      var c := cs[i];
      if Matches(c.name, longer) {
        MatchesNarrow(c.name, shorter, longer);
      } else if Matches(c.customerName, longer) {
        MatchesNarrow(c.customerName, shorter, longer);
      } else {
        MatchesNarrow(ContractTypeName(c.kind), shorter, longer);
      }
    }
  }

  /** The three status choices split the `'all'` result between them. */
  lemma StatusChoicesPartition(cs: seq<Contract>, term: string)
    ensures |FilteredContracts(cs, term, "active")| + |FilteredContracts(cs, term, "expired")|
            + |FilteredContracts(cs, term, "pending")| == |FilteredContracts(cs, term, "all")|
  {
    var notActive := (c: Contract) => ContractMatchesTerm(c, term) && c.status != Active;
    CountSplit(cs, ContractSearch(term, "all"), ContractSearch(term, "active"), notActive);
    CountSplit(cs, notActive, ContractSearch(term, "expired"), ContractSearch(term, "pending"));
  }

  /** With an empty term, the active and expired counters above the list are
      the lengths of the list shown for the `'active'` and `'expired'` choices. */
  lemma CountersMatchStatusChoices(cs: seq<Contract>, now: Day)
    ensures Classifier.PageCounts(cs, now).active == |FilteredContracts(cs, "", "active")|
    ensures Classifier.PageCounts(cs, now).expired == |FilteredContracts(cs, "", "expired")|
  {
    forall i | 0 <= i < |cs|
      ensures ContractMatchesTerm(cs[i], "")
    {
      EmptyTermMatches(cs[i].name);
    }
    FilterAgree(cs, Classifier.IsActive, ContractSearch("", "active"));
    FilterAgree(cs, Classifier.IsExpired, ContractSearch("", "expired"));
  }

  /** The text test of the customers page: name, email or contact person. */
  predicate CustomerMatchesTerm(c: Customer, term: string) {
    Matches(c.name, term) || Matches(c.email, term) || Matches(c.contactPerson, term)
  }

  function CustomerSearch(term: string): Customer -> bool {
    (c: Customer) => CustomerMatchesTerm(c, term)
  }

  /** `filteredCustomers`. */
  function FilteredCustomers(cs: seq<Customer>, term: string): (r: seq<Customer>)
    ensures forall i :: 0 <= i < |cs| ==> (cs[i] in r <==> CustomerMatchesTerm(cs[i], term))
    ensures forall i :: 0 <= i < |r| ==> r[i] in cs
    ensures IsSubsequence(r, cs)
  {
    Filter(cs, CustomerSearch(term))
  }

  /** An empty term shows every customer. */
  lemma FilteredCustomersShowAll(cs: seq<Customer>)
    ensures FilteredCustomers(cs, "") == cs
  {
    forall i | 0 <= i < |cs|
      ensures CustomerSearch("")(cs[i])
    {
      EmptyTermMatches(cs[i].name);
    }
    FilterAll(cs, CustomerSearch(""));
  }

  /** The customer search ignores the case of the term. */
  lemma FilteredCustomersIgnoreCase(cs: seq<Customer>, term: string)
    ensures FilteredCustomers(cs, Text.Lower(term)) == FilteredCustomers(cs, term)
  {
    Text.LowerIdempotent(term);
    FilterAgree(cs, CustomerSearch(Text.Lower(term)), CustomerSearch(term));
  }

  predicate IsActiveCustomer(c: Customer) {
    c.status == CustomerActive
  }

  predicate IsInactiveCustomer(c: Customer) {
    c.status == CustomerInactive
  }

  datatype CustomerCounts = CustomerCounts(active: nat, inactive: nat)

  /** The two counters of the customers page; as the status has only two
      values, they add up to the number of customers. */
  function CustomerPageCounts(cs: seq<Customer>): (r: CustomerCounts)
    ensures r.active == |Filter(cs, IsActiveCustomer)| && r.inactive == |Filter(cs, IsInactiveCustomer)|
    ensures r.active + r.inactive == |cs|
  {
    var r := CustomerCounts(Count(cs, IsActiveCustomer), Count(cs, IsInactiveCustomer));
    CountSplit(cs, (c: Customer) => true, IsActiveCustomer, IsInactiveCustomer);
    FilterAll(cs, (c: Customer) => true);
    r
  }

  /** The active counter equals the list size exactly when no customer is inactive. */
  lemma AllActiveIff(cs: seq<Customer>)
    ensures CustomerPageCounts(cs).active == |cs|
            <==> forall i :: 0 <= i < |cs| ==> cs[i].status == CustomerActive
  {
    var inactive := Filter(cs, IsInactiveCustomer);
    if |inactive| > 0 {
      assert inactive[0] in cs && IsInactiveCustomer(inactive[0]);
    }
  }

  /** The customers page and the dashboard count active customers alike. */
  lemma CustomerCountsMatchDashboard(db: Store.Db, now: Day)
    ensures CustomerPageCounts(db.customers).active == Dashboard.FetchDashboardStats(db, now).activeCustomers
  {
    FilterAgree(db.customers, IsActiveCustomer, Dashboard.IsActiveCustomer);
  }
}
