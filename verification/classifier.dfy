/**
 The display status of a contract, as the list pages derive it from the
 stored status and the days left until the end date, the counters those
 pages show, and the contract detail page's badges and Renew rule.

 The contracts page and the customer detail page each define their own copy
 of the badge rule; both copies are modelled and shown to agree. `now` is the
 day of the clock reading the pages take on every call, read at its midnight.
 */
module Classifier {
  import opened Common
  import opened Types
  import opened Badges
  import Store
  import Dashboard

  datatype Label = ExpiredLabel | PendingLabel | ExpiringSoonLabel | ActiveLabel

  datatype Badge = Badge(caption: Label, variant: Variant)

  /** `differenceInDays(endDate, today)` with the clock read at the start of
      day `now`; negative once the end date has passed. */
  function DaysRemaining(endDate: Day, now: Day): (r: int)
    ensures r == DifferenceInDays(Midnight(endDate), Midnight(now))
  {
    DifferenceOfMidnights(endDate, now);
    endDate - now
  }

  /** Read later in day `now`, the count of a future end date is one lower, as
      the part of a day still to run is dropped; an end date that has come
      counts the same. */
  lemma DaysRemainingLaterInDay(endDate: Day, now: Day, t: int)
    requires 0 < t < DayMs
    ensures endDate > now ==> DifferenceInDays(Midnight(endDate), Midnight(now) + t) == DaysRemaining(endDate, now) - 1
    ensures endDate <= now ==> DifferenceInDays(Midnight(endDate), Midnight(now) + t) == DaysRemaining(endDate, now)
  {
    var r := DifferenceInDays(Midnight(endDate), Midnight(now) + t);
    if endDate > now {
      assert r * DayMs <= (endDate - now) * DayMs - t < (r + 1) * DayMs;
    } else {
      assert -r * DayMs <= (now - endDate) * DayMs + t < (-r + 1) * DayMs;
    }
  }

  /** `getStatusBadge` of the contracts page. The stored status decides first;
      only an active contract looks at its dates, and a date alone never makes
      it Expired. */
  function StatusBadge(status: ContractStatus, endDate: Day, now: Day): (r: Badge)
    ensures r.caption == ExpiredLabel <==> status == Expired
    ensures r.caption == PendingLabel <==> status == Pending
    ensures r.caption == ExpiringSoonLabel <==> status == Active && DaysRemaining(endDate, now) <= 30
    ensures r.caption == ActiveLabel <==> status == Active && DaysRemaining(endDate, now) > 30
    ensures r.variant == Destructive
            <==> status == Expired || (status == Active && DaysRemaining(endDate, now) <= 7)
    ensures r.variant == Secondary
            <==> status == Pending || (status == Active && 7 < DaysRemaining(endDate, now) <= 30)
    ensures r.variant == Outline <==> status == Active && DaysRemaining(endDate, now) > 30
  {
    var daysRemaining := DaysRemaining(endDate, now);
    if status == Expired then Badge(ExpiredLabel, Destructive)
    else if status == Pending then Badge(PendingLabel, Secondary)
    else
      assert status == Active;
      if daysRemaining <= 7 then Badge(ExpiringSoonLabel, Destructive)
      else if daysRemaining <= 30 then Badge(ExpiringSoonLabel, Secondary)
      else Badge(ActiveLabel, Outline)
  }

  /** `getStatusBadge` of the customer detail page, a separate copy of the rule. */
  function CustomerDetailStatusBadge(status: ContractStatus, endDate: Day, now: Day): (r: Badge)
    ensures r.caption == ExpiredLabel <==> status == Expired
    ensures r.caption == PendingLabel <==> status == Pending
  {
    var daysRemaining := DaysRemaining(endDate, now);
    if status == Expired then Badge(ExpiredLabel, Destructive)
    else if status == Pending then Badge(PendingLabel, Secondary)
    else if daysRemaining <= 7 then Badge(ExpiringSoonLabel, Destructive)
    else if daysRemaining <= 30 then Badge(ExpiringSoonLabel, Secondary)
    else Badge(ActiveLabel, Outline)
  }

  /** The two copies agree on every input. */
  lemma BadgeCopiesAgree(status: ContractStatus, endDate: Day, now: Day)
    ensures CustomerDetailStatusBadge(status, endDate, now) == StatusBadge(status, endDate, now)
  {
  }

  /** How urgent a badge reads: 0 for Active up to 2 for a destructive Expiring Soon. */
  function BadgeUrgency(b: Badge): nat {
    match b.caption
    case ActiveLabel => 0
    case ExpiringSoonLabel => if b.variant == Destructive then 2 else 1
    case _ => 0
  }

  /** For an active contract, less time left never reads as less urgent. */
  lemma StatusBadgeMonotone(endDate1: Day, endDate2: Day, now: Day)
    requires endDate1 <= endDate2
    ensures BadgeUrgency(StatusBadge(Active, endDate1, now))
            >= BadgeUrgency(StatusBadge(Active, endDate2, now))
  {
  }

  /** Moving the clock and the end date together leaves the badge alone. */
  lemma StatusBadgeShiftInvariant(status: ContractStatus, endDate: Day, now: Day, k: int)
    ensures StatusBadge(status, endDate + k, now + k) == StatusBadge(status, endDate, now)
  {
  }

  predicate IsActive(c: Contract) {
    c.status == Active
  }

  predicate IsExpired(c: Contract) {
    c.status == Expired
  }

  predicate IsPending(c: Contract) {
    c.status == Pending
  }

  /** The expiring filter of the list pages: active, and at most 30 days left,
      including contracts whose end date has already passed. */
  function ExpiringOnPage(now: Day): Contract -> bool {
    (c: Contract) => c.status == Active && DaysRemaining(c.endDate, now) <= 30
  }

  /** The three counters above a contract list. */
  datatype ContractCounts = ContractCounts(active: nat, expiring: nat, expired: nat)

  /** The counters of the contracts page (and, over one customer's contracts,
      of the customer detail page). */
  function PageCounts(cs: seq<Contract>, now: Day): (r: ContractCounts)
    ensures r.active == |Filter(cs, IsActive)| && r.expired == |Filter(cs, IsExpired)|
    ensures r.expiring == |Filter(cs, ExpiringOnPage(now))|
    ensures r.expiring <= r.active
    ensures r.active + r.expired <= |cs|
  {
    var r := ContractCounts(Count(cs, IsActive), Count(cs, ExpiringOnPage(now)), Count(cs, IsExpired));
    CountMonotone(cs, ExpiringOnPage(now), IsActive);
    CountSplit(cs, NotPending, IsActive, IsExpired);
    CountMonotone(cs, NotPending, (c: Contract) => true);
    r
  }

  predicate NotPending(c: Contract) {
    c.status != Pending
  }

  /** Every contract is active, expired or pending, so the counters plus the
      pending ones make up the whole list. */
  lemma {:induction false} PageCountsPartition(cs: seq<Contract>, now: Day)
    ensures PageCounts(cs, now).active + PageCounts(cs, now).expired + Count(cs, IsPending) == |cs|
    decreases |cs|
  {
    if cs != [] {
      PageCountsPartition(cs[1..], now);
    }
  }

  /** The expiring counter is exactly the number of rows whose badge reads
      "Expiring Soon". */
  lemma ExpiringCountMatchesBadges(cs: seq<Contract>, now: Day)
    ensures PageCounts(cs, now).expiring
            == Count(cs, (c: Contract) => StatusBadge(c.status, c.endDate, now).caption == ExpiringSoonLabel)
  {
    FilterAgree(cs, ExpiringOnPage(now),
                (c: Contract) => StatusBadge(c.status, c.endDate, now).caption == ExpiringSoonLabel);
  }

  /** The counters of the customer detail page: the page counters over the
      contracts the store returns for that customer. */
  function CustomerDetailCounts(db: Store.Db, customerId: string, now: Day): (r: ContractCounts)
    ensures r.active == Count(db.contracts, (c: Contract) => c.customerId == customerId && c.status == Active)
    ensures r.expired == Count(db.contracts, (c: Contract) => c.customerId == customerId && c.status == Expired)
    ensures r.expiring == Count(db.contracts, (c: Contract) =>
              c.customerId == customerId && c.status == Active && DaysRemaining(c.endDate, now) <= 30)
    ensures r.expiring <= r.active
    ensures r.active + r.expired <= |Store.FetchContractsByCustomerId(db, customerId)|
  {
    var mine := Store.FetchContractsByCustomerId(db, customerId);
    FilterOfFilter(db.contracts, Store.OfCustomer(customerId), IsActive,
                   (c: Contract) => c.customerId == customerId && c.status == Active);
    FilterOfFilter(db.contracts, Store.OfCustomer(customerId), IsExpired,
                   (c: Contract) => c.customerId == customerId && c.status == Expired);
    FilterOfFilter(db.contracts, Store.OfCustomer(customerId), ExpiringOnPage(now),
                   (c: Contract) => c.customerId == customerId && c.status == Active && DaysRemaining(c.endDate, now) <= 30);
    PageCounts(mine, now)
  }

  /** Filtering by `p` and then by `q` is filtering by their conjunction. */
  lemma {:induction false} FilterOfFilter<T>(s: seq<T>, p: T -> bool, q: T -> bool, pq: T -> bool)
    requires forall i :: 0 <= i < |s| ==> (pq(s[i]) <==> p(s[i]) && q(s[i]))
    ensures Filter(Filter(s, p), q) == Filter(s, pq)
    decreases |s|
  {
    if s != [] {
      FilterOfFilter(s[1..], p, q, pq);
      if p(s[0]) {
        assert Filter(s, p)[0] == s[0] && Filter(s, p)[1..] == Filter(s[1..], p);
      }
    }
  }

  /** The list pages and the dashboard count "expiring" differently: the pages
      count stored-active contracts with at most 30 days left, past ones
      included; the dashboard counts contracts of any status ending strictly
      inside the next 30 days. A contract that ended yesterday shows up only
      on the pages; an expired one ending next week only on the dashboard. */
  lemma ExpiringCountsDiffer(now: Day)
    ensures var lapsed := Contract("1", "1", "A", Domain, "ab", now - 100, now - 1, now - 10, 100, Active, None);
            var closed := Contract("2", "1", "A", Domain, "cd", now - 100, now + 7, now + 1, 100, Expired, None);
            && PageCounts([lapsed], now).expiring == 1
            && Count([lapsed], Dashboard.EndsSoon(now)) == 0
            && PageCounts([closed], now).expiring == 0
            && Count([closed], Dashboard.EndsSoon(now)) == 1
  {
    var lapsed := Contract("1", "1", "A", Domain, "ab", now - 100, now - 1, now - 10, 100, Active, None);
    var closed := Contract("2", "1", "A", Domain, "cd", now - 100, now + 7, now + 1, 100, Expired, None);
    assert [lapsed][1..] == [] && [closed][1..] == [];
  }

  /** The Renew button of the detail page is enabled unless the contract is
      stored as active and its end date is not yet past (`isPast`). */
  function CanRenew(c: Contract, now: Day): (r: bool)
    ensures r <==> c.endDate < now || c.status != Active
  {
    var isExpired := c.endDate < now;
    !(!isExpired && c.status == Active)
  }

  /** `isPast(endDate)` read at a moment `t` after the midnight of day `now`:
      the end date has passed as soon as its own day has begun, so on the end
      day itself an active contract can already be renewed, a day before
      `CanRenew` at the midnight clock allows it. */
  lemma CanRenewLaterInDay(c: Contract, now: Day, t: int)
    requires 0 < t < DayMs
    ensures (Midnight(c.endDate) < Midnight(now) + t || c.status != Active)
            <==> c.endDate <= now || c.status != Active
    ensures c.status == Active && c.endDate == now
            ==> Midnight(c.endDate) < Midnight(now) + t && !CanRenew(c, now)
    ensures c.endDate != now ==> (Midnight(c.endDate) < Midnight(now) + t || c.status != Active) == CanRenew(c, now)
  {
    if c.endDate > now {
      assert Midnight(c.endDate) >= Midnight(now + 1) == Midnight(now) + DayMs;
    }
  }

  /** Expired and pending contracts can always be renewed; an active one only
      once its end date has passed, and then its list badge is the urgent
      "Expiring Soon", never "Expired". */
  lemma RenewAgainstListBadge(c: Contract, now: Day)
    ensures c.status != Active ==> CanRenew(c, now)
    ensures c.status == Active && c.endDate >= now ==> !CanRenew(c, now)
    ensures c.status == Active && CanRenew(c, now)
            ==> StatusBadge(c.status, c.endDate, now) == Badge(ExpiringSoonLabel, Destructive)
  {
  }

  /** The status badge of the detail page: the stored status alone, whatever
      the dates. */
  function DetailStatusBadge(status: ContractStatus): (r: Badge)
    ensures r.caption == ExpiredLabel <==> status == Expired
    ensures r.caption == PendingLabel <==> status == Pending
    ensures r.caption == ActiveLabel <==> status == Active
  {
    match status
    case Active => Badge(ActiveLabel, Default)
    case Expired => Badge(ExpiredLabel, Destructive)
    case Pending => Badge(PendingLabel, Outline)
  }

  /** Outside the stored-active case the detail page and the list pages show
      the same label; an active contract near its end reads "Active" on the
      detail page but "Expiring Soon" in the lists. */
  lemma DetailAgainstListBadge(c: Contract, now: Day)
    ensures c.status != Active ==>
              DetailStatusBadge(c.status).caption == StatusBadge(c.status, c.endDate, now).caption
    ensures c.status == Active && DaysRemaining(c.endDate, now) <= 30 ==>
              DetailStatusBadge(c.status).caption != StatusBadge(c.status, c.endDate, now).caption
  {
  }

  /** The type badge of the detail page: one caption per contract type. */
  function TypeBadge(t: ContractType): (r: string)
    ensures |r| > 0
  {
    match t
    case Domain => "Domain"
    case Hosting => "Hosting"
    case Support => "Support"
    case Other => "Other"
  }

  /** The type badge map is total and tells the four types apart. */
  lemma TypeBadgeInjective(t: ContractType, u: ContractType)
    ensures TypeBadge(t) == TypeBadge(u) <==> t == u
  {
  }
}
