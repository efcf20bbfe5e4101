/**
 The dashboard: the summary the data service computes from its three arrays
 (`fetchDashboardStats`), and the two presentation rules of the dashboard page
 (the urgency of a renewal entry, and the trend shown on a stat card).
 The service reads a `today` fixed when the module loads; here it is `now`.
 */
module Dashboard {
  import opened Common
  import opened Types
  import opened Badges
  import Store

  /** The look-ahead of the dashboard, in days. */
  const WindowDays := 30

  /** `isAfter(d, today) && isBefore(d, addDays(today, 30))`: both ends excluded. */
  predicate InWindow(now: Day, d: Day) {
    now < d < now + WindowDays
  }

  /** The window read at a moment `t` after the midnight of day `now`, as
      `today` is when the data service loads: it holds the midnights of days
      `now + 1` to `now + 30`, the thirtieth day included, where the window
      read at midnight stops at `now + 29`. */
  lemma WindowLaterInDay(now: Day, d: Day, t: int)
    requires 0 < t < DayMs
    ensures Midnight(now) + t < Midnight(d) < Midnight(now) + t + WindowDays * DayMs
            <==> now < d <= now + WindowDays
    ensures InWindow(now, d) <==> now < d < now + WindowDays
  {
    if d <= now {
      assert Midnight(d) <= Midnight(now);
    } else {
      assert Midnight(d) >= Midnight(now) + DayMs;
    }
    if d <= now + WindowDays {
      assert Midnight(d) <= Midnight(now) + WindowDays * DayMs;
    } else {
      assert Midnight(d) >= Midnight(now) + (WindowDays + 1) * DayMs;
    }
  }

  function RenewsSoon(now: Day): Contract -> bool {
    (c: Contract) => InWindow(now, c.renewalDate)
  }

  function EndsSoon(now: Day): Contract -> bool {
    (c: Contract) => InWindow(now, c.endDate)
  }

  function RenewsOn(d: Day): Contract -> bool {
    (c: Contract) => c.renewalDate == d
  }

  predicate IsActiveCustomer(c: Customer) {
    c.status == CustomerActive
  }

  predicate IsActiveContract(c: Contract) {
    c.status == Active
  }

  ghost predicate SortedByRenewal(s: seq<Contract>) {
    forall i, j :: 0 <= i < j < |s| ==> s[i].renewalDate <= s[j].renewalDate
  }

  /** An entry no later than every entry of a sorted list can go in front of it. */
  lemma PrependSorted(x: Contract, rest: seq<Contract>)
    requires SortedByRenewal(rest)
    requires forall i :: 0 <= i < |rest| ==> x.renewalDate <= rest[i].renewalDate
    ensures SortedByRenewal([x] + rest)
  {
    var r := [x] + rest;
    forall i, j | 0 <= i < j < |r|
      ensures r[i].renewalDate <= r[j].renewalDate
    {
      if i > 0 {
        assert r[i] == rest[i - 1] && r[j] == rest[j - 1];
      } else {
        assert r[j] == rest[j - 1];
      }
    }
  }

  /** Insert `c` in front of the first entry that does not renew earlier. */
  function InsertByRenewal(c: Contract, s: seq<Contract>): (r: seq<Contract>)
    requires SortedByRenewal(s)
    ensures |r| == |s| + 1
    ensures forall i :: 0 <= i < |r| ==> r[i] == c || r[i] in s
    ensures multiset(r) == multiset(s) + multiset{c}
    ensures SortedByRenewal(r)
  {
    if s == [] || c.renewalDate <= s[0].renewalDate then
      PrependSorted(c, s);
      [c] + s
    else
      var rest := InsertByRenewal(c, s[1..]);
      assert s == [s[0]] + s[1..];
      assert forall i :: 0 <= i < |rest| ==> s[0].renewalDate <= rest[i].renewalDate;
      PrependSorted(s[0], rest);
      [s[0]] + rest
  }

  /** The comparator sort of `fetchDashboardStats`, ascending by renewal date.
      The array sort of the language is stable, and so is this one: entries
      with equal renewal dates keep their input order. */
  function SortByRenewal(s: seq<Contract>): (r: seq<Contract>)
    ensures SortedByRenewal(r)
    ensures multiset(r) == multiset(s)
  {
    if s == [] then []
    else
      assert s == [s[0]] + s[1..];
      InsertByRenewal(s[0], SortByRenewal(s[1..]))
  }

  /** What inserting does to the entries of one renewal date. */
  lemma {:induction false} InsertKeepsDateOrder(c: Contract, s: seq<Contract>, d: Day)
    requires SortedByRenewal(s)
    ensures Filter(InsertByRenewal(c, s), RenewsOn(d))
            == (if c.renewalDate == d then [c] else []) + Filter(s, RenewsOn(d))
    decreases |s|
  {
    var r := InsertByRenewal(c, s);
    if s == [] || c.renewalDate <= s[0].renewalDate {
      assert r[0] == c && r[1..] == s;
    } else {
      InsertKeepsDateOrder(c, s[1..], d);
      assert r[0] == s[0] && r[1..] == InsertByRenewal(c, s[1..]);
    }
  }

  /** Stability: for every date, the entries renewing that day appear in the
      sorted list in the order they have in the input. */
  lemma {:induction false} SortIsStable(s: seq<Contract>, d: Day)
    ensures Filter(SortByRenewal(s), RenewsOn(d)) == Filter(s, RenewsOn(d))
    decreases |s|
  {
    if s != [] {
      SortIsStable(s[1..], d);
      InsertKeepsDateOrder(s[0], SortByRenewal(s[1..]), d);
    }
  }

  /** `reduce((sum, c) => sum + c.amount, 0)`: a left fold over the amounts. */
  function SumAmounts(cs: seq<Contract>): (r: Cents)
    ensures cs == [] ==> r == 0
    ensures cs != [] ==> r == cs[0].amount + SumAmounts(cs[1..])
  {
    if cs == [] then 0
    else
      assert |cs| > 1 ==> cs[1..][..|cs| - 2] == cs[..|cs| - 1][1..];
      SumAmounts(cs[..|cs| - 1]) + cs[|cs| - 1].amount
  }

  /** The fold adds up piecewise. */
  lemma {:induction false} SumAmountsConcat(a: seq<Contract>, b: seq<Contract>)
    ensures SumAmounts(a + b) == SumAmounts(a) + SumAmounts(b)
    decreases |b|
  {
    if b == [] {
      assert a + b == a;
    } else {
      SumAmountsConcat(a, b[..|b| - 1]);
      assert (a + b)[..|a + b| - 1] == a + b[..|b| - 1];
    }
  }

  /** The total does not depend on the order of the contracts. */
  lemma {:induction false} SumAmountsPermutation(a: seq<Contract>, b: seq<Contract>)
    requires multiset(a) == multiset(b)
    ensures SumAmounts(a) == SumAmounts(b)
    decreases |a|
  {
    if a == [] {
      assert |b| == |multiset(b)| == 0;
    } else {
      var x := a[0];
      assert x in multiset(b);
      var k :| 0 <= k < |b| && b[k] == x;
      var b' := b[..k] + b[k + 1..];
      assert b == b[..k] + [x] + b[k + 1..];
      assert a == [x] + a[1..];
      assert multiset(b) == multiset(b[..k]) + multiset{x} + multiset(b[k + 1..]);
      assert multiset(b') == multiset(b[..k]) + multiset(b[k + 1..]);
      assert multiset(a) == multiset{x} + multiset(a[1..]);
      assert multiset(a[1..]) == multiset(a) - multiset{x};
      assert multiset(b') == multiset(b) - multiset{x};
      SumAmountsPermutation(a[1..], b');
      SumAmountsConcat([x], a[1..]);
      SumAmountsConcat(b[..k] + [x], b[k + 1..]);
      SumAmountsConcat(b[..k], [x]);
      SumAmountsConcat(b[..k], b[k + 1..]);
      assert SumAmounts([x]) == x.amount by {
        assert [x][..0] == [];
      }
    }
  }

  /** The `contractsValue` figure: the amounts of the contracts stored as active. */
  function ActiveValue(cs: seq<Contract>): (r: Cents)
    ensures cs == [] ==> r == 0
    ensures cs != [] ==> r == (if cs[0].status == Active then cs[0].amount else 0) + ActiveValue(cs[1..])
    ensures (forall i :: 0 <= i < |cs| ==> cs[i].status == Active) ==> r == SumAmounts(cs)
    ensures (forall i :: 0 <= i < |cs| ==> cs[i].status != Active) ==> r == 0
  {
    var act := Filter(cs, IsActiveContract);
    assert (forall i :: 0 <= i < |cs| ==> cs[i].status != Active) ==> act == [] by {
      if act != [] {
        assert act[0] in cs;
      }
    }
    assert (forall i :: 0 <= i < |cs| ==> cs[i].status == Active) ==> act == cs by {
      if forall i :: 0 <= i < |cs| ==> cs[i].status == Active {
        FilterAll(cs, IsActiveContract);
      }
    }
    assert cs != [] && IsActiveContract(cs[0]) ==> act[1..] == Filter(cs[1..], IsActiveContract);
    SumAmounts(act)
  }

  /** The value figure is the same for any order of the contract list. */
  lemma ActiveValuePermutation(cs: seq<Contract>, ds: seq<Contract>)
    requires multiset(cs) == multiset(ds)
    ensures ActiveValue(cs) == ActiveValue(ds)
  {
    FilterPermutation(cs, ds, IsActiveContract);
    SumAmountsPermutation(Filter(cs, IsActiveContract), Filter(ds, IsActiveContract));
  }

  /** With no active contract the value figure is 0; with positive amounts it
      is positive as soon as one contract is active. */
  lemma {:induction false} ActiveValueSign(cs: seq<Contract>)
    requires forall i :: 0 <= i < |cs| ==> cs[i].amount > 0
    ensures ActiveValue(cs) == 0 <==> forall i :: 0 <= i < |cs| ==> cs[i].status != Active
  {
    var act := Filter(cs, IsActiveContract);
    PositiveSum(act);
    if act != [] {
      assert act[0] in cs && act[0].status == Active;
    }
  }

  lemma {:induction false} PositiveSum(cs: seq<Contract>)
    requires forall i :: 0 <= i < |cs| ==> cs[i].amount > 0
    ensures cs == [] <==> SumAmounts(cs) == 0
    ensures SumAmounts(cs) >= 0
    decreases |cs|
  {
    if cs != [] {
      PositiveSum(cs[..|cs| - 1]);
    }
  }

  /** The notifications the dashboard lists: the first three in store order. */
  function RecentNotifications(ns: seq<Notification>): (r: seq<Notification>)
    ensures |r| == if |ns| < 3 then |ns| else 3
    ensures forall i :: 0 <= i < |r| ==> r[i] == ns[i]
  {
    if |ns| <= 3 then ns else ns[..3]
  }

  /** The contracts that renew inside the window, soonest first. */
  function UpcomingRenewals(cs: seq<Contract>, now: Day): (r: seq<Contract>)
    ensures SortedByRenewal(r)
    ensures multiset(r) == multiset(Filter(cs, RenewsSoon(now)))
    ensures forall i :: 0 <= i < |r| ==> InWindow(now, r[i].renewalDate) && r[i] in cs
    ensures forall i :: 0 <= i < |cs| ==> (cs[i] in r <==> InWindow(now, cs[i].renewalDate))
  {
    var f := Filter(cs, RenewsSoon(now));
    var r := SortByRenewal(f);
    forall i | 0 <= i < |r|
      ensures r[i] in f
    {
      assert r[i] in multiset(r);
    }
    forall i | 0 <= i < |cs|
      ensures cs[i] in r <==> InWindow(now, cs[i].renewalDate)
    {
      if cs[i] in r {
        assert cs[i] in multiset(f);
      }
      if InWindow(now, cs[i].renewalDate) {
        assert cs[i] in multiset(f);
        assert cs[i] in multiset(r);
      }
    }
    r
  }

  /** `fetchDashboardStats` over the store at day `now`. */
  function FetchDashboardStats(db: Store.Db, now: Day): (r: DashboardStats)
    ensures r.totalCustomers == |db.customers| && r.totalContracts == |db.contracts|
    ensures r.activeCustomers == Count(db.customers, IsActiveCustomer)
    ensures r.activeCustomers <= r.totalCustomers
    ensures r.expiringContracts == Count(db.contracts, EndsSoon(now))
    ensures r.expiringContracts <= r.totalContracts
    ensures r.contractsValue == ActiveValue(db.contracts)
    ensures r.upcomingRenewals == UpcomingRenewals(db.contracts, now)
    ensures r.recentNotifications == RecentNotifications(db.notifications)
  {
    DashboardStats(
      |db.customers|,
      Count(db.customers, IsActiveCustomer),
      |db.contracts|,
      Count(db.contracts, EndsSoon(now)),
      ActiveValue(db.contracts),
      UpcomingRenewals(db.contracts, now),
      RecentNotifications(db.notifications))
  }

  /** An empty contract list gives zero contract figures and no renewals. */
  lemma NoContractsNoFigures(db: Store.Db, now: Day)
    requires db.contracts == []
    ensures var r := FetchDashboardStats(db, now);
            r.totalContracts == 0 && r.expiringContracts == 0
            && r.contractsValue == 0 && r.upcomingRenewals == []
  {
  }

  /** The badge variant of a renewal entry: up to a week is urgent, up to
      fifteen days is a warning, later is plain. */
  function RenewalVariant(days: int): (r: Variant)
    ensures r == Destructive <==> days <= 7
    ensures r == Secondary <==> 7 < days <= 15
    ensures r == Default <==> days > 15
  {
    if days <= 7 then Destructive
    else if days <= 15 then Secondary
    else Default
  }

  /** Rank of a renewal variant: higher is more urgent. */
  function Urgency(v: Variant): nat {
    match v
    case Destructive => 2
    case Secondary => 1
    case _ => 0
  }

  /** A renewal that is further away is never shown as more urgent. */
  lemma RenewalVariantMonotone(d1: int, d2: int)
    requires d1 <= d2
    ensures Urgency(RenewalVariant(d1)) >= Urgency(RenewalVariant(d2))
  {
  }

  /** The unit after the day count of a renewal entry. */
  function DayUnit(days: int): (r: string)
    ensures r == "day" <==> days == 1
    ensures r != "day" ==> r == "days"
  {
    if days == 1 then "day" else "days"
  }

  /** The count a renewal entry shows, `differenceInDays(renewal, new Date())`,
      reads the clock when the page renders, at `viewedAt`; the list itself
      was chosen against `today`, read once when the data service loaded and
      never since. With `today` no later than `viewedAt`, a listed entry shows
      at most 29 days, and no fewer than minus the whole days since `today`. */
  lemma UpcomingBadgeBounds(today: Instant, viewedAt: Instant, renewal: Instant)
    requires today < renewal < today + WindowDays * DayMs
    requires today <= viewedAt
    ensures DifferenceInDays(renewal, viewedAt) <= WindowDays - 1
    ensures DifferenceInDays(renewal, viewedAt) >= -DifferenceInDays(viewedAt, today)
  {
    var e := DifferenceInDays(viewedAt, today);
    var r := DifferenceInDays(renewal, viewedAt);
    if renewal < viewedAt {
      assert -r * DayMs <= viewedAt - renewal < viewedAt - today < (e + 1) * DayMs;
    }
  }

  /** The bounds are all there is: a renewal less than a day ahead of the
      render shows 0 days, and a tab left open past a listed renewal shows a
      negative count. */
  lemma UpcomingBadgeBelowOne()
    ensures var today := Midnight(0) + 15 * 3_600_000;
            today < Midnight(1) < today + WindowDays * DayMs
            && DifferenceInDays(Midnight(1), today) == 0
    ensures var today := Midnight(0);
            today < Midnight(1) < today + WindowDays * DayMs
            && DifferenceInDays(Midnight(1), Midnight(3)) == -2
  {
  }

  /** When both clocks read the same midnight, every listed entry shows
      between 1 and 29 days, the range the day-granular list promises. */
  lemma UpcomingEntriesAtMidnight(cs: seq<Contract>, now: Day)
    ensures forall c :: c in UpcomingRenewals(cs, now) ==>
              1 <= DifferenceInDays(Midnight(c.renewalDate), Midnight(now)) <= WindowDays - 1
  {
    forall c | c in UpcomingRenewals(cs, now)
      ensures 1 <= DifferenceInDays(Midnight(c.renewalDate), Midnight(now)) <= WindowDays - 1
    {
      DifferenceOfMidnights(c.renewalDate, now);
    }
  }

  datatype Arrow = Up | Down
  datatype Tone = Green | Red | Gray

  /** How a stat card shows its trend percentage. */
  datatype TrendView = TrendView(icon: Option<Arrow>, tone: Tone, shown: bool, magnitude: nat)

  function Abs(x: int): nat {
    if x < 0 then -x else x
  }

  /** The trend line of a stat card: an arrow and colour by sign, shown only
      for a non-zero trend, with the sign dropped from the number. */
  function Trend(t: int): (r: TrendView)
    ensures r.icon == Some(Up) <==> t > 0
    ensures r.icon == Some(Down) <==> t < 0
    ensures r.icon == None <==> t == 0
    ensures r.tone == Green <==> t > 0
    ensures r.tone == Red <==> t < 0
    ensures r.shown <==> t != 0
    ensures r.magnitude == Abs(t)
  {
    TrendView(
      if t > 0 then Some(Up) else if t < 0 then Some(Down) else None,
      if t > 0 then Green else if t < 0 then Red else Gray,
      t != 0,
      Abs(t))
  }

  /** Negating a trend flips arrow and colour and keeps the number shown. */
  lemma TrendMirror(t: int)
    requires t != 0
    ensures Trend(-t).magnitude == Trend(t).magnitude
    ensures Trend(-t).shown == Trend(t).shown
    ensures Trend(t).icon == Some(Up) <==> Trend(-t).icon == Some(Down)
    ensures Trend(t).tone == Green <==> Trend(-t).tone == Red
  {
  }
}
