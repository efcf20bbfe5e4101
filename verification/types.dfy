/**
 The records of the application: customers, their contracts, notifications and
 the dashboard summary. Every string-literal union of the source becomes an
 enumeration; dates are whole day numbers and amounts are integer cents.
 */
module Types {
  import opened Common

  /** A calendar date or timestamp, as a number of whole days since a fixed epoch. */
  type Day = int

  /** A currency amount in cents. */
  type Cents = int

  /** A moment with its time of day, in milliseconds since the same epoch. */
  type Instant = int

  /** The length of a day; daylight-saving days of 23 or 25 hours are not modelled. */
  const DayMs := 86_400_000

  /** The moment day `d` begins. */
  function Midnight(d: Day): Instant {
    d * DayMs
  }

  /** `differenceInDays(a, b)`: the number of whole days from `b` to `a`, the
      fraction of a day dropped toward zero, so it is negative when `a` is
      more than a day before `b` and 0 for anything less than a day apart. */
  function DifferenceInDays(a: Instant, b: Instant): (r: int)
    ensures a >= b ==> r >= 0 && r * DayMs <= a - b < (r + 1) * DayMs
    ensures a < b ==> r <= 0 && -r * DayMs <= b - a < (-r + 1) * DayMs
  {
    if a >= b then (a - b) / DayMs else -((b - a) / DayMs)
  }

  /** Between two midnights the count is exact: the day numbers' difference. */
  lemma DifferenceOfMidnights(a: Day, b: Day)
    ensures DifferenceInDays(Midnight(a), Midnight(b)) == a - b
  {
    var r := DifferenceInDays(Midnight(a), Midnight(b));
    if a >= b {
      assert r * DayMs <= (a - b) * DayMs < (r + 1) * DayMs;
    } else {
      assert -r * DayMs <= (b - a) * DayMs < (-r + 1) * DayMs;
    }
  }

  datatype CustomerStatus = CustomerActive | CustomerInactive

  datatype ContractType = Domain | Hosting | Support | Other

  /** The status an author stores on a contract (not the status a page displays). */
  datatype ContractStatus = Active | Expired | Pending

  datatype NotificationType = ContractExpiring | ContractExpired | CustomerAdded | OtherNotice

  datatype RelatedKind = CustomerRef | ContractRef

  /** What a notification points at. */
  datatype Related = Related(kind: RelatedKind, id: string)

  datatype Customer = Customer(
    id: string,
    name: string,
    email: string,
    phone: string,
    contactPerson: string,
    address: string,
    createdAt: Day,
    status: CustomerStatus)

  /** `customerName` is a copy of the customer's name taken when the contract was
      built; nothing keeps it in step with later edits of the customer. */
  datatype Contract = Contract(
    id: string,
    customerId: string,
    customerName: string,
    kind: ContractType,
    name: string,
    startDate: Day,
    endDate: Day,
    renewalDate: Day,
    amount: Cents,
    status: ContractStatus,
    notes: Option<string>)

  datatype Notification = Notification(
    id: string,
    kind: NotificationType,
    message: string,
    relatedTo: Option<Related>,
    date: Day,
    read: bool)

  /** The seven figures the dashboard shows; derived, never stored. */
  datatype DashboardStats = DashboardStats(
    totalCustomers: nat,
    activeCustomers: nat,
    totalContracts: nat,
    expiringContracts: nat,
    contractsValue: Cents,
    upcomingRenewals: seq<Contract>,
    recentNotifications: seq<Notification>)

  /** A customer as the add form hands it over: everything but `id` and `createdAt`. */
  datatype CustomerDraft = CustomerDraft(
    name: string,
    email: string,
    phone: string,
    contactPerson: string,
    address: string,
    status: CustomerStatus)

  /** A contract as the add form hands it over: everything but `id`. */
  datatype ContractDraft = ContractDraft(
    customerId: string,
    customerName: string,
    kind: ContractType,
    name: string,
    startDate: Day,
    endDate: Day,
    renewalDate: Day,
    amount: Cents,
    status: ContractStatus,
    notes: Option<string>)

  // The string literals of each union, as the forms and filters see them.

  function CustomerStatusName(s: CustomerStatus): string {
    match s
    case CustomerActive => "active"
    case CustomerInactive => "inactive"
  }

  function ContractTypeName(t: ContractType): string {
    match t
    case Domain => "domain"
    case Hosting => "hosting"
    case Support => "support"
    case Other => "other"
  }

  function ContractStatusName(s: ContractStatus): string {
    match s
    case Active => "active"
    case Expired => "expired"
    case Pending => "pending"
  }

  /** What a `z.enum(['active', 'inactive'])` field accepts. */
  function ParseCustomerStatus(s: string): (r: Option<CustomerStatus>)
    ensures r.Some? <==> s == "active" || s == "inactive"
    ensures r.Some? ==> CustomerStatusName(r.value) == s
  {
    if s == "active" then Some(CustomerActive)
    else if s == "inactive" then Some(CustomerInactive)
    else None
  }

  /** What a `z.enum(['domain', 'hosting', 'support', 'other'])` field accepts. */
  function ParseContractType(s: string): (r: Option<ContractType>)
    ensures r.Some? <==> s in {"domain", "hosting", "support", "other"}
    ensures r.Some? ==> ContractTypeName(r.value) == s
  {
    if s == "domain" then Some(Domain)
    else if s == "hosting" then Some(Hosting)
    else if s == "support" then Some(Support)
    else if s == "other" then Some(Other)
    else None
  }

  /** What a `z.enum(['active', 'expired', 'pending'])` field accepts. */
  function ParseContractStatus(s: string): (r: Option<ContractStatus>)
    ensures r.Some? <==> s in {"active", "expired", "pending"}
    ensures r.Some? ==> ContractStatusName(r.value) == s
  {
    if s == "active" then Some(Active)
    else if s == "expired" then Some(Expired)
    else if s == "pending" then Some(Pending)
    else None
  }

  /** Each enumeration's literal reads back as the same value. */
  lemma EnumNamesRoundTrip(c: CustomerStatus, t: ContractType, s: ContractStatus)
    ensures ParseCustomerStatus(CustomerStatusName(c)) == Some(c)
    ensures ParseContractType(ContractTypeName(t)) == Some(t)
    ensures ParseContractStatus(ContractStatusName(s)) == Some(s)
  {
  }
}
