/**
 The in-memory data service: three arrays of records and the operations the
 pages call on them. The arrays become one immutable value `Db`; a call that
 mutates the arrays returns the new value together with what the call
 resolves to. The artificial latency of every call is not modelled.
 */
module Store {
  import opened Common
  import opened Types
  import Text

  datatype Db = Db(customers: seq<Customer>, contracts: seq<Contract>, notifications: seq<Notification>)

  /** The state after a mutating call, and the value the call resolves to. */
  datatype Update<R> = Update(db: Db, out: R)

  /** `Partial<Customer>`: every field may be absent. */
  datatype CustomerPatch = CustomerPatch(
    id: Option<string>,
    name: Option<string>,
    email: Option<string>,
    phone: Option<string>,
    contactPerson: Option<string>,
    address: Option<string>,
    createdAt: Option<Day>,
    status: Option<CustomerStatus>)

  /** `Partial<Contract>`. For the optional `notes`, the outer Option says
      whether the key is present at all and the inner one whether its value
      is a string or `undefined`: spreading a present `undefined` clears it. */
  datatype ContractPatch = ContractPatch(
    id: Option<string>,
    customerId: Option<string>,
    customerName: Option<string>,
    kind: Option<ContractType>,
    name: Option<string>,
    startDate: Option<Day>,
    endDate: Option<Day>,
    renewalDate: Option<Day>,
    amount: Option<Cents>,
    status: Option<ContractStatus>,
    notes: Option<Option<string>>)

  /** `{ ...c, ...p }`: fields present in `p` win, the others are kept. */
  function ApplyCustomerPatch(c: Customer, p: CustomerPatch): (r: Customer)
    ensures p.id.None? ==> r.id == c.id
    ensures p.id.Some? ==> r.id == p.id.value
    ensures p.name.None? ==> r.name == c.name
    ensures p.name.Some? ==> r.name == p.name.value
    ensures p.email.None? ==> r.email == c.email
    ensures p.email.Some? ==> r.email == p.email.value
    ensures p.phone.None? ==> r.phone == c.phone
    ensures p.phone.Some? ==> r.phone == p.phone.value
    ensures p.contactPerson.None? ==> r.contactPerson == c.contactPerson
    ensures p.contactPerson.Some? ==> r.contactPerson == p.contactPerson.value
    ensures p.address.None? ==> r.address == c.address
    ensures p.address.Some? ==> r.address == p.address.value
    ensures p.createdAt.None? ==> r.createdAt == c.createdAt
    ensures p.createdAt.Some? ==> r.createdAt == p.createdAt.value
    ensures p.status.None? ==> r.status == c.status
    ensures p.status.Some? ==> r.status == p.status.value
  {
    Customer(
      p.id.GetOr(c.id),
      p.name.GetOr(c.name),
      p.email.GetOr(c.email),
      p.phone.GetOr(c.phone),
      p.contactPerson.GetOr(c.contactPerson),
      p.address.GetOr(c.address),
      p.createdAt.GetOr(c.createdAt),
      p.status.GetOr(c.status))
  }

  /** `{ ...c, ...p }` for contracts. */
  function ApplyContractPatch(c: Contract, p: ContractPatch): (r: Contract)
    ensures p.id.None? ==> r.id == c.id
    ensures p.id.Some? ==> r.id == p.id.value
    ensures p.customerId.None? ==> r.customerId == c.customerId
    ensures p.customerId.Some? ==> r.customerId == p.customerId.value
    ensures p.customerName.None? ==> r.customerName == c.customerName
    ensures p.customerName.Some? ==> r.customerName == p.customerName.value
    ensures p.kind.None? ==> r.kind == c.kind
    ensures p.kind.Some? ==> r.kind == p.kind.value
    ensures p.name.None? ==> r.name == c.name
    ensures p.name.Some? ==> r.name == p.name.value
    ensures p.startDate.None? ==> r.startDate == c.startDate
    ensures p.startDate.Some? ==> r.startDate == p.startDate.value
    ensures p.endDate.None? ==> r.endDate == c.endDate
    ensures p.endDate.Some? ==> r.endDate == p.endDate.value
    ensures p.renewalDate.None? ==> r.renewalDate == c.renewalDate
    ensures p.renewalDate.Some? ==> r.renewalDate == p.renewalDate.value
    ensures p.amount.None? ==> r.amount == c.amount
    ensures p.amount.Some? ==> r.amount == p.amount.value
    ensures p.status.None? ==> r.status == c.status
    ensures p.status.Some? ==> r.status == p.status.value
    ensures p.notes.None? ==> r.notes == c.notes
    ensures p.notes.Some? ==> r.notes == p.notes.value
    ensures p.notes == Some(None) ==> r.notes.None?
  {
    Contract(
      p.id.GetOr(c.id),
      p.customerId.GetOr(c.customerId),
      p.customerName.GetOr(c.customerName),
      p.kind.GetOr(c.kind),
      p.name.GetOr(c.name),
      p.startDate.GetOr(c.startDate),
      p.endDate.GetOr(c.endDate),
      p.renewalDate.GetOr(c.renewalDate),
      p.amount.GetOr(c.amount),
      p.status.GetOr(c.status),
      p.notes.GetOr(c.notes))
  }

  /** Spreading the same patch twice is spreading it once. */
  lemma PatchIdempotent(c: Contract, p: ContractPatch, k: Customer, q: CustomerPatch)
    ensures ApplyContractPatch(ApplyContractPatch(c, p), p) == ApplyContractPatch(c, p)
    ensures ApplyCustomerPatch(ApplyCustomerPatch(k, q), q) == ApplyCustomerPatch(k, q)
  {
  }

  function CustomerIdIs(id: string): Customer -> bool {
    (c: Customer) => c.id == id
  }

  function ContractIdIs(id: string): Contract -> bool {
    (c: Contract) => c.id == id
  }

  function NotificationIdIs(id: string): Notification -> bool {
    (n: Notification) => n.id == id
  }

  function OfCustomer(customerId: string): Contract -> bool {
    (c: Contract) => c.customerId == customerId
  }

  predicate IsUnread(n: Notification) {
    !n.read
  }

  /** `fetchCustomerById`: the first customer carrying `id`, if any. */
  function FetchCustomerById(db: Db, id: string): (r: Option<Customer>)
    ensures r.None? <==> forall i :: 0 <= i < |db.customers| ==> db.customers[i].id != id
    ensures r.Some? ==> exists i :: 0 <= i < |db.customers| && db.customers[i] == r.value
                                    && r.value.id == id
                                    && forall j :: 0 <= j < i ==> db.customers[j].id != id
  {
    Find(db.customers, CustomerIdIs(id))
  }

  /** A lookup of a contract by id, written the way `fetchCustomerById` is.
      The contract detail page imports such a function, but the data service
      does not define it. */
  function FetchContractById(db: Db, id: string): (r: Option<Contract>)
    ensures r.None? <==> forall i :: 0 <= i < |db.contracts| ==> db.contracts[i].id != id
    ensures r.Some? ==> exists i :: 0 <= i < |db.contracts| && db.contracts[i] == r.value
                                    && r.value.id == id
                                    && forall j :: 0 <= j < i ==> db.contracts[j].id != id
  {
    Find(db.contracts, ContractIdIs(id))
  }

  /** `fetchContractsByCustomerId`: exactly that customer's contracts, in store order. */
  function FetchContractsByCustomerId(db: Db, customerId: string): (r: seq<Contract>)
    ensures forall i :: 0 <= i < |r| ==> r[i].customerId == customerId && r[i] in db.contracts
    ensures forall i :: 0 <= i < |db.contracts| ==>
              (db.contracts[i] in r <==> db.contracts[i].customerId == customerId)
    ensures IsSubsequence(r, db.contracts)
    ensures forall c :: multiset(r)[c] == if c.customerId == customerId then multiset(db.contracts)[c] else 0
  {
    forall c
      ensures multiset(Filter(db.contracts, OfCustomer(customerId)))[c]
              == if c.customerId == customerId then multiset(db.contracts)[c] else 0
    {
      FilterMultiplicity(db.contracts, OfCustomer(customerId), c);
    }
    Filter(db.contracts, OfCustomer(customerId))
  }

  /** `fetchUnreadNotificationsCount`. */
  function FetchUnreadNotificationsCount(db: Db): (r: nat)
    ensures r <= |db.notifications|
    ensures r == 0 <==> forall i :: 0 <= i < |db.notifications| ==> db.notifications[i].read
  {
    var unread := Filter(db.notifications, IsUnread);
    assert unread != [] ==> IsUnread(unread[0]) && unread[0] in db.notifications;
    |unread|
  }

  /** The fields of a customer that the add form supplies. */
  function CustomerDraftOf(c: Customer): CustomerDraft {
    CustomerDraft(c.name, c.email, c.phone, c.contactPerson, c.address, c.status)
  }

  /** The fields of a contract that the add form supplies. */
  function ContractDraftOf(c: Contract): ContractDraft {
    ContractDraft(c.customerId, c.customerName, c.kind, c.name, c.startDate, c.endDate,
                  c.renewalDate, c.amount, c.status, c.notes)
  }

  /** `addCustomer`: append one customer whose id is the decimal form of the
      new length and whose `createdAt` is the current time. */
  function AddCustomer(db: Db, d: CustomerDraft, now: Day): (r: Update<Customer>)
    ensures r.db.customers == db.customers + [r.out]
    ensures r.out.id == Text.Decimal(|db.customers| + 1)
    ensures r.out.createdAt == now
    ensures CustomerDraftOf(r.out) == d
    ensures r.db.contracts == db.contracts && r.db.notifications == db.notifications
  {
    var c := Customer(Text.Decimal(|db.customers| + 1), d.name, d.email, d.phone,
                      d.contactPerson, d.address, now, d.status);
    Update(db.(customers := db.customers + [c]), c)
  }

  /** `addContract`: append one contract whose id is the decimal form of the new length. */
  function AddContract(db: Db, d: ContractDraft): (r: Update<Contract>)
    ensures r.db.contracts == db.contracts + [r.out]
    ensures r.out.id == Text.Decimal(|db.contracts| + 1)
    ensures ContractDraftOf(r.out) == d
    ensures r.db.customers == db.customers && r.db.notifications == db.notifications
  {
    var c := Contract(Text.Decimal(|db.contracts| + 1), d.customerId, d.customerName, d.kind,
                      d.name, d.startDate, d.endDate, d.renewalDate, d.amount, d.status, d.notes);
    Update(db.(contracts := db.contracts + [c]), c)
  }

  /** `updateCustomer`: merge `p` into the first customer carrying `id`. */
  function UpdateCustomer(db: Db, id: string, p: CustomerPatch): (r: Update<Option<Customer>>)
    ensures r.out.None? <==> forall i :: 0 <= i < |db.customers| ==> db.customers[i].id != id
    ensures r.out.None? ==> r.db == db
    ensures r.out.Some? ==>
              |r.db.customers| == |db.customers|
              && exists i :: 0 <= i < |db.customers| && db.customers[i].id == id
                   && (forall j :: 0 <= j < i ==> db.customers[j].id != id)
                   && r.out.value == ApplyCustomerPatch(db.customers[i], p)
                   && r.db.customers == db.customers[i := r.out.value]
    ensures r.db.contracts == db.contracts && r.db.notifications == db.notifications
  {
    match FirstIndex(db.customers, CustomerIdIs(id))
    case None => Update(db, None)
    case Some(i) =>
      var c := ApplyCustomerPatch(db.customers[i], p);
      Update(db.(customers := db.customers[i := c]), Some(c))
  }

  /** `updateContract`: merge `p` into the first contract carrying `id`. */
  function UpdateContract(db: Db, id: string, p: ContractPatch): (r: Update<Option<Contract>>)
    ensures r.out.None? <==> forall i :: 0 <= i < |db.contracts| ==> db.contracts[i].id != id
    ensures r.out.None? ==> r.db == db
    ensures r.out.Some? ==>
              |r.db.contracts| == |db.contracts|
              && exists i :: 0 <= i < |db.contracts| && db.contracts[i].id == id
                   && (forall j :: 0 <= j < i ==> db.contracts[j].id != id)
                   && r.out.value == ApplyContractPatch(db.contracts[i], p)
                   && r.db.contracts == db.contracts[i := r.out.value]
    ensures r.db.customers == db.customers && r.db.notifications == db.notifications
  {
    match FirstIndex(db.contracts, ContractIdIs(id))
    case None => Update(db, None)
    case Some(i) =>
      var c := ApplyContractPatch(db.contracts[i], p);
      Update(db.(contracts := db.contracts[i := c]), Some(c))
  }

  /** `markNotificationAsRead`: set `read` on the first notification carrying `id`. */
  function MarkNotificationAsRead(db: Db, id: string): (r: Update<bool>)
    ensures r.out <==> exists i :: 0 <= i < |db.notifications| && db.notifications[i].id == id
    ensures !r.out ==> r.db == db
    ensures r.out ==>
              exists i :: 0 <= i < |db.notifications| && db.notifications[i].id == id
                && (forall j :: 0 <= j < i ==> db.notifications[j].id != id)
                && r.db.notifications == db.notifications[i := db.notifications[i].(read := true)]
    ensures |r.db.notifications| == |db.notifications|
    ensures r.db.customers == db.customers && r.db.contracts == db.contracts
  {
    match FirstIndex(db.notifications, NotificationIdIs(id))
    case None => Update(db, false)
    case Some(i) =>
      var n := db.notifications[i].(read := true);
      Update(db.(notifications := db.notifications[i := n]), true)
  }

  /** Marking the same notification twice is marking it once, and the
      second call reports the same outcome. */
  lemma MarkAsReadIdempotent(db: Db, id: string)
    ensures var once := MarkNotificationAsRead(db, id);
            MarkNotificationAsRead(once.db, id) == once
  {
    var ns := db.notifications;
    match FirstIndex(ns, NotificationIdIs(id))
    case None =>
    case Some(i) =>
      var ns' := ns[i := ns[i].(read := true)];
      assert forall j :: 0 <= j < |ns| ==> ns'[j].id == ns[j].id;
      FirstIndexIs(ns', NotificationIdIs(id), i);
      assert ns'[i := ns'[i].(read := true)] == ns';
  }

  /** Marking a notification lowers the unread count by one exactly when the
      notification it finds was unread; otherwise the count stays. */
  lemma MarkAsReadUnreadCount(db: Db, id: string)
    ensures var found := Find(db.notifications, NotificationIdIs(id));
            var after := MarkNotificationAsRead(db, id).db;
            FetchUnreadNotificationsCount(after)
              == FetchUnreadNotificationsCount(db) - (if found.Some? && !found.value.read then 1 else 0)
  {
    var ns := db.notifications;
    match FirstIndex(ns, NotificationIdIs(id))
    case None =>
    case Some(i) =>
      CountReplace(ns, i, ns[i].(read := true), IsUnread);
  }

  /** After an update that leaves the id alone, looking the id up again
      finds the merged record: untouched fields keep their old values. */
  lemma FetchAfterUpdateContract(db: Db, id: string, p: ContractPatch)
    requires p.id.None? || p.id == Some(id)
    ensures FetchContractById(UpdateContract(db, id, p).db, id)
            == match FetchContractById(db, id)
               case None => None
               case Some(c) => Some(ApplyContractPatch(c, p))
  {
    var cs := db.contracts;
    match FirstIndex(cs, ContractIdIs(id))
    case None =>
    case Some(i) =>
      var cs' := cs[i := ApplyContractPatch(cs[i], p)];
      FirstIndexIs(cs', ContractIdIs(id), i);
  }

  /** The same for customers. */
  lemma FetchAfterUpdateCustomer(db: Db, id: string, p: CustomerPatch)
    requires p.id.None? || p.id == Some(id)
    ensures FetchCustomerById(UpdateCustomer(db, id, p).db, id)
            == match FetchCustomerById(db, id)
               case None => None
               case Some(c) => Some(ApplyCustomerPatch(c, p))
  {
    var cs := db.customers;
    match FirstIndex(cs, CustomerIdIs(id))
    case None =>
    case Some(i) =>
      var cs' := cs[i := ApplyCustomerPatch(cs[i], p)];
      FirstIndexIs(cs', CustomerIdIs(id), i);
  }

  /** The ids the store hands out: the record at position `i` has id `i + 1`.
      The seed data satisfies this, and with no delete operation the
      `length + 1` rule keeps it. */
  ghost predicate SequentialIds(ids: seq<string>) {
    forall i :: 0 <= i < |ids| ==> ids[i] == Text.Decimal(i + 1)
  }

  /** The ids of a list of records, in list order. */
  function Ids<T>(s: seq<T>, id: T -> string): (r: seq<string>)
    ensures |r| == |s| && forall i :: 0 <= i < |s| ==> r[i] == id(s[i])
  {
    seq(|s|, i requires 0 <= i < |s| => id(s[i]))
  }

  function CustomerId(c: Customer): string {
    c.id
  }

  function ContractId(c: Contract): string {
    c.id
  }

  /** Sequential ids are pairwise distinct. */
  lemma SequentialIdsUnique(ids: seq<string>, i: nat, j: nat)
    requires SequentialIds(ids)
    requires i < |ids| && j < |ids| && ids[i] == ids[j]
    ensures i == j
  {
    Text.DecimalInjective(i + 1, j + 1);
  }

  /** The id an add is about to hand out is not in use yet. */
  lemma NextIdIsFresh(ids: seq<string>)
    requires SequentialIds(ids)
    ensures forall i :: 0 <= i < |ids| ==> ids[i] != Text.Decimal(|ids| + 1)
  {
    forall i | 0 <= i < |ids|
      ensures ids[i] != Text.Decimal(|ids| + 1)
    {
      if ids[i] == Text.Decimal(|ids| + 1) {
        Text.DecimalInjective(i + 1, |ids| + 1);
      }
    }
  }

  /** Adding keeps ids sequential, and the new customer is then the one found
      under its id. */
  lemma AddCustomerThenFetch(db: Db, d: CustomerDraft, now: Day)
    requires SequentialIds(Ids(db.customers, CustomerId))
    ensures var r := AddCustomer(db, d, now);
            SequentialIds(Ids(r.db.customers, CustomerId))
            && FetchCustomerById(r.db, r.out.id) == Some(r.out)
  {
    var r := AddCustomer(db, d, now);
    NextIdIsFresh(Ids(db.customers, CustomerId));
    FirstIndexIs(r.db.customers, CustomerIdIs(r.out.id), |db.customers|);
  }

  /** Adding keeps ids sequential, and the new contract is then the one found
      under its id. */
  lemma AddContractThenFetch(db: Db, d: ContractDraft)
    requires SequentialIds(Ids(db.contracts, ContractId))
    ensures var r := AddContract(db, d);
            SequentialIds(Ids(r.db.contracts, ContractId))
            && FetchContractById(r.db, r.out.id) == Some(r.out)
  {
    var r := AddContract(db, d);
    NextIdIsFresh(Ids(db.contracts, ContractId));
    FirstIndexIs(r.db.contracts, ContractIdIs(r.out.id), |db.contracts|);
  }

  /** An update whose patch has no `id` keeps ids sequential. */
  lemma UpdateContractKeepsIds(db: Db, id: string, p: ContractPatch)
    requires p.id.None?
    ensures Ids(UpdateContract(db, id, p).db.contracts, ContractId) == Ids(db.contracts, ContractId)
  {
  }
}
