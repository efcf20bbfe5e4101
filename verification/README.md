# Contract Watcher — a Dafny model of its domain layer

Contract Watcher is a small single-page application. It tracks customers, the
contracts they hold (domains, hosting, support), when those contracts end and
renew, and notifications about them. This project models the logic that sits
under its screens. The model is pure functions over immutable records, with
proved contracts and lemmas.

- **Data service** (`store.dfy`, `dashboard.dfy`). The in-memory store is a
  value `Db` holding three sequences. Each mutating call is a function from
  the old store to the new store plus its result. Modelled:
  - lookups by id and by customer;
  - appends with the `length + 1` id rule;
  - partial updates merged field by field;
  - marking a notification read;
  - the dashboard summary, including its windowed and stably sorted list of
    upcoming renewals.
- **Contract status** (`classifier.dfy`). Covers:
  - the status badge the contract lists show, duplicated on two pages;
  - the counters above those lists;
  - the detail page's status and type badges;
  - when the detail page enables "Renew".
- **Forms** (`forms.dfy`). The add-contract, edit-contract, renew-contract
  and add-customer schemas, what each form opens with, and the record or
  partial update each one sends to the data service.
- **List and string rules** (`search.dfy`, `notifications.dfy`,
  `dashboard.dfy`, `sidebar.dfy`). Covers:
  - the case-insensitive search boxes;
  - the notification filters, counters and links;
  - the urgency and trend displays of the dashboard;
  - the sidebar's active-entry rule.
- **Support** (`common.dfy`, `text.dfy`, `types.dfy`, `badges.dfy`).
  - `Array.prototype.filter`, `find` and `findIndex` as `Filter`, `Find` and
    `FirstIndex`.
  - ASCII lowercasing, substring search, and the decimal form of a
    non-negative integer.
  - The records and string-literal unions of the application as datatypes.
  - The badge variants.

Conventions:
- **Dates** are whole day numbers (`Day = int`). `now` is a parameter
  wherever the source reads the clock. `differenceInDays` is whole days between two moments, the fraction dropped toward zero (`Types.DifferenceInDays`); between the midnights of two day numbers `a` and `b` it is exactly `a - b`.
- **Amounts** are integer cents.
- **Enumerations** are datatypes. The forms still see their raw strings, and
  `Types.Parse…` reads those strings back.
- **`addYears(d, 1)`** is passed to the renew form as a caller-supplied
  function `addYear` that never reverses the order of two dates.
- **The e-mail check** of the customer schema is passed in as a
  caller-supplied predicate `isEmail`.

The forms' schemas follow how the validation library they use evaluates an
object schema:
- Fields are checked in declaration order, and every failing field adds an
  issue.
- A failed length or sign check only marks the result invalid.
- A missing date, an unknown enumeration literal or a non-numeric amount
  aborts the object. The `.refine` checks chained after it (end after start,
  renewal not after end) then do not run.

## Model

| member | source | states |
|---|---|---|
| Types.ParseCustomerStatus | src/types/index.ts:10 | a customer status string is accepted iff it is `active` or `inactive`, and the accepted value names itself back |
| Types.ParseContractType | src/types/index.ts:17 | a contract type string is accepted iff it is one of the four literals, and round-trips |
| Types.ParseContractStatus | src/types/index.ts:23 | a contract status string is accepted iff it is `active`, `expired` or `pending`, and round-trips |
| Types.DifferenceInDays | src/pages/Dashboard.tsx:72 | `differenceInDays`: whole days between two moments, the fraction dropped toward zero, with the sign of their order |
| Types.DifferenceOfMidnights | src/pages/Dashboard.tsx:72 | between two midnights the count is exactly the difference of the day numbers |
| Types.EnumNamesRoundTrip | src/types/index.ts:2-47 | every enumeration value's literal parses back to the same value |
| Text.Lower | src/pages/ContractsPage.tsx:101-103 | lowercasing keeps the length and maps each character on its own |
| Text.LowerIdempotent | src/pages/ContractsPage.tsx:101-103 | lowercasing twice is lowercasing once |
| Text.ContainsTransitive | src/pages/ContractsPage.tsx:101-103 | a substring of a substring is a substring |
| Text.Decimal | src/services/dataService.ts:285 | the id string of a number is one or more decimal digits, with no leading zero |
| Text.DigitsValueOfDecimal | src/services/dataService.ts:285 | the decimal string of `n` reads back as `n` |
| Text.DecimalInjective | src/services/dataService.ts:285-297 | distinct lengths give distinct ids |
| Store.ApplyCustomerPatch | src/services/dataService.ts:308 | the customer spread `{...c, ...p}`: every field present in the patch takes the patch's value, every field it leaves out is kept |
| Store.ApplyContractPatch | src/services/dataService.ts:318 | the contract spread: every field present in the patch takes the patch's value, every field it leaves out is kept; a present `undefined` note clears the note |
| Store.PatchIdempotent | src/services/dataService.ts:305-322 | spreading the same patch twice equals spreading it once |
| Store.FetchCustomerById | src/services/dataService.ts:222-225 | none iff no customer has the id; otherwise the first customer carrying it |
| Store.FetchContractById | src/pages/ContractDetailPage.tsx:38 | the same lookup for contracts (imported by the page, absent from the data service) |
| Store.FetchContractsByCustomerId | src/services/dataService.ts:232-235 | exactly the contracts of that customer, each as many times as the store holds it, as an order-preserving subsequence of the store |
| Store.FetchUnreadNotificationsCount | src/services/dataService.ts:242-245 | at most the number of notifications, and 0 iff every notification is read |
| Store.AddCustomer | src/services/dataService.ts:282-291 | appends one customer with id `length + 1` in decimal, createdAt now, the other fields as given; nothing else changes |
| Store.AddContract | src/services/dataService.ts:294-302 | appends one contract with id `length + 1` in decimal and the given fields; nothing else changes |
| Store.UpdateCustomer | src/services/dataService.ts:305-312 | none and no change iff the id is absent; otherwise only the first match is replaced, by the merge, and returned |
| Store.UpdateContract | src/services/dataService.ts:315-322 | none and no change iff the id is absent; otherwise only the first match is replaced, by the merge, and returned |
| Store.MarkNotificationAsRead | src/services/dataService.ts:325-332 | true iff the id is present; then only the first match gets `read = true`; otherwise nothing changes |
| Store.MarkAsReadIdempotent | src/services/dataService.ts:325-332 | marking twice equals marking once, with the same answer |
| Store.MarkAsReadUnreadCount | src/services/dataService.ts:325-332 | marking lowers the unread count by one exactly when the notification found was unread |
| Store.FetchAfterUpdateContract | src/services/dataService.ts:315-322 | after an update that keeps the id, the lookup returns the old contract merged with the patch |
| Store.FetchAfterUpdateCustomer | src/services/dataService.ts:305-312 | after an update that keeps the id, the lookup returns the old customer merged with the patch |
| Store.SequentialIdsUnique | src/services/dataService.ts:282-302 | ids handed out by the `length + 1` rule are pairwise distinct |
| Store.NextIdIsFresh | src/services/dataService.ts:282-302 | the next id is not yet in use |
| Store.AddCustomerThenFetch | src/services/dataService.ts:282-291 | an add keeps ids sequential, and the new customer is then found under its id |
| Store.AddContractThenFetch | src/services/dataService.ts:294-302 | an add keeps ids sequential, and the new contract is then found under its id |
| Store.UpdateContractKeepsIds | src/services/dataService.ts:315-322 | an update whose patch carries no id leaves every id in place |
| Dashboard.InsertByRenewal | src/services/dataService.ts:257 | inserting into a list sorted by renewal date keeps it sorted and adds exactly that contract |
| Dashboard.SortByRenewal | src/services/dataService.ts:257 | the sort yields a permutation of its input, ascending by renewal date |
| Dashboard.InsertKeepsDateOrder | src/services/dataService.ts:257 | an insert puts the new contract ahead of the entries of the same renewal date, whose order it keeps |
| Dashboard.SortIsStable | src/services/dataService.ts:257 | for every date, the contracts renewing that day keep their store order |
| Dashboard.SumAmounts | src/services/dataService.ts:266-268 | the left fold over the amounts is 0 on no contracts and the first amount plus the rest otherwise |
| Dashboard.ActiveValue | src/services/dataService.ts:266-268 | the value figure is 0 on no contracts, and otherwise the first contract's amount if it is stored active, plus the figure of the rest; so it is the full sum when all are active and 0 when none is |
| Dashboard.SumAmountsConcat | src/services/dataService.ts:266-268 | the amount fold adds up piecewise |
| Dashboard.SumAmountsPermutation | src/services/dataService.ts:266-268 | the amount fold does not depend on order |
| Dashboard.ActiveValuePermutation | src/services/dataService.ts:266-268 | the value figure does not depend on the order of the contracts |
| Dashboard.ActiveValueSign | src/services/dataService.ts:266-268 | with positive amounts, the value figure is 0 iff no contract is stored as active |
| Dashboard.PositiveSum | src/services/dataService.ts:268 | a sum of positive amounts is 0 iff there are none, and is never negative |
| Dashboard.RecentNotifications | src/services/dataService.ts:277 | the first `min(3, n)` notifications, in order |
| Dashboard.UpcomingRenewals | src/services/dataService.ts:250-257 | sorted by renewal date, a permutation of the contracts (any status) renewing strictly inside `(now, now + 30)` |
| Dashboard.FetchDashboardStats | src/services/dataService.ts:247-279 | the seven figures: the lengths, active customers, contracts ending inside the window (any status), the active value, the renewals, the first notifications |
| Dashboard.NoContractsNoFigures | src/services/dataService.ts:259-278 | with no contracts, the contract figures are 0 and the renewal list is empty |
| Dashboard.RenewalVariant | src/pages/Dashboard.tsx:72-79 | destructive iff at most 7 days, secondary iff 8 to 15, default iff more than 15 |
| Dashboard.RenewalVariantMonotone | src/pages/Dashboard.tsx:72-79 | a renewal further away never reads as more urgent |
| Dashboard.DayUnit | src/pages/Dashboard.tsx:89 | "day" iff the count is exactly 1, otherwise "days" (0 and negatives included) |
| Dashboard.WindowLaterInDay | src/services/dataService.ts:250-255 | read after midnight of day `now`, the window holds exactly days `now + 1` to `now + 30`; read at midnight, days `now + 1` to `now + 29` |
| Dashboard.UpcomingBadgeBounds | src/pages/Dashboard.tsx:70-89 | with the list chosen against the load-time `today` and the badge read at a later render, a listed badge shows at most 29 days and at least minus the whole days since `today` |
| Dashboard.UpcomingBadgeBelowOne | src/pages/Dashboard.tsx:70-89 | a listed renewal less than a day ahead shows 0 days; a tab left open past it shows a negative count |
| Dashboard.UpcomingEntriesAtMidnight | src/pages/Dashboard.tsx:70-89 | when both clocks read the same midnight, every listed entry shows 1 to 29 days |
| Dashboard.Trend | src/pages/Dashboard.tsx:38-53 | up arrow and green iff the trend is positive, down arrow and red iff negative, no arrow iff 0; shown iff non-zero, displaying the absolute value |
| Dashboard.TrendMirror | src/pages/Dashboard.tsx:38-53 | negating a trend swaps arrow and colour and keeps the number shown |
| Classifier.DaysRemaining | src/pages/ContractsPage.tsx:67-69 | the days left to the end date, read at the start of the current day, are `differenceInDays` of the two midnights |
| Classifier.DaysRemainingLaterInDay | src/pages/ContractsPage.tsx:67-69 | read later in the day, a future end date counts one day fewer; a past or current one counts the same |
| Classifier.StatusBadge | src/pages/ContractsPage.tsx:67-83 | Expired iff stored expired, Pending iff stored pending, whatever the dates; for active, Expiring Soon iff at most 30 days remain (past ends included), Active otherwise; destructive iff expired or at most 7 days; secondary iff pending or 8 to 30 days; outline iff more than 30 days |
| Classifier.CustomerDetailStatusBadge | src/pages/CustomerDetailPage.tsx:77-93 | the customer page's copy reads Expired and Pending by the stored status alone |
| Classifier.BadgeCopiesAgree | src/pages/CustomerDetailPage.tsx:77-93 | the two copies of the badge rule agree on every input |
| Classifier.StatusBadgeMonotone | src/pages/ContractsPage.tsx:76-82 | for an active contract, less time left never reads as less urgent |
| Classifier.StatusBadgeShiftInvariant | src/pages/ContractsPage.tsx:68-70 | the badge depends on the dates only through the days remaining |
| Classifier.PageCounts | src/pages/ContractsPage.tsx:110-117 | active counts the contracts stored active, expired those stored expired, expiring the active ones with at most 30 days left; expiring ≤ active, and active + expired ≤ total |
| Classifier.PageCountsPartition | src/pages/ContractsPage.tsx:110-117 | active + expired + pending is the total |
| Classifier.ExpiringCountMatchesBadges | src/pages/ContractsPage.tsx:111-116 | the expiring counter is the number of rows badged "Expiring Soon" |
| Classifier.CustomerDetailCounts | src/pages/CustomerDetailPage.tsx:64-71 | active and expired count that customer's contracts of that status, expiring that customer's active contracts with at most 30 days left; expiring ≤ active; active + expired ≤ that customer's contracts |
| Classifier.FilterOfFilter | src/pages/CustomerDetailPage.tsx:60-64 | counting over the fetched subset is counting the conjunction over the store |
| Classifier.ExpiringCountsDiffer | src/services/dataService.ts:261-264 | a lapsed active contract counts as expiring only on the pages; an expired one ending next week only on the dashboard |
| Classifier.CanRenew | src/pages/ContractDetailPage.tsx:115 | Renew is enabled iff the end date is past or the stored status is not active |
| Classifier.CanRenewLaterInDay | src/pages/ContractDetailPage.tsx:65-115 | read at any moment after midnight, `isPast` enables Renew for an active contract from the start of its end day, one day before the midnight-clock rule |
| Classifier.RenewAgainstListBadge | src/pages/ContractDetailPage.tsx:115 | expired and pending contracts can always be renewed; an active one not yet ended cannot; an active renewable one is badged urgent "Expiring Soon" in the lists |
| Classifier.DetailStatusBadge | src/pages/ContractDetailPage.tsx:68-79 | the detail badge reads the stored status, never the dates |
| Classifier.DetailAgainstListBadge | src/pages/ContractDetailPage.tsx:68-79 | detail and list labels agree except for active contracts near their end |
| Classifier.TypeBadge | src/pages/ContractDetailPage.tsx:81-94 | every contract type has a non-empty caption |
| Classifier.TypeBadgeInjective | src/pages/ContractDetailPage.tsx:81-94 | the four captions are distinct |
| Search.FilteredContracts | src/pages/ContractsPage.tsx:99-108 | keeps a contract iff the term matches name, customer name or type, ignoring case, and the status filter is `all` or its status; an order-preserving subsequence |
| Search.EmptyTermMatches | src/pages/ContractsPage.tsx:101 | the empty term matches every field |
| Search.FilteredContractsShowAll | src/pages/ContractsPage.tsx:99-108 | an empty term with `all` keeps every contract |
| Search.FilteredContractsIgnoreCase | src/pages/ContractsPage.tsx:101-103 | the result does not depend on the case of the term |
| Search.MatchesNarrow | src/pages/ContractsPage.tsx:101 | a field matching a term matches every piece of that term |
| Search.FilteredContractsNarrow | src/pages/ContractsPage.tsx:99-108 | extending the term can only shrink the result |
| Search.CountersMatchStatusChoices | src/pages/ContractsPage.tsx:99-117 | with an empty term, the active and expired counters are the lengths of the list shown for those status choices |
| Search.StatusChoicesPartition | src/pages/ContractsPage.tsx:105 | the three status choices split the `all` result |
| Search.FilteredCustomers | src/pages/CustomersPage.tsx:56-60 | keeps a customer iff the term matches name, e-mail or contact person, ignoring case; an order-preserving subsequence |
| Search.FilteredCustomersShowAll | src/pages/CustomersPage.tsx:56-60 | an empty term keeps every customer |
| Search.FilteredCustomersIgnoreCase | src/pages/CustomersPage.tsx:56-60 | the result does not depend on the case of the term |
| Search.CustomerPageCounts | src/pages/CustomersPage.tsx:62-63 | active counts the customers of status active, inactive those of status inactive; the two add up to the total |
| Search.CustomerCountsMatchDashboard | src/pages/CustomersPage.tsx:62 | the page's active counter equals the dashboard's active-customer figure |
| Search.AllActiveIff | src/pages/CustomersPage.tsx:62-63 | the active counter equals the total iff every customer is active |
| Notifications.FilteredNotifications | src/pages/NotificationsPage.tsx:38-43 | keeps a notification iff the chosen filter holds for it; an order-preserving subsequence |
| Notifications.ShowAllKeepsEverything | src/pages/NotificationsPage.tsx:39 | `all` keeps every notification |
| Notifications.ReadUnreadPartition | src/pages/NotificationsPage.tsx:40-41 | read and unread are disjoint and their sizes add up to the total |
| Notifications.OfKindExact | src/pages/NotificationsPage.tsx:42 | a type filter keeps exactly the notifications of that type |
| Notifications.KindsPartition | src/pages/NotificationsPage.tsx:38-43 | the four type filters split the list |
| Notifications.PageCounts | src/pages/NotificationsPage.tsx:45-47 | the counters are the sizes of the unread, expiring and expired views; expiring + expired ≤ total |
| Notifications.UnreadCountAgrees | src/pages/NotificationsPage.tsx:45 | the page's unread counter equals the data service's unread count |
| Notifications.LinkPath | src/pages/NotificationsPage.tsx:220 | a customer link is `/customers/` followed by the id; a contract link is exactly `/contracts` |
| Notifications.LinkPathIdentifies | src/pages/NotificationsPage.tsx:220 | customer links are distinct per id, contract links all coincide, and the two kinds never do |
| Notifications.LinkHighlightsMenu | src/pages/NotificationsPage.tsx:220 | a link highlights the sidebar entry of its record's list and never the dashboard entry |
| Notifications.ShowMarkAsRead | src/pages/NotificationsPage.tsx:229 | the button is shown iff the notification is unread |
| Notifications.MarkAsReadHidesButton | src/pages/NotificationsPage.tsx:229 | after the data service marks a notification, the first one with that id shows no button |
| Sidebar.IsActiveRoute | src/components/AppSidebar.tsx:65-69 | the root entry is active iff the location is exactly `/`; any other iff the location is its URL followed by anything |
| Sidebar.PrefixMatchesLongerSegment | src/components/AppSidebar.tsx:67 | `/customersX` and `/customers/7` both highlight "Customers"; `/customers` does not highlight the root |
| Sidebar.MainMenuView | src/components/AppSidebar.tsx:85-97 | the four main entries in order, each flagged by the active-route rule |
| Sidebar.UtilityMenuView | src/components/AppSidebar.tsx:106-113 | the utility entries carry no active flag |
| Sidebar.DistinctPrefixes | src/components/AppSidebar.tsx:27-48 | no location starts with two different non-root menu URLs |
| Sidebar.AtMostOneActive | src/components/AppSidebar.tsx:65-69 | for any location at most one main entry is highlighted |
| Forms.Check | src/components/forms/ContractForm.tsx:30-55 | a check yields its issue iff it fails |
| Forms.ValidateContractFields | src/components/forms/ContractForm.tsx:34-66 | accepts iff type, name ≥ 2, three dates, amount > 0, status, end > start and renewal ≤ end all hold; accepted values are the inputs parsed; every field issue is reported, and only those when a field aborts |
| Forms.ContractFieldRejections | src/components/forms/ContractForm.tsx:37-65 | each broken rule is among the issues; the date rules are reported iff no field aborted |
| Forms.RenewalBeforeStartAccepted | src/components/forms/ContractForm.tsx:61-65 | a renewal date before the start date is accepted |
| Forms.ValidateNewContract | src/components/forms/ContractForm.tsx:30-66 | accepts iff the customer id is non-empty and the contract rules hold; an empty customer id is reported |
| Forms.NewContractDefaults | src/components/forms/ContractForm.tsx:85-91 | the form opens on the passed customer id (or ""), type domain, status active, empty name and notes, no dates and no amount |
| Forms.NewContractDefaultsRejected | src/components/forms/ContractForm.tsx:85-91 | the untouched form is rejected for its name and dates, and its date comparisons never run |
| Forms.BuildContractDraft | src/components/forms/ContractForm.tsx:95-112 | the record copies the accepted fields; customerName is the first matching customer's name, or "" when none matches |
| Forms.NewContractStored | src/components/forms/ContractForm.tsx:95-112 | a contract added through the form is stored under the next id, obeying every rule, with the customer name the lookup reports |
| Forms.ValidateEdit | src/components/forms/ContractEditForm.tsx:30-63 | the edit schema accepts iff the contract rules hold, without any customer field |
| Forms.EditDefaults | src/components/forms/ContractEditForm.tsx:78-87 | the form opens on the contract's values; absent notes show as "" |
| Forms.EditPayload | src/components/forms/ContractEditForm.tsx:93-104 | the update carries no id, customer id or customer name, and sets every edited field |
| Forms.EditUnchangedRoundTrip | src/components/forms/ContractEditForm.tsx:78-104 | saving untouched succeeds iff the stored contract meets the rules, and then changes only an absent note to "" |
| Forms.EditKeepsOwnership | src/components/forms/ContractEditForm.tsx:93-104 | after an edit the contract keeps id, customer and customer name, and holds the edited values, any status included |
| Forms.ValidateRenewal | src/components/forms/ContractRenewForm.tsx:27-42 | accepts iff both dates are given, amount > 0 and renewal ≤ end; the renewal rule is skipped when a field aborts |
| Forms.RenewDefaults | src/components/forms/ContractRenewForm.tsx:56-66 | the end and renewal dates are each `addYear` of the contract's, the amount unchanged; renewal ≤ end is preserved |
| Forms.RenewDefaultsAccepted | src/components/forms/ContractRenewForm.tsx:56-66 | for a contract with renewal ≤ end and a positive amount, the untouched form is accepted |
| Forms.RenewPayload | src/components/forms/ContractRenewForm.tsx:72-77 | the update sets status active and carries neither id, customer, type, name, start date nor notes |
| Forms.RenewalOutcome | src/components/forms/ContractRenewForm.tsx:72-77 | a renewed contract is the old one with new dates and amount and status active; unless its new end is past, Renew is disabled |
| Forms.ValidateCustomer | src/components/forms/CustomerForm.tsx:24-43 | accepts iff name and contact ≥ 2, e-mail valid, phone and address ≥ 5, status a literal; each broken rule is reported; accepted values are the inputs |
| Forms.CustomerDefaults | src/components/forms/CustomerForm.tsx:56-63 | every text field (name, e-mail, contact, phone, address) opens as "", and the status as active |
| Forms.CustomerDefaultsRejected | src/components/forms/CustomerForm.tsx:24-63 | the untouched customer form is rejected for its name, contact, phone and address, and not for its status |
| Forms.NewCustomerStored | src/components/forms/CustomerForm.tsx:69-77 | a customer added through the form gets the next id and today's date and obeys every rule |

## Left out

- Rendering is left out: JSX, skeletons, dialogs, icons, colours and CSS classes.
- Asynchrony is left out: query caching, refetching, invalidation and the simulated latency of every fetch. Fetches are pure functions of the store.
- `fetchCustomers`, `fetchContracts` and `fetchNotifications` are not modelled. Each returns one of the store's sequences as it is.
- Date handling is simplified:
  - Parsing and formatting (`parseISO`, `format`, `toISOString`, `formatDistanceToNow`) are left out.
  - Stored dates have day granularity. The clock `now` is read at the start of that day.
  - Classifier.DaysRemaining: the list pages read the clock with its time of day. Later in the day a future end date counts one day fewer, as Classifier.DaysRemainingLaterInDay states; the badges and counters are stated for the midnight reading.
  - Dashboard.FetchDashboardStats: the data service's `today` is read once when the module loads. The summary is stated for a reading at that day's midnight. Read at any later moment of the day, the source's window also holds day `now + 30`: a contract renewing or ending that day is listed and counted by the source and not by Dashboard.UpcomingRenewals or the expiring figure, as Dashboard.WindowLaterInDay states. The renewal badge, which reads the clock again at render time, is modelled apart with both clocks, in Dashboard.UpcomingBadgeBounds.
  - Classifier.CanRenew: the detail page tests `isPast(endDate)` against the current moment. An active contract is therefore renewable from 00:00 of its end day, while Classifier.CanRenew, Classifier.RenewAgainstListBadge and Forms.RenewalOutcome, read at the midnight clock, keep Renew disabled for that whole day. Classifier.CanRenewLaterInDay states the difference.
  - Types.DifferenceInDays: every day is 24 hours long. Daylight-saving days are not modelled, nor the time zone that decides where midnight falls.
- Forms.RenewDefaults: `addYears` is an abstract order-preserving function. Its calendar arithmetic (leap days) is not modelled.
- Forms.ValidateCustomer: the library's e-mail pattern is an abstract predicate `isEmail`.
- Amounts are integer cents rather than floating point. The number coercion of the forms is reduced to "a number, or not a number". `toLocaleString` and `toFixed` formatting are not modelled.
- Text.Lower: `toLowerCase` is modelled for ASCII letters only. Other characters are left as they are.
- Notification icons, the empty-list messages and the settings, header, routing and index pages are not modelled. They have no logic beyond fixed content.
- Toasts and console logging in the forms' success and error handlers are not modelled.
- The "Mark as read" button has no click handler in the page. Only when it is shown is modelled, together with what the data service's `markNotificationAsRead` does.
- The seed data of the data service is not modelled. The id lemmas of the store assume instead that the ids are `1`, `2`, … in order, as the seed ids are.
- Store.FetchContractById: the contract detail page imports a `fetchContractById` that the data service does not define. The model supplies it by analogy with `fetchCustomerById`.
- Forms.ValidateContractFields, Forms.ValidateNewContract, Forms.ValidateEdit and Forms.ValidateCustomer count string length in Unicode scalar values. The schemas count UTF-16 code units, so a one-character name outside the Basic Multilingual Plane (an emoji) passes the source's minimum length of 2 and fails the model's.
- Aliasing is not modelled. The data service hands out its own arrays and records, and `markNotificationAsRead` sets `read` on the shared record. A list fetched earlier therefore changes under its holder in the source. The model's values never change; each call returns a new store.
