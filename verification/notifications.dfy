/**
 The notifications page: the filter drop-down, the three counters above the
 list, the link a notification offers to the record it concerns, and when the
 "Mark as read" button appears.
 */
module Notifications {
  import opened Common
  import opened Types
  import Text
  import Store
  import Sidebar

  /** The drop-down choices: everything, by read flag, or by notification type. */
  datatype NotificationFilter = ShowAll | ShowUnread | ShowRead | OfKind(kind: NotificationType)

  /** The test the page applies for the chosen filter. */
  predicate Keeps(f: NotificationFilter, n: Notification) {
    match f
    case ShowAll => true
    case ShowRead => n.read
    case ShowUnread => !n.read
    case OfKind(k) => n.kind == k
  }

  function KeepsFn(f: NotificationFilter): Notification -> bool {
    (n: Notification) => Keeps(f, n)
  }

  /** `filteredNotifications`: the notifications the filter keeps, in list order. */
  function FilteredNotifications(ns: seq<Notification>, f: NotificationFilter): (r: seq<Notification>)
    ensures forall i :: 0 <= i < |ns| ==> (ns[i] in r <==> Keeps(f, ns[i]))
    ensures forall i :: 0 <= i < |r| ==> Keeps(f, r[i]) && r[i] in ns
    ensures IsSubsequence(r, ns)
  {
    Filter(ns, KeepsFn(f))
  }

  /** The "all" choice shows the whole list. */
  lemma ShowAllKeepsEverything(ns: seq<Notification>)
    ensures FilteredNotifications(ns, ShowAll) == ns
  {
    FilterAll(ns, KeepsFn(ShowAll));
  }

  /** "Read only" and "Unread only" split the list: no notification is in
      both, and together they hold all of them. */
  lemma ReadUnreadPartition(ns: seq<Notification>)
    ensures |FilteredNotifications(ns, ShowRead)| + |FilteredNotifications(ns, ShowUnread)| == |ns|
    ensures forall n :: n in FilteredNotifications(ns, ShowRead) ==> n !in FilteredNotifications(ns, ShowUnread)
  {
    CountSplit(ns, (n: Notification) => true, KeepsFn(ShowRead), KeepsFn(ShowUnread));
    FilterAll(ns, (n: Notification) => true);
  }

  /** A type choice keeps exactly the notifications of that type. */
  lemma OfKindExact(ns: seq<Notification>, k: NotificationType)
    ensures forall i :: 0 <= i < |FilteredNotifications(ns, OfKind(k))|
              ==> FilteredNotifications(ns, OfKind(k))[i].kind == k
    ensures forall i :: 0 <= i < |ns| && ns[i].kind == k ==> ns[i] in FilteredNotifications(ns, OfKind(k))
  {
  }

  /** The four type choices split the list between them. */
  lemma KindsPartition(ns: seq<Notification>)
    ensures |FilteredNotifications(ns, OfKind(ContractExpiring))|
            + |FilteredNotifications(ns, OfKind(ContractExpired))|
            + |FilteredNotifications(ns, OfKind(CustomerAdded))|
            + |FilteredNotifications(ns, OfKind(OtherNotice))| == |ns|
  {
    var contractKinds := (n: Notification) => n.kind == ContractExpiring || n.kind == ContractExpired;
    var otherKinds := (n: Notification) => n.kind == CustomerAdded || n.kind == OtherNotice;
    CountSplit(ns, (n: Notification) => true, contractKinds, otherKinds);
    CountSplit(ns, contractKinds, KeepsFn(OfKind(ContractExpiring)), KeepsFn(OfKind(ContractExpired)));
    CountSplit(ns, otherKinds, KeepsFn(OfKind(CustomerAdded)), KeepsFn(OfKind(OtherNotice)));
    FilterAll(ns, (n: Notification) => true);
  }

  /** The counters above the list. */
  datatype NotificationCounts = NotificationCounts(unread: nat, expiring: nat, expired: nat)

  function PageCounts(ns: seq<Notification>): (r: NotificationCounts)
    ensures r.unread == |FilteredNotifications(ns, ShowUnread)|
    ensures r.expiring == |FilteredNotifications(ns, OfKind(ContractExpiring))|
    ensures r.expired == |FilteredNotifications(ns, OfKind(ContractExpired))|
    ensures r.expiring + r.expired <= |ns|
  {
    KindsPartition(ns);
    NotificationCounts(Count(ns, KeepsFn(ShowUnread)),
                       Count(ns, KeepsFn(OfKind(ContractExpiring))),
                       Count(ns, KeepsFn(OfKind(ContractExpired))))
  }

  /** The page's unread counter agrees with the data service's unread count. */
  lemma UnreadCountAgrees(db: Store.Db)
    ensures PageCounts(db.notifications).unread == Store.FetchUnreadNotificationsCount(db)
  {
    FilterAgree(db.notifications, KeepsFn(ShowUnread), Store.IsUnread);
  }

  /** The link of a notification: a customer reference leads to that
      customer's page; a contract reference leads to the contract list only,
      its id dropped. */
  function LinkPath(r: Related): (path: string)
    ensures r.kind == CustomerRef ==> Text.StartsWith(path, "/customers/") && path[|"/customers/"|..] == r.id
    ensures r.kind == ContractRef ==> path == "/contracts"
  {
    "/" + (if r.kind == CustomerRef then "customers" else "contracts")
        + (if r.kind == CustomerRef then "/" + r.id else "")
  }

  /** Customer links tell customers apart; every contract link is the same. */
  lemma LinkPathIdentifies(a: Related, b: Related)
    ensures a.kind == CustomerRef && b.kind == CustomerRef ==> (LinkPath(a) == LinkPath(b) <==> a.id == b.id)
    ensures a.kind == ContractRef && b.kind == ContractRef ==> LinkPath(a) == LinkPath(b)
    ensures a.kind != b.kind ==> LinkPath(a) != LinkPath(b)
  {
    if a.kind == CustomerRef && b.kind == CustomerRef && LinkPath(a) == LinkPath(b) {
      assert a.id == LinkPath(a)[11..];
    }
    if a.kind != b.kind {
      assert LinkPath(a)[3] != LinkPath(b)[3];
    }
  }

  /** Following a link highlights the sidebar entry of the record's list. */
  lemma LinkHighlightsMenu(r: Related)
    ensures r.kind == CustomerRef ==> Sidebar.IsActiveRoute("/customers", LinkPath(r))
    ensures r.kind == ContractRef ==> Sidebar.IsActiveRoute("/contracts", LinkPath(r))
    ensures !Sidebar.IsActiveRoute("/", LinkPath(r))
  {
  }

  /** The "Mark as read" button appears on unread notifications only. */
  function ShowMarkAsRead(n: Notification): (r: bool)
    ensures r <==> Keeps(ShowUnread, n)
  {
    !n.read
  }

  /** Once the data service has marked a notification read, the button no
      longer appears on the notification it marked. */
  lemma MarkAsReadHidesButton(db: Store.Db, id: string)
    ensures var after := Store.MarkNotificationAsRead(db, id).db;
            forall i :: 0 <= i < |after.notifications| && after.notifications[i].id == id
                          && (forall j :: 0 <= j < i ==> after.notifications[j].id != id)
              ==> !ShowMarkAsRead(after.notifications[i])
  {
    var ns := db.notifications;
    match FirstIndex(ns, Store.NotificationIdIs(id))
    case None =>
    case Some(k) =>
      var after := Store.MarkNotificationAsRead(db, id).db.notifications;
      forall i | 0 <= i < |after| && after[i].id == id && (forall j :: 0 <= j < i ==> after[j].id != id)
        ensures after[i].read
      {
        assert after[k].id == id;
      }
  }
}
