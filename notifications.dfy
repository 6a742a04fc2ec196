/** The Notifications page's list filter and count. */
module Notifications {
  import opened Lists

  datatype Notification = Notification(
    id: string,
    kind: string,
    title: string,
    message: string,
    community: string,
    read: bool)

  /** The page's filter state: `typeFilter` and `readFilter`. */
  datatype NotificationQuery = NotificationQuery(kind: string, readFilter: string)

  predicate KeepsNotification(q: NotificationQuery, n: Notification) {
    var matchesType := q.kind == "all" || n.kind == q.kind;
    var matchesRead := q.readFilter == "all" || (q.readFilter == "unread" && !n.read) ||
                       (q.readFilter == "read" && n.read);
    matchesType && matchesRead
  }

  /** The notifications shown: the type is "all" or equal, and the read state
      matches "unread", "read" or "all"; any other read filter keeps nothing. */
  function FilterNotifications(ns: seq<Notification>, q: NotificationQuery): (r: seq<Notification>)
    ensures IsSubList(r, ns)
    ensures forall x :: x in r ==> multiset(r)[x] == multiset(ns)[x]
    ensures forall n :: n in r <==>
      n in ns && (q.kind == "all" || n.kind == q.kind) &&
      (q.readFilter == "all" || (q.readFilter == "unread" && !n.read) || (q.readFilter == "read" && n.read))
  {
    Filter(ns, n => KeepsNotification(q, n))
  }

  /** The "{n} notifications" count. */
  function ShownCount(ns: seq<Notification>, q: NotificationQuery): (count: nat)
    ensures count <= |ns|
  {
    |FilterNotifications(ns, q)|
  }

  /** For one type filter, the read and the unread notifications together are
      the notifications of "all": no notification is in both, none is missed,
      and the counts add up. */
  lemma ReadAndUnreadPartitionAll(ns: seq<Notification>, kind: string)
    ensures var all := FilterNotifications(ns, NotificationQuery(kind, "all"));
      var read := FilterNotifications(ns, NotificationQuery(kind, "read"));
      var unread := FilterNotifications(ns, NotificationQuery(kind, "unread"));
      (forall n :: n in all <==> n in read || n in unread) &&
      (forall n :: !(n in read && n in unread)) &&
      ShownCount(ns, NotificationQuery(kind, "read")) + ShownCount(ns, NotificationQuery(kind, "unread"))
        == ShownCount(ns, NotificationQuery(kind, "all"))
  {
    ReadAndUnreadCountsAdd(ns, kind);
  }

  lemma {:induction false} ReadAndUnreadCountsAdd(ns: seq<Notification>, kind: string)
    ensures |FilterNotifications(ns, NotificationQuery(kind, "read"))| +
            |FilterNotifications(ns, NotificationQuery(kind, "unread"))|
            == |FilterNotifications(ns, NotificationQuery(kind, "all"))|
  {
    if ns != [] {
      ReadAndUnreadCountsAdd(ns[1..], kind);
    }
  }

  /** A read filter other than "all", "unread" and "read" shows nothing. */
  lemma UnknownReadFilterShowsNothing(ns: seq<Notification>, q: NotificationQuery)
    requires q.readFilter != "all" && q.readFilter != "unread" && q.readFilter != "read"
    ensures FilterNotifications(ns, q) == []
  {
    FilterKeepsNone(ns, n => KeepsNotification(q, n));
  }
}
