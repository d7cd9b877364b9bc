/**
 * The notification bell (NotificationsComponent.tsx): a list of notifications whose
 * `read` flags the handlers replace, an unread count that an effect recomputes after
 * every change of the list, and the relative age shown beside each notification.
 */
module Notifications {
  import opened Seqs

  datatype NotificationType = LowStock | StockChange | System

  datatype Notification = Notification(
    id: int, kind: NotificationType, title: string, message: string, timestamp: int, read: bool)

  /** `notifications.filter(n => !n.read).length`. */
  function UnreadCount(ns: seq<Notification>): nat {
    |Filter(ns, (n: Notification) => !n.read)|
  }

  /** No unread notification is left exactly when the count is zero. */
  lemma {:induction false} UnreadCountZero(ns: seq<Notification>)
    ensures UnreadCount(ns) == 0 <==> forall i :: 0 <= i < |ns| ==> ns[i].read
  {
    var unread := (n: Notification) => !n.read;
    if UnreadCount(ns) == 0 {
      forall i | 0 <= i < |ns| ensures ns[i].read {
        FilterMembers(ns, unread, ns[i]);
      }
    } else {
      FilterMembers(ns, unread, Filter(ns, unread)[0]);
    }
  }

  /**
   * `prev.map(n => n.id === id ? { ...n, read: true } : n)`: every notification with that
   * id is read afterwards; every field other than `read`, the order and the length stay.
   */
  function MarkRead(ns: seq<Notification>, id: int): (r: seq<Notification>)
    ensures |r| == |ns|
    ensures forall i :: 0 <= i < |ns| ==> r[i].(read := ns[i].read) == ns[i]
    ensures forall i :: 0 <= i < |ns| ==> r[i].read == (ns[i].read || ns[i].id == id)
  {
    seq(|ns|, i requires 0 <= i < |ns| => if ns[i].id == id then ns[i].(read := true) else ns[i])
  }

  /** `prev.map(n => ({ ...n, read: true }))`: every notification is read, nothing else changes. */
  function MarkAllRead(ns: seq<Notification>): (r: seq<Notification>)
    ensures |r| == |ns|
    ensures forall i :: 0 <= i < |ns| ==> r[i] == ns[i].(read := true)
  {
    seq(|ns|, i requires 0 <= i < |ns| => ns[i].(read := true))
  }

  /** Marking the same notification twice is the same as marking it once. */
  lemma MarkReadIdempotent(ns: seq<Notification>, id: int)
    ensures MarkRead(MarkRead(ns, id), id) == MarkRead(ns, id)
  {
    var once := MarkRead(ns, id);
    forall i | 0 <= i < |ns| ensures MarkRead(once, id)[i] == once[i] {
      assert MarkRead(once, id)[i].(read := once[i].read) == once[i];
    }
  }

  /** Marking one id only lowers the unread count, and leaves it unchanged when nothing unread has that id. */
  lemma {:induction false} MarkReadCount(ns: seq<Notification>, id: int)
    ensures UnreadCount(MarkRead(ns, id)) <= UnreadCount(ns)
    ensures (forall i :: 0 <= i < |ns| && ns[i].id == id ==> ns[i].read) ==> UnreadCount(MarkRead(ns, id)) == UnreadCount(ns)
    ensures (exists i :: 0 <= i < |ns| && ns[i].id == id && !ns[i].read) ==> UnreadCount(MarkRead(ns, id)) < UnreadCount(ns)
  {
    if |ns| > 0 {
      MarkReadCount(ns[1..], id);
      assert MarkRead(ns, id)[1..] == MarkRead(ns[1..], id);
      if exists i :: 0 <= i < |ns| && ns[i].id == id && !ns[i].read {
        var i :| 0 <= i < |ns| && ns[i].id == id && !ns[i].read;
        if i > 0 {
          assert ns[1..][i - 1] == ns[i];
        }
      }
    }
  }

  /** After marking all, the count is zero and marking any one id changes nothing more. */
  lemma MarkAllReadSpec(ns: seq<Notification>, id: int)
    ensures UnreadCount(MarkAllRead(ns)) == 0
    ensures MarkRead(MarkAllRead(ns), id) == MarkAllRead(ns)
  {
    UnreadCountZero(MarkAllRead(ns));
    var all := MarkAllRead(ns);
    forall i | 0 <= i < |ns| ensures MarkRead(all, id)[i] == all[i] {
      assert MarkRead(all, id)[i].(read := all[i].read) == all[i];
    }
  }

  /** The component's state: the list, the count the effect keeps, and whether the panel is open. */
  class NotificationCenter {
    var notifications: seq<Notification>
    var unreadCount: nat
    var showNotifications: bool

    /** The effect has run: the count is the number of unread notifications. */
    predicate Valid()
      reads this
    {
      unreadCount == UnreadCount(notifications)
    }

    constructor()
      ensures notifications == [] && unreadCount == 0 && !showNotifications
      ensures Valid()
    {
      notifications := [];
      unreadCount := 0;
      showNotifications := false;
    }

    /** The fetched list replaces the state, and the effect recounts. */
    method Loaded(fetched: seq<Notification>)
      modifies this
      ensures notifications == fetched
      ensures showNotifications == old(showNotifications)
      ensures Valid()
    {
      notifications := fetched;
      unreadCount := UnreadCount(notifications);
    }

    /** `handleToggleNotifications`. */
    method Toggle()
      requires Valid()
      modifies this
      ensures showNotifications == !old(showNotifications)
      ensures notifications == old(notifications) && unreadCount == old(unreadCount)
      ensures Valid()
    {
      showNotifications := !showNotifications;
    }

    /** `handleMarkAsRead(id)`, a click on a notification, followed by the effect. */
    method MarkAsRead(id: int)
      requires Valid()
      modifies this
      ensures notifications == MarkRead(old(notifications), id)
      ensures unreadCount <= old(unreadCount)
      ensures showNotifications == old(showNotifications)
      ensures Valid()
    {
      MarkReadCount(notifications, id);
      notifications := MarkRead(notifications, id);
      unreadCount := UnreadCount(notifications);
    }

    /** `handleMarkAllAsRead`, followed by the effect: the badge disappears. */
    method MarkAllAsRead()
      requires Valid()
      modifies this
      ensures notifications == MarkAllRead(old(notifications))
      ensures unreadCount == 0
      ensures forall i :: 0 <= i < |notifications| ==> notifications[i].read
      ensures showNotifications == old(showNotifications)
      ensures Valid()
    {
      MarkAllReadSpec(notifications, 0);
      notifications := MarkAllRead(notifications);
      unreadCount := UnreadCount(notifications);
    }
  }

  /** What `formatDate` shows: minutes, hours with their plural, or the absolute date. */
  datatype Age = MinutesAgo(minutes: int) | HoursAgo(hours: int, plural: bool) | AbsoluteDate

  const MsPerMinute := 60000

  /**
   * `formatDate` given `now - date` in milliseconds. `Math.floor` of a division by a
   * positive number is Dafny's `/`, so a timestamp in the future gives negative minutes.
   */
  function FormatAge(diffMs: int): (r: Age)
    ensures r.MinutesAgo? <==> diffMs < 60 * MsPerMinute
    ensures r.HoursAgo? <==> 60 * MsPerMinute <= diffMs < 1440 * MsPerMinute
    ensures r.MinutesAgo? ==> r.minutes * MsPerMinute <= diffMs < (r.minutes + 1) * MsPerMinute
    ensures r.HoursAgo? ==> 1 <= r.hours <= 23 && r.hours * 60 * MsPerMinute <= diffMs < (r.hours + 1) * 60 * MsPerMinute
    ensures r.HoursAgo? ==> (r.plural <==> r.hours >= 2)
  {
    var diffMins := diffMs / MsPerMinute;
    if diffMins < 60 then MinutesAgo(diffMins)
    else if diffMins < 1440 then
      var hours := diffMins / 60;
      HoursAgo(hours, hours > 1)
    else AbsoluteDate
  }

  /** The hour word: `hora`, or `horas` with the plural. */
  function HourWord(age: Age): string
    requires age.HoursAgo?
  {
    if age.plural then "horas" else "hora"
  }

  /** The age only grows older: a later reading never moves back to a finer bucket. */
  lemma FormatAgeMonotone(d1: int, d2: int)
    requires d1 <= d2
    ensures FormatAge(d1).HoursAgo? ==> !FormatAge(d2).MinutesAgo?
    ensures FormatAge(d1).AbsoluteDate? ==> FormatAge(d2).AbsoluteDate?
    ensures FormatAge(d1).MinutesAgo? && FormatAge(d2).MinutesAgo? ==> FormatAge(d1).minutes <= FormatAge(d2).minutes
    ensures FormatAge(d1).HoursAgo? && FormatAge(d2).HoursAgo? ==> FormatAge(d1).hours <= FormatAge(d2).hours
  {
    var m1, m2 := d1 / MsPerMinute, d2 / MsPerMinute;
    assert m1 <= m2;
    assert m1 / 60 <= m2 / 60;
  }
}
