/** The notification list of the notifications page: a list of notification
    records held by the page, a category tab that selects a view of it, the
    unread badges on the tabs, and the three list updates (mark all as read,
    mark one as read, dismiss). */
module Notifications {
  import opened Wrappers
  import opened Seqs

  /** The page's single category type: the "all" tab and the four categories a
      notification is filed under. */
  datatype Category = All | Academic | Financial | Events | System

  datatype Priority = High | Normal

  /** A notification record, without its icon and colour fields. */
  datatype Notification = Notification(
    id: int,
    kind: Category,
    title: string,
    description: string,
    time: string,
    read: bool,
    priority: Option<Priority>)

  // The records the page starts with, one constant each.
  const GradesPosted :=
    Notification(1, Academic, "Grades Posted – MATH 301",
      "Your final grade for Calculus III has been posted. Check your academic record.",
      "2 minutes ago", false, Some(High))
  const TuitionDue :=
    Notification(2, Financial, "Tuition Payment Due",
      "Your Spring 2025 tuition payment of $4,250 is due on February 15, 2025.",
      "1 hour ago", false, Some(High))
  const CareerFair :=
    Notification(3, Events, "Career Fair – February 20",
      "The Annual Spring Career Fair is scheduled for February 20. Over 80 companies attending.",
      "3 hours ago", false, None)
  const RegistrationOpens :=
    Notification(4, Academic, "Course Registration Opens",
      "Spring 2025 course registration opens on November 1st. Plan your schedule now.",
      "Yesterday", true, None)
  const PortalMaintenance :=
    Notification(5, System, "System Maintenance Scheduled",
      "The student portal will be unavailable on Sunday, Nov 3 from 2–4 AM for scheduled maintenance.",
      "2 days ago", true, None)
  const TownHall :=
    Notification(6, Events, "Campus Town Hall – Save the Date",
      "President Williams invites all students to the Fall Town Hall on November 10 at 4 PM.",
      "3 days ago", true, None)
  const MidtermResults :=
    Notification(7, Academic, "Midterm Results – CS 201",
      "Your midterm exam results for Introduction to Computer Science are now available.",
      "4 days ago", true, None)
  const ScholarshipAwarded :=
    Notification(8, Financial, "Scholarship Award Confirmed",
      "Congratulations! Your Merit Excellence Scholarship of $2,000 has been applied to your account.",
      "1 week ago", true, None)

  /** The list the page starts with. */
  const InitialNotifications: seq<Notification> := [
    GradesPosted, TuitionDue, CareerFair, RegistrationOpens,
    PortalMaintenance, TownHall, MidtermResults, ScholarshipAwarded
  ]

  /** The tabs, in the order they are shown. */
  const Tabs: seq<Category> := [All, Academic, Financial, Events, System]

  predicate IsUnread(n: Notification)
  {
    !n.read
  }

  /** The ids of `ns`, in list order. */
  function Ids(ns: seq<Notification>): (r: seq<int>)
    ensures |r| == |ns| && forall i :: 0 <= i < |ns| ==> r[i] == ns[i].id
  {
    seq(|ns|, i requires 0 <= i < |ns| => ns[i].id)
  }

  /** No two records share an id. */
  predicate UniqueIds(ns: seq<Notification>)
  {
    forall i, j :: 0 <= i < j < |ns| ==> ns[i].id != ns[j].id
  }

  /** `a` and `b` agree on every field except, possibly, the read flag. */
  predicate SameExceptRead(a: Notification, b: Notification)
  {
    a.(read := b.read) == b
  }

  /** The list shown under tab `active`: everything under "all", otherwise
      the records of that category (`FilteredIsExactView` adds order and
      multiplicity). */
  function Filtered(ns: seq<Notification>, active: Category): (r: seq<Notification>)
    ensures active == All ==> r == ns
    ensures active != All ==> forall n :: n in r <==> n in ns && n.kind == active
  {
    if active == All then ns else Filter(ns, (n: Notification) => n.kind == active)
  }

  /** The number of unread records. */
  function UnreadCount(ns: seq<Notification>): nat
  {
    |Filter(ns, IsUnread)|
  }

  /** The badge on tab `key`: unread records of the whole list under "all",
      unread records of that category otherwise. It depends on the list only,
      never on the selected tab. */
  function TabCount(ns: seq<Notification>, key: Category): nat
  {
    if key == All then UnreadCount(ns)
    else |Filter(ns, (n: Notification) => n.kind == key && !n.read)|
  }

  /** "Mark all as read": every record becomes read and nothing else about it
      changes; length and order are kept. */
  function AllMarkedRead(ns: seq<Notification>): (r: seq<Notification>)
    ensures |r| == |ns|
    ensures forall i :: 0 <= i < |ns| ==> r[i].read && SameExceptRead(r[i], ns[i])
  {
    seq(|ns|, i requires 0 <= i < |ns| => ns[i].(read := true))
  }

  /** "Mark as read" on `id`: the records carrying that id become read; every
      other record is left exactly as it was. */
  function MarkedRead(ns: seq<Notification>, id: int): (r: seq<Notification>)
    ensures |r| == |ns|
    ensures forall i :: 0 <= i < |ns| ==> SameExceptRead(r[i], ns[i])
    ensures forall i :: 0 <= i < |ns| ==> r[i].read == (ns[i].read || ns[i].id == id)
  {
    seq(|ns|, i requires 0 <= i < |ns| => if ns[i].id == id then ns[i].(read := true) else ns[i])
  }

  /** "Dismiss" on `id`: the records with another id remain
      (`WithoutIsExact` adds order and multiplicity). */
  function Without(ns: seq<Notification>, id: int): (r: seq<Notification>)
    ensures forall n :: n in r <==> n in ns && n.id != id
  {
    Filter(ns, (n: Notification) => n.id != id)
  }

  /** "Mark all as read" is offered only while something is unread. */
  predicate MarkAllOffered(ns: seq<Notification>)
  {
    UnreadCount(ns) > 0
  }

  /** "Mark as read" is offered on a card only while that record is unread. */
  predicate MarkReadOffered(n: Notification)
  {
    !n.read
  }

  /** A badge is never larger than the list, and it is 0 exactly when every
      record under its tab is read. */
  lemma TabCountZeroIff(ns: seq<Notification>, key: Category)
    ensures TabCount(ns, key) <= |ns|
    ensures TabCount(ns, key) == 0 <==> forall n :: n in ns && (key == All || n.kind == key) ==> n.read
  {
    var p := if key == All then IsUnread else (n: Notification) => n.kind == key && !n.read;
    var r := Filter(ns, p);
    assert TabCount(ns, key) == |r|;
    if |r| > 0 {
      assert r[0] in r;
    }
  }

  /** Once a record is marked read, no card with its id offers "Mark as
      read" any more. */
  lemma MarkedReadNotOffered(ns: seq<Notification>, id: int)
    ensures forall n :: n in MarkedRead(ns, id) && n.id == id ==> !MarkReadOffered(n)
  {
  }

  /** The view under a category tab holds every record of that category as
      often as the list does, none of any other, in list order. */
  lemma FilteredIsExactView(ns: seq<Notification>, active: Category)
    ensures forall n :: multiset(Filtered(ns, active))[n]
                        == if active == All || n.kind == active then multiset(ns)[n] else 0
    ensures IsSubseq(Filtered(ns, active), ns)
  {
    var p := (n: Notification) => n.kind == active;
    if active == All {
      var t := (n: Notification) => true;
      FilterKeepsAll(ns, t);
      FilterIsSubseq(ns, t);
    } else {
      FilterCount(ns, p);
      FilterIsSubseq(ns, p);
    }
  }

  /** Dismissal removes every record with that id and keeps every other
      record as often as it occurs, in list order. */
  lemma WithoutIsExact(ns: seq<Notification>, id: int)
    ensures forall n :: multiset(Without(ns, id))[n] == if n.id != id then multiset(ns)[n] else 0
    ensures IsSubseq(Without(ns, id), ns)
  {
    var p := (n: Notification) => n.id != id;
    FilterCount(ns, p);
    FilterIsSubseq(ns, p);
  }

  // ---------------------------------------------------------------------------
  // Unread counts

  lemma UnreadCons(n: Notification, ns: seq<Notification>)
    ensures UnreadCount([n] + ns) == (if n.read then 0 else 1) + UnreadCount(ns)
  {
    assert ([n] + ns)[0] == n && ([n] + ns)[1..] == ns;
  }

  lemma TabCountCons(n: Notification, ns: seq<Notification>, key: Category)
    ensures TabCount([n] + ns, key)
         == (if (key == All || n.kind == key) && !n.read then 1 else 0) + TabCount(ns, key)
  {
    assert ([n] + ns)[0] == n && ([n] + ns)[1..] == ns;
  }

  lemma FilteredCons(n: Notification, ns: seq<Notification>, key: Category)
    ensures Filtered([n] + ns, key)
         == (if key == All || n.kind == key then [n] else []) + Filtered(ns, key)
  {
    assert ([n] + ns)[0] == n && ([n] + ns)[1..] == ns;
  }

  /** The unread count is zero exactly when every record is read, so "Mark all
      as read" is offered exactly when some record is unread. */
  lemma MarkAllOfferedIff(ns: seq<Notification>)
    ensures MarkAllOffered(ns) <==> exists i :: 0 <= i < |ns| && !ns[i].read
  {
    var u := Filter(ns, IsUnread);
    if exists i :: 0 <= i < |ns| && !ns[i].read {
      var i :| 0 <= i < |ns| && !ns[i].read;
      assert ns[i] in u;
    }
    if u != [] {
      assert u[0] in ns;
      var i :| 0 <= i < |ns| && ns[i] == u[0];
    }
  }

  /** After "mark all as read" nothing is unread, so the header offers the
      button no more and every badge reads zero. */
  lemma AllMarkedReadClearsBadges(ns: seq<Notification>, key: Category)
    ensures UnreadCount(AllMarkedRead(ns)) == 0
    ensures TabCount(AllMarkedRead(ns), key) == 0
    ensures !MarkAllOffered(AllMarkedRead(ns))
  {
    var r := AllMarkedRead(ns);
    MarkAllOfferedIff(r);
    if key != All {
      var p := (n: Notification) => n.kind == key && !n.read;
      if Filter(r, p) != [] {
        assert Filter(r, p)[0] in Filter(r, p);
      }
    }
  }

  /** Marking everything read twice is marking it once; ids are kept. */
  lemma AllMarkedReadIdempotent(ns: seq<Notification>)
    ensures AllMarkedRead(AllMarkedRead(ns)) == AllMarkedRead(ns)
    ensures Ids(AllMarkedRead(ns)) == Ids(ns)
  {
  }

  /** Marking an id that is not in the list changes nothing. */
  lemma MarkedReadAbsent(ns: seq<Notification>, id: int)
    requires forall n :: n in ns ==> n.id != id
    ensures MarkedRead(ns, id) == ns
  {
    var r := MarkedRead(ns, id);
    forall i | 0 <= i < |ns| ensures r[i] == ns[i] {
      assert ns[i] in ns;
    }
  }

  /** Marking the same id twice is marking it once. */
  lemma MarkedReadIdempotent(ns: seq<Notification>, id: int)
    ensures MarkedRead(MarkedRead(ns, id), id) == MarkedRead(ns, id)
  {
  }

  lemma MarkedReadCons(n: Notification, ns: seq<Notification>, id: int)
    ensures MarkedRead([n] + ns, id)
         == [if n.id == id then n.(read := true) else n] + MarkedRead(ns, id)
  {
  }

  /** With unique ids, marking the id of record `k` lowers the unread count by
      one when that record was unread and leaves it alone otherwise. */
  lemma {:induction false} MarkedReadUnreadCount(ns: seq<Notification>, id: int, k: nat)
    requires UniqueIds(ns) && k < |ns| && ns[k].id == id
    ensures UnreadCount(MarkedRead(ns, id)) == UnreadCount(ns) - (if ns[k].read then 0 else 1)
  {
    var n, rest := ns[0], ns[1..];
    assert ns == [n] + rest;
    MarkedReadCons(n, rest, id);
    var m := if n.id == id then n.(read := true) else n;
    UnreadCons(m, MarkedRead(rest, id));
    UnreadCons(n, rest);
    if k == 0 {
      forall x | x in rest ensures x.id != id {
        var j :| 0 <= j < |rest| && rest[j] == x;
        assert ns[j + 1] == x;
      }
      MarkedReadAbsent(rest, id);
    } else {
      assert n.id != id by { assert ns[0].id != ns[k].id; }
      assert rest[k - 1] == ns[k];
      MarkedReadUnreadCount(rest, id, k - 1);
    }
  }

  // ---------------------------------------------------------------------------
  // Dismissal

  /** Dismissing an id that is not in the list changes nothing. */
  lemma WithoutAbsent(ns: seq<Notification>, id: int)
    requires forall n :: n in ns ==> n.id != id
    ensures Without(ns, id) == ns
  {
    FilterKeepsAll(ns, (n: Notification) => n.id != id);
  }

  /** Once a record is dismissed, "mark as read" on its id changes nothing
      (and does not fail). */
  lemma DismissThenMarkRead(ns: seq<Notification>, id: int)
    ensures MarkedRead(Without(ns, id), id) == Without(ns, id)
  {
    MarkedReadAbsent(Without(ns, id), id);
  }

  /** Dismissing twice is dismissing once. */
  lemma WithoutIdempotent(ns: seq<Notification>, id: int)
    ensures Without(Without(ns, id), id) == Without(ns, id)
  {
    WithoutAbsent(Without(ns, id), id);
  }

  /** Dismissal keeps the ids unique. */
  lemma {:induction false} WithoutUniqueIds(ns: seq<Notification>, id: int)
    requires UniqueIds(ns)
    ensures UniqueIds(Without(ns, id))
  {
    if ns != [] {
      var rest := ns[1..];
      assert UniqueIds(rest) by {
        forall i, j | 0 <= i < j < |rest| ensures rest[i].id != rest[j].id {
          assert rest[i] == ns[i + 1] && rest[j] == ns[j + 1];
        }
      }
      WithoutUniqueIds(rest, id);
      var tail := Without(rest, id);
      var r := Without(ns, id);
      if ns[0].id != id {
        assert r == [ns[0]] + tail;
        forall j | 0 <= j < |tail| ensures ns[0].id != tail[j].id {
          assert tail[j] in rest;
          var m :| 0 <= m < |rest| && rest[m] == tail[j];
          assert ns[m + 1] == tail[j];
        }
      } else {
        assert r == tail;
      }
    }
  }

  // ---------------------------------------------------------------------------
  // Tabs and badges

  /** The badge of a tab is the number of unread cards that tab shows. */
  lemma {:induction false} TabCountIsUnreadInView(ns: seq<Notification>, key: Category)
    ensures TabCount(ns, key) == UnreadCount(Filtered(ns, key))
  {
    if ns != [] {
      var n, rest := ns[0], ns[1..];
      assert ns == [n] + rest;
      TabCountIsUnreadInView(rest, key);
      TabCountCons(n, rest, key);
      FilteredCons(n, rest, key);
      if key == All || n.kind == key {
        UnreadCons(n, Filtered(rest, key));
      } else {
        assert Filtered(ns, key) == Filtered(rest, key);
      }
    }
  }

  /** When no record is filed under "all", the four category badges add up to
      the "all" badge. */
  lemma {:induction false} CategoryBadgesSum(ns: seq<Notification>)
    requires forall n :: n in ns ==> n.kind != All
    ensures TabCount(ns, Academic) + TabCount(ns, Financial) + TabCount(ns, Events)
            + TabCount(ns, System) == TabCount(ns, All)
  {
    if ns != [] {
      var n, rest := ns[0], ns[1..];
      assert ns == [n] + rest;
      CategoryBadgesSum(rest);
      UnreadCons(n, rest);
    }
  }

  // ---------------------------------------------------------------------------
  // The initial list

  /** The initial list holds ids 1 to 8, each once. */
  lemma InitialIds()
    ensures Ids(InitialNotifications) == [1, 2, 3, 4, 5, 6, 7, 8]
    ensures UniqueIds(InitialNotifications)
  {
    var r := Ids(InitialNotifications);
    assert r[0] == 1 && r[1] == 2 && r[2] == 3 && r[3] == 4;
    assert r[4] == 5 && r[5] == 6 && r[6] == 7 && r[7] == 8;
    NumberedUnique(InitialNotifications);
  }

  /** Records numbered 1, 2, 3, ... in list order have unique ids. */
  lemma NumberedUnique(ns: seq<Notification>)
    requires forall i :: 0 <= i < |ns| ==> ns[i].id == i + 1
    ensures UniqueIds(ns)
  {
  }

  /** Records with unique ids are distinct records. */
  lemma UniqueIdsDistinct(ns: seq<Notification>)
    requires UniqueIds(ns)
    ensures NoDuplicates(ns)
  {
  }

  /** Three records start unread. */
  lemma InitialUnreadCount()
    ensures UnreadCount(InitialNotifications) == 3
  {
    var unread := [GradesPosted, TuitionDue, CareerFair];
    var read := [RegistrationOpens, PortalMaintenance, TownHall, MidtermResults, ScholarshipAwarded];
    assert InitialNotifications == unread + read;
    FilterPrefix(unread, read, IsUnread);
  }

  /** The unread ones are ids 1, 2 and 3. */
  lemma InitialUnreadIds()
    ensures forall n :: n in InitialNotifications ==> (!n.read <==> n.id in {1, 2, 3})
  {
  }

  /** The financial badge starts at 1: only id 2 is unread among the
      financial records. */
  lemma InitialFinancialBadge()
    ensures TabCount(InitialNotifications, Financial) == 1
  {
    InitialIds();
    UniqueIdsDistinct(InitialNotifications);
    FilterSingle(InitialNotifications, (n: Notification) => n.kind == Financial && !n.read, TuitionDue);
  }

  /** The "all" badge starts at 3. */
  lemma InitialAllBadge()
    ensures TabCount(InitialNotifications, All) == 3
  {
    InitialUnreadCount();
  }

  // ---------------------------------------------------------------------------
  // The page's state

  /** The state the notifications page holds: the selected tab and the list. */
  class NotificationsPage {
    var active: Category
    var notifications: seq<Notification>

    /** Ids stay unique throughout. */
    ghost predicate Valid()
      reads this
    {
      UniqueIds(notifications)
    }

    constructor ()
      ensures Valid()
      ensures active == All && notifications == InitialNotifications
    {
      active := All;
      notifications := InitialNotifications;
      InitialIds();
    }

    /** The cards currently shown. */
    function View(): seq<Notification>
      reads this
    {
      Filtered(notifications, active)
    }

    /** The badge on tab `key`. */
    function Badge(key: Category): nat
      reads this
    {
      TabCount(notifications, key)
    }

    /** A tab click: selects the tab and leaves the list alone. */
    method SetActive(key: Category)
      modifies this
      ensures active == key && notifications == old(notifications)
    {
      active := key;
    }

    method MarkAllRead()
      requires Valid()
      modifies this
      ensures Valid()
      ensures notifications == AllMarkedRead(old(notifications)) && active == old(active)
      ensures UnreadCount(notifications) == 0
    {
      AllMarkedReadClearsBadges(notifications, All);
      AllMarkedReadIdempotent(notifications);
      notifications := AllMarkedRead(notifications);
    }

    method MarkRead(id: int)
      requires Valid()
      modifies this
      ensures Valid()
      ensures notifications == MarkedRead(old(notifications), id) && active == old(active)
    {
      notifications := MarkedRead(notifications, id);
    }

    method DeleteNotif(id: int)
      requires Valid()
      modifies this
      ensures Valid()
      ensures notifications == Without(old(notifications), id) && active == old(active)
    {
      WithoutUniqueIds(notifications, id);
      notifications := Without(notifications, id);
    }
  }
}
