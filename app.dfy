/** The top-level component (App.tsx): the assignments, courses and notifications lists,
    the handlers that change them, and the counts shown on the dashboard. */
module App {
  import opened Types
  import opened Seqs

  datatype NoticeKind = AssignmentNotice | InfoNotice

  /** A notification of the bell menu; `time` is display text such as "Baru saja". */
  datatype Notification = Notification(
    id: int,
    title: string,
    message: string,
    time: string,
    read: bool,
    kind: NoticeKind)

  /** The fields of the "add course" form. */
  datatype CourseDraft = CourseDraft(code: string, name: string, description: string)

  datatype DashboardStats = DashboardStats(
    courseCount: nat,
    activeAssignments: nat,
    upcomingDeadlines: nat,
    unread: nat)

  const EmptyDraft := CourseDraft("", "", "")

  /** The browser's constraint validation of the "add course" form: all three fields are
      marked required, so the submit event fires only when none of them is empty (whitespace
      counts as a value). It is stricter than the handler's own guard. */
  predicate CourseFormValid(d: CourseDraft)
    ensures CourseFormValid(d) ==> d.code != "" && d.name != ""
  {
    d.code != "" && d.name != "" && d.description != ""
  }

  /** The one notification the portal starts with. */
  const Welcome := Notification(1, "Selamat Datang", "Selamat datang di semester baru!", "Baru saja", false, InfoNotice)

  /** The notification announcing a new assignment; `stamp` stands for Date.now(). */
  function NewAssignmentNotice(a: Assignment, stamp: int): (n: Notification)
    ensures n.id == stamp && n.kind == AssignmentNotice && IsUnread(n)
  {
    Notification(stamp, "Tugas Baru Ditambahkan", "Tugas \"" + a.title + "\" telah tersedia.",
                 "Baru saja", false, AssignmentNotice)
  }

  /** Every assignment carrying the updated record's id is replaced by it; the rest stay. */
  function ReplaceById(s: seq<Assignment>, updated: Assignment): (r: seq<Assignment>)
    ensures |r| == |s|
    ensures forall i :: 0 <= i < |s| && s[i].id == updated.id ==> r[i] == updated
    ensures forall i :: 0 <= i < |s| && s[i].id != updated.id ==> r[i] == s[i]
  {
    Map(s, (a: Assignment) => if a.id == updated.id then updated else a)
  }

  function HasId(id: string): Assignment -> bool
  {
    (a: Assignment) => a.id == id
  }

  function HasOtherId(id: string): Assignment -> bool
  {
    (a: Assignment) => a.id != id
  }

  /** The assignments not carrying the id, in their original order. */
  function RemoveById(s: seq<Assignment>, id: string): (r: seq<Assignment>)
    ensures forall a :: a in r <==> a in s && a.id != id
  {
    Filter(s, HasOtherId(id))
  }

  function IsUnread(n: Notification): bool
  {
    !n.read
  }

  /** Every notification with its read flag set. */
  function MarkAllRead(ns: seq<Notification>): (r: seq<Notification>)
    ensures |r| == |ns|
    ensures forall i :: 0 <= i < |ns| ==> r[i] == ns[i].(read := true)
  {
    Map(ns, (n: Notification) => n.(read := true))
  }

  /** The click handler of one notification: the notifications carrying the clicked id get
      their read flag set, the others stay as they are. */
  function MarkOneRead(ns: seq<Notification>, id: int): (r: seq<Notification>)
    ensures |r| == |ns|
    ensures forall i :: 0 <= i < |ns| && ns[i].id == id ==> r[i] == ns[i].(read := true)
    ensures forall i :: 0 <= i < |ns| && ns[i].id != id ==> r[i] == ns[i]
  {
    Map(ns, (n: Notification) => if n.id == id then n.(read := true) else n)
  }

  function IsUpcoming(now: int): Assignment -> bool
  {
    (a: Assignment) => a.deadline > now
  }

  /** The "Deadline Dekat" figure: assignments whose deadline is strictly after now. */
  function CountUpcoming(s: seq<Assignment>, now: int): (n: nat)
    ensures n <= |s|
    ensures n == 0 <==> forall a :: a in s ==> a.deadline <= now
  {
    FilterDropsAll(s, IsUpcoming(now));
    |Filter(s, IsUpcoming(now))|
  }

  /** The badge on the bell: notifications not yet read. */
  function CountUnread(ns: seq<Notification>): (n: nat)
    ensures n <= |ns|
    ensures n == 0 <==> forall x :: x in ns ==> x.read
  {
    FilterDropsAll(ns, IsUnread);
    |Filter(ns, IsUnread)|
  }

  function UnreadWithId(ns: seq<Notification>, id: int): seq<Notification>
  {
    Filter(ns, (n: Notification) => n.id == id && !n.read)
  }

  /** The lecturer recorded on a new course: the signed-in user's id, or "" when nobody is
      signed in. */
  function OwnerId(user: Option<User>): string
  {
    if user.Some? then user.value.id else ""
  }

  // ---------------------------------------------------------------------------
  // Properties of the list updates

  /** Updating an id nothing carries leaves the list as it was. */
  lemma UpdateUnknownIdIsNoOp(s: seq<Assignment>, updated: Assignment)
    requires forall a :: a in s ==> a.id != updated.id
    ensures ReplaceById(s, updated) == s
  {
  }

  /** The updated record is in the result exactly when some element carried its id. */
  lemma {:induction false} UpdatedPresentIffIdKnown(s: seq<Assignment>, updated: Assignment)
    ensures updated in ReplaceById(s, updated) <==> exists a :: a in s && a.id == updated.id
  {
    var r := ReplaceById(s, updated);
    if updated in r {
      var i :| 0 <= i < |r| && r[i] == updated;
      assert s[i] in s && s[i].id == updated.id;
    }
    if exists a :: a in s && a.id == updated.id {
      var a :| a in s && a.id == updated.id;
      var i :| 0 <= i < |s| && s[i] == a;
      assert r[i] == updated;
    }
  }

  /** Updating twice with the same record is the same as updating once. */
  lemma UpdateIdempotent(s: seq<Assignment>, updated: Assignment)
    ensures ReplaceById(ReplaceById(s, updated), updated) == ReplaceById(s, updated)
  {
  }

  /** Deleting an id nothing carries leaves the list as it was. */
  lemma {:induction false} DeleteAbsentIsNoOp(s: seq<Assignment>, id: string)
    requires forall a :: a in s ==> a.id != id
    ensures RemoveById(s, id) == s
  {
    FilterKeepsAll(s, HasOtherId(id));
  }

  /** Deleting keeps the order: deleting from a list cut in two deletes from each half. */
  lemma {:induction false} DeleteKeepsOrder(s: seq<Assignment>, t: seq<Assignment>, id: string)
    ensures RemoveById(s + t, id) == RemoveById(s, id) + RemoveById(t, id)
  {
    FilterConcat(s, t, HasOtherId(id));
  }

  /** Deleting removes exactly the elements carrying the id. */
  lemma {:induction false} DeleteCount(s: seq<Assignment>, id: string)
    ensures |RemoveById(s, id)| == |s| - |Filter(s, HasId(id))|
  {
    FilterPartition(s, HasId(id), HasOtherId(id));
  }

  /** Deleting the same id twice is the same as deleting it once. */
  lemma {:induction false} DeleteIdempotent(s: seq<Assignment>, id: string)
    ensures RemoveById(RemoveById(s, id), id) == RemoveById(s, id)
  {
    DeleteAbsentIsNoOp(RemoveById(s, id), id);
  }

  // ---------------------------------------------------------------------------
  // Properties of the notification updates and dashboard counts

  /** After "mark all read" no notification is unread. */
  lemma {:induction false} MarkAllReadClearsUnread(ns: seq<Notification>)
    ensures CountUnread(MarkAllRead(ns)) == 0
  {
    var r := MarkAllRead(ns);
    forall x | x in r
      ensures x.read
    {
      var i :| 0 <= i < |r| && r[i] == x;
    }
  }

  /** Marking everything read a second time changes nothing. */
  lemma MarkAllReadIdempotent(ns: seq<Notification>)
    ensures MarkAllRead(MarkAllRead(ns)) == MarkAllRead(ns)
  {
  }

  /** Clicking a notification lowers the unread count by exactly the unread
      notifications carrying its id. */
  lemma {:induction false} MarkOneReadUnreadCount(ns: seq<Notification>, id: int)
    ensures CountUnread(MarkOneRead(ns, id)) == CountUnread(ns) - |UnreadWithId(ns, id)|
  {
    if ns != [] {
      var r := MarkOneRead(ns, id);
      assert r == [r[0]] + r[1..];
      assert r[1..] == MarkOneRead(ns[1..], id);
      FilterConcat([r[0]], r[1..], IsUnread);
      MarkOneReadUnreadCount(ns[1..], id);
    }
  }

  /** A new assignment raises the upcoming count by one exactly when its deadline is after now. */
  lemma {:induction false} AddAssignmentUpcoming(a: Assignment, s: seq<Assignment>, now: int)
    ensures CountUpcoming([a] + s, now) == CountUpcoming(s, now) + (if a.deadline > now then 1 else 0)
  {
    FilterConcat([a], s, IsUpcoming(now));
  }

  /** The notification made for a new assignment raises the unread count by one. */
  lemma {:induction false} AddAssignmentUnread(a: Assignment, stamp: int, ns: seq<Notification>)
    ensures CountUnread([NewAssignmentNotice(a, stamp)] + ns) == CountUnread(ns) + 1
  {
    FilterConcat([NewAssignmentNotice(a, stamp)], ns, IsUnread);
  }

  // ---------------------------------------------------------------------------

  /** The state of the App component. The screen, tab and modal flags are not modelled. */
  class AppState {
    var user: Option<User>
    var courses: seq<Course>
    var assignments: seq<Assignment>
    var notifications: seq<Notification>
    var courseDraft: CourseDraft

    /** The initial state: the mock courses and assignments, the welcome notification, nobody
        signed in. */
    constructor (mockCourses: seq<Course>, mockAssignments: seq<Assignment>)
      ensures user == None && courses == mockCourses && assignments == mockAssignments
      ensures notifications == [Welcome] && courseDraft == EmptyDraft
    {
      user := None;
      courses := mockCourses;
      assignments := mockAssignments;
      notifications := [Welcome];
      courseDraft := EmptyDraft;
    }

    /** The login screen hands over the signed-in user. */
    method SignIn(u: User)
      modifies this`user
      ensures user == Some(u)
    {
      user := Some(u);
    }

    /** The logout button. */
    method SignOut()
      modifies this`user
      ensures user == None
    {
      user := None;
    }

    /** Puts the new assignment first and announces it with an unread notification. */
    method HandleAddAssignment(a: Assignment, stamp: int)
      modifies this`assignments, this`notifications
      ensures assignments == [a] + old(assignments)
      ensures notifications == [NewAssignmentNotice(a, stamp)] + old(notifications)
      ensures !notifications[0].read && notifications[0].kind == AssignmentNotice
      ensures CountUnread(notifications) == CountUnread(old(notifications)) + 1
    {
      AddAssignmentUnread(a, stamp, notifications);
      assignments := [a] + assignments;
      notifications := [NewAssignmentNotice(a, stamp)] + notifications;
    }

    /** Replaces every assignment carrying the updated id; an unknown id changes nothing. */
    method HandleUpdateAssignment(updated: Assignment)
      modifies this`assignments
      ensures assignments == ReplaceById(old(assignments), updated)
      ensures (forall a :: a in old(assignments) ==> a.id != updated.id) ==> assignments == old(assignments)
    {
      assignments := ReplaceById(assignments, updated);
    }

    /** Removes every assignment carrying the id, but only when the user confirmed. */
    method HandleDeleteAssignment(id: string, confirmed: bool)
      modifies this`assignments
      ensures assignments == if confirmed then RemoveById(old(assignments), id) else old(assignments)
    {
      if confirmed {
        assignments := RemoveById(assignments, id);
      }
    }

    /** The change handlers of the "add course" form fields. */
    method EditCourseDraft(d: CourseDraft)
      modifies this`courseDraft
      ensures courseDraft == d
    {
      courseDraft := d;
    }

    /** Appends a course built from the form when its code and name are filled in, then
        resets the form; otherwise changes nothing. `stamp` stands for Date.now(). */
    method HandleAddCourse(stamp: string)
      modifies this`courses, this`courseDraft
      ensures old(courseDraft.code) == "" || old(courseDraft.name) == "" ==>
                courses == old(courses) && courseDraft == old(courseDraft)
      ensures old(courseDraft.code) != "" && old(courseDraft.name) != "" ==>
                && courses == old(courses) + [Course("c-" + stamp, old(courseDraft.code), old(courseDraft.name),
                                                     old(courseDraft.description), OwnerId(user))]
                && courseDraft == EmptyDraft
    {
      if courseDraft.code == "" || courseDraft.name == "" {
        return;
      }
      var course := Course("c-" + stamp, courseDraft.code, courseDraft.name, courseDraft.description, OwnerId(user));
      courses := courses + [course];
      courseDraft := EmptyDraft;
    }

    /** Pressing the form's submit button: the browser blocks the submission while a required
        field is empty; otherwise the handler runs and its own guard always passes. */
    method SubmitCourseForm(stamp: string)
      modifies this`courses, this`courseDraft
      ensures !CourseFormValid(old(courseDraft)) ==> courses == old(courses) && courseDraft == old(courseDraft)
      ensures CourseFormValid(old(courseDraft)) ==>
                && courses == old(courses) + [Course("c-" + stamp, old(courseDraft.code), old(courseDraft.name),
                                                     old(courseDraft.description), OwnerId(user))]
                && courseDraft == EmptyDraft
      ensures courses != old(courses) ==>
                |courses| == |old(courses)| + 1 && courses[|courses| - 1].description != ""
    {
      if CourseFormValid(courseDraft) {
        HandleAddCourse(stamp);
      }
    }

    /** Sets the read flag of every notification. */
    method MarkAllReadHandler()
      modifies this`notifications
      ensures notifications == MarkAllRead(old(notifications))
      ensures CountUnread(notifications) == 0
    {
      MarkAllReadClearsUnread(notifications);
      notifications := MarkAllRead(notifications);
    }

    method ClearNotifications()
      modifies this`notifications
      ensures notifications == []
    {
      notifications := [];
    }

    /** Sets the read flag of the notifications carrying the clicked id. */
    method MarkRead(id: int)
      modifies this`notifications
      ensures notifications == MarkOneRead(old(notifications), id)
      ensures CountUnread(notifications) == CountUnread(old(notifications)) - |UnreadWithId(old(notifications), id)|
    {
      MarkOneReadUnreadCount(notifications, id);
      notifications := MarkOneRead(notifications, id);
    }

    /** The dashboard figures at time `now`. */
    function Stats(now: int): (st: DashboardStats)
      reads this
      ensures st.upcomingDeadlines <= st.activeAssignments == |assignments|
      ensures st.courseCount == |courses|
      ensures st.unread <= |notifications|
    {
      DashboardStats(|courses|, |assignments|, CountUpcoming(assignments, now), CountUnread(notifications))
    }
  }
}
