/** The assignment panel of a course (components/AssignmentManager.tsx): which assignments a
    user sees, their deadline and submission status, the upload gate, the per-assignment
    submission lists, and the create/edit form that hands assignments to the App. */
module AssignmentManager {
  import opened Types
  import opened Seqs
  import opened App

  /** Milliseconds in one day. */
  const MsPerDay: int := 1000 * 3600 * 24

  // ---------------------------------------------------------------------------
  // Visibility

  /** Whether an assignment's target class admits a student of `userClass`: an absent or
      empty target admits every class, otherwise the classes must be equal. */
  predicate IsForClass(targetClass: Option<string>, userClass: Option<string>)
  {
    targetClass == None || targetClass == Some("") || targetClass == userClass
  }

  predicate IsVisibleTo(a: Assignment, courseId: string, user: User)
  {
    a.courseId == courseId && (user.role == Lecturer || IsForClass(a.targetClass, user.userClass))
  }

  function VisibleTest(courseId: string, user: User): Assignment -> bool
  {
    (a: Assignment) => IsVisibleTo(a, courseId, user)
  }

  function InCourse(courseId: string): Assignment -> bool
  {
    (a: Assignment) => a.courseId == courseId
  }

  /** The assignments the panel lists for a course and a user, in input order. */
  function CourseAssignments(s: seq<Assignment>, courseId: string, user: User): (r: seq<Assignment>)
    ensures forall a :: a in r <==>
              && a in s
              && a.courseId == courseId
              && (|| user.role == Lecturer
                  || a.targetClass == None
                  || a.targetClass == Some("")
                  || a.targetClass == user.userClass)
  {
    Filter(s, VisibleTest(courseId, user))
  }

  /** A lecturer sees the course's assignments exactly, whatever class they target. */
  lemma {:induction false} LecturerSeesWholeCourse(s: seq<Assignment>, courseId: string, user: User)
    requires user.role == Lecturer
    ensures CourseAssignments(s, courseId, user) == Filter(s, InCourse(courseId))
  {
    FilterEquivalent(s, VisibleTest(courseId, user), InCourse(courseId));
  }

  /** A student sees, of the course's assignments, exactly those that are untargeted or
      targeted at the student's class, in the order the lecturer sees them. */
  lemma {:induction false} StudentSeesOwnClass(s: seq<Assignment>, courseId: string, student: User, lecturer: User)
    requires student.role == Student && lecturer.role == Lecturer
    ensures CourseAssignments(s, courseId, student) ==
              Filter(CourseAssignments(s, courseId, lecturer),
                     (a: Assignment) => IsForClass(a.targetClass, student.userClass))
  {
    LecturerSeesWholeCourse(s, courseId, lecturer);
    FilterOfFilter(s, courseId, student);
  }

  lemma {:induction false} FilterOfFilter(s: seq<Assignment>, courseId: string, student: User)
    requires student.role == Student
    ensures CourseAssignments(s, courseId, student) ==
              Filter(Filter(s, InCourse(courseId)),
                     (a: Assignment) => IsForClass(a.targetClass, student.userClass))
  {
    if s != [] {
      FilterOfFilter(s[1..], courseId, student);
    }
  }

  /** The visible list keeps the input order: cutting the input in two cuts the list. */
  lemma {:induction false} VisibleKeepsOrder(s: seq<Assignment>, t: seq<Assignment>, courseId: string, user: User)
    ensures CourseAssignments(s + t, courseId, user) ==
              CourseAssignments(s, courseId, user) + CourseAssignments(t, courseId, user)
  {
    FilterConcat(s, t, VisibleTest(courseId, user));
  }

  // ---------------------------------------------------------------------------
  // Deadline

  /** The deadline has passed once now is strictly later; exactly at the deadline it has not. */
  predicate DeadlinePassed(deadline: int, now: int)
    ensures now == deadline ==> !DeadlinePassed(deadline, now)
  {
    now > deadline
  }

  /** Once the deadline has passed it stays passed: nothing reopens an assignment. */
  lemma DeadlineStaysPassed(deadline: int, now: int, later: int)
    requires now <= later
    ensures DeadlinePassed(deadline, now) ==> DeadlinePassed(deadline, later)
  {
  }

  /** The remaining time in whole days, rounded up; the ceiling is taken by negating the
      floor division that Dafny's `/` performs for a positive divisor. */
  function DaysLeft(deadline: int, now: int): (d: int)
    ensures MsPerDay * (d - 1) < deadline - now <= MsPerDay * d
    ensures deadline > now ==> d >= 1
    ensures deadline == now ==> d == 0
    ensures DeadlinePassed(deadline, now) ==> d <= 0
  {
    -((now - deadline) / MsPerDay)
  }

  /** A deadline 11 days, 23 hours and 59 minutes ahead (31 Dec 2023 23:59 seen on
      20 Dec 2023 00:00) shows 12 days left. */
  lemma DaysLeftRoundsUp()
    ensures DaysLeft(1704067140000, 1703030400000) == 12
  {
  }

  // ---------------------------------------------------------------------------
  // Submissions

  function ByStudent(studentId: string): Submission -> bool
  {
    (s: Submission) => s.studentId == studentId
  }

  function ForAssignment(assignmentId: string): Submission -> bool
  {
    (s: Submission) => s.assignmentId == assignmentId
  }

  /** The submissions made by the user, in input order. */
  function MySubmissions(subs: seq<Submission>, user: User): (r: seq<Submission>)
    ensures forall s :: s in r <==> s in subs && s.studentId == user.id
  {
    Filter(subs, ByStudent(user.id))
  }

  /** The user's first submission for the assignment, if there is one. */
  function OwnSubmission(subs: seq<Submission>, user: User, assignmentId: string): (r: Option<Submission>)
    ensures r.Some? <==> exists s :: s in subs && s.studentId == user.id && s.assignmentId == assignmentId
    ensures r.Some? ==> r.value in subs && r.value.studentId == user.id && r.value.assignmentId == assignmentId
  {
    First(MySubmissions(subs, user), ForAssignment(assignmentId))
  }

  /** Every submission for the assignment, in input order; its length is the count the
      lecturer sees. */
  function SubmissionsFor(subs: seq<Submission>, assignmentId: string): (r: seq<Submission>)
    ensures |r| <= |subs|
    ensures forall s :: s in r <==> s in subs && s.assignmentId == assignmentId
  {
    Filter(subs, ForAssignment(assignmentId))
  }

  /** A submission is flagged late when it was made strictly after the deadline. */
  predicate IsLate(s: Submission, deadline: int)
    ensures IsLate(s, deadline) <==> DeadlinePassed(deadline, s.submittedAt)
  {
    s.submittedAt > deadline
  }

  /** Appending a submission adds it to its own assignment's list and to no other:
      a second upload by the same student is not rejected and counts again. */
  lemma {:induction false} SubmissionsForAppend(subs: seq<Submission>, s: Submission, assignmentId: string)
    ensures SubmissionsFor(subs + [s], assignmentId) ==
              SubmissionsFor(subs, assignmentId) + (if s.assignmentId == assignmentId then [s] else [])
    ensures |SubmissionsFor(subs + [s], assignmentId)| ==
              |SubmissionsFor(subs, assignmentId)| + (if s.assignmentId == assignmentId then 1 else 0)
  {
    FilterConcat(subs, [s], ForAssignment(assignmentId));
  }

  /** Two students' submissions for one assignment are both listed; a third student without a
      submission sees "Terlewat" once the deadline has passed. */
  lemma {:induction false} TwoSubmittedThirdMissed(s1: Submission, s2: Submission, a: Assignment, third: User, now: int)
    requires s1.assignmentId == a.id && s2.assignmentId == a.id
    requires s1.studentId != s2.studentId
    requires third.id != s1.studentId && third.id != s2.studentId
    requires now > a.deadline
    ensures SubmissionsFor([s1, s2], a.id) == [s1, s2]
    ensures StudentStatus([s1, s2], third, a, now) == Missed
  {
    FilterKeepsAll([s1, s2], ForAssignment(a.id));
  }

  // ---------------------------------------------------------------------------
  // Status badge, icon colour and upload gate

  /** The student's badge: "Selesai", "Terlewat" or "Ditugaskan". */
  datatype Badge = Done | Missed | Assigned

  /** The colour of the assignment's icon. */
  datatype Tone = Red | Green | Blue

  function BadgeLabel(b: Badge): string
  {
    match b
    case Done => "Selesai"
    case Missed => "Terlewat"
    case Assigned => "Ditugaskan"
  }

  /** Own submission first, then the deadline. */
  function StudentBadge(own: Option<Submission>, passed: bool): (b: Badge)
    ensures b == Done <==> own.Some?
    ensures b == Missed <==> own.None? && passed
    ensures b == Assigned <==> own.None? && !passed
  {
    if own.Some? then Done else if passed then Missed else Assigned
  }

  /** The deadline first, then the own submission: the opposite precedence of the badge. */
  function IconTone(own: Option<Submission>, passed: bool): (t: Tone)
    ensures t == Red <==> passed
    ensures t == Green <==> !passed && own.Some?
    ensures t == Blue <==> !passed && own.None?
  {
    if passed then Red else if own.Some? then Green else Blue
  }

  /** The upload control is shown to a non-lecturer without an own submission while the
      deadline has not passed. */
  predicate CanUpload(user: User, own: Option<Submission>, passed: bool)
    ensures CanUpload(user, own, passed) <==> user.role == Student && StudentBadge(own, passed) == Assigned
  {
    user.role != Lecturer && own.None? && !passed
  }

  /** The badge a student sees on an assignment at time `now`. */
  function StudentStatus(subs: seq<Submission>, user: User, a: Assignment, now: int): (b: Badge)
    ensures b == Done <==> OwnSubmission(subs, user, a.id).Some?
    ensures b != Done ==> (b == Missed <==> now > a.deadline)
  {
    StudentBadge(OwnSubmission(subs, user, a.id), DeadlinePassed(a.deadline, now))
  }

  /** Whether the upload control is shown on an assignment at time `now`. */
  predicate UploadOffered(subs: seq<Submission>, user: User, a: Assignment, now: int)
    ensures UploadOffered(subs, user, a, now) <==>
              user.role == Student && OwnSubmission(subs, user, a.id).None? && now <= a.deadline
  {
    CanUpload(user, OwnSubmission(subs, user, a.id), DeadlinePassed(a.deadline, now))
  }

  /** The badge's precedence: any own submission gives "Selesai" even after the deadline;
      otherwise a passed deadline gives "Terlewat"; otherwise "Ditugaskan". */
  lemma StatusPrecedence(subs: seq<Submission>, user: User, a: Assignment, now: int)
    ensures StudentStatus(subs, user, a, now) == Done <==>
              exists s :: s in subs && s.studentId == user.id && s.assignmentId == a.id
    ensures StudentStatus(subs, user, a, now) == Missed <==>
              (forall s :: s in subs ==> s.studentId != user.id || s.assignmentId != a.id) && now > a.deadline
    ensures StudentStatus(subs, user, a, now) == Assigned <==>
              (forall s :: s in subs ==> s.studentId != user.id || s.assignmentId != a.id) && now <= a.deadline
  {
  }

  /** A student who submitted sees "Selesai" yet a red icon once the deadline has passed. */
  lemma SubmittedAfterDeadlineShowsRed(subs: seq<Submission>, user: User, a: Assignment, now: int, s: Submission)
    requires s in subs && s.studentId == user.id && s.assignmentId == a.id
    requires now > a.deadline
    ensures BadgeLabel(StudentStatus(subs, user, a, now)) == "Selesai"
    ensures IconTone(OwnSubmission(subs, user, a.id), DeadlinePassed(a.deadline, now)) == Red
  {
  }

  /** Outside that case the icon colour agrees with the badge. */
  lemma ToneAgreesWithBadge(own: Option<Submission>, passed: bool)
    requires !(own.Some? && passed)
    ensures IconTone(own, passed) == match StudentBadge(own, passed)
                                     case Done => Green
                                     case Missed => Red
                                     case Assigned => Blue
  {
  }

  /** The upload control is offered to a student exactly when the badge says "Ditugaskan",
      and never to a lecturer. */
  lemma UploadOfferedIffAssigned(subs: seq<Submission>, user: User, a: Assignment, now: int)
    ensures UploadOffered(subs, user, a, now) <==>
              user.role == Student && StudentStatus(subs, user, a, now) == Assigned
  {
  }

  /** Once a student's submission for an assignment is in the list the control is hidden and
      the badge reads "Selesai". */
  lemma {:induction false} UploadClosesGate(subs: seq<Submission>, user: User, a: Assignment, now: int, s: Submission)
    requires s.studentId == user.id && s.assignmentId == a.id
    ensures !UploadOffered(subs + [s], user, a, now)
    ensures StudentStatus(subs + [s], user, a, now) == Done
  {
    assert s in subs + [s];
  }

  /** The submission an upload creates; `id` and `now` stand for the clock readings taken
      when the file arrives. */
  function NewSubmission(user: User, assignmentId: string, file: FileChoice, id: string, now: int): (s: Submission)
    ensures s.studentId == user.id && s.studentName == user.name && s.studentClass == user.userClass
    ensures s.assignmentId == assignmentId && s.fileName == file.name && s.fileUrl == file.url
    ensures s.submittedAt == now && s.grade == None && s.feedback == None
  {
    Submission(id, assignmentId, user.id, user.name, user.userClass, file.url, file.name, now, None, None)
  }

  /** The panel is drawn at `renderNow` and the file arrives at `uploadNow`, possibly later:
      nothing redraws the panel when the deadline passes. A file uploaded through a shown
      control is flagged late exactly when it arrives after the deadline, and afterwards the
      student's badge reads "Selesai" at any time. */
  lemma {:induction false} UploadThroughGateLateIffAfterDeadline(
    subs: seq<Submission>, user: User, a: Assignment, file: FileChoice, id: string,
    renderNow: int, uploadNow: int, laterNow: int)
    requires renderNow <= uploadNow
    requires UploadOffered(subs, user, a, renderNow)
    ensures IsLate(NewSubmission(user, a.id, file, id, uploadNow), a.deadline) <==> uploadNow > a.deadline
    ensures StudentStatus(subs + [NewSubmission(user, a.id, file, id, uploadNow)], user, a, laterNow) == Done
  {
    UploadClosesGate(subs, user, a, laterNow, NewSubmission(user, a.id, file, id, uploadNow));
  }

  /** A control drawn one millisecond before the deadline still accepts a file one
      millisecond after it, and that file is flagged late. */
  lemma {:induction false} StaleControlAcceptsLateFile(
    subs: seq<Submission>, user: User, a: Assignment, file: FileChoice, id: string)
    requires user.role == Student
    requires forall s :: s in subs ==> s.studentId != user.id || s.assignmentId != a.id
    ensures UploadOffered(subs, user, a, a.deadline - 1)
    ensures IsLate(NewSubmission(user, a.id, file, id, a.deadline + 1), a.deadline)
  {
    assert OwnSubmission(subs, user, a.id).None?;
  }

  // ---------------------------------------------------------------------------
  // The create/edit form

  /** The modal's fields; an empty deadline input is `None`. */
  datatype AssignmentForm = AssignmentForm(
    title: string,
    description: string,
    deadline: Option<int>,
    targetClass: string)

  const BlankForm := AssignmentForm("", "", None, "")

  /** A file chosen in the upload control; `url` stands for URL.createObjectURL(file). */
  datatype FileChoice = FileChoice(name: string, url: string)

  /** The target class as the form's select shows it: an absent target becomes "". */
  function TargetOrEmpty(t: Option<string>): string
  {
    if t.Some? then t.value else ""
  }

  /** The form `openEditModal` fills from an assignment. */
  function EditFormFor(a: Assignment): (f: AssignmentForm)
    ensures f.title == a.title && f.description == a.description && f.deadline == Some(a.deadline)
    ensures a.targetClass.Some? ==> f.targetClass == a.targetClass.value
    ensures a.targetClass.None? ==> f.targetClass == ""
  {
    AssignmentForm(a.title, a.description, Some(a.deadline), TargetOrEmpty(a.targetClass))
  }

  /** The form may be saved when both the title and the deadline are filled in. */
  predicate FormComplete(f: AssignmentForm)
    ensures FormComplete(f) ==> f.deadline.Some?
  {
    f.title != "" && f.deadline.Some?
  }

  /** The browser's constraint validation of the assignment form: the title, the description
      and the deadline are marked required (the class select is not), so the submit event
      fires only when none of them is empty. It is stricter than the handler's own guard. */
  predicate FormValid(f: AssignmentForm)
    ensures FormValid(f) ==> FormComplete(f)
  {
    f.title != "" && f.description != "" && f.deadline.Some?
  }

  /** The form edits an existing assignment when the edited id is present and non-empty;
      a missing or empty id means "create". */
  predicate IsEditing(editingId: Option<string>)
  {
    editingId.Some? && editingId.value != ""
  }

  /** The assignment the form describes, under the given id and course. */
  function FormAssignment(f: AssignmentForm, id: string, courseId: string): (a: Assignment)
    requires f.deadline.Some?
    ensures a.id == id && a.courseId == courseId
    ensures a.title == f.title && a.description == f.description && Some(a.deadline) == f.deadline
    ensures forall user: User :: IsVisibleTo(a, courseId, user) <==>
              user.role == Lecturer || f.targetClass == "" || Some(f.targetClass) == user.userClass
  {
    Assignment(id, courseId, f.title, f.description, f.deadline.value, Some(f.targetClass))
  }

  /** Opening the editor on an assignment and saving unchanged gives back the same
      assignment, except that an absent target class becomes "", which every user's
      visibility treats the same way. */
  lemma EditRoundTrip(a: Assignment)
    ensures FormComplete(EditFormFor(a)) <==> a.title != ""
    ensures var b := FormAssignment(EditFormFor(a), a.id, a.courseId);
            && b == a.(targetClass := Some(TargetOrEmpty(a.targetClass)))
            && forall courseId, user :: IsVisibleTo(b, courseId, user) == IsVisibleTo(a, courseId, user)
  {
  }

  // ---------------------------------------------------------------------------

  /** The state of the panel: the course's submissions and the form. The course and the user
      are the component's properties. */
  class ManagerState {
    const courseId: string
    const currentUser: User
    var submissions: seq<Submission>
    var editingId: Option<string>
    var form: AssignmentForm

    /** `saved` is what the course's submission store holds (empty when nothing is stored). */
    constructor (courseId: string, currentUser: User, saved: seq<Submission>)
      ensures this.courseId == courseId && this.currentUser == currentUser
      ensures submissions == saved && editingId == None && form == BlankForm
    {
      this.courseId := courseId;
      this.currentUser := currentUser;
      submissions := saved;
      editingId := None;
      form := BlankForm;
    }

    method OpenAddModal()
      modifies this`editingId, this`form
      ensures editingId == None && form == BlankForm
    {
      editingId := None;
      form := BlankForm;
    }

    method OpenEditModal(a: Assignment)
      modifies this`editingId, this`form
      ensures editingId == Some(a.id) && form == EditFormFor(a)
    {
      editingId := Some(a.id);
      form := EditFormFor(a);
    }

    /** The change handlers of the form's inputs. */
    method EditForm(f: AssignmentForm)
      modifies this`form
      ensures form == f
    {
      form := f;
    }

    /** Submits the form to the App: nothing without a title and a deadline; an update of the
        edited id when editing; otherwise a new assignment under `freshId`. `stamp` is the
        App's Date.now() for the notification. */
    method HandleSubmit(app: AppState, freshId: string, stamp: int)
      modifies app`assignments, app`notifications
      ensures !FormComplete(form) ==>
                app.assignments == old(app.assignments) && app.notifications == old(app.notifications)
      ensures FormComplete(form) && IsEditing(editingId) ==>
                && app.assignments == ReplaceById(old(app.assignments), FormAssignment(form, editingId.value, courseId))
                && app.notifications == old(app.notifications)
      ensures FormComplete(form) && !IsEditing(editingId) ==>
                && app.assignments == [FormAssignment(form, freshId, courseId)] + old(app.assignments)
                && app.notifications == [NewAssignmentNotice(FormAssignment(form, freshId, courseId), stamp)]
                                        + old(app.notifications)
    {
      if !FormComplete(form) {
        return;
      }
      if IsEditing(editingId) {
        app.HandleUpdateAssignment(FormAssignment(form, editingId.value, courseId));
      } else {
        app.HandleAddAssignment(FormAssignment(form, freshId, courseId), stamp);
      }
    }

    /** Pressing the form's submit button: the browser blocks the submission while a required
        field is empty; otherwise the handler runs, and whatever it saves has a description. */
    method SubmitForm(app: AppState, freshId: string, stamp: int)
      modifies app`assignments, app`notifications
      ensures !FormValid(form) ==>
                app.assignments == old(app.assignments) && app.notifications == old(app.notifications)
      ensures FormValid(form) && IsEditing(editingId) ==>
                && app.assignments == ReplaceById(old(app.assignments), FormAssignment(form, editingId.value, courseId))
                && app.notifications == old(app.notifications)
      ensures FormValid(form) && !IsEditing(editingId) ==>
                && app.assignments == [FormAssignment(form, freshId, courseId)] + old(app.assignments)
                && app.notifications == [NewAssignmentNotice(FormAssignment(form, freshId, courseId), stamp)]
                                        + old(app.notifications)
                && app.assignments[0].description != ""
    {
      if FormValid(form) {
        HandleSubmit(app, freshId, stamp);
      }
    }

    /** Appends the current user's submission for the assignment when a file was chosen;
        nothing otherwise. A second upload for the same assignment is not rejected. */
    method HandleFileUpload(file: Option<FileChoice>, assignmentId: string, freshId: string, now: int)
      modifies this`submissions
      ensures file.None? ==> submissions == old(submissions)
      ensures file.Some? ==>
                && submissions == old(submissions) + [NewSubmission(currentUser, assignmentId, file.value, freshId, now)]
                && submissions[|submissions| - 1].studentId == currentUser.id
                && submissions[|submissions| - 1].studentName == currentUser.name
                && submissions[|submissions| - 1].studentClass == currentUser.userClass
                && submissions[|submissions| - 1].assignmentId == assignmentId
      ensures file.Some? ==> OwnSubmission(submissions, currentUser, assignmentId).Some?
    {
      if file.Some? {
        var s := NewSubmission(currentUser, assignmentId, file.value, freshId, now);
        assert s in submissions + [s];
        submissions := submissions + [s];
      }
    }
  }

  /** Opening the editor on an assignment and saving it unchanged: an empty description keeps
      the browser from submitting. Otherwise the assignment is updated in place when its id is
      non-empty; an assignment with the empty id is not recognised as edited, and saving it
      adds a copy under the fresh id, announced like any new assignment. */
  method EditAndSave(m: ManagerState, app: AppState, a: Assignment, freshId: string, stamp: int)
    requires a.title != ""
    modifies m`editingId, m`form, app`assignments, app`notifications
    ensures m.editingId == Some(a.id) && m.form == EditFormFor(a)
    ensures a.description == "" ==>
              app.assignments == old(app.assignments) && app.notifications == old(app.notifications)
    ensures a.description != "" && a.id != "" ==>
              && app.assignments == ReplaceById(old(app.assignments), FormAssignment(EditFormFor(a), a.id, m.courseId))
              && app.notifications == old(app.notifications)
    ensures a.description != "" && a.id == "" ==>
              && app.assignments == [FormAssignment(EditFormFor(a), freshId, m.courseId)] + old(app.assignments)
              && app.notifications == [NewAssignmentNotice(FormAssignment(EditFormFor(a), freshId, m.courseId), stamp)]
                                      + old(app.notifications)
  {
    m.OpenEditModal(a);
    m.SubmitForm(app, freshId, stamp);
  }
}
