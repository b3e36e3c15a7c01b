# EduGate academic portal — a Dafny model of its list logic

EduGate is a browser portal where students and lecturers browse courses, lecturers create, edit
and delete assignments, students upload their work, and everyone posts to a per-course forum.
There is no server: the App component keeps the courses, assignments and notifications in its
state, the assignment panel keeps the course's submissions, and the forum keeps its posts.

This project models that state and the rules that act on it:

- `types.dfy` (`Types`): the records User, Course, Assignment, Submission, ForumPost and
  ForumReply. Optional fields become `Option`, date strings become integer milliseconds, and the
  user's `class` field is called `userClass` because `class` is a Dafny keyword.
- `seqs.dfy` (`Seqs`): `filter`, `map` and `find` as Dafny functions, with lemmas about them.
  `Filter` keeps exactly the passing elements. It distributes over concatenation, which is how
  "keeps the input order" is stated. It is the identity exactly when every element passes.
- `app.dfy` (`App`): the App component as the class `AppState`, with one method per handler. It
  also has the update, delete, mark-read and count functions, and lemmas about them.
- `assignment_manager.dfy` (`AssignmentManager`): the visibility filter, the deadline and
  days-left rules, the student badge and icon colour, the upload gate, the late flag and the
  per-assignment submission lists. It also has the panel's state as the class `ManagerState`.
  Its `HandleSubmit` calls the App's add or update handler, as the panel's callbacks do.
- `forum.dfy` (`Forum`): JavaScript's `String.prototype.trim`, the course filter, and the forum
  state as the class `ForumState`.

Clock readings (`Date.now()`, `new Date()`) are parameters: `now`, `stamp`, `freshId`,
`createdAt`. The answer of the delete confirmation dialog is the parameter `confirmed`. The
object URL of an uploaded file is a field of `FileChoice`. The fixed list of forum posts the
forum filters is the `catalogue` parameter. The submissions read from browser storage are the
`saved` parameter.

## Model

| member | source | states |
|---|---|---|
| `Seqs.Filter` | App.tsx:99 | the result holds exactly the elements of the input that pass the test, and is no longer than the input |
| `Seqs.FilterConcat` | components/AssignmentManager.tsx:106-112 | filtering a list cut in two gives the two filtered halves in order, so every filter in the portal keeps input order |
| `Seqs.FilterKeepsAll` | App.tsx:99 | a filter returns its input unchanged exactly when every element passes |
| `Seqs.FilterDropsAll` | App.tsx:137 | a filter returns the empty list exactly when no element passes |
| `Seqs.FilterEquivalent` | components/AssignmentManager.tsx:109 | two tests that agree on every element select the same list |
| `Seqs.FilterPartition` | App.tsx:99 | a filter and its negation together account for every element |
| `Seqs.Map` | App.tsx:121 | the result has the input's length and holds the function's image at every position |
| `Seqs.First` | components/AssignmentManager.tsx:149 | finds something exactly when some element passes; what it finds is an element that passes with no passing element before it |
| `App.NewAssignmentNotice` | App.tsx:79-86 | the notice announcing a new assignment has the stamp as id, is of type assignment and is unread |
| `App.ReplaceById` | App.tsx:91-95 | same length; every element carrying the updated id becomes the updated record; every other element is unchanged |
| `App.UpdateUnknownIdIsNoOp` | App.tsx:91-95 | updating an id no element carries leaves the list identical |
| `App.UpdatedPresentIffIdKnown` | App.tsx:91-95 | the updated record appears in the result exactly when some element carried its id |
| `App.UpdateIdempotent` | App.tsx:91-95 | updating twice with the same record equals updating once |
| `App.RemoveById` | App.tsx:97-101 | an assignment is kept exactly when it was present and carries another id |
| `App.DeleteAbsentIsNoOp` | App.tsx:97-101 | deleting an id no element carries leaves the list identical |
| `App.DeleteKeepsOrder` | App.tsx:99 | the survivors of a delete stay in their original order |
| `App.DeleteCount` | App.tsx:99 | a delete shortens the list by exactly the number of elements carrying the id |
| `App.DeleteIdempotent` | App.tsx:99 | deleting the same id twice equals deleting it once |
| `App.MarkAllRead` | App.tsx:120-122 | same length and order; each notification is the old one with its read flag set |
| `App.MarkAllReadClearsUnread` | App.tsx:120-122 | after marking all read, the unread count is 0 |
| `App.MarkAllReadIdempotent` | App.tsx:120-122 | marking all read a second time changes nothing |
| `App.MarkOneRead` | App.tsx:326-330 | same length; the read flag is set on the notifications carrying the clicked id and nothing else changes |
| `App.MarkOneReadUnreadCount` | App.tsx:326-330 | clicking a notification lowers the unread count by exactly the unread notifications carrying its id |
| `App.CountUpcoming` | App.tsx:134-136 | the number of assignments whose deadline is strictly after now; at most the total; 0 exactly when no deadline is after now |
| `App.CountUnread` | App.tsx:137 | the number of unread notifications; at most the total; 0 exactly when all are read |
| `App.OwnerId` | App.tsx:112 | definition only: the signed-in user's id, or "" when nobody is signed in; `App.AppState.HandleAddCourse` states what it gives a new course |
| `App.AddAssignmentUpcoming` | App.tsx:75-76 | a new assignment raises the upcoming count by one exactly when its deadline is after now |
| `App.AddAssignmentUnread` | App.tsx:79-88 | the notification made for a new assignment raises the unread count by one |
| `App.AppState.constructor` | App.tsx:38-73 | the mock courses and assignments, the single unread welcome notification, an empty course form, nobody signed in |
| `App.AppState.SignIn` | App.tsx:129 | the given user becomes the signed-in user |
| `App.AppState.SignOut` | App.tsx:420-424 | nobody is signed in afterwards |
| `App.AppState.HandleAddAssignment` | App.tsx:75-89 | the assignment is put first, in front of the old list; one unread notification of type assignment is put first; the unread count rises by one |
| `App.AppState.HandleUpdateAssignment` | App.tsx:91-95 | the list becomes `ReplaceById` of the old one; an unknown id leaves it identical |
| `App.AppState.HandleDeleteAssignment` | App.tsx:97-101 | unconfirmed: nothing changes; confirmed: every assignment carrying the id is removed |
| `App.AppState.EditCourseDraft` | App.tsx:641-676 | the course form holds the typed values |
| `App.AppState.HandleAddCourse` | App.tsx:103-118 | an empty code or name changes nothing; otherwise one course is appended with id "c-" plus the stamp, the form's fields and the signed-in user's id (or "" when nobody is signed in), and the form is reset |
| `App.CourseFormValid` | App.tsx:630-676 | the browser lets the add-course form submit only when code, name and description are all non-empty; that implies the handler's own guard |
| `App.AppState.SubmitCourseForm` | App.tsx:630-676 | a submit the browser blocks (an empty required field) changes nothing; otherwise exactly `HandleAddCourse`'s append and reset happen, and every course added this way has a non-empty description |
| `App.AppState.MarkAllReadHandler` | App.tsx:120-122 | the list becomes `MarkAllRead` of the old one and the unread count is 0 |
| `App.AppState.ClearNotifications` | App.tsx:124-126 | the notification list is empty |
| `App.AppState.MarkRead` | App.tsx:326-330 | the list becomes `MarkOneRead` of the old one; the unread count drops by the unread notifications with that id |
| `App.AppState.Stats` | App.tsx:133-137 | the course count and total assignment count are the list lengths; upcoming deadlines never exceed the total; unread never exceeds the notification count |
| `AssignmentManager.CourseAssignments` | components/AssignmentManager.tsx:106-112 | an assignment is shown exactly when it is in the input, belongs to the course, and the user is a lecturer or its target class is absent, empty or the user's class |
| `AssignmentManager.LecturerSeesWholeCourse` | components/AssignmentManager.tsx:109 | for a lecturer the shown list is exactly the course's assignments in input order |
| `AssignmentManager.StudentSeesOwnClass` | components/AssignmentManager.tsx:110-111 | a student's list is the lecturer's list restricted to untargeted assignments and those for the student's class |
| `AssignmentManager.FilterOfFilter` | components/AssignmentManager.tsx:106-112 | a student's list equals filtering by course, then by class |
| `AssignmentManager.VisibleKeepsOrder` | components/AssignmentManager.tsx:106-112 | the shown list keeps the input order |
| `AssignmentManager.DeadlinePassed` | components/AssignmentManager.tsx:154 | exactly at the deadline it has not passed yet |
| `AssignmentManager.DeadlineStaysPassed` | components/AssignmentManager.tsx:154 | once the deadline has passed it stays passed at every later time |
| `AssignmentManager.DaysLeft` | components/AssignmentManager.tsx:155-156 | the ceiling of the remaining time in days: one day less would not cover it; any positive remaining time gives at least 1; 0 at the deadline; at most 0 once passed |
| `AssignmentManager.DaysLeftRoundsUp` | components/AssignmentManager.tsx:156 | 11 days 23 hours 59 minutes remaining shows 12 days |
| `AssignmentManager.MySubmissions` | components/AssignmentManager.tsx:104 | a submission is kept exactly when it is in the input and carries the user's id |
| `AssignmentManager.OwnSubmission` | components/AssignmentManager.tsx:104 | found exactly when the user has a submission for the assignment; what is found is such a submission |
| `AssignmentManager.SubmissionsFor` | components/AssignmentManager.tsx:150 | a submission is listed exactly when it is in the input and carries the assignment's id; the list is no longer than the input |
| `AssignmentManager.IsLate` | components/AssignmentManager.tsx:290 | a submission is late exactly when the deadline had already passed at its upload time |
| `AssignmentManager.SubmissionsForAppend` | components/AssignmentManager.tsx:150 | appending a submission adds it to its own assignment's list only, and that count grows by one even for a repeat upload |
| `AssignmentManager.TwoSubmittedThirdMissed` | components/AssignmentManager.tsx:150 | two students' submissions are both listed; a third student without one sees "Terlewat" after the deadline |
| `AssignmentManager.StudentBadge` | components/AssignmentManager.tsx:219-231 | "Selesai" exactly when there is an own submission; "Terlewat" exactly when there is none and the deadline passed; "Ditugaskan" exactly when there is none and it has not |
| `AssignmentManager.IconTone` | components/AssignmentManager.tsx:164-166 | red exactly when the deadline passed; green exactly when it has not and there is an own submission; blue exactly when it has not and there is none |
| `AssignmentManager.CanUpload` | components/AssignmentManager.tsx:247 | the control is shown exactly to a student whose badge would be "Ditugaskan" |
| `AssignmentManager.StudentStatus` | components/AssignmentManager.tsx:219-231 | the badge on an assignment at a time: "Selesai" exactly when the user's own submission for it is in the list; otherwise "Terlewat" exactly when the deadline is before that time |
| `AssignmentManager.UploadOffered` | components/AssignmentManager.tsx:247 | the control is shown on an assignment exactly to a student without an own submission for it, up to and including the deadline |
| `AssignmentManager.StatusPrecedence` | components/AssignmentManager.tsx:219-231 | "Selesai" exactly when the student has a submission, even after the deadline; "Terlewat" exactly when none and now > deadline; "Ditugaskan" exactly when none and now <= deadline |
| `AssignmentManager.SubmittedAfterDeadlineShowsRed` | components/AssignmentManager.tsx:164-166 | a submitted assignment past its deadline shows "Selesai" next to a red icon |
| `AssignmentManager.ToneAgreesWithBadge` | components/AssignmentManager.tsx:164-166 | outside that case the icon colour matches the badge: green, red or blue |
| `AssignmentManager.UploadOfferedIffAssigned` | components/AssignmentManager.tsx:247 | the upload control is shown exactly to a student whose badge reads "Ditugaskan" |
| `AssignmentManager.UploadClosesGate` | components/AssignmentManager.tsx:247 | once the student's submission is in the list, the control is hidden and the badge reads "Selesai" |
| `AssignmentManager.NewSubmission` | components/AssignmentManager.tsx:86-95 | the new submission carries the user's id, name and class, the assignment id, the file's name and URL, the upload time, and no grade or feedback |
| `AssignmentManager.UploadThroughGateLateIffAfterDeadline` | components/AssignmentManager.tsx:247-290 | the panel is drawn at one time and the file arrives at a later one: a file uploaded through the shown control is flagged late exactly when it arrives after the deadline, and afterwards the badge reads "Selesai" |
| `AssignmentManager.StaleControlAcceptsLateFile` | components/AssignmentManager.tsx:247-290 | a control shown one millisecond before the deadline is still shown, and a file arriving one millisecond after the deadline through it is flagged late |
| `AssignmentManager.EditFormFor` | components/AssignmentManager.tsx:52-59 | the form holds the assignment's title, description and deadline, and its target class or "" when it has none |
| `AssignmentManager.FormComplete` | components/AssignmentManager.tsx:65 | a complete form always has a deadline, so saving it can build an assignment |
| `AssignmentManager.IsEditing` | components/AssignmentManager.tsx:67 | definition only: the truthiness test on the edited id (present and non-empty); `AssignmentManager.EditAndSave` states its consequence |
| `AssignmentManager.FormAssignment` | components/AssignmentManager.tsx:68-78 | the saved assignment carries the given id and course and the form's title, description and deadline; it is visible to a lecturer, to everyone when the form's class is "", and otherwise to students of that class |
| `AssignmentManager.EditRoundTrip` | components/AssignmentManager.tsx:52-79 | an assignment opened in the editor and saved unchanged comes back with its id and course, and an absent target class becomes ""; visibility is the same for every user; the form passes validation exactly when the title is non-empty |
| `AssignmentManager.ManagerState.constructor` | components/AssignmentManager.tsx:22-33 | the stored submissions, no edited id, a blank form |
| `AssignmentManager.ManagerState.OpenAddModal` | components/AssignmentManager.tsx:46-50 | no edited id and a blank form |
| `AssignmentManager.ManagerState.OpenEditModal` | components/AssignmentManager.tsx:52-61 | the edited id is the assignment's; the form holds its fields with an absent target class as "" |
| `AssignmentManager.ManagerState.EditForm` | components/AssignmentManager.tsx:356-393 | the form holds the typed values |
| `AssignmentManager.ManagerState.HandleSubmit` | components/AssignmentManager.tsx:63-81 | an empty title or deadline changes nothing; with a non-empty edited id, the App's list is updated with a record keeping that id and the course; otherwise a record with the fresh id is added first and announced |
| `AssignmentManager.FormValid` | components/AssignmentManager.tsx:347-393 | the browser lets the assignment form submit only when title, description and deadline are all filled in (the class select is not required); that implies the handler's own guard |
| `AssignmentManager.ManagerState.SubmitForm` | components/AssignmentManager.tsx:347-393 | a submit the browser blocks changes nothing in the App; otherwise an update of the edited id or a new assignment first, announced, with a non-empty description |
| `AssignmentManager.ManagerState.HandleFileUpload` | components/AssignmentManager.tsx:83-102 | no file: nothing changes; a file: one submission is appended after the old ones, carrying the user's id, name and class and the assignment id, and the user now has a submission for it |
| `AssignmentManager.EditAndSave` | components/AssignmentManager.tsx:52-81 | opening the editor on an assignment with a title and saving it unchanged: an empty description blocks the save; otherwise the assignment is replaced in the App's list when its id is non-empty, leaving the notifications alone, and an assignment with the empty id is added again, first, under the fresh id and announced |
| `Forum.TrimStart` | components/Forum.tsx:31 | removes the leading whitespace only: the result is a suffix, what was dropped is whitespace, and it does not start with whitespace |
| `Forum.TrimEnd` | components/Forum.tsx:31 | removes the trailing whitespace only: the result is a prefix, what was dropped is whitespace, and it does not end with whitespace |
| `Forum.IsJsWhitespace` | components/Forum.tsx:31 | the characters `trim` removes: the ECMAScript WhiteSpace and LineTerminator characters |
| `Forum.Trim` | components/Forum.tsx:31 | the result is no longer than the input and neither starts nor ends with whitespace |
| `Forum.TrimEmptyIffBlank` | components/Forum.tsx:31 | trimming gives "" exactly for empty or whitespace-only content |
| `Forum.TrimIdempotent` | components/Forum.tsx:31 | a property of `trim` itself, not of the forum: trimming twice equals trimming once |
| `Forum.CanPost` | components/Forum.tsx:114 | the post button is enabled, and the submit handler proceeds, exactly when the content is not empty or whitespace only |
| `Forum.PostsOfCourse` | components/Forum.tsx:24 | a post is kept exactly when it belongs to the course |
| `Forum.PostsOfCourseKeepOrder` | components/Forum.tsx:24 | the course filter keeps the catalogue's order |
| `Forum.ForumState.constructor` | components/Forum.tsx:18-27 | the course's posts, empty input, no summary, not summarising |
| `Forum.ForumState.SelectCourse` | components/Forum.tsx:23-27 | the course becomes the given one; when it differs from the current one the posts become exactly the catalogue's posts for it and the summary is reset; selecting the current course again keeps the posts and the summary, as the effect runs only when the course id changes |
| `Forum.ForumState.EditContent` | components/Forum.tsx:103 | the input holds the typed text |
| `Forum.ForumState.HandlePostSubmit` | components/Forum.tsx:29-46 | blank content changes nothing; otherwise the post is put first with the user's id, name and role and no replies, the other posts stay in order, and the input is cleared |
| `Forum.ForumState.HandleSummarize` | components/Forum.tsx:48-51 | with no posts nothing changes; otherwise a summary is pending |

## Left out

- Constraint validation beyond emptiness: the browser's `required` check is modelled as "the value is not empty" (`App.CourseFormValid`, `AssignmentManager.FormValid`); the date-time input's own format checks are not. `HandleAddCourse` and `HandleSubmit` are modelled as the handlers are written, so on their own they accept an empty description; the submit paths through the browser are `SubmitCourseForm` and `SubmitForm`.
- Browser storage: loading and saving submissions as JSON (components/AssignmentManager.tsx:36-41, 99). Submissions live in memory; the constructor takes what the store would yield.
- Date parsing and formatting (`new Date(string)`, `toLocaleDateString`, `toISOString`). Timestamps are integers. An unparsable deadline string (an invalid date) is not modelled.
- The clock and id generation. `Date.now()` readings are parameters, and nothing makes ids unique. The portal does not guarantee unique ids either.
- The `window.confirm` and `alert` dialogs. The confirmation is a boolean; the success alert after an upload is not modelled.
- The 500 ms timer that later sets the placeholder summary (components/Forum.tsx:53-56). Its callback and the assistant are left out because they are timer-driven placeholders. Only the guard of the summary handler is modelled.
- Forum.ForumState.HandleSummarize: does not model the summary text that the timer callback sets later.
- Rendering, modal open/close flags, the selected screen and tab, the expanded submission row, and the mobile and profile menus.
- Login, the ID card, the course list and the AI service client: camera access, timers, an external QR service and a network client.
- The dashboard counts cover every assignment, not only those visible to the user. This is how the source computes them.
- Uniqueness of submissions per student and assignment is not enforced, because the upload handler does not enforce it (`SubmissionsForAppend` states what happens). Course ownership is not checked for lecturers either.
