/** The records of the portal (types.ts). Optional TypeScript fields become Option values,
    date strings become integer timestamps in milliseconds. */
module Types {

  datatype Option<+T> = None | Some(value: T)

  datatype Role = Student | Lecturer

  /** A signed-in person. `studentId` is the NIM, `lecturerId` the NIDN, `userClass` the
      class tag ('A', 'B', ...) of a student. */
  datatype User = User(
    id: string,
    name: string,
    email: string,
    role: Role,
    avatarUrl: string,
    studentId: Option<string>,
    lecturerId: Option<string>,
    userClass: Option<string>)

  datatype Course = Course(
    id: string,
    code: string,
    name: string,
    description: string,
    lecturerId: string)

  /** `targetClass` absent or empty means the assignment is for every class of the course. */
  datatype Assignment = Assignment(
    id: string,
    courseId: string,
    title: string,
    description: string,
    deadline: int,
    targetClass: Option<string>)

  datatype Submission = Submission(
    id: string,
    assignmentId: string,
    studentId: string,
    studentName: string,
    studentClass: Option<string>,
    fileUrl: string,
    fileName: string,
    submittedAt: int,
    grade: Option<real>,
    feedback: Option<string>)

  datatype ForumReply = ForumReply(
    id: string,
    authorName: string,
    content: string,
    createdAt: int)

  /** `courseId` is either a course id or "general". */
  datatype ForumPost = ForumPost(
    id: string,
    courseId: string,
    authorId: string,
    authorName: string,
    authorRole: Role,
    content: string,
    createdAt: int,
    replies: seq<ForumReply>)
}
