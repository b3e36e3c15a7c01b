/** The per-course discussion forum (components/Forum.tsx): the posts of the selected course,
    posting, and the guard of the summary button. */
module Forum {
  import opened Types
  import opened Seqs

  // ---------------------------------------------------------------------------
  // String.prototype.trim

  /** The characters `trim` removes: ECMAScript WhiteSpace (tab, vertical tab, form feed,
      space, no-break space, byte order mark and the Unicode space separators) and
      LineTerminator (line feed, carriage return, line and paragraph separators). */
  predicate IsJsWhitespace(c: char)
  {
    || c == '\t' || c == '\U{000B}' || c == '\U{000C}' || c == ' ' || c == '\U{00A0}' || c == '\U{FEFF}'
    || c == '\U{1680}' || ('\U{2000}' <= c <= '\U{200A}') || c == '\U{202F}' || c == '\U{205F}' || c == '\U{3000}'
    || c == '\n' || c == '\r' || c == '\U{2028}' || c == '\U{2029}'
  }

  /** Every character of `s` is whitespace (the empty string included). */
  predicate IsBlank(s: string)
  {
    forall i :: 0 <= i < |s| ==> IsJsWhitespace(s[i])
  }

  /** Drops the leading whitespace. */
  function TrimStart(s: string): (r: string)
    ensures |r| <= |s| && r == s[|s| - |r|..]
    ensures IsBlank(s[..|s| - |r|])
    ensures r == [] || !IsJsWhitespace(r[0])
  {
    if s != [] && IsJsWhitespace(s[0]) then
      var r := TrimStart(s[1..]);
      assert s[1..][..|s[1..]| - |r|] == s[1..|s| - |r|];
      r
    else s
  }

  /** Drops the trailing whitespace. */
  function TrimEnd(s: string): (r: string)
    ensures |r| <= |s| && r == s[..|r|]
    ensures IsBlank(s[|r|..])
    ensures r == [] || !IsJsWhitespace(r[|r| - 1])
  {
    if s != [] && IsJsWhitespace(s[|s| - 1]) then
      var r := TrimEnd(s[..|s| - 1]);
      assert s[..|s| - 1][|r|..] == s[|r|..|s| - 1];
      r
    else s
  }

  /** Drops the leading and the trailing whitespace: what is left neither starts nor ends
      with whitespace. */
  function Trim(s: string): (r: string)
    ensures |r| <= |s|
    ensures r == [] || (!IsJsWhitespace(r[0]) && !IsJsWhitespace(r[|r| - 1]))
  {
    TrimEnd(TrimStart(s))
  }

  /** Trimming leaves the empty string exactly for the empty and the whitespace-only strings. */
  lemma {:induction false} TrimEmptyIffBlank(s: string)
    ensures Trim(s) == "" <==> IsBlank(s)
  {
    var t := TrimStart(s);
    if t == [] {
      assert s[..|s| - |t|] == s;
    } else {
      assert !IsJsWhitespace(t[0]);
      assert s[|s| - |t|] == t[0];
    }
  }

  /** Trimming leaves nothing to trim. */
  lemma {:induction false} TrimIdempotent(s: string)
    ensures Trim(Trim(s)) == Trim(s)
  {
    var t := Trim(s);
    if t != [] {
      assert TrimStart(TrimEnd(TrimStart(s))) == t by {
        var u := TrimStart(s);
        assert u[0] == TrimEnd(u)[0];
      }
    }
  }

  // ---------------------------------------------------------------------------

  function OfCourse(courseId: string): ForumPost -> bool
  {
    (p: ForumPost) => p.courseId == courseId
  }

  /** The posts of the catalogue that belong to the course, in catalogue order. */
  function PostsOfCourse(catalogue: seq<ForumPost>, courseId: string): (r: seq<ForumPost>)
    ensures forall p :: p in r <==> p in catalogue && p.courseId == courseId
  {
    Filter(catalogue, OfCourse(courseId))
  }

  /** The course filter keeps the catalogue's order. */
  lemma {:induction false} PostsOfCourseKeepOrder(c1: seq<ForumPost>, c2: seq<ForumPost>, courseId: string)
    ensures PostsOfCourse(c1 + c2, courseId) == PostsOfCourse(c1, courseId) + PostsOfCourse(c2, courseId)
  {
    FilterConcat(c1, c2, OfCourse(courseId));
  }

  /** Whether the post button is enabled: something is left after trimming. The submit
      handler uses the same test. */
  predicate CanPost(content: string)
    ensures CanPost(content) <==> !IsBlank(content)
  {
    TrimEmptyIffBlank(content);
    Trim(content) != ""
  }

  /** The state of the forum component; `catalogue` stands for the fixed list of posts it
      filters (MOCK_FORUM_POSTS). */
  class ForumState {
    const currentUser: User
    const catalogue: seq<ForumPost>
    var courseId: string
    var posts: seq<ForumPost>
    var newPostContent: string
    var summary: Option<string>
    var isSummarizing: bool

    /** Mounting the component runs the course effect once. */
    constructor (currentUser: User, catalogue: seq<ForumPost>, courseId: string)
      ensures this.currentUser == currentUser && this.catalogue == catalogue && this.courseId == courseId
      ensures posts == PostsOfCourse(catalogue, courseId)
      ensures newPostContent == "" && summary == None && !isSummarizing
    {
      this.currentUser := currentUser;
      this.catalogue := catalogue;
      this.courseId := courseId;
      posts := PostsOfCourse(catalogue, courseId);
      newPostContent := "";
      summary := None;
      isSummarizing := false;
    }

    /** The course property becomes `c`. The effect runs only when the course changes: then
        the posts become the course's posts and the summary is reset; selecting the current
        course again keeps the posts, including those added here, and the summary. */
    method SelectCourse(c: string)
      modifies this`courseId, this`posts, this`summary
      ensures courseId == c
      ensures c == old(courseId) ==> posts == old(posts) && summary == old(summary)
      ensures c != old(courseId) ==> posts == PostsOfCourse(catalogue, c) && summary == None
    {
      if c != courseId {
        courseId := c;
        posts := PostsOfCourse(catalogue, c);
        summary := None;
      }
    }

    /** The textarea's change handler. */
    method EditContent(content: string)
      modifies this`newPostContent
      ensures newPostContent == content
    {
      newPostContent := content;
    }

    /** Blank content changes nothing; otherwise the post goes first, authored by the current
        user with no replies, and the input is cleared. `id` and `createdAt` stand for the
        clock readings. */
    method HandlePostSubmit(id: string, createdAt: int)
      modifies this`posts, this`newPostContent
      ensures IsBlank(old(newPostContent)) ==>
                posts == old(posts) && newPostContent == old(newPostContent)
      ensures !IsBlank(old(newPostContent)) ==>
                && posts == [ForumPost(id, courseId, currentUser.id, currentUser.name, currentUser.role,
                                       old(newPostContent), createdAt, [])] + old(posts)
                && newPostContent == ""
    {
      TrimEmptyIffBlank(newPostContent);
      if !CanPost(newPostContent) {
        return;
      }
      var post := ForumPost(id, courseId, currentUser.id, currentUser.name, currentUser.role,
                            newPostContent, createdAt, []);
      posts := [post] + posts;
      newPostContent := "";
    }

    /** The summary button: nothing without posts; otherwise the summary is pending. */
    method HandleSummarize()
      modifies this`isSummarizing
      ensures |posts| == 0 ==> isSummarizing == old(isSummarizing)
      ensures |posts| > 0 ==> isSummarizing
    {
      if |posts| == 0 {
        return;
      }
      isSummarizing := true;
    }
  }
}
