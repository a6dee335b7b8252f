/**
 * The post service (src/services/post.service.ts): creating posts and
 * comments against the database, the paginated listings of a user's
 * posts and of a post's comments, a post with its author, and the
 * ranking of users with their latest comment.
 *
 * The listing queries are parameters: the model states the query each
 * operation issues and how the rows and count it gets back are shaped.
 */
module PostService {
  import opened Wrappers
  import opened Errors
  import opened Store
  import opened Pagination
  import opened Strings

  const TitleAndContentRequired: string := "Title and content are required"
  const PostNotFound: string := "Post not found"
  const CommentContentRequired: string := "Comment content is required"
  const ParentNotFound: string := "Parent comment not found"
  const NoPosts: string := "User has no posts"
  const NoComments: string := "Post has no comments"

  /** The input of `createPost`; a missing or null property is `None`. */
  datatype CreatePostArgs = CreatePostArgs(title: Option<string>, content: Option<string>)

  /** The input of `createComment`. */
  datatype CreateCommentArgs = CreateCommentArgs(content: Option<string>, parentId: Option<string>)

  // ---------------------------------------------------------------- createPost

  /** The checks of `createPost`, in order: the error of the first that fails. */
  function CreatePostCheck(users: seq<User>, userId: Id, input: CreatePostArgs): (r: Option<ErrorHandler>)
    ensures r == Some(UnknownResourceError(UserNotFound)) <==> userId !in UserIds(users)
    ensures r == Some(BadRequestError(TitleAndContentRequired)) <==>
      userId in UserIds(users) && !(Truthy(input.title) && Truthy(input.content))
    ensures r.None? <==> userId in UserIds(users) && Truthy(input.title) && Truthy(input.content)
  {
    if FindUser(users, userId).None? then Some(UnknownResourceError(UserNotFound))
    else if !Truthy(input.title) || !Truthy(input.content) then Some(BadRequestError(TitleAndContentRequired))
    else None
  }

  // ------------------------------------------------------------- createComment

  /** The checks of `createComment`, in order: user, post, content, then the parent when one is given. */
  function CreateCommentCheck(users: seq<User>, posts: seq<Post>, comments: seq<Comment>, userId: Id, postId: Id, input: CreateCommentArgs): (r: Option<ErrorHandler>)
    ensures r == Some(UnknownResourceError(UserNotFound)) <==> userId !in UserIds(users)
    ensures r == Some(UnknownResourceError(PostNotFound)) <==> userId in UserIds(users) && postId !in PostIds(posts)
    ensures r == Some(BadRequestError(CommentContentRequired)) <==>
      userId in UserIds(users) && postId in PostIds(posts) && !Truthy(input.content)
    ensures r == Some(UnknownResourceError(ParentNotFound)) <==>
      userId in UserIds(users) && postId in PostIds(posts) && Truthy(input.content)
      && Truthy(input.parentId) && input.parentId.value !in CommentIds(comments)
    ensures r.None? <==>
      userId in UserIds(users) && postId in PostIds(posts) && Truthy(input.content)
      && (Truthy(input.parentId) ==> input.parentId.value in CommentIds(comments))
  {
    if FindUser(users, userId).None? then Some(UnknownResourceError(UserNotFound))
    else if FindPost(posts, postId).None? then Some(UnknownResourceError(PostNotFound))
    else if !Truthy(input.content) then Some(BadRequestError(CommentContentRequired))
    else if Truthy(input.parentId) && FindComment(comments, input.parentId.value).None? then
      Some(UnknownResourceError(ParentNotFound))
    else None
  }

  /** The parent is looked up among all comments: a reply may hang under a comment of another post. */
  lemma ParentMayBelongToAnotherPost(users: seq<User>, posts: seq<Post>, comments: seq<Comment>, userId: Id, postId: Id, parent: Comment)
    requires userId in UserIds(users) && postId in PostIds(posts)
    requires parent in comments && parent.id != "" && parent.postId != postId
    ensures CreateCommentCheck(users, posts, comments, userId, postId, CreateCommentArgs(Some("Reply"), Some(parent.id))).None?
  {
  }

  // ------------------------------------------------------------------ listings

  /** The filter of a user's posts: the author, and a search text matched against title or content. */
  datatype PostFilter = PostFilter(userId: Id, search: Option<string>)

  /** The query of `getUserPosts`: the search filter is added only for a non-empty search text. */
  function UserPostsQuery(userId: Id, options: PaginationOptions): (q: PageQuery<PostFilter>)
    requires PageOf(options) >= 1 && LimitOf(options) >= 1
    ensures q.filter.userId == userId
    ensures q.filter.search.Some? <==> Truthy(options.search)
    ensures q.filter.search.Some? ==> q.filter.search == options.search
    ensures q.limit == LimitOf(options) && q.offset == Offset(PageOf(options), LimitOf(options))
  {
    var search := if Truthy(options.search) then options.search else None;
    PageQuery(PostFilter(userId, search), LimitOf(options), Offset(PageOf(options), LimitOf(options)))
  }

  /** `getUserPosts`: 404 for an unknown user; otherwise the page, or the empty shape with "User has no posts". */
  function GetUserPosts(users: seq<User>, userId: Id, options: PaginationOptions, findAndCountAll: PageQuery<PostFilter> -> Counted<Post>): (r: Result<Listing<Post>, ErrorHandler>)
    requires PageOf(options) >= 1 && LimitOf(options) >= 1
    ensures r.Failure? <==> userId !in UserIds(users)
    ensures r.Failure? ==> r.error == UnknownResourceError(UserNotFound)
    ensures r.Success? ==>
      var result := findAndCountAll(UserPostsQuery(userId, options));
      && r.value.currentPage == PageOf(options)
      && r.value.total == result.count
      && (result.count == 0 ==> r.value == Listing([], 0, PageOf(options), 0, Some(NoPosts)))
      && (result.count > 0 ==>
            r.value.rows == result.rows && r.value.message == None
            && r.value.totalPages == CeilDiv(result.count, LimitOf(options)))
  {
    if FindUser(users, userId).None? then Failure(UnknownResourceError(UserNotFound))
    else
      var result := findAndCountAll(UserPostsQuery(userId, options));
      Success(ListingOf(result.rows, result.count, PageOf(options), LimitOf(options), Some(NoPosts)))
  }

  /** The query of `getPostComments`: the post's comments only; a search text is not used. */
  function PostCommentsQuery(postId: Id, options: PaginationOptions): (q: PageQuery<Id>)
    requires PageOf(options) >= 1 && LimitOf(options) >= 1
    ensures q.filter == postId
    ensures q.limit == LimitOf(options) && q.offset == Offset(PageOf(options), LimitOf(options))
  {
    PageQuery(postId, LimitOf(options), Offset(PageOf(options), LimitOf(options)))
  }

  /** `getPostComments`: 404 for an unknown post; otherwise the page, or the empty shape with "Post has no comments". */
  function GetPostComments(posts: seq<Post>, postId: Id, options: PaginationOptions, findAndCountAll: PageQuery<Id> -> Counted<Comment>): (r: Result<Listing<Comment>, ErrorHandler>)
    requires PageOf(options) >= 1 && LimitOf(options) >= 1
    ensures r.Failure? <==> postId !in PostIds(posts)
    ensures r.Failure? ==> r.error == UnknownResourceError(PostNotFound)
    ensures r.Success? ==>
      var result := findAndCountAll(PostCommentsQuery(postId, options));
      && r.value.currentPage == PageOf(options)
      && r.value.total == result.count
      && (result.count == 0 ==> r.value == Listing([], 0, PageOf(options), 0, Some(NoComments)))
      && (result.count > 0 ==>
            r.value.rows == result.rows && r.value.message == None
            && r.value.totalPages == CeilDiv(result.count, LimitOf(options)))
  {
    if FindPost(posts, postId).None? then Failure(UnknownResourceError(PostNotFound))
    else
      var result := findAndCountAll(PostCommentsQuery(postId, options));
      Success(ListingOf(result.rows, result.count, PageOf(options), LimitOf(options), Some(NoComments)))
  }

  /** A search text has no effect on the comments listing. */
  lemma CommentsIgnoreSearch(posts: seq<Post>, postId: Id, options: PaginationOptions, findAndCountAll: PageQuery<Id> -> Counted<Comment>, search: Option<string>)
    requires PageOf(options) >= 1 && LimitOf(options) >= 1
    ensures GetPostComments(posts, postId, options.(search := search), findAndCountAll) == GetPostComments(posts, postId, options, findAndCountAll)
  {
  }

  // ---------------------------------------------------------------- getPostById

  /** The author included with a post. */
  datatype Author = Author(id: Id, name: string, email: string)

  /** A post with its author; `None` when no user has the post's `userId`. */
  datatype PostWithAuthor = PostWithAuthor(post: Post, author: Option<Author>)

  /** `getPostById`: the post with its author, or 404. */
  function GetPostById(users: seq<User>, posts: seq<Post>, postId: Id): (r: Result<PostWithAuthor, ErrorHandler>)
    ensures r.Failure? <==> postId !in PostIds(posts)
    ensures r.Failure? ==> r.error == UnknownResourceError(PostNotFound)
    ensures r.Success? ==> r.value.post in posts && r.value.post.id == postId
    ensures r.Success? ==> (r.value.author.Some? <==> r.value.post.userId in UserIds(users))
    ensures r.Success? && r.value.author.Some? ==>
      exists u :: u in users && u.id == r.value.post.userId && r.value.author.value == Author(u.id, u.name, u.email)
  {
    match FindPost(posts, postId)
    case None => Failure(UnknownResourceError(PostNotFound))
    case Some(post) =>
      var author := match FindUser(users, post.userId)
        case Some(u) => Some(Author(u.id, u.name, u.email))
        case None => None;
      Success(PostWithAuthor(post, author))
  }

  /** In a consistent database every post found comes with its author. */
  lemma FoundPostHasAuthor(users: seq<User>, posts: seq<Post>, comments: seq<Comment>, postId: Id)
    requires Consistent(users, posts, comments) && postId in PostIds(posts)
    ensures GetPostById(users, posts, postId).Success?
    ensures GetPostById(users, posts, postId).value.author.Some?
  {
    var post := FindPost(posts, postId).value;
    assert post in posts;
  }

  // --------------------------------------------------- getTopUsersWithLatestComment

  const Separator: string := ":::"

  /** The number of users the ranking query returns at most. */
  const TopUsersLimit: nat := 3

  /** A row of the ranking query: the user, the parsed post count (`None` for NaN) and the raw latest comment. */
  datatype TopUserRow = TopUserRow(id: Id, name: string, email: string, postCount: Option<int>, latestComment: Option<string>)

  /** A ranked user as returned. */
  datatype TopUser = TopUser(
    id: Id, name: string, email: string, postCount: int,
    latestCommentContent: Option<string>, latestCommentDate: Option<string>)

  /** `x || null` for a string. */
  function NonEmpty(s: string): (r: Option<string>)
    ensures r.Some? <==> s != ""
    ensures r.Some? ==> r.value == s
  {
    if s == "" then None else Some(s)
  }

  /** `(raw || ':::')`: a missing or empty value becomes the bare separator. */
  function RawOrSeparator(raw: Option<string>): string {
    if Truthy(raw) then raw.value else Separator
  }

  /**
   * The parse of `latestComment` as written: split at every ":::" and
   * take the first two fields, so content that itself holds ":::" is cut
   * short and its remainder taken for the date.
   */
  function ParseLatestCommentAsWritten(raw: Option<string>): (Option<string>, Option<string>) {
    var fields := Strings.Split(RawOrSeparator(raw), Separator);
    (NonEmpty(fields[0]), if |fields| > 1 then NonEmpty(fields[1]) else None)
  }

  /**
   * The parse of `latestComment` as intended: the date is what follows
   * the last ":::", the content everything before it.
   */
  function ParseLatestComment(raw: Option<string>): (r: (Option<string>, Option<string>))
    ensures !Truthy(raw) ==> r == (None, None)
    ensures Truthy(raw) && Strings.Absent(raw.value, Separator) ==> r == (Some(raw.value), None)
    ensures r.1.Some? ==> Strings.Absent(r.1.value, Separator)
  {
    var s := RawOrSeparator(raw);
    match Strings.LastIndexOf(s, Separator)
    case None => (NonEmpty(s), None)
    case Some(i) =>
      var date := s[i + |Separator|..];
      assert Strings.Absent(date, Separator) by {
        assert s == s[..i + 3] + date;
        forall j: nat | j <= |date| ensures !Strings.OccursAt(date, Separator, j) {
          Strings.OccursAfterPrefix(s[..i + 3], date, Separator, j);
        }
      }
      (NonEmpty(s[..i]), NonEmpty(date))
  }

  /** A separator that is not preceded by any ':' is the first occurrence. */
  lemma FirstSeparator(c: string, d: string)
    requires ':' !in c
    ensures Strings.IndexOf(c + Separator + d, Separator) == Some(|c|)
  {
    var s := c + Separator + d;
    assert s[|c|..|c| + 3] == Separator;
    assert Strings.OccursAt(s, Separator, |c|);
    forall j: nat | j < |c| ensures !Strings.OccursAt(s, Separator, j) {
      assert s[j] == c[j];
      assert c[j] in c;
    }
  }

  /** A separator followed by a date that neither starts with ':' nor holds ":::" is the last occurrence. */
  lemma LastSeparator(c: string, d: string)
    requires d != [] && d[0] != ':' && Strings.Absent(d, Separator)
    ensures Strings.LastIndexOf(c + Separator + d, Separator) == Some(|c|)
  {
    var s := c + Separator + d;
    assert s[|c|..|c| + 3] == Separator;
    assert Strings.OccursAt(s, Separator, |c|);
    forall j: nat | j > |c| ensures !Strings.OccursAt(s, Separator, j) {
      NoSeparatorAfter(c, d, j);
    }
  }

  lemma NoSeparatorAfter(c: string, d: string, j: nat)
    requires d != [] && d[0] != ':' && Strings.Absent(d, Separator) && j > |c|
    ensures !Strings.OccursAt(c + Separator + d, Separator, j)
  {
    var s := c + Separator + d;
    assert s == (c + Separator) + d;
    if j > |c| + 2 {
      Strings.OccursAfterPrefix(c + Separator, d, Separator, j - |c| - 3);
    } else {
      assert s[|c| + 3] == d[0];
      if j + 3 <= |s| {
        assert s[j..j + 3][|c| + 3 - j] == s[|c| + 3];
        assert Separator[|c| + 3 - j] == ':';
      }
    }
  }

  /** The intended parse recovers any non-empty content, ":::" included, and its date. */
  lemma LatestCommentRoundTrip(c: string, d: string)
    requires c != "" && d != "" && d[0] != ':' && Strings.Absent(d, Separator)
    ensures ParseLatestComment(Some(c + Separator + d)) == (Some(c), Some(d))
  {
    var s := c + Separator + d;
    LastSeparator(c, d);
    assert s[..|c|] == c;
    assert s[|c| + 3..] == d;
  }

  /** Content without ':' goes through the parse as written unharmed, and both parses agree. */
  lemma ParsesAgreeWithoutColon(c: string, d: string)
    requires c != "" && d != "" && ':' !in c && d[0] != ':' && Strings.Absent(d, Separator)
    ensures ParseLatestCommentAsWritten(Some(c + Separator + d)) == (Some(c), Some(d))
    ensures ParseLatestComment(Some(c + Separator + d)) == (Some(c), Some(d))
  {
    FirstSeparator(c, d);
    Strings.SplitAtFirst(c, Separator, d);
    LatestCommentRoundTrip(c, d);
  }

  /** The parse as written cuts the content "a:::b" at its own ":::" and reports "b" as the date. */
  lemma ContentWithSeparatorIsCut()
    ensures ParseLatestCommentAsWritten(Some("a:::b" + Separator + "1")) == (Some("a"), Some("b"))
    ensures ParseLatestComment(Some("a:::b" + Separator + "1")) == (Some("a:::b"), Some("1"))
  {
    var s := "a:::b" + Separator + "1";
    assert s == "a" + Separator + ("b" + Separator + "1");
    FirstSeparator("a", "b" + Separator + "1");
    Strings.SplitAtFirst("a", Separator, "b" + Separator + "1");
    FirstSeparator("b", "1");
    Strings.SplitAtFirst("b", Separator, "1");
    LatestCommentRoundTrip("a:::b", "1");
  }

  /** A ranked user: the row's identity, the post count or 0, and the parsed latest comment. */
  function TopUserOf(row: TopUserRow): (r: TopUser)
    ensures r.id == row.id && r.name == row.name && r.email == row.email
    ensures r.postCount == (if row.postCount.Some? && row.postCount.value != 0 then row.postCount.value else 0)
    ensures (r.latestCommentContent, r.latestCommentDate) == ParseLatestComment(row.latestComment)
  {
    var parsed := ParseLatestComment(row.latestComment);
    TopUser(row.id, row.name, row.email, row.postCount.GetOr(0), parsed.0, parsed.1)
  }

  /**
   * `getTopUsersWithLatestComment`: `ranked` holds the grouped rows in
   * the query's order (most posts first); the query's `LIMIT` keeps the
   * first `TopUsersLimit` of them, and each kept row becomes a ranked user.
   */
  function GetTopUsersWithLatestComment(ranked: seq<TopUserRow>): (r: seq<TopUser>)
    ensures |r| <= TopUsersLimit
    ensures |r| == if |ranked| < TopUsersLimit then |ranked| else TopUsersLimit
    ensures forall k :: 0 <= k < |r| ==> r[k] == TopUserOf(ranked[k])
  {
    var kept := if |ranked| < TopUsersLimit then ranked else ranked[..TopUsersLimit];
    seq(|kept|, k requires 0 <= k < |kept| => TopUserOf(kept[k]))
  }

  /** A user with no comment gets neither content nor date. */
  lemma NoCommentGivesNulls(row: TopUserRow)
    requires row.latestComment.None? || row.latestComment == Some("")
    ensures TopUserOf(row).latestCommentContent.None? && TopUserOf(row).latestCommentDate.None?
  {
  }

  // ------------------------------------------------------- state-changing methods

  /** The service, working on one database. */
  class PostService {
    const db: Database

    constructor(db: Database)
      ensures this.db == db
    {
      this.db := db;
    }

    /**
     * `createPost`: after the checks pass, one post is appended under
     * the fresh id `newId`, stamped `now`; a failed check changes nothing.
     */
    method CreatePost(userId: Id, input: CreatePostArgs, newId: Id, now: Timestamp) returns (r: Result<Post, ErrorHandler>)
      requires db.Valid() && newId !in PostIds(db.posts)
      modifies db
      ensures db.Valid()
      ensures db.users == old(db.users) && db.comments == old(db.comments)
      ensures CreatePostCheck(old(db.users), userId, input).Some? ==>
        r == Failure(CreatePostCheck(old(db.users), userId, input).value) && db.posts == old(db.posts)
      ensures CreatePostCheck(old(db.users), userId, input).None? ==>
        r == Success(Post(newId, input.title.value, input.content.value, userId, now, now))
        && db.posts == old(db.posts) + [r.value]
    {
      var user := FindUser(db.users, userId);
      if user.None? {
        return Failure(UnknownResourceError(UserNotFound));
      }
      if !Truthy(input.title) || !Truthy(input.content) {
        return Failure(BadRequestError(TitleAndContentRequired));
      }
      var post := Post(newId, input.title.value, input.content.value, userId, now, now);
      AddPostKeepsConsistent(db.users, db.posts, db.comments, post);
      db.posts := db.posts + [post];
      r := Success(post);
    }

    /**
     * `createComment`: after the checks pass, one comment is appended
     * under `newId`, with the parent id exactly as given; a failed check
     * changes nothing.
     */
    method CreateComment(userId: Id, postId: Id, input: CreateCommentArgs, newId: Id, now: Timestamp) returns (r: Result<Comment, ErrorHandler>)
      requires db.Valid() && newId !in CommentIds(db.comments)
      modifies db
      ensures db.Valid()
      ensures db.users == old(db.users) && db.posts == old(db.posts)
      ensures CreateCommentCheck(old(db.users), old(db.posts), old(db.comments), userId, postId, input).Some? ==>
        r == Failure(CreateCommentCheck(old(db.users), old(db.posts), old(db.comments), userId, postId, input).value)
        && db.comments == old(db.comments)
      ensures CreateCommentCheck(old(db.users), old(db.posts), old(db.comments), userId, postId, input).None? ==>
        r == Success(Comment(newId, input.content.value, postId, userId, input.parentId, now, now))
        && db.comments == old(db.comments) + [r.value]
    {
      if FindUser(db.users, userId).None? {
        return Failure(UnknownResourceError(UserNotFound));
      }
      if FindPost(db.posts, postId).None? {
        return Failure(UnknownResourceError(PostNotFound));
      }
      if !Truthy(input.content) {
        return Failure(BadRequestError(CommentContentRequired));
      }
      if Truthy(input.parentId) {
        var parent := FindComment(db.comments, input.parentId.value);
        if parent.None? {
          return Failure(UnknownResourceError(ParentNotFound));
        }
      }
      var comment := Comment(newId, input.content.value, postId, userId, input.parentId, now, now);
      AddCommentKeepsConsistent(db.users, db.posts, db.comments, comment);
      db.comments := db.comments + [comment];
      r := Success(comment);
    }
  }
}
