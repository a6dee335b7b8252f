/**
 * The three tables the services read and write (users, posts and
 * comments, src/database/models/), held in insertion order, with the
 * lookups `findByPk` and `findOne` as first-match searches and the
 * integrity the database keeps: unique keys, unique e-mails, and
 * foreign keys that refer to existing rows.
 */
module Store {
  import opened Wrappers

  type Id = string
  /** A point in time, as the database stores it; never inspected. */
  type Timestamp = string

  /** The message both services give when no user row has the id or e-mail asked for. */
  const UserNotFound: string := "User not found"

  /** A row of `users`; `password` holds the stored hash. */
  datatype User = User(
    id: Id, name: string, email: string, password: string, isAdmin: bool,
    status: Option<string>, lastLoginAt: Option<Timestamp>,
    createdAt: Timestamp, updatedAt: Timestamp)

  /** A row of `posts`. */
  datatype Post = Post(id: Id, title: string, content: string, userId: Id, createdAt: Timestamp, updatedAt: Timestamp)

  /** A row of `comments`; `parentId` is `None` for a top-level comment. */
  datatype Comment = Comment(
    id: Id, content: string, postId: Id, userId: Id, parentId: Option<Id>,
    createdAt: Timestamp, updatedAt: Timestamp)

  /** The first index whose element satisfies `p`, if any. */
  function FirstIndex<T>(xs: seq<T>, p: T -> bool): (r: Option<nat>)
    ensures r.Some? ==> r.value < |xs| && p(xs[r.value])
    ensures r.Some? ==> forall j :: 0 <= j < r.value ==> !p(xs[j])
    ensures r.None? <==> forall k :: 0 <= k < |xs| ==> !p(xs[k])
  {
    if |xs| == 0 then None
    else if p(xs[0]) then Some(0)
    else
      match FirstIndex(xs[1..], p)
      case None => None
      case Some(k) => Some(k + 1)
  }

  /** `User.findOne({ where: { email } })`: the index of the first user with that e-mail. */
  function UserIndexByEmail(users: seq<User>, email: string): (r: Option<nat>)
    ensures r.Some? ==> r.value < |users| && users[r.value].email == email
    ensures r.None? <==> forall k :: 0 <= k < |users| ==> users[k].email != email
  {
    FirstIndex(users, (u: User) => u.email == email)
  }

  /** `User.findByPk(id)`. */
  function FindUser(users: seq<User>, id: Id): (r: Option<User>)
    ensures r.Some? ==> r.value in users && r.value.id == id
    ensures r.None? <==> id !in UserIds(users)
  {
    match FirstIndex(users, (u: User) => u.id == id)
    case Some(k) => Some(users[k])
    case None => None
  }

  /** `Post.findByPk(id)`. */
  function FindPost(posts: seq<Post>, id: Id): (r: Option<Post>)
    ensures r.Some? ==> r.value in posts && r.value.id == id
    ensures r.None? <==> id !in PostIds(posts)
  {
    match FirstIndex(posts, (p: Post) => p.id == id)
    case Some(k) => Some(posts[k])
    case None => None
  }

  /** `Comment.findByPk(id)`. */
  function FindComment(comments: seq<Comment>, id: Id): (r: Option<Comment>)
    ensures r.Some? ==> r.value in comments && r.value.id == id
    ensures r.None? <==> id !in CommentIds(comments)
  {
    match FirstIndex(comments, (c: Comment) => c.id == id)
    case Some(k) => Some(comments[k])
    case None => None
  }

  function UserIds(users: seq<User>): set<Id> { set u | u in users :: u.id }
  function PostIds(posts: seq<Post>): set<Id> { set p | p in posts :: p.id }
  function CommentIds(comments: seq<Comment>): set<Id> { set c | c in comments :: c.id }

  /** No two users share an id or an e-mail (primary key and unique index). */
  predicate UsersUnique(users: seq<User>) {
    forall i, j :: 0 <= i < j < |users| ==> users[i].id != users[j].id && users[i].email != users[j].email
  }

  predicate PostsUnique(posts: seq<Post>) {
    forall i, j :: 0 <= i < j < |posts| ==> posts[i].id != posts[j].id
  }

  predicate CommentsUnique(comments: seq<Comment>) {
    forall i, j :: 0 <= i < j < |comments| ==> comments[i].id != comments[j].id
  }

  /**
   * The integrity of the three tables: unique keys, and every foreign
   * key refers to an existing row. A `parentId` is checked only when it
   * is a non-empty string, as the service checks it only then.
   */
  predicate Consistent(users: seq<User>, posts: seq<Post>, comments: seq<Comment>) {
    && UsersUnique(users)
    && PostsUnique(posts)
    && CommentsUnique(comments)
    && (forall p | p in posts :: p.userId in UserIds(users))
    && (forall c | c in comments :: c.userId in UserIds(users) && c.postId in PostIds(posts))
    && (forall c | c in comments :: c.parentId.Some? && c.parentId.value != "" ==> c.parentId.value in CommentIds(comments))
  }

  /** With unique e-mails, the user found by e-mail is the only one carrying it. */
  lemma EmailLookupIsUnique(users: seq<User>, email: string, k: nat)
    requires UsersUnique(users) && k < |users| && users[k].email == email
    ensures UserIndexByEmail(users, email) == Some(k)
  {
  }

  /** A user whose id and e-mail are both new can be appended: the tables stay consistent. */
  lemma AddUserKeepsConsistent(users: seq<User>, posts: seq<Post>, comments: seq<Comment>, u: User)
    requires Consistent(users, posts, comments)
    requires u.id !in UserIds(users) && UserIndexByEmail(users, u.email).None?
    ensures Consistent(users + [u], posts, comments)
    ensures FindUser(users + [u], u.id) == Some(u)
  {
    var users' := users + [u];
    assert UserIds(users') == UserIds(users) + {u.id};
    forall i, j | 0 <= i < j < |users'| ensures users'[i].id != users'[j].id && users'[i].email != users'[j].email {
      if j == |users| {
        assert users[i] in users;
      }
    }
  }

  /** A post by an existing user under a new id can be appended. */
  lemma AddPostKeepsConsistent(users: seq<User>, posts: seq<Post>, comments: seq<Comment>, p: Post)
    requires Consistent(users, posts, comments)
    requires p.id !in PostIds(posts) && p.userId in UserIds(users)
    ensures Consistent(users, posts + [p], comments)
    ensures FindPost(posts + [p], p.id) == Some(p)
  {
    var posts' := posts + [p];
    assert PostIds(posts') == PostIds(posts) + {p.id};
    forall i, j | 0 <= i < j < |posts'| ensures posts'[i].id != posts'[j].id {
      if j == |posts| {
        assert posts[i] in posts;
      }
    }
  }

  /** A comment by an existing user on an existing post, under a new id and with an existing or empty parent, can be appended. */
  lemma AddCommentKeepsConsistent(users: seq<User>, posts: seq<Post>, comments: seq<Comment>, c: Comment)
    requires Consistent(users, posts, comments)
    requires c.id !in CommentIds(comments) && c.userId in UserIds(users) && c.postId in PostIds(posts)
    requires c.parentId.Some? && c.parentId.value != "" ==> c.parentId.value in CommentIds(comments)
    ensures Consistent(users, posts, comments + [c])
    ensures FindComment(comments + [c], c.id) == Some(c)
  {
    var comments' := comments + [c];
    assert CommentIds(comments') == CommentIds(comments) + {c.id};
    forall i, j | 0 <= i < j < |comments'| ensures comments'[i].id != comments'[j].id {
      if j == |comments| {
        assert comments[i] in comments;
      }
    }
  }

  /** Changing fields of a user other than its id and e-mail keeps the tables consistent. */
  lemma UpdateUserKeepsConsistent(users: seq<User>, posts: seq<Post>, comments: seq<Comment>, k: nat, u: User)
    requires Consistent(users, posts, comments)
    requires k < |users| && u.id == users[k].id && u.email == users[k].email
    ensures Consistent(users[k := u], posts, comments)
  {
    var users' := users[k := u];
    assert UserIds(users') == UserIds(users) by {
      forall x | x in UserIds(users) ensures x in UserIds(users') {
        var v :| v in users && v.id == x;
        var i :| 0 <= i < |users| && users[i] == v;
        assert users'[i].id == x;
      }
      forall x | x in UserIds(users') ensures x in UserIds(users) {
        var v :| v in users' && v.id == x;
        var i :| 0 <= i < |users'| && users'[i] == v;
        assert users[i].id == x;
      }
    }
  }

  /**
   * The database: the three tables, changed in place by the services.
   */
  class Database {
    var users: seq<User>
    var posts: seq<Post>
    var comments: seq<Comment>

    predicate Valid()
      reads this
    {
      Consistent(users, posts, comments)
    }

    /** An empty database. */
    constructor()
      ensures users == [] && posts == [] && comments == []
      ensures Valid()
    {
      users := [];
      posts := [];
      comments := [];
    }
  }
}
