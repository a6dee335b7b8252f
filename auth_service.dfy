/**
 * The account service (src/services/auth.service.ts): registration with
 * its welcome message on the queue, login, and the user listing and
 * lookup. Token signing and password hashing are parameters.
 */
module AuthService {
  import opened Wrappers
  import opened Errors
  import opened Store
  import opened Pagination
  import opened Messages
  import opened Strings
  import Notify
  import Authenticate

  const EmailTaken: string := "Email address already exist, please login to continue"
  const BadCredentials: string := "Email Or Password Incorrect"
  const AccountDisabled: string := "Your account has been disabled please contact support for further details"
  const InactiveStatus: string := "inactive"
  const WelcomeSubject: string := "Welcome"

  /** Which secret and expiry a token is signed with. */
  datatype TokenKind = AccessToken | RefreshToken

  /** The user as the register and login responses show it. */
  datatype UserView = UserView(id: Id, name: string, email: string)

  /** A register or login response: the user and the two signed tokens. */
  datatype Session = Session(user: UserView, accessToken: string, refreshToken: string)

  /** The claims both tokens carry. */
  function ClaimsOf(u: User): Authenticate.JwtUser {
    Authenticate.JwtUser(u.id, u.isAdmin)
  }

  /** The response for a user, with `sign` standing for `jwt.sign` under the kind's secret and expiry. */
  function SessionOf(u: User, sign: (Authenticate.JwtUser, TokenKind) -> string): (r: Session)
    ensures r.user == UserView(u.id, u.name, u.email)
    ensures r.accessToken == sign(ClaimsOf(u), AccessToken) && r.refreshToken == sign(ClaimsOf(u), RefreshToken)
  {
    Session(UserView(u.id, u.name, u.email), sign(ClaimsOf(u), AccessToken), sign(ClaimsOf(u), RefreshToken))
  }

  /** The row `User.create` inserts: not an administrator, no status, never logged in, the password hashed. */
  function NewUser(id: Id, name: string, email: string, passwordHash: string, now: Timestamp): User {
    User(id, name, email, passwordHash, false, None, None, now, now)
  }

  // ---------------------------------------------------------------- welcome mail

  /** The welcome envelope placed on the queue for a new user. */
  function WelcomeMessage(u: User, template: string): Json {
    Obj(map[
      "notifyBy" := Arr([Str(Notify.SystemTypes[0])]),
      "email" := Str(u.email),
      "subject" := Str(WelcomeSubject),
      "data" := Obj(map["name" := Str(u.name)]),
      "template" := Str(template)])
  }

  /** The queue message of a registration: type "email", the envelope, the configured queue. */
  function WelcomeQueueMessage(u: User, template: string, queueUrl: string): QueueMessage {
    QueueMessage(Notify.SystemTypes[0], WelcomeMessage(u, template), queueUrl)
  }

  /** The dispatcher mails the welcome envelope exactly once, to the new user, with subject "Welcome". */
  lemma WelcomeIsMailed(u: User, template: string, sendMail: MailRequest -> SendResult<Thrown>)
    ensures Notify.Notify(WelcomeMessage(u, template), sendMail).sends ==
      [MailRequest(Str(u.email), Obj(map["name" := Str(u.name)]), Str(template), Str(WelcomeSubject))]
    ensures Notify.Notify(WelcomeMessage(u, template), sendMail).outcome.Threw? <==>
      sendMail(MailRequest(Str(u.email), Obj(map["name" := Str(u.name)]), Str(template), Str(WelcomeSubject))).SendFailed?
  {
    var m := WelcomeMessage(u, template);
    assert Property(m, "notifyBy") == Arr([Str("email")]);
    assert Property(m, "notifyBy").items[0] == Str("email");
  }

  // ------------------------------------------------------------------- login

  /**
   * The checks of `login`, in order: the e-mail must be known, the
   * account not disabled, and the password must match the stored hash
   * (`compare` stands for `bcrypt.compareSync`). Success gives the
   * index of the user.
   */
  function LoginCheck(users: seq<User>, email: string, password: string, compare: (string, string) -> bool): (r: Result<nat, ErrorHandler>)
    ensures r.Success? <==> (UserIndexByEmail(users, email).Some?
      && (var u := users[UserIndexByEmail(users, email).value];
          u.status != Some(InactiveStatus) && compare(password, u.password)))
    ensures r.Success? ==> UserIndexByEmail(users, email) == Some(r.value)
    ensures r.Success? ==> users[r.value].status != Some(InactiveStatus) && compare(password, users[r.value].password)
    ensures r == Failure(BadRequestError(AccountDisabled)) <==>
      UserIndexByEmail(users, email).Some? && users[UserIndexByEmail(users, email).value].status == Some(InactiveStatus)
    ensures r == Failure(BadRequestError(BadCredentials)) <==>
      || UserIndexByEmail(users, email).None?
      || (var u := users[UserIndexByEmail(users, email).value];
          u.status != Some(InactiveStatus) && !compare(password, u.password))
  {
    match UserIndexByEmail(users, email)
    case None => Failure(BadRequestError(BadCredentials))
    case Some(k) =>
      if users[k].status == Some(InactiveStatus) then Failure(BadRequestError(AccountDisabled))
      else if !compare(password, users[k].password) then Failure(BadRequestError(BadCredentials))
      else Success(k)
  }

  /** An unknown e-mail and a wrong password get the same answer. */
  lemma WrongPasswordLooksLikeUnknownEmail(users: seq<User>, email: string, unknown: string, password: string, compare: (string, string) -> bool, k: nat)
    requires UsersUnique(users) && k < |users| && users[k].email == email
    requires users[k].status != Some(InactiveStatus) && !compare(password, users[k].password)
    requires UserIndexByEmail(users, unknown).None?
    ensures LoginCheck(users, email, password, compare) == LoginCheck(users, unknown, password, compare)
    ensures LoginCheck(users, email, password, compare) == Failure(BadRequestError(BadCredentials))
  {
    EmailLookupIsUnique(users, email, k);
  }

  /** A disabled account is reported before the password is checked, whatever the password. */
  lemma DisabledBeforePassword(users: seq<User>, email: string, p1: string, p2: string, compare: (string, string) -> bool)
    ensures LoginCheck(users, email, p1, compare) == Failure(BadRequestError(AccountDisabled)) ==>
      LoginCheck(users, email, p2, compare) == LoginCheck(users, email, p1, compare)
  {
  }

  /** After a registration, its e-mail and password log in as the new user, given a hash the comparison accepts. */
  lemma LoginAfterRegister(users: seq<User>, id: Id, name: string, email: string, password: string, now: Timestamp,
                           hash: string -> string, compare: (string, string) -> bool)
    requires UserIndexByEmail(users, email).None? && compare(password, hash(password))
    ensures LoginCheck(users + [NewUser(id, name, email, hash(password), now)], email, password, compare) == Success(|users|)
  {
    var users' := users + [NewUser(id, name, email, hash(password), now)];
    assert users'[|users|].email == email;
    assert forall k :: 0 <= k < |users| ==> users'[k] == users[k];
  }

  // ---------------------------------------------------------- listing, lookup

  /** The query of `getUsers`: a name-or-e-mail filter only for a non-empty search text. */
  function UsersQuery(options: PaginationOptions): (q: PageQuery<Option<string>>)
    requires PageOf(options) >= 1 && LimitOf(options) >= 1
    ensures q.filter.Some? <==> Truthy(options.search)
    ensures q.filter.Some? ==> q.filter == options.search
    ensures q.limit == LimitOf(options) && q.offset == Offset(PageOf(options), LimitOf(options))
  {
    PageQuery(if Truthy(options.search) then options.search else None, LimitOf(options), Offset(PageOf(options), LimitOf(options)))
  }

  /** A user as the listing and the lookup show it: no password, status or login time. */
  datatype UserProfile = UserProfile(id: Id, name: string, email: string, isAdmin: bool, createdAt: Timestamp, updatedAt: Timestamp)

  function ProfileOf(u: User): UserProfile {
    UserProfile(u.id, u.name, u.email, u.isAdmin, u.createdAt, u.updatedAt)
  }

  /** `getUsers`: the page as the query returns it; unlike the post listings, no message when nothing matches. */
  function GetUsers(options: PaginationOptions, findAndCountAll: PageQuery<Option<string>> -> Counted<UserProfile>): (r: Listing<UserProfile>)
    requires PageOf(options) >= 1 && LimitOf(options) >= 1
    ensures var result := findAndCountAll(UsersQuery(options));
      && r.rows == result.rows && r.total == result.count && r.message == None
      && r.currentPage == PageOf(options)
      && r.totalPages == CeilDiv(result.count, LimitOf(options))
  {
    var result := findAndCountAll(UsersQuery(options));
    ListingOf(result.rows, result.count, PageOf(options), LimitOf(options), None)
  }

  /** `getUserById`: the user's profile, or 404. */
  function GetUserById(users: seq<User>, id: Id): (r: Result<UserProfile, ErrorHandler>)
    ensures r.Failure? <==> id !in UserIds(users)
    ensures r.Failure? ==> r.error == UnknownResourceError(UserNotFound)
    ensures r.Success? ==> r.value.id == id && exists u :: u in users && u.id == id && r.value == ProfileOf(u)
  {
    match FindUser(users, id)
    case None => Failure(UnknownResourceError(UserNotFound))
    case Some(u) => Success(ProfileOf(u))
  }

  /** A login changes nothing a profile shows except `updatedAt`. */
  lemma LoginKeepsProfile(u: User, now: Timestamp)
    ensures ProfileOf(u.(lastLoginAt := Some(now), updatedAt := now)) == ProfileOf(u).(updatedAt := now)
  {
  }

  // ------------------------------------------------------- state-changing methods

  /** The service, working on one database and one queue. */
  class AuthService {
    const db: Database
    const queue: MessageQueue
    /** The welcome e-mail template. */
    const welcomeTemplate: string
    /** The queue URL from the environment. */
    const queueUrl: string

    constructor(db: Database, queue: MessageQueue, welcomeTemplate: string, queueUrl: string)
      ensures this.db == db && this.queue == queue
      ensures this.welcomeTemplate == welcomeTemplate && this.queueUrl == queueUrl
    {
      this.db := db;
      this.queue := queue;
      this.welcomeTemplate := welcomeTemplate;
      this.queueUrl := queueUrl;
    }

    /**
     * `register`: a taken e-mail is refused and nothing changes;
     * otherwise one user is appended under the fresh id `newId`, the
     * welcome message is offered to the queue, and the response is the
     * same whether the queue accepted it or not. `hash` stands for the
     * model's password-hashing hook.
     */
    method Register(email: string, name: string, password: string, hash: string -> string,
                    sign: (Authenticate.JwtUser, TokenKind) -> string, newId: Id, now: Timestamp)
      returns (r: Result<Session, ErrorHandler>)
      requires db.Valid() && newId !in UserIds(db.users)
      modifies db, queue
      ensures db.Valid()
      ensures db.posts == old(db.posts) && db.comments == old(db.comments)
      ensures queue.online == old(queue.online)
      ensures UserIndexByEmail(old(db.users), email).Some? ==>
        r == Failure(BadRequestError(EmailTaken)) && db.users == old(db.users) && queue.messages == old(queue.messages)
      ensures UserIndexByEmail(old(db.users), email).None? ==>
        var u := NewUser(newId, name, email, hash(password), now);
        && db.users == old(db.users) + [u]
        && queue.messages == old(queue.messages) + (if old(queue.online) then [WelcomeQueueMessage(u, welcomeTemplate, queueUrl)] else [])
        && r == Success(SessionOf(u, sign))
    {
      var existing := UserIndexByEmail(db.users, email);
      if existing.Some? {
        return Failure(BadRequestError(EmailTaken));
      }
      var user := NewUser(newId, name, email, hash(password), now);
      AddUserKeepsConsistent(db.users, db.posts, db.comments, user);
      db.users := db.users + [user];
      var _ := queue.SendMessage(WelcomeQueueMessage(user, welcomeTemplate, queueUrl));
      r := Success(SessionOf(user, sign));
    }

    /**
     * `login`: after the checks pass, the user's `lastLoginAt` and
     * `updatedAt` become `now` and the two tokens are returned; a failed
     * check changes nothing.
     */
    method Login(email: string, password: string, compare: (string, string) -> bool,
                 sign: (Authenticate.JwtUser, TokenKind) -> string, now: Timestamp)
      returns (r: Result<Session, ErrorHandler>)
      requires db.Valid()
      modifies db
      ensures db.Valid()
      ensures db.posts == old(db.posts) && db.comments == old(db.comments)
      ensures LoginCheck(old(db.users), email, password, compare).Failure? ==>
        r == Failure(LoginCheck(old(db.users), email, password, compare).error) && db.users == old(db.users)
      ensures LoginCheck(old(db.users), email, password, compare).Success? ==>
        var k := LoginCheck(old(db.users), email, password, compare).value;
        && db.users == old(db.users)[k := old(db.users)[k].(lastLoginAt := Some(now), updatedAt := now)]
        && r == Success(SessionOf(old(db.users)[k], sign))
    {
      var found := UserIndexByEmail(db.users, email);
      if found.None? {
        return Failure(BadRequestError(BadCredentials));
      }
      var k := found.value;
      var user := db.users[k];
      if user.status == Some(InactiveStatus) {
        return Failure(BadRequestError(AccountDisabled));
      }
      if !compare(password, user.password) {
        return Failure(BadRequestError(BadCredentials));
      }
      r := Success(SessionOf(user, sign));
      var updated := user.(lastLoginAt := Some(now), updatedAt := now);
      UpdateUserKeepsConsistent(db.users, db.posts, db.comments, k, updated);
      db.users := db.users[k := updated];
    }
  }
}
