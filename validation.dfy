/**
 * The request schemas (src/utils/validation-schema.ts) as acceptance
 * functions: each takes a request body or query and gives the
 * normalised value the route passes on, or `None` when the schema
 * refuses it. The library's e-mail and UUID format checks are
 * parameters.
 */
module Validation {
  import opened Wrappers
  import opened Strings
  import Pagination

  /**
   * A property of a request body or query. Query strings that the
   * schema library converts to numbers appear as `Integer` or
   * `NonInteger`.
   */
  datatype Field = Text(s: string) | Integer(n: int) | NonInteger | Null | OtherValue

  type Body = map<string, Field>

  /** The outcome of one key's rule: absent, refused, or accepted with its converted value. */
  datatype Checked<T> = Missing | Invalid | Valid(value: T)

  /** The key is present and holds a string. */
  predicate HasText(body: Body, key: string) {
    key in body && body[key].Text?
  }

  /** `Joi.string()` with optional `trim()`: an empty string is refused unless `allowEmpty`. */
  function StringKey(body: Body, key: string, trim: bool, allowEmpty: bool): (r: Checked<string>)
    ensures r.Missing? <==> key !in body
    ensures r.Valid? <==> HasText(body, key) && (allowEmpty || (if trim then Trim(body[key].s) else body[key].s) != "")
    ensures r.Valid? ==> allowEmpty || r.value != ""
    ensures r.Valid? && trim ==> r.value == Trim(body[key].s)
    ensures r.Valid? && !trim ==> r.value == body[key].s
  {
    if key !in body then Missing
    else match body[key]
      case Text(s) =>
        var v := if trim then Trim(s) else s;
        if v == "" && !allowEmpty then Invalid else Valid(v)
      case _ => Invalid
  }

  /** `Number.MAX_SAFE_INTEGER`, 2^53 - 1: `Joi.number()` refuses integers beyond it in either direction. */
  const MaxSafeInteger: int := 9007199254740991

  /** `Joi.number().integer().min(lo)`, with `max(hi)` when given; an unsafe integer is refused. */
  function IntegerKey(body: Body, key: string, lo: int, hi: Option<int>): (r: Checked<int>)
    ensures r.Missing? <==> key !in body
    ensures r.Valid? <==> (key in body && body[key].Integer? && lo <= body[key].n && (hi.None? || body[key].n <= hi.value)
      && -MaxSafeInteger <= body[key].n <= MaxSafeInteger)
    ensures r.Valid? ==> r.value == body[key].n && lo <= r.value && (hi.Some? ==> r.value <= hi.value)
    ensures r.Valid? ==> -MaxSafeInteger <= r.value <= MaxSafeInteger
  {
    if key !in body then Missing
    else match body[key]
      case Integer(n) =>
        if -MaxSafeInteger <= n <= MaxSafeInteger && lo <= n && (hi.None? || n <= hi.value) then Valid(n) else Invalid
      case _ => Invalid
  }

  // ---------------------------------------------------------------- passwords

  predicate IsLineTerminator(c: char) {
    c == '\n' || c == '\r' || c == '\U{2028}' || c == '\U{2029}'
  }

  /** The characters a regular-expression `.` can cross from the start: everything before the first line terminator. */
  function FirstLine(s: string): (r: string)
    ensures StartsWith(s, r)
    ensures forall k :: 0 <= k < |r| ==> !IsLineTerminator(r[k])
    ensures |r| < |s| ==> IsLineTerminator(s[|r|])
  {
    if s == [] || IsLineTerminator(s[0]) then [] else [s[0]] + FirstLine(s[1..])
  }

  predicate IsSpecial(c: char) {
    c == '!' || c == '@' || c == '#' || c == '$' || c == '%' || c == '^' || c == '&' || c == '*'
  }

  /**
   * `min(8)` and the pattern of four look-aheads anchored at the start:
   * each of the four classes must occur before the first line terminator.
   */
  predicate StrongPassword(p: string) {
    var line := FirstLine(p);
    && |p| >= 8
    && (exists k :: 0 <= k < |line| && IsAsciiLower(line[k]))
    && (exists k :: 0 <= k < |line| && IsAsciiUpper(line[k]))
    && (exists k :: 0 <= k < |line| && IsAsciiDigit(line[k]))
    && (exists k :: 0 <= k < |line| && IsSpecial(line[k]))
  }

  /** A strong password has at least 8 characters and one of each of the four classes. */
  lemma StrongPasswordHasEveryClass(p: string)
    requires StrongPassword(p)
    ensures |p| >= 8
    ensures exists k :: 0 <= k < |p| && IsAsciiLower(p[k])
    ensures exists k :: 0 <= k < |p| && IsAsciiUpper(p[k])
    ensures exists k :: 0 <= k < |p| && IsAsciiDigit(p[k])
    ensures exists k :: 0 <= k < |p| && IsSpecial(p[k])
  {
    var line := FirstLine(p);
    assert forall k :: 0 <= k < |line| ==> line[k] == p[k];
  }

  /** A string without line terminators is its own first line. */
  lemma {:induction false} FirstLineWhole(s: string)
    requires forall k :: 0 <= k < |s| ==> !IsLineTerminator(s[k])
    ensures FirstLine(s) == s
  {
    if s != [] {
      FirstLineWhole(s[1..]);
    }
  }

  /** A password with all four classes on its first line and eight characters is accepted. */
  lemma StrongPasswordExample()
    ensures StrongPassword("Passw0rd!")
  {
    var p := "Passw0rd!";
    forall k | 0 <= k < |p| ensures !IsLineTerminator(p[k]) {
      assert p[k] in "Passw0rd!";
    }
    StrongWithoutLineBreak(p, 1, 0, 5, 8);
  }

  /** Witnesses of the four classes in a password without line terminators make it strong. */
  lemma StrongWithoutLineBreak(p: string, lower: nat, upper: nat, digit: nat, special: nat)
    requires |p| >= 8 && forall k :: 0 <= k < |p| ==> !IsLineTerminator(p[k])
    requires lower < |p| && upper < |p| && digit < |p| && special < |p|
    requires IsAsciiLower(p[lower]) && IsAsciiUpper(p[upper]) && IsAsciiDigit(p[digit]) && IsSpecial(p[special])
    ensures StrongPassword(p)
  {
    FirstLineWhole(p);
  }

  /** A password with no special character anywhere is refused, however long. */
  lemma NoSpecialIsWeak(p: string)
    requires forall k :: 0 <= k < |p| ==> !IsSpecial(p[k])
    ensures !StrongPassword(p)
  {
    var line := FirstLine(p);
    assert forall k :: 0 <= k < |line| ==> line[k] == p[k];
  }

  /** Letters and a digit without a special character are not enough. */
  lemma WeakPasswordExample()
    ensures !StrongPassword("Password1")
  {
    var weak := "Password1";
    forall k | 0 <= k < |weak| ensures !IsSpecial(weak[k]) {
      assert weak[k] in "Password1";
    }
    NoSpecialIsWeak(weak);
  }

  /** The classes must occur before the first line break: a leading newline makes any password refused. */
  lemma LineBreakHidesClasses(rest: string)
    ensures !StrongPassword("\n" + rest)
  {
    assert FirstLine("\n" + rest) == "";
  }

  // ---------------------------------------------------------------- schemas

  /** A registration after validation. */
  datatype RegisterInput = RegisterInput(name: string, email: string, password: string)

  /** `name` and `email` of the register and login schemas: trimmed, e-mail lower-cased and format-checked. */
  function NameRule(body: Body): Checked<string> {
    StringKey(body, "name", true, false)
  }

  function EmailRule(body: Body, isEmail: string -> bool): (r: Checked<string>)
    ensures r.Missing? <==> "email" !in body
    ensures r.Valid? <==> HasText(body, "email") && Trim(body["email"].s) != "" && isEmail(ToLower(Trim(body["email"].s)))
    ensures r.Valid? ==> r.value == ToLower(Trim(body["email"].s)) && isEmail(r.value)
  {
    match StringKey(body, "email", true, false)
    case Valid(e) => var v := ToLower(e); if isEmail(v) then Valid(v) else Invalid
    case Missing => Missing
    case Invalid => Invalid
  }

  /** `password` of the register schema: a string with `min(8)` and the strength pattern. */
  function PasswordRule(body: Body): (r: Checked<string>)
    ensures r.Missing? <==> "password" !in body
    ensures r.Valid? <==> HasText(body, "password") && StrongPassword(body["password"].s)
    ensures r.Valid? ==> r.value == body["password"].s
  {
    match StringKey(body, "password", false, false)
    case Valid(p) => if StrongPassword(p) then Valid(p) else Invalid
    case Missing => Missing
    case Invalid => Invalid
  }

  /**
   * `registerAccountSchema` as written: `password` carries no
   * `required()`, so a registration without one is accepted.
   */
  function ValidateRegisterAsWritten(body: Body, isEmail: string -> bool): Option<(string, string, Option<string>)> {
    var name := NameRule(body);
    var email := EmailRule(body, isEmail);
    var password := PasswordRule(body);
    if body.Keys <= {"name", "email", "password"} && name.Valid? && email.Valid? && !password.Invalid? then
      Some((name.value, email.value, if password.Valid? then Some(password.value) else None))
    else None
  }

  /** The schema as written lets through a registration that has no password at all. */
  lemma RegisterSchemaAdmitsMissingPassword(name: string, email: string, isEmail: string -> bool)
    requires name != "" && Trim(name) == name
    requires email != "" && Trim(email) == email && isEmail(email)
    requires forall k :: 0 <= k < |email| ==> !IsAsciiUpper(email[k])
    ensures ValidateRegisterAsWritten(map["name" := Text(name), "email" := Text(email)], isEmail) == Some((name, email, None))
  {
    var body := map["name" := Text(name), "email" := Text(email)];
    assert body.Keys == {"name", "email"};
    StringKeyUnchanged(body, "name", name);
    StringKeyUnchanged(body, "email", email);
    LowerUnchanged(email);
    assert NameRule(body) == Valid(name);
    assert EmailRule(body, isEmail) == Valid(email);
    assert PasswordRule(body) == Missing;
  }

  lemma StringKeyUnchanged(body: Body, key: string, v: string)
    requires key in body && body[key] == Text(v) && v != "" && Trim(v) == v
    ensures StringKey(body, key, true, false) == Valid(v)
  {
  }

  /** `registerAccountSchema` with the password required, as the registration input and the users table need it. */
  function ValidateRegister(body: Body, isEmail: string -> bool): (r: Option<RegisterInput>)
    ensures r.Some? <==> (body.Keys <= {"name", "email", "password"}
      && HasText(body, "name") && Trim(body["name"].s) != ""
      && HasText(body, "email") && Trim(body["email"].s) != "" && isEmail(ToLower(Trim(body["email"].s)))
      && HasText(body, "password") && StrongPassword(body["password"].s))
    ensures r.Some? ==> r.value == RegisterInput(Trim(body["name"].s), ToLower(Trim(body["email"].s)), body["password"].s)
    ensures r.Some? ==> r.value.name != "" && isEmail(r.value.email) && StrongPassword(r.value.password)
    ensures r.Some? ==> ValidateRegisterAsWritten(body, isEmail) == Some((r.value.name, r.value.email, Some(r.value.password)))
  {
    var name := NameRule(body);
    var email := EmailRule(body, isEmail);
    var password := PasswordRule(body);
    if body.Keys <= {"name", "email", "password"} && name.Valid? && email.Valid? && password.Valid? then
      Some(RegisterInput(name.value, email.value, password.value))
    else None
  }

  /** An accepted name and e-mail carry no surrounding whitespace, and the e-mail no upper-case letter. */
  lemma AcceptedRegisterIsNormalised(body: Body, isEmail: string -> bool)
    requires ValidateRegister(body, isEmail).Some?
    ensures var input := ValidateRegister(body, isEmail).value;
      && !IsWhiteSpace(input.name[0]) && !IsWhiteSpace(input.name[|input.name| - 1])
      && Trim(input.name) == input.name
      && forall k :: 0 <= k < |input.email| ==> !IsAsciiUpper(input.email[k])
  {
    var input := ValidateRegister(body, isEmail).value;
    TrimIsInnerSlice(body["name"].s);
    TrimIdempotent(body["name"].s);
  }

  /** A login after validation. */
  datatype LoginInput = LoginInput(email: string, password: string)

  /** `loginSchema`: e-mail as for registration, password any non-empty string. */
  function ValidateLogin(body: Body, isEmail: string -> bool): (r: Option<LoginInput>)
    ensures r.Some? <==> (body.Keys <= {"email", "password"}
      && HasText(body, "email") && Trim(body["email"].s) != "" && isEmail(ToLower(Trim(body["email"].s)))
      && HasText(body, "password") && body["password"].s != "")
    ensures r.Some? ==> r.value == LoginInput(ToLower(Trim(body["email"].s)), body["password"].s)
    ensures r.Some? ==> isEmail(r.value.email) && r.value.password != ""
  {
    var email := EmailRule(body, isEmail);
    var password := StringKey(body, "password", false, false);
    if body.Keys <= {"email", "password"} && email.Valid? && password.Valid? then
      Some(LoginInput(email.value, password.value))
    else None
  }

  /** The listing options after validation: page and limit always present. */
  function ListingRules(body: Body, allowSearch: bool): (r: Option<Pagination.PaginationOptions>)
    ensures r.Some? <==> (body.Keys <= {"page", "limit", "search"} && (allowSearch || "search" !in body)
      && ("page" in body ==> body["page"].Integer? && 1 <= body["page"].n <= MaxSafeInteger)
      && ("limit" in body ==> body["limit"].Integer? && 1 <= body["limit"].n <= 100)
      && ("search" in body ==> body["search"].Text?))
    ensures r.Some? ==> r.value.page == Some(if "page" in body then body["page"].n else Pagination.DefaultPage)
    ensures r.Some? ==> r.value.limit == Some(if "limit" in body then body["limit"].n else Pagination.DefaultLimit)
    ensures r.Some? ==> r.value.search == (if "search" in body then Some(Trim(body["search"].s)) else None)
    ensures r.Some? ==> 1 <= r.value.page.value <= MaxSafeInteger && 1 <= r.value.limit.value <= 100
  {
    var page := IntegerKey(body, "page", 1, None);
    var limit := IntegerKey(body, "limit", 1, Some(100));
    var search := StringKey(body, "search", true, true);
    var knownKeys := body.Keys <= {"page", "limit", "search"} && (allowSearch || "search" !in body);
    if knownKeys && !page.Invalid? && !limit.Invalid? && !search.Invalid? then
      Some(Pagination.PaginationOptions(
        Some(if page.Valid? then page.value else Pagination.DefaultPage),
        Some(if limit.Valid? then limit.value else Pagination.DefaultLimit),
        if search.Valid? then Some(search.value) else None))
    else None
  }

  /** `getUsersSchema` and `getUserPostsSchema`: page, limit and a trimmed search that may be empty. */
  function ValidateUsersListing(body: Body): Option<Pagination.PaginationOptions> {
    ListingRules(body, true)
  }

  function ValidateUserPostsListing(body: Body): Option<Pagination.PaginationOptions> {
    ListingRules(body, true)
  }

  /** `getPostCommentsSchema`: page and limit only; a `search` key is refused. */
  function ValidatePostCommentsListing(body: Body): Option<Pagination.PaginationOptions> {
    ListingRules(body, false)
  }

  /** A search of blanks is accepted and becomes the empty string. */
  lemma BlankSearchBecomesEmpty(body: Body, blanks: string)
    requires body == map["search" := Text(blanks)]
    requires forall k :: 0 <= k < |blanks| ==> IsWhiteSpace(blanks[k])
    ensures ValidateUsersListing(body) == Some(Pagination.PaginationOptions(Some(1), Some(10), Some("")))
  {
    TrimEmptyIff(blanks);
    assert body.Keys == {"search"};
    assert StringKey(body, "search", true, true) == Valid("");
    assert IntegerKey(body, "page", 1, None) == Missing;
    assert IntegerKey(body, "limit", 1, Some(100)) == Missing;
  }

  /** A page number past `Number.MAX_SAFE_INTEGER` is refused, whatever else the query holds. */
  lemma UnsafePageRefused(body: Body, page: int)
    requires body == map["page" := Integer(page)] && page > MaxSafeInteger
    ensures ValidateUsersListing(body).None? && ValidatePostCommentsListing(body).None?
  {
    assert IntegerKey(body, "page", 1, None) == Invalid;
  }

  /** `getUserByIdSchema` and `getPostByIdSchema`: a required UUID. */
  function ValidateId(body: Body, isUuid: string -> bool): (r: Option<string>)
    ensures r.Some? <==> body.Keys <= {"id"} && HasText(body, "id") && body["id"].s != "" && isUuid(body["id"].s)
    ensures r.Some? ==> body.Keys == {"id"} && body["id"] == Text(r.value) && isUuid(r.value)
  {
    match StringKey(body, "id", false, false)
    case Valid(id) => if body.Keys <= {"id"} && isUuid(id) then Some(id) else None
    case _ => None
  }

  /** A post after validation. */
  datatype PostInput = PostInput(title: string, content: string)

  /** `createPostSchema`: title and content required and non-blank, both trimmed. */
  function ValidatePost(body: Body): (r: Option<PostInput>)
    ensures r.Some? <==> (body.Keys <= {"title", "content"}
      && HasText(body, "title") && Trim(body["title"].s) != ""
      && HasText(body, "content") && Trim(body["content"].s) != "")
    ensures r.Some? ==> r.value.title != "" && r.value.content != ""
    ensures r.Some? ==> "title" in body && body["title"].Text? && r.value.title == Trim(body["title"].s)
    ensures r.Some? ==> "content" in body && body["content"].Text? && r.value.content == Trim(body["content"].s)
  {
    var title := StringKey(body, "title", true, false);
    var content := StringKey(body, "content", true, false);
    if body.Keys <= {"title", "content"} && title.Valid? && content.Valid? then
      Some(PostInput(title.value, content.value))
    else None
  }

  /** A comment after validation: `parentId` is `None` when absent or null. */
  datatype CommentInput = CommentInput(content: string, parentId: Option<string>)

  /** `createCommentSchema`: content required and non-blank; parentId absent, null, or a UUID. */
  function ValidateComment(body: Body, isUuid: string -> bool): (r: Option<CommentInput>)
    ensures r.Some? <==> (body.Keys <= {"content", "parentId"}
      && HasText(body, "content") && Trim(body["content"].s) != ""
      && ("parentId" in body ==> body["parentId"].Null? || (body["parentId"].Text? && body["parentId"].s != "" && isUuid(body["parentId"].s))))
    ensures r.Some? ==> r.value.parentId == (if HasText(body, "parentId") then Some(body["parentId"].s) else None)
    ensures r.Some? ==> ("content" in body && body["content"].Text? && r.value.content != ""
      && r.value.content == Trim(body["content"].s))
    ensures r.Some? && r.value.parentId.Some? ==>
      (isUuid(r.value.parentId.value) && "parentId" in body && body["parentId"] == Text(r.value.parentId.value))
    ensures r.Some? && "parentId" in body ==> body["parentId"].Null? || body["parentId"].Text?
  {
    var content := StringKey(body, "content", true, false);
    var parent: Checked<Option<string>> :=
      if "parentId" !in body then Missing
      else match body["parentId"]
        case Null => Valid(None)
        case Text(s) => if s != "" && isUuid(s) then Valid(Some(s)) else Invalid
        case _ => Invalid;
    if body.Keys <= {"content", "parentId"} && content.Valid? && !parent.Invalid? then
      Some(CommentInput(content.value, if parent.Valid? then parent.value else None))
    else None
  }
}
