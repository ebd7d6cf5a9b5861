/** The request schemas: each accepts a payload of raw fields or rejects it, and on
    acceptance gives the parsed data, in which every trimmed string field is trimmed. */
module Schemas {
  import opened Common
  import opened Text
  import opened Numbers

  /** The value of a `z.coerce.number().nullable()` field. */
  datatype NumOrNull = NullValue | Number(n: int)

  /** `z.string().trim()` */
  function TrimmedString(r: Raw): Option<string>
  {
    if r.Text? then Some(Trim(r.s)) else None
  }

  /** The test of `z.string().trim().min(n)`: a string whose trimmed form has at least
      n UTF-16 units. */
  predicate MinTrimmed(r: Raw, n: nat)
    ensures n == 0 ==> (MinTrimmed(r, n) <==> r.Text?)
    ensures MinTrimmed(r, n) ==> r.Text? && 2 * |Trim(r.s)| >= n
  {
    r.Text? && Utf16Length(Trim(r.s)) >= n
  }

  /** `z.string().trim().min(n)`: the trimmed string, when it passes the test. */
  function TrimmedMin(r: Raw, n: nat): (t: Option<string>)
    ensures t.Some? <==> MinTrimmed(r, n)
    ensures t.Some? ==> IsTrimmed(t.value) && Utf16Length(t.value) >= n && |t.value| <= |r.s|
  {
    if MinTrimmed(r, n) then TrimIdempotent(r.s); Some(Trim(r.s)) else None
  }

  /** `z.string().email()`: the format check is the oracle `isEmail`; nothing is trimmed. */
  function EmailString(r: Raw, isEmail: string -> bool): (e: Option<string>)
    ensures e.Some? <==> r.Text? && isEmail(r.s)
    ensures e.Some? ==> e.value == r.s
  {
    if r.Text? && isEmail(r.s) then Some(r.s) else None
  }

  /** `z.coerce.number().nullable()`: `null` passes as null before any coercion. */
  function NullableNumber(r: Raw): (v: Option<NumOrNull>)
    ensures v == Some(NullValue) <==> r.Null?
    ensures v.None? <==> r.Missing? || (r.Text? && NumberOfText(r.s).None?)
    ensures v.Some? && v.value.Number? ==> Some(v.value.n) == CoerceNumber(r)
  {
    if r.Null? then Some(NullValue)
    else if CoerceNumber(r).Some? then Some(Number(CoerceNumber(r).value))
    else None
  }

  /** No white space to trim at either end. */
  predicate IsTrimmed(s: string)
  {
    Trim(s) == s
  }

  // ---- Pagination queries -------------------------------------------------

  datatype BlogsQuery = BlogsQuery(categoryId: NumOrNull, page: int, limit: NumOrNull)

  function BlogsPaginationProps(categoryId: Raw, page: Raw, limit: Raw): (r: Option<BlogsQuery>)
    ensures r.Some? <==> NullableNumber(categoryId).Some? && CoerceNumber(page).Some? && NullableNumber(limit).Some?
    ensures r.Some? ==> r.value.page == CoerceNumber(page).value
    ensures r.Some? ==> (r.value.limit.NullValue? <==> limit.Null?)
    ensures r.Some? && !limit.Null? ==> r.value.limit == Number(CoerceNumber(limit).value)
    ensures r.Some? ==> (r.value.categoryId.NullValue? <==> categoryId.Null?)
    ensures r.Some? && !categoryId.Null? ==> r.value.categoryId == Number(CoerceNumber(categoryId).value)
    ensures page.Missing? || limit.Missing? || categoryId.Missing? ==> r.None?
  {
    var c := NullableNumber(categoryId);
    var p := CoerceNumber(page);
    var l := NullableNumber(limit);
    if c.Some? && p.Some? && l.Some? then Some(BlogsQuery(c.value, p.value, l.value)) else None
  }

  datatype UserBlogsQuery = UserBlogsQuery(page: int, limit: NumOrNull)

  function UserBlogsQueries(page: Raw, limit: Raw): (r: Option<UserBlogsQuery>)
    ensures r.Some? <==> CoerceNumber(page).Some? && NullableNumber(limit).Some?
    ensures r.Some? ==> r.value.page == CoerceNumber(page).value
    ensures r.Some? ==> (r.value.limit.NullValue? <==> limit.Null?)
    ensures r.Some? && !limit.Null? ==> r.value.limit == Number(CoerceNumber(limit).value)
    ensures page.Missing? || limit.Missing? ==> r.None?
  {
    var p := CoerceNumber(page);
    var l := NullableNumber(limit);
    if p.Some? && l.Some? then Some(UserBlogsQuery(p.value, l.value)) else None
  }

  datatype SearchQuery = SearchQuery(query: string, page: int, limit: NumOrNull)

  /** The search text may be any string, blank included. */
  function SearchQueries(query: Raw, page: Raw, limit: Raw): (r: Option<SearchQuery>)
    ensures r.Some? <==> query.Text? && CoerceNumber(page).Some? && NullableNumber(limit).Some?
    ensures r.Some? ==> r.value.query == Trim(query.s) && r.value.page == CoerceNumber(page).value
    ensures r.Some? ==> (r.value.limit.NullValue? <==> limit.Null?)
    ensures r.Some? && !limit.Null? ==> r.value.limit == Number(CoerceNumber(limit).value)
    ensures page.Missing? || limit.Missing? || query.Missing? ==> r.None?
  {
    var q := TrimmedString(query);
    var p := CoerceNumber(page);
    var l := NullableNumber(limit);
    if q.Some? && p.Some? && l.Some? then Some(SearchQuery(q.value, p.value, l.value)) else None
  }

  // ---- Blogs and comments -------------------------------------------------

  datatype BlogInsertion = BlogInsertion(title: string, userId: string, body: string, categoryId: NumOrNull)

  function BlogInsertionProps(title: Raw, userId: Raw, body: Raw, categoryId: Raw): (r: Option<BlogInsertion>)
    ensures r.Some? <==> MinTrimmed(title, 3) && MinTrimmed(userId, 36) && MinTrimmed(body, 3)
                         && NullableNumber(categoryId).Some?
    ensures r.Some? ==> r.value.title == Trim(title.s) && r.value.userId == Trim(userId.s)
                        && r.value.body == Trim(body.s)
    ensures r.Some? ==> Utf16Length(r.value.title) >= 3 && Utf16Length(r.value.userId) >= 36
                        && Utf16Length(r.value.body) >= 3
    ensures r.Some? ==> (r.value.categoryId.NullValue? <==> categoryId.Null?)
    ensures r.Some? && !categoryId.Null? ==> r.value.categoryId == Number(CoerceNumber(categoryId).value)
  {
    var t := TrimmedMin(title, 3);
    var u := TrimmedMin(userId, 36);
    var b := TrimmedMin(body, 3);
    var c := NullableNumber(categoryId);
    if t.Some? && u.Some? && b.Some? && c.Some? then Some(BlogInsertion(t.value, u.value, b.value, c.value)) else None
  }

  datatype BlogEdit = BlogEdit(title: string, body: string, categoryId: NumOrNull)

  /** categoryId may be null. */
  function EditBlogProps(title: Raw, body: Raw, categoryId: Raw): (r: Option<BlogEdit>)
    ensures r.Some? <==> MinTrimmed(title, 3) && MinTrimmed(body, 3) && NullableNumber(categoryId).Some?
    ensures r.Some? ==> r.value.title == Trim(title.s) && r.value.body == Trim(body.s)
    ensures categoryId.Null? && MinTrimmed(title, 3) && MinTrimmed(body, 3) ==> r.Some? && r.value.categoryId == NullValue
    ensures r.Some? && !categoryId.Null? ==> r.value.categoryId == Number(CoerceNumber(categoryId).value)
  {
    var t := TrimmedMin(title, 3);
    var b := TrimmedMin(body, 3);
    var c := NullableNumber(categoryId);
    if t.Some? && b.Some? && c.Some? then Some(BlogEdit(t.value, b.value, c.value)) else None
  }

  datatype CommentData = CommentData(comment: string, username: string)

  function CommentsProps(comment: Raw, username: Raw): (r: Option<CommentData>)
    ensures r.Some? <==> MinTrimmed(comment, 3) && MinTrimmed(username, 3)
    ensures r.Some? ==> r.value == CommentData(Trim(comment.s), Trim(username.s))
  {
    var c := TrimmedMin(comment, 3);
    var u := TrimmedMin(username, 3);
    if c.Some? && u.Some? then Some(CommentData(c.value, u.value)) else None
  }

  // ---- Authentication -----------------------------------------------------

  datatype Registration = Registration(username: string, email: string, password: string)

  function RegistrationProps(username: Raw, email: Raw, password: Raw, isEmail: string -> bool): (r: Option<Registration>)
    ensures r.Some? <==> MinTrimmed(username, 3) && email.Text? && isEmail(email.s) && MinTrimmed(password, 8)
    ensures r.Some? ==> r.value == Registration(Trim(username.s), email.s, Trim(password.s))
  {
    var u := TrimmedMin(username, 3);
    var e := EmailString(email, isEmail);
    var p := TrimmedMin(password, 8);
    if u.Some? && e.Some? && p.Some? then Some(Registration(u.value, e.value, p.value)) else None
  }

  datatype Credentials = Credentials(password: string, email: string)

  function LoginProps(password: Raw, email: Raw, isEmail: string -> bool): (r: Option<Credentials>)
    ensures r.Some? <==> MinTrimmed(password, 8) && email.Text? && isEmail(email.s)
    ensures r.Some? ==> r.value == Credentials(Trim(password.s), email.s)
  {
    var p := TrimmedMin(password, 8);
    var e := EmailString(email, isEmail);
    if p.Some? && e.Some? then Some(Credentials(p.value, e.value)) else None
  }

  // ---- Properties ---------------------------------------------------------

  /** Parsed registration data is trimmed: validating it again accepts it unchanged. */
  lemma RegistrationReparses(username: Raw, email: Raw, password: Raw, isEmail: string -> bool)
    requires RegistrationProps(username, email, password, isEmail).Some?
    ensures var d := RegistrationProps(username, email, password, isEmail).value;
      IsTrimmed(d.username) && IsTrimmed(d.password)
      && RegistrationProps(Text(d.username), Text(d.email), Text(d.password), isEmail) == Some(d)
  {
    TrimIdempotent(username.s);
    TrimIdempotent(password.s);
  }

  /** Every accepted registration also passes the login schema, with the same email and
      the same (trimmed) password, so the password that was hashed is the one compared. */
  lemma RegistrationPassesLogin(username: Raw, email: Raw, password: Raw, isEmail: string -> bool)
    requires RegistrationProps(username, email, password, isEmail).Some?
    ensures var d := RegistrationProps(username, email, password, isEmail).value;
      LoginProps(password, email, isEmail) == Some(Credentials(d.password, d.email))
      && LoginProps(Text(d.password), Text(d.email), isEmail) == Some(Credentials(d.password, d.email))
  {
    TrimIdempotent(password.s);
  }

  /** Parsed blog data is trimmed: the parsed title, userId and body are all trimmed. */
  lemma BlogInsertionReparses(title: Raw, userId: Raw, body: Raw, categoryId: Raw)
    requires BlogInsertionProps(title, userId, body, categoryId).Some?
    ensures var d := BlogInsertionProps(title, userId, body, categoryId).value;
      IsTrimmed(d.title) && IsTrimmed(d.userId) && IsTrimmed(d.body)
  {
    TrimIdempotent(title.s);
    TrimIdempotent(userId.s);
    TrimIdempotent(body.s);
  }

  /** Parsed comment data is trimmed: validating it again accepts it unchanged. */
  lemma CommentReparses(comment: Raw, username: Raw)
    requires CommentsProps(comment, username).Some?
    ensures var d := CommentsProps(comment, username).value;
      CommentsProps(Text(d.comment), Text(d.username)) == Some(d)
  {
    TrimIdempotent(comment.s);
    TrimIdempotent(username.s);
  }

  /** Validation is about the trimmed text: padding a field with white space changes neither
      the verdict nor the parsed value. */
  lemma CommentIgnoresPadding(comment: string, username: string, pre: string, post: string)
    requires forall k :: 0 <= k < |pre| ==> IsSpace(pre[k])
    requires forall k :: 0 <= k < |post| ==> IsSpace(post[k])
    ensures CommentsProps(Text(pre + comment + post), Text(username)) == CommentsProps(Text(comment), Text(username))
  {
    TrimPadded(comment, pre, post);
  }
}
