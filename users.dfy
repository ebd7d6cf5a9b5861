/** The user handlers: one user's public profile and the paginated list of a user's blogs. */
module Users {
  import opened Common
  import opened Numbers
  import opened Schemas
  import opened Pagination
  import opened Auth
  import opened Blogs

  const InvalidUserParams := ApiError("Invalid Params", 400)
  const UserNotFound := ApiError("User not found", 400)
  const MoreBlogsNotFound := "Could not find more blogs"

  /** `GET /users/:id`: `SELECT * FROM users WHERE id = $1`, then the password and the
      refresh token are deleted from the first row.  The query has no ORDER BY, so when
      several rows share the id the method may answer with any of them. */
  method GetSingleUser(users: map<string, User>, isUuid: string -> bool, id: string) returns (r: Result<UserView>)
    ensures r == Err(InvalidUserParams) <==> id == [] || !isUuid(id)
    ensures r == Err(UserNotFound) <==> id != [] && isUuid(id) && forall e :: e in users ==> users[e].id != id
    ensures r.Err? ==> r.error == InvalidUserParams || r.error == UserNotFound
    ensures r.Ok? ==> exists e :: e in users && users[e].id == id && r.value == Public(users[e])
  {
    if id == [] || !isUuid(id) {
      return Err(InvalidUserParams);
    }
    var rows := set e | e in users && users[e].id == id;
    if rows == {} {
      assert forall e :: e in users ==> users[e].id != id by {
        forall e | e in users ensures users[e].id != id {
          assert users[e].id == id ==> e in rows;
        }
      }
      return Err(UserNotFound);
    }
    var e :| e in rows;
    r := Ok(Public(users[e]));
  }

  /** `parseInt(page) || 1`, `parseInt(limit) || 6` on the raw query values.  Reading the
      raw values instead of the validated ones makes no difference once the queries
      validate: the window is the one the blog listing computes from the coerced numbers. */
  function UserWindow(page: Raw, limit: Raw): (w: Window)
    ensures var v := UserBlogsQueries(page, limit);
      v.Some? ==> w == WindowOf(Some(v.value.page), LimitValue(v.value.limit))
                  && w == QueryWindow(v.value.page, v.value.limit)
  {
    var v := UserBlogsQueries(page, limit);
    var w := WindowOf(ParseIntRaw(page), ParseIntRaw(limit));
    if v.None? then w
    else
      DefaultAfterCoercion(page, DefaultPage);
      ParseIntOfString(v.value.page);
      if limit.Null? then w
      else
        DefaultAfterCoercion(limit, DefaultLimit);
        ParseIntOfString(v.value.limit.n);
        w
  }

  /** `GET /users/blogs/:id`.  `fetch(userId, window)` is the rows the SELECT returns and
      `count(userId)` the COUNT(*) of that user's blogs. */
  function GetAllBlogsOfUser(id: string, page: Raw, limit: Raw, isUuid: string -> bool,
                             fetch: (string, Window) -> seq<Blog>, count: string -> nat): (r: Result<Page<Blog>>)
    ensures r == Err(InvalidUserParams) <==> id == [] || !isUuid(id)
    ensures id != [] && isUuid(id) ==> (r == Err(InvalidData) <==> UserBlogsQueries(page, limit).None?)
    ensures var v := UserBlogsQueries(page, limit);
      id != [] && isUuid(id) && v.Some? ==>
        var w := WindowOf(Some(v.value.page), LimitValue(v.value.limit));
        r == Paginate(w, fetch(id, w), count(id), MoreBlogsNotFound)
  {
    if id == [] || !isUuid(id) then Err(InvalidUserParams)
    else if UserBlogsQueries(page, limit).None? then Err(InvalidData)
    else
      var w := UserWindow(page, limit);
      var rows := fetch(id, w);
      if rows == [] then Err(ApiError(MoreBlogsNotFound, 404))
      else Paginate(w, rows, count(id), MoreBlogsNotFound)
  }
}
