/** The blog handlers: listing and searching with pagination, reading one blog and its
    comments, and the mutation flows that insert a blog, edit one and add a comment. */
module Blogs {
  import opened Common
  import opened Numbers
  import opened Schemas
  import opened Uploads
  import opened Pagination

  /** A row of the blogs table.  `blogImagePath` is the column the handlers write;
      `imagepath` is the field editBlog reads from the fetched row before unlinking it,
      which no handler writes. */
  datatype Blog = Blog(id: string, title: string, userId: string, body: string,
                       blogImagePath: Option<string>, categoryId: Option<int>, imagepath: Option<string>)

  /** A row of the comments table. */
  datatype Comment = Comment(id: string, userId: string, blogId: string, comment: string, username: string)

  /** The WHERE clause of the blog listing. */
  datatype BlogFilter = AllBlogs | InCategory(categoryId: NumOrNull)

  /** The answer of insertABlog: status 201 with the inserted row. */
  datatype Created = Created(status: nat, blog: Blog)

  /** The answer of getSingleBlog.  Its not-found error is built without a status, so it
      is kept apart from the errors that carry one. */
  datatype BlogLookup = Found(blog: Blog) | Rejected(error: ApiError) | NotFound(message: string)

  const FileMissing := ApiError("Invalid data: File is missing", 400)
  const InvalidData := ApiError("Invalid data", 400)
  const InvalidQueries := ApiError("Invalid queries", 400)
  const InvalidQuery := ApiError("Invalid Query", 400)
  const InvalidParams := ApiError("Invalid params", 400)
  const BlogNotFound := ApiError("blog could not be found", 404)
  const NoComments := ApiError("no comments found", 404)
  const BlogsNotFound := "Couldn't find the intended blogs"
  const SearchNotFound := "Could not find the blog"
  const SingleBlogNotFound := "Could not find the intended blog"

  /** `isValidUUID(x)` on a request field: the format check is the oracle `isUuid` on
      strings; any other value fails it. */
  predicate UuidField(isUuid: string -> bool, r: Raw)
  {
    r.Text? && isUuid(r.s)
  }

  /** `Number(categoryId)` in the INSERT: null becomes 0. */
  function InsertedCategory(c: NumOrNull): (n: int)
    ensures EditedCategory(c).Some? ==> n == EditedCategory(c).value
    ensures EditedCategory(c).None? ==> n == 0
  {
    match c
    case NullValue => 0
    case Number(n) => n
  }

  /** The categoryId value the UPDATE binds: null stays SQL NULL. */
  function EditedCategory(c: NumOrNull): (v: Option<int>)
    ensures v.None? <==> c.NullValue?
    ensures v == LimitValue(c)
  {
    match c
    case NullValue => None
    case Number(n) => Some(n)
  }

  /** The limit as `z.coerce.number().nullable()` left it; null counts as absent. */
  function LimitValue(l: NumOrNull): Option<int>
  {
    if l.Number? then Some(l.n) else None
  }

  /** `parseInt(data.page) || 1` and `parseInt(data.limit) || 6` on the validated values:
      each number is written out and read back, and `parseInt(null)` is NaN.  Writing
      the validated numbers out and parsing them again loses nothing: the window is the
      one of the coerced page and limit. */
  function QueryWindow(page: int, limit: NumOrNull): (w: Window)
    ensures w == WindowOf(Some(page), LimitValue(limit))
  {
    ParseIntOfString(page);
    if limit.Number? then
      ParseIntOfString(limit.n);
      WindowOf(ParseInt(NumberToString(page)), ParseInt(NumberToString(limit.n)))
    else
      WindowOf(ParseInt(NumberToString(page)), None)
  }

  /** `categoryId ? ... WHERE categoryId = $1 ... : ...`: the test is on the raw query
      value, the bound value is the coerced one. */
  function ListingFilter(categoryId: Raw, q: BlogsQuery): (f: BlogFilter)
    ensures f.InCategory? <==> Truthy(categoryId)
    ensures f.InCategory? ==> f.categoryId == q.categoryId
  {
    if Truthy(categoryId) then InCategory(q.categoryId) else AllBlogs
  }

  /** `GET /blogs`.  `fetch(filter, window)` is the rows the SELECT returns for that
      window, `count(filter)` the COUNT(*) of the same filter. */
  function GetBlogs(categoryId: Raw, page: Raw, limit: Raw,
                    fetch: (BlogFilter, Window) -> seq<Blog>, count: BlogFilter -> nat): (r: Result<Page<Blog>>)
    ensures r == Err(InvalidQueries) <==> BlogsPaginationProps(categoryId, page, limit).None?
    ensures var v := BlogsPaginationProps(categoryId, page, limit);
      v.Some? ==>
        var f := ListingFilter(categoryId, v.value);
        var w := WindowOf(Some(v.value.page), LimitValue(v.value.limit));
        r == Paginate(w, fetch(f, w), count(f), BlogsNotFound)
  {
    var v := BlogsPaginationProps(categoryId, page, limit);
    if v.None? then Err(InvalidQueries)
    else
      var q := v.value;
      var w := QueryWindow(q.page, q.limit);
      var f := ListingFilter(categoryId, q);
      var rows := fetch(f, w);
      if rows == [] then Err(ApiError(BlogsNotFound, 404))
      else Paginate(w, rows, count(f), BlogsNotFound)
  }

  /** The ILIKE pattern: the raw query between two wildcards (the trimmed value of the
      schema is not the one used). */
  function SearchPattern(query: string): (p: string)
    ensures |p| == |query| + 2 && p[0] == '%' && p[|p| - 1] == '%' && p[1..|p| - 1] == query
  {
    "%" + query + "%"
  }

  /** `GET /search`.  `fetch(pattern, window)` and `count(pattern)` are the SELECT
      and the COUNT(*) over titles and usernames matching the pattern. */
  function GetSearchedBlogs(query: Raw, page: Raw, limit: Raw,
                            fetch: (string, Window) -> seq<Blog>, count: string -> nat): (r: Result<Page<Blog>>)
    ensures r == Err(InvalidQuery) <==> SearchQueries(query, page, limit).None?
    ensures var v := SearchQueries(query, page, limit);
      v.Some? ==>
        var p := SearchPattern(query.s);
        var w := WindowOf(Some(v.value.page), LimitValue(v.value.limit));
        r == Paginate(w, fetch(p, w), count(p), SearchNotFound)
  {
    var v := SearchQueries(query, page, limit);
    if v.None? then Err(InvalidQuery)
    else
      var q := v.value;
      var w := QueryWindow(q.page, q.limit);
      var p := SearchPattern(query.s);
      var rows := fetch(p, w);
      if rows == [] then Err(ApiError(SearchNotFound, 404))
      else Paginate(w, rows, count(p), SearchNotFound)
  }

  /** An empty page is answered before the count is consulted: the count cannot change it. */
  lemma EmptyListingIgnoresCount(categoryId: Raw, page: Raw, limit: Raw,
                                 fetch: (BlogFilter, Window) -> seq<Blog>, count1: BlogFilter -> nat, count2: BlogFilter -> nat)
    requires var v := BlogsPaginationProps(categoryId, page, limit);
      v.Some? && fetch(ListingFilter(categoryId, v.value), WindowOf(Some(v.value.page), LimitValue(v.value.limit))) == []
    ensures GetBlogs(categoryId, page, limit, fetch, count1) == GetBlogs(categoryId, page, limit, fetch, count2)
                                                            == Err(ApiError(BlogsNotFound, 404))
  {
  }

  /** Search text that differs only in the padding the schema trims yields the same
      validated query but a different pattern. */
  lemma SearchPatternKeepsPadding(s: string, page: Raw, limit: Raw)
    requires SearchQueries(Text(s), page, limit).Some?
    ensures SearchQueries(Text(" " + s), page, limit).Some?
    ensures SearchQueries(Text(" " + s), page, limit).value.query == SearchQueries(Text(s), page, limit).value.query
    ensures SearchPattern(" " + s) != SearchPattern(s)
  {
    Text.TrimPadded(s, " ", "");
    assert " " + s + "" == " " + s;
    assert |SearchPattern(" " + s)| != |SearchPattern(s)|;
  }

  /** The comments of one blog, in table order. */
  function CommentsOn(comments: seq<Comment>, blogId: string): (r: seq<Comment>)
    ensures |r| <= |comments|
    ensures forall c :: c in r <==> c in comments && c.blogId == blogId
  {
    if comments == [] then []
    else
      var rest := CommentsOn(comments[1..], blogId);
      if comments[0].blogId == blogId then [comments[0]] + rest else rest
  }

  /** The blogs, the comments and the upload directory, with the handlers that change them. */
  class BlogBoard {
    /** The blogs table, by id. */
    var blogs: map<string, Blog>
    /** The comments table, in insertion order. */
    var comments: seq<Comment>
    /** The files in the upload directory. */
    var files: set<string>

    /** The UUID format check. */
    const isUuid: string -> bool

    /** Rows are keyed by their id, and every row has an image, since a blog is only
        inserted with a file and an edit never clears the column. */
    ghost predicate Valid()
      reads this
    {
      forall id :: id in blogs ==> blogs[id].id == id && blogs[id].blogImagePath.Some?
    }

    constructor (isUuid: string -> bool)
      ensures Valid() && blogs == map[] && comments == [] && files == {} && this.isUuid == isUuid
    {
      this.isUuid := isUuid;
      blogs := map[];
      comments := [];
      files := {};
    }

    /** The upload layer writes an accepted file into the directory before the handler runs. */
    method Stage(path: string)
      requires Valid()
      modifies this`files
      ensures Valid()
      ensures files == old(files) + {path}
    {
      files := files + {path};
    }

    /** `POST /blogs`.  `file` is the path of the staged image and `newId` the generated
        identifier. */
    method InsertABlog(title: Raw, userId: Raw, categoryId: Raw, body: Raw, file: Option<string>, newId: string)
      returns (r: Result<Created>)
      requires Valid() && newId !in blogs
      modifies this`blogs, this`files
      ensures Valid()
      ensures var v := BlogInsertionProps(title, userId, body, categoryId);
        if file.None? then
          r == Err(FileMissing) && blogs == old(blogs) && files == old(files)
        else if v.None? then
          r == Err(InvalidData) && blogs == old(blogs) && files == old(files) - {file.value}
        else
          var d := v.value;
          var row := Blog(newId, d.title, d.userId, d.body, file, Some(InsertedCategory(d.categoryId)), None);
          blogs == old(blogs)[newId := row] && files == old(files) && r == Ok(Created(201, row))
    {
      if file.None? {
        return Err(FileMissing);
      }
      var validated := BlogInsertionProps(title, userId, body, categoryId);
      if validated.None? {
        files := files - {file.value};
        return Err(InvalidData);
      }
      var data := validated.value;
      var row := Blog(newId, data.title, data.userId, data.body, file, Some(InsertedCategory(data.categoryId)), None);
      blogs := blogs[newId := row];
      r := Ok(Created(201, row));
    }

    /** `PUT /blogs/:id`.  `file` is the path of the staged image, if one came. */
    method EditBlog(id: string, title: Raw, body: Raw, categoryId: Raw, file: Option<string>)
      returns (r: Result<Blog>)
      requires Valid()
      modifies this`blogs, this`files
      ensures Valid()
      ensures var v := EditBlogProps(title, body, categoryId);
        if id == [] || !isUuid(id) then
          r == Err(InvalidData) && blogs == old(blogs) && files == Discard(old(files), file)
        else if v.None? then
          r == Err(InvalidData) && blogs == old(blogs) && files == old(files)
        else if id !in old(blogs) then
          r == Err(BlogNotFound) && blogs == old(blogs) && files == old(files)
        else
          var before := old(blogs)[id];
          var row := before.(title := v.value.title, body := v.value.body,
                             categoryId := EditedCategory(v.value.categoryId),
                             blogImagePath := if file.Some? then file else before.blogImagePath);
          blogs == old(blogs)[id := row] && r == Ok(row)
          && files == (if Present(before.imagepath) then old(files) - {before.imagepath.value} else old(files))
    {
      if id == [] || !isUuid(id) {
        files := Discard(files, file);
        return Err(InvalidData);
      }
      var validated := EditBlogProps(title, body, categoryId);
      if validated.None? {
        return Err(InvalidData);
      }
      if id !in blogs {
        return Err(BlogNotFound);
      }
      var before := blogs[id];
      if Present(before.imagepath) {
        files := files - {before.imagepath.value};
      }
      var data := validated.value;
      var row := before.(title := data.title, body := data.body, categoryId := EditedCategory(data.categoryId));
      if file.Some? {
        row := row.(blogImagePath := file);
      }
      blogs := blogs[id := row];
      r := Ok(row);
    }

    /** `insertComment`, which no route reaches.  `newId` is the generated identifier. */
    method InsertComment(comment: Raw, userId: Raw, blogId: Raw, username: Raw, newId: string)
      returns (r: Result<Comment>)
      requires Valid()
      modifies this`comments
      ensures Valid()
      ensures var v := CommentsProps(comment, username);
        if !UuidField(isUuid, userId) || !UuidField(isUuid, blogId) || v.None? then
          r == Err(InvalidData) && comments == old(comments)
        else
          var row := Comment(newId, userId.s, blogId.s, v.value.comment, v.value.username);
          comments == old(comments) + [row] && r == Ok(row)
    {
      if !UuidField(isUuid, userId) || !UuidField(isUuid, blogId) {
        return Err(InvalidData);
      }
      var validated := CommentsProps(comment, username);
      if validated.None? {
        return Err(InvalidData);
      }
      var row := Comment(newId, userId.s, blogId.s, validated.value.comment, validated.value.username);
      comments := comments + [row];
      r := Ok(row);
    }

    /** `getComments`, which no route reaches: the comments whose blogId is the requested one. */
    function GetComments(blogId: Raw): (r: Result<seq<Comment>>)
      reads this
      ensures r == Err(InvalidData) <==> !UuidField(isUuid, blogId)
      ensures UuidField(isUuid, blogId) ==>
        (r == Err(NoComments) <==> forall c :: c in comments ==> c.blogId != blogId.s)
      ensures r.Err? ==> r.error == InvalidData || r.error == NoComments
      ensures r.Ok? ==> r.value != [] && forall c :: c in r.value <==> c in comments && c.blogId == blogId.s
    {
      if !UuidField(isUuid, blogId) then Err(InvalidData)
      else
        var rows := CommentsOn(comments, blogId.s);
        if rows == [] then Err(NoComments)
        else assert rows[0] in rows; Ok(rows)
    }

    /** `GET /blogs/:id`. */
    function GetSingleBlog(id: string): (r: BlogLookup)
      reads this
      ensures r == Rejected(InvalidParams) <==> id == [] || !isUuid(id)
      ensures r.Found? <==> id != [] && isUuid(id) && id in blogs
      ensures r.Found? ==> r.blog == blogs[id]
      ensures r.Rejected? ==> r == Rejected(InvalidParams)
      ensures r.NotFound? ==> r.message == SingleBlogNotFound
    {
      if id == [] || !isUuid(id) then Rejected(InvalidParams)
      else if id !in blogs then NotFound(SingleBlogNotFound)
      else Found(blogs[id])
    }
  }
}
