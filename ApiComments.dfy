/**
 * src/api/comments.ts: the serverless comments endpoint. GET lists a video's
 * comments (limit clamped to 100), POST inserts one for the session user, any
 * other method is refused with 405. The database and session lookups are
 * awaited calls: their answers are inputs, and the outcome records which calls
 * the handler issued along with the response it sent.
 */
module ApiComments {
  import opened Wrappers
  import opened Text
  import opened Identity
  import opened SupabaseClient

  /** The parts of the request the handler reads; absent fields are None. */
  datatype Request = Request(
    httpMethod: string,
    queryVideoId: Option<string>,
    queryLimit: Option<int>,      // `Number(req.query.limit)` of a non-empty query value
    bodyVideoId: Option<string>,
    bodyText: Option<string>)

  /** An awaited call: its value, or the exception it threw with the exception's `message`. */
  datatype Settled<T> = Resolved(value: T) | Rejected(message: Option<string>)

  /** A database answer `{ data, error }`; `error` is the error object's `message`. */
  datatype DbReply<T> = DbReply(data: Option<T>, error: Option<string>)

  /** The selected columns of a comment row. */
  datatype CommentRow = CommentRow(
    id: string, videoId: string, userId: string, displayName: string, body: string, createdAt: string)

  /** The select the GET branch issues. */
  datatype ListQuery = ListQuery(videoId: string, limit: int)

  /** The row the POST branch inserts. */
  datatype NewRow = NewRow(videoId: string, body: string, userId: string, displayName: string)

  /** The JSON body of the response. */
  datatype Payload = ErrorPayload(error: string) | ListPayload(data: seq<CommentRow>) | RowPayload(row: Option<CommentRow>)

  /** Status, the `Allow` header when set, and the JSON body. */
  datatype Response = Response(status: int, allow: Option<string>, payload: Payload)

  /** The response and the database calls made on the way to it. */
  datatype Outcome = Outcome(response: Response, query: Option<ListQuery>, insert: Option<NewRow>)

  const MsgMissingVideoId: string := "Missing videoId"
  const MsgBodyRequired: string := "videoId and body required"
  const MsgAuthError: string := "Authentication error"
  const MsgAuthRequired: string := "Auth required"
  const MsgNotAllowed: string := "Method Not Allowed"
  const MsgUnexpected: string := "Unexpected error"

  /** `Math.min(100, Number(req.query.limit || 50))`. */
  function Limit(q: Option<int>): (l: int)
    ensures l <= 100
    ensures q.None? ==> l == 50
    ensures q.Some? && q.value <= 100 ==> l == q.value
    ensures q.Some? && q.value > 100 ==> l == 100
  {
    match q
    case None => 50
    case Some(n) => if n < 100 then n else 100
  }

  /** The outer `catch`: status 500 with the exception's message, or a stock one. */
  function Unexpected(message: Option<string>): (r: Response)
    ensures r.status == 500 && r.allow.None?
    ensures r.payload == ErrorPayload(Or(message, MsgUnexpected))
  {
    Response(500, None, ErrorPayload(Or(message, MsgUnexpected)))
  }

  /** The GET branch, from the select's answer on. */
  function AnswerList(fetch: Settled<DbReply<seq<CommentRow>>>): (r: Response)
    ensures r.allow.None?
    ensures r.status == 200 <==> fetch.Resolved? && fetch.value.error.None?
    ensures r.status == 200 ==> r.payload == ListPayload(fetch.value.data.GetOr([]))
    ensures r.status != 200 ==> r.status == 500
    ensures fetch.Resolved? && fetch.value.error.Some? ==> r.payload == ErrorPayload(fetch.value.error.value)
  {
    match fetch
    case Rejected(m) => Unexpected(m)
    case Resolved(DbReply(data, error)) =>
      if error.Some? then Response(500, None, ErrorPayload(error.value))
      else Response(200, None, ListPayload(data.GetOr([])))
  }

  /** The POST branch, from the insert's answer on. */
  function AnswerInsert(insert: Settled<DbReply<CommentRow>>): (r: Response)
    ensures r.allow.None?
    ensures r.status == 201 <==> insert.Resolved? && insert.value.error.None?
    ensures r.status == 201 ==> r.payload == RowPayload(insert.value.data)
    ensures r.status != 201 ==> r.status == 500
    ensures insert.Resolved? && insert.value.error.Some? ==> r.payload == ErrorPayload(insert.value.error.value)
  {
    match insert
    case Rejected(m) => Unexpected(m)
    case Resolved(DbReply(data, error)) =>
      if error.Some? then Response(500, None, ErrorPayload(error.value))
      else Response(201, None, RowPayload(data))
  }

  /** The row a POST inserts: the video id as sent, the body trimmed, the user's id and display name. */
  function NewRowFor(videoId: string, body: string, u: User): (row: NewRow)
    ensures row.videoId == videoId && row.userId == u.id
    ensures row.body == Trim(body) && IsTrimmed(row.body)
    ensures row.displayName == DisplayName(u) && row.displayName != ""
  {
    NewRow(videoId, Trim(body), u.id, DisplayName(u))
  }

  /** `handler(req, res)`; the three arguments after the request answer the select, `getSession` and the insert. */
  function Handle(
    req: Request,
    fetch: Settled<DbReply<seq<CommentRow>>>,
    session: Settled<SessionResult>,
    insert: Settled<DbReply<CommentRow>>): (o: Outcome)
    // a select is issued exactly for a GET naming a video, and asks for at most 100 rows
    ensures o.query.Some? <==> req.httpMethod == "GET" && Truthy(req.queryVideoId)
    ensures o.query.Some? ==> o.query.value == ListQuery(req.queryVideoId.value, Limit(req.queryLimit))
                              && o.query.value.limit <= 100
    // an insert is issued exactly for a POST with both fields whose session has a user and no error
    ensures o.insert.Some? <==>
      req.httpMethod == "POST" && Truthy(req.bodyVideoId) && Truthy(req.bodyText)
      && session.Resolved? && session.value.error.None? && session.value.user.Some?
    ensures o.insert.Some? ==>
      o.insert.value == NewRowFor(req.bodyVideoId.value, req.bodyText.value, session.value.user.value)
    ensures o.query.None? || o.insert.None?
    // only the 405 carries `Allow`
    ensures o.response.allow.Some? <==> o.response.status == 405
    ensures o.response.status == 405 <==> req.httpMethod != "GET" && req.httpMethod != "POST"
    ensures o.response.status == 405 ==>
      o.response.allow == Some("GET, POST") && o.response.payload == ErrorPayload(MsgNotAllowed)
    // rejections before any call
    ensures o.response.status == 400 <==>
      (req.httpMethod == "GET" && !Truthy(req.queryVideoId))
      || (req.httpMethod == "POST" && (!Truthy(req.bodyVideoId) || !Truthy(req.bodyText)))
    ensures o.response.status in {400, 401, 405} ==> o.query.None? && o.insert.None?
    ensures o.response.status == 401 ==> req.httpMethod == "POST" && session.Resolved?
    // successes
    ensures o.response.status == 200 <==> o.query.Some? && fetch.Resolved? && fetch.value.error.None?
    ensures o.response.status == 201 <==> o.insert.Some? && insert.Resolved? && insert.value.error.None?
    ensures o.query.Some? ==> o.response == AnswerList(fetch)
    ensures o.insert.Some? ==> o.response == AnswerInsert(insert)
    ensures o.response.status in {200, 201, 400, 401, 405, 500}
  {
    if req.httpMethod == "GET" then
      var videoId := Or(req.queryVideoId, "");
      if videoId == "" then
        Outcome(Response(400, None, ErrorPayload(MsgMissingVideoId)), None, None)
      else
        Outcome(AnswerList(fetch), Some(ListQuery(videoId, Limit(req.queryLimit))), None)
    else if req.httpMethod == "POST" then
      if !Truthy(req.bodyVideoId) || !Truthy(req.bodyText) then
        Outcome(Response(400, None, ErrorPayload(MsgBodyRequired)), None, None)
      else
        match session
        case Rejected(m) => Outcome(Unexpected(m), None, None)
        case Resolved(SessionResult(user, error)) =>
          if error.Some? then Outcome(Response(401, None, ErrorPayload(MsgAuthError)), None, None)
          else if user.None? then Outcome(Response(401, None, ErrorPayload(MsgAuthRequired)), None, None)
          else
            var row := NewRowFor(req.bodyVideoId.value, req.bodyText.value, user.value);
            Outcome(AnswerInsert(insert), None, Some(row))
    else
      Outcome(Response(405, Some("GET, POST"), ErrorPayload(MsgNotAllowed)), None, None)
  }

  /** A GET without a video id answers 400 "Missing videoId" and queries nothing. */
  lemma GetWithoutVideoId(req: Request, fetch: Settled<DbReply<seq<CommentRow>>>,
                          session: Settled<SessionResult>, insert: Settled<DbReply<CommentRow>>)
    requires req.httpMethod == "GET" && !Truthy(req.queryVideoId)
    ensures Handle(req, fetch, session, insert) == Outcome(Response(400, None, ErrorPayload(MsgMissingVideoId)), None, None)
  {
  }

  /**
   * The body check is on the raw text: a body of blanks passes it and is
   * inserted as the empty string.
   */
  lemma BlankBodyInsertedEmpty(req: Request, fetch: Settled<DbReply<seq<CommentRow>>>,
                               u: User, insert: Settled<DbReply<CommentRow>>)
    requires req.httpMethod == "POST" && Truthy(req.bodyVideoId)
    requires req.bodyText.Some? && req.bodyText.value != "" && AllSpace(req.bodyText.value)
    ensures var o := Handle(req, fetch, Resolved(SessionResult(Some(u), None)), insert);
      o.insert.Some? && o.insert.value.body == ""
  {
  }

  /** A session error or a missing user answers 401 with the matching message, and nothing is inserted. */
  lemma PostWithoutUser(req: Request, fetch: Settled<DbReply<seq<CommentRow>>>,
                        s: SessionResult, insert: Settled<DbReply<CommentRow>>)
    requires req.httpMethod == "POST" && Truthy(req.bodyVideoId) && Truthy(req.bodyText)
    requires s.error.Some? || s.user.None?
    ensures var o := Handle(req, fetch, Resolved(s), insert);
      && o.insert.None? && o.response.status == 401
      && o.response.payload == ErrorPayload(if s.error.Some? then MsgAuthError else MsgAuthRequired)
  {
  }

  /** Against the mock client every well-formed POST answers 401 "Authentication error". */
  lemma MockClientRefusesPosts(req: Request, fetch: Settled<DbReply<seq<CommentRow>>>,
                               k: ClientKind, insert: Settled<DbReply<CommentRow>>)
    requires k != Live
    requires req.httpMethod == "POST" && Truthy(req.bodyVideoId) && Truthy(req.bodyText)
    ensures var o := Handle(req, fetch, Resolved(MockSession(k).value), insert);
      o.insert.None? && o.response == Response(401, None, ErrorPayload(MsgAuthError))
  {
  }
}
