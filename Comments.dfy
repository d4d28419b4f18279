/**
 * src/integrations/supabase/comments.ts: the comment row, the bot/seed
 * constants, the local seed generator, the bot predicate, and the two
 * remote operations `fetchComments` and `addComment` with the module-level
 * `lastError` they maintain. The remote query, the session lookup and the
 * insert are parameters: the model receives what they answered.
 */
module Comments {
  import opened Wrappers
  import opened Text
  import opened Identity
  import opened SupabaseClient

  /** A `shadow_comments` row; `created_at` is an instant in milliseconds, absent flags read as false. */
  datatype ShadowComment = ShadowComment(
    id: string,
    videoId: string,
    userId: string,
    body: string,
    parentId: Option<string>,
    timestampSeconds: Option<int>,
    createdAt: int,
    isDeleted: bool,
    isBot: bool)

  const BotAuthorId: string := "00000000-0000-4000-8000-botshadow000"

  /** The seed bodies. */
  const BotTemplates: seq<string> := [
    "Seed comment \U{1F44B} (shadow layer active).",
    "YouTube hides stuff? Discuss it here instead.",
    "Preserving a thread even if YT moderates heavily.",
    "Add thoughts \U{2014} this is independent of YT filters.",
    "Shadow comments keep discussion visible.",
    "Seen removals on the original page? Mirror it here.",
    "Jump in \U{2014} these seed comments disappear once real posts arrive."
  ]

  lemma TemplatesDistinct()
    ensures |BotTemplates| == 7
    ensures forall i, j :: 0 <= i < j < |BotTemplates| ==> BotTemplates[i] != BotTemplates[j]
  {
    assert |BotTemplates[0]| == 37 && |BotTemplates[1]| == 45 && |BotTemplates[2]| == 49;
    assert |BotTemplates[3]| == 49 && |BotTemplates[4]| == 40 && |BotTemplates[5]| == 51;
    assert |BotTemplates[6]| == 63;
    assert BotTemplates[2][47] == 'y' && BotTemplates[3][47] == 's';
  }

  /** `isBotComment`: flagged as bot OR written under the bot id. */
  predicate IsBotComment(c: ShadowComment)
    ensures c.isBot ==> IsBotComment(c)
    ensures c.userId == BotAuthorId ==> IsBotComment(c)
    ensures !c.isBot && c.userId != BotAuthorId ==> !IsBotComment(c)
  {
    c.isBot || c.userId == BotAuthorId
  }

  /** `order` is an arrangement of 0..n-1: what the random shuffle of the template pool picked. */
  predicate IsPermutation(order: seq<nat>, n: nat) {
    && |order| == n
    && (forall i :: 0 <= i < n ==> order[i] < n)
    && (forall i, j :: 0 <= i < j < n ==> order[i] != order[j])
  }

  /** How many elements `slice(0, min)` keeps of a 7-element array (a negative end counts from the back). */
  function SeedCount(min: int): (n: nat)
    ensures n <= 7
    ensures min >= 0 ==> n == if min < 7 then min else 7
    ensures min < 0 ==> n == if -min < 7 then 7 + min else 0
  {
    if min >= 0 then (if min < 7 then min else 7)
    else if -min < 7 then 7 + min else 0
  }

  /**
   * `createLocalSeedComments(videoId, min)` with the clock reading `now`,
   * the shuffle's outcome `order` and the generated ids `ids` supplied.
   */
  function CreateLocalSeedComments(videoId: string, min: int, now: int, order: seq<nat>, ids: seq<string>)
    : (r: seq<ShadowComment>)
    requires IsPermutation(order, |BotTemplates|)
    requires |ids| >= SeedCount(min)
    ensures |r| == SeedCount(min)
    ensures forall i :: 0 <= i < |r| ==>
      && r[i].id == ids[i]
      && r[i].body == BotTemplates[order[i]]
      && r[i].videoId == videoId
      && r[i].userId == BotAuthorId
      && r[i].isBot && !r[i].isDeleted
      && r[i].parentId.None? && r[i].timestampSeconds.None?
      && r[i].createdAt == now - (min - i) * 1000
  {
    seq(SeedCount(min), i requires 0 <= i < SeedCount(min) =>
      ShadowComment(ids[i], videoId, BotAuthorId, BotTemplates[order[i]], None, None,
                    now - (min - i) * 1000, false, true))
  }

  /** Seed bodies are pairwise distinct templates; seed instants rise by one second and, for min >= 0, precede now. */
  lemma SeedShape(videoId: string, min: int, now: int, order: seq<nat>, ids: seq<string>)
    requires IsPermutation(order, |BotTemplates|)
    requires |ids| >= SeedCount(min)
    ensures var r := CreateLocalSeedComments(videoId, min, now, order, ids);
      && (forall i :: 0 <= i < |r| ==> r[i].body in BotTemplates)
      && (forall i, j :: 0 <= i < j < |r| ==> r[i].body != r[j].body)
      && (forall i :: 0 <= i < |r| - 1 ==> r[i + 1].createdAt == r[i].createdAt + 1000)
      && (forall i, j :: 0 <= i < j < |r| ==> r[i].createdAt < r[j].createdAt)
      && (min >= 0 ==> forall i :: 0 <= i < |r| ==> r[i].createdAt <= now - 1000)
  {
    TemplatesDistinct();
    var r := CreateLocalSeedComments(videoId, min, now, order, ids);
    forall i, j | 0 <= i < j < |r| ensures r[i].body != r[j].body {
      assert order[i] != order[j];
    }
  }

  /** A remote error: `code` is "" when the transport gave none. */
  datatype DbError = DbError(code: string, message: string)

  /** `` `${error.code || ""} ${error.message}`.trim() ``. */
  function FormatDbError(e: DbError): (r: string)
    ensures IsTrimmed(r)
  {
    Trim(e.code + " " + e.message)
  }

  /** Without a code the detail is the trimmed message. */
  lemma FormatDbErrorNoCode(e: DbError)
    requires e.code == ""
    ensures FormatDbError(e) == Trim(e.message)
  {
    assert e.code + " " + e.message == " " + e.message;
    TrimLeadingSpace(e.message);
  }

  lemma TrimLeadingSpace(m: string)
    ensures Trim(" " + m) == Trim(m)
  {
    var s := " " + m;
    assert s[1..] == m;
    assert Leading(s) == 1 + Leading(m);
    assert s[Leading(s)..] == m[Leading(m)..];
  }

  /** With a code and a message that are already trimmed and non-empty, the detail is exactly "code message". */
  lemma FormatDbErrorBoth(e: DbError)
    requires e.code != "" && e.message != ""
    requires IsTrimmed(e.code) && IsTrimmed(e.message)
    ensures FormatDbError(e) == e.code + " " + e.message
  {
    var s := e.code + " " + e.message;
    assert s[0] == e.code[0] && s[|s| - 1] == e.message[|e.message| - 1];
    TrimmedTrim(s);
  }

  /** What the `shadow_comments` query answered: `data` (possibly null) and `error`. */
  datatype QueryResult = QueryResult(rows: Option<seq<ShadowComment>>, error: Option<DbError>)

  /** `fetchComments`' return value. */
  datatype FetchResult = FetchResult(data: seq<ShadowComment>, error: Option<DbError>)

  /** The rows the server sends for `videoId`: that video's, not deleted, oldest first. */
  predicate ServedPage(videoId: string, rows: seq<ShadowComment>) {
    && (forall i :: 0 <= i < |rows| ==> rows[i].videoId == videoId && !rows[i].isDeleted)
    && (forall i, j :: 0 <= i < j < |rows| ==> rows[i].createdAt <= rows[j].createdAt)
  }

  /** `addComment`'s parameters after defaulting (`parentId`, `timestampSeconds` null, `isBot` false). */
  datatype AddParams = AddParams(
    videoId: string,
    body: string,
    parentId: Option<string>,
    timestampSeconds: Option<int>,
    isBot: bool)

  /** The object handed to `.insert(...)`. */
  datatype InsertRow = InsertRow(
    videoId: string,
    userId: string,
    body: string,
    parentId: Option<string>,
    timestampSeconds: Option<int>,
    isBot: bool)

  /** Why `addComment` failed. */
  datatype AddError = AuthError(message: string) | NotAuthenticated | InsertFailed(dbError: DbError) {
    /** The text `lastError` records. */
    function Detail(): (r: string)
      ensures AuthError? ==> r == message
      ensures NotAuthenticated? ==> r == "Not authenticated"
      ensures InsertFailed? ==> IsTrimmed(r) && (dbError.code == "" ==> r == Trim(dbError.message))
    {
      match this
      case AuthError(m) => m
      case NotAuthenticated => "Not authenticated"
      case InsertFailed(e) =>
        if e.code == "" then (FormatDbErrorNoCode(e); FormatDbError(e)) else FormatDbError(e)
    }
  }

  /** The guard of `addComment`: send a row, or stop with an error before any insert. */
  datatype AddDecision = Reject(error: AddError) | Send(row: InsertRow)

  function DecideInsert(p: AddParams, session: SessionResult): (d: AddDecision)
    ensures session.error.Some? ==> d == Reject(AuthError(session.error.value))
    ensures session.error.None? && !p.isBot && (session.user.None? || session.user.value.id == "") ==>
      d == Reject(NotAuthenticated)
    ensures d.Send? <==>
      session.error.None? && (p.isBot || (session.user.Some? && session.user.value.id != ""))
    ensures d.Send? ==>
      && d.row.userId == (if p.isBot then BotAuthorId else session.user.value.id)
      && d.row.videoId == p.videoId && d.row.body == p.body
      && d.row.parentId == p.parentId && d.row.timestampSeconds == p.timestampSeconds
      && d.row.isBot == p.isBot
  {
    if session.error.Some? then Reject(AuthError(session.error.value))
    else
      var userId := if p.isBot then BotAuthorId
                    else if session.user.Some? then session.user.value.id else "";
      if userId == "" then Reject(NotAuthenticated)
      else Send(InsertRow(p.videoId, userId, p.body, p.parentId, p.timestampSeconds, p.isBot))
  }

  /** Against a mock client nothing is ever inserted, not even a bot comment. */
  lemma MockClientNeverInserts(p: AddParams, k: ClientKind)
    requires k != Live
    ensures DecideInsert(p, MockSession(k).value).Reject?
    ensures DecideInsert(p, MockSession(k).value).error.AuthError?
  {
  }

  /** What the insert answered: the stored row (possibly null) and `error`. */
  datatype InsertResult = InsertResult(row: Option<ShadowComment>, error: Option<DbError>)

  /** `addComment`'s return value. */
  datatype AddResult = AddResult(data: Option<ShadowComment>, error: Option<AddError>)

  /** The module's mutable state: `lastError`. */
  class CommentsClient {
    var lastError: Option<string>

    constructor ()
      ensures lastError.None?
    {
      lastError := None;
    }

    /**
     * `fetchComments(videoId)` on the client `kind`, given the query's answer. The
     * mock clients have no `from`, so there the call throws right after clearing
     * `lastError`: None stands for that throw.
     */
    method FetchComments(videoId: string, kind: ClientKind, q: QueryResult) returns (r: Option<FetchResult>)
      modifies this
      ensures kind != Live ==> r.None? && lastError.None?
      ensures kind == Live ==> r == Some(FetchResult(q.rows.GetOr([]), q.error))
      ensures kind == Live ==> lastError == if q.error.Some? then Some(FormatDbError(q.error.value)) else None
    {
      lastError := None;
      if kind != Live {
        return None;
      }
      if q.error.Some? {
        lastError := Some(FormatDbError(q.error.value));
      }
      r := Some(FetchResult(q.rows.GetOr([]), q.error));
    }

    /**
     * `addComment(p)` given the session lookup and the insert's answer; `sent` is
     * the row passed to `.insert`, None when the guard stopped the call first.
     */
    method AddComment(p: AddParams, session: SessionResult, insert: InsertResult)
      returns (r: AddResult, sent: Option<InsertRow>)
      modifies this
      ensures DecideInsert(p, session).Reject? ==>
        && sent.None?
        && r == AddResult(None, Some(DecideInsert(p, session).error))
        && lastError == Some(DecideInsert(p, session).error.Detail())
      ensures DecideInsert(p, session).Send? ==>
        && sent == Some(DecideInsert(p, session).row)
        && r.data == insert.row
        && (insert.error.None? ==> r.error.None? && lastError.None?)
        && (insert.error.Some? ==>
              r.error == Some(InsertFailed(insert.error.value))
              && lastError == Some(FormatDbError(insert.error.value)))
    {
      lastError := None;
      var d := DecideInsert(p, session);
      if d.Reject? {
        lastError := Some(d.error.Detail());
        return AddResult(None, Some(d.error)), None;
      }
      sent := Some(d.row);
      if insert.error.Some? {
        lastError := Some(FormatDbError(insert.error.value));
        r := AddResult(insert.row, Some(InsertFailed(insert.error.value)));
      } else {
        r := AddResult(insert.row, None);
      }
    }
  }
}
