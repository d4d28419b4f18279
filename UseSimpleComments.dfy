/**
 * src/hooks/useSimpleComments.ts: a storage-only comment list per video. The
 * list lives under `comments_<videoId>`; loading sorts it newest first, adding
 * puts the new comment in front of the stored list and shows that list.
 */
module UseSimpleComments {
  import opened Wrappers
  import opened Text
  import opened Lists
  import opened Storage

  /** The hook's `Comment`; `created_at` as milliseconds since the epoch. */
  datatype SimpleComment = SimpleComment(
    id: string,
    videoId: string,
    userId: Option<string>,
    displayName: Option<string>,
    body: string,
    createdAt: int)

  function CreatedAt(c: SimpleComment): int {
    c.createdAt
  }

  /** `UseSimpleCommentsState`. */
  datatype SimpleState = SimpleState(comments: seq<SimpleComment>, loading: bool, error: Option<string>)

  type Store = map<string, Stored<SimpleComment>>

  const MsgStorageFailed: string := "Failed to load comments from storage"

  /**
   * The record `loadComments` settles on for a video: the stored list newest first;
   * nothing stored or unparsable text gives an empty list; a parsed value that is
   * not a list makes `sort` throw and gives the storage error.
   */
  function Loaded(storage: Store, videoId: string): (r: SimpleState)
    ensures !r.loading
    ensures r.error.Some? <==> CommentsKey(videoId) in storage && storage[CommentsKey(videoId)].NotAList?
    ensures r.error.Some? ==> r.error == Some(MsgStorageFailed) && r.comments == []
    ensures SortedDesc(r.comments, CreatedAt)
    ensures CommentsKey(videoId) in storage && storage[CommentsKey(videoId)].Items? ==>
      multiset(r.comments) == multiset(storage[CommentsKey(videoId)].items)
    ensures !(CommentsKey(videoId) in storage && storage[CommentsKey(videoId)].Items?) ==> r.comments == []
  {
    var key := CommentsKey(videoId);
    if key !in storage then SimpleState([], false, None)
    else match storage[key]
      case Items(xs) => SimpleState(SortDesc(xs, CreatedAt), false, None)
      case Unparsable => SimpleState([], false, None)
      case NotAList => SimpleState([], false, Some(MsgStorageFailed))
  }

  /** Loading twice in a row shows the same list: the stored list is not rewritten by a load. */
  lemma LoadedSortedStable(xs: seq<SimpleComment>)
    ensures SortDesc(SortDesc(xs, CreatedAt), CreatedAt) == SortDesc(xs, CreatedAt)
  {
    SortDescSorted(SortDesc(xs, CreatedAt), CreatedAt);
  }

  /** What `addComment` resolves to. */
  datatype AddReply =
    | NoVideoThrown            // `throw new Error("No video id")`
    | Failed                   // the `catch`: the stored value could not be spread into a list
    | Added(data: SimpleComment)

  /** The new comment: id from clock and random suffix, trimmed body, no user, display name or "Anonymous". */
  function NewComment(videoId: string, body: string, displayName: Option<string>, now: int, suffix: string)
    : (c: SimpleComment)
    ensures c.videoId == videoId && c.userId.None? && c.body == Trim(body) && c.createdAt == now
    ensures c.displayName == Some(displayName.GetOr("Anonymous"))
    ensures c.id == "comment_" + IntToString(now) + "_" + suffix
  {
    SimpleComment("comment_" + IntToString(now) + "_" + suffix, videoId, None,
                  Some(displayName.GetOr("Anonymous")), Trim(body), now)
  }

  /** The hook instance of one video id. */
  class SimpleCommentsHook {
    const videoId: Option<string>
    var storage: Store
    var state: SimpleState

    constructor (videoId: Option<string>, storage: Store)
      ensures this.videoId == videoId && this.storage == storage
      ensures state == SimpleState([], false, None)
    {
      this.videoId := videoId;
      this.storage := storage;
      state := SimpleState([], false, None);
    }

    /** `loadComments()`. */
    method LoadComments()
      modifies this
      ensures storage == old(storage)
      ensures !Truthy(videoId) ==> state == SimpleState([], false, None)
      ensures Truthy(videoId) ==> state == Loaded(storage, videoId.value)
    {
      if !Truthy(videoId) {
        state := SimpleState([], false, None);
        return;
      }
      state := state.(loading := true, error := None);
      state := Loaded(storage, videoId.value);
    }

    /**
     * `addComment(body, userDisplayName)`; `displayName` is None when the argument is
     * left out, and `now` and `suffix` stand for `Date.now()` and the random id part.
     */
    method AddComment(body: string, displayName: Option<string>, now: int, suffix: string)
      returns (reply: AddReply)
      modifies this
      ensures !Truthy(videoId) ==> reply == NoVideoThrown && storage == old(storage) && state == old(state)
      ensures Truthy(videoId) && CommentsKey(videoId.value) in old(storage)
              && old(storage)[CommentsKey(videoId.value)].NotAList? ==>
        reply == Failed && storage == old(storage) && state == old(state)
      ensures Truthy(videoId) && !(CommentsKey(videoId.value) in old(storage)
              && old(storage)[CommentsKey(videoId.value)].NotAList?) ==>
        var c := NewComment(videoId.value, body, displayName, now, suffix);
        var key := CommentsKey(videoId.value);
        var before := if key in old(storage) && old(storage)[key].Items? then old(storage)[key].items else [];
        && reply == Added(c)
        && storage == old(storage)[key := Items([c] + before)]
        && state == old(state).(comments := [c] + before, error := None)
    {
      if !Truthy(videoId) {
        return NoVideoThrown;
      }
      var c := NewComment(videoId.value, body, displayName, now, suffix);
      var key := CommentsKey(videoId.value);
      var before: seq<SimpleComment> := [];
      if key in storage {
        match storage[key]
        case Items(xs) => before := xs;
        case Unparsable => before := [];
        case NotAList => return Failed;
      }
      storage := storage[key := Items([c] + before)];
      state := state.(comments := [c] + before, error := None);
      reply := Added(c);
    }
  }

  /** After an add, a load shows the new comment among the stored ones, newest first. */
  lemma AddThenLoad(storage: Store, videoId: string, c: SimpleComment, before: seq<SimpleComment>)
    requires CommentsKey(videoId) in storage ==> storage[CommentsKey(videoId)] == Items(before)
    ensures var after := storage[CommentsKey(videoId) := Items([c] + before)];
      var shown := Loaded(after, videoId);
      && shown.error.None? && c in shown.comments && |shown.comments| == |before| + 1
      && SortedDesc(shown.comments, CreatedAt)
  {
    var after := storage[CommentsKey(videoId) := Items([c] + before)];
    var shown := Loaded(after, videoId);
    assert c in multiset([c] + before);
    assert c in multiset(shown.comments);
  }
}
