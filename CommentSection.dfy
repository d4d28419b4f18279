/**
 * src/components/CommentSection.tsx: the older local-first comment list. The
 * component keeps the list under `comments_<videoId>` in browser storage, shows
 * that list at once, merges in whatever the database answers (local copy first,
 * first occurrence of an id wins, newest first) and prepends new comments to both
 * storage and the visible list.
 */
module CommentSection {
  import opened Wrappers
  import opened Text
  import opened Lists
  import opened Identity
  import opened Storage

  /** The component's `Comment`; `created_at` as milliseconds since the epoch. */
  datatype LocalComment = LocalComment(
    id: string,
    content: string,
    createdAt: int,
    userId: string,
    displayName: Option<string>,
    avatarUrl: Option<string>)

  function IdOf(c: LocalComment): string {
    c.id
  }

  function CreatedAt(c: LocalComment): int {
    c.createdAt
  }

  type Store = map<string, Stored<LocalComment>>

  /** `loadCommentsFromStorage(videoId)`: the stored list, or `[]` when there is none or it does not parse. */
  function LoadFromStorage(storage: Store, videoId: string): (r: seq<LocalComment>)
    ensures CommentsKey(videoId) in storage && storage[CommentsKey(videoId)].Items? ==>
      r == storage[CommentsKey(videoId)].items
    ensures !(CommentsKey(videoId) in storage && storage[CommentsKey(videoId)].Items?) ==> r == []
  {
    var key := CommentsKey(videoId);
    if key in storage && storage[key].Items? then storage[key].items else []
  }

  /** `a` and `b` agree on every key but `key`. */
  ghost predicate SameElsewhere(a: Store, b: Store, key: string) {
    forall k :: k != key ==> (k in a <==> k in b) && (k in a ==> a[k] == b[k])
  }

  /** The key holds JSON that parses to something other than a list, which the component's spreads cannot take. */
  predicate HoldsNonList(storage: Store, videoId: string) {
    CommentsKey(videoId) in storage && storage[CommentsKey(videoId)].NotAList?
  }

  /**
   * `saveCommentToStorage(videoId, c)`: `c` in front of what the key held; no other
   * key changes. Over a stored non-list the spread throws inside the `try`, and the
   * key keeps what it held.
   */
  function SaveToStorage(storage: Store, videoId: string, c: LocalComment): (r: Store)
    ensures HoldsNonList(storage, videoId) ==> r == storage
    ensures !HoldsNonList(storage, videoId) ==> r.Keys == storage.Keys + {CommentsKey(videoId)}
    ensures !HoldsNonList(storage, videoId) ==> LoadFromStorage(r, videoId) == [c] + LoadFromStorage(storage, videoId)
    ensures !HoldsNonList(r, videoId) <==> !HoldsNonList(storage, videoId)
  {
    if HoldsNonList(storage, videoId) then storage
    else storage[CommentsKey(videoId) := Items([c] + LoadFromStorage(storage, videoId))]
  }

  /** Saving touches the video's own key and no other. */
  lemma SaveToStorageElsewhere(storage: Store, videoId: string, c: LocalComment)
    ensures SameElsewhere(storage, SaveToStorage(storage, videoId, c), CommentsKey(videoId))
  {
  }

  // ---------------------------------------------------------------------------
  // Merging the database answer
  // ---------------------------------------------------------------------------

  /** A row of the `comments` query. */
  datatype DbRow = DbRow(id: string, content: string, createdAt: int, userId: string)

  /** A `profiles` row; a missing row and a failed lookup both arrive as `None`. */
  datatype Profile = Profile(displayName: Option<string>, avatarUrl: Option<string>)

  /** A database row with its profile: display name defaulting to "Anonymous User", avatar to null. */
  function Enrich(row: DbRow, p: Option<Profile>): (c: LocalComment)
    ensures c.id == row.id && c.content == row.content && c.createdAt == row.createdAt && c.userId == row.userId
    ensures p.Some? && Truthy(p.value.displayName) ==> c.displayName == p.value.displayName
    ensures !(p.Some? && Truthy(p.value.displayName)) ==> c.displayName == Some("Anonymous User")
    ensures p.Some? ==> c.avatarUrl == OrNull(p.value.avatarUrl)
    ensures p.None? ==> c.avatarUrl.None?
  {
    var name := if p.Some? then p.value.displayName else None;
    var avatar := if p.Some? then OrNull(p.value.avatarUrl) else None;
    LocalComment(row.id, row.content, row.createdAt, row.userId, Some(Or(name, "Anonymous User")), avatar)
  }

  /** `Promise.all(commentsData.map(...))`: every row enriched with the profile answered for it. */
  function EnrichAll(rows: seq<DbRow>, profiles: seq<Option<Profile>>): (r: seq<LocalComment>)
    requires |profiles| == |rows|
    ensures |r| == |rows|
    ensures forall i :: 0 <= i < |rows| ==> r[i] == Enrich(rows[i], profiles[i])
  {
    seq(|rows|, i requires 0 <= i < |rows| => Enrich(rows[i], profiles[i]))
  }

  /** Local comments, then database comments, the later duplicates of an id dropped, newest first. */
  function Merge(local: seq<LocalComment>, db: seq<LocalComment>): (r: seq<LocalComment>)
    ensures SortedDesc(r, CreatedAt)
    ensures UniqueKeys(r, IdOf)
    ensures Keys(r, IdOf) == Keys(local, IdOf) + Keys(db, IdOf)
    ensures forall y :: y in r ==> FirstWithKey(local + db, IdOf, y.id) == Some(y)
  {
    var unique := Dedupe(local + db, IdOf);
    SortDescUniqueKeys(unique, CreatedAt, IdOf);
    SortDescMembers(unique, CreatedAt);
    KeysAppend(local, db, IdOf);
    SortDesc(unique, CreatedAt)
  }

  /** On an id clash the local copy is the one shown: the first local carrier of each id survives the merge. */
  lemma MergeLocalWins(local: seq<LocalComment>, db: seq<LocalComment>, x: LocalComment)
    requires x in local && FirstWithKey(local, IdOf, x.id) == Some(x)
    ensures x in Merge(local, db)
    ensures forall y :: y in Merge(local, db) && y.id == x.id ==> y == x
  {
    assert x.id in Keys(local, IdOf);
    FirstWithKeyAppend(local, db, IdOf, x.id);
    var r := Merge(local, db);
    assert x.id in Keys(r, IdOf);
    var y :| y in r && y.id == x.id;
    assert FirstWithKey(local + db, IdOf, y.id) == Some(y);
  }

  /** The database answer as the component reads it: thrown, or an error flag and the rows. */
  datatype DbAnswer = DbThrew | DbAnswered(failed: bool, rows: Option<seq<DbRow>>)

  /** `!isUsingStub && !commentsError && commentsData && commentsData.length > 0`. */
  predicate UsesDatabase(stub: bool, answer: DbAnswer)
    ensures stub || answer.DbThrew? ==> !UsesDatabase(stub, answer)
    ensures answer.DbAnswered? && (answer.failed || answer.rows.None? || answer.rows.value == []) ==>
      !UsesDatabase(stub, answer)
    ensures UsesDatabase(stub, answer) ==> |answer.rows.value| > 0
  {
    !stub && answer.DbAnswered? && !answer.failed && answer.rows.Some? && |answer.rows.value| > 0
  }

  // ---------------------------------------------------------------------------
  // Rendering an age
  // ---------------------------------------------------------------------------

  const HourMs: int := 1000 * 60 * 60
  const DayMs: int := 24 * HourMs

  /** `formatTimestamp(timestamp)` at time `now`: under an hour, whole hours under a day, else whole days. */
  function FormatTimestamp(timestamp: int, now: int): (r: string)
    ensures r == "Just now" <==> now - timestamp < HourMs
    ensures HourMs <= now - timestamp < DayMs ==> r == NatToString((now - timestamp) / HourMs) + " hours ago"
    ensures DayMs <= now - timestamp ==> r == NatToString((now - timestamp) / DayMs) + " days ago"
  {
    var diff := now - timestamp;
    if diff < HourMs then "Just now"
    else if diff < DayMs then NatToString(diff / HourMs) + " hours ago"
    else NatToString(diff / DayMs) + " days ago"
  }

  /** An age of `h` whole hours, 1 to 23, is reported as `h hours ago`. */
  lemma FormatTimestampHours(timestamp: int, now: int, h: nat)
    requires 1 <= h <= 23
    requires h * HourMs <= now - timestamp < (h + 1) * HourMs
    ensures FormatTimestamp(timestamp, now) == NatToString(h) + " hours ago"
  {
    var diff := now - timestamp;
    assert HourMs <= diff < DayMs;
    DivBetween(diff, HourMs, h);
  }

  /** An age of `d` whole days, at least one, is reported as `d days ago`. */
  lemma FormatTimestampDays(timestamp: int, now: int, d: nat)
    requires d >= 1
    requires d * DayMs <= now - timestamp < (d + 1) * DayMs
    ensures FormatTimestamp(timestamp, now) == NatToString(d) + " days ago"
  {
    var diff := now - timestamp;
    assert DayMs <= diff;
    DivBetween(diff, DayMs, d);
  }

  /** Floor division by a positive `m` recovers `q` from any value between `q * m` and the next multiple. */
  lemma DivBetween(x: int, m: int, q: int)
    requires m > 0 && q * m <= x < (q + 1) * m
    ensures x / m == q
  {
    var k, r := x / m, x % m;
    assert x == k * m + r && 0 <= r < m;
    if k > q {
      MulMonotone(m, q + 1, k);
    } else if k < q {
      MulMonotone(m, k + 1, q);
    }
  }

  lemma MulMonotone(m: int, a: int, b: int)
    requires m > 0 && a <= b
    ensures a * m <= b * m
  {
    var d := b - a;
    assert b * m == a * m + d * m;
  }

  // ---------------------------------------------------------------------------
  // Posting
  // ---------------------------------------------------------------------------

  /** The answer of the `comments` insert: thrown, an error, or the row's id and creation time (possibly null). */
  datatype InsertAnswer = InsertThrew | InsertError | InsertOk(data: Option<(string, int)>)

  /** The id and creation time of a new comment: the database's when the insert returned a row, else `now`. */
  function PostedIdentity(stub: bool, insert: InsertAnswer, now: int): (r: (string, int))
    ensures !stub && insert.InsertOk? && insert.data.Some? ==> r == insert.data.value
    ensures !(!stub && insert.InsertOk? && insert.data.Some?) ==> r == (IntToString(now), now)
  {
    if !stub && insert.InsertOk? && insert.data.Some? then insert.data.value else (IntToString(now), now)
  }

  /** `newCommentObj`: trimmed draft, author `u`, display name as `DisplayName`, avatar or null. */
  function NewComment(u: User, draft: string, stub: bool, insert: InsertAnswer, now: int): (c: LocalComment)
    ensures (c.id, c.createdAt) == PostedIdentity(stub, insert, now)
    ensures c.content == Trim(draft) && c.userId == u.id
    ensures c.displayName == Some(DisplayName(u)) && c.avatarUrl == OrNull(u.metaAvatarUrl)
  {
    var posted := PostedIdentity(stub, insert, now);
    LocalComment(posted.0, Trim(draft), posted.1, u.id, Some(DisplayName(u)), OrNull(u.metaAvatarUrl))
  }

  /** The three sample comments of `createTestComments`, the second 30 minutes and the third an hour old. */
  function TestComments(now: int): (r: seq<LocalComment>)
    ensures |r| == 3 && r[0].id == "1" && r[1].id == "2" && r[2].id == "3"
    ensures r[0].createdAt == now && r[1].createdAt == now - 30 * 60 * 1000 && r[2].createdAt == now - HourMs
  {
    [ LocalComment("1", TestBody1, now, "test-user", Some("Test User"), None),
      LocalComment("2", TestBody2, now - 1000 * 60 * 30, "test-user-2", Some("Another User"), None),
      LocalComment("3", TestBody3, now - 1000 * 60 * 60, "test-user-3", Some("Comment Tester"), None) ]
  }

  const TestBody1: string := "This is a test comment to verify the system is working!"
  const TestBody2: string := "Another test comment to show multiple comments work."
  const TestBody3: string := "This is a longer comment to test how the system handles longer text content. "
    + "It should wrap properly and display nicely in the UI."

  function Reversed<T>(xs: seq<T>): (r: seq<T>)
    ensures |r| == |xs|
    ensures forall i :: 0 <= i < |xs| ==> r[i] == xs[|xs| - 1 - i]
  {
    if xs == [] then [] else Reversed(xs[1..]) + [xs[0]]
  }

  /** `cs.forEach(c => saveCommentToStorage(videoId, c))`. */
  function SaveEach(storage: Store, videoId: string, cs: seq<LocalComment>): (r: Store)
    ensures SameElsewhere(storage, r, CommentsKey(videoId))
    ensures HoldsNonList(r, videoId) <==> HoldsNonList(storage, videoId)
    ensures !HoldsNonList(storage, videoId) ==>
      |LoadFromStorage(r, videoId)| == |cs| + |LoadFromStorage(storage, videoId)|
    decreases |cs|
  {
    if cs == [] then storage else SaveToStorage(SaveEach(storage, videoId, cs[..|cs| - 1]), videoId, cs[|cs| - 1])
  }

  /**
   * Saving a non-empty batch one by one leaves it reversed in front of what the key
   * held; other keys stay. A key holding a non-list keeps it through every save.
   */
  lemma {:induction false} SaveEachPrepends(storage: Store, videoId: string, cs: seq<LocalComment>)
    requires cs != []
    ensures HoldsNonList(storage, videoId) ==> SaveEach(storage, videoId, cs) == storage
    ensures !HoldsNonList(storage, videoId) ==>
      SaveEach(storage, videoId, cs)
        == storage[CommentsKey(videoId) := Items(Reversed(cs) + LoadFromStorage(storage, videoId))]
    decreases |cs|
  {
    var key := CommentsKey(videoId);
    var init, last := cs[..|cs| - 1], cs[|cs| - 1];
    var before := LoadFromStorage(storage, videoId);
    if HoldsNonList(storage, videoId) {
      if init != [] {
        SaveEachPrepends(storage, videoId, init);
      }
      return;
    }
    assert Reversed(cs) == [last] + Reversed(init) by {
      assert cs == init + [last];
      ReversedSnoc(init, last);
    }
    if init == [] {
      calc {
        SaveEach(storage, videoId, cs);
        SaveToStorage(storage, videoId, last);
        storage[key := Items([last] + before)];
        { assert Reversed(cs) == [last]; }
        storage[key := Items(Reversed(cs) + before)];
      }
    } else {
      calc {
        SaveEach(storage, videoId, cs);
        SaveToStorage(SaveEach(storage, videoId, init), videoId, last);
        { SaveEachPrepends(storage, videoId, init); }
        SaveToStorage(storage[key := Items(Reversed(init) + before)], videoId, last);
        { SaveOverKey(storage, videoId, Reversed(init) + before, last); }
        storage[key := Items([last] + (Reversed(init) + before))];
        { assert [last] + (Reversed(init) + before) == Reversed(cs) + before; }
        storage[key := Items(Reversed(cs) + before)];
      }
    }
  }

  /** Saving over a key whose list was just set to `xs` sets it to `[c] + xs`. */
  lemma SaveOverKey(storage: Store, videoId: string, xs: seq<LocalComment>, c: LocalComment)
    ensures SaveToStorage(storage[CommentsKey(videoId) := Items(xs)], videoId, c)
      == storage[CommentsKey(videoId) := Items([c] + xs)]
  {
    var key := CommentsKey(videoId);
    assert LoadFromStorage(storage[key := Items(xs)], videoId) == xs;
    MapOverwrite(storage, key, Items(xs), Items([c] + xs));
  }

  lemma MapOverwrite<K, V>(m: map<K, V>, k: K, a: V, b: V)
    ensures m[k := a][k := b] == m[k := b]
  {
  }

  lemma ReversedSnoc<T>(xs: seq<T>, x: T)
    ensures Reversed(xs + [x]) == [x] + Reversed(xs)
  {
    if xs != [] {
      assert (xs + [x])[1..] == xs[1..] + [x];
      ReversedSnoc(xs[1..], x);
    }
  }

  /** The mounted component for one video. */
  class CommentSection {
    const videoId: string
    var storage: Store
    var comments: seq<LocalComment>
    var draft: string
    var loading: bool
    var submitting: bool

    constructor (videoId: string, storage: Store)
      ensures this.videoId == videoId && this.storage == storage
      ensures comments == [] && draft == "" && !loading && !submitting
    {
      this.videoId := videoId;
      this.storage := storage;
      comments := [];
      draft := "";
      loading := false;
      submitting := false;
    }

    /** The text area's `onChange`. */
    method SetDraft(text: string)
      modifies this
      ensures draft == text
      ensures storage == old(storage) && comments == old(comments) && loading == old(loading)
      ensures submitting == old(submitting)
    {
      draft := text;
    }

    /**
     * `fetchComments()`: `stub` is `window.__SUPABASE_STUB__ === true`, `answer` the
     * comments query and `profiles` the profile lookup of each returned row.
     */
    method FetchComments(stub: bool, answer: DbAnswer, profiles: seq<Option<Profile>>)
      requires answer.DbAnswered? && answer.rows.Some? ==> |profiles| == |answer.rows.value|
      modifies this
      ensures !loading && draft == old(draft) && submitting == old(submitting)
      ensures !UsesDatabase(stub, answer) || HoldsNonList(old(storage), videoId) ==>
        comments == LoadFromStorage(old(storage), videoId) && storage == old(storage)
      ensures UsesDatabase(stub, answer) && !HoldsNonList(old(storage), videoId) ==>
        var local := LoadFromStorage(old(storage), videoId);
        var db := EnrichAll(answer.rows.value, profiles);
        && comments == Merge(local, db)
        && storage == (if |local| == 0 then old(storage)[CommentsKey(videoId) := Items(db)] else old(storage))
    {
      loading := true;
      var local := LoadFromStorage(storage, videoId);
      comments := local;
      // Over a stored non-list the merge's spread throws, and the catch keeps what is shown.
      if UsesDatabase(stub, answer) && !HoldsNonList(storage, videoId) {
        var db := EnrichAll(answer.rows.value, profiles);
        comments := Merge(local, db);
        if |db| > 0 && |local| == 0 {
          storage := storage[CommentsKey(videoId) := Items(db)];
        }
      }
      loading := false;
    }

    /**
     * `handleSubmitComment()` for the signed-in `user` (None when signed out); the
     * insert's answer and the clock are parameters.
     */
    method HandleSubmit(user: Option<User>, stub: bool, insert: InsertAnswer, now: int)
      modifies this
      ensures loading == old(loading)
      ensures user.None? || AllSpace(old(draft)) ==>
        storage == old(storage) && comments == old(comments) && draft == old(draft) && submitting == old(submitting)
      ensures user.Some? && !AllSpace(old(draft)) ==>
        var c := NewComment(user.value, old(draft), stub, insert, now);
        && storage == SaveToStorage(old(storage), videoId, c)
        && comments == [c] + old(comments)
        && draft == "" && !submitting
    {
      if user.None? || Trim(draft) == "" {
        assert user.None? || AllSpace(draft);
        return;
      }
      submitting := true;
      var c := NewComment(user.value, draft, stub, insert, now);
      storage := SaveToStorage(storage, videoId, c);
      comments := [c] + comments;
      draft := "";
      submitting := false;
    }

    /**
     * `createTestComments()`: each sample is saved on its own, so storage ends with
     * them in reverse order ahead of what it held, while the list shows them in order.
     */
    method CreateTestComments(now: int)
      modifies this
      ensures comments == TestComments(now)
      ensures HoldsNonList(old(storage), videoId) ==> storage == old(storage)
      ensures !HoldsNonList(old(storage), videoId) ==> storage == old(storage)[CommentsKey(videoId) :=
        Items(Reversed(TestComments(now)) + LoadFromStorage(old(storage), videoId))]
      ensures draft == old(draft) && loading == old(loading) && submitting == old(submitting)
    {
      var tests := TestComments(now);
      for i := 0 to |tests|
        invariant draft == old(draft) && loading == old(loading) && submitting == old(submitting)
        invariant comments == old(comments)
        invariant storage == SaveEach(old(storage), videoId, tests[..i])
      {
        assert tests[..i + 1] == tests[..i] + [tests[i]];
        storage := SaveToStorage(storage, videoId, tests[i]);
      }
      assert tests[..|tests|] == tests;
      SaveEachPrepends(old(storage), videoId, tests);
      comments := tests;
    }
  }
}
