/**
 * src/hooks/useComments.ts: the comment-thread state of one video. The hook's
 * record is rebuilt by three kinds of transition: the settled one-shot fetch,
 * a realtime INSERT/UPDATE/DELETE event, and an optimistic `add`. Each
 * rebuild is a pure function here; the class `CommentsHook` holds the record
 * and applies them in the order the hook does.
 */
module UseComments {
  import opened Wrappers
  import opened Text
  import opened Lists
  import opened SupabaseClient
  import opened Comments

  /** `UseCommentsState`. */
  datatype HookState = HookState(
    comments: seq<ShadowComment>,
    loading: bool,
    error: Option<string>,
    tableMissing: bool,
    lastDetail: Option<string>,
    seededLocally: bool)

  // ---------------------------------------------------------------------------
  // Classifying a fetch error: /relation .* does not exist/i or code 42P01
  // ---------------------------------------------------------------------------

  const RelationWord: string := "relation "
  const DoesNotExist: string := " does not exist"

  /** The characters `.` does not match in a regular expression without the `s` flag. */
  predicate IsLineTerminator(c: char) {
    c == '\n' || c == '\r' || c == '\U{2028}' || c == '\U{2029}'
  }

  /** `p` occurs in `m` at `i`, letters compared without regard to case. */
  predicate MatchesAt(m: string, i: nat, p: string) {
    i + |p| <= |m| && forall k :: 0 <= k < |p| ==> UpperChar(m[i + k]) == UpperChar(p[k])
  }

  /** `m[a..b]` holds no line terminator. */
  predicate NoTerminator(m: string, a: nat, b: nat) {
    a <= b <= |m| && forall k :: a <= k < b ==> !IsLineTerminator(m[k])
  }

  /** What `/relation .* does not exist/i` accepts: some "relation " and, after any run of non-terminators, " does not exist". */
  ghost predicate RegexAccepts(m: string) {
    exists i: nat, j: nat ::
      MatchesAt(m, i, RelationWord) && NoTerminator(m, i + |RelationWord|, j) && MatchesAt(m, j, DoesNotExist)
  }

  /** Scans `.*` from `j` until " does not exist" follows. */
  function TailFrom(m: string, j: nat): (r: bool)
    requires j <= |m|
    ensures r <==> exists j': nat :: NoTerminator(m, j, j') && MatchesAt(m, j', DoesNotExist)
    decreases |m| - j
  {
    if MatchesAt(m, j, DoesNotExist) then
      assert NoTerminator(m, j, j);
      true
    else if j < |m| && !IsLineTerminator(m[j]) then
      var r := TailFrom(m, j + 1);
      assert r ==> exists j': nat :: NoTerminator(m, j, j') && MatchesAt(m, j', DoesNotExist) by {
        if r {
          var j': nat :| NoTerminator(m, j + 1, j') && MatchesAt(m, j', DoesNotExist);
          assert NoTerminator(m, j, j');
        }
      }
      assert !r ==> forall j': nat :: NoTerminator(m, j, j') && j' > j ==> NoTerminator(m, j + 1, j');
      r
    else
      false
  }

  /** Tries every start position from `i` on. */
  function ScanFrom(m: string, i: nat): (r: bool)
    requires i <= |m|
    ensures r <==> exists i': nat, j: nat ::
      i <= i' && MatchesAt(m, i', RelationWord) && NoTerminator(m, i' + |RelationWord|, j) && MatchesAt(m, j, DoesNotExist)
    decreases |m| - i
  {
    var here := MatchesAt(m, i, RelationWord) && TailFrom(m, i + |RelationWord|);
    if here then
      true
    else if i < |m| then
      ScanFrom(m, i + 1)
    else
      false
  }

  /** `!!message.match(/relation .* does not exist/i)`. */
  function RelationMissing(m: string): (r: bool)
    ensures r <==> RegexAccepts(m)
  {
    ScanFrom(m, 0)
  }

  /** Any message naming a relation and then saying it does not exist, on one line, is recognised. */
  lemma RelationMissingAccepts(before: string, name: string, after: string)
    requires forall k :: 0 <= k < |name| ==> !IsLineTerminator(name[k])
    ensures RelationMissing(before + RelationWord + name + DoesNotExist + after)
  {
    var m := before + RelationWord + name + DoesNotExist + after;
    var i, j := |before|, |before| + |RelationWord| + |name|;
    assert m[i..i + |RelationWord|] == RelationWord;
    assert MatchesAt(m, i, RelationWord);
    assert m[i + |RelationWord|..j] == name;
    assert NoTerminator(m, i + |RelationWord|, j);
    assert m[j..j + |DoesNotExist|] == DoesNotExist;
    assert MatchesAt(m, j, DoesNotExist);
  }

  /** A message without a space is never taken for a missing table. */
  lemma RelationMissingNeedsSpace(m: string)
    requires forall k :: 0 <= k < |m| ==> m[k] != ' '
    ensures !RelationMissing(m)
  {
    forall i: nat
      ensures !MatchesAt(m, i, RelationWord)
    {
      if i + |RelationWord| <= |m| {
        assert UpperChar(m[i + 8]) != UpperChar(RelationWord[8]);
      }
    }
  }

  /** The classification of line 40: the pattern on the message, or the postgres code for an undefined table. */
  function IsTableMissing(e: DbError): (r: bool)
    ensures r <==> RegexAccepts(e.message) || e.code == "42P01"
  {
    RelationMissing(e.message) || e.code == "42P01"
  }

  // ---------------------------------------------------------------------------
  // The fetch settling
  // ---------------------------------------------------------------------------

  const MsgTableMissing: string := "Comments table missing"
  const MsgLoadFailed: string := "Failed to load comments"
  const MsgAddFailed: string := "Failed to add comment"

  /** The record after a fetch that reported `e`; `detail` is `lastError` at that moment. */
  function FetchFailed(s: HookState, e: DbError, detail: Option<string>): (r: HookState)
    ensures r.comments == s.comments
    ensures !r.loading && !r.seededLocally && r.lastDetail == detail
    ensures r.tableMissing <==> IsTableMissing(e)
    ensures r.error == Some(if IsTableMissing(e) then MsgTableMissing else MsgLoadFailed)
  {
    var missing := IsTableMissing(e);
    s.(loading := false, error := Some(if missing then MsgTableMissing else MsgLoadFailed),
       tableMissing := missing, lastDetail := detail, seededLocally := false)
  }

  /** The record after a fetch that answered `data`: the seeds when empty and seeding is allowed, else the data. */
  function FetchSucceeded(s: HookState, data: seq<ShadowComment>, seeds: seq<ShadowComment>, localSeed: bool)
    : (r: HookState)
    ensures |data| == 0 && localSeed ==> r.comments == seeds && r.seededLocally
    ensures !(|data| == 0 && localSeed) ==> r.comments == data && !r.seededLocally
    ensures !r.loading && r.error.None? && !r.tableMissing && r.lastDetail.None?
  {
    if |data| == 0 && localSeed then
      s.(loading := false, comments := seeds, error := None, tableMissing := false,
         lastDetail := None, seededLocally := true)
    else
      s.(loading := false, comments := data, error := None, tableMissing := false,
         lastDetail := None, seededLocally := false)
  }

  /** Oldest first. */
  predicate Ascending(xs: seq<ShadowComment>) {
    forall i, j :: 0 <= i < j < |xs| ==> xs[i].createdAt <= xs[j].createdAt
  }

  /** After a successful load the list is in `created_at` order, whether it holds the served page or the seeds. */
  lemma FetchSucceededAscending(s: HookState, videoId: string, data: seq<ShadowComment>, min: int, now: int,
                                order: seq<nat>, ids: seq<string>, localSeed: bool)
    requires ServedPage(videoId, data)
    requires IsPermutation(order, |BotTemplates|) && |ids| >= SeedCount(min)
    ensures Ascending(FetchSucceeded(s, data, CreateLocalSeedComments(videoId, min, now, order, ids), localSeed).comments)
  {
    SeedShape(videoId, min, now, order, ids);
  }

  // ---------------------------------------------------------------------------
  // Realtime events
  // ---------------------------------------------------------------------------

  datatype EventKind = Insert | Update | Delete

  function IdOf(c: ShadowComment): string {
    c.id
  }

  /** `xs.find(x => x.id === id)` is truthy. */
  predicate HasId(xs: seq<ShadowComment>, id: string) {
    IndexOfKey(xs, IdOf, id).Some?
  }

  /** A local seed row as the hook's filters see it: bot flag AND bot author (lines 88 and 117). */
  predicate IsSeedRow(c: ShadowComment)
    ensures IsSeedRow(c) ==> IsBotComment(c)
    ensures !c.isBot || c.userId != BotAuthorId ==> !IsSeedRow(c)
  {
    c.isBot && c.userId == BotAuthorId
  }

  function NotSeed(c: ShadowComment): bool {
    !IsSeedRow(c)
  }

  /** Dropping the seed rows; every other row stays, in its order. */
  function EvictSeeds(xs: seq<ShadowComment>): (r: seq<ShadowComment>)
    ensures forall x :: x in r ==> x in xs && !IsSeedRow(x)
    ensures forall x :: x in xs && !IsSeedRow(x) ==> x in r
    ensures (forall x :: x in xs ==> !IsSeedRow(x)) ==> r == xs
  {
    assert (forall x :: x in xs ==> !IsSeedRow(x)) ==> Filter(xs, NotSeed) == xs by {
      if forall x :: x in xs ==> !IsSeedRow(x) { FilterAll(xs, NotSeed); }
    }
    Filter(xs, NotSeed)
  }

  /** Every seed row is a bot comment, but not conversely: the hook's filter is narrower than `isBotComment`. */
  lemma SeedRowIsBotComment(c: ShadowComment)
    ensures IsSeedRow(c) ==> IsBotComment(c)
    ensures var flagged := c.(isBot := true, userId := "someone"); IsBotComment(flagged) && !IsSeedRow(flagged)
  {
    var flagged := c.(isBot := true, userId := "someone");
    assert flagged.userId[0] != BotAuthorId[0];
  }

  /** `comments.map(x => x.id === c.id ? c : x)`. */
  function ReplaceById(xs: seq<ShadowComment>, c: ShadowComment): (r: seq<ShadowComment>)
    ensures |r| == |xs|
    ensures forall i :: 0 <= i < |xs| ==> r[i] == if xs[i].id == c.id then c else xs[i]
  {
    seq(|xs|, i requires 0 <= i < |xs| => if xs[i].id == c.id then c else xs[i])
  }

  function OtherId(id: string): ShadowComment -> bool {
    (x: ShadowComment) => x.id != id
  }

  /** The list an event works on: seeds evicted first when INSERT meets a seeded list. */
  function Visible(s: HookState, kind: EventKind): seq<ShadowComment> {
    if s.seededLocally && kind == Insert then EvictSeeds(s.comments) else s.comments
  }

  /** INSERT: a known id changes nothing, a new one is appended to the visible list and ends seeding. */
  function ApplyInsert(s: HookState, c: ShadowComment): (r: HookState)
    ensures HasId(Visible(s, Insert), c.id) ==> r == s
    ensures !HasId(Visible(s, Insert), c.id) ==>
      r == s.(comments := Visible(s, Insert) + [c], seededLocally := false)
  {
    var comments := Visible(s, Insert);
    if HasId(comments, c.id) then s else s.(comments := comments + [c], seededLocally := false)
  }

  /** UPDATE: same length, matching rows replaced, the rest untouched. */
  function ApplyUpdate(s: HookState, c: ShadowComment): (r: HookState)
    ensures r == s.(comments := r.comments) && |r.comments| == |s.comments|
    ensures forall i :: 0 <= i < |s.comments| ==>
      r.comments[i] == (if s.comments[i].id == c.id then c else s.comments[i])
    ensures !HasId(s.comments, c.id) ==> r == s
  {
    var updated := ReplaceById(s.comments, c);
    assert !HasId(s.comments, c.id) ==> updated == s.comments;
    s.(comments := updated)
  }

  /** DELETE: exactly the rows with the id disappear. */
  function ApplyDelete(s: HookState, c: ShadowComment): (r: HookState)
    ensures r == s.(comments := Filter(s.comments, OtherId(c.id)))
    ensures !HasId(r.comments, c.id)
    ensures forall x :: x in s.comments && x.id != c.id ==> x in r.comments
    ensures !HasId(s.comments, c.id) ==> r == s
  {
    var kept := Filter(s.comments, OtherId(c.id));
    assert !HasId(s.comments, c.id) ==> kept == s.comments by {
      if !HasId(s.comments, c.id) { FilterAll(s.comments, OtherId(c.id)); }
    }
    assert forall j :: 0 <= j < |kept| ==> IdOf(kept[j]) != c.id by {
      forall j | 0 <= j < |kept| ensures IdOf(kept[j]) != c.id {
        assert kept[j] in kept;
      }
    }
    s.(comments := kept)
  }

  /** The realtime callback's updater (lines 84-104). */
  function ApplyEvent(s: HookState, c: ShadowComment, kind: EventKind): (r: HookState)
    // only `comments` and `seededLocally` ever change
    ensures r.loading == s.loading && r.error == s.error && r.tableMissing == s.tableMissing
    ensures r.lastDetail == s.lastDetail
    // INSERT of a known id: the previous record, untouched
    ensures kind == Insert && HasId(Visible(s, kind), c.id) ==> r == s
    // INSERT of a new id: appended after eviction, seeding over
    ensures kind == Insert && !HasId(Visible(s, kind), c.id) ==>
      r.comments == Visible(s, kind) + [c] && !r.seededLocally
    // UPDATE: same length, matching rows replaced, the rest untouched
    ensures kind == Update ==> r.seededLocally == s.seededLocally && |r.comments| == |s.comments|
    ensures kind == Update ==> forall i :: 0 <= i < |s.comments| ==>
      r.comments[i] == (if s.comments[i].id == c.id then c else s.comments[i])
    ensures kind == Update && !HasId(s.comments, c.id) ==> r == s
    // DELETE: exactly the rows with the id disappear
    ensures kind == Delete ==> r.seededLocally == s.seededLocally && r.comments == Filter(s.comments, OtherId(c.id))
    ensures kind == Delete ==> !HasId(r.comments, c.id)
    ensures kind == Delete ==> forall x :: x in s.comments && x.id != c.id ==> x in r.comments
    ensures kind == Delete && !HasId(s.comments, c.id) ==> r == s
  {
    match kind
    case Insert => ApplyInsert(s, c)
    case Update => ApplyUpdate(s, c)
    case Delete => ApplyDelete(s, c)
  }

  /** INSERT is idempotent: delivering the same row twice is delivering it once. */
  lemma InsertIdempotent(s: HookState, c: ShadowComment)
    ensures ApplyEvent(ApplyEvent(s, c, Insert), c, Insert) == ApplyEvent(s, c, Insert)
  {
    var r := ApplyEvent(s, c, Insert);
    if !HasId(Visible(s, Insert), c.id) {
      var xs := Visible(s, Insert) + [c];
      assert Visible(r, Insert) == xs;
      assert IdOf(xs[|xs| - 1]) == c.id;
    }
  }

  /** The first genuine INSERT on a seeded list removes every seed; a later INSERT removes nothing. */
  lemma SeedEvictionExactlyOnce(s: HookState, c: ShadowComment, d: ShadowComment)
    requires s.seededLocally && !IsSeedRow(c)
    requires !HasId(EvictSeeds(s.comments), c.id)
    ensures var r := ApplyEvent(s, c, Insert);
      && !r.seededLocally
      && (forall x :: x in r.comments ==> !IsSeedRow(x))
      && (forall x :: x in s.comments && !IsSeedRow(x) ==> x in r.comments)
      && var r' := ApplyEvent(r, d, Insert);
         r'.comments == r.comments || r'.comments == r.comments + [d]
  {
  }

  /** While seeded, an INSERT whose id the list already shows returns the record as it was: seeds stay. */
  lemma SeededKnownInsertKeepsSeeds(s: HookState, c: ShadowComment)
    requires s.seededLocally && HasId(EvictSeeds(s.comments), c.id)
    ensures ApplyEvent(s, c, Insert) == s && ApplyEvent(s, c, Insert).seededLocally
  {
  }

  /** Ids stay unique under every event. */
  lemma ApplyEventKeepsIdsUnique(s: HookState, c: ShadowComment, kind: EventKind)
    requires UniqueKeys(s.comments, IdOf)
    ensures UniqueKeys(ApplyEvent(s, c, kind).comments, IdOf)
  {
    var vis := Visible(s, kind);
    if s.seededLocally && kind == Insert { FilterUniqueKeys(s.comments, NotSeed, IdOf); }
    assert UniqueKeys(vis, IdOf);
    match kind
    case Insert =>
      if !HasId(vis, c.id) {
        var xs := vis + [c];
        forall i, j | 0 <= i < j < |xs| ensures IdOf(xs[i]) != IdOf(xs[j]) {
          if j == |vis| { assert IdOf(vis[i]) != c.id; }
        }
      }
    case Update =>
    case Delete =>
      FilterUniqueKeys(s.comments, OtherId(c.id), IdOf);
  }

  // ---------------------------------------------------------------------------
  // Optimistic add
  // ---------------------------------------------------------------------------

  /** The optimistic updater of lines 113-121: a seeded list loses its seeds and stops being seeded. */
  function EvictOnPost(s: HookState): (r: HookState)
    ensures !r.seededLocally
    ensures s.seededLocally ==> r == s.(comments := EvictSeeds(s.comments), seededLocally := false)
    ensures !s.seededLocally ==> r == s
  {
    if s.seededLocally then s.(comments := EvictSeeds(s.comments), seededLocally := false) else s
  }

  /** The updater after a failed write: only `error` and `lastDetail` change. */
  function WriteFailed(s: HookState, detail: Option<string>): (r: HookState)
    ensures r == s.(error := Some(MsgAddFailed), lastDetail := detail)
  {
    s.(error := Some(MsgAddFailed), lastDetail := detail)
  }

  /** A failed write does not bring evicted seeds back. */
  lemma FailedWriteKeepsSeedsEvicted(s: HookState, detail: Option<string>)
    requires s.seededLocally
    ensures var r := WriteFailed(EvictOnPost(s), detail);
      !r.seededLocally && r.error == Some(MsgAddFailed) && forall x :: x in r.comments ==> !IsSeedRow(x)
  {
  }

  /** What `add` resolves to. */
  datatype AddReply = NoVideoId | Replied(result: AddResult) {
    predicate HasError() {
      NoVideoId? || result.error.Some?
    }
  }

  /**
   * The scenario of an empty thread with seedMin 4: four seeds, no error; a post of
   * "hello" clears them and its realtime echo leaves exactly that row.
   */
  lemma SeedThenPostScenario(s0: HookState, videoId: string, now: int, order: seq<nat>, ids: seq<string>,
                             hello: ShadowComment)
    requires IsPermutation(order, |BotTemplates|) && |ids| >= 4
    requires !IsSeedRow(hello)
    ensures var s1 := FetchSucceeded(s0, [], CreateLocalSeedComments(videoId, 4, now, order, ids), true);
      && |s1.comments| == 4 && s1.seededLocally && s1.error.None?
      && (forall x :: x in s1.comments ==> IsSeedRow(x))
      && ApplyEvent(EvictOnPost(s1), hello, Insert).comments == [hello]
      && ApplyEvent(s1, hello, Insert).comments == [hello]
  {
    var seeds := CreateLocalSeedComments(videoId, 4, now, order, ids);
    var s1 := FetchSucceeded(s0, [], seeds, true);
    assert forall x :: x in seeds ==> IsSeedRow(x);
    FilterNone(seeds, NotSeed);
    assert EvictSeeds(seeds) == [];
    assert !HasId([], hello.id);
  }

  /** The hook instance of one video id. */
  class CommentsHook {
    const videoId: Option<string>
    const localSeed: bool
    const seedMin: int
    var state: HookState

    /** `useComments(videoId, opts)` at first render: empty, loading when there is a video. */
    constructor (videoId: Option<string>, localSeedOpt: Option<bool>, seedMinOpt: Option<int>)
      ensures this.videoId == videoId
      ensures localSeed == localSeedOpt.GetOr(true) && seedMin == seedMinOpt.GetOr(5)
      ensures state == HookState([], Truthy(videoId), None, false, None, false)
    {
      this.videoId := videoId;
      localSeed := localSeedOpt.GetOr(true);
      seedMin := seedMinOpt.GetOr(5);
      state := HookState([], Truthy(videoId), None, false, None, false);
    }

    /**
     * `load()` on the client `kind`: the fetch's answer is `q`; `now`, `order` and
     * `ids` are the clock, shuffle and id generator the seed generator would consult.
     * Against a mock the fetch throws and `load` has no catch, so the state stays
     * as the first update left it: loading, with no error.
     */
    method Load(client: CommentsClient, kind: ClientKind, q: QueryResult, now: int, order: seq<nat>, ids: seq<string>)
      requires IsPermutation(order, |BotTemplates|) && |ids| >= SeedCount(seedMin)
      modifies this, client
      ensures !Truthy(videoId) ==> state == old(state) && client.lastError == old(client.lastError)
      ensures Truthy(videoId) && kind != Live ==>
        state == old(state).(loading := true, error := None) && client.lastError.None?
      ensures Truthy(videoId) && kind == Live && q.error.Some? ==>
        state == FetchFailed(old(state).(loading := true, error := None), q.error.value,
                             Some(FormatDbError(q.error.value)))
      ensures Truthy(videoId) && kind == Live && q.error.None? ==>
        state == FetchSucceeded(old(state), q.rows.GetOr([]),
                                CreateLocalSeedComments(videoId.value, seedMin, now, order, ids), localSeed)
    {
      if !Truthy(videoId) {
        return;
      }
      state := state.(loading := true, error := None);
      var fetched := client.FetchComments(videoId.value, kind, q);
      if fetched.None? {
        return;
      }
      if fetched.value.error.Some? {
        state := FetchFailed(state, fetched.value.error.value, client.lastError);
        return;
      }
      var seeds := CreateLocalSeedComments(videoId.value, seedMin, now, order, ids);
      state := FetchSucceeded(state, fetched.value.data, seeds, localSeed);
    }

    /** The realtime subscription's callback for one event. */
    method OnEvent(c: ShadowComment, kind: EventKind)
      modifies this
      ensures state == ApplyEvent(old(state), c, kind)
    {
      state := ApplyEvent(state, c, kind);
    }

    /**
     * `add(body, parentId, ts)`, given the client's session lookup and the insert's
     * answer; `sent` is the row that reached `.insert`.
     */
    method Add(body: string, parentId: Option<string>, ts: Option<int>, client: CommentsClient,
               session: SessionResult, insert: InsertResult)
      returns (reply: AddReply, sent: Option<InsertRow>)
      modifies this, client
      ensures !Truthy(videoId) ==>
        reply == NoVideoId && sent.None? && state == old(state) && client.lastError == old(client.lastError)
      ensures Truthy(videoId) ==>
        var d := DecideInsert(AddParams(videoId.value, body, parentId, ts, false), session);
        && reply.Replied?
        && sent == (if d.Send? then Some(d.row) else None)
        && (reply.HasError() ==> state == WriteFailed(EvictOnPost(old(state)), client.lastError))
        && (!reply.HasError() ==> state == EvictOnPost(old(state)))
        && (d.Reject? ==>
              reply == Replied(AddResult(None, Some(d.error))) && client.lastError == Some(d.error.Detail()))
        && (d.Send? ==> reply.result.data == insert.row && (reply.HasError() <==> insert.error.Some?))
        && (d.Send? && insert.error.Some? ==> client.lastError == Some(FormatDbError(insert.error.value)))
        && (d.Send? && insert.error.None? ==> client.lastError.None?)
    {
      if !Truthy(videoId) {
        return NoVideoId, None;
      }
      state := EvictOnPost(state);
      var result;
      result, sent := client.AddComment(AddParams(videoId.value, body, parentId, ts, false), session, insert);
      if result.error.Some? {
        state := WriteFailed(state, client.lastError);
      }
      reply := Replied(result);
    }
  }
}
