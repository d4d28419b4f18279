# Shadow comments: a verified model of the comment-thread core

Shadow Comments is a web app that keeps a parallel comment thread next to a
YouTube video. A visitor pastes a video URL, and the app extracts the video id.
It then shows a thread stored in Supabase (a hosted Postgres with realtime events).
Several generations of that thread logic live in the code:

- the current `useComments` hook, which can seed an empty thread with local
  bot comments and merges realtime INSERT/UPDATE/DELETE events;
- an older local-first `CommentSection`, which keeps a copy of every thread in
  browser storage and merges database rows into it;
- a storage-only `useSimpleComments` hook.

Around them sit a local account registry, two serverless handlers (a comments
API and a cached proxy for YouTube's trending list), configuration
diagnostics, and a profile form.

The Dafny project models each of these source files as one module:
a datatype per record, a class where the source changes state in place, and a
function or method per operation. Contracts state what the code promises,
and lemmas relate operations to one another:

- an INSERT delivered twice is delivered once;
- seeds are evicted exactly once;
- a merge keeps the local copy of an id;
- the URL forms round-trip through id extraction;
- the trending cache key is injective.

Everything the source learns from outside (database and session answers,
storage reads, the clock, random ids and shuffles, upstream HTTP answers) is a
parameter of the operation that needs it. A method that issues a remote call
also returns the request it made, so "no query before validation" is a
checkable fact.

Modules:

| module | models |
|---|---|
| Wrappers | `null`/`undefined` as `Option` |
| Text | JavaScript truthiness and `||`, `trim`, `split('@')[0]`, `substring`, ASCII `toUpperCase`, `String(n)` |
| Lists | `filter`, `find`/`findIndex` by key, the keep-first-occurrence filter, stable newest-first sort |
| Storage | what a `localStorage` key holding JSON can yield; the `comments_<videoId>` key |
| Identity | the signed-in user as the comment writers read it, and its display name |
| SupabaseClient | src/integrations/supabase/client.ts |
| Comments | src/integrations/supabase/comments.ts (lines 1-143) |
| UseComments | src/hooks/useComments.ts |
| CommentSection | src/components/CommentSection.tsx |
| CommentsPane | src/components/CommentsPane.tsx |
| UseSimpleComments | src/hooks/useSimpleComments.ts |
| UseLocalAuth | src/hooks/useLocalAuth.ts |
| VideoInput | src/components/VideoInput.tsx |
| ApiComments | src/api/comments.ts |
| Trending | src/api/trending.ts |
| SupabaseStatus | src/utils/supabase-status.ts |
| ProfileManager | src/components/ProfileManager.tsx |

Three facts about the code shape the model:

- `load` in useComments does not seed the list after a failed fetch. It keeps
  the old list and clears `seededLocally`.
- The only error class the hook recognises is "table missing".
- The seed count is whatever `slice(0, min)` keeps of the seven templates:
  `min(min, 7)` for a non-negative `min`.

## Model

| member | source | states |
|---|---|---|
| Text.Or | src/api/comments.ts:55 | `a || b` on optional strings: `a` when it is truthy, else `b` |
| Text.OrNull | src/components/CommentSection.tsx:88 | `v || null`: a truthy value is kept, anything else becomes null |
| Text.Trim | src/api/comments.ts:63 | the result has no white space at either end, is empty exactly when the input is all white space, and is the input with its leading and trailing white space removed |
| Text.TrimmedTrim | src/api/comments.ts:63 | trimming a string with no white space at its ends returns it unchanged |
| Text.TrimIdempotent | src/components/CommentSection.tsx:206 | trimming twice equals trimming once |
| Text.LocalPart | src/hooks/useLocalAuth.ts:62 | `split('@')[0]`: a prefix of the address containing no '@', followed in the address by '@' when shorter than it |
| Text.LocalPartOfAddress | src/hooks/useLocalAuth.ts:62 | for `user@domain` with '@'-free `user`, the local part is exactly `user` |
| Text.StartsWith | src/components/ProfileManager.tsx:30 | `s.startsWith(p)`: true exactly when `p` is no longer than `s` and its first characters are `p` |
| Text.Take | src/utils/supabase-status.ts:9 | `substring(0, n)`: a prefix of length min(n, length) |
| Text.ToUpper | src/api/trending.ts:11 | same length, each character upper-cased |
| Text.NatToString | src/components/CommentSection.tsx:278 | decimal digits only, at least one, no leading zero |
| Text.NatToStringRoundTrip | src/components/CommentSection.tsx:278 | reading the printed digits back gives the number |
| Text.NatToStringInjective | src/components/CommentSection.tsx:280 | different numbers print differently |
| Text.IntToString | src/hooks/useSimpleComments.ts:69 | `String(i)` for an integer below 1e21 in magnitude: the digits of a non-negative number, "-" and the digits of its absolute value otherwise |
| Text.IntToStringInjective | src/api/trending.ts:13 | different integers print differently |
| Text.IntToStringNoColon | src/api/trending.ts:13 | a printed integer contains no ':' |
| Lists.Filter | src/hooks/useComments.ts:88 | `filter`: keeps exactly the elements passing the test, each from the input, as a sub-multiset of it |
| Lists.FilterAll | src/hooks/useComments.ts:101 | filtering a list whose every element passes returns it unchanged |
| Lists.FilterAppend | src/hooks/useComments.ts:88 | filtering distributes over concatenation, so relative order is kept |
| Lists.FilterNone | src/hooks/useComments.ts:117 | filtering a list none of whose elements pass returns the empty list |
| Lists.IndexOfKey | src/hooks/useComments.ts:91 | `findIndex`: the first index carrying the key, or none exactly when no element carries it |
| Lists.FilterUniqueKeys | src/hooks/useComments.ts:101 | a filter never makes two elements share an id |
| Lists.DedupePrefix | src/components/CommentSection.tsx:102-104 | the first-occurrence filter over a prefix is no longer than that prefix |
| Lists.DedupePrefixSpec | src/components/CommentSection.tsx:102-104 | over a prefix: keeps every key of the prefix exactly once, each time on the element `find` would return |
| Lists.Dedupe | src/components/CommentSection.tsx:102-104 | the first-occurrence filter leaves unique ids, loses no id and keeps the earliest carrier of each |
| Lists.FirstWithKeyAppend | src/components/CommentSection.tsx:101-103 | in `a + b`, an id that `a` carries is first found in `a` |
| Lists.InsertDesc | src/components/CommentSection.tsx:106 | inserting into a newest-first list keeps it newest first and adds exactly that element |
| Lists.SortDesc | src/components/CommentSection.tsx:106 | the sort's result is newest first and a permutation of its input |
| Lists.InsertDescUniqueKeys | src/components/CommentSection.tsx:106 | inserting an element of a fresh id keeps ids unique |
| Lists.SortDescUniqueKeys | src/components/CommentSection.tsx:106 | sorting never makes two elements share an id |
| Lists.SortDescSorted | src/hooks/useSimpleComments.ts:48 | sorting a newest-first list returns it unchanged |
| Lists.IndexOfKeyAppendOne | src/hooks/useLocalAuth.ts:49-67 | appending one element adds a first index only for its own key, and only when that key was absent |
| Storage.CommentsKey | src/components/CommentSection.tsx:126 | the key is "comments_" followed by the video id |
| Storage.CommentsKeyInjective | src/hooks/useSimpleComments.ts:35 | distinct videos never share a storage key |
| Identity.EmailLocalPart | src/api/comments.ts:55 | `email?.split('@')[0]`: absent exactly when the email is, else an '@'-free prefix of it |
| Identity.DisplayName | src/api/comments.ts:55 | never empty: the metadata name when truthy, else the email's local part when truthy, else "User" |
| Identity.DisplayNameFromEmail | src/components/CommentSection.tsx:229 | without a metadata name, `local@domain` with a non-empty local part is shown as `local` |
| SupabaseClient.Mask | src/integrations/supabase/client.ts:14-18 | "(empty)" when unset or empty; "***" for 1-8 characters; else 11 characters: the first four, "...", the last four |
| SupabaseClient.MaskHidesMiddle | src/integrations/supabase/client.ts:17 | two long values with the same four-character ends mask alike |
| SupabaseClient.ChooseClient | src/integrations/supabase/client.ts:23-67 | the unconfigured mock exactly when URL or anon key is missing; the live client exactly when both are set and creation succeeds |
| SupabaseClient.MockSession | src/integrations/supabase/client.ts:34-65 | both mocks answer `getSession` with no user and their own error message; the live client is not a mock |
| Comments.TemplatesDistinct | src/integrations/supabase/comments.ts:26-34 | the template pool has seven pairwise distinct bodies |
| Comments.IsBotComment | src/integrations/supabase/comments.ts:117-119 | a row is a bot comment when it is flagged `is_bot` or written under the bot id, either one sufficing, and not otherwise |
| Comments.SeedCount | src/integrations/supabase/comments.ts:101-103 | `slice(0, min)` of seven: min(min, 7) for min >= 0, and at most seven always |
| Comments.CreateLocalSeedComments | src/integrations/supabase/comments.ts:99-115 | `SeedCount(min)` seeds; seed i has the i-th generated id and the template the shuffle put at i, carries the bot id, is_bot, not deleted, no parent or timestamp, and `now - (min - i) * 1000` |
| Comments.SeedShape | src/integrations/supabase/comments.ts:99-115 | seed bodies are pairwise distinct templates; instants rise by exactly 1000 ms, strictly, and for min >= 0 all precede `now` |
| Comments.FormatDbError | src/integrations/supabase/comments.ts:48 | the recorded detail has no white space at either end |
| Comments.FormatDbErrorNoCode | src/integrations/supabase/comments.ts:48 | without a code the detail is the trimmed message |
| Comments.TrimLeadingSpace | src/integrations/supabase/comments.ts:48 | a leading blank does not change the trimmed text |
| Comments.FormatDbErrorBoth | src/integrations/supabase/comments.ts:93 | with a trimmed code and message, the detail is exactly "code message" |
| Comments.AddError.Detail | src/integrations/supabase/comments.ts:62-94 | the `lastError` text: the session error's message, "Not authenticated", or the trimmed code-and-message of a failed insert (the trimmed message when there is no code) |
| Comments.DecideInsert | src/integrations/supabase/comments.ts:63-79 | a session error stops the write even for bots; a non-bot call without a user id stops with "Not authenticated"; otherwise the row carries the bot id for bots, else the user's id, and the body, parent, timestamp and bot flag as passed (the body untrimmed) |
| Comments.MockClientNeverInserts | src/integrations/supabase/comments.ts:63-67 | against either mock client no call, bot or not, reaches the insert |
| Comments.CommentsClient.constructor | src/integrations/supabase/comments.ts:8 | `lastError` starts null |
| Comments.CommentsClient.FetchComments | src/integrations/supabase/comments.ts:38-52 | on a mock client, which has no `from`, the call throws after clearing `lastError`; on the live client the data is the rows or [] for null, and `lastError` is null unless the query failed, then the formatted error |
| Comments.CommentsClient.AddComment | src/integrations/supabase/comments.ts:54-97 | a rejected call sends nothing and records its detail; a sent row is the guard's row; an insert error is returned and formatted into `lastError`, success leaves it null |
| UseComments.TailFrom | src/hooks/useComments.ts:41 | from a position, `.*` can reach " does not exist" (any case) exactly when such a match exists |
| UseComments.ScanFrom | src/hooks/useComments.ts:41 | the pattern matches at or after a position exactly when some start there works |
| UseComments.RelationMissing | src/hooks/useComments.ts:41 | true exactly when the message matches `/relation .* does not exist/i` |
| UseComments.RelationMissingAccepts | src/hooks/useComments.ts:41 | any message holding "relation ", a name without line breaks and " does not exist" is recognised |
| UseComments.RelationMissingNeedsSpace | src/hooks/useComments.ts:41 | a message without a space is never taken for a missing table |
| UseComments.IsTableMissing | src/hooks/useComments.ts:40-41 | the pattern matches the message, or the code is "42P01" |
| UseComments.FetchFailed | src/hooks/useComments.ts:38-50 | after a failed fetch: comments unchanged, not loading, not seeded, detail recorded, `tableMissing` exactly under the classifier, message "Comments table missing" or "Failed to load comments" to match |
| UseComments.FetchSucceeded | src/hooks/useComments.ts:52-74 | empty data with seeding allowed installs the seeds and sets seeded; otherwise the data exactly and not seeded; error, detail and `tableMissing` cleared |
| UseComments.FetchSucceededAscending | src/hooks/useComments.ts:53-74 | after a successful load the list is oldest first, whether it is the served page or the seeds |
| UseComments.IsSeedRow | src/hooks/useComments.ts:88 | a seed row needs both the bot flag and the bot id, so every seed row is a bot comment and a row missing either is not a seed |
| UseComments.EvictSeeds | src/hooks/useComments.ts:88 | drops exactly the rows that are both bot-flagged and bot-authored; a list without such rows is unchanged |
| UseComments.SeedRowIsBotComment | src/hooks/useComments.ts:117 | every seed row satisfies `isBotComment`, but a bot-flagged row of another author does not count as a seed |
| UseComments.ReplaceById | src/hooks/useComments.ts:97 | same length; each row with the id is replaced, every other row kept |
| UseComments.ApplyInsert | src/hooks/useComments.ts:86-92 | a known id leaves the state as it was; a new one is appended to the visible list, after seed eviction when the list was seeded, and ends seeding |
| UseComments.ApplyUpdate | src/hooks/useComments.ts:94-98 | the list keeps its length; exactly the rows with the event's id are replaced by the event's row; an absent id changes nothing |
| UseComments.ApplyDelete | src/hooks/useComments.ts:100-101 | no row with the event's id is left, every other row stays; an absent id changes nothing |
| UseComments.ApplyEvent | src/hooks/useComments.ts:84-104 | only `comments` and `seededLocally` change; a known-id INSERT returns the old record; a new-id INSERT appends after eviction and ends seeding; UPDATE replaces matching rows in place; DELETE removes exactly the matching rows; both are no-ops on an absent id |
| UseComments.InsertIdempotent | src/hooks/useComments.ts:90-92 | delivering an INSERT twice equals delivering it once |
| UseComments.SeedEvictionExactlyOnce | src/hooks/useComments.ts:86-92 | the first new INSERT on a seeded list removes every seed and keeps every other row; a later INSERT removes nothing |
| UseComments.SeededKnownInsertKeepsSeeds | src/hooks/useComments.ts:91 | while seeded, an INSERT whose id is already shown leaves the seeds and the flag in place |
| UseComments.ApplyEventKeepsIdsUnique | src/hooks/useComments.ts:84-104 | if ids are unique before an event, they are unique after it |
| UseComments.EvictOnPost | src/hooks/useComments.ts:113-121 | a seeded list loses its seeds and stops being seeded; otherwise nothing changes |
| UseComments.WriteFailed | src/hooks/useComments.ts:123-130 | a failed write changes only the error ("Failed to add comment") and the detail |
| UseComments.FailedWriteKeepsSeedsEvicted | src/hooks/useComments.ts:113-130 | a failed write does not bring evicted seeds back |
| UseComments.SeedThenPostScenario | src/hooks/useComments.ts:53-92 | an empty thread with seedMin 4 shows four seeds without error; a post clears them, and its realtime echo leaves exactly that row |
| UseComments.CommentsHook.constructor | src/hooks/useComments.ts:21-32 | empty, loading exactly when there is a video, seeding on by default with seedMin 5 |
| UseComments.CommentsHook.Load | src/hooks/useComments.ts:34-75 | no video: nothing happens; on a mock client the fetch throws uncaught, so the hook stays loading with no error; a failed fetch gives `FetchFailed` with the formatted detail; a successful one gives `FetchSucceeded` with the generated seeds |
| UseComments.CommentsHook.OnEvent | src/hooks/useComments.ts:83-105 | the record becomes `ApplyEvent` of the event |
| UseComments.CommentsHook.Add | src/hooks/useComments.ts:109-134 | no video: "No video id", no write, no change; else seeds are evicted before the write; a guard rejection replies with its error and records its detail; a sent row replies with the insert's data and fails exactly when the insert failed, recording the formatted error or clearing the detail; a failed write (and only it) sets "Failed to add comment" with that detail |
| CommentSection.LoadFromStorage | src/components/CommentSection.tsx:124-134 | the stored list, or [] when the key is missing or does not hold a parsable list |
| CommentSection.SaveToStorage | src/components/CommentSection.tsx:258-267 | afterwards the key holds the comment in front of what it held before; a key holding a non-list, which the spread rejects, keeps it and storage is unchanged |
| CommentSection.SaveToStorageElsewhere | src/components/CommentSection.tsx:262 | no other key changes |
| CommentSection.Enrich | src/components/CommentSection.tsx:77-96 | row fields kept; display name from the profile when truthy, else "Anonymous User"; avatar from the profile or null; a failed lookup counts as no profile |
| CommentSection.EnrichAll | src/components/CommentSection.tsx:76-98 | every row enriched with its own profile answer, in order |
| CommentSection.Merge | src/components/CommentSection.tsx:100-106 | newest first, unique ids, every id of either list present, each shown element the first carrier of its id in local-then-database order |
| CommentSection.MergeLocalWins | src/components/CommentSection.tsx:101-104 | on an id clash the local copy is the one shown |
| CommentSection.UsesDatabase | src/components/CommentSection.tsx:74 | the database answer is used only when not stubbed, not thrown, not failed and holding at least one row |
| CommentSection.FormatTimestamp | src/components/CommentSection.tsx:269-282 | "Just now" exactly when the age is under an hour (negative ages included); whole hours under a day; whole days otherwise |
| CommentSection.FormatTimestampHours | src/components/CommentSection.tsx:277-278 | an age of h whole hours, 1 to 23, reads "h hours ago" |
| CommentSection.FormatTimestampDays | src/components/CommentSection.tsx:279-280 | an age of d whole days, d >= 1, reads "d days ago" |
| CommentSection.PostedIdentity | src/components/CommentSection.tsx:192-221 | the database's id and time when a real insert returned a row, else `Date.now()` as text and as the time |
| CommentSection.NewComment | src/components/CommentSection.tsx:224-231 | trimmed draft, the author's id, `DisplayName` of the author, the metadata avatar or null |
| CommentSection.TestComments | src/components/CommentSection.tsx:138-163 | three samples with ids 1, 2, 3, aged 0, 30 and 60 minutes |
| CommentSection.Reversed | src/components/CommentSection.tsx:166-168 | the list back to front |
| CommentSection.SaveEach | src/components/CommentSection.tsx:166-168 | saving a batch one by one touches no other key, keeps a stored non-list, and otherwise grows the stored list by the batch's length |
| CommentSection.SaveEachPrepends | src/components/CommentSection.tsx:166-168 | saving a batch one by one leaves it reversed in front of what the key held; a stored non-list stays as it was |
| CommentSection.CommentSection.constructor | src/components/CommentSection.tsx:29-32 | empty list and draft, not loading, not submitting |
| CommentSection.CommentSection.SetDraft | src/components/CommentSection.tsx:319 | only the draft changes |
| CommentSection.CommentSection.FetchComments | src/components/CommentSection.tsx:54-121 | stub, error, throw or no rows, or a stored non-list whose spread throws in the merge: the storage list is shown and storage is untouched; otherwise the merge is shown, and the database rows become the stored list only when storage held none |
| CommentSection.CommentSection.HandleSubmit | src/components/CommentSection.tsx:179-255 | signed out or blank draft: nothing changes; else the new comment is prepended to storage and to the list, the draft is cleared and `submitting` ends false |
| CommentSection.CommentSection.CreateTestComments | src/components/CommentSection.tsx:137-177 | the list shows the samples in order 1, 2, 3; storage holds 3, 2, 1 ahead of its previous entries, or keeps a stored non-list unchanged |
| CommentsPane.DraftAfter | src/components/CommentsPane.tsx:32-37 | the draft is cleared exactly on an error-free result; an error or a throw keeps it |
| CommentsPane.OutcomeAsWritten | src/components/CommentsPane.tsx:13-16 | as wired, the awaited call always throws |
| CommentsPane.OutcomeCorrected | src/components/CommentsPane.tsx:31-32 | with the hook's own `add`, the outcome is the reply, failed when it carries an error |
| CommentsPane.AsWrittenKeepsDraft | src/components/CommentsPane.tsx:13-41 | a reply the hook stored without error still leaves the draft in place |
| CommentsPane.CorrectedClearsOnSuccess | src/components/CommentsPane.tsx:31-37 | corrected, the draft is cleared exactly when the hook reports no error |
| CommentsPane.CommentsPane.constructor | src/components/CommentsPane.tsx:18-19 | empty draft, not submitting |
| CommentsPane.CommentsPane.SetDraft | src/components/CommentsPane.tsx:52 | only the draft changes |
| CommentsPane.CommentsPane.BeginSubmit | src/components/CommentsPane.tsx:25-31 | a blank draft or a submit in flight makes no call and changes nothing; otherwise `add` receives the trimmed, non-empty draft and `submitting` is set |
| CommentsPane.CommentsPane.FinishSubmit | src/components/CommentsPane.tsx:32-42 | the draft follows `DraftAfter`; `submitting` always ends false |
| UseSimpleComments.Loaded | src/hooks/useSimpleComments.ts:31-59 | not loading; newest first; the stored elements exactly when a list is stored; [] for a missing or unparsable value; the storage error exactly when the value is not a list |
| UseSimpleComments.LoadedSortedStable | src/hooks/useSimpleComments.ts:48 | sorting the loaded list again changes nothing |
| UseSimpleComments.NewComment | src/hooks/useSimpleComments.ts:62-75 | trimmed body, null user, the display name or "Anonymous", an id `comment_<now>_<suffix>` |
| UseSimpleComments.SimpleCommentsHook.constructor | src/hooks/useSimpleComments.ts:18-23 | empty, not loading, no error |
| UseSimpleComments.SimpleCommentsHook.LoadComments | src/hooks/useSimpleComments.ts:25-60 | no video: empty, not loading, no error; else the record `Loaded` describes; storage untouched |
| UseSimpleComments.SimpleCommentsHook.AddComment | src/hooks/useSimpleComments.ts:62-109 | no video: throws, storage and state untouched; a stored non-list: fails, untouched; else storage and the shown list both become the new comment followed by the stored list, error null |
| UseSimpleComments.AddThenLoad | src/hooks/useSimpleComments.ts:91-101 | a load after an add shows the new comment among the stored ones, one more than before, newest first, without error |
| UseLocalAuth.Registered | src/hooks/useLocalAuth.ts:48 | a missing registry reads as [], a stored list as itself, anything else throws |
| UseLocalAuth.FindByEmail | src/hooks/useLocalAuth.ts:49 | a found user is registered under that email; none is found exactly when no user has it |
| UseLocalAuth.NewLocalUser | src/hooks/useLocalAuth.ts:59-64 | the given email, the name or the email's local part, the avatar seeded by the email |
| UseLocalAuth.GoogleDemoUser | src/hooks/useLocalAuth.ts:138-143 | id `google_user_<now>`, email demo@google.com, name "Google User", the google avatar |
| UseLocalAuth.AppendNewEmail | src/hooks/useLocalAuth.ts:48-67 | appending a user with an unregistered email keeps emails unique, makes that email find the new user, and leaves every other lookup unchanged |
| UseLocalAuth.LocalAuth.constructor | src/hooks/useLocalAuth.ts:16-19 | no user, loading |
| UseLocalAuth.LocalAuth.Mount | src/hooks/useLocalAuth.ts:22-35 | the stored current user, or none when absent or unparsable; loading ends |
| UseLocalAuth.LocalAuth.SignUp | src/hooks/useLocalAuth.ts:37-84 | empty email or password: refused, nothing changes; unreadable registry: throws, nothing changes; a registered email: refused, nothing changes; else exactly the new user is appended and becomes current; emails stay unique |
| UseLocalAuth.LocalAuth.SignIn | src/hooks/useLocalAuth.ts:86-122 | the registry never changes; empty fields: refused; unknown email: "User not found", nothing changes; else the registered user with that email becomes current, whatever the password |
| UseLocalAuth.LocalAuth.SignOut | src/hooks/useLocalAuth.ts:124-133 | no current user; the registry is untouched |
| UseLocalAuth.LocalAuth.SignInWithGoogle | src/hooks/useLocalAuth.ts:135-160 | the demo user becomes current and is not registered |
| VideoInput.IdRunLength | src/components/VideoInput.tsx:19-21 | the greedy `[^&\n?#]+` run: id characters only, ending at the end or at an excluded character |
| VideoInput.FirstUsable | src/components/VideoInput.tsx:25 | the leftmost position where the pattern can match, or none when there is none |
| VideoInput.MatchIn | src/components/VideoInput.tsx:25-26 | none exactly when the pattern matches nowhere; else a non-empty id run that is maximal and starts right after the leftmost usable occurrence |
| VideoInput.ExtractVideoId | src/components/VideoInput.tsx:17-29 | the watch form if it matches, else the short form, else the embed form; null exactly when none matches; a result is non-empty and free of `& ? # \n` |
| VideoInput.NoWatchWithoutQuestionMark | src/components/VideoInput.tsx:19 | a URL without '?' never matches the watch form |
| VideoInput.ShortUrlRoundTrip | src/components/VideoInput.tsx:20 | `https://youtu.be/` followed by an id extracts to that id |
| VideoInput.WatchUrlRoundTrip | src/components/VideoInput.tsx:19 | `https://www.youtube.com/watch?v=` followed by an id extracts to that id |
| VideoInput.EmbedUrlRoundTrip | src/components/VideoInput.tsx:54 | the embed URL built for an id in YouTube's alphabet extracts back to that id |
| VideoInput.EmbedUrlShortFormInside | src/components/VideoInput.tsx:18-27 | an embed URL whose id begins "youtu.be/" is read through the short form, giving back only the rest |
| VideoInput.MockVideoData | src/components/VideoInput.tsx:49-55 | the fixed title and channel; thumbnail and embed URLs built from the id |
| VideoInput.VideoForm.constructor | src/components/VideoInput.tsx:13-14 | empty URL, not loading |
| VideoInput.VideoForm.SetUrl | src/components/VideoInput.tsx:91 | only the URL changes |
| VideoInput.VideoForm.HandleSubmit | src/components/VideoInput.tsx:31-65 | a blank URL does nothing; an unrecognised one loads nothing; a recognised one loads its id with its mock data; loading ends false |
| ApiComments.Limit | src/api/comments.ts:8 | 50 when absent, the given number up to 100, never more than 100 |
| ApiComments.Unexpected | src/api/comments.ts:81-84 | 500 with the exception's message, or "Unexpected error" |
| ApiComments.AnswerList | src/api/comments.ts:23-29 | 200 with the rows or [] exactly when the select succeeded; otherwise 500 with the error message |
| ApiComments.AnswerInsert | src/api/comments.ts:70-76 | 201 with the row exactly when the insert succeeded; otherwise 500 with the error message |
| ApiComments.NewRowFor | src/api/comments.ts:55-66 | the video id as sent, the body trimmed, the user's id and non-empty display name |
| ApiComments.Handle | src/api/comments.ts:4-85 | a select only for a GET with a video id, never over 100 rows; an insert only for a POST with both fields and a session user; 400 exactly for missing fields; 401 and 405 issue no call; `Allow: GET, POST` exactly on the 405; 200 and 201 exactly for successful calls |
| ApiComments.GetWithoutVideoId | src/api/comments.ts:7-12 | a GET without a video id answers 400 "Missing videoId" and queries nothing |
| ApiComments.BlankBodyInsertedEmpty | src/api/comments.ts:35-63 | a body of blanks passes the check and is inserted as "" |
| ApiComments.PostWithoutUser | src/api/comments.ts:44-53 | a session error answers 401 "Authentication error", a missing user 401 "Auth required"; nothing is inserted |
| ApiComments.MockClientRefusesPosts | src/api/comments.ts:42-47 | against a mock client every well-formed POST answers 401 "Authentication error" |
| Trending.Region | src/api/trending.ts:11 | "US" by default, else the given region upper-cased |
| Trending.MaxResults | src/api/trending.ts:12 | 12 by default, the given number up to 50, never more than 50 |
| Trending.CacheKey | src/api/trending.ts:13 | the region, ':' and the printed count |
| Trending.SplitAtLastColon | src/api/trending.ts:13 | text, ':' and colon-free text can be split only at that colon |
| Trending.CacheKeyInjective | src/api/trending.ts:13 | distinct region/count pairs never share an entry, even for regions containing ':' |
| Trending.FreshHit | src/api/trending.ts:15-16 | a hit exactly when the key has an entry younger than ten minutes; it serves that entry's data |
| Trending.StoredEntryServes | src/api/trending.ts:15-34 | an entry stored at t serves its key until t + 600000 ms and not from then on |
| Trending.StoreLeavesOtherKeys | src/api/trending.ts:34 | storing one key leaves what every other key serves unchanged |
| Trending.TrendingHandler.constructor | src/api/trending.ts:4-6 | the configured key and an empty table |
| Trending.TrendingHandler.Handle | src/api/trending.ts:8-41 | entries are never removed; a missing key answers 500 with no fetch; a fresh hit answers 200 with no fetch; else the upstream request is sent, a throw answers 500, a non-ok answer is relayed with its status, and only an ok answer is stored as `{ts, data}` |
| SupabaseStatus.Prefix | src/utils/supabase-status.ts:9-10 | "Not set" when unset; else the first min(n, length) characters followed by "...", even for short values |
| SupabaseStatus.GetStatus | src/utils/supabase-status.ts:1-12 | `hasUrl` and `hasKey` per setting, configured exactly when both are set, 30- and 8-character prefixes |
| SupabaseStatus.Warnings | src/utils/supabase-status.ts:22-27 | no warnings exactly when configured; else a header, one line per missing setting, and the advice line |
| SupabaseStatus.WarningsNameMissing | src/utils/supabase-status.ts:14-27 | the warnings name exactly the missing settings |
| SupabaseStatus.StatusAgreesWithClient | src/utils/supabase-status.ts:6 | "configured" exactly when the client module does not fall back to its unconfigured mock |
| ProfileManager.Meta | src/components/ProfileManager.tsx:17-19 | `user?.user_metadata?.[key]`: present exactly when the user has that key |
| ProfileManager.LocalOf | src/components/ProfileManager.tsx:17-18 | `user?.email?.split('@')[0]` |
| ProfileManager.InitialProfile | src/components/ProfileManager.tsx:16-20 | each name from its metadata field when truthy, else the email's local part, else ""; the avatar from metadata or "" |
| ProfileManager.CheckImage | src/components/ProfileManager.tsx:25-47 | accepted exactly for an image type of at most 5 MiB; no file and a non-image type are told apart |
| ProfileManager.SizeLimitInclusive | src/components/ProfileManager.tsx:40 | exactly 5 MiB is accepted, one byte more is too large |
| ProfileManager.WithField | src/components/ProfileManager.tsx:101-103 | only the named field changes |
| ProfileManager.WithFieldLastWins | src/components/ProfileManager.tsx:102 | setting a field twice keeps the last value |
| ProfileManager.Saved | src/components/ProfileManager.tsx:68-76 | metadata keys are the old ones plus the three profile fields, which hold the form's values; email and other top-level fields are kept |
| ProfileManager.SavedKeepsOtherMetadata | src/components/ProfileManager.tsx:70-75 | every other metadata key keeps its value |
| ProfileManager.SaveThenReopen | src/components/ProfileManager.tsx:16-76 | a saved profile with both names set is what the form starts from on the saved account |
| ProfileManager.ProfileForm.constructor | src/components/ProfileManager.tsx:12-23 | the initial profile, no preview, not uploading |
| ProfileManager.ProfileForm.HandleImageUpload | src/components/ProfileManager.tsx:25-53 | a rejected file changes nothing; an accepted one sets both the preview and the avatar to its URL |
| ProfileManager.ProfileForm.HandleRemoveImage | src/components/ProfileManager.tsx:55-61 | no preview, no avatar, file input emptied |
| ProfileManager.ProfileForm.HandleInputChange | src/components/ProfileManager.tsx:101-103 | only the named profile field changes |
| ProfileManager.SaveAsWritten | src/components/ProfileManager.tsx:63-99 | the context's user and the stored `user` are what they were, and the failure toast shows: `setUser` is not in the auth context, so the call throws before storage is written |
| ProfileManager.SaveCorrected | src/components/ProfileManager.tsx:66-87 | with a working `setUser`, the merged account becomes the context's user and the stored `user`, and the success toast shows |
| ProfileManager.AsWrittenLosesEdit | src/components/ProfileManager.tsx:16-99 | an edit with both names set and differing from what the form opened with is lost as written (reopening shows the old values) and kept by the corrected save |
| ProfileManager.ProfileForm.HandleSaveProfile | src/components/ProfileManager.tsx:63-99 | as written: user and stored user unchanged, failure toast, form unchanged, uploading ends false |
| ProfileManager.ProfileForm.HandleSaveProfileCorrected | src/components/ProfileManager.tsx:63-99 | corrected: the merged account goes to the context and to storage under `user`, success toast, form unchanged, uploading ends false |

## Left out

- Supabase queries, inserts, realtime channels and `removeChannel`, `fetch` to YouTube, and `getSession` are not modelled as calls. Their answers are parameters, and the requests are returned where a property depends on them.
- The server-side filter of fetched rows (`is_deleted`, ascending `created_at`) is a precondition (`ServedPage`), not a proved fact.
- src/integrations/supabase/comments.ts:144-157 is stray duplicate code that does not parse. Only lines 1-143 are modelled.
- `getLastCommentsError`, which useComments imports, is not exported by comments.ts. The detail is modelled as comments.ts's `lastError`.
- `Math.random` (the seed shuffle, random id suffixes), `crypto.randomUUID` and `Date.now` are parameters: an arbitrary permutation, ids and times.
- Dates are integer milliseconds. ISO-string parsing, `toISOString` and `toLocaleString` are not modelled. `formatTimestamp`'s float division is floor division on integers.
- `NaN` from `Number`/`parseInt` on non-numeric query values is not modelled; the limit and max inputs are the parsed integers.
- Text.IntToString: numbers are unbounded integers. JavaScript's `String(n)` switches to exponent notation from 1e21 (`?max=-10000000000000000000000` gives the cache key "US:-1e+22", where Trending.CacheKey prints every digit), and integers past 2^53 lose precision; neither is modelled.
- ApiComments.Limit: a fractional `limit` such as "2.5", which `Number` keeps and the query then receives, is not modelled; the limit is an integer.
- UseComments.CommentsHook.OnEvent: events are those of a live client. Against a mock client `subscribeComments` throws at `channel` inside the effect, so no event ever arrives; that throw is not modelled.
- Query values that are arrays, non-string POST fields, and `body.trim` throwing on a non-string body are not modelled.
- Concurrency is not modelled: the race between fetch and realtime events, React effect scheduling, and setState batching. Events are sequential method calls.
- The rendering of every component is not modelled, including CommentsPane's error panel, which tests the global `Error` constructor and so never shows.
- SupabaseClient.Mask: lengths count code points, not UTF-16 code units, so a value with characters outside the Basic Multilingual Plane is measured and cut differently from the source.
- SupabaseStatus.Prefix: lengths count code points, not UTF-16 code units, so the prefix of a value with characters outside the Basic Multilingual Plane differs from the source's.
- Text.Take: lengths and positions count code points, not the UTF-16 code units that JavaScript's `substring` counts.
- Trending.Region: upper-cases ASCII letters only; `toUpperCase` maps all of Unicode.
- Text.Trim: removes exactly the ECMAScript white-space and line-terminator characters, with no other Unicode handling.
- CommentSection.LoadFromStorage: a stored JSON value that parses but is not a list is returned by the source as is. The model reads it as [].
- UseSimpleComments.SimpleCommentsHook.AddComment: a stored JSON string would be spread into characters by the source. The model treats every stored non-list as a failed add.
- Lists.SortDesc: stability is used (sorted input returns unchanged) but not stated for ties in general.
- The sign-in of useLocalAuth never checks the password. That is the code's design and is modelled as such.
- src/pages/Auth.tsx, src/components/ProfileDialog.tsx, the OAuth helpers, the ads, routing and page glue are not part of this model.
- The `useAuth` context is modelled only as the `user` field the profile form reads; it offers no `setUser` (see Findings), and its sign-in, sign-up and sign-out are not part of this model.
- CommentSection.SaveToStorage: a stored JSON string would be spread into characters by the source and saved as such. The model treats every stored non-list as one the spread rejects, which leaves the key as it was.
- CommentSection.CommentSection.FetchComments: a stored non-list is shown as the empty list, where the source hands the raw value to the list state.

## Findings

| source | as written | input that shows it | evidently intended | confidence | as-written member | corrected member |
|---|---|---|---|---|---|---|
| src/components/CommentsPane.tsx:13-16 | the pane reads `add` from a `data` field that `useComments` does not return, so `add` is undefined and every submit throws inside the `try`; the draft is never cleared even when the comment would have been stored | draft "hello", not submitting: `BeginSubmit` calls `add("hello")`, which throws; `FinishSubmit(Threw)` keeps "hello" | take `add` from the hook's own result, and clear the draft when its reply has no error | high, not executed | CommentsPane.AsWrittenKeepsDraft | CommentsPane.CorrectedClearsOnSuccess |
| src/components/ProfileManager.tsx:79 | the form takes `setUser` from `useAuth()`, whose context holds no such member, so `setUser(updatedUser)` throws; the catch shows "Failed to update profile", and neither the context nor storage under `user` ever receives the edit | signed-in account `bob@x.io` with no metadata, form name and display name "Ann": the save reports failure, and the form reopens with "bob" | publish the merged account to the context and to storage, and report success | high, not executed | ProfileManager.AsWrittenLosesEdit | ProfileManager.SaveCorrected |
