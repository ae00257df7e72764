# bachaboard, modelled in Dafny

bachaboard is a small family social board. Users follow each other. They post text, photos and drawings, react to posts with one emoji each, and comment. This project models the parts of it that carry real logic, and proves what they promise:

- **Posts router** (`posts.py`): the feed query, the per-post reaction summary, the `user_reaction` fold, the reaction toggle, the 404 guards, comment creation and the comment listing.
- **Users router** (`users.py`): user profiles with follow counts, partial profile updates, and the follow toggle.
- **Seed script** (`seed_users.py`): creates the three family accounts on an empty database, then makes everyone follow everyone else.
- **Drawings router** (`drawings.py`): extracts the base64 payload from a canvas data URL, maps upload failures to errors, and has a no-op auto-save endpoint.
- **Drawing page** (`Draw.tsx`): the colour and brush state, the `drawingAutoSave` slot in local storage, and the two-request share flow.

The files, in dependency order:

- `wrappers.dfy`: `Option`.
- `query.dfy`: the SQL query operations the routers use. These are filter, `.first()`, `ORDER BY … DESC` and `OFFSET`/`LIMIT`.
- `schema.dfy`: the rows of each table, the follow relationship, and the `Db` class.
  - `Db` keeps one sequence per table.
  - `Db.Valid` holds the primary keys of users, posts, comments and reactions, the unique usernames, the foreign keys, and the one-reaction-per-user unique constraint.
- `reactions.dfy`: the reaction summary. It has a loop method, `Summarize`, and the specification functions it is proved against. It also has the specification of `toggle_reaction`, as `Toggled`.
- `posts.dfy`, `users.dfy`, `seed.dfy`, `drawings.dfy`: one module per router or script.
  - Each handler that changes a table is a method that modifies only that table's field of `Db`.
  - Row ids, timestamps and the password hash are parameters.
- `draw_page.dfy`: the page as a value `Page`, with a total `Step` function over events, and a `DrawScreen` class.
  - `DrawScreen` has one method per handler.
  - Each method is proved to perform `Step`.
  - The lemmas prove properties of `Step` and of `Run` over any sequence of events.

The drawing page keeps no stroke data of its own:

- `Draw.tsx` hands strokes, undo, rendering and serialisation to the `react-canvas-draw` component. There is no redo.
- The autosave timer writes its one slot on every tick, whether or not anything changed.
- The slot holds whatever `getSaveData()` returns.

So the canvas is modelled as the opaque text of its save data.

## Model

| member | source | states |
|---|---|---|
| Query.Filter | backend/app/routers/posts.py:53 | a `WHERE` keeps exactly the rows of the table that satisfy the condition, and no other rows |
| Query.FilterCounts | backend/app/routers/posts.py:53 | a row the condition accepts is kept exactly as many times as the table holds it; a rejected row never appears |
| Query.FilterConcat | backend/app/routers/posts.py:53 | filtering a concatenation is concatenating the filtered parts |
| Query.FindFirst | backend/app/routers/posts.py:121 | `.first()` returns the first matching row; it returns none exactly when no row matches |
| Query.SortDesc | backend/app/routers/posts.py:54 | `ORDER BY … DESC` returns a permutation of its input, sorted by the key in descending order |
| Query.SortDescMembers | backend/app/routers/posts.py:54 | sorting keeps the length, and each row is present before and after |
| Query.SortDescElements | backend/app/routers/posts.py:54 | a row is among the sorted rows exactly when it is among the input rows |
| Query.Window | backend/app/routers/posts.py:55 | `OFFSET skip LIMIT limit` is empty past the end, otherwise holds min(rows left, limit) rows, namely the rows from position `skip` on |
| Query.FirstWindowIsNewest | backend/app/routers/posts.py:54-55 | the first `LIMIT` rows of a newest-first order are the newest: a row left out means the window is full and the row is no newer than the window's last |
| Schema.Db.Valid | backend/app/models/user.py:9-46 | the database invariant: unique user, post, comment and reaction ids, unique usernames, every foreign key resolving, one reaction per user and post, and no follow edge twice |
| Schema.UserById | backend/app/routers/users.py:59 | looking up a present user id yields a row of the table with that id |
| Schema.PostById | backend/app/routers/posts.py:121 | looking up a present post id yields a row of the table with that id |
| Schema.Following | backend/app/models/user.py:40-46 | `user.following` lists exactly the targets of the user's outgoing follow edges |
| Schema.Followers | backend/app/models/user.py:40-46 | `user.followers` (the backref) lists exactly the sources of the user's incoming follow edges |
| Reactions.Summary | backend/app/routers/posts.py:59-65 | the `reactions_summary` dict as a list of (emoji, count) entries in insertion order; its meaning is stated by the lemmas below |
| Reactions.UserReaction | backend/app/routers/posts.py:60-68 | `user_reaction`: the emoji of the caller's last reaction in the loop, or None |
| Reactions.Summarize | backend/app/routers/posts.py:57-68 | the counting loop over `post.reactions` yields the summary `Summary(rs)` and the caller's reaction `UserReaction(rs, uid)` |
| Reactions.CountPositiveIff | backend/app/routers/posts.py:62-65 | an emoji's count is positive exactly when some reaction carries it |
| Reactions.EmojisInOrderSpec | backend/app/routers/posts.py:63-64 | the dict keys are distinct, and they are exactly the emojis in use |
| Reactions.SummaryCountsExact | backend/app/routers/posts.py:59-65 | each entry's count is the number of reactions with that emoji and is never zero; every emoji in use has exactly one entry |
| Reactions.SummaryTotal | backend/app/routers/posts.py:80 | the counts of the summary add up to the number of reactions on the post |
| Reactions.SummaryFirstOccurrenceOrder | backend/app/routers/posts.py:80 | the entries appear in the order in which their emojis first occur (dict insertion order) |
| Reactions.UserReactionNoneIff | backend/app/routers/posts.py:67-68 | `user_reaction` is None exactly when the caller has no reaction on the post; otherwise it is the emoji of one of the caller's reactions |
| Reactions.UserReactionIsOwnReaction | backend/app/routers/posts.py:67-68 | under the one-reaction-per-user constraint, `user_reaction` is `e` exactly when the caller's reaction has emoji `e` |
| Reactions.Toggled | backend/app/routers/posts.py:184-206 | the reactions table after `toggle_reaction`: remove the caller's reaction when the emoji is the same, change its emoji when different, append one when none exists |
| Reactions.ChangeOf | backend/app/routers/posts.py:189-206 | which change a toggle makes: removed when the caller's reaction has the same emoji, updated when it has another, added when there is none |
| Reactions.Message | backend/app/routers/posts.py:193-206 | the response message of each kind of change |
| Reactions.FilterSkipsRow | backend/app/routers/posts.py:184-187 | a row the filter rejects does not affect the filter's result |
| Reactions.ToggleKeepsOthers | backend/app/routers/posts.py:184-206 | a toggle leaves every reaction of other users and other posts unchanged and in place |
| Reactions.ToggleEffect | backend/app/routers/posts.py:189-206 | after a toggle, the caller's reaction is gone when the emoji was the same, and otherwise carries the new emoji; the table grows by one, shrinks by one or keeps its size accordingly |
| Reactions.ToggleKeepsOneReactionPerUser | backend/app/routers/posts.py:184-206 | a toggle preserves the unique (post, user) constraint |
| Reactions.ToggleKeepsUniqueIds | backend/app/routers/posts.py:184-206 | with a fresh id for an added row, a toggle keeps the reaction ids unique |
| Reactions.FilterKeepsOnePerUser | backend/app/models/post.py:28 | any selection of a table with one reaction per user and post, such as `Post.reactions`, keeps that constraint |
| Reactions.ToggleTwiceFromNone | backend/app/routers/posts.py:189-206 | toggling the same emoji twice from no reaction restores the table |
| Posts.View | backend/app/routers/posts.py:70-82 | the response dict of one post: the post's fields, its author's name and avatar, its comment count, its summary and the caller's reaction |
| Posts.ViewUserReaction | backend/app/routers/posts.py:67-68 | in a valid database, a post's `user_reaction` is `e` exactly when the reactions table holds the caller's reaction on that post with emoji `e` |
| Posts.ReactionOnPost | backend/app/models/post.py:28 | `Post.reactions` holds only reactions on the post, and the caller's reaction with emoji `e` is among them exactly when the table holds it |
| Posts.VisibleAuthors | backend/app/routers/posts.py:51 | `following_ids` holds exactly the caller and the users the caller follows |
| Posts.FeedPosts | backend/app/routers/posts.py:53-55 | the feed holds at most `limit` posts, each of them a post whose author is visible to the caller |
| Posts.FeedNewestFirst | backend/app/routers/posts.py:54 | the feed is ordered by `created_at`, newest first |
| Posts.FeedComplete | backend/app/routers/posts.py:53-55 | with no offset and a large enough limit, the feed holds exactly the posts of the visible authors |
| Posts.FeedIsPage | backend/app/routers/posts.py:53-55 | the page is the `OFFSET skip LIMIT limit` window of some newest-first arrangement of all visible posts, each as often as in the table |
| Posts.FirstPageIsNewest | backend/app/routers/posts.py:53-55 | a visible post missing from the first page means the page is full, and that post is no newer than the page's last post |
| Posts.Views | backend/app/routers/posts.py:57-84 | the response holds one entry per feed post, in feed order, each the view of that post |
| Posts.BuildView | backend/app/routers/posts.py:58-82 | one loop iteration builds the post's entry: its author's name and avatar, its comment count, its reaction summary and the caller's reaction |
| Posts.FeedViews | backend/app/routers/posts.py:57-84 | the outer loop appends exactly the views of the feed posts, in order |
| Posts.GetFeed | backend/app/routers/posts.py:44-84 | the loop builds one response per feed post, in feed order, each with its author, comment count, summary and `user_reaction` |
| Posts.FindPost | backend/app/routers/posts.py:121-123 | the lookup finds nothing exactly when the post id is unknown |
| Posts.GetPost | backend/app/routers/posts.py:115-148 | an unknown id gives 404 "Post not found"; otherwise the response is the post's view |
| Posts.AddComment | backend/app/routers/posts.py:150-170 | an unknown post gives 404 and no change; otherwise exactly one comment by the caller is appended, with a fresh id; the database stays valid |
| Posts.ToggleReaction | backend/app/routers/posts.py:172-209 | an unknown post gives 404 and no change; otherwise the table becomes `Toggled`, with a fresh id for an added row, and the message names the change made; the database stays valid |
| Posts.CommentViewOf | backend/app/routers/posts.py:221-227 | a listed comment carries the comment's id, content and timestamp |
| Posts.CommentViews | backend/app/routers/posts.py:220-228 | the list comprehension maps each comment, in order |
| Posts.SortedComments | backend/app/routers/posts.py:217-218 | the ordered comment query is a permutation of the post's comments: each comment on the post exactly as often as in the table, nothing else, newest first |
| Posts.GetComments | backend/app/routers/posts.py:211-228 | the listing has one entry per comment on the post, newest first; it is the comment views of a newest-first permutation of exactly the post's comments |
| Posts.ListsEveryComment | backend/app/routers/posts.py:217-228 | every comment on the post appears in the listing |
| Posts.ListsOnlyPostComments | backend/app/routers/posts.py:217-228 | every entry of the listing shows a comment on that post |
| Posts.CommentsOfUnknownPost | backend/app/routers/posts.py:217-218 | for an unknown post the listing is empty rather than an error |
| Users.ProfileOf | backend/app/routers/users.py:38-50 | the `UserProfile` dict of a user as seen by the caller: its fields, `is_following`, and the lengths of `followers` and `following` |
| Users.IsFollowingIffEdge | backend/app/routers/users.py:39 | `is_following` holds exactly when the caller has a follow edge to the listed user |
| Users.FollowersNoDup | backend/app/models/user.py:40-46 | without duplicate edges, the followers and following lists have no repeats |
| Users.FollowCountsAreDegrees | backend/app/routers/users.py:47-48 | `followers_count` and `following_count` are the numbers of distinct followers and followed users |
| Users.GetAllUsers | backend/app/routers/users.py:30-51 | one profile per user, in table order, the caller included; the ids are distinct and every user id appears |
| Users.GetUser | backend/app/routers/users.py:53-74 | an unknown id gives 404 "User not found"; otherwise the response is that user's profile |
| Users.Updated | backend/app/routers/users.py:82-87 | the caller's row after `update_profile`'s three field rules |
| Users.UpdatedFields | backend/app/routers/users.py:82-87 | the display name changes only when given and non-empty, the theme whenever given, the avatar whenever not None; the id, username and hash never change |
| Users.UpdateIdempotent | backend/app/routers/users.py:82-87 | sending the same update twice equals sending it once |
| Users.UpdateProfile | backend/app/routers/users.py:76-90 | only the caller's row changes, and it becomes the updated row; the message is fixed |
| Users.ReplaceKeepsIds | backend/app/routers/users.py:82-88 | updating the caller's row in place, username unchanged, keeps the set of user ids, their uniqueness and the uniqueness of usernames |
| Users.IndexOf | backend/app/routers/users.py:106 | `list.remove` acts at the first occurrence of the value |
| Users.RemoveFirst | backend/app/routers/users.py:106 | `list.remove` drops exactly one occurrence of the value, the first one, and keeps every other element in order |
| Users.ToggledFollows | backend/app/routers/users.py:105-110 | the follow table after `toggle_follow`: remove the edge when the caller follows the target, otherwise append it |
| Users.RemoveOnly | backend/app/routers/users.py:106 | removing a present edge from a list without duplicates drops that edge and keeps every other one |
| Users.ToggleFollowFlips | backend/app/routers/users.py:105-109 | on a table without duplicate edges (as every valid database is), a toggle flips membership of the caller's edge to the target, leaves every other edge as it was, and adds no duplicate |
| Users.ToggleFollowTwice | backend/app/routers/users.py:105-110 | toggling the same target twice restores the set of edges, and restores the list itself when the edge was absent |
| Users.ToggleFollowNoSelfLoop | backend/app/routers/users.py:98-99 | a toggle on another user never creates a self-follow |
| Users.ToggleFollow | backend/app/routers/users.py:92-113 | following yourself gives 400 and an unknown target gives 404, both without change; otherwise the edge is toggled, with an "Unfollowed"/"Now following" message, and no self-follow appears |
| Seed.Row | backend/scripts/seed_users.py:63-65 | the edges the inner loop appends for one user |
| Seed.AllPairs | backend/scripts/seed_users.py:62-65 | the edges the nested loops append, row after row |
| Seed.RowMembers | backend/scripts/seed_users.py:63-65 | the inner loop adds exactly the edges from the user to every other seeded user |
| Seed.AllPairsMembers | backend/scripts/seed_users.py:62-65 | the nested loops add exactly the edges between distinct seeded users |
| Seed.NoSelfFollowAfterSeed | backend/scripts/seed_users.py:64 | no seeded user follows itself |
| Seed.AllPairsNoDup | backend/scripts/seed_users.py:62-65 | with distinct ids, the seeded follow table holds no edge twice |
| Seed.RowNoDup | backend/scripts/seed_users.py:63-65 | with distinct ids, one user's row holds no edge twice |
| Seed.RowSize | backend/scripts/seed_users.py:63-65 | each user's row has one edge per other user |
| Seed.AllPairsCounts | backend/scripts/seed_users.py:62-65 | the number of followed and following users of each id after the nested loops |
| Seed.SeededDegrees | backend/scripts/seed_users.py:62-65 | with n seeded users, each follows n-1 users and has n-1 followers |
| Seed.NoUsersNoRows | backend/scripts/seed_users.py:20-23 | through the foreign keys, a database with no users has no other rows |
| Seed.FollowEveryoneElse | backend/scripts/seed_users.py:62-65 | the nested loops append exactly `AllPairs(ids, ids)` |
| Seed.CreateInitialUsers | backend/scripts/seed_users.py:20-65 | existing users mean no change; otherwise one user is created per data entry, with the hashed password, and everyone follows everyone else |
| Drawings.FirstField | backend/app/routers/drawings.py:31 | the text before the first comma is the longest comma-free prefix |
| Drawings.Split | backend/app/routers/drawings.py:31 | `split(',')` gives at least one field and no field holds a comma; there are two or more fields exactly when the text holds a comma |
| Drawings.JoinSplit | backend/app/routers/drawings.py:31 | joining the fields of `split(',')` with commas gives back the text |
| Drawings.SplitJoin | backend/app/routers/drawings.py:31 | splitting comma-free fields joined with commas gives back the fields |
| Drawings.ImagePayload | backend/app/routers/drawings.py:31 | the extracted payload never holds a comma and is no longer than the input |
| Drawings.PayloadOfDataUrl | backend/app/routers/drawings.py:31 | a data URL `header,payload` yields exactly its payload |
| Drawings.PayloadIsSecondField | backend/app/routers/drawings.py:31 | after a second comma, only the second field is kept |
| Drawings.PayloadFollowsHeader | backend/app/routers/drawings.py:31 | with a comma, the header before the first comma is dropped, and the payload is the field that follows it |
| Drawings.PayloadWithoutComma | backend/app/routers/drawings.py:31 | text without a comma is decoded as it is |
| Drawings.Digits | backend/app/routers/drawings.py:40 | the decimal text of the user id is a non-empty string of digits |
| Drawings.DigitsRoundTrip | backend/app/routers/drawings.py:40 | reading back the decimal text gives the number |
| Drawings.PublicId | backend/app/routers/drawings.py:40 | the upload name starts with `drawing_` and continues with the user id |
| Drawings.PublicIdsDistinct | backend/app/routers/drawings.py:40 | different users upload under different names |
| Drawings.SaveDrawing | backend/app/routers/drawings.py:24-47 | any failure in decoding, encoding or upload gives 400 "Failed to save drawing: " plus the message; success echoes `drawing_data` beside the image URL |
| Drawings.AutoSaveDrawing | backend/app/routers/drawings.py:49-57 | the endpoint stores nothing and always answers "Drawing auto-saved" |
| DrawPage.Mounted | frontend/src/pages/Draw.tsx:7-84 | the page right after mounting: initial colour and brush, no share, the interval running, a non-empty slot loaded into the canvas |
| DrawPage.Step | frontend/src/pages/Draw.tsx:13-121 | the effect of one timer tick, user action, server answer or unmount on the page |
| DrawPage.Left | frontend/src/pages/Draw.tsx:19 | once `Draw` is unmounted the interval is cleared and the canvas is gone |
| DrawPage.Run | frontend/src/pages/Draw.tsx:13-121 | the page after a sequence of events, one step at a time |
| DrawPage.Inv | frontend/src/pages/Draw.tsx:8-76 | the page invariant: palette colour, brush in 1..20, `isSaving` exactly while a share runs, each post request right after the save request for the same drawing, and the phase matching the last request |
| DrawPage.MountedInv | frontend/src/pages/Draw.tsx:8-10 | the page starts with a palette colour, a brush in range and no share under way |
| DrawPage.StepInv | frontend/src/pages/Draw.tsx:44-76 | every event keeps the colour in the palette, the brush in 1..20, `isSaving` exactly while a share runs, and each post request after its save request |
| DrawPage.StepKeepsTools | frontend/src/pages/Draw.tsx:100-121 | every event keeps the colour in the palette and the brush radius in 1..20 |
| DrawPage.StepKeepsRequests | frontend/src/pages/Draw.tsx:44-76 | every event keeps `isSaving` true exactly while a share runs, and keeps each post request right after the save request for the same drawing |
| DrawPage.SendKeepsPaired | frontend/src/pages/Draw.tsx:55-65 | sending the post request right after the save request for the same drawing data keeps the requests paired |
| DrawPage.RunInv | frontend/src/pages/Draw.tsx:44-76 | the page invariant holds after any sequence of events |
| DrawPage.ReachableInv | frontend/src/pages/Draw.tsx:86-121 | from mount on, the colour is always one of the 12 palette colours and the brush is always within 1..20 |
| DrawPage.StepOnlyTouchesSlot | frontend/src/pages/Draw.tsx:22-36 | an event changes no storage entry other than `drawingAutoSave` |
| DrawPage.RunOnlyTouchesSlot | frontend/src/pages/Draw.tsx:22-84 | no sequence of events changes any other storage entry |
| DrawPage.MountRestores | frontend/src/pages/Draw.tsx:79-84 | on mount a non-empty slot is loaded into the canvas; a missing or empty slot leaves the canvas blank |
| DrawPage.TickSaves | frontend/src/pages/Draw.tsx:13-28 | a timer tick overwrites the slot with the canvas data and changes nothing else |
| DrawPage.ClearForgets | frontend/src/pages/Draw.tsx:31-36 | clearing blanks the canvas and removes the slot |
| DrawPage.SlotRemovedOnlyBy | frontend/src/pages/Draw.tsx:31-68 | only a clear, or a successful post response during a share, removes the slot |
| DrawPage.AwaitingPostOnlyAfterUpload | frontend/src/pages/Draw.tsx:55-65 | the post request goes out only after the save request returned an image URL; it carries that URL and the captured drawing data |
| DrawPage.ShareWhileSavingIgnored | frontend/src/pages/Draw.tsx:166 | while a share runs, the disabled share button does nothing |
| DrawPage.ShareSucceeds | frontend/src/pages/Draw.tsx:44-76 | a share whose two requests succeed sends both requests with the same drawing data, removes the slot, goes to `/` and thereby unmounts the page: no canvas, no interval |
| DrawPage.LeftPageIsInert | frontend/src/pages/Draw.tsx:19-29 | an unmounted page with no share under way never writes the slot, sends a request or moves again |
| DrawPage.NoSaveAfterShare | frontend/src/pages/Draw.tsx:67-69 | after a successful share, no later event brings the autosave slot back |
| DrawPage.ShareSaveFails | frontend/src/pages/Draw.tsx:55-75 | a failed save request alerts and keeps the slot and the location |
| DrawPage.SharePostFails | frontend/src/pages/Draw.tsx:60-75 | a failed post request alerts and keeps the slot and the location |
| DrawPage.DrawScreen.Mount | frontend/src/pages/Draw.tsx:7-20 | mounting initialises the state and restores the slot |
| DrawPage.DrawScreen.AutoSave | frontend/src/pages/Draw.tsx:22-29 | `autoSave` performs the tick step |
| DrawPage.DrawScreen.DrawStroke | frontend/src/pages/Draw.tsx:146-155 | a stroke replaces the canvas data |
| DrawPage.DrawScreen.UndoLast | frontend/src/pages/Draw.tsx:38-42 | `undoLast` replaces the canvas data when there is a canvas |
| DrawPage.DrawScreen.ClearCanvas | frontend/src/pages/Draw.tsx:31-36 | `clearCanvas` performs the clear step |
| DrawPage.DrawScreen.PickColor | frontend/src/pages/Draw.tsx:100-103 | a colour button sets its palette colour |
| DrawPage.DrawScreen.SetBrushRadius | frontend/src/pages/Draw.tsx:115-121 | the slider sets the brush radius within 1..20 |
| DrawPage.DrawScreen.ShareDrawing | frontend/src/pages/Draw.tsx:44-58 | `saveDrawing` up to its first await: the save request and `isSaving` |
| DrawPage.DrawScreen.OnSaveResponse | frontend/src/pages/Draw.tsx:55-72 | the save answer leads to the post request, or to the failure alert |
| DrawPage.DrawScreen.OnPostResponse | frontend/src/pages/Draw.tsx:60-75 | the post answer either removes the slot, navigates and unmounts the page, or alerts; both end the share |
| DrawPage.DrawScreen.Unmount | frontend/src/pages/Draw.tsx:19 | unmounting clears the interval and drops the canvas |

## Left out

- Networking and the framework are not modelled. This covers FastAPI routing, `get_current_user`, JWT, axios and React scheduling. Each handler receives the caller's id as a parameter, and each server answer arrives as an event.
- SQLAlchemy sessions, commits and rollbacks are not modelled. Concurrent requests are not modelled either, including two toggles racing into the unique constraint. Each handler is one atomic step.
- Auto-increment ids and `datetime.utcnow` timestamps are parameters. `add_comment` and `toggle_reaction` require the new id to be fresh, as the database's auto-increment guarantees.
- `created_at` and `last_login` of users, and `updated_at` of posts, are not modelled.
- Password hashing is an arbitrary function parameter. The seed stores `hash(password)`.
- Decoding the base64 payload with PIL, re-encoding it as PNG and uploading it to Cloudinary are one function parameter of `SaveDrawing`. Its result is the URL or the exception text.
- The placeholder URL used when Cloudinary is unconfigured is not modelled. `backend/app/utils/cloudinary.py` is not part of this model.
- `create_post`, `upload_post_image`, `auth.py` and `feedback.py` are not part of this model. They are plain insert and lookup handlers.
- Schema.ReactionsOn and Schema.CommentsOn: the `comments` and `reactions` relationships have no `order_by`, so the database returns them in an unspecified order. The model fixes table order. The key order of the reaction summary follows this order, so it holds only for the order the database happens to return.
- Query.SortDesc: rows with equal timestamps come back in some fixed order. The database leaves that order unspecified, and the contracts state only sortedness and permutation.
- Posts.GetFeed: `skip` and `limit` are natural numbers. Negative values, which the query parameters would accept, are not modelled. Their defaults, 0 and 20, are left to the caller.
- The `followers` table has no uniqueness constraint. `Db.Valid` includes "no edge twice", and `toggle_follow` and the seed keep it. A duplicate edge written by anything outside this model is not covered.
- Seed.CreateInitialUsers: the database's new ids are a parameter, assumed distinct. The `print` output is not modelled, and `create_all` is not modelled.
- Drawings.PublicIdsDistinct: stated for non-negative user ids, which are the only ones the database assigns.
- DrawPage: `react-canvas-draw` is opaque.
  - The data after a stroke, an undo or a clear, and the PNG data URL of the canvas, are event parameters.
  - The 30000 ms period is not modelled; each timer tick is an event.
  - `console.log` output is not modelled.
  - Exceptions thrown by the canvas, by `localStorage` or by `navigate` inside the `try` are not modelled.
- DrawPage.DrawScreen.SetBrushRadius: the range input only produces values in 1..20, so a value outside that range leaves the radius as it is.
- DrawPage.DrawScreen.PickColor: the page only offers palette buttons, so an index outside the palette is ignored.
