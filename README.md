# Rooms and comments: a model of the client bookkeeping and the publish rules

This project models a small realtime list-taking application built on Meteor. Users create
rooms. Each room holds timestamped comments, and comments carry tags. A tag filter narrows the
comments the main pane lists. The model covers:

- the inline-edit event map `okCancelEvents`, which turns `keyup`, `keydown` and `focusout`
  events into `ok`, `cancel` or nothing (`EditEvents`);
- the client's Session variables `room_id`, `tag_filter`, `editing_addtag`, `editing_roomname`
  and `editing_itemname`, with the router's `main` handler and the tag-filter toggle
  (`UiSession.Session`);
- the client's cache of the `Rooms` and `Comments` collections, with the insert, update
  (`$set`, `$addToSet`, `$pull`) and remove operations the client issues (`Collections.Store`);
- the event handlers that combine the two: create, rename, select and destroy a room; create a
  comment; edit a comment's text; add and remove tags (`Client`);
- the selector and query behind the main pane, newest first (`Queries`);
- the tag list with counts that the tag filter shows (`TagFilter.TagSummary`), a loop over the
  room's comments and their tags, as in the source;
- the server's `rooms` and `comments(room_id)` publications, with `check(room_id, String)`
  (`Publish`).

JavaScript `null` is `Option.None`. JavaScript truthiness of a string or null is
`Records.Truthy`, so `""` is falsy as in the source. String order is JavaScript's `<`
(`Ordering.StrLt`).

Three predicates are helpers whose definitions are their meaning, so they have no row of their
own. Their properties appear in the rows of the members built on them:

- `Records.Truthy` is the truthiness test of client/main.js lines 25, 171, 184 and 189. See
  `Client.RoomsReady`, `Queries.SelectorFor` and `Client.NewComment`.
- `Queries.Matches` is the Minimongo match of the selector `{room_id, tags}` built at lines
  187-190. See `Queries.Select`.
- `Ordering.StrLt` is the `<` behind `sort: {name: 1}` and `_.sortBy`. See
  `Ordering.StrLtIrreflexive`, `Ordering.StrLtTransitive` and `Ordering.StrLtTotal`.

Two behaviours of the code may surprise a reader; the model follows the code:

- The tag list counts tag occurrences, not the comments that carry a tag. The two agree
  whenever a comment's tags have no duplicates, which `$addToSet` ensures.
- Destroying a room sets `room_id` to null and then calls `setRoom(null)`. That navigates to
  the empty path, which the `:room_id` route may not even match. Whether or not `main` runs,
  it finds `room_id` already null, so `tag_filter` is not reset. In the model `Route(None)` is
  then a no-op, and the old filter is kept.

## Model

| member | source | states |
|---|---|---|
| EditEvents.Classify | client/main.js:48-71 | Escape on keydown always cancels, whatever the text. Enter on keyup, or focusout, calls `ok` with the text exactly when the text is non-empty, and cancels when it is empty. Every other event calls neither callback. |
| Ordering.StrLtIrreflexive | client/main.js:26 | No string is below itself under JavaScript `<`. |
| Ordering.StrLtTransitive | client/main.js:26 | JavaScript `<` on strings is transitive. |
| Ordering.StrLtTotal | client/main.js:26 | Of two different strings, one is below the other, so `sort: {name: 1}` and `_.sortBy` have a total order to follow. |
| UiSession.Toggle | client/main.js:310-315 | Selecting the active tag clears the filter. Selecting the "All items" entry (null) clears it too. Selecting any other tag makes that tag the filter. |
| UiSession.ToggleTwice | client/main.js:310-315 | Two clicks on the active entry restore it. Two clicks on any other entry leave no filter, whatever was active before. |
| UiSession.Session.constructor | client/main.js:8-20 | All five Session variables start as null. |
| Collections.Store.constructor | client/main.js:4-5 | Both local collections start empty, and ids are distinct. |
| UiSession.Session.Route | client/main.js:324-330 | A routed room that differs from the current one becomes `room_id` and resets `tag_filter` to null. The current room leaves both unchanged. The editing pointers are never touched. |
| UiSession.Session.SelectTag | client/main.js:309-316 | The new `tag_filter` is the toggle of the old one by the clicked entry's tag. Nothing else changes. |
| Collections.AddToSetTags | client/main.js:269 | `$addToSet`: the tag is present afterwards. It is added once, only if absent. Every other tag keeps its multiplicity, and the old tags stay a prefix. |
| Collections.AddToSetIdempotent | client/main.js:269 | Adding the same tag twice adds it once. |
| Collections.PullTags | client/main.js:248 | `$pull`: no occurrence of the tag remains. Every other tag keeps its multiplicity. Pulling an absent tag changes nothing. |
| Collections.PullIdempotent | client/main.js:247-249 | Pulling twice equals pulling once, so a repeated deferred removal has no extra effect. |
| Collections.PullUndoesAddToSet | client/main.js:248-269 | Pulling a tag after adding it gives the same tags as pulling it alone. |
| Collections.Apply | client/main.js:257-269 | An update modifier changes only the text (`$set`) or only the tags (`$addToSet`, `$pull`). The id, room, done flag, timestamp and owner stay as they were. |
| Collections.UpdatedComments | client/main.js:257 | `Comments.update(id, m)` applies `m` to the comment with that id, if any. It leaves every other comment, the count and the order unchanged. |
| Collections.RenamedRooms | client/main.js:127 | `$set` of the name changes only the named room's name. Ids and order are kept. |
| Collections.Store.InsertRoom | client/main.js:117 | A room with a fresh id is appended, and ids stay distinct. |
| Collections.Store.UpdateRoomName | client/main.js:127 | Rooms become the renamed rooms. Comments are unchanged. |
| Collections.Store.RemoveRoom | client/main.js:102 | Rooms lose the room with that id. Comments are unchanged, and ids stay distinct. |
| Collections.Store.InsertComment | client/main.js:166-174 | The comment store grows by exactly the new record. |
| Collections.Store.UpdateComment | client/main.js:257 | Comments become the updated comments. Rooms are unchanged. |
| Collections.Store.RemoveComment | client/main.js:105 | Comments lose the comment with that id, and ids stay distinct. |
| Records.InRoom | client/main.js:284 | `find({room_id: r})` keeps exactly the comments whose `room_id` is `r`, each as often as it is stored. |
| Records.WithoutIds | client/main.js:103-106 | The comments left after removing a set of ids: exactly the comments whose id is outside the set. |
| Records.RoomsWithout | client/main.js:102 | The rooms left after `Rooms.remove(id)`: exactly those with another id. |
| Records.CascadeRemovesExactlyTheRoom | client/main.js:101-108 | When ids are distinct, removing the id of every comment the room's query returns removes exactly the room's comments. Every other comment keeps its multiplicity. |
| Records.LocalPart | client/main.js:173 | `split('@')[0]` is the longest prefix of the address without `@`. It stops at the first `@`. |
| Records.LocalPartOfAddress | client/main.js:173 | For `name@host` with no `@` in `name`, the owner name is `name`. |
| Queries.SelectorFor | client/main.js:183-190 | There is no selector without a truthy `room_id`. Otherwise the selector names that room, and it has a tag exactly when `tag_filter` is truthy. |
| Queries.Select | client/main.js:192 | The query keeps exactly the comments matching the selector. A `tags` selector matches arrays that contain the tag. |
| Queries.SortNewestFirst | client/main.js:192 | `sort: {timestamp: -1}` returns a permutation of its input, ordered by non-increasing timestamp. |
| Queries.InsertByTime | client/main.js:192 | One step of `sort: {timestamp: -1}`: the list grows by exactly the new comment, which ends up either first or behind the old first comment. |
| Queries.InsertByTimeSorted | client/main.js:192 | One step of `sort: {timestamp: -1}`: placing a comment into a newest-first list keeps it newest first. |
| Queries.CommentsShown | client/main.js:179-193 | With no room selected the pane lists nothing. Otherwise it lists exactly the room's comments that carry the active tag, each as often as stored, newest first. |
| TagFilter.SortByTag | client/main.js:295 | `_.sortBy` by tag returns a permutation of the entries in non-decreasing tag order. The total count is kept. |
| TagFilter.Insert | client/main.js:295 | One step of `_.sortBy` by tag: the list grows by exactly the new entry, which ends up either first or behind the old first entry. |
| TagFilter.InsertSorted | client/main.js:295 | One step of `_.sortBy` by tag: placing an entry into a list in tag order keeps it in tag order. |
| TagFilter.InsertTotal | client/main.js:295 | Placing an entry adds exactly its count to the total of the list. |
| TagFilter.SortStrict | client/main.js:295 | Sorting entries with distinct tags gives strictly ascending tags. |
| TagFilter.FindTag | client/main.js:286 | The index of the entry `_.find` returns, which is the first entry for the tag, or the length of the list where `_.find` returns undefined. |
| TagFilter.CountTag | client/main.js:286-290 | A tag without an entry gets a `{tag, count: 1}` entry at the end. Otherwise its entry's count rises by one in place and every other entry is unchanged. Either way the list stays a tally: one entry per distinct tag seen, each counting its occurrences. |
| TagFilter.CountTags | client/main.js:285-291 | Counting one comment's tags extends the tally by all of them. |
| TagFilter.CountRoom | client/main.js:284-293 | The tally covers every tag of the room's comments, each counting its occurrences, with one entry per distinct tag. `total` is the number of those comments. |
| TagFilter.TagSummary | client/main.js:280-299 | The first entry is `{tag: null, count: number of the room's comments}`. The rest have distinct tags in strictly ascending order, exactly the tags occurring in the room, each counting its occurrences. Their counts sum to the number of tag occurrences. |
| Client.FirstByName | client/main.js:26 | `findOne` sorted by name finds a room exactly when there is one, and the room it finds is stored. |
| Client.FirstByNameIsLeast | client/main.js:26 | No room's name is below the name of the room `findOne` picks. |
| Client.RoomsReady | client/main.js:24-30 | With no room selected and some room stored, the client routes to the first room by name. Otherwise the selection is unchanged. |
| Client.SelectRoom | client/main.js:89-91 | Clicking a room selects it. The tag filter is reset unless the room was already selected. |
| Client.StartEditingRoomName | client/main.js:96-100 | Double-clicking a room sets `editing_roomname` to its id. |
| Client.RemoveEach | client/main.js:103-106 | The `forEach` loop removes every comment of the snapshot by id. |
| Client.DestroyRoom | client/main.js:101-109 | After destroy, the room is gone from Rooms and no comment of the room remains. Every other comment keeps its multiplicity. `room_id` is null and `tag_filter` is as before. |
| Client.NewRoomInput | client/main.js:113-121 | `ok` appends a room named with the text and selects it. Cancel and other events change nothing, since the field has no cancel callback. |
| Client.RoomNameInput | client/main.js:123-133 | `ok` renames the room and clears `editing_roomname`. Cancel only clears it. Other events change nothing. |
| Client.NewComment | client/main.js:166-174 | The new record has `done = false`, the selected room, the timestamp and text given, tags `[tag_filter]` when a filter is active and `[]` otherwise, and the owner's local part as `owner_name`. |
| Client.NewCommentIsShown | client/main.js:164-174 | A comment created in the selected room under an active filter is listed in that filtered pane. |
| Client.NewCommentInput | client/main.js:161-177 | `ok` with a signed-in user who has an email address appends exactly that record, its owner name taken from the first address. With nobody signed in, with a user who has no address (the read of `emails[0].address` throws), or on cancel or any other event, the store is unchanged. |
| Client.StartAddingTag | client/main.js:229-233 | `click .addtag` sets `editing_addtag` to the comment's id. |
| Client.StartEditingComment | client/main.js:235-239 | Double-clicking the text sets `editing_itemname` to the comment's id. |
| Client.RemoveTag | client/main.js:241-250 | `click .remove` pulls the tag from that comment only. |
| Client.CommentTextInput | client/main.js:253-263 | `ok` sets the comment's text and clears `editing_itemname`. Cancel only clears it. Other events change nothing. |
| Client.AddTagInput | client/main.js:265-275 | `ok` adds the tag with set semantics and clears `editing_addtag`. Cancel only clears it. Other events change nothing. |
| Publish.CheckString | server/publish.js:19 | `check(value, String)` passes exactly the string values. |
| Publish.PublishRooms | server/publish.js:5-7 | The `rooms` publication is every stored room, unfiltered. |
| Publish.PublishComments | server/publish.js:18-21 | A non-string `room_id` is rejected with a match error, not answered. Otherwise the publication holds every stored comment whose `room_id` equals it, each as often as stored, and no other. |
| Publish.SelectWithinRoom | server/publish.js:20 | Restricting to the selector's room first does not change the main pane's query. |
| Publish.PaneNeedsOnlyPublished | server/publish.js:18-21 | The main pane computed over the published comments of the selected room equals the pane computed over the whole server collection. |

## Left out

- Meteor reactivity (`Deps.autorun`, `Deps.flush`, subscription handles and `ready()`) is framework
  plumbing. The subscription to `comments` for the selected room is not modelled. Its effect is
  stated by `Publish.PaneNeedsOnlyPublished`.
- DOM work is not modelled: focus and selection in `activateInput`, the opacity fade, clearing
  an input's value after submit, and the helpers that only return CSS classes or display text
  (`selected`, `name_class`, `done_class`, `editing`, `adding_tag`, `tag_text`, `tag_objs`,
  `loading`, `any_room_selected`, `can_destroy`).
- Client.RemoveTag: applies the `$pull` at once. The source waits 300 ms on a timer first, and
  clocks and schedulers are outside the model.
- Timestamps, generated `_id`s and the signed-in user are parameters. `new Date().getTime()`,
  `Meteor.user()` and Meteor's id generator are foreign calls. Freshness of a generated id is
  a precondition of the insert operations. It stands for the generator's uniqueness guarantee.
- The `moment` formatting of times and `displayName` are not modelled. Both are display-only
  foreign calls.
- Backbone's URL handling (`navigate`, pushState, `Backbone.history`) is not modelled.
  `setRoom(id)` is modelled as calling `main(id)` directly.
- Replication, optimistic updates and server reconciliation are not modelled. Each client
  mutation is applied to the local store at once. The destroy cascade is a sequence of separate
  removals, with no atomicity claimed.
- Client.FirstByName: among rooms of equal name the model picks the first stored. The source
  leaves the choice to Minimongo's sort and fixes none.
- Queries.SortNewestFirst: the order of comments with equal timestamps is left to Minimongo in
  the source. The model picks a stable order, and the contract promises only non-increasing
  timestamps and a permutation.
- Ordering.StrLt: compares Unicode scalar values. JavaScript compares UTF-16 code units, so the
  two orders differ only for characters outside the Basic Multilingual Plane.
- Publish.PublishComments: JSON numbers are integers in the model. Only whether the argument is
  a string matters to the check.
