# musik-app core, modelled in Dafny

musik-app is a web music player. Users search YouTube, play the results in an
embedded IFrame player with a queue, and keep named playlists in a hosted
database. This project models the application's logic as pure functions over
immutable state:

- `types.dfy` (`Types`): the `Song` record and an `Option` type, which stands
  for JavaScript's `null`/`undefined`.
- `text.dfy` (`Text`): the JavaScript string primitives the code relies on,
  spelled out. These are `trim`, `indexOf`, `split`, `padStart`, decimal
  rendering, and reading `m:ss`/`h:mm:ss` clock text back as seconds.
- `jsarray.dfy` (`JsArray`): `Array.prototype.splice` with its index clamping.
  It also holds the two splice idioms the code uses: remove one element, and
  move one element.
- `player.dfy` (`Player`): the player context. This covers its state, the
  user-facing operations (play, toggle, next, previous, seek, volume, mute,
  repeat), and the IFrame player callbacks. Each operation returns the new
  state plus the list of effects it asks of the IFrame player (load, play,
  pause, seek, volume, mute) or of the play history.
- `store.dfy` (`Store`): the playlist table and the database helper
  operations, over an in-memory table of rows.
- `editor.dfy` (`PlaylistEditor`): the playlist page. This covers rename,
  remove, drag-to-reorder with revert on failure, play-all and the realtime
  refresh.
- `youtube.dfy` (`YouTube`): the ISO 8601 duration formatter and the mapping
  of search results to songs, including the artist heuristic.
- `display.dfy` (`Display`): the player bar's time display, progress bar and
  volume slider, plus the search page's suggestions and debounced search.

The main proved properties are these:

- The song the player shows is always the last video it was asked to load
  (`Player.InitialBound`).
- Repeated "next" walks the queue and stops at its end without repeat. Under
  repeat-all it cycles modulo the queue length.
- The database operations act only on the rows of the given user and id.
  Removing a song undoes adding it.
- Moving a song permutes the list, and moving it back restores the list.
- Durations and times are rendered as text that reads back as the same
  number of seconds.

On the end of a track under repeat-one, the code does not load the track
again: it seeks the current video to 0 and calls `playVideo`
(`src/contexts/PlayerContext.tsx:108-110`). `Player.RepeatOneReplaysInPlace`
states that behaviour.

`Player.Apply` is one transition of the player context as written; a status
change goes to `Player.OnStateChange`, the handler as written. The corrected
handler `Player.OnStatus` (see "## Findings") keeps the same binding between
the current song and the last video loaded (`Player.CorrectedStatusBinds`).

## Model

| member | source | states |
|---|---|---|
| Text.TwoDigits | src/components/player/MusicPlayer.tsx:39 | `padStart(2, '0')` on a number is its decimal text with one leading 0 below 10 and the decimal text itself from 10 on; it is all digits, exactly two below 100, and reads back as the number |
| Text.DecimalString | src/lib/youtube.ts:71 | a number's decimal text is non-empty and all digits, is one digit exactly below 10, and has no leading zero unless it is 0 |
| Text.DecimalRoundTrip | src/lib/youtube.ts:66-68 | `parseInt` of a number's decimal text gives the number back |
| Text.Trim | src/pages/SearchPage.tsx:44 | `trim()` yields the middle of the string, starting and ending on non-whitespace; it is empty exactly when the string is all whitespace |
| Text.IndexOf | src/lib/youtube.ts:62 | finds the first occurrence of the pattern, if any; no occurrence means `None` |
| Text.Split | src/lib/youtube.ts:40 | `split(sep)` yields at least one piece, and no piece contains the separator |
| Text.SplitFirstPiece | src/lib/youtube.ts:40-41 | the title splits into more than one piece exactly when it contains the separator; the first piece is the text before its first occurrence |
| Text.JoinSplit | src/lib/youtube.ts:40 | joining the pieces of a split with the separator restores the string |
| JsArray.StartIndex | src/lib/supabase-db.ts:135 | splice's start index is clamped into `[0, length]`, counting back from the end when it is negative |
| JsArray.DeleteCount | src/lib/supabase-db.ts:135 | splice removes the requested count when it fits, nothing for a negative count, and everything after the start for a count past the end |
| JsArray.SpliceContents | src/pages/PlaylistPage.tsx:215-216 | splice removes exactly the clamped delete count and returns that run, and leaves prefix + inserted items + suffix; the elements are the original ones minus the removed plus the inserted |
| JsArray.SpliceUndo | src/pages/PlaylistPage.tsx:215-216 | splicing the removed items back in at the same index restores the array |
| JsArray.RemoveInRange | src/lib/supabase-db.ts:134-135 | `splice(i, 1)` for an index in range drops exactly element i and shifts the rest left |
| JsArray.RemovePastEnd | src/lib/supabase-db.ts:134-135 | `splice(i, 1)` past the end leaves the array unchanged |
| JsArray.RemoveNegative | src/lib/supabase-db.ts:134-135 | `splice(i, 1)` with a negative index removes counting from the end, and removes the first element when the index is below minus the length |
| JsArray.MoveFormula | src/pages/PlaylistPage.tsx:214-216 | a move is "remove at from, insert at the clamped to" |
| JsArray.MovePermutes | src/pages/PlaylistPage.tsx:214-216 | a move keeps the length and the multiset of elements, and puts the moved element at the clamped target |
| JsArray.MoveShifts | src/pages/PlaylistPage.tsx:214-216 | moving forward shifts the elements in between left; moving backward shifts them right |
| JsArray.MoveBack | src/pages/PlaylistPage.tsx:214-216 | moving from i to j and back from j to i restores the list |
| Player.FindIndex | src/contexts/PlayerContext.tsx:166-168 | `findIndex` by video id gives the first matching position, and nothing exactly when no song matches |
| Player.FindIndexDistinct | src/contexts/PlayerContext.tsx:166-168 | in a queue with distinct ids, the search for song k's id gives k |
| Player.PlaySong | src/contexts/PlayerContext.tsx:131-149 | without a player or a video id nothing happens; otherwise the song becomes current, the queue becomes the given list or empty, loading starts, the video is loaded, and a play is recorded exactly when signed in |
| Player.TogglePlay | src/contexts/PlayerContext.tsx:152-160 | the state is unchanged; with a player and a current song it pauses when playing and plays otherwise, and does nothing else |
| Player.NextAdvances | src/contexts/PlayerContext.tsx:163-178 | "next" from position i, not the last, plays song i+1 with the same queue |
| Player.NextAtEnd | src/contexts/PlayerContext.tsx:170-174 | "next" from the last song, or from a song not in the queue, wraps to the first song under repeat-all and does nothing otherwise |
| Player.NextPreviousIdle | src/contexts/PlayerContext.tsx:164-182 | with no current song or an empty queue, both "next" and "previous" do nothing |
| Player.PreviousRestarts | src/contexts/PlayerContext.tsx:184-189 | more than 3 seconds in, "previous" seeks to 0 and plays without changing the state |
| Player.PreviousGoesBack | src/contexts/PlayerContext.tsx:191-202 | within the first 3 seconds at position i > 0, "previous" plays song i-1 |
| Player.PreviousAtStart | src/contexts/PlayerContext.tsx:195-199 | at the first song, or with the song not in the queue, "previous" plays the last song under repeat-all and does nothing otherwise |
| Player.Seek | src/contexts/PlayerContext.tsx:206-209 | seeking asks the player to seek when there is one and changes no state |
| Player.SetVolume | src/contexts/PlayerContext.tsx:212-216 | with a player, sets the player's volume and the stored volume, and mutes exactly when the level is 0 |
| Player.ToggleMute | src/contexts/PlayerContext.tsx:219-233 | with a player, flips mute; unmuting adopts the volume the player reports |
| Player.ToggleRepeat | src/contexts/PlayerContext.tsx:236-245 | changes the repeat mode and nothing else |
| Player.RepeatCycle | src/contexts/PlayerContext.tsx:239-243 | repeat cycles none → all → one → none, so three toggles are the identity |
| Player.StatusEvents | src/contexts/PlayerContext.tsx:96-117 | PLAYING sets playing and the reported duration; PAUSED clears playing; ENDED seeks and replays under repeat-one, goes next under repeat-all or with a queue, otherwise stops; other events do nothing |
| Player.RepeatOneReplaysInPlace | src/contexts/PlayerContext.tsx:106-110 | under repeat-one, a track that ends is replayed from 0 in place, with no reload and the same current song |
| Player.EndedAtQueueEndKeepsPlaying | src/contexts/PlayerContext.tsx:111-112 | as written: ENDED at the end of a queue without repeat leaves the player marked as playing and issues no effect |
| Player.OnStatus | src/contexts/PlayerContext.tsx:106-115 | corrected handler: after ENDED, playing is still set only when something new was started; every other event is handled as written |
| Player.OnError | src/contexts/PlayerContext.tsx:118-121 | a player error clears loading and playing and keeps the song and queue |
| Player.OnReady | src/contexts/PlayerContext.tsx:87-94 | the ready player clears loading and adopts the player's volume and mute flag |
| Player.InitStarted | src/contexts/PlayerContext.tsx:63 | starting the player's initialisation sets loading and nothing else |
| Player.InitFailed | src/contexts/PlayerContext.tsx:124-127 | a failed initialisation clears loading and nothing else |
| Player.PollTime | src/contexts/PlayerContext.tsx:248-256 | the time poll runs only with a player and a song playing, and then sets the current time to the reported one and nothing else |
| Player.WalkForward | src/contexts/PlayerContext.tsx:163-178 | n "next" steps from position k, while k+n stays in the queue, reach song k+n |
| Player.StaysAtEnd | src/contexts/PlayerContext.tsx:170-174 | without repeat, "next" at the last song is a fixed point |
| Player.NoRepeatWalk | src/contexts/PlayerContext.tsx:163-178 | without repeat, n steps from the first song reach song n, then stay on the last song |
| Player.NextTimesSplit | src/contexts/PlayerContext.tsx:163-178 | a+b "next" steps are a steps followed by b steps |
| Player.RepeatAllCycles | src/contexts/PlayerContext.tsx:170-176 | under repeat-all, n "next" steps from position k reach song (k+n) mod the queue length |
| Player.NextTarget | src/contexts/PlayerContext.tsx:163-178 | the song "next" picks, when it picks one, is a song of the queue |
| Player.PlayNext | src/contexts/PlayerContext.tsx:163-178 | "next" keeps the queue and the repeat mode, because it plays from the current queue |
| Player.NextFollowsSkip | src/contexts/PlayerContext.tsx:163-178 | with a player and playable ids, one "next" moves the current song exactly as one step of the queue cursor |
| Player.NextTimesSkips | src/contexts/PlayerContext.tsx:163-178 | n presses of "next" move the current song as n steps of the queue cursor |
| Player.SkipFrom | src/contexts/PlayerContext.tsx:166-176 | from song k of a queue with distinct ids, one step goes to song k+1, wraps to the first song at the end under repeat-all, and stays put otherwise |
| Player.SkipForward | src/contexts/PlayerContext.tsx:175-176 | n cursor steps from song k that stay inside the queue reach song k+n |
| Player.NextAtLast | src/contexts/PlayerContext.tsx:170-174 | without repeat, "next" at the last song leaves the state unchanged and issues no effect |
| Player.SkipToEnd | src/contexts/PlayerContext.tsx:170-174 | without repeat, queue length - 1 or more steps from the first song end on the last song |
| Player.SkipNoRepeat | src/contexts/PlayerContext.tsx:163-178 | without repeat, steps from the first song visit the queue in order and stop on the last song |
| Player.SkipRepeatAll | src/contexts/PlayerContext.tsx:170-176 | under repeat-all, n steps from song k reach the song n places further round the queue |
| Player.PlaySongBinds | src/contexts/PlayerContext.tsx:131-141 | playing a song keeps the current song equal to the last video loaded |
| Player.NextBinds | src/contexts/PlayerContext.tsx:163-178 | "next" keeps the current song equal to the last video loaded |
| Player.PreviousBinds | src/contexts/PlayerContext.tsx:181-203 | "previous" keeps the current song equal to the last video loaded |
| Player.StatusBinds | src/contexts/PlayerContext.tsx:96-117 | every player state event, handled as written, keeps the current song equal to the last video loaded |
| Player.CorrectedStatusBinds | src/contexts/PlayerContext.tsx:106-115 | the corrected end-of-track handler keeps the current song equal to the last video loaded as well |
| Player.ApplyBinds | src/contexts/PlayerContext.tsx:63-266 | every operation and callback of the player context (play, toggle, next, previous, seek, volume, mute, repeat, status change as written, error, initialisation start and failure, ready, time poll) keeps the current song equal to the last video loaded |
| Player.RunBinds | src/contexts/PlayerContext.tsx:63-266 | any sequence of those transitions, each with its own environment (so the player may appear when it becomes ready), keeps the current song equal to the last video loaded |
| Player.InitialBound | src/contexts/PlayerContext.tsx:63-266 | from the initial state, after any such run, the current song is always the last video loaded |
| Player.StartupThenPlay | src/contexts/PlayerContext.tsx:63-141 | start-up without a player, then ready, then play: the song is current, loading, with the reported volume, and is the video last loaded |
| Store.FromRow | src/lib/supabase-db.ts:84-89 | a row maps to a playlist with the same id, name and date, and a missing song list becomes `[]` |
| Store.Select | src/lib/supabase-db.ts:74-80 | the query by id and owner returns only rows of the table that match both, and every matching row |
| Store.SelectCount | src/lib/supabase-db.ts:74-80 | the query returns each matching row exactly as often as the table holds it, and no row that does not match |
| Store.GetPlaylistById | src/lib/supabase-db.ts:74-90 | `.single()` succeeds exactly when one row matches, and yields that row as a playlist |
| Store.OwnedBy | src/lib/supabase-db.ts:57-61 | the query by owner returns only rows of that user, and every row of that user |
| Store.OwnedByCount | src/lib/supabase-db.ts:57-61 | the listing holds each of the user's rows exactly as often as the table does, and no other row |
| Store.OwnedByAppend | src/lib/supabase-db.ts:57-61 | the listing of a table with one row appended is the old listing followed by that row when the user owns it |
| Store.GetPlaylists | src/lib/supabase-db.ts:57-72 | lists every playlist of the user, mapped row by row |
| Store.UpdateFields | src/lib/supabase-db.ts:92-95 | an update writes the name only when it is given and non-empty, and writes the songs whenever they are given |
| Store.ApplyUpdate | src/lib/supabase-db.ts:97-99 | an update keeps id, owner and date, and overwrites only the fields it carries |
| Store.UpdateRows | src/lib/supabase-db.ts:97-101 | the update touches exactly the rows matching id and owner |
| Store.SelectAfterUpdate | src/lib/supabase-db.ts:92-104 | the rows matching after an update are the matching rows before it, each updated |
| Store.ReadAfterUpdate | src/lib/supabase-db.ts:92-104 | an update keeps the playlist readable or unreadable, and a later read sees the written fields |
| Store.AddAppends | src/lib/supabase-db.ts:116-126 | adding a song to a missing playlist changes nothing; otherwise the playlist reads back with the song appended |
| Store.RemoveDrops | src/lib/supabase-db.ts:128-139 | removing from a missing playlist changes nothing; otherwise the playlist reads back with the splice-removed list |
| Store.RemoveUndoesAdd | src/lib/supabase-db.ts:116-139 | removing at the old length right after adding a song reads back as the original playlist |
| Store.ReorderPlaylistSongs | src/lib/supabase-db.ts:141-143 | reordering is an update that carries only the songs |
| Store.ReorderWrites | src/lib/supabase-db.ts:141-143 | after a reorder the playlist reads back with exactly the given songs |
| Store.CreatePlaylist | src/lib/supabase-db.ts:41-55 | creating appends one row for the user, with an empty song list |
| Store.SelectAppend | src/lib/supabase-db.ts:74-80 | the query on a table with one row appended is the old result followed by that row when it matches, so the result keeps table order |
| Store.CreateThenRead | src/lib/supabase-db.ts:41-90 | a playlist created with a fresh id reads back with its name and no songs |
| Store.OrDefault | src/lib/supabase-db.ts:10-12 | `value` or else `fallback`: an absent or empty value gives the fallback |
| Store.CreateUserProfile | src/lib/supabase-db.ts:5-20 | the profile row has the user's id and a non-empty display name defaulting to "User"; email and photo default to "" |
| PlaylistEditor.OnRemoteChange | src/pages/PlaylistPage.tsx:156-161 | a realtime update replaces the playlist, songs and edited name and ends loading; a missing playlist changes nothing |
| PlaylistEditor.RemoteChangeReplaces | src/pages/PlaylistPage.tsx:156-161 | after a realtime update the page depends only on the fetched playlist, not on its earlier edits |
| PlaylistEditor.PlayAll | src/pages/PlaylistPage.tsx:166-170 | "play all" plays the first song with the page's songs as the queue, and does nothing without a playlist or songs |
| PlaylistEditor.PlayAllStartsQueue | src/pages/PlaylistPage.tsx:166-170 | after "play all", the player's current song is the first song and its queue is the page's songs |
| PlaylistEditor.RowPlay | src/pages/PlaylistPage.tsx:62-71 | the play button of the current song is a toggle; on any other row it is a play of that song with the page list |
| PlaylistEditor.RowPlayEffect | src/pages/PlaylistPage.tsx:62-71 | on the current song the button pauses or resumes and changes no state; on another playable song it loads that song with the row's list as the queue; either way the row's song is current afterwards |
| PlaylistEditor.Rename | src/pages/PlaylistPage.tsx:172-186 | a blank, unchanged or signed-out rename just leaves edit mode; otherwise the name is written, and edit mode ends only if the write succeeded |
| PlaylistEditor.RenameStoresName | src/pages/PlaylistPage.tsx:178-179 | the written rename reads back from the store as the new name |
| PlaylistEditor.RemoveSong | src/pages/PlaylistPage.tsx:201-211 | removing leaves the page state to the realtime refresh and writes the removal only when signed in on a playlist route |
| PlaylistEditor.MoveSong | src/pages/PlaylistPage.tsx:213-229 | the list is reordered at once and written when signed in; a failed write reverts to the songs of the last playlist received, or to none |
| PlaylistEditor.MoveSongPermutes | src/pages/PlaylistPage.tsx:213-218 | a successful move keeps the page's songs as a permutation, with the dragged song at the target |
| PlaylistEditor.MoveSongBack | src/pages/PlaylistPage.tsx:213-218 | dragging a song back where it came from restores the list |
| PlaylistEditor.Hover | src/pages/PlaylistPage.tsx:43-57 | hover does nothing when unmounted or over itself; otherwise it moves the dragged song and retargets the drag item |
| PlaylistEditor.HoverSelfIsNoop | src/pages/PlaylistPage.tsx:49-50 | hovering a song over itself changes nothing, and would have been an identity move anyway |
| PlaylistEditor.MoveSongStoresOrder | src/pages/PlaylistPage.tsx:220-222 | the reorder written by a move reads back from the store as the moved list |
| PlaylistEditor.AddMoveRemoveScenario | src/pages/PlaylistPage.tsx:213-229 | add a, add b, drag a below b, remove the first: the store reads back [a, b], then [b, a], then [a] |
| YouTube.DigitRun | src/lib/youtube.ts:62 | `\d+` at the start of the text takes the longest run of digits |
| YouTube.Component | src/lib/youtube.ts:62 | an optional `(\d+)X` group matches exactly when the leading digit run is non-empty and followed by its designator, and then consumes both; otherwise it consumes nothing |
| YouTube.ComponentMatches | src/lib/youtube.ts:62 | for a letter designator the group matches exactly when some non-empty digit prefix of the text is followed by the designator, as the regular expression with backtracking does |
| YouTube.ComponentPresent | src/lib/youtube.ts:62 | a group written as a number and its designator is read back as that number |
| YouTube.ReadDesignators | src/lib/youtube.ts:62-68 | a duration `PT[nH][nM][nS]` yields its hours, minutes and seconds, with 0 for each absent part |
| YouTube.Clock | src/lib/youtube.ts:70-74 | with hours the fields are the hours, then minutes and seconds padded to two digits; without hours they are the minutes, then seconds padded to two digits; the display reads back as the total seconds |
| YouTube.FormatDuration | src/lib/youtube.ts:61-75 | text without "PT" shows `0:00`; otherwise the fields are the parsed hours (only when positive) and the minutes, unpadded first and padded to two digits after a colon, and the display reads back as the parsed total |
| YouTube.FormatDesignators | src/lib/youtube.ts:61-75 | formatting a well-formed duration gives its clock text, which reads back as its total seconds |
| YouTube.ZeroDurations | src/lib/youtube.ts:64-74 | `PT` and the default `PT0M0S` both show `0:00` |
| YouTube.NinetyMinutes | src/lib/youtube.ts:66-74 | `PT90M` shows `90:00`, because minutes are not carried into hours |
| YouTube.DaysDisplayAsZero | src/lib/youtube.ts:62-64 | `P1DT2H` shows `0:00`, because the pattern needs "PT" to be adjacent |
| YouTube.Artist | src/lib/youtube.ts:37-43 | the artist is the trimmed text before the first " - " of the title, or the channel title when there is none |
| YouTube.ArtistOfDashedTitle | src/lib/youtube.ts:40-43 | for "a - rest" with no dash in a, the artist is a trimmed |
| YouTube.DurationText | src/lib/youtube.ts:50 | the duration text is the video's own when present and non-empty, and `PT0M0S` when the details entry, its duration or its text is missing or empty |
| YouTube.ViewCount | src/lib/youtube.ts:51 | the view count is the video's own when present, and 0 otherwise |
| YouTube.SearchResults | src/lib/youtube.ts:33-53 | one song per search hit, in order, with its id, title, thumbnail, artist, formatted duration and view count |
| YouTube.MissingDetails | src/lib/youtube.ts:33-53 | a hit without a details entry gets duration `0:00` and 0 views |
| Display.FormatTime | src/components/player/MusicPlayer.tsx:36-40 | the time display is minutes, a colon and two-digit seconds, and reads back as the same number of seconds |
| Display.FormatTimeInjective | src/components/player/MusicPlayer.tsx:36-40 | distinct times display differently |
| Display.ProgressPercent | src/components/player/MusicPlayer.tsx:60 | the progress is elapsed/duration × 100 for a positive duration and 0 otherwise, within 0..100 while inside the track |
| Display.ProgressClick | src/components/player/MusicPlayer.tsx:43-51 | a click is ignored without a bar or with a zero duration; otherwise it seeks to the clicked fraction of the duration, within the track |
| Display.SliderValue | src/components/player/MusicPlayer.tsx:172 | the volume slider shows 0 while muted and the stored volume otherwise |
| Display.SliderFollowsPlayer | src/components/player/MusicPlayer.tsx:172 | after mute, unmute or set-volume, the slider shows 0, the reported level or the new level |
| Display.Suggest | src/pages/SearchPage.tsx:43-59 | a blank query hides the suggestions; otherwise there are five, each the query followed by its suffix |
| Display.SuggestionsExtendQuery | src/pages/SearchPage.tsx:46-53 | each suggestion starts with the query exactly as typed and ends with its own suffix |
| Display.OnDebouncedQuery | src/pages/SearchPage.tsx:22-25 | a blank query clears the results without a request; any other query is requested as typed |

## Left out

- Network and I/O are not modelled: database requests and their latency, realtime subscriptions, sign-in, the YouTube Data API calls and loading the IFrame API script. A store write's success or failure is a `succeeded` parameter. A read is an `Option` over the in-memory table.
- Exceptions the store throws on errors are not modelled. The pages' try/catch branches are modelled through `succeeded`.
- The time-polling interval's timing (`src/contexts/PlayerContext.tsx:248-266`) is not modelled: it is a clock. One tick is `Player.PollTime`, with the reported time as a parameter; `duration` is set by the playing event.
- Stale React closures are not modelled. The `onStateChange` callback is created with only `state.repeatMode` as a dependency, so at run time it can read an old queue. The model reads the current state.
- Floating point is not modelled. Times and volumes are integers, and the progress percentage and click position are exact reals.
- `parseInt` precision is not modelled: digit runs of any length read back exactly.
- The view count arrives from the API as a string. The model takes it as an integer that is either present or absent.
- Store.GetPlaylists: does not model the descending `created_at` ordering of the query. The result is in table order.
- `deletePlaylist`, `getUserProfile`, `getPlayHistory` and the `onPlaylistsChanged` subscription are not modelled. They are plain reads and deletes with no logic beyond the query.
- `addToPlayHistory` is not modelled as a table write. `PlaySong` emits it as a `RecordPlay` effect when signed in.
- JsArray.Move: requires the source index to be in range. The model has no `undefined` list entries: `splice(from, 1)` with `from` past the end removes nothing and inserts `undefined`, which a `seq<Song>` cannot hold. A drag index can be past the end in the source, when a realtime refresh shrinks the list during a drag.
- PlaylistEditor.MoveSong: requires an in-range drag index, for the same reason as `JsArray.Move`.
- PlaylistEditor.Hover: requires the dragged item's index to lie inside the list, for the same reason as `JsArray.Move`. React DnD keeps `item.index` across renders (`src/pages/PlaylistPage.tsx:46`, `:56`), so a stale index past a list shortened by a realtime refresh is not modelled.
- Store.CreatePlaylist: takes the name as a string. The source's optional name (`undefined` when absent) is not modelled.
- `src/lib/genius.ts` (lyrics lookup) and the JSX layout are not part of this model.

## Findings

| source | as written | input that shows it | evidently intended | confidence | as-written member | corrected member |
|---|---|---|---|---|---|---|
| src/contexts/PlayerContext.tsx:111-112 | on ENDED without repeat-one, a non-empty queue always calls `playNext`. At the last song without repeat-all, `playNext` does nothing, so the `isPlaying: false` branch is skipped and the player stays marked as playing | queue [A], current song A, playing, repeat none, event ENDED | playback stops: `isPlaying` becomes false when nothing new starts | not executed | Player.EndedAtQueueEndKeepsPlaying | Player.OnStatus |
