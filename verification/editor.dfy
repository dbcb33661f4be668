/** The playlist page of `src/pages/PlaylistPage.tsx`: the local copy of the
    playlist kept up to date by remote changes, play-all, rename, drag
    reordering with its revert on failure, removal, and the per-row play
    button. Writes to the store are returned as values (`Write`) and their
    outcome, which the page learns asynchronously, is a parameter. */
module PlaylistEditor {
  import opened Types
  import Text
  import JsArray
  import Store
  import Player

  datatype EditorState = EditorState(
    playlist: Option<Store.Playlist>,
    songs: seq<Song>,
    editedName: string,
    isEditing: bool,
    loading: bool)

  const InitialEditor := EditorState(None, [], "", false, true)

  /** The signed-in user's identifier, when signed in, and the playlist
      identifier taken from the route. */
  datatype Session = Session(user: Option<string>, routeId: Option<string>)

  /** `currentUser && id`: both present, the identifier non-empty. */
  predicate CanWrite(s: Session) {
    s.user.Some? && s.routeId.Some? && s.routeId.value != ""
  }

  /** A write issued to the store. */
  datatype Write =
    | WriteName(name: string)
    | WriteSongs(songs: seq<Song>)
    | RemoveAt(index: int)

  /** The table after a write, for the session's user and playlist. */
  function Persist(t: Store.Table, s: Session, w: Write): Store.Table
    requires CanWrite(s)
  {
    var uid, pid := s.user.value, s.routeId.value;
    match w
    case WriteName(n) => Store.UpdatePlaylist(t, uid, pid, Store.EmptyDraft.(name := Some(n)))
    case WriteSongs(q) => Store.ReorderPlaylistSongs(t, uid, pid, q)
    case RemoveAt(i) => Store.RemoveSongFromPlaylist(t, uid, pid, i)
  }

  // ---------------------------------------------------------------------
  // Remote changes

  /** The change-listener callback: the fetched record replaces the page's
      record, song list and edited name wholesale, and loading ends. A fetch
      that finds nothing does not call back. */
  function OnRemoteChange(st: EditorState, fetched: Option<Store.Playlist>): (r: EditorState)
    ensures fetched.None? ==> r == st
    ensures fetched.Some? ==>
              && r.playlist == fetched
              && r.songs == fetched.value.songs
              && r.editedName == fetched.value.name
              && !r.loading
              && r.isEditing == st.isEditing
  {
    match fetched
    case None => st
    case Some(p) => st.(playlist := Some(p), songs := p.songs, editedName := p.name, loading := false)
  }

  /** No merge: after a remote change the page state depends on the fetched
      record alone (and the editing flag), not on earlier local edits. */
  lemma {:induction false} RemoteChangeReplaces(a: EditorState, b: EditorState, p: Store.Playlist)
    requires a.isEditing == b.isEditing
    ensures OnRemoteChange(a, Some(p)) == OnRemoteChange(b, Some(p))
  {
  }

  // ---------------------------------------------------------------------
  // Play-all and the per-row play button

  /** `handlePlayAll`: with a loaded record and at least one song, play the
      first song with the whole list as the queue. */
  function PlayAll(st: EditorState): (r: Option<Player.Action>)
    ensures r.None? <==> st.playlist.None? || |st.songs| == 0
    ensures r.Some? ==> r.value == Player.Play(st.songs[0], Some(st.songs))
  {
    if st.playlist.None? || |st.songs| == 0 then None
    else Some(Player.Play(st.songs[0], Some(st.songs)))
  }

  /** Play-all starts the page's first song with the page's list as the
      queue, given a player and a playable first song. */
  lemma {:induction false} PlayAllStartsQueue(env: Player.Env, ps: Player.PlayerState, st: EditorState)
    requires env.playerPresent && st.playlist.Some? && |st.songs| > 0 && st.songs[0].videoId != ""
    ensures var r := Player.Apply(env, ps, PlayAll(st).value);
            && r.state.currentSong == Some(st.songs[0])
            && r.state.playlist == st.songs
            && r.effects[0] == Player.LoadVideo(st.songs[0].videoId)
  {
  }

  /** A row's play button: toggle when the row's song is the current one
      (same identifier), otherwise play it with the row's list as queue. */
  function RowPlay(current: Option<Song>, song: Song, queue: seq<Song>): (r: Player.Action)
    ensures current.Some? && current.value.videoId == song.videoId ==> r == Player.Toggle
    ensures current.None? || current.value.videoId != song.videoId ==> r == Player.Play(song, Some(queue))
  {
    if current.Some? && current.value.videoId == song.videoId then Player.Toggle
    else Player.Play(song, Some(queue))
  }

  /** Pressing a row's play button, as the player sees it: on the current
      song it pauses or resumes without touching the state; on another
      playable song it loads that song with the row's list as the queue.
      Either way the row's song is the current one afterwards. */
  lemma {:induction false} RowPlayEffect(env: Player.Env, ps: Player.PlayerState, song: Song, queue: seq<Song>)
    requires env.playerPresent
    ensures var r := Player.Apply(env, ps, RowPlay(ps.currentSong, song, queue));
            && (ps.currentSong.Some? && ps.currentSong.value.videoId == song.videoId ==>
                  r.state == ps && r.effects == [if ps.isPlaying then Player.PauseVideo else Player.PlayVideo])
            && (song.videoId != "" && (ps.currentSong.None? || ps.currentSong.value.videoId != song.videoId) ==>
                  r.state.currentSong == Some(song) && r.state.playlist == queue
                  && r.effects[0] == Player.LoadVideo(song.videoId))
            && (song.videoId != "" ==>
                  r.state.currentSong.Some? && r.state.currentSong.value.videoId == song.videoId)
  {
  }

  // ---------------------------------------------------------------------
  // Rename

  /** The result of a page action: the new page state and the write issued,
      if any. */
  datatype Outcome = Outcome(state: EditorState, write: Option<Write>)

  /** Whether `handleRename` skips the write: not signed in, no route
      identifier, a blank name, or the name already stored. */
  predicate RenameSkipped(st: EditorState, s: Session) {
    || !CanWrite(s)
    || Text.Trim(st.editedName) == ""
    || (st.playlist.Some? && st.editedName == st.playlist.value.name)
  }

  /** `handleRename`. A skipped rename closes the editor without writing;
      otherwise the untrimmed edited name is written, and the editor closes
      only when the write succeeds. */
  function Rename(st: EditorState, s: Session, succeeded: bool): (r: Outcome)
    ensures RenameSkipped(st, s) ==> r == Outcome(st.(isEditing := false), None)
    ensures !RenameSkipped(st, s) ==> r.write == Some(WriteName(st.editedName))
    ensures !RenameSkipped(st, s) ==> r.state == st.(isEditing := st.isEditing && !succeeded)
  {
    if RenameSkipped(st, s) then Outcome(st.(isEditing := false), None)
    else Outcome(st.(isEditing := st.isEditing && !succeeded), Some(WriteName(st.editedName)))
  }

  /** A rename that is not skipped stores exactly the edited name (spaces
      included) in the playlist, leaving its songs alone. */
  lemma {:induction false} RenameStoresName(t: Store.Table, st: EditorState, s: Session, succeeded: bool)
    requires !RenameSkipped(st, s)
    requires Store.GetPlaylistById(t, s.user.value, s.routeId.value).Some?
    ensures var w := Rename(st, s, succeeded).write.value;
            var p := Store.GetPlaylistById(t, s.user.value, s.routeId.value).value;
            Store.GetPlaylistById(Persist(t, s, w), s.user.value, s.routeId.value)
              == Some(p.(name := st.editedName))
  {
    Store.ReadAfterUpdate(t, s.user.value, s.routeId.value, Store.PlaylistUpdate(Some(st.editedName), None));
  }

  // ---------------------------------------------------------------------
  // Removing and reordering

  /** `handleRemoveSong`: ask the store to remove the song at `index`. The
      page's list changes only when the change listener reports back. */
  function RemoveSong(st: EditorState, s: Session, index: int): (r: Outcome)
    ensures r.state == st
    ensures r.write == if CanWrite(s) then Some(RemoveAt(index)) else None
  {
    Outcome(st, if CanWrite(s) then Some(RemoveAt(index)) else None)
  }

  /** `moveSong(dragIndex, hoverIndex)`: reorder the local list at once;
      when signed in on a route, write the new list, and when the write
      fails, revert to the last record received (or to no songs). The drag
      index is always the position of a rendered row. */
  function MoveSong(st: EditorState, s: Session, dragIndex: int, hoverIndex: int, succeeded: bool): (r: Outcome)
    requires 0 <= dragIndex < |st.songs|
    ensures !CanWrite(s) ==> r.write.None?
    ensures CanWrite(s) ==> r.write == Some(WriteSongs(JsArray.Move(st.songs, dragIndex, hoverIndex)))
    ensures CanWrite(s) && !succeeded ==>
              r.state == st.(songs := if st.playlist.Some? then st.playlist.value.songs else [])
    ensures !CanWrite(s) || succeeded ==>
              r.state == st.(songs := JsArray.Move(st.songs, dragIndex, hoverIndex))
  {
    var updated := JsArray.Move(st.songs, dragIndex, hoverIndex);
    if !CanWrite(s) then Outcome(st.(songs := updated), None)
    else if succeeded then Outcome(st.(songs := updated), Some(WriteSongs(updated)))
    else Outcome(st.(songs := if st.playlist.Some? then st.playlist.value.songs else []), Some(WriteSongs(updated)))
  }

  /** A move keeps the page's songs (as a multiset) and puts the dragged
      song at the hover position. */
  lemma {:induction false} MoveSongPermutes(st: EditorState, s: Session, dragIndex: int, hoverIndex: int)
    requires 0 <= dragIndex < |st.songs| && 0 <= hoverIndex < |st.songs|
    ensures var r := MoveSong(st, s, dragIndex, hoverIndex, true).state.songs;
            && |r| == |st.songs|
            && multiset(r) == multiset(st.songs)
            && r[hoverIndex] == st.songs[dragIndex]
  {
    JsArray.MovePermutes(st.songs, dragIndex, hoverIndex);
  }

  /** Dragging a song back to where it was restores the page's order. */
  lemma {:induction false} MoveSongBack(st: EditorState, s: Session, i: int, j: int)
    requires 0 <= i < |st.songs| && 0 <= j < |st.songs|
    ensures var mid := MoveSong(st, s, i, j, true).state;
            MoveSong(mid, s, j, i, true).state == st
  {
    JsArray.MoveBack(st.songs, i, j);
    JsArray.MovePermutes(st.songs, i, j);
  }

  /** The drag state of a row being dragged: its current index. */
  datatype Drag = Drag(index: int)

  /** The drop target's hover handler for the row at `hoverIndex`: nothing
      happens without a mounted row or over the dragged row itself;
      otherwise the song moves and the drag item takes the hover index. */
  function Hover(st: EditorState, s: Session, mounted: bool, item: Drag, hoverIndex: int, succeeded: bool): (r: (Outcome, Drag))
    requires 0 <= item.index < |st.songs|
    ensures !mounted || item.index == hoverIndex ==> r == (Outcome(st, None), item)
    ensures mounted && item.index != hoverIndex ==>
              r == (MoveSong(st, s, item.index, hoverIndex, succeeded), Drag(hoverIndex))
  {
    if !mounted || item.index == hoverIndex then (Outcome(st, None), item)
    else (MoveSong(st, s, item.index, hoverIndex, succeeded), Drag(hoverIndex))
  }

  /** A hover over the dragged row itself performs no move and no write,
      and a move onto the same index would not have changed the list
      anyway. */
  lemma {:induction false} HoverSelfIsNoop(st: EditorState, s: Session, mounted: bool, i: int, succeeded: bool)
    requires 0 <= i < |st.songs|
    ensures Hover(st, s, mounted, Drag(i), i, succeeded).0 == Outcome(st, None)
    ensures JsArray.Move(st.songs, i, i) == st.songs
  {
    JsArray.MoveShifts(st.songs, i, i);
  }

  /** The reorder write puts exactly the page's new order into the stored
      playlist. */
  lemma {:induction false} MoveSongStoresOrder(t: Store.Table, st: EditorState, s: Session, d: int, h: int, succeeded: bool)
    requires 0 <= d < |st.songs| && CanWrite(s)
    requires Store.GetPlaylistById(t, s.user.value, s.routeId.value).Some?
    ensures var w := MoveSong(st, s, d, h, succeeded).write.value;
            var p := Store.GetPlaylistById(t, s.user.value, s.routeId.value).value;
            Store.GetPlaylistById(Persist(t, s, w), s.user.value, s.routeId.value)
              == Some(p.(songs := JsArray.Move(st.songs, d, h)))
  {
    Store.ReorderWrites(t, s.user.value, s.routeId.value, JsArray.Move(st.songs, d, h));
  }

  // ---------------------------------------------------------------------
  // A whole editing session

  /** The session and the stored table the scenario below starts from. */
  const MixSession := Session(Some("u1"), Some("p1"))
  const MixTable: Store.Table := [Store.PlaylistRow("p1", "Mix", "u1", Some([]), "t0")]

  function MixWith(q: seq<Song>): Store.Playlist {
    Store.Playlist("p1", "Mix", "t0", q)
  }

  lemma {:induction false} MixAddTwo(a: Song, b: Song)
    ensures var t1 := Store.AddSongToPlaylist(MixTable, "u1", "p1", a);
            Store.GetPlaylistById(Store.AddSongToPlaylist(t1, "u1", "p1", b), "u1", "p1") == Some(MixWith([a, b]))
  {
    assert Store.Select(MixTable, "u1", "p1") == MixTable;
    assert Store.GetPlaylistById(MixTable, "u1", "p1") == Some(MixWith([]));
    Store.AddAppends(MixTable, "u1", "p1", a);
    assert [] + [a] == [a];
    var t1 := Store.AddSongToPlaylist(MixTable, "u1", "p1", a);
    assert Store.GetPlaylistById(t1, "u1", "p1") == Some(MixWith([a]));
    Store.AddAppends(t1, "u1", "p1", b);
    assert [a] + [b] == [a, b];
  }

  lemma {:induction false} MixMove(t: Store.Table, st: EditorState, a: Song, b: Song)
    requires st.songs == [a, b]
    requires Store.GetPlaylistById(t, "u1", "p1") == Some(MixWith([a, b]))
    ensures var moved := MoveSong(st, MixSession, 0, 1, true);
            && moved.state.songs == [b, a]
            && Store.GetPlaylistById(Persist(t, MixSession, moved.write.value), "u1", "p1") == Some(MixWith([b, a]))
  {
    JsArray.MoveShifts([a, b], 0, 1);
    assert JsArray.Move([a, b], 0, 1) == [b, a];
    Store.ReorderWrites(t, "u1", "p1", [b, a]);
  }

  lemma {:induction false} MixRemoveFirst(t: Store.Table, a: Song, b: Song)
    requires Store.GetPlaylistById(t, "u1", "p1") == Some(MixWith([b, a]))
    ensures Store.GetPlaylistById(Persist(t, MixSession, RemoveAt(0)), "u1", "p1") == Some(MixWith([a]))
  {
    Store.RemoveDrops(t, "u1", "p1", 0);
    assert [b, a][..0] + [b, a][1..] == [a];
  }

  /** Starting from an empty playlist: add A, add B, drag B above A, and
      remove the first song; each step is read back by the change listener.
      The page shows [A, B], then [B, A], then [A]. */
  lemma {:induction false} AddMoveRemoveScenario(a: Song, b: Song)
    ensures var s := MixSession;
            var t1 := Store.AddSongToPlaylist(MixTable, "u1", "p1", a);
            var t2 := Store.AddSongToPlaylist(t1, "u1", "p1", b);
            var st2 := OnRemoteChange(InitialEditor, Store.GetPlaylistById(t2, "u1", "p1"));
            var moved := MoveSong(st2, s, 0, 1, true);
            var t3 := Persist(t2, s, moved.write.value);
            var st3 := OnRemoteChange(moved.state, Store.GetPlaylistById(t3, "u1", "p1"));
            var t4 := Persist(t3, s, RemoveSong(st3, s, 0).write.value);
            var st4 := OnRemoteChange(st3, Store.GetPlaylistById(t4, "u1", "p1"));
            && st2.songs == [a, b]
            && st3.songs == [b, a]
            && st4.songs == [a]
            && st4.editedName == "Mix"
  {
    var t1 := Store.AddSongToPlaylist(MixTable, "u1", "p1", a);
    var t2 := Store.AddSongToPlaylist(t1, "u1", "p1", b);
    MixAddTwo(a, b);
    var st2 := OnRemoteChange(InitialEditor, Some(MixWith([a, b])));
    MixMove(t2, st2, a, b);
    var moved := MoveSong(st2, MixSession, 0, 1, true);
    var t3 := Persist(t2, MixSession, moved.write.value);
    MixRemoveFirst(t3, a, b);
  }
}
