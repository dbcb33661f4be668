/** The record and list logic of `src/lib/supabase-db.ts`: how playlist rows
    are read back (with `songs` defaulting to the empty list), which fields a
    partial update writes, and the list edits behind adding, removing and
    reordering songs. The hosted table is a sequence of rows; a query that
    filters on owner and identifier is a filter over that sequence. */
module Store {
  import opened Types
  import JsArray

  /** A stored playlist row. `songs` may be stored as null. */
  datatype PlaylistRow = PlaylistRow(
    id: string,
    name: string,
    userId: string,
    songs: Option<seq<Song>>,
    createdAt: string)

  type Table = seq<PlaylistRow>

  /** A playlist as the application sees it. */
  datatype Playlist = Playlist(id: string, name: string, createdAt: string, songs: seq<Song>)

  /** The row-to-record mapping of `getPlaylists` and `getPlaylistById`. */
  function FromRow(row: PlaylistRow): (p: Playlist)
    ensures p.id == row.id && p.name == row.name && p.createdAt == row.createdAt
    ensures row.songs.None? ==> p.songs == []
    ensures row.songs.Some? ==> p.songs == row.songs.value
  {
    Playlist(row.id, row.name, row.createdAt, row.songs.GetOr([]))
  }

  /** The query filter `id = playlistId and user_id = uid`. */
  predicate Matches(row: PlaylistRow, uid: string, pid: string) {
    row.id == pid && row.userId == uid
  }

  /** The rows the filtered query returns, in table order. */
  function Select(t: Table, uid: string, pid: string): (m: Table)
    ensures |m| <= |t|
    ensures forall i :: 0 <= i < |m| ==> Matches(m[i], uid, pid) && m[i] in t
    ensures forall i :: 0 <= i < |t| && Matches(t[i], uid, pid) ==> t[i] in m
  {
    if |t| == 0 then []
    else if Matches(t[0], uid, pid) then [t[0]] + Select(t[1..], uid, pid)
    else Select(t[1..], uid, pid)
  }

  /** The query returns each matching row exactly as often as the table
      holds it, and no other row; with `SelectAppend`, which fixes the
      order, this makes it the order-preserving filter. */
  lemma {:induction false} SelectCount(t: Table, uid: string, pid: string)
    ensures forall row :: multiset(Select(t, uid, pid))[row] == if Matches(row, uid, pid) then multiset(t)[row] else 0
    decreases |t|
  {
    if |t| > 0 {
      SelectCount(t[1..], uid, pid);
      assert t == [t[0]] + t[1..];
    }
  }

  /** `getPlaylistById`: `.single()` fails unless exactly one row matches,
      and a failure reads as null. */
  function GetPlaylistById(t: Table, uid: string, pid: string): (r: Option<Playlist>)
    ensures r.Some? <==> |Select(t, uid, pid)| == 1
    ensures r.Some? ==> r.value == FromRow(Select(t, uid, pid)[0])
    ensures r.Some? ==> r.value.id == pid
  {
    var m := Select(t, uid, pid);
    if |m| == 1 then Some(FromRow(m[0])) else None
  }

  /** The rows owned by a user, in table order. */
  function OwnedBy(t: Table, uid: string): (m: Table)
    ensures |m| <= |t|
    ensures forall i :: 0 <= i < |m| ==> m[i].userId == uid && m[i] in t
    ensures forall i :: 0 <= i < |t| && t[i].userId == uid ==> t[i] in m
  {
    if |t| == 0 then []
    else if t[0].userId == uid then [t[0]] + OwnedBy(t[1..], uid)
    else OwnedBy(t[1..], uid)
  }

  /** The user's listing holds each of the user's rows exactly as often as
      the table does, and no other row. */
  lemma {:induction false} OwnedByCount(t: Table, uid: string)
    ensures forall row :: multiset(OwnedBy(t, uid))[row] == if row.userId == uid then multiset(t)[row] else 0
    decreases |t|
  {
    if |t| > 0 {
      OwnedByCount(t[1..], uid);
      assert t == [t[0]] + t[1..];
    }
  }

  /** Listing the user's rows of a table with one row appended gives the
      old listing plus that row when the user owns it. */
  lemma {:induction false} OwnedByAppend(t: Table, row: PlaylistRow, uid: string)
    ensures OwnedBy(t + [row], uid) == OwnedBy(t, uid) + (if row.userId == uid then [row] else [])
    decreases |t|
  {
    if |t| > 0 {
      assert (t + [row])[1..] == t[1..] + [row];
      OwnedByAppend(t[1..], row, uid);
    } else {
      assert t + [row] == [row];
      assert [row][1..] == [];
    }
  }

  /** `getPlaylists`: every playlist of the user, `songs` defaulted. */
  function GetPlaylists(t: Table, uid: string): (ps: seq<Playlist>)
    ensures |ps| == |OwnedBy(t, uid)|
    ensures forall i :: 0 <= i < |ps| ==> ps[i] == FromRow(OwnedBy(t, uid)[i])
  {
    var rows := OwnedBy(t, uid);
    seq(|rows|, i requires 0 <= i < |rows| => FromRow(rows[i]))
  }

  // ---------------------------------------------------------------------
  // Partial updates

  /** `Partial<Playlist>`: any field may be absent. */
  datatype PlaylistDraft = PlaylistDraft(
    id: Option<string>,
    name: Option<string>,
    createdAt: Option<string>,
    songs: Option<seq<Song>>)

  const EmptyDraft := PlaylistDraft(None, None, None, None)

  /** The columns an update writes. */
  datatype PlaylistUpdate = PlaylistUpdate(name: Option<string>, songs: Option<seq<Song>>)

  /** `updatePlaylist`'s field selection: the name only when it is a
      non-empty string, the songs whenever given (an empty list is an
      object, hence truthy, so it is written too); no other field. */
  function UpdateFields(d: PlaylistDraft): (u: PlaylistUpdate)
    ensures u.name.Some? <==> d.name.Some? && d.name.value != ""
    ensures u.name.Some? ==> u.name == d.name
    ensures u.songs == d.songs
  {
    PlaylistUpdate(if d.name.Some? && d.name.value != "" then d.name else None, d.songs)
  }

  /** Writing an update into one row: only the written columns change. */
  function ApplyUpdate(row: PlaylistRow, u: PlaylistUpdate): (r: PlaylistRow)
    ensures r.id == row.id && r.userId == row.userId && r.createdAt == row.createdAt
    ensures r.name == u.name.GetOr(row.name)
    ensures r.songs == if u.songs.Some? then u.songs else row.songs
  {
    row.(name := u.name.GetOr(row.name), songs := if u.songs.Some? then u.songs else row.songs)
  }

  /** The update statement filtered on identifier and owner. */
  function UpdateRows(t: Table, uid: string, pid: string, u: PlaylistUpdate): (r: Table)
    ensures |r| == |t|
    ensures forall i :: 0 <= i < |t| && !Matches(t[i], uid, pid) ==> r[i] == t[i]
    ensures forall i :: 0 <= i < |t| && Matches(t[i], uid, pid) ==> r[i] == ApplyUpdate(t[i], u)
  {
    if |t| == 0 then []
    else [if Matches(t[0], uid, pid) then ApplyUpdate(t[0], u) else t[0]] + UpdateRows(t[1..], uid, pid, u)
  }

  /** `updatePlaylist(uid, playlistId, data)`. */
  function UpdatePlaylist(t: Table, uid: string, pid: string, d: PlaylistDraft): Table {
    UpdateRows(t, uid, pid, UpdateFields(d))
  }

  /** `reorderPlaylistSongs`: writes exactly the given list and nothing
      else. */
  function ReorderPlaylistSongs(t: Table, uid: string, pid: string, songs: seq<Song>): (r: Table)
    ensures r == UpdateRows(t, uid, pid, PlaylistUpdate(None, Some(songs)))
  {
    UpdatePlaylist(t, uid, pid, EmptyDraft.(songs := Some(songs)))
  }

  /** Every row of a list with the update written into it. */
  function UpdateEach(rows: Table, u: PlaylistUpdate): (r: Table)
    ensures |r| == |rows|
    ensures forall i :: 0 <= i < |rows| ==> r[i] == ApplyUpdate(rows[i], u)
  {
    if |rows| == 0 then [] else [ApplyUpdate(rows[0], u)] + UpdateEach(rows[1..], u)
  }

  /** An update keeps which rows match the filter: the query after the
      update returns the updated versions of the rows it returned before. */
  lemma {:induction false} SelectAfterUpdate(t: Table, uid: string, pid: string, u: PlaylistUpdate)
    ensures Select(UpdateRows(t, uid, pid, u), uid, pid) == UpdateEach(Select(t, uid, pid), u)
    decreases |t|
  {
    if |t| > 0 {
      var r := UpdateRows(t, uid, pid, u);
      assert r[1..] == UpdateRows(t[1..], uid, pid, u);
      SelectAfterUpdate(t[1..], uid, pid, u);
      if Matches(t[0], uid, pid) {
        var m := Select(t[1..], uid, pid);
        assert Select(t, uid, pid) == [t[0]] + m;
        assert ([t[0]] + m)[1..] == m;
      }
    }
  }

  /** Reading a playlist back after an update sees the written columns. */
  lemma {:induction false} ReadAfterUpdate(t: Table, uid: string, pid: string, u: PlaylistUpdate)
    ensures GetPlaylistById(UpdateRows(t, uid, pid, u), uid, pid).Some? == GetPlaylistById(t, uid, pid).Some?
    ensures GetPlaylistById(t, uid, pid).Some? ==>
              var p := GetPlaylistById(t, uid, pid).value;
              GetPlaylistById(UpdateRows(t, uid, pid, u), uid, pid).value
                == p.(name := u.name.GetOr(p.name), songs := u.songs.GetOr(p.songs))
  {
    SelectAfterUpdate(t, uid, pid, u);
  }

  // ---------------------------------------------------------------------
  // Song list edits

  /** `addSongToPlaylist`: read the playlist, append the song, write the
      list; nothing is written when the playlist is not found. */
  function AddSongToPlaylist(t: Table, uid: string, pid: string, song: Song): Table {
    match GetPlaylistById(t, uid, pid)
    case None => t
    case Some(p) => UpdatePlaylist(t, uid, pid, EmptyDraft.(songs := Some(p.songs + [song])))
  }

  /** `removeSongFromPlaylist`: read the playlist, `splice(index, 1)` a copy
      of its songs, write the list; nothing is written when the playlist is
      not found. */
  function RemoveSongFromPlaylist(t: Table, uid: string, pid: string, index: int): Table {
    match GetPlaylistById(t, uid, pid)
    case None => t
    case Some(p) => UpdatePlaylist(t, uid, pid, EmptyDraft.(songs := Some(JsArray.RemoveAt(p.songs, index))))
  }

  /** Adding writes the old list with the song appended, and leaves a
      missing playlist's table untouched. */
  lemma {:induction false} AddAppends(t: Table, uid: string, pid: string, song: Song)
    ensures GetPlaylistById(t, uid, pid).None? ==> AddSongToPlaylist(t, uid, pid, song) == t
    ensures GetPlaylistById(t, uid, pid).Some? ==>
              var p := GetPlaylistById(t, uid, pid).value;
              GetPlaylistById(AddSongToPlaylist(t, uid, pid, song), uid, pid) == Some(p.(songs := p.songs + [song]))
  {
    if GetPlaylistById(t, uid, pid).Some? {
      var p := GetPlaylistById(t, uid, pid).value;
      ReadAfterUpdate(t, uid, pid, PlaylistUpdate(None, Some(p.songs + [song])));
    }
  }

  /** Removing at an index inside the list writes the list without that
      element; at an index past the end it writes the list unchanged. */
  lemma {:induction false} RemoveDrops(t: Table, uid: string, pid: string, index: int)
    ensures GetPlaylistById(t, uid, pid).None? ==> RemoveSongFromPlaylist(t, uid, pid, index) == t
    ensures GetPlaylistById(t, uid, pid).Some? ==>
              var p := GetPlaylistById(t, uid, pid).value;
              var after := GetPlaylistById(RemoveSongFromPlaylist(t, uid, pid, index), uid, pid);
              && after == Some(p.(songs := JsArray.RemoveAt(p.songs, index)))
              && (0 <= index < |p.songs| ==> after == Some(p.(songs := p.songs[..index] + p.songs[index + 1..])))
              && (index >= |p.songs| ==> after == Some(p))
  {
    if GetPlaylistById(t, uid, pid).Some? {
      var p := GetPlaylistById(t, uid, pid).value;
      ReadAfterUpdate(t, uid, pid, PlaylistUpdate(None, Some(JsArray.RemoveAt(p.songs, index))));
      if 0 <= index < |p.songs| {
        JsArray.RemoveInRange(p.songs, index);
      } else if index >= |p.songs| {
        JsArray.RemovePastEnd(p.songs, index);
      }
    }
  }

  /** Removing the song just added restores the playlist as it was read. */
  lemma {:induction false} RemoveUndoesAdd(t: Table, uid: string, pid: string, song: Song)
    requires GetPlaylistById(t, uid, pid).Some?
    ensures var n := |GetPlaylistById(t, uid, pid).value.songs|;
            var t' := RemoveSongFromPlaylist(AddSongToPlaylist(t, uid, pid, song), uid, pid, n);
            GetPlaylistById(t', uid, pid) == GetPlaylistById(t, uid, pid)
  {
    var p := GetPlaylistById(t, uid, pid).value;
    var n := |p.songs|;
    AddAppends(t, uid, pid, song);
    var t1 := AddSongToPlaylist(t, uid, pid, song);
    var p1 := p.(songs := p.songs + [song]);
    assert GetPlaylistById(t1, uid, pid) == Some(p1);
    RemoveDrops(t1, uid, pid, n);
    assert p1.songs[..n] + p1.songs[n + 1..] == p.songs;
    assert p1.(songs := p.songs) == p;
  }

  /** A reorder writes exactly the given list into the matching playlist. */
  lemma {:induction false} ReorderWrites(t: Table, uid: string, pid: string, songs: seq<Song>)
    ensures GetPlaylistById(ReorderPlaylistSongs(t, uid, pid, songs), uid, pid).Some?
            == GetPlaylistById(t, uid, pid).Some?
    ensures GetPlaylistById(t, uid, pid).Some? ==>
              GetPlaylistById(ReorderPlaylistSongs(t, uid, pid, songs), uid, pid)
                == Some(GetPlaylistById(t, uid, pid).value.(songs := songs))
  {
    ReadAfterUpdate(t, uid, pid, PlaylistUpdate(None, Some(songs)));
  }

  // ---------------------------------------------------------------------
  // Inserts

  /** `createPlaylist`: a new row owned by the user with an empty song list.
      The store assigns the identifier and the clock gives the timestamp;
      both are parameters here. */
  function CreatePlaylist(t: Table, uid: string, name: string, newId: string, now: string): (r: Table)
    ensures |r| == |t| + 1 && r[..|t|] == t
    ensures r[|t|] == PlaylistRow(newId, name, uid, Some([]), now)
  {
    t + [PlaylistRow(newId, name, uid, Some([]), now)]
  }

  /** A playlist created under a fresh identifier reads back with its name
      and no songs. */
  lemma {:induction false} CreateThenRead(t: Table, uid: string, name: string, newId: string, now: string)
    requires forall i :: 0 <= i < |t| ==> t[i].id != newId
    ensures GetPlaylistById(CreatePlaylist(t, uid, name, newId, now), uid, newId)
            == Some(Playlist(newId, name, now, []))
  {
    var r := CreatePlaylist(t, uid, name, newId, now);
    SelectAppend(t, PlaylistRow(newId, name, uid, Some([]), now), uid, newId);
    SelectNone(t, uid, newId);
  }

  /** The query on a table with one row appended is the old result
      followed by that row when it matches: the result keeps table order. */
  lemma {:induction false} SelectAppend(t: Table, row: PlaylistRow, uid: string, pid: string)
    ensures Select(t + [row], uid, pid) == Select(t, uid, pid) + (if Matches(row, uid, pid) then [row] else [])
    decreases |t|
  {
    if |t| > 0 {
      assert (t + [row])[1..] == t[1..] + [row];
      SelectAppend(t[1..], row, uid, pid);
    } else {
      assert t + [row] == [row];
      assert [row][1..] == [];
    }
  }

  lemma SelectNone(t: Table, uid: string, pid: string)
    requires forall i :: 0 <= i < |t| ==> t[i].id != pid
    ensures Select(t, uid, pid) == []
  {
  }

  /** `Partial<User>` fields used when creating a profile. */
  datatype UserDraft = UserDraft(displayName: Option<string>, email: Option<string>, photoUrl: Option<string>)

  datatype UserRow = UserRow(id: string, displayName: string, email: string, photoUrl: string, createdAt: string)

  /** `value || fallback` on an optional string: absent and empty strings are
      both falsy. */
  function OrDefault(value: Option<string>, fallback: string): (r: string)
    ensures value.Some? && value.value != "" ==> r == value.value
    ensures value.None? || value.value == "" ==> r == fallback
  {
    if value.Some? && value.value != "" then value.value else fallback
  }

  /** `createUserProfile`: the upserted row, with 'User' as the display name
      and empty e-mail and photo when those are missing. */
  function CreateUserProfile(uid: string, d: UserDraft, now: string): (r: UserRow)
    ensures r.id == uid && r.createdAt == now
    ensures r.displayName != ""
    ensures r.displayName == OrDefault(d.displayName, "User")
    ensures r.email == OrDefault(d.email, "")
    ensures r.photoUrl == OrDefault(d.photoUrl, "")
  {
    UserRow(uid, OrDefault(d.displayName, "User"), OrDefault(d.email, ""), OrDefault(d.photoUrl, ""), now)
  }
}
