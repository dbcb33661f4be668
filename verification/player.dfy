/** The playback coordinator of `src/contexts/PlayerContext.tsx`: the player
    state record, the user-facing transitions (play a song, toggle play,
    next, previous, seek, volume, mute, repeat) and the reactions to the
    embedded player's status and error callbacks.

    The embedded player handle is reduced to a flag saying whether it exists
    (`Env.playerPresent`); every call the source makes on it is returned as an
    `Effect`, in the order the source makes it. Appending to the play history
    is returned as an effect too. */
module Player {
  import opened Types

  datatype RepeatMode = NoRepeat | RepeatAll | RepeatOne

  datatype PlayerState = PlayerState(
    currentSong: Option<Song>,
    playlist: seq<Song>,
    isPlaying: bool,
    volume: int,
    isMuted: bool,
    currentTime: int,
    duration: int,
    isLoading: bool,
    repeatMode: RepeatMode)

  /** The state the provider starts with. */
  const InitialState := PlayerState(None, [], false, 80, false, 0, 0, false, NoRepeat)

  /** What the surroundings supply: whether the embedded player exists, and
      whether a user is signed in (plays are recorded in the history only
      then). */
  datatype Env = Env(playerPresent: bool, signedIn: bool)

  /** A call on the embedded player, or a play-history insert. */
  datatype Effect =
    | LoadVideo(videoId: string)
    | PlayVideo
    | PauseVideo
    | SeekTo(seconds: int)
    | SetPlayerVolume(level: int)
    | MutePlayer
    | UnmutePlayer
    | RecordPlay(song: Song)

  /** The state after a transition and the effects it issued, in order. */
  datatype Step = Step(state: PlayerState, effects: seq<Effect>)

  /** Every field other than the current song, the queue and the loading
      flag is the same in both states. */
  predicate SameSettings(a: PlayerState, b: PlayerState) {
    && a.isPlaying == b.isPlaying
    && a.volume == b.volume
    && a.isMuted == b.isMuted
    && a.currentTime == b.currentTime
    && a.duration == b.duration
    && a.repeatMode == b.repeatMode
  }

  // ---------------------------------------------------------------------
  // Queue position

  /** `queue.findIndex(song => song.videoId === id)`: the first position
      holding the identifier, or None when no song has it. */
  function FindIndex(q: seq<Song>, id: string): (r: Option<nat>)
    ensures r.Some? ==> r.value < |q| && IdAt(q, r.value) == id
    ensures r.Some? ==> forall j :: 0 <= j < r.value ==> IdAt(q, j) != id
    ensures r.None? <==> forall j :: 0 <= j < |q| ==> IdAt(q, j) != id
  {
    FindIndexFrom(q, id, 0)
  }

  /** The scan behind `FindIndex`, from position `k` on. */
  function FindIndexFrom(q: seq<Song>, id: string, k: nat): (r: Option<nat>)
    requires k <= |q|
    ensures r.Some? ==> k <= r.value < |q| && IdAt(q, r.value) == id
    ensures r.Some? ==> forall j :: k <= j < r.value ==> IdAt(q, j) != id
    ensures r.None? <==> forall j :: k <= j < |q| ==> IdAt(q, j) != id
    decreases |q| - k
  {
    if k == |q| then None
    else if q[k].videoId == id then Some(k)
    else FindIndexFrom(q, id, k + 1)
  }

  /** With distinct identifiers, the position of a queued song is where it
      sits. */
  lemma {:induction false} FindIndexDistinct(q: seq<Song>, k: nat)
    requires DistinctIds(q) && k < |q|
    ensures FindIndex(q, q[k].videoId) == Some(k)
  {
    assert IdAt(q, k) == q[k].videoId;
    var r := FindIndex(q, q[k].videoId);
    assert forall j :: 0 <= j < k ==> IdAt(q, j) != IdAt(q, k);
  }

  // ---------------------------------------------------------------------
  // User-facing transitions

  /** `playSong(song, playlist)`: with a player and a non-empty identifier,
      make the song current, take the given queue (or none), mark loading and
      load the video, then record the play when signed in. Otherwise nothing
      happens. */
  function PlaySong(env: Env, s: PlayerState, song: Song, queue: Option<seq<Song>>): (r: Step)
    ensures !env.playerPresent || song.videoId == "" ==> r == Step(s, [])
    ensures env.playerPresent && song.videoId != "" ==>
              && r.state.currentSong == Some(song)
              && r.state.playlist == queue.GetOr([])
              && r.state.isLoading
              && SameSettings(s, r.state)
              && |r.effects| == (if env.signedIn then 2 else 1)
              && r.effects[0] == LoadVideo(song.videoId)
              && (env.signedIn ==> r.effects[1] == RecordPlay(song))
  {
    if !env.playerPresent || song.videoId == "" then
      Step(s, [])
    else
      Step(s.(currentSong := Some(song), playlist := queue.GetOr([]), isLoading := true),
           [LoadVideo(song.videoId)] + (if env.signedIn then [RecordPlay(song)] else []))
  }

  /** `togglePlay()`: ask the player to pause when playing and to play
      otherwise; the flag itself changes only when the player reports back. */
  function TogglePlay(env: Env, s: PlayerState): (r: Step)
    ensures r.state == s
    ensures !env.playerPresent || s.currentSong.None? ==> r.effects == []
    ensures env.playerPresent && s.currentSong.Some? ==>
              r.effects == [if s.isPlaying then PauseVideo else PlayVideo]
  {
    if !env.playerPresent || s.currentSong.None? then Step(s, [])
    else if s.isPlaying then Step(s, [PauseVideo])
    else Step(s, [PlayVideo])
  }

  /** The part of the player state that next navigates: the current song,
      the queue, and the repeat mode. */
  datatype Cursor = Cursor(current: Option<Song>, queue: seq<Song>, mode: RepeatMode)

  function CursorOf(s: PlayerState): Cursor {
    Cursor(s.currentSong, s.playlist, s.repeatMode)
  }

  /** The song `playNext()` starts: the one after the first queued song with
      the current identifier; the head of the queue under repeat-all when
      the current song is queued last or not at all; and none when there is
      no current song or the queue is empty. The target is always a queued
      song. */
  function NextTarget(c: Cursor): (r: Option<Song>)
    ensures r.Some? ==> r.value in c.queue
  {
    if c.current.None? || |c.queue| == 0 then
      None
    else
      var q := c.queue;
      var i := FindIndex(q, c.current.value.videoId);
      if i.Some? && i.value < |q| - 1 then Some(q[i.value + 1])
      else if c.mode == RepeatAll then Some(q[0])
      else None
  }

  /** `playNext()`: play the target with the queue kept, or do nothing. */
  function PlayNext(env: Env, s: PlayerState): (r: Step)
    ensures r.state.playlist == s.playlist && r.state.repeatMode == s.repeatMode
  {
    match NextTarget(CursorOf(s))
    case None => Step(s, [])
    case Some(song) => PlaySong(env, s, song, Some(s.playlist))
  }

  /** `playPrevious()`. */
  function PlayPrevious(env: Env, s: PlayerState): Step {
    if s.currentSong.None? || |s.playlist| == 0 then
      Step(s, [])
    else if s.currentTime > 3 then
      Step(s, if env.playerPresent then [SeekTo(0), PlayVideo] else [])
    else
      var q := s.playlist;
      var i := FindIndex(q, s.currentSong.value.videoId);
      if i.Some? && i.value > 0 then
        PlaySong(env, s, q[i.value - 1], Some(q))
      else if s.repeatMode == RepeatAll then
        PlaySong(env, s, q[|q| - 1], Some(q))
      else
        Step(s, [])
  }

  /** `seekTo(time)`: passed to the player; the position shown is updated
      only by polling the player. */
  function Seek(env: Env, s: PlayerState, time: int): (r: Step)
    ensures r.state == s
    ensures r.effects == if env.playerPresent then [SeekTo(time)] else []
  {
    Step(s, if env.playerPresent then [SeekTo(time)] else [])
  }

  /** `setVolume(v)`: with a player, store the level and mute exactly when
      the level is zero; without a player nothing changes. */
  function SetVolume(env: Env, s: PlayerState, level: int): (r: Step)
    ensures !env.playerPresent ==> r == Step(s, [])
    ensures env.playerPresent ==>
              && r.state.volume == level
              && (r.state.isMuted <==> level == 0)
              && r.state == s.(volume := level, isMuted := r.state.isMuted)
              && r.effects == [SetPlayerVolume(level)]
  {
    if !env.playerPresent then Step(s, [])
    else Step(s.(volume := level, isMuted := level == 0), [SetPlayerVolume(level)])
  }

  /** `toggleMute()`: unmuting reads the level back from the player
      (`reportedVolume`); muting keeps the stored level. */
  function ToggleMute(env: Env, s: PlayerState, reportedVolume: int): (r: Step)
    ensures !env.playerPresent ==> r == Step(s, [])
    ensures env.playerPresent ==> r.state.isMuted == !s.isMuted
    ensures env.playerPresent && s.isMuted ==>
              r.state == s.(isMuted := false, volume := reportedVolume) && r.effects == [UnmutePlayer]
    ensures env.playerPresent && !s.isMuted ==>
              r.state == s.(isMuted := true) && r.effects == [MutePlayer]
  {
    if !env.playerPresent then Step(s, [])
    else if s.isMuted then Step(s.(isMuted := false, volume := reportedVolume), [UnmutePlayer])
    else Step(s.(isMuted := true), [MutePlayer])
  }

  function NextRepeatMode(m: RepeatMode): RepeatMode {
    match m
    case NoRepeat => RepeatAll
    case RepeatAll => RepeatOne
    case RepeatOne => NoRepeat
  }

  /** `toggleRepeat()`: only the repeat mode changes, and it always changes. */
  function ToggleRepeat(s: PlayerState): (r: PlayerState)
    ensures r.repeatMode != s.repeatMode
    ensures r == s.(repeatMode := r.repeatMode)
  {
    s.(repeatMode := NextRepeatMode(s.repeatMode))
  }

  /** Repeat cycles none, all, one, and back to none: three toggles are the
      identity and every mode is reached. */
  lemma {:induction false} RepeatCycle(s: PlayerState)
    ensures s.repeatMode == NoRepeat ==> ToggleRepeat(s).repeatMode == RepeatAll
    ensures s.repeatMode == RepeatAll ==> ToggleRepeat(s).repeatMode == RepeatOne
    ensures s.repeatMode == RepeatOne ==> ToggleRepeat(s).repeatMode == NoRepeat
    ensures ToggleRepeat(ToggleRepeat(ToggleRepeat(s))) == s
  {
  }

  // ---------------------------------------------------------------------
  // Callbacks from the embedded player

  /** The player's status codes: -1 unstarted, 0 ended, 1 playing, 2 paused,
      3 buffering, 5 cued. Playing carries the duration the player reports. */
  datatype PlayerEvent = Unstarted | Ended | Playing(reportedDuration: int) | Paused | Buffering | Cued

  /** `onStateChange`, deciding on the state as it is now. */
  function OnStateChange(env: Env, s: PlayerState, e: PlayerEvent): Step {
    match e
    case Playing(d) => Step(s.(isPlaying := true, duration := d), [])
    case Paused => Step(s.(isPlaying := false), [])
    case Ended =>
      if s.repeatMode == RepeatOne then Step(s, [SeekTo(0), PlayVideo])
      else if s.repeatMode == RepeatAll || |s.playlist| > 0 then PlayNext(env, s)
      else Step(s.(isPlaying := false), [])
    case _ => Step(s, [])
  }

  /** The end-of-track branch of `onStateChange` as written, on the last
      song of the queue with repeat off: it calls next, next finds nothing
      to play, and the state keeps saying the song is playing although the
      player has stopped. */
  lemma {:induction false} EndedAtQueueEndKeepsPlaying()
    ensures var song := Song("a", "A", "B", "", "3:00", None);
            var s := InitialState.(currentSong := Some(song), playlist := [song], isPlaying := true);
            var r := OnStateChange(Env(true, false), s, Ended);
            r.state.isPlaying && r.effects == []
  {
  }

  /** `onStateChange` with the end-of-track branch stopping playback when
      nothing new was started: the playing flag survives the end of a track
      only when the track was replayed or another one was loaded. Every
      other reaction is the one written in the source. */
  function OnStatus(env: Env, s: PlayerState, e: PlayerEvent): (r: Step)
    ensures e == Ended && r.state.isPlaying ==> r.effects != []
    ensures e == Ended && r.effects == [] ==> r.state == s.(isPlaying := false)
    ensures e != Ended ==> r == OnStateChange(env, s, e)
    ensures OnStateChange(env, s, e).effects != [] ==> r == OnStateChange(env, s, e)
  {
    var written := OnStateChange(env, s, e);
    if e == Ended && written.effects == [] then Step(s.(isPlaying := false), [])
    else written
  }

  /** The reactions to each player status, as written: playing sets the
      flag and takes the reported duration, pause clears the flag, the end
      of a track restarts it in place under repeat-one (a seek and a play,
      no new load), advances under repeat-all or with a queue, and otherwise
      clears the flag; the other statuses change nothing. */
  lemma {:induction false} StatusEvents(env: Env, s: PlayerState, d: int)
    ensures OnStateChange(env, s, Playing(d)) == Step(s.(isPlaying := true, duration := d), [])
    ensures OnStateChange(env, s, Paused) == Step(s.(isPlaying := false), [])
    ensures s.repeatMode == RepeatOne ==> OnStateChange(env, s, Ended) == Step(s, [SeekTo(0), PlayVideo])
    ensures s.repeatMode != RepeatOne && (s.repeatMode == RepeatAll || |s.playlist| > 0) ==>
              OnStateChange(env, s, Ended) == PlayNext(env, s)
    ensures s.repeatMode == NoRepeat && |s.playlist| == 0 ==>
              OnStateChange(env, s, Ended) == Step(s.(isPlaying := false), [])
    ensures forall e :: e in {Unstarted, Buffering, Cued} ==> OnStateChange(env, s, e) == Step(s, [])
  {
  }

  /** Playing A from the queue [A, B, C] and reaching its end under
      repeat-one keeps A current and replays it from the start without
      loading it again. */
  lemma {:induction false} RepeatOneReplaysInPlace(env: Env, s: PlayerState, a: Song, b: Song, c: Song)
    requires env.playerPresent && a.videoId != "" && s.repeatMode == RepeatOne
    ensures var played := PlaySong(env, s, a, Some([a, b, c])).state;
            var r := OnStateChange(env, played, Ended);
            && r.state == played
            && r.state.currentSong == Some(a)
            && r.effects == [SeekTo(0), PlayVideo]
  {
  }

  /** `onError`: loading and playing both stop. */
  function OnError(s: PlayerState): (r: PlayerState)
    ensures !r.isLoading && !r.isPlaying
    ensures r.currentSong == s.currentSong && r.playlist == s.playlist
    ensures r == s.(isLoading := false, isPlaying := false)
  {
    s.(isLoading := false, isPlaying := false)
  }

  /** `onReady`: loading ends and volume and mute are read from the player. */
  function OnReady(s: PlayerState, reportedVolume: int, reportedMuted: bool): (r: PlayerState)
    ensures !r.isLoading && r.volume == reportedVolume && r.isMuted == reportedMuted
    ensures r == s.(isLoading := false, volume := reportedVolume, isMuted := reportedMuted)
  {
    s.(isLoading := false, volume := reportedVolume, isMuted := reportedMuted)
  }

  /** `initPlayer` marks loading while the player API loads, and clears the
      mark again when loading fails. */
  function InitStarted(s: PlayerState): (r: PlayerState)
    ensures r.isLoading && r == s.(isLoading := r.isLoading)
  {
    s.(isLoading := true)
  }

  function InitFailed(s: PlayerState): (r: PlayerState)
    ensures !r.isLoading && r == s.(isLoading := r.isLoading)
  {
    s.(isLoading := false)
  }

  /** One tick of the time poll, which runs only while a player exists and
      a song is playing: the state takes the time the player reports. */
  function PollTime(env: Env, s: PlayerState, reportedTime: int): (r: PlayerState)
    ensures env.playerPresent && s.isPlaying ==> r.currentTime == reportedTime
    ensures r == s.(currentTime := r.currentTime)
    ensures !(env.playerPresent && s.isPlaying) ==> r == s
  {
    if env.playerPresent && s.isPlaying then s.(currentTime := reportedTime) else s
  }

  // ---------------------------------------------------------------------
  // Next and previous, case by case

  /** The first queued song with the current identifier sits before the last
      position: next plays the song after it, keeping the queue. */
  lemma {:induction false} NextAdvances(env: Env, s: PlayerState, i: nat)
    requires s.currentSong.Some?
    requires i < |s.playlist| - 1
    requires s.playlist[i].videoId == s.currentSong.value.videoId
    requires forall j :: 0 <= j < i ==> s.playlist[j].videoId != s.currentSong.value.videoId
    ensures PlayNext(env, s) == PlaySong(env, s, s.playlist[i + 1], Some(s.playlist))
  {
    assert IdAt(s.playlist, i) == s.currentSong.value.videoId;
  }

  /** The current song is first found at the last position, or not at all:
      next wraps to the head of the queue under repeat-all and does nothing
      under any other mode (the playing flag is left as it was). */
  lemma {:induction false} NextAtEnd(env: Env, s: PlayerState)
    requires s.currentSong.Some? && |s.playlist| > 0
    requires var q, id := s.playlist, s.currentSong.value.videoId;
             (forall j :: 0 <= j < |q| ==> q[j].videoId != id)
             || (q[|q| - 1].videoId == id && forall j :: 0 <= j < |q| - 1 ==> q[j].videoId != id)
    ensures s.repeatMode == RepeatAll ==> PlayNext(env, s) == PlaySong(env, s, s.playlist[0], Some(s.playlist))
    ensures s.repeatMode != RepeatAll ==> PlayNext(env, s) == Step(s, [])
  {
  }

  /** With no current song or an empty queue, next and previous do nothing. */
  lemma {:induction false} NextPreviousIdle(env: Env, s: PlayerState)
    requires s.currentSong.None? || |s.playlist| == 0
    ensures PlayNext(env, s) == Step(s, [])
    ensures PlayPrevious(env, s) == Step(s, [])
  {
  }

  /** More than three seconds in, previous restarts the current song: seek
      to 0 and play, with the state untouched. */
  lemma {:induction false} PreviousRestarts(env: Env, s: PlayerState)
    requires s.currentSong.Some? && |s.playlist| > 0 && s.currentTime > 3
    ensures PlayPrevious(env, s).state == s
    ensures PlayPrevious(env, s).effects == if env.playerPresent then [SeekTo(0), PlayVideo] else []
  {
  }

  /** Within the first three seconds and with the current song first found
      after the head, previous plays the song before it. */
  lemma {:induction false} PreviousGoesBack(env: Env, s: PlayerState, i: nat)
    requires s.currentSong.Some? && s.currentTime <= 3
    requires 0 < i < |s.playlist|
    requires s.playlist[i].videoId == s.currentSong.value.videoId
    requires forall j :: 0 <= j < i ==> s.playlist[j].videoId != s.currentSong.value.videoId
    ensures PlayPrevious(env, s) == PlaySong(env, s, s.playlist[i - 1], Some(s.playlist))
  {
    assert IdAt(s.playlist, i) == s.currentSong.value.videoId;
  }

  /** Within the first three seconds, at the head of the queue or not in it,
      previous wraps to the last song under repeat-all and otherwise does
      nothing. */
  lemma {:induction false} PreviousAtStart(env: Env, s: PlayerState)
    requires s.currentSong.Some? && |s.playlist| > 0 && s.currentTime <= 3
    requires var q, id := s.playlist, s.currentSong.value.videoId;
             q[0].videoId == id || forall j :: 0 <= j < |q| ==> q[j].videoId != id
    ensures s.repeatMode == RepeatAll ==>
              PlayPrevious(env, s) == PlaySong(env, s, s.playlist[|s.playlist| - 1], Some(s.playlist))
    ensures s.repeatMode != RepeatAll ==> PlayPrevious(env, s) == Step(s, [])
  {
  }

  // ---------------------------------------------------------------------
  // Walking the queue

  /** The state after pressing next `n` times. */
  function NextTimes(env: Env, s: PlayerState, n: nat): (r: PlayerState)
    ensures r.playlist == s.playlist && r.repeatMode == s.repeatMode
    decreases n
  {
    if n == 0 then s else PlayNext(env, NextTimes(env, s, n - 1)).state
  }

  /** A queue the player can walk: a player exists and the queued songs have
      distinct, non-empty identifiers. */
  predicate Walkable(env: Env, s: PlayerState) {
    env.playerPresent && DistinctIds(s.playlist) && PlayableIds(s.playlist)
  }

  /** Pressing next `a + b` times is pressing it `a` times, then `b` times. */
  lemma {:induction false} NextTimesSplit(env: Env, s: PlayerState, a: nat, b: nat)
    ensures NextTimes(env, s, a + b) == NextTimes(env, NextTimes(env, s, a), b)
    decreases b
  {
    if b > 0 {
      NextTimesSplit(env, s, a, b - 1);
      var before := NextTimes(env, s, a + (b - 1));
      assert before == NextTimes(env, NextTimes(env, s, a), b - 1);
      assert NextTimes(env, s, a + b) == PlayNext(env, before).state;
    }
  }

  // Where next moves the cursor, apart from the rest of the state

  /** The cursor after one press of next, when the target can be played. */
  function Skip(c: Cursor): (r: Cursor)
    ensures r.queue == c.queue && r.mode == c.mode
  {
    match NextTarget(c)
    case None => c
    case Some(song) => c.(current := Some(song))
  }

  /** The cursor after `n` presses. */
  function SkipTimes(c: Cursor, n: nat): (r: Cursor)
    ensures r.queue == c.queue && r.mode == c.mode
    decreases n
  {
    if n == 0 then c else Skip(SkipTimes(c, n - 1))
  }

  /** With a player and a queue of playable songs, one press of next moves
      the player's cursor exactly as `Skip` does. */
  lemma {:induction false} NextFollowsSkip(env: Env, s: PlayerState)
    requires env.playerPresent && PlayableIds(s.playlist)
    ensures CursorOf(PlayNext(env, s).state) == Skip(CursorOf(s))
  {
  }

  /** With a player and a queue of playable songs, `n` presses of next move
      the player's cursor as `n` skips do. */
  lemma {:induction false} NextTimesSkips(env: Env, s: PlayerState, n: nat)
    requires env.playerPresent && PlayableIds(s.playlist)
    ensures CursorOf(NextTimes(env, s, n)) == SkipTimes(CursorOf(s), n)
    decreases n
  {
    if n > 0 {
      NextTimesSkips(env, s, n - 1);
      NextFollowsSkip(env, NextTimes(env, s, n - 1));
    }
  }

  /** One skip from the song at position `k` of a queue with distinct
      identifiers. */
  lemma {:induction false} SkipFrom(c: Cursor, k: nat)
    requires DistinctIds(c.queue) && k < |c.queue| && c.current == Some(c.queue[k])
    ensures k + 1 < |c.queue| ==> Skip(c).current == Some(c.queue[k + 1])
    ensures k + 1 == |c.queue| && c.mode == RepeatAll ==> Skip(c).current == Some(c.queue[0])
    ensures k + 1 == |c.queue| && c.mode != RepeatAll ==> Skip(c) == c
  {
    FindIndexDistinct(c.queue, k);
  }

  /** `n` skips from position `k` that stay inside the queue reach position
      `k + n`. */
  lemma {:induction false} SkipForward(c: Cursor, k: nat, n: nat)
    requires DistinctIds(c.queue) && k + n < |c.queue| && c.current == Some(c.queue[k])
    ensures SkipTimes(c, n).current == Some(c.queue[k + n])
    decreases n
  {
    if n > 0 {
      SkipForward(c, k, n - 1);
      SkipTimesStep(c, k + (n - 1), k + n, n);
    } else {
      assert SkipTimes(c, 0) == c;
    }
  }

  /** The last of `n` skips, from song `j` inside the queue, goes to the
      next song `i`. */
  lemma SkipTimesStep(c: Cursor, j: nat, i: nat, n: nat)
    requires n > 0 && DistinctIds(c.queue) && i == j + 1 && i < |c.queue|
    requires SkipTimes(c, n - 1).current == Some(c.queue[j])
    ensures SkipTimes(c, n).current == Some(c.queue[i])
  {
    SkipFrom(SkipTimes(c, n - 1), j);
  }

  /** Pressing next `n` times from position `k` without running off the end
      reaches position `k + n`, in queue order, whatever the repeat mode. */
  lemma {:induction false} WalkForward(env: Env, s: PlayerState, k: nat, n: nat)
    requires Walkable(env, s) && k + n < |s.playlist| && s.currentSong == Some(s.playlist[k])
    ensures NextTimes(env, s, n).currentSong == Some(s.playlist[k + n])
    ensures NextTimes(env, s, n).playlist == s.playlist
  {
    NextTimesSkips(env, s, n);
    SkipForward(CursorOf(s), k, n);
  }

  /** One press of next from the last song, with repeat off. */
  lemma {:induction false} NextAtLast(env: Env, s: PlayerState)
    requires Walkable(env, s) && |s.playlist| > 0 && s.repeatMode == NoRepeat
    requires s.currentSong == Some(s.playlist[|s.playlist| - 1])
    ensures PlayNext(env, s) == Step(s, [])
  {
    FindIndexDistinct(s.playlist, |s.playlist| - 1);
  }

  /** Once on the last song with repeat off, next changes nothing, however
      often it is pressed. */
  lemma {:induction false} StaysAtEnd(env: Env, s: PlayerState, n: nat)
    requires Walkable(env, s) && |s.playlist| > 0 && s.repeatMode == NoRepeat
    requires s.currentSong == Some(s.playlist[|s.playlist| - 1])
    ensures NextTimes(env, s, n) == s
    decreases n
  {
    if n > 0 {
      StaysAtEnd(env, s, n - 1);
      NextAtLast(env, s);
    }
  }

  /** Without repeat, skips from the head of the queue that reach or pass
      its end rest on the last song. */
  lemma {:induction false} SkipToEnd(c: Cursor, n: nat)
    requires DistinctIds(c.queue) && |c.queue| > 0 && c.mode == NoRepeat
    requires c.current == Some(c.queue[0]) && n >= |c.queue| - 1
    ensures SkipTimes(c, n).current == Some(c.queue[|c.queue| - 1])
    decreases n
  {
    var last := |c.queue| - 1;
    if n == last {
      SkipForward(c, 0, last);
    } else {
      SkipToEnd(c, n - 1);
      SkipFrom(SkipTimes(c, n - 1), last);
    }
  }

  /** Without repeat, skips from the head of the queue visit it in order,
      reach the last song after |queue| - 1 skips, and stay there. */
  lemma {:induction false} SkipNoRepeat(c: Cursor, n: nat)
    requires DistinctIds(c.queue) && |c.queue| > 0 && c.mode == NoRepeat
    requires c.current == Some(c.queue[0])
    ensures n < |c.queue| ==> SkipTimes(c, n).current == Some(c.queue[n])
    ensures n >= |c.queue| - 1 ==> SkipTimes(c, n).current == Some(c.queue[|c.queue| - 1])
  {
    var last := |c.queue| - 1;
    if n < last {
      SkipForward(c, 0, n);
    } else if n == last {
      SkipForward(c, 0, last);
    } else {
      SkipToEnd(c, n);
    }
  }

  /** With repeat off, starting at the head of the queue, next visits the
      queue in order, reaches the last song after |queue| - 1 presses, and
      stays there. */
  lemma {:induction false} NoRepeatWalk(env: Env, s: PlayerState, n: nat)
    requires Walkable(env, s) && |s.playlist| > 0 && s.repeatMode == NoRepeat
    requires s.currentSong == Some(s.playlist[0])
    ensures n < |s.playlist| ==> NextTimes(env, s, n).currentSong == Some(s.playlist[n])
    ensures n >= |s.playlist| - 1 ==>
              NextTimes(env, s, n).currentSong == Some(s.playlist[|s.playlist| - 1])
  {
    NextTimesSkips(env, s, n);
    SkipNoRepeat(CursorOf(s), n);
  }

  /** The position after `k` in a cyclic queue of length `len`. */
  function Succ(k: nat, len: nat): nat {
    if k + 1 < len then k + 1 else 0
  }

  /** The position `n` steps after `k` in a cyclic queue. */
  function Advance(k: nat, n: nat, len: nat): nat
    decreases n
  {
    if n == 0 then k else Succ(Advance(k, n - 1, len), len)
  }

  /** Stepping around a cycle is addition modulo its length. */
  lemma {:induction false} AdvanceMod(k: nat, n: nat, len: nat)
    requires k < len
    ensures Advance(k, n, len) == (k + n) % len
    decreases n
  {
    if n == 0 {
      ModUnique(k, len, 0, k);
    } else {
      AdvanceMod(k, n - 1, len);
      SuccMod(k + (n - 1), len);
      assert k + (n - 1) + 1 == k + n;
    }
  }

  /** The successor of a remainder is the remainder of the successor. */
  lemma {:induction false} SuccMod(x: nat, len: nat)
    requires len > 0
    ensures Succ(x % len, len) == (x + 1) % len
  {
    var q, r := x / len, x % len;
    assert x == q * len + r;
    if r + 1 < len {
      ModUnique(x + 1, len, q, r + 1);
    } else {
      MulSucc(q, len);
      ModUnique(x + 1, len, q + 1, 0);
    }
  }

  lemma {:induction false} MulSucc(q: int, d: int)
    ensures (q + 1) * d == q * d + d
  {
  }

  /** Remainders are unique. */
  lemma {:induction false} ModUnique(a: int, d: int, q: int, r: int)
    requires d > 0 && 0 <= r < d && a == q * d + r
    ensures a % d == r
  {
    var q', r' := a / d, a % d;
    assert a == q' * d + r';
    if q' < q {
      assert q * d - q' * d == (q - q') * d;
      MulAtLeast(q - q', d);
    } else if q' > q {
      assert q' * d - q * d == (q' - q) * d;
      MulAtLeast(q' - q, d);
    }
  }

  lemma {:induction false} MulAtLeast(m: int, d: int)
    requires m >= 1 && d > 0
    ensures m * d >= d
  {
  }

  /** Under repeat-all, `n` skips from position `k` reach the position `n`
      steps further round the queue. */
  lemma {:induction false} SkipRepeatAll(c: Cursor, k: nat, n: nat)
    requires DistinctIds(c.queue) && k < |c.queue| && c.mode == RepeatAll
    requires c.current == Some(c.queue[k])
    ensures Advance(k, n, |c.queue|) < |c.queue|
    ensures SkipTimes(c, n).current == Some(c.queue[Advance(k, n, |c.queue|)])
    decreases n
  {
    if n > 0 {
      SkipRepeatAll(c, k, n - 1);
      SkipFrom(SkipTimes(c, n - 1), Advance(k, n - 1, |c.queue|));
    }
  }

  /** With repeat-all, next cycles through the queue forever: `n` presses
      from position `k` land on position `(k + n) mod |queue|`. */
  lemma {:induction false} RepeatAllCycles(env: Env, s: PlayerState, k: nat, n: nat)
    requires Walkable(env, s) && k < |s.playlist| && s.repeatMode == RepeatAll
    requires s.currentSong == Some(s.playlist[k])
    ensures NextTimes(env, s, n).currentSong == Some(s.playlist[(k + n) % |s.playlist|])
    ensures NextTimes(env, s, n).playlist == s.playlist
  {
    NextTimesSkips(env, s, n);
    SkipRepeatAll(CursorOf(s), k, n);
    AdvanceMod(k, n, |s.playlist|);
  }

  // ---------------------------------------------------------------------
  // All transitions, and what they keep

  datatype Action =
    | Play(song: Song, queue: Option<seq<Song>>)
    | Toggle
    | Next
    | Previous
    | SeekAction(time: int)
    | VolumeAction(level: int)
    | MuteAction(reportedVolume: int)
    | RepeatAction
    | StatusAction(event: PlayerEvent)
    | ErrorAction
    | InitStartAction
    | InitFailAction
    | ReadyAction(reportedVolume: int, reportedMuted: bool)
    | TimeAction(reportedTime: int)

  /** One transition of the player context as the source writes it; a
      status change goes to `onStateChange` as written. */
  function Apply(env: Env, s: PlayerState, a: Action): Step {
    match a
    case Play(song, queue) => PlaySong(env, s, song, queue)
    case Toggle => TogglePlay(env, s)
    case Next => PlayNext(env, s)
    case Previous => PlayPrevious(env, s)
    case SeekAction(t) => Seek(env, s, t)
    case VolumeAction(v) => SetVolume(env, s, v)
    case MuteAction(v) => ToggleMute(env, s, v)
    case RepeatAction => Step(ToggleRepeat(s), [])
    case StatusAction(e) => OnStateChange(env, s, e)
    case ErrorAction => Step(OnError(s), [])
    case InitStartAction => Step(InitStarted(s), [])
    case InitFailAction => Step(InitFailed(s), [])
    case ReadyAction(v, m) => Step(OnReady(s, v, m), [])
    case TimeAction(t) => Step(PollTime(env, s, t), [])
  }

  /** The identifier of the last video loaded, after issuing `effects` when
      `prior` was the last one before. */
  function LastLoad(effects: seq<Effect>, prior: Option<string>): Option<string> {
    if |effects| == 0 then prior
    else LastLoad(effects[1..], if effects[0].LoadVideo? then Some(effects[0].videoId) else prior)
  }

  /** The current song, when there is one, is the video last loaded. */
  predicate BoundTo(s: PlayerState, loaded: Option<string>) {
    s.currentSong.Some? ==> loaded == Some(s.currentSong.value.videoId)
  }

  lemma {:induction false} LastLoadOfPlay(song: Song, rest: seq<Effect>, prior: Option<string>)
    requires forall i :: 0 <= i < |rest| ==> !rest[i].LoadVideo?
    ensures LastLoad([LoadVideo(song.videoId)] + rest, prior) == Some(song.videoId)
  {
    var e := [LoadVideo(song.videoId)] + rest;
    assert e[1..] == rest;
    LastLoadNoLoads(rest, Some(song.videoId));
  }

  lemma {:induction false} LastLoadNoLoads(effects: seq<Effect>, prior: Option<string>)
    requires forall i :: 0 <= i < |effects| ==> !effects[i].LoadVideo?
    ensures LastLoad(effects, prior) == prior
    decreases |effects|
  {
    if |effects| > 0 {
      LastLoadNoLoads(effects[1..], prior);
    }
  }

  /** Playing a song keeps the binding: the new current song is the one
      just loaded, and a refused play changes neither. */
  lemma {:induction false} PlaySongBinds(env: Env, s: PlayerState, song: Song, queue: Option<seq<Song>>, loaded: Option<string>)
    requires BoundTo(s, loaded)
    ensures var r := PlaySong(env, s, song, queue); BoundTo(r.state, LastLoad(r.effects, loaded))
  {
    var r := PlaySong(env, s, song, queue);
    if env.playerPresent && song.videoId != "" {
      LastLoadOfPlay(song, r.effects[1..], loaded);
      assert r.effects == [LoadVideo(song.videoId)] + r.effects[1..];
    }
  }

  lemma {:induction false} NextBinds(env: Env, s: PlayerState, loaded: Option<string>)
    requires BoundTo(s, loaded)
    ensures var r := PlayNext(env, s); BoundTo(r.state, LastLoad(r.effects, loaded))
  {
    match NextTarget(CursorOf(s))
    case None => LastLoadNoLoads([], loaded);
    case Some(song) => PlaySongBinds(env, s, song, Some(s.playlist), loaded);
  }

  lemma {:induction false} PreviousBinds(env: Env, s: PlayerState, loaded: Option<string>)
    requires BoundTo(s, loaded)
    ensures var r := PlayPrevious(env, s); BoundTo(r.state, LastLoad(r.effects, loaded))
  {
    if s.currentSong.Some? && |s.playlist| > 0 && s.currentTime <= 3 {
      var q := s.playlist;
      var i := FindIndex(q, s.currentSong.value.videoId);
      if i.Some? && i.value > 0 {
        PlaySongBinds(env, s, q[i.value - 1], Some(q), loaded);
      } else if s.repeatMode == RepeatAll {
        PlaySongBinds(env, s, q[|q| - 1], Some(q), loaded);
      } else {
        LastLoadNoLoads([], loaded);
      }
    } else {
      LastLoadNoLoads(PlayPrevious(env, s).effects, loaded);
    }
  }

  /** Every status change keeps the binding: only the end of a track can
      load a video, and then through next. */
  lemma {:induction false} StatusBinds(env: Env, s: PlayerState, e: PlayerEvent, loaded: Option<string>)
    requires BoundTo(s, loaded)
    ensures var r := OnStateChange(env, s, e); BoundTo(r.state, LastLoad(r.effects, loaded))
  {
    if e == Ended && s.repeatMode != RepeatOne && (s.repeatMode == RepeatAll || |s.playlist| > 0) {
      NextBinds(env, s, loaded);
    } else {
      LastLoadNoLoads(OnStateChange(env, s, e).effects, loaded);
    }
  }

  /** The corrected status handler keeps the binding too. */
  lemma {:induction false} CorrectedStatusBinds(env: Env, s: PlayerState, e: PlayerEvent, loaded: Option<string>)
    requires BoundTo(s, loaded)
    ensures var r := OnStatus(env, s, e); BoundTo(r.state, LastLoad(r.effects, loaded))
  {
    StatusBinds(env, s, e, loaded);
    LastLoadNoLoads([], loaded);
  }

  /** Every transition keeps the current song bound to the last video
      loaded into the player. */
  lemma {:induction false} ApplyBinds(env: Env, s: PlayerState, a: Action, loaded: Option<string>)
    requires BoundTo(s, loaded)
    ensures var r := Apply(env, s, a); BoundTo(r.state, LastLoad(r.effects, loaded))
  {
    match a
    case Play(song, queue) => PlaySongBinds(env, s, song, queue, loaded);
    case Next => NextBinds(env, s, loaded);
    case Previous => PreviousBinds(env, s, loaded);
    case StatusAction(e) => StatusBinds(env, s, e, loaded);
    case _ => LastLoadNoLoads(Apply(env, s, a).effects, loaded);
  }

  /** A run of transitions, with the last video loaded alongside. Each step
      carries its own environment: the player appears when it becomes ready,
      and the user may sign in or out between steps. */
  function Run(s: PlayerState, steps: seq<(Env, Action)>, loaded: Option<string>): (PlayerState, Option<string>)
    decreases |steps|
  {
    if |steps| == 0 then (s, loaded)
    else
      var r := Apply(steps[0].0, s, steps[0].1);
      Run(r.state, steps[1..], LastLoad(r.effects, loaded))
  }

  /** After any run of transitions from a bound state, the current song
      (when there is one) is the video last loaded into the player. */
  lemma {:induction false} RunBinds(s: PlayerState, steps: seq<(Env, Action)>, loaded: Option<string>)
    requires BoundTo(s, loaded)
    ensures BoundTo(Run(s, steps, loaded).0, Run(s, steps, loaded).1)
    decreases |steps|
  {
    if |steps| > 0 {
      var r := Apply(steps[0].0, s, steps[0].1);
      ApplyBinds(steps[0].0, s, steps[0].1, loaded);
      RunBinds(r.state, steps[1..], LastLoad(r.effects, loaded));
    }
  }

  /** From the initial state, after any run, the current song is the video
      last loaded. */
  lemma {:induction false} InitialBound(steps: seq<(Env, Action)>)
    ensures BoundTo(Run(InitialState, steps, None).0, Run(InitialState, steps, None).1)
  {
    RunBinds(InitialState, steps, None);
  }

  /** A session from start-up: initialisation begins without a player, the
      player becomes ready, and a song is played; the song is then current
      and is the video last loaded, and loading is under way. */
  lemma {:induction false} StartupThenPlay(song: Song)
    requires song.videoId != ""
    ensures var steps := [(Env(false, false), InitStartAction),
                          (Env(true, false), ReadyAction(80, false)),
                          (Env(true, false), Play(song, None))];
            var r := Run(InitialState, steps, None);
            && r.0.currentSong == Some(song)
            && r.0.playlist == []
            && r.0.isLoading
            && r.0.volume == 80
            && r.1 == Some(song.videoId)
  {
    var steps := [(Env(false, false), InitStartAction),
                  (Env(true, false), ReadyAction(80, false)),
                  (Env(true, false), Play(song, None))];
    var s1 := InitStarted(InitialState);
    var s2 := OnReady(s1, 80, false);
    assert steps[1..][1..] == [steps[2]];
    assert Run(InitialState, steps, None) == Run(s1, steps[1..], None);
    assert Run(s1, steps[1..], None) == Run(s2, steps[1..][1..], None);
    var r := PlaySong(Env(true, false), s2, song, None);
    LastLoadOfPlay(song, [], None);
    assert r.effects == [LoadVideo(song.videoId)] + [];
  }
}
