/** Display rules of the player bar (`src/components/player/MusicPlayer.tsx`)
    and of the search page (`src/pages/SearchPage.tsx`): the elapsed-time
    display, the progress bar and its click guard, the volume slider while
    muted, the search suggestions, and when a search is issued. */
module Display {
  import opened Types
  import opened Text
  import Player

  /** `formatTime(seconds)` for whole seconds: minutes, a colon, and the
      seconds within the minute padded to two digits. The display reads back
      as the same number of seconds, and its seconds field is exactly two
      characters. */
  function FormatTime(seconds: nat): (r: string)
    ensures ClockSeconds(r) == Some(seconds)
    ensures |Split(r, ":")| == 2 && |Split(r, ":")[1]| == 2
    ensures Split(r, ":")[0] == DecimalString(seconds / 60)
  {
    var mins, secs := seconds / 60, seconds % 60;
    var r := DecimalString(mins) + ":" + TwoDigits(secs);
    ClockSeconds2(mins, secs);
    SplitAfterDigits(DecimalString(mins), TwoDigits(secs));
    SplitDigits(TwoDigits(secs));
    r
  }

  /** Distinct times display differently. */
  lemma {:induction false} FormatTimeInjective(a: nat, b: nat)
    requires FormatTime(a) == FormatTime(b)
    ensures a == b
  {
  }

  /** `progressPercentage`: elapsed time as a percentage of the duration,
      and 0 whenever the duration is not positive. */
  function ProgressPercent(currentTime: int, duration: int): (r: real)
    ensures duration <= 0 ==> r == 0.0
    ensures duration > 0 ==> r * (duration as real) == 100.0 * (currentTime as real)
    ensures duration > 0 && 0 <= currentTime <= duration ==> 0.0 <= r <= 100.0
  {
    if duration > 0 then (currentTime as real) / (duration as real) * 100.0 else 0.0
  }

  /** `handleProgressClick`: ignored without a mounted bar or with a zero
      duration; otherwise seek to the clicked fraction of the duration,
      which lies within the track for a click inside the bar. */
  function ProgressClick(mounted: bool, duration: int, fraction: real): (r: Option<real>)
    ensures r.None? <==> !mounted || duration == 0
    ensures r.Some? ==> r.value == fraction * (duration as real)
    ensures r.Some? && duration > 0 && 0.0 <= fraction <= 1.0 ==> 0.0 <= r.value <= duration as real
  {
    if !mounted || duration == 0 then None else Some(fraction * (duration as real))
  }

  /** The volume slider's value: 0 while muted, the stored volume
      otherwise. */
  function SliderValue(s: Player.PlayerState): (r: int)
    ensures s.isMuted ==> r == 0
    ensures !s.isMuted ==> r == s.volume
  {
    if s.isMuted then 0 else s.volume
  }

  /** Muting shows 0 on the slider, unmuting shows the level the player
      reports, and setting a level shows that level. */
  lemma {:induction false} SliderFollowsPlayer(env: Player.Env, s: Player.PlayerState, reported: int, level: int)
    requires env.playerPresent
    ensures !s.isMuted ==> SliderValue(Player.ToggleMute(env, s, reported).state) == 0
    ensures s.isMuted ==> SliderValue(Player.ToggleMute(env, s, reported).state) == reported
    ensures SliderValue(Player.SetVolume(env, s, level).state) == level
  {
  }

  // ---------------------------------------------------------------------
  // Search page

  /** The fixed suggestion suffixes, in display order. */
  const SuggestionSuffixes: seq<string> := [" song", " artist", " album", " remix", " live"]

  /** The suggestion list and whether the dropdown is shown. */
  datatype Suggestions = Suggestions(items: seq<string>, shown: bool)

  /** Suggestions for the typed query: none, and the dropdown hidden, when
      the query is blank after trimming; otherwise the untrimmed query
      followed by each suffix, in order. */
  function Suggest(query: string): (r: Suggestions)
    ensures Blank(query) ==> r == Suggestions([], false)
    ensures !Blank(query) ==> r.shown && |r.items| == |SuggestionSuffixes|
    ensures !Blank(query) ==> forall i :: 0 <= i < |r.items| ==> r.items[i] == query + SuggestionSuffixes[i]
  {
    if Trim(query) == "" then Suggestions([], false)
    else Suggestions(seq(|SuggestionSuffixes|, i requires 0 <= i < |SuggestionSuffixes| => query + SuggestionSuffixes[i]), true)
  }

  /** Each suggestion starts with the query exactly as typed and ends with
      its own suffix, so a suggestion determines its suffix. */
  lemma {:induction false} SuggestionsExtendQuery(query: string, i: nat)
    requires !Blank(query) && i < 5
    ensures |Suggest(query).items| == 5
    ensures Suggest(query).items[i][..|query|] == query
    ensures Suggest(query).items[i][|query|..] == SuggestionSuffixes[i]
  {
    var item := Suggest(query).items[i];
    assert item == query + SuggestionSuffixes[i];
  }

  /** What the debounced query does to the result list. */
  datatype SearchStep = ClearResults | Request(query: string)

  /** A blank debounced query clears the results and issues no request;
      any other query is sent as typed, spaces included. */
  function OnDebouncedQuery(debounced: string): (r: SearchStep)
    ensures r == ClearResults <==> Blank(debounced)
    ensures r.Request? ==> r.query == debounced
  {
    if Trim(debounced) == "" then ClearResults else Request(debounced)
  }
}
