/** Shared value types of the music player: the optional-value wrapper that
    stands in for JavaScript's `null`/`undefined`, and the `Song` record that
    every other module passes around. */
module Types {

  /** A value that may be absent (`null` or `undefined` in the source). */
  datatype Option<+T> = None | Some(value: T) {

    /** The wrapped value, or `default` when absent (JavaScript's `x ?? d`). */
    function GetOr(default: T): T {
      match this
      case Some(v) => v
      case None => default
    }
  }

  /** One playable track, as stored in playlists and in the player queue.
      `viewCount` is optional in the source's record type. */
  datatype Song = Song(
    videoId: string,
    title: string,
    artist: string,
    thumbnail: string,
    duration: string,
    viewCount: Option<int>)

  /** The external video identifier of the song at position `i`. */
  function IdAt(q: seq<Song>, i: nat): string
    requires i < |q|
  {
    q[i].videoId
  }

  /** No two songs of the queue share an external video identifier. */
  predicate DistinctIds(q: seq<Song>) {
    forall i, j :: 0 <= i < j < |q| ==> IdAt(q, i) != IdAt(q, j)
  }

  /** Every song of the queue has a non-empty external video identifier. */
  predicate PlayableIds(q: seq<Song>) {
    forall i :: 0 <= i < |q| ==> q[i].videoId != ""
  }
}
