/** Shared value types of the radio server: songs, queue items, the per-radio
    state and the control-plane messages the server sends to its clients. */
module Schema {

  datatype Option<T> = None | Some(value: T)

  /** The outcome of an operation that may throw: a value, or the message of the error. */
  datatype Result<T> = Ok(value: T) | Err(message: string)

  /** Where a song was requested from ("youtube" or "spotify"). */
  datatype Source = Youtube | Spotify

  /** A resolved track. `duration` is in whole seconds. */
  datatype Song = Song(
    id: string,
    title: string,
    artist: Option<string>,
    duration: Option<nat>,
    url: string,
    thumbnail: Option<string>,
    source: Source)

  /** An entry of a radio's queue; `addedAt` is a millisecond timestamp. */
  datatype QueueItem = QueueItem(id: string, song: Song, addedAt: int)

  /** The state of one radio station. */
  datatype RadioState = RadioState(
    name: string,
    queue: seq<QueueItem>,
    currentSong: Option<Song>,
    isPlaying: bool)

  /** One entry of the `all_radios` roster. */
  datatype RadioInfo = RadioInfo(name: string, queueLength: nat, isPlaying: bool)

  /** Server-to-client control-plane messages, one constructor per message type. */
  datatype Msg =
    | Snapshot(state: RadioState)                           // radio_state
    | QueueUpdated(queue: seq<QueueItem>)                   // queue_updated
    | NowPlaying(song: Option<Song>)                        // now_playing
    | PlaybackState(isPlaying: bool)                        // playback_state
    | SongAdded(added: Song)                                // song_added
    | Error(message: string)                                // error
    | AllRadios(radios: set<RadioInfo>)                     // all_radios
    | RadioCreated(name: string)                            // radio_created
    | RadioRenamed(oldName: string, newName: string)        // radio_renamed
    | RadioRenamedRejoin(oldName: string, newName: string)  // radio_renamed_rejoin
    | RadioDeleted(name: string)                            // radio_deleted

  /** A radio with an empty queue, nothing playing and the play flag off. */
  function EmptyRadio(name: string): RadioState
  {
    RadioState(name, [], None, false)
  }
}
