/** What the server's playback handlers do to one radio: its new state and the
    messages its room receives, in order. `playNextSong`, `play_pause` and
    `add_song` follow these functions step by step on the store. */
module Playback {
  import opened Schema
  import opened Storage
  import Tracks

  /** `startStreaming` gets past its own checks: the song's URL yields a video id
      and the audio source answered (`startOk`, the outcome of the Piped call). */
  predicate StreamStarts(song: Song, startOk: bool)
  {
    startOk && Tracks.ExtractYouTubeId(song.url).Some?
  }

  /** A radio's new state and the messages broadcast to its room, in order. */
  datatype Effect = Effect(state: RadioState, room: seq<Msg>)

  /** Nothing is playing and the play flag is off: `add_song` starts playback. */
  predicate Idle(r: RadioState)
  {
    r.currentSong.None? && !r.isPlaying
  }

  /** `playNextSong` on an existing radio. A non-empty queue loses its head, which
      becomes the current song; an empty queue stops playback whatever the state was.
      `queue_updated` is not sent when the stream fails to start. */
  function Advance(r: RadioState, startOk: bool): (e: Effect)
    ensures e.state.name == r.name
    ensures r.queue == [] ==>
      && e.state == r.(currentSong := None, isPlaying := false)
      && e.room == [NowPlaying(None), PlaybackState(false), QueueUpdated([])]
    ensures r.queue != [] ==>
      && [r.queue[0]] + e.state.queue == r.queue
      && e.state.currentSong == Some(r.queue[0].song)
      && e.state.isPlaying
      && |e.room| >= 2
      && e.room[..2] == [NowPlaying(e.state.currentSong), PlaybackState(true)]
      && (e.room[2..] == if StreamStarts(r.queue[0].song, startOk) then [QueueUpdated(e.state.queue)] else [])
  {
    var (next, rest) := Dequeue(r.queue);
    var dequeued := r.(queue := rest);
    if next.Some? then
      var playing := ApplyPatch(dequeued, PlaybackPatch(Some(next.value.song), true));
      var announced := [NowPlaying(Some(next.value.song)), PlaybackState(true)];
      Effect(playing, announced + if StreamStarts(next.value.song, startOk) then [QueueUpdated(playing.queue)] else [])
    else
      var idle := ApplyPatch(dequeued, PlaybackPatch(None, false));
      Effect(idle, [NowPlaying(None), PlaybackState(false), QueueUpdated(idle.queue)])
  }

  /** `play_pause` on an existing radio: the flag always flips. Only a switch to
      playing with no current song and a non-empty queue advances; otherwise only
      `playback_state` is broadcast and song and queue stay as they are. */
  function PlayPause(r: RadioState, startOk: bool): (e: Effect)
    ensures e.state.name == r.name
    ensures e.state.isPlaying == !r.isPlaying
    ensures r.isPlaying || r.currentSong.Some? || r.queue == [] ==>
      && e.state.queue == r.queue
      && e.state.currentSong == r.currentSong
      && e.room == [PlaybackState(!r.isPlaying)]
    ensures !r.isPlaying && r.currentSong.None? && r.queue != [] ==>
      e == Advance(r.(isPlaying := true), startOk)
  {
    var flipped := ApplyPatch(r, Patch(None, None, None, Some(!r.isPlaying)));
    if flipped.isPlaying && r.currentSong.None? && |r.queue| > 0 then Advance(flipped, startOk)
    else Effect(flipped, [PlaybackState(flipped.isPlaying)])
  }

  /** `add_song` once the song is resolved and the radio exists: the room hears
      `queue_updated` and `song_added`, and an idle radio then advances. */
  function AddSong(r: RadioState, item: QueueItem, startOk: bool): (e: Effect)
    ensures e.state.name == r.name
    ensures |e.room| >= 2 && e.room[..2] == [QueueUpdated(r.queue + [item]), SongAdded(item.song)]
    ensures !Idle(r) ==> e == Effect(r.(queue := r.queue + [item]), e.room[..2])
    ensures Idle(r) ==>
      var next := Advance(r.(queue := r.queue + [item]), startOk);
      e.state == next.state && e.room[2..] == next.room
  {
    var queued := r.(queue := r.queue + [item]);
    var notices := [QueueUpdated(queued.queue), SongAdded(item.song)];
    if Idle(queued) then
      var next := Advance(queued, startOk);
      Effect(next.state, notices + next.room)
    else Effect(queued, notices)
  }

  /** An idle radio that gets its first song plays it at once and keeps an empty queue. */
  lemma AddToIdleEmptyRadioPlaysIt(r: RadioState, item: QueueItem, startOk: bool)
    requires Idle(r) && r.queue == []
    ensures AddSong(r, item, startOk).state.currentSong == Some(item.song)
    ensures AddSong(r, item, startOk).state.isPlaying
    ensures AddSong(r, item, startOk).state.queue == []
  {
    assert (r.queue + [item])[0] == item;
  }

  /** Toggling an idle radio with an empty queue sets the play flag with no song, and
      a song added afterwards is only queued: playback does not start. */
  lemma ToggleOnEmptyThenAddDoesNotStart(r: RadioState, item: QueueItem, startOk: bool)
    requires Idle(r) && r.queue == []
    ensures PlayPause(r, startOk).state.isPlaying
    ensures PlayPause(r, startOk).state.currentSong.None?
    ensures AddSong(PlayPause(r, startOk).state, item, startOk).state.currentSong.None?
    ensures AddSong(PlayPause(r, startOk).state, item, startOk).state.queue == [item]
  {
  }

  /** Pausing a playing radio keeps its song and queue: only the flag changes. */
  lemma PauseOnlyFlipsFlag(r: RadioState, startOk: bool)
    requires r.isPlaying
    ensures PlayPause(r, startOk).state == r.(isPlaying := false)
  {
  }

  /** Advancing twice plays the queue's second item with the rest still queued. */
  lemma {:induction false} AdvanceTwiceTakesSecondItem(r: RadioState, ok1: bool, ok2: bool)
    requires |r.queue| >= 2
    ensures Advance(Advance(r, ok1).state, ok2).state.currentSong == Some(r.queue[1].song)
    ensures Advance(Advance(r, ok1).state, ok2).state.queue == r.queue[2..]
  {
    var s1 := Advance(r, ok1).state;
    assert s1.queue == r.queue[1..];
    assert s1.queue[0] == r.queue[1];
    assert s1.queue[1..] == r.queue[2..];
  }
}
