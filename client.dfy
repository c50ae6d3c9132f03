/** The radio page's local copy of a radio: its initial value, the `onmessage`
    reducer, the duration label and the two control buttons. The lemmas relate the
    local copy to the server's state through the messages `Playback` broadcasts. */
module Client {
  import opened Schema
  import JsString
  import Playback

  /** `params.name || "lofi"`: a missing or empty route parameter means "lofi". */
  function RouteName(param: Option<string>): (name: string)
    ensures name != ""
    ensures param.Some? && param.value != "" ==> name == param.value
  {
    if param.Some? && param.value != "" then param.value else "lofi"
  }

  /** The state the page starts from, before the server's `radio_state` arrives. */
  function InitialState(param: Option<string>): (s: RadioState)
    ensures s.queue == [] && s.currentSong.None? && !s.isPlaying
    ensures s.name == RouteName(param)
    ensures param.None? || param.value == "" ==> s.name == "lofi"
  {
    EmptyRadio(RouteName(param))
  }

  /** The messages the reducer acts on; every other one only raises a toast or is ignored. */
  predicate ChangesState(m: Msg)
  {
    m.Snapshot? || m.QueueUpdated? || m.NowPlaying? || m.PlaybackState?
  }

  /** `ws.onmessage`: `radio_state` replaces the whole state, and `queue_updated`,
      `now_playing` and `playback_state` each replace one field. */
  function Apply(s: RadioState, m: Msg): (t: RadioState)
    ensures !ChangesState(m) ==> t == s
    ensures m.Snapshot? ==> t == m.state
    ensures !m.Snapshot? ==> t.name == s.name
    ensures !m.Snapshot? ==> t.queue == (if m.QueueUpdated? then m.queue else s.queue)
    ensures !m.Snapshot? ==> t.currentSong == (if m.NowPlaying? then m.song else s.currentSong)
    ensures !m.Snapshot? ==> t.isPlaying == (if m.PlaybackState? then m.isPlaying else s.isPlaying)
  {
    match m
    case Snapshot(state) => state
    case QueueUpdated(queue) => s.(queue := queue)
    case NowPlaying(song) => s.(currentSong := song)
    case PlaybackState(isPlaying) => s.(isPlaying := isPlaying)
    case _ => s
  }

  /** The local state after the messages `ms`, received in order. */
  function ApplyAll(s: RadioState, ms: seq<Msg>): RadioState
    decreases |ms|
  {
    if ms == [] then s else ApplyAll(Apply(s, ms[0]), ms[1..])
  }

  /** Receiving `a` and then `b` is receiving `a + b`. */
  lemma {:induction false} ApplyAllAppend(s: RadioState, a: seq<Msg>, b: seq<Msg>)
    ensures ApplyAll(s, a + b) == ApplyAll(ApplyAll(s, a), b)
    decreases |a|
  {
    if a == [] {
      assert a + b == b;
    } else {
      assert (a + b)[0] == a[0];
      assert (a + b)[1..] == a[1..] + b;
      ApplyAllAppend(Apply(s, a[0]), a[1..], b);
    }
  }

  lemma ApplyAllOne(s: RadioState, m: Msg)
    ensures ApplyAll(s, [m]) == Apply(s, m)
  {
    assert [m][1..] == [];
  }

  /** Toasts, registry notices and `radio_renamed_rejoin` leave the local state alone. */
  lemma {:induction false} IgnoredMessagesKeepState(s: RadioState, ms: seq<Msg>)
    requires forall k :: 0 <= k < |ms| ==> !ChangesState(ms[k])
    ensures ApplyAll(s, ms) == s
    decreases |ms|
  {
    if ms != [] {
      assert !ChangesState(ms[0]);
      IgnoredMessagesKeepState(s, ms[1..]);
    }
  }

  /** A `radio_state` message makes whatever the page held irrelevant: what follows
      it acts on the server's snapshot. In particular the initial state is replaced
      by the first answer to `join_radio`. */
  lemma SnapshotResets(c: RadioState, state: RadioState, ms: seq<Msg>)
    ensures ApplyAll(c, [Snapshot(state)] + ms) == ApplyAll(state, ms)
  {
    ApplyAllAppend(c, [Snapshot(state)], ms);
  }

  /** The three messages of an announcement, `now_playing` then `playback_state` and
      possibly `queue_updated`, set exactly the fields they carry. */
  lemma AnnouncementSetsFields(c: RadioState, song: Option<Song>, playing: bool, rest: seq<Msg>)
    ensures ApplyAll(c, [NowPlaying(song), PlaybackState(playing)] + rest)
         == ApplyAll(c.(currentSong := song, isPlaying := playing), rest)
  {
    var announced := [NowPlaying(song), PlaybackState(playing)];
    assert announced == [NowPlaying(song)] + [PlaybackState(playing)];
    ApplyAllAppend(c, announced, rest);
    ApplyAllAppend(c, [NowPlaying(song)], [PlaybackState(playing)]);
    ApplyAllOne(c, NowPlaying(song));
    ApplyAllOne(c.(currentSong := song), PlaybackState(playing));
  }

  /** A page that agrees with the server on the radio's name ends up with the server's
      new state after `playNextSong`, whatever it showed before, unless a song was
      dequeued and its stream failed to start. */
  lemma AdvanceKeepsPageInSync(c: RadioState, r: RadioState, startOk: bool)
    requires c.name == r.name
    requires r.queue != [] ==> Playback.StreamStarts(r.queue[0].song, startOk)
    ensures ApplyAll(c, Playback.Advance(r, startOk).room) == Playback.Advance(r, startOk).state
  {
    var e := Playback.Advance(r, startOk);
    assert e.room == e.room[..2] + e.room[2..];
    AnnouncementSetsFields(c, e.state.currentSong, e.state.isPlaying, e.room[2..]);
    var announced := c.(currentSong := e.state.currentSong, isPlaying := e.state.isPlaying);
    if r.queue == [] {
      assert e.room[2..] == [QueueUpdated([])];
    }
    assert e.room[2..] == [QueueUpdated(e.state.queue)];
    assert ApplyAll(announced, e.room[2..]) == Apply(announced, QueueUpdated(e.state.queue));
  }

  /** When the stream of the dequeued song fails to start, `queue_updated` is not sent:
      a page that was in sync keeps showing the dequeued song in its queue. */
  lemma FailedStartLeavesStaleQueue(c: RadioState, r: RadioState, startOk: bool)
    requires c == r && r.queue != [] && !Playback.StreamStarts(r.queue[0].song, startOk)
    ensures ApplyAll(c, Playback.Advance(r, startOk).room).queue == r.queue
    ensures ApplyAll(c, Playback.Advance(r, startOk).room) != Playback.Advance(r, startOk).state
  {
    var e := Playback.Advance(r, startOk);
    assert e.room == e.room[..2] + [];
    AnnouncementSetsFields(c, e.state.currentSong, e.state.isPlaying, []);
    assert |e.state.queue| < |r.queue|;
  }

  /** `play_pause` keeps an in-sync page in sync, unless it advances to a song whose
      stream fails to start. */
  lemma PlayPauseKeepsPageInSync(c: RadioState, r: RadioState, startOk: bool)
    requires c == r
    requires !r.isPlaying && r.currentSong.None? && r.queue != [] ==> Playback.StreamStarts(r.queue[0].song, startOk)
    ensures ApplyAll(c, Playback.PlayPause(r, startOk).room) == Playback.PlayPause(r, startOk).state
  {
    var e := Playback.PlayPause(r, startOk);
    if !r.isPlaying && r.currentSong.None? && r.queue != [] {
      AdvanceKeepsPageInSync(c, r.(isPlaying := true), startOk);
    } else {
      assert ApplyAll(c, e.room) == Apply(c, PlaybackState(!r.isPlaying));
    }
  }

  /** `add_song` keeps a page in sync that agrees with the server on everything but
      possibly the queue, which `queue_updated` overwrites first; an idle radio must
      also start the new head's stream. */
  lemma AddSongKeepsPageInSync(c: RadioState, r: RadioState, item: QueueItem, startOk: bool)
    requires c.name == r.name && c.currentSong == r.currentSong && c.isPlaying == r.isPlaying
    requires Playback.Idle(r) ==> Playback.StreamStarts((r.queue + [item])[0].song, startOk)
    ensures ApplyAll(c, Playback.AddSong(r, item, startOk).room) == Playback.AddSong(r, item, startOk).state
  {
    var e := Playback.AddSong(r, item, startOk);
    var queued := r.(queue := r.queue + [item]);
    var notices := e.room[..2];
    assert e.room == notices + e.room[2..];
    ApplyAllAppend(c, notices, e.room[2..]);
    assert notices == [QueueUpdated(r.queue + [item])] + [SongAdded(item.song)];
    ApplyAllAppend(c, [QueueUpdated(r.queue + [item])], [SongAdded(item.song)]);
    ApplyAllOne(c, QueueUpdated(r.queue + [item]));
    ApplyAllOne(c.(queue := r.queue + [item]), SongAdded(item.song));
    if Playback.Idle(r) {
      AdvanceKeepsPageInSync(c.(queue := r.queue + [item]), queued, startOk);
    } else {
      assert e.room[2..] == [];
    }
  }

  /** The play/pause button: disabled when there is neither a current song nor a queue. */
  predicate PlayEnabled(s: RadioState)
    ensures !PlayEnabled(s) <==> s.currentSong.None? && s.queue == []
    ensures SkipEnabled(s) ==> PlayEnabled(s)
  {
    s.currentSong.Some? || |s.queue| > 0
  }

  /** The skip button: disabled when the queue is empty. */
  predicate SkipEnabled(s: RadioState)
    ensures !SkipEnabled(s) <==> s.queue == []
  {
    |s.queue| > 0
  }

  /** On a page in sync, skip is enabled exactly when skipping leads to a song
      playing; a skip with an empty queue would stop playback. */
  lemma SkipEnabledIffSkipPlays(s: RadioState, startOk: bool)
    ensures SkipEnabled(s) <==> Playback.Advance(s, startOk).state.currentSong.Some?
    ensures !SkipEnabled(s) ==> !Playback.Advance(s, startOk).state.isPlaying
  {
  }

  /** A disabled play button only guards a toggle that would find nothing to play:
      the flag would flip with no song and no queue. */
  lemma PlayDisabledOnlyFlipsFlag(s: RadioState, startOk: bool)
    requires !PlayEnabled(s)
    ensures Playback.PlayPause(s, startOk).state == s.(isPlaying := !s.isPlaying)
    ensures Playback.PlayPause(s, startOk).state.currentSong.None?
  {
  }

  /** Pressing an enabled play button on a paused radio gets a song playing. */
  lemma PlayEnabledStartsPlayback(s: RadioState, startOk: bool)
    requires PlayEnabled(s) && !s.isPlaying
    ensures Playback.PlayPause(s, startOk).state.isPlaying
    ensures Playback.PlayPause(s, startOk).state.currentSong.Some?
  {
  }

  /** `formatDuration(seconds)`: "0:00" when the duration is absent or zero, otherwise
      whole minutes, a colon and the seconds padded to two digits. */
  function FormatDuration(seconds: Option<nat>): (t: string)
    ensures seconds.None? || seconds.value == 0 ==> t == "0:00"
    ensures |t| >= 4 && t[|t| - 3] == ':' && JsString.AllDigits(t[..|t| - 3]) && JsString.AllDigits(t[|t| - 2..])
  {
    if seconds.None? || seconds.value == 0 then "0:00"
    else Clock(seconds.value)
  }

  /** The `${mins}:${secs}` form of a whole number of seconds. */
  function Clock(n: nat): (t: string)
    ensures |t| >= 4 && t[|t| - 3] == ':'
    ensures t[..|t| - 3] == JsString.NatToString(n / 60)
    ensures t[|t| - 2..] == JsString.PadStart(JsString.NatToString(n % 60), 2, '0')
    ensures JsString.AllDigits(t[..|t| - 3]) && JsString.AllDigits(t[|t| - 2..])
  {
    var mins := JsString.NatToString(n / 60);
    var secs := JsString.PadStart(JsString.NatToString(n % 60), 2, '0');
    SecondsFitTwoDigits(n % 60);
    var t := mins + [':'] + secs;
    assert t[..|t| - 3] == mins;
    assert t[|t| - 2..] == secs;
    t
  }

  /** Seconds below a minute print as one or two digits, so padding makes exactly two. */
  lemma SecondsFitTwoDigits(s: nat)
    requires s < 60
    ensures |JsString.NatToString(s)| <= 2
    ensures |JsString.PadStart(JsString.NatToString(s), 2, '0')| == 2
    ensures JsString.AllDigits(JsString.PadStart(JsString.NatToString(s), 2, '0'))
  {
    if s >= 10 {
      assert JsString.NatToString(s) == JsString.NatToString(s / 10) + [JsString.DigitChar(s % 10)];
    }
  }

  /** Reads a label of the form minutes, colon, two digits back as seconds. */
  function ParseDuration(t: string): Option<nat>
  {
    if |t| >= 4 && t[|t| - 3] == ':' && JsString.AllDigits(t[..|t| - 3]) && JsString.AllDigits(t[|t| - 2..]) then
      Some(JsString.DecimalValue(t[..|t| - 3]) * 60 + JsString.DecimalValue(t[|t| - 2..]))
    else None
  }

  /** The two padded digits read back as the seconds they print. */
  lemma {:induction false} PaddedSecondsValue(s: nat)
    requires s < 60
    ensures JsString.AllDigits(JsString.PadStart(JsString.NatToString(s), 2, '0'))
    ensures JsString.DecimalValue(JsString.PadStart(JsString.NatToString(s), 2, '0')) == s
  {
    SecondsFitTwoDigits(s);
    var digits := JsString.NatToString(s);
    var padded := JsString.PadStart(digits, 2, '0');
    JsString.DecimalOfNatToString(s);
    if s < 10 {
      assert padded == ['0'] + digits;
      assert padded[..1] == ['0'];
      assert JsString.DecimalValue(['0']) == 0;
      assert digits == [JsString.DigitChar(s)];
    } else {
      assert padded == digits;
    }
  }

  /** The label gives back the duration it shows, absent counting as zero. */
  lemma FormatDurationRoundTrip(seconds: Option<nat>)
    ensures ParseDuration(FormatDuration(seconds)) == Some(if seconds.None? then 0 else seconds.value)
  {
    var n := if seconds.None? then 0 else seconds.value;
    if n == 0 {
      ZeroShortcutAgrees();
    }
    assert FormatDuration(seconds) == Clock(n);
    ClockRoundTrip(n);
  }

  lemma ClockRoundTrip(n: nat)
    ensures ParseDuration(Clock(n)) == Some(n)
  {
    var mins := JsString.NatToString(n / 60);
    var secs := JsString.PadStart(JsString.NatToString(n % 60), 2, '0');
    JsString.DecimalOfNatToString(n / 60);
    PaddedSecondsValue(n % 60);
    SecondsFitTwoDigits(n % 60);
    assert n / 60 * 60 + n % 60 == n;
    ParseParts(mins, secs, n / 60, n % 60, n);
    assert Clock(n) == mins + [':'] + secs;
  }

  /** Minutes, a colon and two digits parse to the minutes times sixty plus the seconds. */
  lemma ParseParts(mins: string, secs: string, m: nat, s: nat, total: nat)
    requires |mins| > 0 && JsString.AllDigits(mins) && JsString.DecimalValue(mins) == m
    requires |secs| == 2 && JsString.AllDigits(secs) && JsString.DecimalValue(secs) == s
    requires total == m * 60 + s
    ensures ParseDuration(mins + [':'] + secs) == Some(total)
  {
    var t := mins + [':'] + secs;
    assert t[..|t| - 3] == mins;
    assert t[|t| - 2..] == secs;
  }

  /** The `!seconds` shortcut agrees with the general formula: zero prints as "0:00" either way. */
  lemma ZeroShortcutAgrees()
    ensures FormatDuration(Some(0)) == Clock(0)
  {
    assert JsString.NatToString(0) == "0";
    assert JsString.PadStart("0", 2, '0') == "00";
    assert "0" + [':'] + "00" == "0:00";
  }
}
