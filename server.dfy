/** The control plane of the radio server: the module-level tables of the route
    file (rooms, each socket's current radio, the connected sockets, the stream
    table) and the store, changed one WebSocket message or stream event at a time.
    A send is an append to the receiving socket's outbox. */
module Server {
  import opened Schema
  import opened Storage
  import JsString
  import Tracks
  import Playback

  /** A WebSocket connection and an HTTP stream response, identified by number. */
  type Conn = nat
  type Listener = nat

  /** An entry of `activeStreams`: whether an encoder process is attached, and
      the HTTP responses listening to the radio. */
  datatype Stream = Stream(hasProcess: bool, listeners: set<Listener>)

  /** The outcome of `GET /stream/:radioName`. */
  datatype AttachOutcome = NotFound | ServerError | Attached

  const BlankName: string := "El nombre de la radio no puede estar vac\U{00ED}o"
  const BlankNewName: string := "El nuevo nombre no puede estar vac\U{00ED}o"
  const SameName: string := "El nuevo nombre debe ser diferente"

  function Taken(name: string): string
  {
    "La radio \"" + name + "\" ya existe"
  }

  function Missing(name: string): string
  {
    "La radio \"" + name + "\" no existe"
  }

  function Deleted(name: string): string
  {
    "La radio \"" + name + "\" ha sido eliminada"
  }

  function NotFoundMessage(name: string): string
  {
    "Radio " + name + " not found"
  }

  /** `s.trim().toLowerCase()`, the form `create_radio` and `rename_radio` give a new name. */
  function Normalize(s: string): (t: string)
    ensures t == [] <==> JsString.AllWhitespace(s)
    ensures JsString.Trimmed(t)
    ensures forall k :: 0 <= k < |t| ==> !JsString.IsUpper(t[k])
  {
    var trimmed := JsString.Trim(s);
    if trimmed == [] then []
    else
      JsString.LowerKeepsTrimmed(trimmed);
      JsString.LowerHasNoCapitals(trimmed);
      JsString.ToLower(trimmed)
  }

  /** A normalised name is its own normal form. */
  lemma NormalizeIdempotent(s: string)
    ensures Normalize(Normalize(s)) == Normalize(s)
  {
    var t := Normalize(s);
    JsString.TrimKeepsTrimmed(t);
    JsString.ToLowerIdempotent(JsString.Trim(s));
  }

  /** Names that differ only in case share a normal form. */
  lemma NormalizeIgnoresCase(s: string)
    ensures Normalize(JsString.ToLower(s)) == Normalize(s)
  {
    JsString.TrimOfLower(s);
    JsString.ToLowerIdempotent(JsString.Trim(s));
  }

  /** Names that differ only in surrounding whitespace share a normal form. */
  lemma NormalizeIgnoresPadding(pre: string, s: string, post: string)
    requires JsString.AllWhitespace(pre) && JsString.AllWhitespace(post)
    ensures Normalize(pre + s + post) == Normalize(s)
  {
    JsString.TrimIgnoresPadding(pre, s, post);
  }

  /** JavaScript truthiness of a socket's current radio: `null` and `""` are false. */
  predicate Truthy(current: Option<string>)
  {
    current.Some? && current.value != ""
  }

  /** The room bookkeeping `join_radio` and `close` run first: when the current radio
      is truthy and has a room, the socket leaves it, and an emptied room is deleted. */
  function LeaveRoom(rooms: map<string, set<Conn>>, c: Conn, current: Option<string>): (r: map<string, set<Conn>>)
    ensures r.Keys <= rooms.Keys
    ensures forall n :: n in rooms && current != Some(n) ==> n in r && r[n] == rooms[n]
    ensures Truthy(current) && current.value in rooms ==>
      (current.value in r <==> rooms[current.value] - {c} != {}) &&
      (current.value in r ==> r[current.value] == rooms[current.value] - {c})
    ensures !Truthy(current) ==> r == rooms
  {
    if Truthy(current) && current.value in rooms then
      var rest := rooms[current.value] - {c};
      if rest == {} then rooms - {current.value} else rooms[current.value := rest]
    else rooms
  }

  /** `join_radio` adds the socket to the room of `name`, creating the room if needed. */
  function EnterRoom(rooms: map<string, set<Conn>>, name: string, c: Conn): (r: map<string, set<Conn>>)
    ensures r.Keys == rooms.Keys + {name}
    ensures r[name] == (if name in rooms then rooms[name] else {}) + {c}
    ensures forall n :: n in rooms && n != name ==> r[n] == rooms[n]
  {
    rooms[name := (if name in rooms then rooms[name] else {}) + {c}]
  }

  /** Every member of a room points at that room, by a non-empty name. So a socket
      is in at most one room, and leaving its current radio leaves every room. */
  ghost predicate RoomsAgree(rooms: map<string, set<Conn>>, pointers: map<Conn, Option<string>>)
  {
    forall n, c :: n in rooms && c in rooms[n] ==> c in pointers && pointers[c] == Some(n) && n != ""
  }

  lemma AtMostOneRoom(rooms: map<string, set<Conn>>, pointers: map<Conn, Option<string>>, c: Conn, n1: string, n2: string)
    requires RoomsAgree(rooms, pointers)
    requires n1 in rooms && c in rooms[n1] && n2 in rooms && c in rooms[n2]
    ensures n1 == n2
  {
    assert pointers[c] == Some(n1) && pointers[c] == Some(n2);
  }

  /** `join_radio` with a non-empty name keeps the rooms and the pointers in agreement. */
  lemma {:induction false} JoinKeepsRoomsAgree(rooms: map<string, set<Conn>>, pointers: map<Conn, Option<string>>, c: Conn, name: string)
    requires RoomsAgree(rooms, pointers) && c in pointers && name != ""
    ensures RoomsAgree(EnterRoom(LeaveRoom(rooms, c, pointers[c]), name, c), pointers[c := Some(name)])
  {
    var left := LeaveRoom(rooms, c, pointers[c]);
    forall n | n in left ensures c !in left[n] && n in rooms && left[n] <= rooms[n] {
      if c in rooms[n] {
        assert pointers[c] == Some(n);
      }
    }
    var joined := EnterRoom(left, name, c);
    var pointers' := pointers[c := Some(name)];
    forall n, d | n in joined && d in joined[n] ensures d in pointers' && pointers'[d] == Some(n) && n != "" {
      if d == c {
        assert n == name;
      } else {
        assert n in left && d in left[n];
        assert d in rooms[n] && pointers[d] == Some(n);
      }
    }
  }

  /** `close` keeps the rooms and the pointers in agreement. */
  lemma {:induction false} CloseKeepsRoomsAgree(rooms: map<string, set<Conn>>, pointers: map<Conn, Option<string>>, c: Conn)
    requires RoomsAgree(rooms, pointers) && c in pointers
    ensures RoomsAgree(LeaveRoom(rooms, c, pointers[c]), pointers - {c})
  {
    var left := LeaveRoom(rooms, c, pointers[c]);
    forall n | n in left ensures c !in left[n] && n in rooms && left[n] <= rooms[n] {
      if c in rooms[n] {
        assert pointers[c] == Some(n);
      }
    }
  }

  /** Joining from the empty name: `""` is falsy, so the socket is not taken out of
      the room `""` and ends up in two rooms at once. */
  lemma JoinFromBlankKeepsOldRoom(rooms: map<string, set<Conn>>, c: Conn, name: string)
    requires "" in rooms && c in rooms[""] && name != ""
    ensures var joined := EnterRoom(LeaveRoom(rooms, c, Some("")), name, c);
      && c in joined[""] && c in joined[name]
  {
  }

  /** `delete_radio` drops a room and leaves every pointer alone; the agreement stays. */
  lemma DeleteKeepsRoomsAgree(rooms: map<string, set<Conn>>, pointers: map<Conn, Option<string>>, name: string)
    requires RoomsAgree(rooms, pointers)
    ensures RoomsAgree(rooms - {name}, pointers)
  {
  }

  /** `rename_radio` on a table keyed by radio name (the rooms, the stream entries):
      the old name's entry, if any, moves unchanged to the new name. */
  function RenameKey<V>(table: map<string, V>, oldName: string, newName: string): (r: map<string, V>)
    ensures r.Keys <= table.Keys - {oldName} + {newName}
    ensures oldName in table ==> newName in r && r[newName] == table[oldName]
    ensures forall k :: k in r && k != newName ==> k in table && r[k] == table[k]
    ensures forall k :: k in table && k != oldName ==> k in r
    ensures oldName !in table ==> r == table
  {
    if oldName in table then (table - {oldName})[newName := table[oldName]] else table
  }

  /** The pointers `rename_radio` leaves behind: the old room's members point at the new name. */
  function RenamePointers(rooms: map<string, set<Conn>>, pointers: map<Conn, Option<string>>, oldName: string, newName: string): map<Conn, Option<string>>
  {
    if oldName in rooms then Repoint(pointers, rooms[oldName], newName) else pointers
  }

  /** Every socket of `members` now points at `name`; the other pointers stay. */
  function Repoint(pointers: map<Conn, Option<string>>, members: set<Conn>, name: string): (p: map<Conn, Option<string>>)
    ensures p.Keys == pointers.Keys + members
    ensures forall c :: c in members ==> p[c] == Some(name)
    ensures forall c :: c in pointers && c !in members ==> p[c] == pointers[c]
  {
    pointers + map c | c in members :: Some(name)
  }

  /** `rename_radio` to a non-empty name with no room keeps the agreement. */
  lemma {:induction false} RenameKeepsRoomsAgree(rooms: map<string, set<Conn>>, pointers: map<Conn, Option<string>>, oldName: string, newName: string)
    requires RoomsAgree(rooms, pointers) && newName != "" && newName !in rooms
    ensures RoomsAgree(RenameKey(rooms, oldName, newName), RenamePointers(rooms, pointers, oldName, newName))
  {
    if oldName in rooms {
      var rooms' := RenameKey(rooms, oldName, newName);
      var pointers' := RenamePointers(rooms, pointers, oldName, newName);
      forall n, c | n in rooms' && c in rooms'[n] ensures c in pointers' && pointers'[c] == Some(n) && n != "" {
        if n != newName {
          assert c in rooms[n] && pointers[c] == Some(n);
        }
      }
    }
  }

  /** `startStreaming`'s bookkeeping: an attached process is killed first; on success
      the entry gets a process and keeps the listeners it already had. */
  function AfterStart(streams: map<string, Stream>, name: string, started: bool): (r: map<string, Stream>)
    ensures r.Keys == streams.Keys + (if started then {name} else {})
    ensures forall n :: n in streams && n != name ==> r[n] == streams[n]
    ensures name in streams ==> r[name].listeners == streams[name].listeners
    ensures name in r ==> r[name].hasProcess == started
    ensures name !in streams && started ==> r[name].listeners == {}
  {
    if started then
      streams[name := Stream(true, if name in streams then streams[name].listeners else {})]
    else if name in streams then
      streams[name := streams[name].(hasProcess := false)]
    else streams
  }

  /** The stream table after `playNextSong` on radio state `r`: a stream is started
      only when a song was dequeued. */
  function StreamsAfterAdvance(streams: map<string, Stream>, name: string, r: RadioState, startOk: bool): map<string, Stream>
  {
    if r.queue == [] then streams
    else AfterStart(streams, name, Playback.StreamStarts(r.queue[0].song, startOk))
  }

  /** Appends `ms` to the outbox of every socket in `to`. */
  function Deliver(outbox: map<Conn, seq<Msg>>, to: set<Conn>, ms: seq<Msg>): (o: map<Conn, seq<Msg>>)
    ensures o.Keys == outbox.Keys
  {
    map c | c in outbox :: if c in to then outbox[c] + ms else outbox[c]
  }

  /** Two deliveries to the same audience are one delivery of both messages, in order. */
  lemma DeliverTwice(outbox: map<Conn, seq<Msg>>, to: set<Conn>, a: seq<Msg>, b: seq<Msg>)
    ensures Deliver(Deliver(outbox, to, a), to, b) == Deliver(outbox, to, a + b)
  {
    var lhs := Deliver(Deliver(outbox, to, a), to, b);
    var rhs := Deliver(outbox, to, a + b);
    forall c | c in outbox ensures lhs[c] == rhs[c] {
      if c in to {
        assert lhs[c] == outbox[c] + a + b;
      }
    }
  }

  /** One more receiver for a delivery in progress. */
  lemma DeliverOneMore(outbox: map<Conn, seq<Msg>>, to: set<Conn>, c: Conn, ms: seq<Msg>)
    requires c in outbox && c !in to
    ensures Deliver(outbox, to, ms)[c := outbox[c] + ms] == Deliver(outbox, to + {c}, ms)
  {
  }

  /** Repointing one more socket extends the repointed set by it. */
  lemma RepointOneMore(pointers: map<Conn, Option<string>>, members: set<Conn>, c: Conn, name: string)
    ensures Repoint(pointers, members, name)[c := Some(name)] == Repoint(pointers, members + {c}, name)
  {
  }

  /** Deliver to nobody changes no outbox. */
  lemma DeliverToNobody(outbox: map<Conn, seq<Msg>>, ms: seq<Msg>)
    ensures Deliver(outbox, {}, ms) == outbox
  {
  }

  /** Adds a listener to a radio's stream entry, creating an entry without a process if needed. */
  function AddListener(streams: map<string, Stream>, name: string, l: Listener): (r: map<string, Stream>)
    ensures r.Keys == streams.Keys + {name}
    ensures r[name].listeners == (if name in streams then streams[name].listeners else {}) + {l}
    ensures r[name].hasProcess == (name in streams && streams[name].hasProcess)
    ensures forall n :: n in streams && n != name ==> r[n] == streams[n]
  {
    if name in streams then streams[name := streams[name].(listeners := streams[name].listeners + {l})]
    else streams[name := Stream(false, {l})]
  }

  /** The error `create_radio` answers with, if any: blank names first, then taken ones. */
  function CreateRejection(name: string, radios: map<string, RadioState>): (m: Option<string>)
    ensures m.None? <==> !JsString.AllWhitespace(name) && Normalize(name) !in radios
  {
    if JsString.AllWhitespace(name) then Some(BlankName)
    else if Normalize(name) in radios then Some(Taken(Normalize(name)))
    else None
  }

  /** The error `rename_radio` answers with, if any, in the order the checks run. */
  function RenameRejection(oldName: string, newName: string, radios: map<string, RadioState>): (m: Option<string>)
    ensures m.None? <==>
      && !JsString.AllWhitespace(newName)
      && oldName != Normalize(newName)
      && Normalize(newName) !in radios
      && oldName in radios
  {
    if JsString.AllWhitespace(newName) then Some(BlankNewName)
    else if oldName == Normalize(newName) then Some(SameName)
    else if Normalize(newName) in radios then Some(Taken(Normalize(newName)))
    else if oldName !in radios then Some(NotFoundMessage(oldName))
    else None
  }

  /** The module-level state of the route file together with the store. */
  class RadioServer {
    const store: MemStorage
    /** `radioClients`: the sockets in each radio's room. */
    var radioClients: map<string, set<Conn>>
    /** `wsCurrentRadio`: the radio each socket last joined, `None` for `null`. */
    var wsCurrentRadio: map<Conn, Option<string>>
    var allClients: set<Conn>
    /** The sockets whose `readyState` is `OPEN`. */
    var isOpen: set<Conn>
    var activeStreams: map<string, Stream>
    /** Everything sent to each socket that ever connected, in order. */
    var outbox: map<Conn, seq<Msg>>

    /** What every handler keeps: the socket tables are coherent, and rooms and
        stream entries exist only for stored radios. */
    ghost predicate Valid()
      reads this, store
    {
      SocketsValid() && Registered(store.radios.Keys)
    }

    /** Open sockets are connected, every socket that has a pointer or sits in a
        room has an outbox, and rooms are never empty. */
    ghost predicate SocketsValid()
      reads this`isOpen, this`allClients, this`wsCurrentRadio, this`outbox, this`radioClients
    {
      && isOpen <= allClients <= wsCurrentRadio.Keys <= outbox.Keys
      && (forall n :: n in radioClients ==> radioClients[n] != {})
      && (forall n, c :: n in radioClients && c in radioClients[n] ==> c in outbox)
    }

    ghost predicate Registered(names: set<string>)
      reads this`radioClients, this`activeStreams
    {
      radioClients.Keys <= names && activeStreams.Keys <= names
    }

    /** Room membership and current-radio pointers agree (see `RoomsAgree`). */
    ghost predicate RoomsConsistent()
      reads this`radioClients, this`wsCurrentRadio
    {
      RoomsAgree(radioClients, wsCurrentRadio)
    }

    /** The sockets `broadcastToRadio(name, ...)` reaches: the open members of the room. */
    function Audience(name: string): set<Conn>
      reads this`radioClients, this`isOpen
    {
      if name in radioClients then radioClients[name] * isOpen else {}
    }

    /** The sockets `broadcastToAll` reaches. */
    function Everyone(): set<Conn>
      reads this`allClients, this`isOpen
    {
      allClients * isOpen
    }

    /** Server start: the default store, no sockets, no streams. */
    constructor ()
      ensures store.radios == map["lofi" := EmptyRadio("lofi")]
      ensures radioClients == map[] && wsCurrentRadio == map[] && activeStreams == map[]
      ensures allClients == {} && isOpen == {} && outbox == map[]
      ensures Valid() && RoomsConsistent()
    {
      store := new MemStorage();
      radioClients := map[];
      wsCurrentRadio := map[];
      allClients := {};
      isOpen := {};
      activeStreams := map[];
      outbox := map[];
    }

    /** `forEach` over `clients`, sending `m` to those that are open. */
    method SendEach(clients: set<Conn>, m: Msg)
      requires clients * isOpen <= outbox.Keys
      modifies this`outbox
      ensures outbox == Deliver(old(outbox), clients * isOpen, [m])
    {
      var rest := clients;
      DeliverToNobody(outbox, [m]);
      while rest != {}
        invariant rest <= clients
        invariant outbox == Deliver(old(outbox), (clients - rest) * isOpen, [m])
        decreases rest
      {
        var c :| c in rest;
        if c in isOpen {
          DeliverOneMore(old(outbox), (clients - rest) * isOpen, c, [m]);
          outbox := outbox[c := outbox[c] + [m]];
        }
        assert (clients - (rest - {c})) * isOpen == (clients - rest) * isOpen + ({c} * isOpen);
        rest := rest - {c};
      }
    }

    /** `broadcastToRadio`: a radio without a room hears nothing. */
    method BroadcastToRadio(name: string, m: Msg)
      requires isOpen <= outbox.Keys
      modifies this`outbox
      ensures outbox == Deliver(old(outbox), Audience(name), [m])
    {
      if name in radioClients {
        SendEach(radioClients[name], m);
      } else {
        DeliverToNobody(outbox, [m]);
      }
    }

    /** `broadcastToAll`. */
    method BroadcastToAll(m: Msg)
      requires isOpen <= outbox.Keys
      modifies this`outbox
      ensures outbox == Deliver(old(outbox), Everyone(), [m])
    {
      SendEach(allClients, m);
    }

    /** The closing step of the registry commands: every client hears the new
        roster and then the command's own notice. */
    method BroadcastRoster(notice: Msg)
      requires isOpen <= outbox.Keys
      modifies this`outbox
      ensures old(Valid()) ==> Valid()
      ensures outbox == Deliver(old(outbox), Everyone(), [AllRadios(store.AllRadioInfo()), notice])
    {
      var radios := store.AllRadioInfo();
      BroadcastToAll(AllRadios(radios));
      BroadcastToAll(notice);
      DeliverTwice(old(outbox), Everyone(), [AllRadios(radios)], [notice]);
      assert [AllRadios(radios)] + [notice] == [AllRadios(radios), notice];
    }

    /** `ws.send` to the socket that sent the message. */
    method Reply(c: Conn, m: Msg)
      requires c in outbox
      modifies this`outbox
      ensures old(Valid()) ==> Valid()
      ensures outbox == old(outbox)[c := old(outbox)[c] + [m]]
    {
      outbox := outbox[c := outbox[c] + [m]];
    }

    /** The bookkeeping of `startStreaming`; `startOk` says whether the audio source
        answered with a stream. Failure leaves a killed entry in place. */
    method StartStreaming(name: string, song: Song, startOk: bool) returns (started: bool)
      requires Valid() && name in store.radios
      modifies this`activeStreams
      ensures Valid()
      ensures started == Playback.StreamStarts(song, startOk)
      ensures activeStreams == AfterStart(old(activeStreams), name, started)
    {
      var existing := if name in activeStreams then Some(activeStreams[name]) else None;
      if existing.Some? && existing.value.hasProcess {
        activeStreams := activeStreams[name := existing.value.(hasProcess := false)];
      }
      var videoId := Tracks.ExtractYouTubeId(song.url);
      if videoId.None? || !startOk {
        return false;
      }
      activeStreams := activeStreams[name := Stream(true, if existing.Some? then existing.value.listeners else {})];
      started := true;
    }

    /** The first half of either branch of `playNextSong`: set the current song
        and the play flag, then tell the room both. */
    method Announce(name: string, song: Option<Song>, playing: bool)
      requires Valid() && name in store.radios
      modifies store, this`outbox
      ensures Valid()
      ensures store.radios == old(store.radios)[name := old(store.radios)[name].(currentSong := song, isPlaying := playing)]
      ensures outbox == Deliver(old(outbox), Audience(name), [NowPlaying(song), PlaybackState(playing)])
    {
      var updated := store.UpdateRadioState(name, PlaybackPatch(song, playing));
      BroadcastToRadio(name, NowPlaying(song));
      BroadcastToRadio(name, PlaybackState(playing));
      DeliverTwice(old(outbox), Audience(name), [NowPlaying(song)], [PlaybackState(playing)]);
      assert [NowPlaying(song)] + [PlaybackState(playing)] == [NowPlaying(song), PlaybackState(playing)];
    }

    /** `playNextSong`, also run by `skip` and when the encoder ends or fails:
        the radio's new state and room messages are those of `Playback.Advance`. */
    method PlayNextSong(name: string, startOk: bool)
      requires Valid()
      modifies store, this`activeStreams, this`outbox
      ensures Valid()
      ensures name !in old(store.radios) ==>
        store.radios == old(store.radios) && activeStreams == old(activeStreams) && outbox == old(outbox)
      ensures name in old(store.radios) ==>
        var r := old(store.radios)[name];
        var e := Playback.Advance(r, startOk);
        && store.radios == old(store.radios)[name := e.state]
        && outbox == Deliver(old(outbox), Audience(name), e.room)
        && activeStreams == StreamsAfterAdvance(old(activeStreams), name, r, startOk)
    {
      var radio := store.GetRadio(name);
      if radio.Some? {
        AdvanceRadio(name, startOk);
      }
    }

    /** `playNextSong` on a stored radio. A failed start ends the method before
        `queue_updated`, as the rethrown error does in the source. */
    method AdvanceRadio(name: string, startOk: bool)
      requires Valid() && name in store.radios
      modifies store, this`activeStreams, this`outbox
      ensures Valid()
      ensures var r := old(store.radios)[name];
        var e := Playback.Advance(r, startOk);
        && store.radios == old(store.radios)[name := e.state]
        && outbox == Deliver(old(outbox), Audience(name), e.room)
        && activeStreams == StreamsAfterAdvance(old(activeStreams), name, r, startOk)
    {
      ghost var e := Playback.Advance(store.radios[name], startOk);
      ghost var announced := e.room[..2];
      var next := store.GetNextInQueue(name);
      var sendQueue := true;
      if next.Some? {
        Announce(name, Some(next.value.song), true);
        assert announced == [NowPlaying(Some(next.value.song)), PlaybackState(true)];
        sendQueue := StartStreaming(name, next.value.song, startOk);
      } else {
        Announce(name, None, false);
        assert announced == [NowPlaying(None), PlaybackState(false)];
      }
      assert store.radios == old(store.radios)[name := e.state];
      assert activeStreams.Keys <= store.radios.Keys;
      if sendQueue {
        ghost var queue := store.radios[name].queue;
        BroadcastQueue(name);
        DeliverTwice(old(outbox), Audience(name), announced, [QueueUpdated(queue)]);
        assert announced + [QueueUpdated(queue)] == e.room;
      } else {
        assert e.room == announced;
      }
    }

    /** The closing step of `playNextSong`: the room hears the radio's queue as stored now. */
    method BroadcastQueue(name: string)
      requires Valid() && name in store.radios
      modifies this`outbox
      ensures Valid()
      ensures outbox == Deliver(old(outbox), Audience(name), [QueueUpdated(store.radios[name].queue)])
    {
      var updated := store.GetRadio(name);
      BroadcastToRadio(name, QueueUpdated(updated.value.queue));
    }

    /** `wss.on('connection')`: a new socket, pointing at no radio. */
    method Connect(c: Conn)
      requires Valid() && c !in outbox
      modifies this`wsCurrentRadio, this`allClients, this`isOpen, this`outbox
      ensures Valid()
      ensures wsCurrentRadio == old(wsCurrentRadio)[c := None]
      ensures allClients == old(allClients) + {c} && isOpen == old(isOpen) + {c}
      ensures outbox == old(outbox)[c := []]
      ensures old(RoomsConsistent()) ==> RoomsConsistent()
    {
      wsCurrentRadio := wsCurrentRadio[c := None];
      allClients := allClients + {c};
      isOpen := isOpen + {c};
      outbox := outbox[c := []];
    }

    /** The socket leaves the `OPEN` state; its `close` event comes later. */
    method ConnectionLost(c: Conn)
      requires Valid()
      modifies this`isOpen
      ensures Valid()
      ensures isOpen == old(isOpen) - {c}
    {
      isOpen := isOpen - {c};
    }

    /** `ws.on('close')`: the socket is forgotten and leaves the room of its current radio. */
    method Close(c: Conn)
      requires Valid() && c in allClients
      modifies this`allClients, this`isOpen, this`radioClients, this`wsCurrentRadio
      ensures Valid()
      ensures allClients == old(allClients) - {c} && isOpen == old(isOpen) - {c}
      ensures radioClients == LeaveRoom(old(radioClients), c, old(wsCurrentRadio)[c])
      ensures wsCurrentRadio == old(wsCurrentRadio) - {c}
      ensures old(RoomsConsistent()) ==> RoomsConsistent() && forall n :: n in radioClients ==> c !in radioClients[n]
    {
      isOpen := isOpen - {c};
      allClients := allClients - {c};
      LeaveCurrentRoom(c);
      wsCurrentRadio := wsCurrentRadio - {c};
      if old(RoomsConsistent()) {
        CloseKeepsRoomsAgree(old(radioClients), old(wsCurrentRadio), c);
      }
    }

    /** The first step of `close` and `join_radio`: a socket whose current radio is
        truthy leaves that radio's room, and a room left empty is deleted. */
    method LeaveCurrentRoom(c: Conn)
      requires c in wsCurrentRadio
      requires forall n :: n in radioClients ==> radioClients[n] != {}
      modifies this`radioClients
      ensures radioClients == LeaveRoom(old(radioClients), c, wsCurrentRadio[c])
      ensures radioClients.Keys <= old(radioClients).Keys
      ensures forall n :: n in radioClients ==> radioClients[n] != {} && radioClients[n] <= old(radioClients)[n]
    {
      var currentRadio := wsCurrentRadio[c];
      if Truthy(currentRadio) && currentRadio.value in radioClients {
        var prevClients := radioClients[currentRadio.value] - {c};
        if prevClients == {} {
          radioClients := radioClients - {currentRadio.value};
        } else {
          radioClients := radioClients[currentRadio.value := prevClients];
        }
      }
    }

    /** `get_all_radios`: the requester gets the roster. */
    method GetAllRadios(c: Conn)
      requires Valid() && c in isOpen
      modifies this`outbox
      ensures Valid()
      ensures outbox == old(outbox)[c := old(outbox)[c] + [AllRadios(store.AllRadioInfo())]]
    {
      var radios := store.AllRadioInfo();
      Reply(c, AllRadios(radios));
    }

    /** `create_radio`: a blank or taken name is answered with an error to the
        requester only; otherwise the normalised name is stored and every client
        hears the new roster and then `radio_created`. */
    method CreateRadio(c: Conn, name: string)
      requires Valid() && c in isOpen
      modifies store, this`outbox
      ensures Valid()
      ensures CreateRejection(name, old(store.radios)).Some? ==>
        && store.radios == old(store.radios)
        && outbox == old(outbox)[c := old(outbox)[c] + [Error(CreateRejection(name, old(store.radios)).value)]]
      ensures CreateRejection(name, old(store.radios)).None? ==>
        var n := Normalize(name);
        && store.radios == old(store.radios)[n := EmptyRadio(n)]
        && outbox == Deliver(old(outbox), Everyone(), [AllRadios(store.AllRadioInfo()), RadioCreated(n)])
    {
      var radioName := Normalize(name);
      if radioName == [] {
        Reply(c, Error(BlankName));
      } else if store.RadioExists(radioName) {
        Reply(c, Error(Taken(radioName)));
      } else {
        AddNewRadio(radioName);
      }
    }

    /** `create_radio` once the name is accepted: the radio is stored empty and
        every client hears the new roster and then `radio_created`. */
    method AddNewRadio(radioName: string)
      requires Valid() && radioName !in store.radios
      modifies store, this`outbox
      ensures Valid()
      ensures store.radios == old(store.radios)[radioName := EmptyRadio(radioName)]
      ensures outbox == Deliver(old(outbox), Everyone(), [AllRadios(store.AllRadioInfo()), RadioCreated(radioName)])
    {
      var created := store.CreateRadio(radioName);
      assert Registered(store.radios.Keys);
      BroadcastRoster(RadioCreated(radioName));
    }

    /** The `forEach` of `rename_radio` over the old room: each member now points at
        `newName`, and each open member is told to rejoin. */
    method RepointMembers(members: set<Conn>, newName: string, notice: Msg)
      requires members <= outbox.Keys
      modifies this`wsCurrentRadio, this`outbox
      ensures wsCurrentRadio == Repoint(old(wsCurrentRadio), members, newName)
      ensures outbox == Deliver(old(outbox), members * isOpen, [notice])
    {
      var rest := members;
      DeliverToNobody(outbox, [notice]);
      assert wsCurrentRadio == Repoint(old(wsCurrentRadio), {}, newName);
      while rest != {}
        invariant rest <= members
        invariant wsCurrentRadio == Repoint(old(wsCurrentRadio), members - rest, newName)
        invariant outbox == Deliver(old(outbox), (members - rest) * isOpen, [notice])
        decreases rest
      {
        var c :| c in rest;
        RepointOne(old(wsCurrentRadio), old(outbox), members - rest, c, newName, notice);
        assert members - (rest - {c}) == (members - rest) + {c};
        rest := rest - {c};
      }
      assert members - rest == members;
    }

    /** One step of that `forEach`: socket `c` joins the sockets already repointed
        and, when open, the ones already told. */
    method RepointOne(ghost pointers: map<Conn, Option<string>>, ghost sent: map<Conn, seq<Msg>>,
                      ghost done: set<Conn>, c: Conn, newName: string, notice: Msg)
      requires c !in done && c in sent
      requires wsCurrentRadio == Repoint(pointers, done, newName)
      requires outbox == Deliver(sent, done * isOpen, [notice])
      modifies this`wsCurrentRadio, this`outbox
      ensures wsCurrentRadio == Repoint(pointers, done + {c}, newName)
      ensures outbox == Deliver(sent, (done + {c}) * isOpen, [notice])
    {
      RepointOneMore(pointers, done, c, newName);
      wsCurrentRadio := wsCurrentRadio[c := Some(newName)];
      if c in isOpen {
        DeliverOneMore(sent, done * isOpen, c, [notice]);
        outbox := outbox[c := outbox[c] + [notice]];
        assert (done + {c}) * isOpen == done * isOpen + {c};
      } else {
        assert (done + {c}) * isOpen == done * isOpen;
      }
    }

    /** The stream half of `rename_radio`: the entry, process and listeners
        included, moves to `newName`. */
    method MoveStream(oldName: string, newName: string)
      modifies this`activeStreams
      ensures activeStreams == RenameKey(old(activeStreams), oldName, newName)
    {
      if oldName in activeStreams {
        var streamData := activeStreams[oldName];
        activeStreams := (activeStreams - {oldName})[newName := streamData];
      }
    }

    /** The room half of `rename_radio`: the room moves to `newName`, its members
        are repointed and its open members hear `notice`. */
    method MoveRoom(oldName: string, newName: string, notice: Msg)
      requires SocketsValid()
      modifies this`radioClients, this`wsCurrentRadio, this`outbox
      ensures radioClients == RenameKey(old(radioClients), oldName, newName)
      ensures wsCurrentRadio == RenamePointers(old(radioClients), old(wsCurrentRadio), oldName, newName)
      ensures outbox == Deliver(old(outbox), old(Audience(oldName)), [notice])
      ensures SocketsValid()
    {
      if oldName in radioClients {
        var clients := radioClients[oldName];
        radioClients := (radioClients - {oldName})[newName := clients];
        RepointMembers(clients, newName, notice);
      } else {
        DeliverToNobody(outbox, [notice]);
      }
    }

    /** `rename_radio`. Only the new name is normalised. On success the store entry,
        the stream entry and the room move to the new name, the room's members are
        repointed and told to rejoin, and every client hears the new roster and then
        `radio_renamed`. */
    method RenameRadio(c: Conn, oldName: string, newName: string)
      requires Valid() && c in isOpen
      modifies store, this`radioClients, this`wsCurrentRadio, this`activeStreams, this`outbox
      ensures Valid()
      ensures RenameRejection(oldName, newName, old(store.radios)).Some? ==>
        && store.radios == old(store.radios)
        && radioClients == old(radioClients) && wsCurrentRadio == old(wsCurrentRadio)
        && activeStreams == old(activeStreams)
        && outbox == old(outbox)[c := old(outbox)[c] + [Error(RenameRejection(oldName, newName, old(store.radios)).value)]]
      ensures RenameRejection(oldName, newName, old(store.radios)).None? ==>
        var n := Normalize(newName);
        && store.radios == (old(store.radios) - {oldName})[n := old(store.radios)[oldName].(name := n)]
        && activeStreams == RenameKey(old(activeStreams), oldName, n)
        && radioClients == RenameKey(old(radioClients), oldName, n)
        && wsCurrentRadio == RenamePointers(old(radioClients), old(wsCurrentRadio), oldName, n)
        && outbox == Deliver(Deliver(old(outbox), old(Audience(oldName)), [RadioRenamedRejoin(oldName, n)]),
                             Everyone(), [AllRadios(store.AllRadioInfo()), RadioRenamed(oldName, n)])
      ensures old(RoomsConsistent()) ==> RoomsConsistent()
    {
      var newRadioName := Normalize(newName);
      if newRadioName == [] {
        Reply(c, Error(BlankNewName));
      } else if oldName == newRadioName {
        Reply(c, Error(SameName));
      } else if store.RadioExists(newRadioName) {
        Reply(c, Error(Taken(newRadioName)));
      } else {
        RenameStored(c, oldName, newRadioName);
      }
    }

    /** `rename_radio` once the new name is accepted: the store renames the radio,
        or reports the old one missing. */
    method RenameStored(c: Conn, oldName: string, newName: string)
      requires Valid() && c in isOpen
      requires newName != "" && newName != oldName && newName !in store.radios
      modifies store, this`radioClients, this`wsCurrentRadio, this`activeStreams, this`outbox
      ensures Valid()
      ensures oldName !in old(store.radios) ==>
        && store.radios == old(store.radios)
        && radioClients == old(radioClients) && wsCurrentRadio == old(wsCurrentRadio)
        && activeStreams == old(activeStreams)
        && outbox == old(outbox)[c := old(outbox)[c] + [Error(NotFoundMessage(oldName))]]
      ensures oldName in old(store.radios) ==>
        && store.radios == (old(store.radios) - {oldName})[newName := old(store.radios)[oldName].(name := newName)]
        && activeStreams == RenameKey(old(activeStreams), oldName, newName)
        && radioClients == RenameKey(old(radioClients), oldName, newName)
        && wsCurrentRadio == RenamePointers(old(radioClients), old(wsCurrentRadio), oldName, newName)
        && outbox == Deliver(Deliver(old(outbox), old(Audience(oldName)), [RadioRenamedRejoin(oldName, newName)]),
                             Everyone(), [AllRadios(store.AllRadioInfo()), RadioRenamed(oldName, newName)])
      ensures old(RoomsConsistent()) ==> RoomsConsistent()
    {
      var renamed := store.RenameRadio(oldName, newName);
      if renamed.Err? {
        Reply(c, Error(renamed.message));
      } else {
        MoveRadio(oldName, newName);
      }
    }

    /** What `rename_radio` does once the store has renamed the radio. */
    method MoveRadio(oldName: string, newName: string)
      requires SocketsValid() && Registered(store.radios.Keys + {oldName})
      requires newName != "" && newName in store.radios && newName !in radioClients
      modifies this`radioClients, this`wsCurrentRadio, this`activeStreams, this`outbox
      ensures Valid()
      ensures activeStreams == RenameKey(old(activeStreams), oldName, newName)
      ensures radioClients == RenameKey(old(radioClients), oldName, newName)
      ensures wsCurrentRadio == RenamePointers(old(radioClients), old(wsCurrentRadio), oldName, newName)
      ensures outbox == Deliver(Deliver(old(outbox), old(Audience(oldName)), [RadioRenamedRejoin(oldName, newName)]),
                                Everyone(), [AllRadios(store.AllRadioInfo()), RadioRenamed(oldName, newName)])
      ensures old(RoomsConsistent()) ==> RoomsConsistent()
    {
      MoveStream(oldName, newName);
      MoveRoom(oldName, newName, RadioRenamedRejoin(oldName, newName));
      assert Registered(store.radios.Keys);
      BroadcastRoster(RadioRenamed(oldName, newName));
      if old(RoomsConsistent()) {
        RenameKeepsRoomsAgree(old(radioClients), old(wsCurrentRadio), oldName, newName);
      }
    }

    /** `delete_radio`: a missing name is answered with an error. Otherwise the
        radio, its stream entry and its room go, the room's open members are told
        the radio was deleted, and every client hears the new roster and then
        `radio_deleted`. Current-radio pointers are left as they were. */
    method DeleteRadio(c: Conn, name: string)
      requires Valid() && c in isOpen
      modifies store, this`radioClients, this`activeStreams, this`outbox
      ensures Valid()
      ensures name !in old(store.radios) ==>
        && store.radios == old(store.radios)
        && radioClients == old(radioClients) && activeStreams == old(activeStreams)
        && outbox == old(outbox)[c := old(outbox)[c] + [Error(Missing(name))]]
      ensures name in old(store.radios) ==>
        && store.radios == old(store.radios) - {name}
        && activeStreams == old(activeStreams) - {name}
        && radioClients == old(radioClients) - {name}
        && outbox == Deliver(Deliver(old(outbox), old(Audience(name)), [Error(Deleted(name))]),
                             Everyone(), [AllRadios(store.AllRadioInfo()), RadioDeleted(name)])
      ensures old(RoomsConsistent()) ==> RoomsConsistent()
    {
      var known := store.RadioExists(name);
      if known {
        RemoveRadio(name);
      } else {
        Reply(c, Error(Missing(name)));
      }
    }

    /** `delete_radio` once the radio is known to exist. */
    method RemoveRadio(name: string)
      requires Valid() && name in store.radios
      modifies store, this`radioClients, this`activeStreams, this`outbox
      ensures Valid()
      ensures store.radios == old(store.radios) - {name}
      ensures activeStreams == old(activeStreams) - {name}
      ensures radioClients == old(radioClients) - {name}
      ensures outbox == Deliver(Deliver(old(outbox), old(Audience(name)), [Error(Deleted(name))]),
                                Everyone(), [AllRadios(store.AllRadioInfo()), RadioDeleted(name)])
      ensures old(RoomsConsistent()) ==> RoomsConsistent()
    {
      store.DeleteRadio(name);
      DropStream(name);
      DropRoom(name);
      BroadcastRoster(RadioDeleted(name));
      if old(RoomsConsistent()) {
        DeleteKeepsRoomsAgree(old(radioClients), wsCurrentRadio, name);
      }
    }

    /** The stream half of `delete_radio`: an entry, if any, goes with its process. */
    method DropStream(name: string)
      modifies this`activeStreams
      ensures activeStreams == old(activeStreams) - {name}
    {
      if name in activeStreams {
        activeStreams := activeStreams - {name};
      } else {
        assert activeStreams - {name} == activeStreams;
      }
    }

    /** The room half of `delete_radio`: the room's open members are told the radio
        was deleted, then the room goes. */
    method DropRoom(name: string)
      requires SocketsValid()
      modifies this`radioClients, this`outbox
      ensures SocketsValid()
      ensures radioClients == old(radioClients) - {name}
      ensures outbox == Deliver(old(outbox), old(Audience(name)), [Error(Deleted(name))])
    {
      if name in radioClients {
        SendEach(radioClients[name], Error(Deleted(name)));
        radioClients := radioClients - {name};
      } else {
        DeliverToNobody(outbox, [Error(Deleted(name))]);
      }
    }

    /** `join_radio`: the name is used as given. The socket leaves the room of its
        current radio when that is truthy, enters the room of `radioName`, and gets
        the radio's state, the radio being created if it did not exist. */
    method JoinRadio(c: Conn, radioName: string)
      requires Valid() && c in isOpen
      modifies store, this`radioClients, this`wsCurrentRadio, this`outbox
      ensures Valid()
      ensures radioClients == EnterRoom(LeaveRoom(old(radioClients), c, old(wsCurrentRadio)[c]), radioName, c)
      ensures wsCurrentRadio == old(wsCurrentRadio)[c := Some(radioName)]
      ensures store.radios == if radioName in old(store.radios) then old(store.radios)
                              else old(store.radios)[radioName := EmptyRadio(radioName)]
      ensures outbox == old(outbox)[c := old(outbox)[c] + [Snapshot(store.radios[radioName])]]
      ensures old(RoomsConsistent()) && radioName != "" ==> RoomsConsistent()
    {
      SwitchRoom(c, radioName);
      var radio := store.GetRadio(radioName);
      var state: RadioState;
      if radio.None? {
        state := store.CreateRadio(radioName);
      } else {
        state := radio.value;
      }
      Reply(c, Snapshot(state));
    }

    /** The room half of `join_radio`. */
    method SwitchRoom(c: Conn, radioName: string)
      requires SocketsValid() && c in isOpen
      modifies this`radioClients, this`wsCurrentRadio
      ensures SocketsValid()
      ensures radioClients.Keys <= old(radioClients).Keys + {radioName}
      ensures radioClients == EnterRoom(LeaveRoom(old(radioClients), c, old(wsCurrentRadio)[c]), radioName, c)
      ensures wsCurrentRadio == old(wsCurrentRadio)[c := Some(radioName)]
      ensures old(RoomsConsistent()) && radioName != "" ==> RoomsConsistent()
    {
      LeaveCurrentRoom(c);
      ghost var left := radioClients;
      wsCurrentRadio := wsCurrentRadio[c := Some(radioName)];
      if radioName !in radioClients {
        radioClients := radioClients[radioName := {}];
      }
      radioClients := radioClients[radioName := radioClients[radioName] + {c}];
      assert radioClients == EnterRoom(left, radioName, c);
      if old(RoomsConsistent()) && radioName != "" {
        JoinKeepsRoomsAgree(old(radioClients), old(wsCurrentRadio), c, radioName);
      }
    }

    /** `add_song`. `lookup` stands for the answers of the track services. A URL
        that does not resolve, or a radio that does not exist, is answered with an
        error to the requester and changes nothing; otherwise the item is queued
        and the radio goes on as `Playback.AddSong` says. */
    method AddSong(c: Conn, url: string, radioName: string, lookup: Tracks.Lookup, itemId: string, now: int, startOk: bool)
      requires Valid() && c in isOpen
      modifies store, this`activeStreams, this`outbox
      ensures Valid()
      ensures Tracks.ResolveSong(url, lookup).Err? ==>
        && store.radios == old(store.radios) && activeStreams == old(activeStreams)
        && outbox == old(outbox)[c := old(outbox)[c] + [Error(Tracks.ResolveSong(url, lookup).message)]]
      ensures Tracks.ResolveSong(url, lookup).Ok? && radioName !in old(store.radios) ==>
        && store.radios == old(store.radios) && activeStreams == old(activeStreams)
        && outbox == old(outbox)[c := old(outbox)[c] + [Error(NotFoundMessage(radioName))]]
      ensures Tracks.ResolveSong(url, lookup).Ok? && radioName in old(store.radios) ==>
        var r := old(store.radios)[radioName];
        var item := QueueItem(itemId, Tracks.ResolveSong(url, lookup).value, now);
        var e := Playback.AddSong(r, item, startOk);
        && store.radios == old(store.radios)[radioName := e.state]
        && outbox == Deliver(old(outbox), Audience(radioName), e.room)
        && activeStreams == if Playback.Idle(r) then StreamsAfterAdvance(old(activeStreams), radioName, r.(queue := r.queue + [item]), startOk)
                            else old(activeStreams)
    {
      var resolved := Tracks.ResolveSong(url, lookup);
      if resolved.Err? {
        Reply(c, Error(resolved.message));
      } else {
        var added := store.AddToQueue(radioName, resolved.value, itemId, now);
        if added.Err? {
          Reply(c, Error(added.message));
        } else {
          Enqueued(radioName, old(store.radios)[radioName], added.value, startOk);
        }
      }
    }

    /** The rest of `add_song` once the item is in the queue: the room hears
        `queue_updated` and `song_added`, and an idle radio starts playing. */
    method Enqueued(radioName: string, ghost r: RadioState, item: QueueItem, startOk: bool)
      requires Valid() && radioName in store.radios
      requires store.radios[radioName] == r.(queue := r.queue + [item])
      modifies store, this`activeStreams, this`outbox
      ensures Valid()
      ensures store.radios == old(store.radios)[radioName := Playback.AddSong(r, item, startOk).state]
      ensures outbox == Deliver(old(outbox), Audience(radioName), Playback.AddSong(r, item, startOk).room)
      ensures activeStreams == if Playback.Idle(r) then StreamsAfterAdvance(old(activeStreams), radioName, r.(queue := r.queue + [item]), startOk)
                               else old(activeStreams)
    {
      var radio := store.GetRadio(radioName);
      BroadcastToRadio(radioName, QueueUpdated(radio.value.queue));
      BroadcastToRadio(radioName, SongAdded(item.song));
      ghost var notices := [QueueUpdated(r.queue + [item])] + [SongAdded(item.song)];
      DeliverTwice(old(outbox), Audience(radioName), [QueueUpdated(r.queue + [item])], [SongAdded(item.song)]);
      if radio.value.currentSong.None? && !radio.value.isPlaying {
        PlayNextSong(radioName, startOk);
        DeliverTwice(old(outbox), Audience(radioName), notices, Playback.Advance(radio.value, startOk).room);
        assert notices + Playback.Advance(radio.value, startOk).room == Playback.AddSong(r, item, startOk).room;
      } else {
        assert notices == Playback.AddSong(r, item, startOk).room;
      }
    }

    /** `play_pause`: on an existing radio the flag flips and the radio goes on as
        `Playback.PlayPause` says; the stream table changes only when playback
        actually advances. */
    method PlayPause(radioName: string, startOk: bool)
      requires Valid()
      modifies store, this`activeStreams, this`outbox
      ensures Valid()
      ensures radioName !in old(store.radios) ==>
        store.radios == old(store.radios) && activeStreams == old(activeStreams) && outbox == old(outbox)
      ensures radioName in old(store.radios) ==>
        var r := old(store.radios)[radioName];
        var e := Playback.PlayPause(r, startOk);
        && store.radios == old(store.radios)[radioName := e.state]
        && outbox == Deliver(old(outbox), Audience(radioName), e.room)
        && activeStreams == if !r.isPlaying && r.currentSong.None? && r.queue != [] then StreamsAfterAdvance(old(activeStreams), radioName, r, startOk)
                            else old(activeStreams)
    {
      var radio := store.GetRadio(radioName);
      if radio.None? {
        return;
      }
      var newPlayingState := !radio.value.isPlaying;
      var updated := store.UpdateRadioState(radioName, Patch(None, None, None, Some(newPlayingState)));
      if newPlayingState && radio.value.currentSong.None? && |radio.value.queue| > 0 {
        assert store.radios[radioName] == radio.value.(isPlaying := true);
        PlayNextSong(radioName, startOk);
      } else {
        BroadcastToRadio(radioName, PlaybackState(newPlayingState));
      }
    }

    /** `GET /stream/:radioName` for listener `l`: a missing radio is `404`; an
        existing stream entry just gains the listener; otherwise the entry is
        created and playback started as `OpenStream` says. */
    method AttachListener(radioName: string, l: Listener, startOk: bool) returns (outcome: AttachOutcome)
      requires Valid()
      modifies store, this`activeStreams, this`outbox
      ensures Valid()
      ensures radioName !in old(store.radios) ==>
        && outcome == NotFound
        && store.radios == old(store.radios) && activeStreams == old(activeStreams) && outbox == old(outbox)
      ensures radioName in old(store.radios) && radioName in old(activeStreams) ==>
        && outcome == Attached
        && store.radios == old(store.radios) && outbox == old(outbox)
        && activeStreams == AddListener(old(activeStreams), radioName, l)
      ensures radioName in old(store.radios) && radioName !in old(activeStreams) ==>
        var r := old(store.radios)[radioName];
        && (r.currentSong.Some? ==>
              var started := Playback.StreamStarts(r.currentSong.value, startOk);
              && outcome == (if started then Attached else ServerError)
              && store.radios == old(store.radios) && outbox == old(outbox)
              && activeStreams == old(activeStreams)[radioName := Stream(started, if started then {l} else {})])
        && (r.currentSong.None? && r.queue == [] ==>
              && outcome == Attached
              && store.radios == old(store.radios) && outbox == old(outbox)
              && activeStreams == old(activeStreams)[radioName := Stream(false, {l})])
        && (r.currentSong.None? && r.queue != [] ==>
              && outcome == Attached
              && store.radios == old(store.radios)[radioName := Playback.Advance(r, startOk).state]
              && outbox == Deliver(old(outbox), Audience(radioName), Playback.Advance(r, startOk).room)
              && activeStreams == old(activeStreams)[radioName := Stream(Playback.StreamStarts(r.queue[0].song, startOk), {l})])
    {
      var radio := store.GetRadio(radioName);
      if radio.None? {
        return NotFound;
      }
      if radioName in activeStreams {
        Listen(radioName, l);
        return Attached;
      }
      outcome := OpenStream(radioName, radio.value, l, startOk);
    }

    /** The part of the `/stream` handler for a radio with no stream entry: an empty
        entry is made, then the current song is streamed or, failing a current
        song, the queue is advanced; a failed start of the current song is a `500`
        and the listener is not added. */
    method OpenStream(radioName: string, r: RadioState, l: Listener, startOk: bool) returns (outcome: AttachOutcome)
      requires Valid() && radioName in store.radios && store.radios[radioName] == r && radioName !in activeStreams
      modifies store, this`activeStreams, this`outbox
      ensures Valid()
      ensures r.currentSong.Some? ==>
        var started := Playback.StreamStarts(r.currentSong.value, startOk);
        && outcome == (if started then Attached else ServerError)
        && store.radios == old(store.radios) && outbox == old(outbox)
        && activeStreams == old(activeStreams)[radioName := Stream(started, if started then {l} else {})]
      ensures r.currentSong.None? && r.queue == [] ==>
        && outcome == Attached
        && store.radios == old(store.radios) && outbox == old(outbox)
        && activeStreams == old(activeStreams)[radioName := Stream(false, {l})]
      ensures r.currentSong.None? && r.queue != [] ==>
        && outcome == Attached
        && store.radios == old(store.radios)[radioName := Playback.Advance(r, startOk).state]
        && outbox == Deliver(old(outbox), Audience(radioName), Playback.Advance(r, startOk).room)
        && activeStreams == old(activeStreams)[radioName := Stream(Playback.StreamStarts(r.queue[0].song, startOk), {l})]
    {
      if r.currentSong.Some? {
        outcome := ResumeStream(radioName, r.currentSong.value, l, startOk);
      } else if |r.queue| > 0 {
        OpenEntry(radioName);
        AdvanceForListener(radioName, r, l, startOk);
        outcome := Attached;
      } else {
        OpenEntry(radioName);
        Listen(radioName, l);
        assert {} + {l} == {l};
        outcome := Attached;
      }
    }

    /** The `/stream` handler for a radio with nothing playing and a non-empty queue:
        the queue advances, then the listener joins the radio's fresh entry. */
    method AdvanceForListener(radioName: string, r: RadioState, l: Listener, startOk: bool)
      requires Valid() && radioName in store.radios && store.radios[radioName] == r
      requires radioName in activeStreams && activeStreams[radioName] == Stream(false, {})
      requires r.currentSong.None? && r.queue != []
      modifies store, this`activeStreams, this`outbox
      ensures Valid()
      ensures store.radios == old(store.radios)[radioName := Playback.Advance(r, startOk).state]
      ensures outbox == Deliver(old(outbox), Audience(radioName), Playback.Advance(r, startOk).room)
      ensures activeStreams == old(activeStreams)[radioName := Stream(Playback.StreamStarts(r.queue[0].song, startOk), {l})]
    {
      AdvanceRadio(radioName, startOk);
      Listen(radioName, l);
      assert {} + {l} == {l};
    }

    /** The `/stream` handler restarting the current song on a fresh entry. */
    method ResumeStream(radioName: string, song: Song, l: Listener, startOk: bool) returns (outcome: AttachOutcome)
      requires Valid() && radioName in store.radios && radioName !in activeStreams
      modifies this`activeStreams
      ensures Valid()
      ensures var started := Playback.StreamStarts(song, startOk);
        && outcome == (if started then Attached else ServerError)
        && activeStreams == old(activeStreams)[radioName := Stream(started, if started then {l} else {})]
    {
      OpenEntry(radioName);
      var started := StartStreaming(radioName, song, startOk);
      if started {
        Listen(radioName, l);
        assert {} + {l} == {l};
        outcome := Attached;
      } else {
        outcome := ServerError;
      }
    }

    /** A fresh stream entry for the radio: no process yet and no listeners. */
    method OpenEntry(radioName: string)
      requires Valid() && radioName in store.radios
      modifies this`activeStreams
      ensures Valid()
      ensures activeStreams == old(activeStreams)[radioName := Stream(false, {})]
    {
      activeStreams := activeStreams[radioName := Stream(false, {})];
    }

    /** The listener joins the radio's stream entry. */
    method Listen(radioName: string, l: Listener)
      requires Valid() && radioName in activeStreams
      modifies this`activeStreams
      ensures Valid()
      ensures activeStreams == AddListener(old(activeStreams), radioName, l)
    {
      var streamData := activeStreams[radioName];
      activeStreams := activeStreams[radioName := streamData.(listeners := streamData.listeners + {l})];
    }

    /** A listener's request closes: it leaves the stream entry, and an entry left
        without listeners is removed (its process killed) only when the radio's
        room is absent or empty. */
    method DetachListener(radioName: string, l: Listener)
      requires Valid()
      modifies this`activeStreams
      ensures Valid()
      ensures radioName !in old(activeStreams) ==> activeStreams == old(activeStreams)
      ensures radioName in old(activeStreams) ==>
        var left := old(activeStreams)[radioName].listeners - {l};
        activeStreams ==
          if left == {} && (radioName !in radioClients || radioClients[radioName] == {}) then old(activeStreams) - {radioName}
          else old(activeStreams)[radioName := old(activeStreams)[radioName].(listeners := left)]
    {
      if radioName in activeStreams {
        var streamData := activeStreams[radioName];
        streamData := streamData.(listeners := streamData.listeners - {l});
        activeStreams := activeStreams[radioName := streamData];
        if streamData.listeners == {} {
          if radioName !in radioClients || radioClients[radioName] == {} {
            activeStreams := activeStreams - {radioName};
          }
        }
      }
    }
  }
}
