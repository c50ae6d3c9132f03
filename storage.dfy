/** The in-memory station store (`MemStorage`): a map from radio name to its
    state, with the queue operations the server uses. */
module Storage {
  import opened Schema

  /** `Partial<RadioState>`: the fields an update sets; `None` leaves a field alone. */
  datatype Patch = Patch(
    name: Option<string>,
    queue: Option<seq<QueueItem>>,
    currentSong: Option<Option<Song>>,
    isPlaying: Option<bool>)

  /** The patch that sets only `currentSong` and `isPlaying`. */
  function PlaybackPatch(song: Option<Song>, playing: bool): Patch
  {
    Patch(None, None, Some(song), Some(playing))
  }

  /** `{ ...r, ...p }`: every field the patch carries is overwritten, every other one is kept. */
  function ApplyPatch(r: RadioState, p: Patch): (u: RadioState)
    ensures u.name == (if p.name.Some? then p.name.value else r.name)
    ensures u.queue == (if p.queue.Some? then p.queue.value else r.queue)
    ensures u.currentSong == (if p.currentSong.Some? then p.currentSong.value else r.currentSong)
    ensures u.isPlaying == (if p.isPlaying.Some? then p.isPlaying.value else r.isPlaying)
  {
    var r1 := if p.name.Some? then r.(name := p.name.value) else r;
    var r2 := if p.queue.Some? then r1.(queue := p.queue.value) else r1;
    var r3 := if p.currentSong.Some? then r2.(currentSong := p.currentSong.value) else r2;
    if p.isPlaying.Some? then r3.(isPlaying := p.isPlaying.value) else r3
  }

  /** `queue.shift()`: the head, if any, and what is left; head and rest rebuild the queue. */
  function Dequeue(q: seq<QueueItem>): (r: (Option<QueueItem>, seq<QueueItem>))
    ensures r.0.None? <==> q == []
    ensures r.0.None? ==> r.1 == []
    ensures r.0.Some? ==> [r.0.value] + r.1 == q
  {
    if q == [] then (None, []) else (Some(q[0]), q[1..])
  }

  /** `queue.filter(item => item.id !== id)`. */
  function RemoveId(q: seq<QueueItem>, id: string): (r: seq<QueueItem>)
    ensures forall x :: x in r <==> x in q && x.id != id
    ensures |r| <= |q|
  {
    if q == [] then []
    else if q[0].id == id then RemoveId(q[1..], id)
    else [q[0]] + RemoveId(q[1..], id)
  }

  /** Filtering an id that no item carries changes nothing. */
  lemma {:induction false} RemoveAbsentId(q: seq<QueueItem>, id: string)
    requires forall x :: x in q ==> x.id != id
    ensures RemoveId(q, id) == q
  {
    if q != [] {
      RemoveAbsentId(q[1..], id);
    }
  }

  /** Filtering works piecewise, so the kept items stay in their old order. */
  lemma {:induction false} RemoveIdDistributes(a: seq<QueueItem>, b: seq<QueueItem>, id: string)
    ensures RemoveId(a + b, id) == RemoveId(a, id) + RemoveId(b, id)
  {
    if a != [] {
      assert (a + b)[1..] == a[1..] + b;
      RemoveIdDistributes(a[1..], b, id);
    } else {
      assert a + b == b;
    }
  }

  /** A queue operation: `addToQueue` pushes at the back, `getNextInQueue` pops the front. */
  datatype QueueOp = Push(item: QueueItem) | Pop

  /** Runs `ops` on queue `q`; gives the final queue and the items popped, in order. */
  function RunQueue(q: seq<QueueItem>, ops: seq<QueueOp>): (seq<QueueItem>, seq<QueueItem>)
    decreases |ops|
  {
    if ops == [] then (q, [])
    else match ops[0]
      case Push(x) => RunQueue(q + [x], ops[1..])
      case Pop =>
        var (head, rest) := Dequeue(q);
        var (final, popped) := RunQueue(rest, ops[1..]);
        (final, if head.Some? then [head.value] + popped else popped)
  }

  /** The items pushed by `ops`, in order. */
  function Pushed(ops: seq<QueueOp>): seq<QueueItem>
    decreases |ops|
  {
    if ops == [] then []
    else match ops[0]
      case Push(x) => [x] + Pushed(ops[1..])
      case Pop => Pushed(ops[1..])
  }

  /** FIFO: whatever the interleaving of pushes and pops, the items popped followed
      by the final queue are the initial queue followed by the items pushed. */
  lemma {:induction false} FifoOrder(q: seq<QueueItem>, ops: seq<QueueOp>)
    ensures RunQueue(q, ops).1 + RunQueue(q, ops).0 == q + Pushed(ops)
    decreases |ops|
  {
    if ops != [] {
      match ops[0]
      case Push(x) =>
        FifoOrder(q + [x], ops[1..]);
        assert (q + [x]) + Pushed(ops[1..]) == q + ([x] + Pushed(ops[1..]));
      case Pop =>
        var (head, rest) := Dequeue(q);
        FifoOrder(rest, ops[1..]);
        if head.Some? {
          assert ([head.value] + RunQueue(rest, ops[1..]).1) + RunQueue(rest, ops[1..]).0
              == [head.value] + (rest + Pushed(ops[1..]));
        }
    }
  }

  /** `states` lists the value of every key of `radios` exactly once. */
  ghost predicate ListsEachOnce(states: seq<RadioState>, radios: map<string, RadioState>)
  {
    exists names :: EnumeratedBy(states, radios, names)
  }

  ghost predicate EnumeratedBy(states: seq<RadioState>, radios: map<string, RadioState>, names: seq<string>)
  {
    && |names| == |states|
    && (forall i, j :: 0 <= i < j < |names| ==> names[i] != names[j])
    && (forall n :: n in radios <==> n in names)
    && (forall i :: 0 <= i < |names| ==> names[i] in radios && states[i] == radios[names[i]])
  }

  class MemStorage {
    var radios: map<string, RadioState>

    /** A fresh store holds the single idle radio "lofi". */
    constructor ()
      ensures radios == map["lofi" := EmptyRadio("lofi")]
    {
      radios := map["lofi" := EmptyRadio("lofi")];
    }

    method GetRadio(name: string) returns (r: Option<RadioState>)
      ensures r.Some? <==> name in radios
      ensures r.Some? ==> r.value == radios[name]
    {
      r := if name in radios then Some(radios[name]) else None;
    }

    /** Stores an empty, idle radio under `name`, replacing any radio already there. */
    method CreateRadio(name: string) returns (r: RadioState)
      modifies this
      ensures r == EmptyRadio(name)
      ensures radios == old(radios)[name := r]
    {
      r := EmptyRadio(name);
      radios := radios[name := r];
    }

    method UpdateRadioState(name: string, p: Patch) returns (r: Result<RadioState>)
      modifies this
      ensures name !in old(radios) ==> r == Err("Radio " + name + " not found") && radios == old(radios)
      ensures name in old(radios) ==>
        r == Ok(ApplyPatch(old(radios)[name], p)) && radios == old(radios)[name := r.value]
    {
      if name !in radios {
        return Err("Radio " + name + " not found");
      }
      var updated := ApplyPatch(radios[name], p);
      radios := radios[name := updated];
      r := Ok(updated);
    }

    /** `Array.from(radios.values())`. */
    method GetAllRadios() returns (states: seq<RadioState>)
      ensures ListsEachOnce(states, radios)
    {
      var remaining := radios.Keys;
      states := [];
      ghost var names: seq<string> := [];
      while remaining != {}
        invariant remaining <= radios.Keys
        invariant |names| == |states|
        invariant forall i, j :: 0 <= i < j < |names| ==> names[i] != names[j]
        invariant forall n :: n in names <==> n in radios && n !in remaining
        invariant forall i :: 0 <= i < |names| ==> names[i] in radios && states[i] == radios[names[i]]
        decreases remaining
      {
        var n :| n in remaining;
        states := states + [radios[n]];
        names := names + [n];
        remaining := remaining - {n};
      }
      assert EnumeratedBy(states, radios, names);
    }

    /** Appends a new item carrying `song`; `itemId` and `now` stand for `randomUUID()` and `Date.now()`. */
    method AddToQueue(radioName: string, song: Song, itemId: string, now: int) returns (r: Result<QueueItem>)
      modifies this
      ensures radioName !in old(radios) ==>
        r == Err("Radio " + radioName + " not found") && radios == old(radios)
      ensures radioName in old(radios) ==>
        && r == Ok(QueueItem(itemId, song, now))
        && radios == old(radios)[radioName := old(radios)[radioName].(queue := old(radios)[radioName].queue + [r.value])]
    {
      if radioName !in radios {
        return Err("Radio " + radioName + " not found");
      }
      var item := QueueItem(itemId, song, now);
      var radio := radios[radioName];
      radios := radios[radioName := radio.(queue := radio.queue + [item])];
      r := Ok(item);
    }

    method RemoveFromQueue(radioName: string, itemId: string) returns (r: Result<()>)
      modifies this
      ensures radioName !in old(radios) ==>
        r == Err("Radio " + radioName + " not found") && radios == old(radios)
      ensures radioName in old(radios) ==>
        && r == Ok(())
        && radios == old(radios)[radioName := old(radios)[radioName].(queue := RemoveId(old(radios)[radioName].queue, itemId))]
    {
      if radioName !in radios {
        return Err("Radio " + radioName + " not found");
      }
      var radio := radios[radioName];
      radios := radios[radioName := radio.(queue := RemoveId(radio.queue, itemId))];
      r := Ok(());
    }

    /** Pops the head of a radio's queue; a missing radio or an empty queue gives nothing and changes nothing. */
    method GetNextInQueue(radioName: string) returns (r: Option<QueueItem>)
      modifies this
      ensures radioName !in old(radios) || old(radios)[radioName].queue == [] ==>
        r == None && radios == old(radios)
      ensures radioName in old(radios) && old(radios)[radioName].queue != [] ==>
        && r == Some(old(radios)[radioName].queue[0])
        && radios == old(radios)[radioName := old(radios)[radioName].(queue := old(radios)[radioName].queue[1..])]
    {
      if radioName !in radios || radios[radioName].queue == [] {
        return None;
      }
      var radio := radios[radioName];
      var (head, rest) := Dequeue(radio.queue);
      radios := radios[radioName := radio.(queue := rest)];
      r := head;
    }

    // The four operations below are called by the server but have no definition
    // in the store; they are given the plain map meaning.

    /** `radioExists(name)`: membership. */
    predicate RadioExists(name: string)
      reads this
      ensures RadioExists(name) <==> exists info :: info in AllRadioInfo() && info.name == name
    {
      assert name in radios ==> RadioInfo(name, |radios[name].queue|, radios[name].isPlaying) in AllRadioInfo();
      name in radios
    }

    /** `getAllRadioInfo()`: one summary per stored radio. */
    function AllRadioInfo(): (infos: set<RadioInfo>)
      reads this
      ensures forall n :: n in radios ==> RadioInfo(n, |radios[n].queue|, radios[n].isPlaying) in infos
      ensures forall info :: info in infos ==>
        info.name in radios && info == RadioInfo(info.name, |radios[info.name].queue|, radios[info.name].isPlaying)
    {
      set n | n in radios :: RadioInfo(n, |radios[n].queue|, radios[n].isPlaying)
    }

    /** `renameRadio(oldName, newName)`: moves the entry to the new key and renames it. */
    method RenameRadio(oldName: string, newName: string) returns (r: Result<()>)
      modifies this
      ensures oldName !in old(radios) ==> r == Err("Radio " + oldName + " not found") && radios == old(radios)
      ensures oldName in old(radios) ==>
        r == Ok(()) && radios == (old(radios) - {oldName})[newName := old(radios)[oldName].(name := newName)]
    {
      if oldName !in radios {
        return Err("Radio " + oldName + " not found");
      }
      var radio := radios[oldName];
      radios := (radios - {oldName})[newName := radio.(name := newName)];
      r := Ok(());
    }

    /** `deleteRadio(name)`: removes the entry. */
    method DeleteRadio(name: string)
      modifies this
      ensures radios == old(radios) - {name}
    {
      radios := radios - {name};
    }
  }
}
