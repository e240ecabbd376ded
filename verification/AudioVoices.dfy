/**
 * The voice tables of the audio engine (audio/audio_engine.cpp): which sounds are loaded, which
 * sources play them, and the list of sources of every sound.
 *
 * OpenAL is an oracle: a new buffer or source is a parameter (0 when OpenAL fails), a new source is
 * one that is not in use, and the sources that have finished are a set.
 */
module AudioVoices {
  type Source = nat

  datatype Voice = Voice(id: string, buffer: nat)

  datatype Tables = Tables(buffers: map<string, nat>, active: map<Source, Voice>, bySound: map<string, seq<Source>>)

  const EMPTY := Tables(map[], map[], map[])

  // ---------------------------------------------------------------------------
  // Consistency
  // ---------------------------------------------------------------------------

  predicate NoDuplicates(list: seq<Source>) {
    forall i, j :: 0 <= i < j < |list| ==> list[i] != list[j]
  }

  /** The lists are a partition of the active sources by their sound, without empty lists. */
  predicate Partitioned(t: Tables) {
    && (forall id :: id in t.bySound ==> t.bySound[id] != [] && NoDuplicates(t.bySound[id]))
    && (forall id, s :: id in t.bySound && s in t.bySound[id] ==> s in t.active && t.active[s].id == id)
    && (forall s :: s in t.active ==> t.active[s].id in t.bySound && s in t.bySound[t.active[s].id])
  }

  /** Every active sound is still loaded. */
  predicate Loaded(t: Tables) {
    forall s :: s in t.active ==> t.active[s].id in t.buffers
  }

  predicate Consistent(t: Tables) {
    Partitioned(t) && Loaded(t)
  }

  // ---------------------------------------------------------------------------
  // Taking sources away
  // ---------------------------------------------------------------------------

  function Kept(list: seq<Source>, gone: set<Source>): seq<Source> {
    if list == [] then []
    else
      var last := list[|list| - 1];
      Kept(list[..|list| - 1], gone) + if last in gone then [] else [last]
  }

  function Without(bySound: map<string, seq<Source>>, gone: set<Source>): map<string, seq<Source>> {
    map id | id in bySound && Kept(bySound[id], gone) != [] :: Kept(bySound[id], gone)
  }

  function Silenced(t: Tables, gone: set<Source>): Tables {
    Tables(t.buffers, t.active - gone, Without(t.bySound, gone))
  }

  function VoicesOf(t: Tables, id: string): set<Source> {
    set s | s in t.active && t.active[s].id == id
  }

  lemma {:induction false} KeptMeans(list: seq<Source>, gone: set<Source>)
    ensures forall s :: s in Kept(list, gone) <==> s in list && s !in gone
    ensures NoDuplicates(list) ==> NoDuplicates(Kept(list, gone))
  {
    if list != [] {
      var front, last := list[..|list| - 1], list[|list| - 1];
      KeptMeans(front, gone);
      assert list == front + [last];
    }
  }

  lemma {:induction false} KeptTwice(list: seq<Source>, a: set<Source>, b: set<Source>)
    ensures Kept(Kept(list, a), b) == Kept(list, a + b)
  {
    if list != [] {
      var front, last := list[..|list| - 1], list[|list| - 1];
      KeptTwice(front, a, b);
      if last !in a {
        assert (Kept(front, a) + [last])[..|Kept(front, a)|] == Kept(front, a);
      } else {
        assert Kept(front, a) + [] == Kept(front, a);
      }
    }
  }

  lemma {:induction false} KeptAll(list: seq<Source>, gone: set<Source>)
    requires forall s :: s in list ==> s !in gone
    ensures Kept(list, gone) == list
  {
    if list != [] {
      var front, last := list[..|list| - 1], list[|list| - 1];
      assert list == front + [last];
      KeptAll(front, gone);
    }
  }

  lemma SilencedTwice(t: Tables, a: set<Source>, b: set<Source>)
    ensures Silenced(Silenced(t, a), b) == Silenced(t, a + b)
  {
    hide Kept;
    assert (t.active - a) - b == t.active - (a + b);
    forall id | id in t.bySound ensures Kept(Kept(t.bySound[id], a), b) == Kept(t.bySound[id], a + b) {
      KeptTwice(t.bySound[id], a, b);
    }
    KeptNothing(b);
  }

  lemma KeptNothing(gone: set<Source>)
    ensures Kept([], gone) == []
  {
  }

  lemma SilencedKeeps(t: Tables, gone: set<Source>)
    requires Consistent(t)
    ensures Consistent(Silenced(t, gone))
  {
    hide Kept, NoDuplicates;
    forall id | id in t.bySound
      ensures NoDuplicates(Kept(t.bySound[id], gone))
      ensures forall s :: s in Kept(t.bySound[id], gone) <==> s in t.bySound[id] && s !in gone
    {
      KeptMeans(t.bySound[id], gone);
    }
    NotEmptyIf();
  }

  lemma NotEmptyIf()
    ensures forall list: seq<Source>, s :: s in list ==> list != []
  {
  }

  // ---------------------------------------------------------------------------
  // Operations
  // ---------------------------------------------------------------------------

  /** Unloading a loaded sound silences its voices. */
  function Unloaded(t: Tables, id: string): Tables {
    if id !in t.buffers then t
    else
      var silent := Silenced(t, VoicesOf(t, id));
      Tables(t.buffers - {id}, silent.active, silent.bySound)
  }

  /** A sound of the same name is unloaded first, even if loading then fails. */
  function LoadedAs(t: Tables, id: string, buffer: nat): Tables {
    var before := Unloaded(t, id);
    if buffer == 0 then before else before.(buffers := before.buffers[id := buffer])
  }

  /** A generated sound replaces the buffer of its name and leaves the voices alone. */
  function Generated(t: Tables, id: string, buffer: nat): Tables {
    if buffer == 0 then t else t.(buffers := t.buffers[id := buffer])
  }

  /** Generating the sounds one after the other. */
  function AllGenerated(t: Tables, ids: seq<string>, buffers: seq<nat>): Tables
    requires |ids| == |buffers|
  {
    if ids == [] then t
    else
      var last := |ids| - 1;
      Generated(AllGenerated(t, ids[..last], buffers[..last]), ids[last], buffers[last])
  }

  function Started(t: Tables, id: string, source: Source): Tables
    requires id in t.buffers
  {
    t.(active := t.active[source := Voice(id, t.buffers[id])],
       bySound := t.bySound[id := (if id in t.bySound then t.bySound[id] else []) + [source]])
  }

  /** What OpenAL does for a call of playSound: the sources that have stopped, and the new one or 0. */
  datatype Reply = Reply(stopped: set<Source>, source: Source, plays: bool)

  predicate PlaySucceeds(t: Tables, maxVoices: int, id: string, reply: Reply) {
    id in t.buffers && |Silenced(t, reply.stopped).active| < maxVoices && reply.source != 0 && reply.plays
  }

  /** Sources that have finished are cleared even if the sound is not played. */
  function Played(t: Tables, maxVoices: int, id: string, reply: Reply): Tables {
    if id !in t.buffers then t
    else
      var clean := Silenced(t, reply.stopped);
      if PlaySucceeds(t, maxVoices, id, reply) then Started(clean, id, reply.source) else clean
  }

  datatype Operation =
    | Load(id: string, buffer: nat)
    | Generate(id: string, buffer: nat)
    | Unload(id: string)
    | Play(id: string, maxVoices: int, reply: Reply)
    | StopSound(id: string)
    | StopInstance(source: Source)
    | StopAll
    | Cleanup(stopped: set<Source>)
    | Shutdown

  /** OpenAL never hands out a source that is in use. */
  predicate Possible(t: Tables, op: Operation) {
    op.Play? ==> op.reply.source !in Silenced(t, op.reply.stopped).active
  }

  function Applied(t: Tables, op: Operation): Tables {
    match op
    case Load(id, buffer) => LoadedAs(t, id, buffer)
    case Generate(id, buffer) => Generated(t, id, buffer)
    case Unload(id) => Unloaded(t, id)
    case Play(id, maxVoices, reply) => Played(t, maxVoices, id, reply)
    case StopSound(id) => Silenced(t, VoicesOf(t, id))
    case StopInstance(source) => Silenced(t, {source})
    case StopAll => Silenced(t, t.active.Keys)
    case Cleanup(stopped) => Silenced(t, stopped)
    case Shutdown => EMPTY
  }

  function Run(ops: seq<Operation>): Tables {
    if ops == [] then EMPTY else Applied(Run(ops[..|ops| - 1]), ops[|ops| - 1])
  }

  predicate PossibleRun(ops: seq<Operation>) {
    forall n :: 0 <= n < |ops| ==> Possible(Run(ops[..n]), ops[n])
  }

  // ---------------------------------------------------------------------------
  // Every run
  // ---------------------------------------------------------------------------

  lemma UnloadedKeeps(t: Tables, id: string)
    requires Consistent(t)
    ensures Consistent(Unloaded(t, id))
    ensures VoicesOf(Unloaded(t, id), id) == if id in t.buffers then {} else VoicesOf(t, id)
  {
    hide Partitioned, Without;
    SilencedKeeps(t, VoicesOf(t, id));
    SamePartition(Silenced(t, VoicesOf(t, id)), Unloaded(t, id));
  }

  lemma SamePartition(t: Tables, u: Tables)
    requires Partitioned(t)
    ensures u.active == t.active && u.bySound == t.bySound ==> Partitioned(u)
  {
  }

  lemma LoadedKeeps(t: Tables, id: string, buffer: nat)
    requires Consistent(t)
    ensures Consistent(LoadedAs(t, id, buffer))
  {
    hide Partitioned, Unloaded;
    UnloadedKeeps(t, id);
    SamePartition(Unloaded(t, id), LoadedAs(t, id, buffer));
  }

  lemma StartedKeeps(t: Tables, id: string, source: Source)
    requires Consistent(t) && id in t.buffers && source !in t.active
    ensures Consistent(Started(t, id, source))
    ensures |Started(t, id, source).active| == |t.active| + 1
  {
    hide Partitioned;
    StartedIsPartitioned(t, id, source);
    OneMore(t.active, source, Voice(id, t.buffers[id]));
  }

  lemma OneMore(active: map<Source, Voice>, source: Source, v: Voice)
    requires source !in active
    ensures |active[source := v]| == |active| + 1
  {
    assert active[source := v].Keys == active.Keys + {source};
  }

  lemma StartedIsPartitioned(t: Tables, id: string, source: Source)
    requires Partitioned(t) && id in t.buffers && source !in t.active
    ensures Partitioned(Started(t, id, source))
  {
    hide NoDuplicates;
    var u := Started(t, id, source);
    var list := if id in t.bySound then t.bySound[id] else [];
    EmptyHasNoDuplicates();
    Appended(list, source);
    var longer := list + [source];
    assert u.bySound == t.bySound[id := longer];
    forall s | s in u.active ensures u.active[s].id in u.bySound && s in u.bySound[u.active[s].id] {
      if s == source { assert s in longer; }
    }
  }

  lemma EmptyHasNoDuplicates()
    ensures NoDuplicates([])
  {
  }

  lemma Appended(list: seq<Source>, source: Source)
    requires NoDuplicates(list) && source !in list
    ensures NoDuplicates(list + [source])
    ensures forall s :: s in list + [source] <==> s in list || s == source
  {
    forall i | 0 <= i < |list| ensures list[i] != source {
      var a := list[i];
      assert a in list;
    }
  }

  lemma AppliedKeeps(t: Tables, op: Operation)
    requires Consistent(t) && Possible(t, op)
    ensures Consistent(Applied(t, op))
  {
    hide Partitioned, Without, Started, VoicesOf, Unloaded, LoadedAs;
    match op {
      case Load(id, buffer) => LoadedKeeps(t, id, buffer);
      case Generate(id, buffer) => SamePartition(t, Applied(t, op));
      case Unload(id) => UnloadedKeeps(t, id);
      case Play(id, maxVoices, reply) =>
        SilencedKeeps(t, reply.stopped);
        if PlaySucceeds(t, maxVoices, id, reply) {
          StartedKeeps(Silenced(t, reply.stopped), id, reply.source);
        }
      case StopSound(id) => SilencedKeeps(t, VoicesOf(t, id));
      case StopInstance(source) => SilencedKeeps(t, {source});
      case StopAll => SilencedKeeps(t, t.active.Keys);
      case Cleanup(stopped) => SilencedKeeps(t, stopped);
      case Shutdown => EmptyIsConsistent();
    }
  }

  /** After any run the tables agree and every sound that plays is loaded. */
  lemma {:induction false} RunIsConsistent(ops: seq<Operation>)
    requires PossibleRun(ops)
    ensures Consistent(Run(ops))
  {
    hide Applied, Consistent, Possible;
    if ops == [] {
      EmptyIsConsistent();
    } else {
      var front := ops[..|ops| - 1];
      assert forall n :: 0 <= n < |front| ==> front[..n] == ops[..n];
      RunIsConsistent(front);
      AppliedKeeps(Run(front), ops[|ops| - 1]);
    }
  }

  lemma {:induction false} AllGeneratedKeeps(t: Tables, ids: seq<string>, buffers: seq<nat>)
    requires Consistent(t) && |ids| == |buffers|
    ensures Consistent(AllGenerated(t, ids, buffers))
  {
    hide Consistent;
    if ids != [] {
      var last := |ids| - 1;
      AllGeneratedKeeps(t, ids[..last], buffers[..last]);
      AppliedKeeps(AllGenerated(t, ids[..last], buffers[..last]), Generate(ids[last], buffers[last]));
    }
  }

  /** If every sound can be generated, all of them are loaded; the voices are left alone. */
  lemma {:induction false} AllGeneratedLoaded(t: Tables, ids: seq<string>, buffers: seq<nat>)
    requires |ids| == |buffers|
    ensures var u := AllGenerated(t, ids, buffers); u.active == t.active && u.bySound == t.bySound
    ensures (forall i :: 0 <= i < |ids| ==> buffers[i] != 0)
            ==> AllGenerated(t, ids, buffers).buffers.Keys == t.buffers.Keys + set id | id in ids
  {
    if ids != [] {
      var last := |ids| - 1;
      AllGeneratedLoaded(t, ids[..last], buffers[..last]);
      assert ids == ids[..last] + [ids[last]];
    }
  }

  lemma EmptyIsConsistent()
    ensures Consistent(EMPTY)
  {
  }

  /** A sound that is played leaves at most the maximum number of voices. */
  lemma PlayKeepsLimit(t: Tables, maxVoices: int, id: string, reply: Reply)
    requires Consistent(t) && Possible(t, Play(id, maxVoices, reply)) && PlaySucceeds(t, maxVoices, id, reply)
    ensures |Played(t, maxVoices, id, reply).active| <= maxVoices
    ensures reply.source in VoicesOf(Played(t, maxVoices, id, reply), id)
  {
    hide Partitioned, Without;
    SilencedKeeps(t, reply.stopped);
    StartedKeeps(Silenced(t, reply.stopped), id, reply.source);
  }

  // ---------------------------------------------------------------------------
  // What every operation changes
  // ---------------------------------------------------------------------------

  /** The operation takes this voice away. */
  predicate Ends(t: Tables, op: Operation, s: Source)
    requires s in t.active
  {
    match op
    case Load(id, _) => t.active[s].id == id
    case Generate(_, _) => false
    case Unload(id) => t.active[s].id == id
    case Play(id, _, reply) => id in t.buffers && s in reply.stopped
    case StopSound(id) => t.active[s].id == id
    case StopInstance(source) => s == source
    case StopAll => true
    case Cleanup(stopped) => s in stopped
    case Shutdown => true
  }

  /** The voices that play on, so that finished ones do not count against the limit. */
  function StillPlaying(t: Tables, stopped: set<Source>): set<Source> {
    set s | s in t.active && s !in stopped
  }

  /** The operation starts this voice: the sound is loaded, fewer voices than the limit play on, and OpenAL agrees. */
  predicate Begins(t: Tables, op: Operation, s: Source) {
    op.Play? && s == op.reply.source && s != 0 && op.reply.plays && op.id in t.buffers
    && |StillPlaying(t, op.reply.stopped)| < op.maxVoices
  }

  lemma ActiveCount(t: Tables, stopped: set<Source>)
    ensures |Silenced(t, stopped).active| == |StillPlaying(t, stopped)|
  {
    assert Silenced(t, stopped).active.Keys == StillPlaying(t, stopped);
  }

  /** A voice plays after an operation if and only if it played and was not ended, or was begun, with the buffer of then. */
  lemma VoicesAfter(t: Tables, op: Operation, s: Source)
    requires Consistent(t) && Possible(t, op)
    ensures s in Applied(t, op).active <==> (s in t.active && !Ends(t, op, s)) || Begins(t, op, s)
    ensures s in Applied(t, op).active ==>
              Applied(t, op).active[s] == if Begins(t, op, s) then Voice(op.id, t.buffers[op.id]) else t.active[s]
  {
    hide Without, Partitioned;
    if op.Play? { ActiveCount(t, op.reply.stopped); }
  }

  /** The buffer that the operation leaves under a name, or 0 if none. */
  function BufferAfter(t: Tables, op: Operation, id: string): nat {
    var before := if id in t.buffers then t.buffers[id] else 0;
    match op
    case Load(loaded, buffer) => if id == loaded then buffer else before
    case Generate(loaded, buffer) => if id == loaded && buffer != 0 then buffer else before
    case Unload(unloaded) => if id == unloaded then 0 else before
    case Shutdown => 0
    case _ => before
  }

  /** Buffers have no number 0. */
  predicate Numbered(t: Tables) {
    forall id :: id in t.buffers ==> t.buffers[id] != 0
  }

  /** Only loading, generating, unloading and shutting down change which sounds are loaded. */
  lemma BuffersAfter(t: Tables, op: Operation, id: string)
    requires Numbered(t)
    ensures Numbered(Applied(t, op))
    ensures id in Applied(t, op).buffers <==> BufferAfter(t, op, id) != 0
    ensures id in Applied(t, op).buffers ==> Applied(t, op).buffers[id] == BufferAfter(t, op, id)
  {
    hide Without;
  }

  // ---------------------------------------------------------------------------
  // The buffers of the voices
  // ---------------------------------------------------------------------------

  /** Every voice plays the buffer that its sound has now. */
  predicate UpToDate(t: Tables) {
    forall s :: s in t.active ==> t.active[s].id in t.buffers && t.active[s].buffer == t.buffers[t.active[s].id]
  }

  lemma SilencedUpToDate(t: Tables, gone: set<Source>)
    requires UpToDate(t)
    ensures UpToDate(Silenced(t, gone))
  {
    hide Without;
  }

  lemma PlayedUpToDate(t: Tables, maxVoices: int, id: string, reply: Reply)
    requires UpToDate(t)
    ensures UpToDate(Played(t, maxVoices, id, reply))
  {
    hide Silenced;
    SilencedUpToDate(t, reply.stopped);
    SilencedBuffers(t, reply.stopped);
  }

  lemma SilencedBuffers(t: Tables, gone: set<Source>)
    ensures Silenced(t, gone).buffers == t.buffers
  {
  }

  lemma LoadedUpToDate(t: Tables, id: string, buffer: nat)
    requires Loaded(t) && UpToDate(t)
    ensures UpToDate(LoadedAs(t, id, buffer))
  {
    hide Unloaded;
    UnloadedUpToDate(t, id);
  }

  /** Only a system sound that is generated again while it plays leaves voices with an old buffer. */
  lemma UpToDateIff(t: Tables, op: Operation)
    requires Consistent(t) && Possible(t, op) && UpToDate(t)
    ensures UpToDate(Applied(t, op)) <==>
            !(op.Generate? && op.buffer != 0 && VoicesOf(t, op.id) != {} && t.buffers[op.id] != op.buffer)
  {
    hide Without, VoicesOf, Partitioned, Unloaded, Silenced, Played, LoadedAs, PlaySucceeds;
    match op {
      case Generate(id, buffer) => GeneratedUpToDateIff(t, id, buffer);
      case Load(id, buffer) => LoadedUpToDate(t, id, buffer);
      case Unload(id) => UnloadedUpToDate(t, id);
      case Play(id, maxVoices, reply) => PlayedUpToDate(t, maxVoices, id, reply);
      case StopSound(id) => SilencedUpToDate(t, VoicesOf(t, id));
      case StopInstance(source) => SilencedUpToDate(t, {source});
      case StopAll => SilencedUpToDate(t, t.active.Keys);
      case Cleanup(stopped) => SilencedUpToDate(t, stopped);
      case Shutdown =>
    }
  }

  lemma RunMore(ops: seq<Operation>, op: Operation)
    ensures Run(ops + [op]) == Applied(Run(ops), op)
    ensures PossibleRun(ops) && Possible(Run(ops), op) ==> PossibleRun(ops + [op])
  {
    hide Possible, Applied;
    assert (ops + [op])[..|ops|] == ops;
    assert forall n :: 0 <= n < |ops| ==> (ops + [op])[..n] == ops[..n];
  }

  /** The system sounds are loaded again while the alarm plays: it goes on with the old buffer. */
  lemma AlarmKeepsOldBuffer()
    ensures var ops := [Generate("alarm", 1), Play("alarm", 64, Reply({}, 1, true)), Generate("alarm", 2)];
            PossibleRun(ops) && UpToDate(Run(ops[..2])) && !UpToDate(Run(ops))
  {
    AnyAlarmKeepsOldBuffer("alarm");
  }

  lemma AnyAlarmKeepsOldBuffer(id: string)
    ensures var ops := [Generate(id, 1), Play(id, 64, Reply({}, 1, true)), Generate(id, 2)];
            PossibleRun(ops) && UpToDate(Run(ops[..2])) && !UpToDate(Run(ops))
  {
    hide Run, PossibleRun;
    var a, b, c := Generate(id, 1), Play(id, 64, Reply({}, 1, true)), Generate(id, 2);
    EmptyRun();
    RunMore([], a);
    RunMore([] + [a], b);
    RunMore([] + [a] + [b], c);
    assert [] + [a] + [b] + [c] == [a, b, c];
    assert [a, b, c][..2] == [] + [a] + [b];
    var one := Tables(map[id := 1], map[], map[]);
    assert Run([] + [a]) == one;
    AfterPlay(id, one);
    assert Run([] + [a] + [b]) == Tables(map[id := 1], map[1 := Voice(id, 1)], map[id := [1]]);
  }

  lemma EmptyRun()
    ensures Run([]) == EMPTY && PossibleRun([])
  {
  }

  lemma AfterPlay(id: string, t: Tables)
    requires t == Tables(map[id := 1], map[], map[])
    ensures Possible(t, Play(id, 64, Reply({}, 1, true)))
    ensures Played(t, 64, id, Reply({}, 1, true)) == Tables(map[id := 1], map[1 := Voice(id, 1)], map[id := [1]])
  {
    assert Silenced(t, {}) == t;
    assert [] + [1] == [1];
  }

  lemma GeneratedUpToDateIff(t: Tables, id: string, buffer: nat)
    requires UpToDate(t)
    ensures UpToDate(t.(buffers := t.buffers[id := buffer])) <==> (VoicesOf(t, id) != {} ==> t.buffers[id] == buffer)
  {
    var u := t.(buffers := t.buffers[id := buffer]);
    if VoicesOf(t, id) != {} {
      var s :| s in VoicesOf(t, id);
      assert s in u.active && u.active[s].buffer == t.buffers[id];
    } else {
      forall s | s in u.active ensures u.active[s].id != id {
        assert s !in VoicesOf(t, id);
      }
    }
  }

  lemma UnloadedUpToDate(t: Tables, id: string)
    requires Loaded(t) && UpToDate(t)
    ensures UpToDate(Unloaded(t, id)) && forall s :: s in Unloaded(t, id).active ==> Unloaded(t, id).active[s].id != id
  {
    hide Without;
  }
}
