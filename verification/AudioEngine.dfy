/**
 * The operations of the audio engine on its voice tables (audio/audio_engine.cpp, class AudioEngine
 * and its Impl), against AudioVoices.
 */
module AudioEngine {
  import opened AudioVoices
  import opened Common

  // ---------------------------------------------------------------------------
  // Erasing entries is taking sources away
  // ---------------------------------------------------------------------------

  lemma {:induction false} KeptNone(list: seq<Source>, gone: set<Source>)
    requires forall s :: s in list ==> s in gone
    ensures Kept(list, gone) == []
  {
    if list != [] {
      var front, last := list[..|list| - 1], list[|list| - 1];
      assert list == front + [last];
      KeptNone(front, gone);
    }
  }

  lemma ErasedSound(t: Tables, id: string)
    requires Partitioned(t) && id in t.bySound
    ensures Without(t.bySound, VoicesOf(t, id)) == t.bySound - {id}
    ensures t.active - VoicesOf(t, id) == t.active - Elements(t.bySound[id])
  {
    hide Kept, NoDuplicates;
    var gone := VoicesOf(t, id);
    assert forall s :: s in gone <==> s in t.bySound[id];
    forall k | k in t.bySound ensures Kept(t.bySound[k], gone) == if k == id then [] else t.bySound[k] {
      if k == id {
        KeptNone(t.bySound[k], gone);
      } else {
        KeptAll(t.bySound[k], gone);
      }
    }
  }

  lemma NoSuchSound(t: Tables, id: string)
    requires Partitioned(t) && id !in t.bySound
    ensures VoicesOf(t, id) == {} && Silenced(t, VoicesOf(t, id)) == t
  {
    assert forall s :: s in t.active ==> t.active[s].id in t.bySound;
    NothingSilenced(t);
  }

  lemma NothingSilenced(t: Tables)
    requires Partitioned(t)
    ensures Silenced(t, {}) == t
  {
    hide Kept, NoDuplicates;
    forall k | k in t.bySound ensures Kept(t.bySound[k], {}) == t.bySound[k] {
      KeptAll(t.bySound[k], {});
    }
  }

  /** The table of lists after a source was removed from the list of its sound. */
  function Dropped(bySound: map<string, seq<Source>>, id: string, source: Source): map<string, seq<Source>> {
    if id !in bySound then bySound
    else
      var list := Kept(bySound[id], {source});
      if list == [] then bySound - {id} else bySound[id := list]
  }

  lemma DroppedSource(t: Tables, source: Source)
    requires Partitioned(t) && source in t.active
    ensures Dropped(t.bySound, t.active[source].id, source) == Without(t.bySound, {source})
  {
    hide Kept, NoDuplicates;
    forall k | k in t.bySound && k != t.active[source].id ensures Kept(t.bySound[k], {source}) == t.bySound[k] {
      KeptAll(t.bySound[k], {source});
    }
  }

  lemma ClearedAll(t: Tables)
    requires Partitioned(t)
    ensures Silenced(t, t.active.Keys) == Tables(t.buffers, map[], map[])
  {
    hide Kept, NoDuplicates;
    forall k | k in t.bySound ensures Kept(t.bySound[k], t.active.Keys) == [] {
      KeptNone(t.bySound[k], t.active.Keys);
    }
  }

  // ---------------------------------------------------------------------------
  // The engine
  // ---------------------------------------------------------------------------

  /** The names of the generated sounds, in their order. */
  const SYSTEM_SOUNDS :=
    ["success", "error", "warning", "click", "hover", "alarm", "notification", "info", "startup", "shutdown", "save",
     "open", "close", "compile_ok", "compile_err", "breakpoint", "step", "search", "connect", "disconnect", "commit",
     "sync", "bell"]

  class Engine {
    var initialized: bool
    var soundBuffers: map<string, nat>
    var activeSources: map<Source, Voice>
    var soundToSources: map<string, seq<Source>>
    var maxVoiceCount: int
    var totalPlayed: nat

    ghost function State(): Tables
      reads this
    {
      Tables(soundBuffers, activeSources, soundToSources)
    }

    ghost predicate Valid()
      reads this
    {
      Consistent(State()) && (!initialized ==> State() == EMPTY)
    }

    constructor ()
      ensures Valid() && !initialized && State() == Run([]) && maxVoiceCount == 64 && totalPlayed == 0
    {
      initialized := false;
      soundBuffers, activeSources, soundToSources := map[], map[], map[];
      maxVoiceCount := 64;
      totalPlayed := 0;
    }

    /** Opens the device and generates the system sounds, whose buffers are a parameter. */
    method Initialize(opens: bool, buffers: seq<nat>) returns (ok: bool)
      requires Valid() && |buffers| == |SYSTEM_SOUNDS|
      modifies this`initialized, this`soundBuffers
      ensures Valid() && initialized == ok == (old(initialized) || opens)
      ensures State() == if old(initialized) || !opens then old(State())
                         else AllGenerated(old(State()), SYSTEM_SOUNDS, buffers)
    {
      hide Consistent;
      if initialized { return true; }
      if !opens { return false; }
      initialized := true;
      var allOk := LoadSystemSounds(buffers);
      ok := true;
    }

    /** A buffer is 0 if OpenAL cannot create it; then the other sounds are still generated. */
    method LoadSystemSounds(buffers: seq<nat>) returns (allOk: bool)
      requires Valid() && |buffers| == |SYSTEM_SOUNDS|
      modifies this`soundBuffers
      ensures Valid()
      ensures State() == if initialized then AllGenerated(old(State()), SYSTEM_SOUNDS, buffers) else old(State())
      ensures allOk == (initialized && forall i :: 0 <= i < |buffers| ==> buffers[i] != 0)
    {
      hide Consistent, AllGenerated;
      if !initialized { return false; }
      AllGeneratedKeeps(State(), SYSTEM_SOUNDS, buffers);
      allOk := GenerateAll(SYSTEM_SOUNDS, buffers);
    }

    method GenerateAll(ids: seq<string>, buffers: seq<nat>) returns (allOk: bool)
      requires |ids| == |buffers|
      modifies this`soundBuffers
      ensures State() == AllGenerated(old(State()), ids, buffers)
      ensures allOk == forall i :: 0 <= i < |ids| ==> buffers[i] != 0
    {
      hide Generated;
      allOk := true;
      for i := 0 to |ids|
        invariant State() == AllGenerated(old(State()), ids[..i], buffers[..i])
        invariant allOk == forall j :: 0 <= j < i ==> buffers[j] != 0
      {
        assert ids[..i + 1][..i] == ids[..i] && buffers[..i + 1][..i] == buffers[..i];
        var ok := Generate(ids[i], buffers[i]);
        allOk := allOk && ok;
      }
      assert ids[..|ids|] == ids && buffers[..|ids|] == buffers;
    }

    /** The table in generateTone and its like. */
    method Generate(id: string, buffer: nat) returns (ok: bool)
      modifies this`soundBuffers
      ensures State() == Generated(old(State()), id, buffer) && ok == (buffer != 0)
    {
      if buffer == 0 { return false; }
      soundBuffers := soundBuffers[id := buffer];
      ok := true;
    }

    /** Stops everything and forgets all sounds. */
    method Shutdown()
      requires Valid()
      modifies this`initialized, this`soundBuffers, this`activeSources, this`soundToSources
      ensures Valid() && !initialized && State() == Applied(old(State()), AudioVoices.Operation.Shutdown)
    {
      if initialized {
        activeSources, soundToSources, soundBuffers := map[], map[], map[];
        initialized := false;
      }
    }

    method SetMaxVoices(max: int)
      modifies this`maxVoiceCount
      ensures maxVoiceCount == if max < 1 then 1 else max
    {
      maxVoiceCount := if max < 1 then 1 else max;
    }

    /** Stops and forgets the sources of the list. */
    method Forget(sources: seq<Source>)
      modifies this`activeSources
      ensures activeSources == old(activeSources) - Elements(sources)
    {
      for i := 0 to |sources|
        invariant activeSources == old(activeSources) - Elements(sources[..i])
      {
        var source := sources[i];
        assert sources[..i + 1] == sources[..i] + [source];
        activeSources := activeSources - {source};
      }
      assert sources[..|sources|] == sources;
    }

    method StopSound(id: string) returns (ok: bool)
      requires Valid()
      modifies this`activeSources, this`soundToSources
      ensures Valid() && State() == Silenced(old(State()), VoicesOf(old(State()), id))
      ensures ok == (VoicesOf(old(State()), id) != {})
    {
      hide Partitioned, Silenced, VoicesOf;
      SilencedKeeps(State(), VoicesOf(State(), id));
      SilencedEmpty(VoicesOf(State(), id));
      if id !in soundToSources {
        NoSuchSound(State(), id);
        return false;
      }
      ErasedSound(State(), id);
      SoundHasVoices(State(), id);
      SilencedIs(State(), VoicesOf(State(), id));
      Forget(soundToSources[id]);
      soundToSources := soundToSources - {id};
      ok := true;
    }

    method StopSoundInstance(sourceId: Source) returns (ok: bool)
      requires Valid()
      modifies this`activeSources, this`soundToSources
      ensures Valid() && State() == Silenced(old(State()), {sourceId})
      ensures ok == (sourceId in old(activeSources))
    {
      hide Partitioned, Silenced, Dropped;
      SilencedKeeps(State(), {sourceId});
      SilencedEmpty({sourceId});
      SilencedIs(State(), {sourceId});
      if sourceId !in activeSources {
        NoSuchSource(State(), sourceId);
        return false;
      }
      DroppedSource(State(), sourceId);
      var id := activeSources[sourceId].id;
      activeSources := activeSources - {sourceId};
      DropFromList(id, sourceId);
      ok := true;
    }

    /** Takes the source out of the list of its sound; an empty list goes. */
    method DropFromList(id: string, source: Source)
      modifies this`soundToSources
      ensures soundToSources == Dropped(old(soundToSources), id, source)
    {
      if id in soundToSources {
        var list := Kept(soundToSources[id], {source});
        if list == [] {
          soundToSources := soundToSources - {id};
        } else {
          soundToSources := soundToSources[id := list];
        }
      }
    }

    /** Clears the sources that OpenAL reports as stopped. */
    method CleanupFinishedSources(stopped: set<Source>)
      requires Valid()
      modifies this`activeSources, this`soundToSources
      ensures Valid() && State() == Silenced(old(State()), stopped)
    {
      hide Partitioned, Without, Dropped;
      ghost var before := State();
      var rest := activeSources.Keys;
      var toRemove: set<Source> := {};
      SilencedKeeps(before, stopped);
      SilencedEmpty(stopped);
      NothingSilenced(before);
      while rest != {}
        invariant rest <= activeSources.Keys && activeSources == before.active && soundBuffers == before.buffers
        invariant toRemove == (before.active.Keys - rest) * stopped
        invariant soundToSources == Without(before.bySound, toRemove)
        decreases rest
      {
        var source := AnyKey(rest);
        if source in stopped {
          ghost var now := Silenced(before, toRemove);
          SilencedKeeps(before, toRemove);
          DroppedSource(now, source);
          SilencedTwice(before, toRemove, {source});
          toRemove := toRemove + {source};
          DropFromList(activeSources[source].id, source);
        }
        rest := rest - {source};
      }
      SilenceIsEnough(before, stopped);
      activeSources := activeSources - toRemove;
    }

    method UnloadSound(id: string) returns (ok: bool)
      requires Valid()
      modifies this`soundBuffers, this`activeSources, this`soundToSources
      ensures Valid() && State() == Unloaded(old(State()), id)
      ensures ok == (id in old(soundBuffers))
    {
      hide Partitioned, Silenced, VoicesOf;
      UnloadedKeeps(State(), id);
      if id !in soundBuffers { return false; }
      SilencedIs(State(), VoicesOf(State(), id));
      if id in soundToSources {
        ErasedSound(State(), id);
        Forget(soundToSources[id]);
        soundToSources := soundToSources - {id};
      } else {
        NoSuchSound(State(), id);
      }
      soundBuffers := soundBuffers - {id};
      ok := true;
    }

    /** The tables in loadSound and loadSoundFromMemory; the buffer is 0 if the data cannot be loaded. */
    method LoadSound(id: string, buffer: nat) returns (ok: bool)
      requires Valid()
      modifies this`soundBuffers, this`activeSources, this`soundToSources
      ensures Valid() && State() == if initialized then LoadedAs(old(State()), id, buffer) else old(State())
      ensures ok == (initialized && buffer != 0)
    {
      hide Partitioned, Unloaded;
      if !initialized { return false; }
      LoadedKeeps(State(), id, buffer);
      if id in soundBuffers {
        var unloaded := UnloadSound(id);
      } else {
        NothingToUnload(State(), id);
      }
      if buffer == 0 { return false; }
      soundBuffers := soundBuffers[id := buffer];
      ok := true;
    }

    /** Playing a sound, with the reply of OpenAL as a parameter. */
    method PlaySound(id: string, reply: Reply) returns (ok: bool)
      requires Valid() && Possible(State(), Play(id, maxVoiceCount, reply))
      modifies this`activeSources, this`soundToSources, this`totalPlayed
      ensures Valid() && State() == Played(old(State()), maxVoiceCount, id, reply)
      ensures ok == PlaySucceeds(old(State()), maxVoiceCount, id, reply)
      ensures ok ==> |activeSources| <= maxVoiceCount
      ensures totalPlayed == old(totalPlayed) + if ok then 1 else 0
    {
      hide Consistent, Silenced;
      if !initialized { return false; }
      if id !in soundBuffers { return false; }
      SilencedIs(State(), reply.stopped);
      CleanupFinishedSources(reply.stopped);
      if |activeSources| >= maxVoiceCount { return false; }
      if reply.source == 0 { return false; }
      if !reply.plays { return false; }
      StartedKeeps(State(), id, reply.source);
      activeSources := activeSources[reply.source := Voice(id, soundBuffers[id])];
      var list := if id in soundToSources then soundToSources[id] else [];
      soundToSources := soundToSources[id := list + [reply.source]];
      totalPlayed := totalPlayed + 1;
      ok := true;
    }

    method StopAllSounds()
      requires Valid()
      modifies this`activeSources, this`soundToSources
      ensures Valid() && State() == Silenced(old(State()), old(activeSources).Keys)
    {
      ClearedAll(State());
      SilencedKeeps(State(), activeSources.Keys);
      activeSources := map[];
      soundToSources := map[];
    }
  }

  lemma SilencedEmpty(gone: set<Source>)
    ensures Silenced(EMPTY, gone) == EMPTY
  {
  }

  lemma SilencedIs(t: Tables, gone: set<Source>)
    ensures Silenced(t, gone) == Tables(t.buffers, t.active - gone, Without(t.bySound, gone))
  {
  }

  lemma SoundHasVoices(t: Tables, id: string)
    requires Partitioned(t) && id in t.bySound
    ensures VoicesOf(t, id) != {}
  {
    var s := t.bySound[id][0];
    assert s in t.bySound[id];
    assert s in VoicesOf(t, id);
  }

  lemma NoSuchSource(t: Tables, source: Source)
    requires Partitioned(t) && source !in t.active
    ensures Silenced(t, {source}) == t
  {
    hide Kept, NoDuplicates;
    forall k | k in t.bySound ensures Kept(t.bySound[k], {source}) == t.bySound[k] {
      KeptAll(t.bySound[k], {source});
    }
  }

  lemma NothingToUnload(t: Tables, id: string)
    requires id !in t.buffers
    ensures Unloaded(t, id) == t
  {
  }

  /** Stopped sources that are not active make no difference. */
  lemma SilenceIsEnough(t: Tables, stopped: set<Source>)
    requires Partitioned(t)
    ensures Silenced(t, t.active.Keys * stopped) == Silenced(t, stopped)
  {
    hide Kept, NoDuplicates;
    var gone := t.active.Keys * stopped;
    assert t.active - gone == t.active - stopped;
    forall k | k in t.bySound ensures Kept(t.bySound[k], gone) == Kept(t.bySound[k], stopped) {
      SameKept(t.bySound[k], gone, stopped);
    }
  }

  lemma {:induction false} SameKept(list: seq<Source>, a: set<Source>, b: set<Source>)
    requires forall s :: s in list ==> (s in a <==> s in b)
    ensures Kept(list, a) == Kept(list, b)
  {
    if list != [] {
      var front, last := list[..|list| - 1], list[|list| - 1];
      assert list == front + [last];
      SameKept(front, a, b);
    }
  }
}
