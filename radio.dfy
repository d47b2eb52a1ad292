/**
 The extension's source registry: the table from caller-chosen ids to live
 sound sources, the operations the host calls on it, and one step of the
 liveness timer that empties it when the host stops sending heartbeats.
 Time is a natural number of seconds handed to each operation that reads
 the clock.
 */
module Radio {

  import opened Wrappers
  import opened Listing

  /** The host passes single-precision floats; the registry only stores them. */
  type Float = real

  datatype Vec3 = Vec3(x: Float, y: Float, z: Float)

  /**
   A playing source as the registry sees it: what it was created from, where
   it is and how loud it plays. The playback handle behind it is not modelled.
   */
  datatype SoundSource = SoundSource(payload: string, position: Vec3, gain: Float)

  /** A source as it starts playing: at the origin, at full gain. */
  function NewSource(payload: string): SoundSource
  {
    SoundSource(payload, Vec3(0.0, 0.0, 0.0), 1.0)
  }

  /** Seconds without a heartbeat the timer tolerates before it clears the registry. */
  const SilenceSecs: nat := 3

  /** What one wake-up of the liveness timer did. */
  datatype TickOutcome =
    | Kept      // the host was heard from recently enough; nothing changed
    | Cleared   // the silence was too long; every source was removed
    | Panicked  // the clock read earlier than the last heartbeat; the timer thread dies

  /** `ids` lists every key of `keys` exactly once, in some order. */
  ghost predicate Enumerates(ids: seq<string>, keys: set<string>)
  {
    && (forall i, j :: 0 <= i < j < |ids| ==> ids[i] != ids[j])
    && (forall k :: k in keys <==> k in ids)
  }

  /** An enumeration has as many entries as the set has members. */
  lemma {:induction false} EnumerationSize(ids: seq<string>, keys: set<string>)
    requires Enumerates(ids, keys)
    ensures |ids| == |keys|
  {
    if ids != [] {
      var rest := keys - {ids[0]};
      forall k
        ensures k in rest <==> k in ids[1..]
      {
        if k in ids[1..] {
          var j :| 0 <= j < |ids[1..]| && ids[1..][j] == k;
          assert ids[j + 1] == k;
        }
      }
      EnumerationSize(ids[1..], rest);
    }
  }

  /** The only enumeration of a single id is that id alone. */
  lemma EnumerationOfOne(ids: seq<string>, id: string)
    requires Enumerates(ids, {id})
    ensures ids == [id]
  {
    EnumerationSize(ids, {id});
    assert ids[0] in {id};
  }

  class Registry {
    /** The live sources by id. */
    var sources: map<string, SoundSource>
    /** The time of the last start or heartbeat, None before either. */
    var timestamp: Option<nat>
    /** Whether start has run, so that a liveness timer exists. */
    var armed: bool

    ghost predicate Valid()
      reads this
    {
      armed ==> timestamp.Some?
    }

    /** The state when the extension is loaded: no sources, no heartbeat, no timer. */
    constructor ()
      ensures Valid()
      ensures sources == map[] && timestamp == None && !armed
    {
      sources := map[];
      timestamp := None;
      armed := false;
    }

    /** Records the current time as the last heartbeat and arms the liveness timer. */
    method Start(now: nat)
      modifies this`timestamp, this`armed
      ensures Valid() && armed
      ensures timestamp == Some(now)
      ensures sources == old(sources)
    {
      timestamp := Some(now);
      armed := true;
    }

    /** Records the current time as the last heartbeat. */
    method Heartbeat(now: nat)
      requires Valid()
      modifies this`timestamp
      ensures Valid()
      ensures timestamp == Some(now)
      ensures sources == old(sources) && armed == old(armed)
    {
      timestamp := Some(now);
    }

    /**
     Starts a new source from `payload` under `sid`, replacing without notice
     any source already there, and hands `sid` back.
     */
    method Create(payload: string, sid: string) returns (r: string)
      requires Valid()
      modifies this`sources
      ensures Valid()
      ensures r == sid
      ensures sources == old(sources)[sid := NewSource(payload)]
      ensures sources.Keys == old(sources).Keys + {sid}
      ensures sid in old(sources) ==> sources.Keys == old(sources).Keys
      ensures forall k :: k in old(sources) && k != sid ==> sources[k] == old(sources)[k]
    {
      sources := sources[sid := NewSource(payload)];
      r := sid;
    }

    /** Removes the source under `sid` and tells whether there was one. */
    method Destroy(sid: string) returns (existed: bool)
      requires Valid()
      modifies this`sources
      ensures Valid()
      ensures existed <==> sid in old(sources)
      ensures sources == old(sources) - {sid}
      ensures sid !in sources
      ensures forall k :: k in old(sources) && k != sid ==> k in sources && sources[k] == old(sources)[k]
      ensures !existed ==> sources == old(sources)
    {
      existed := sid in sources;
      sources := sources - {sid};
    }

    /** Moves the source under `sid`; an unknown id is ignored. */
    method Pos(sid: string, x: Float, y: Float, z: Float)
      requires Valid()
      modifies this`sources
      ensures Valid()
      ensures sources.Keys == old(sources).Keys
      ensures sid in old(sources) ==>
        sources == old(sources)[sid := old(sources)[sid].(position := Vec3(x, y, z))]
      ensures sid !in old(sources) ==> sources == old(sources)
      ensures forall k :: k in sources ==>
        sources[k].gain == old(sources)[k].gain && sources[k].payload == old(sources)[k].payload
    {
      if sid in sources {
        sources := sources[sid := sources[sid].(position := Vec3(x, y, z))];
      }
    }

    /** Sets the gain of the source under `sid`; an unknown id is ignored. */
    method Gain(sid: string, g: Float)
      requires Valid()
      modifies this`sources
      ensures Valid()
      ensures sources.Keys == old(sources).Keys
      ensures sid in old(sources) ==> sources == old(sources)[sid := old(sources)[sid].(gain := g)]
      ensures sid !in old(sources) ==> sources == old(sources)
      ensures forall k :: k in sources ==>
        sources[k].position == old(sources)[k].position && sources[k].payload == old(sources)[k].payload
    {
      if sid in sources {
        sources := sources[sid := sources[sid].(gain := g)];
      }
    }

    /** Collects the ids into a sequence, in the table's own (unspecified) order. */
    method KeyList() returns (ids: seq<string>)
      ensures Enumerates(ids, sources.Keys)
    {
      ids := [];
      var rest := sources.Keys;
      while rest != {}
        invariant forall k :: k in sources.Keys <==> k in rest || k in ids
        invariant forall k :: k in rest ==> k !in ids
        invariant forall i, j :: 0 <= i < j < |ids| ==> ids[i] != ids[j]
        decreases rest
      {
        var k :| k in rest;
        ids := ids + [k];
        rest := rest - {k};
      }
    }

    /**
     The listing sent to the host. `ids` is the order the table happened to
     give; each id is listed once, and a listing of listable ids reads back
     as exactly those ids.
     */
    method List() returns (s: string, ghost ids: seq<string>)
      ensures Enumerates(ids, sources.Keys) && s == Render(ids)
      ensures sources == map[] <==> ids == []
      ensures sources == map[] ==> s == "[]"
      ensures (forall k :: k in sources ==> Listable(k)) ==> ParseList(s) == Some(ids)
    {
      var keys := KeyList();
      s := Render(keys);
      ids := keys;
      EnumerationSize(ids, sources.Keys);
      if forall k :: k in sources ==> Listable(k) {
        ParseRender(ids);
      }
    }

    /**
     One wake-up of the liveness timer at time `now`: when more than
     SilenceSecs have passed since the last heartbeat, every source is removed,
     one id at a time; otherwise nothing changes. A clock reading earlier
     than the last heartbeat panics the timer thread, so no timer is left.
     */
    method Tick(now: nat) returns (outcome: TickOutcome)
      requires Valid() && armed
      modifies this`sources, this`armed
      ensures Valid() && timestamp == old(timestamp)
      ensures armed <==> outcome != Panicked
      ensures outcome == Panicked <==> now < timestamp.value
      ensures outcome == Cleared <==> timestamp.value <= now && now - timestamp.value > SilenceSecs
      ensures outcome == Cleared ==> sources == map[]
      ensures outcome != Cleared ==> sources == old(sources)
      ensures old(sources) == map[] ==> sources == map[]
    {
      if now < timestamp.value {
        armed := false;
        return Panicked;
      }
      var elapsed := now - timestamp.value;
      if elapsed > SilenceSecs {
        var ids := KeyList();
        for i := 0 to |ids|
          invariant armed && timestamp == old(timestamp)
          invariant forall j :: 0 <= j < i ==> ids[j] !in sources
          invariant forall k :: k in sources <==> k in old(sources) && k !in ids[..i]
          invariant forall k :: k in sources ==> sources[k] == old(sources)[k]
        {
          sources := sources - {ids[i]};
        }
        assert ids[..|ids|] == ids;
        assert sources.Keys == {};
        outcome := Cleared;
      } else {
        outcome := Kept;
      }
    }
  }

  /** Destroying the same id twice: the second call finds nothing and changes nothing. */
  method DestroyTwice(r: Registry, sid: string) returns (first: bool, second: bool)
    requires r.Valid()
    modifies r`sources
    ensures first <==> sid in old(r.sources)
    ensures !second
    ensures r.sources == old(r.sources) - {sid}
    ensures r.Valid()
  {
    first := r.Destroy(sid);
    second := r.Destroy(sid);
  }

  /** A host session: start, create, move, set gain, list, destroy, list again. */
  method Session() returns (created: string, listed: string, existed: bool, relisted: string)
    ensures created == "s1"
    ensures listed == "[s1]"
    ensures existed
    ensures relisted == "[]"
  {
    var r := new Registry();
    r.Start(0);
    created := r.Create("a.ogg", "s1");
    r.Pos("s1", 1.0, 0.0, 0.0);
    r.Gain("s1", 0.8);
    assert r.sources == map["s1" := SoundSource("a.ogg", Vec3(1.0, 0.0, 0.0), 0.8)];
    ghost var ids;
    listed, ids := r.List();
    EnumerationOfOne(ids, "s1");
    existed := r.Destroy("s1");
    relisted, ids := r.List();
  }

  /**
   Silence on the timer's clock: a tick exactly SilenceSecs after the last
   heartbeat keeps everything, a heartbeat pushes expiry back, and the first
   tick past the threshold empties the registry however many sources it held.
   */
  method Expiry() returns (atThreshold: TickOutcome, afterBeat: TickOutcome, expired: TickOutcome, listed: string)
    ensures atThreshold == Kept && afterBeat == Kept && expired == Cleared
    ensures listed == "[]"
  {
    var r := new Registry();
    r.Start(0);
    var _ := r.Create("a.ogg", "s1");
    var _ := r.Create("b.ogg", "s2");
    atThreshold := r.Tick(3);
    r.Heartbeat(3);
    afterBeat := r.Tick(6);
    assert r.sources.Keys == {"s1", "s2"};
    expired := r.Tick(7);
    ghost var ids;
    listed, ids := r.List();
  }

  /**
   The timer reads the clock before the timestamp, so a heartbeat that lands
   between the two reads makes the clock look earlier than the timestamp.
   The tick panics, the timer is gone, and the sources outlive any silence.
   */
  method StaleClock() returns (outcome: TickOutcome, timerAlive: bool, listed: string)
    ensures outcome == Panicked && !timerAlive
    ensures listed == "[s1]"
  {
    var r := new Registry();
    r.Start(0);
    var _ := r.Create("a.ogg", "s1");
    r.Heartbeat(5);
    outcome := r.Tick(4);
    timerAlive := r.armed;
    ghost var ids;
    listed, ids := r.List();
    EnumerationOfOne(ids, "s1");
  }
}
