/**
 * JFR garbage-collection events of the serial collector
 * (JfrGCEventSupport.java): a bounded stack depth of nested GC phases,
 * the mapping from a phase depth to one of the five GCPhasePause event
 * types, and the field layout of the records written to the JFR buffer.
 *
 * The tick clock, the recording state and the per-event enabled switches
 * are inputs. The native event writer is the `buffer` of written records:
 * `beginEventWrite` ... `endEventWrite` appends one record.
 */
module JfrGCEvents {
  import opened Wrappers

  /** The deepest phase nesting level that has an event type of its own. */
  const MaxPhaseLevel: int := 4

  const TwoTo63: int := 0x8000_0000_0000_0000
  const TwoTo64: int := 0x1_0000_0000_0000_0000

  /** A Java `long`. */
  type Long = x: int | -TwoTo63 <= x < TwoTo63

  /** Java `long` subtraction, which wraps around modulo 2^64. */
  function LongSub(a: Long, b: Long): (r: Long)
    ensures -TwoTo63 <= a - b < TwoTo63 ==> r == a - b
    ensures (r - (a - b)) % TwoTo64 == 0
  {
    var d := a - b;
    if d >= TwoTo63 then d - TwoTo64
    else if d < -TwoTo63 then d + TwoTo64
    else d
  }

  datatype JfrEvent =
    | GarbageCollection
    | GCPhasePause
    | GCPhasePauseLevel1
    | GCPhasePauseLevel2
    | GCPhasePauseLevel3
    | GCPhasePauseLevel4

  datatype EventError = LevelOutOfRange(level: int)

  /** `getGCPhasePauseEvent`: the event type that reports a phase at nesting `level`. */
  function GCPhasePauseEvent(level: int): (r: Result<JfrEvent, EventError>)
    ensures r.Ok? <==> 0 <= level <= MaxPhaseLevel
    ensures r.Err? ==> r.error == LevelOutOfRange(level)
    ensures r.Ok? ==> r.value != GarbageCollection
  {
    match level
    case 0 => Ok(GCPhasePause)
    case 1 => Ok(GCPhasePauseLevel1)
    case 2 => Ok(GCPhasePauseLevel2)
    case 3 => Ok(GCPhasePauseLevel3)
    case 4 => Ok(GCPhasePauseLevel4)
    case _ => Err(LevelOutOfRange(level))
  }

  /** The phase level an event type stands for (the inverse of `GCPhasePauseEvent`). */
  function PhaseLevelOf(e: JfrEvent): Option<int>
  {
    match e
    case GarbageCollection => None
    case GCPhasePause => Some(0)
    case GCPhasePauseLevel1 => Some(1)
    case GCPhasePauseLevel2 => Some(2)
    case GCPhasePauseLevel3 => Some(3)
    case GCPhasePauseLevel4 => Some(4)
  }

  /** Each of the five levels has its own event type: the mapping can be undone. */
  lemma PhasePauseEventRoundTrip(level: int)
    requires 0 <= level <= MaxPhaseLevel
    ensures PhaseLevelOf(GCPhasePauseEvent(level).value) == Some(level)
  {
  }

  /** Distinct levels give distinct event types. */
  lemma PhasePauseEventsDistinct(l1: int, l2: int)
    requires GCPhasePauseEvent(l1).Ok? && GCPhasePauseEvent(l2).Ok?
    ensures GCPhasePauseEvent(l1).value == GCPhasePauseEvent(l2).value <==> l1 == l2
  {
    PhasePauseEventRoundTrip(l1);
    PhasePauseEventRoundTrip(l2);
  }

  /** Every phase event type is the event type of some level. */
  lemma PhasePauseEventsOnto(e: JfrEvent)
    requires e != GarbageCollection
    ensures exists level :: 0 <= level <= MaxPhaseLevel && GCPhasePauseEvent(level) == Ok(e)
  {
    var level := PhaseLevelOf(e).value;
    assert GCPhasePauseEvent(level) == Ok(e);
  }

  /** One value written between `beginEventWrite` and `endEventWrite`. */
  datatype Field =
    | EventId(event: JfrEvent)
    | LongField(value: Long)
    | EventThread
    | StringField(text: string)

  type Record = seq<Field>

  /** The content of a GarbageCollection event. */
  datatype GCEvent = GCEvent(
    startTime: Long, duration: Long, gcId: Long, name: Long, cause: Long,
    sumOfPauses: Long, longestPause: Long)

  /** The content of a GCPhasePause event of any level. */
  datatype PhaseEvent = PhaseEvent(
    level: int, startTime: Long, duration: Long, gcId: Long, name: string)

  /**
   * The record `emitGarbageCollectionEvent` writes: the event id, then seven
   * longs: the start, the pause, the GC epoch, the collector's name id, the
   * cause, and the pause once more as the sum of pauses and as the longest
   * pause.
   */
  function GarbageCollectionRecord(start: Long, end: Long, epoch: Long, gcName: Long, cause: Long): (r: Record)
    ensures |r| == 8 && r[0] == EventId(GarbageCollection)
    ensures forall i :: 1 <= i < |r| ==> r[i].LongField?
    ensures r[1].value == start && r[3].value == epoch && r[4].value == gcName && r[5].value == cause
    ensures r[2].value == LongSub(end, start)
    ensures r[6] == r[2] && r[7] == r[2]
  {
    var pause := LongSub(end, start);
    [EventId(GarbageCollection), LongField(start), LongField(pause), LongField(epoch),
     LongField(gcName), LongField(cause), LongField(pause), LongField(pause)]
  }

  /**
   * The record `emitGCPhasePauseEvent` writes: the event id, the start, the
   * duration, the current thread, the GC epoch and the phase name.
   */
  function PhasePauseRecord(event: JfrEvent, start: Long, end: Long, epoch: Long, name: string): (r: Record)
    ensures |r| == 6 && r[0] == EventId(event) && r[3] == EventThread
    ensures r[1] == LongField(start) && r[2] == LongField(LongSub(end, start)) && r[4] == LongField(epoch)
    ensures r[5] == StringField(name)
  {
    [EventId(event), LongField(start), LongField(LongSub(end, start)), EventThread,
     LongField(epoch), StringField(name)]
  }

  /** How a JFR reader takes a GarbageCollection record apart. */
  function ReadGarbageCollection(r: Record): (e: Option<GCEvent>)
    ensures e.Some? ==> |r| == 8 && r[0] == EventId(GarbageCollection)
  {
    if |r| == 8 && r[0] == EventId(GarbageCollection)
       && r[1].LongField? && r[2].LongField? && r[3].LongField? && r[4].LongField?
       && r[5].LongField? && r[6].LongField? && r[7].LongField?
    then Some(GCEvent(r[1].value, r[2].value, r[3].value, r[4].value, r[5].value,
                      r[6].value, r[7].value))
    else None
  }

  /** How a JFR reader takes a GCPhasePause record apart. */
  function ReadPhasePause(r: Record): (e: Option<PhaseEvent>)
    ensures e.Some? ==> |r| == 6 && r[0].EventId? && r[3] == EventThread
  {
    if |r| == 6 && r[0].EventId? && PhaseLevelOf(r[0].event).Some?
       && r[1].LongField? && r[2].LongField? && r[3] == EventThread
       && r[4].LongField? && r[5].StringField?
    then Some(PhaseEvent(PhaseLevelOf(r[0].event).value, r[1].value, r[2].value,
                         r[4].value, r[5].text))
    else None
  }

  /**
   * A GarbageCollection record reads back as the event it was written from:
   * the pause is the tick difference, and the sum of pauses and the longest
   * pause both equal it (a collection is one pause).
   */
  lemma GarbageCollectionRoundTrip(start: Long, end: Long, epoch: Long, gcName: Long, cause: Long)
    ensures var e := ReadGarbageCollection(GarbageCollectionRecord(start, end, epoch, gcName, cause));
      && e.Some?
      && e.value.startTime == start && e.value.gcId == epoch
      && e.value.name == gcName && e.value.cause == cause
      && e.value.duration == LongSub(end, start)
      && e.value.sumOfPauses == e.value.duration && e.value.longestPause == e.value.duration
      && (0 <= start <= end ==> e.value.duration == end - start)
  {
  }

  /** A GCPhasePause record reads back with the level its event type was chosen for. */
  lemma PhasePauseRoundTrip(level: int, start: Long, end: Long, epoch: Long, name: string)
    requires 0 <= level <= MaxPhaseLevel
    ensures var e := ReadPhasePause(PhasePauseRecord(GCPhasePauseEvent(level).value, start, end, epoch, name));
      && e == Some(PhaseEvent(level, start, LongSub(end, start), epoch, name))
  {
    PhasePauseEventRoundTrip(level);
  }

  /** The two kinds of record can never be confused with each other. */
  lemma RecordKindsDisjoint(r: Record)
    ensures !(ReadGarbageCollection(r).Some? && ReadPhasePause(r).Some?)
  {
  }

  /** `JfrGCEventSupport`: the per-collector event emitter. */
  class GCEventSupport {
    /** The id of the collector's name in the JFR constant pool. */
    const gcNameId: Long
    var currentPhase: int
    /** Everything written to the JFR buffer so far. */
    var buffer: seq<Record>

    predicate Valid()
      reads this`currentPhase
    {
      0 <= currentPhase <= MaxPhaseLevel
    }

    constructor(gcNameId: Long)
      ensures Valid() && currentPhase == 0 && buffer == [] && this.gcNameId == gcNameId
    {
      this.gcNameId := gcNameId;
      currentPhase := 0;
      buffer := [];
    }

    /** `pushPhase`: one phase deeper, below the deepest level. */
    method PushPhase()
      requires Valid() && currentPhase < MaxPhaseLevel
      modifies this`currentPhase
      ensures Valid() && currentPhase == old(currentPhase) + 1
    {
      currentPhase := currentPhase + 1;
    }

    /** `popPhase`: one phase shallower; the level left is the level of the phase that ended. */
    method PopPhase() returns (level: int)
      requires Valid() && currentPhase > 0
      modifies this`currentPhase
      ensures Valid() && currentPhase == old(currentPhase) - 1
      ensures level == currentPhase && 0 <= level < MaxPhaseLevel
    {
      currentPhase := currentPhase - 1;
      level := currentPhase;
    }

    /** `startGCPhasePause`: enters a phase and returns the tick count `now` at its start. */
    method StartGCPhasePause(now: Long) returns (startTicks: Long)
      requires Valid() && currentPhase < MaxPhaseLevel
      modifies this`currentPhase
      ensures Valid() && currentPhase == old(currentPhase) + 1 && startTicks == now
    {
      PushPhase();
      startTicks := now;
    }

    /**
     * `emitGarbageCollectionEvent`: the pause is `end - start` with `end`
     * read from the clock; a record is written only while recording with
     * the GarbageCollection event enabled.
     */
    method EmitGarbageCollectionEvent(epoch: Long, cause: Long, start: Long,
                                      end: Long, recording: bool, enabled: set<JfrEvent>)
      modifies this`buffer
      ensures buffer == old(buffer) +
        (if recording && GarbageCollection in enabled
         then [GarbageCollectionRecord(start, end, epoch, gcNameId, cause)] else [])
    {
      var pauseTime := LongSub(end, start);
      if recording && GarbageCollection in enabled {
        var data := [EventId(GarbageCollection), LongField(start), LongField(pauseTime),
                     LongField(epoch), LongField(gcNameId), LongField(cause),
                     LongField(pauseTime), LongField(pauseTime)];
        buffer := buffer + [data];
      }
    }

    /**
     * `emitGCPhasePauseEvent`: leaves the innermost phase and reports it with
     * the event type of the level it ran at.
     */
    method EmitGCPhasePauseEvent(epoch: Long, name: string, startTicks: Long,
                                 end: Long, recording: bool, enabled: set<JfrEvent>)
      returns (event: JfrEvent)
      requires Valid() && currentPhase > 0
      modifies this`currentPhase, this`buffer
      ensures Valid() && currentPhase == old(currentPhase) - 1
      ensures GCPhasePauseEvent(currentPhase) == Ok(event)
      ensures buffer == old(buffer) +
        (if recording && event in enabled
         then [PhasePauseRecord(event, startTicks, end, epoch, name)] else [])
    {
      var level := PopPhase();
      var r := GCPhasePauseEvent(level);
      event := r.value;
      if recording && event in enabled {
        var data := [EventId(event), LongField(startTicks), LongField(LongSub(end, startTicks)),
                     EventThread, LongField(epoch), StringField(name)];
        buffer := buffer + [data];
      }
    }

    /**
     * The bracket the collector puts around a phase: `startGCPhasePause` at
     * tick `start`, then `emitGCPhasePauseEvent` at tick `end`. The depth
     * comes back to where it was, and the phase is reported at that depth.
     */
    method TimedPhasePause(epoch: Long, name: string, start: Long, end: Long,
                           recording: bool, enabled: set<JfrEvent>)
      requires Valid() && currentPhase < MaxPhaseLevel
      modifies this`currentPhase, this`buffer
      ensures Valid() && currentPhase == old(currentPhase)
      ensures recording && GCPhasePauseEvent(currentPhase).value in enabled ==>
        buffer == old(buffer) + [PhasePauseRecord(GCPhasePauseEvent(currentPhase).value, start, end, epoch, name)]
      ensures !(recording && GCPhasePauseEvent(currentPhase).value in enabled) ==> buffer == old(buffer)
    {
      var startTicks := StartGCPhasePause(start);
      var _ := EmitGCPhasePauseEvent(epoch, name, startTicks, end, recording, enabled);
    }
  }

  /**
   * With pushes bounded by `MaxPhaseLevel`, a phase that ends is at most at
   * level `MaxPhaseLevel - 1`: the Level4 event type is never chosen.
   */
  lemma DeepestPhaseEvent(level: int)
    requires 0 <= level < MaxPhaseLevel
    ensures GCPhasePauseEvent(level).Ok? && GCPhasePauseEvent(level).value != GCPhasePauseLevel4
  {
  }
}
