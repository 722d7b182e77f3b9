/**
 * FileMonitor.swift: the disk-write throttle. The FSEvents stream that calls
 * `handleEvent` is not modelled; each callback is one `HandleEvent` step
 * with the callback's clock reading as a parameter.
 */
module Disk {
  import opened Common

  /** `throttleInterval`, 0.1 s. */
  const ThrottleInterval: Millis := 100

  /** The gate of `handleEvent`: strictly more than the interval since the last trigger. */
  predicate ShouldTrigger(last: Option<Millis>, now: Millis) {
    last.None? || now - last.value > ThrottleInterval
  }

  /** A first event always gets through: the initial timestamp is the distant past. */
  lemma FirstEventTriggers(now: Millis)
    ensures ShouldTrigger(None, now)
  {
  }

  /** The inequality is strict: an event exactly one interval later is dropped. */
  lemma GateIsStrict(last: Millis)
    ensures !ShouldTrigger(Some(last), last + ThrottleInterval)
    ensures ShouldTrigger(Some(last), last + ThrottleInterval + 1)
  {
  }

  /**
   * The clock readings, among `times`, at which `handleEvent` plays
   * `disk_write`, starting from a last trigger at `last`.
   */
  function Triggers(last: Option<Millis>, times: seq<Millis>): (fired: seq<Millis>)
    ensures |fired| <= |times|
    decreases |times|
  {
    if times == [] then []
    else if ShouldTrigger(last, times[0]) then [times[0]] + Triggers(Some(times[0]), times[1..])
    else Triggers(last, times[1..])
  }

  /**
   * Whatever the event storm, the sounds it produces are spaced strictly more
   * than the throttle interval apart, and the first one is strictly more
   * than the interval after the previous trigger.
   */
  lemma {:induction false} TriggersAreSpaced(last: Option<Millis>, times: seq<Millis>)
    ensures var fired := Triggers(last, times);
      && (last.Some? && fired != [] ==> fired[0] - last.value > ThrottleInterval)
      && (forall k :: 0 < k < |fired| ==> fired[k] - fired[k - 1] > ThrottleInterval)
    decreases |times|
  {
    if times != [] {
      if ShouldTrigger(last, times[0]) {
        TriggersAreSpaced(Some(times[0]), times[1..]);
      } else {
        TriggersAreSpaced(last, times[1..]);
      }
    }
  }

  /** Every sound is played at the time of one of the events. */
  lemma {:induction false} TriggersAreEvents(last: Option<Millis>, times: seq<Millis>)
    ensures forall t :: t in Triggers(last, times) ==> t in times
    decreases |times|
  {
    if times != [] {
      if ShouldTrigger(last, times[0]) {
        TriggersAreEvents(Some(times[0]), times[1..]);
      } else {
        TriggersAreEvents(last, times[1..]);
      }
    }
  }

  class FileMonitor {
    var lastTriggerTime: Option<Millis>

    constructor ()
      ensures lastTriggerTime == None
    {
      lastTriggerTime := None;
    }

    /**
     * One FSEvents callback. `numEvents` is only logged by the source, so the
     * decision does not depend on it. A trigger records its time and asks
     * for `disk_write`; a dropped event changes nothing.
     */
    method HandleEvent(numEvents: int, now: Millis) returns (request: Option<SoundRequest>)
      modifies this
      ensures ShouldTrigger(old(lastTriggerTime), now) ==>
                request == Some(Play("disk_write")) && lastTriggerTime == Some(now)
      ensures !ShouldTrigger(old(lastTriggerTime), now) ==>
                request == None && lastTriggerTime == old(lastTriggerTime)
    {
      if lastTriggerTime.None? || now - lastTriggerTime.value > ThrottleInterval {
        lastTriggerTime := Some(now);
        request := Some(Play("disk_write"));
      } else {
        request := None;
      }
    }
  }
}
