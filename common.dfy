/**
 * Shared vocabulary of the sound middleware model.
 *
 * Time is integer milliseconds. A timestamp that the source initialises to
 * `Date.distantPast` (or that a dictionary does not hold yet) is `None`:
 * every throttle gate lets such a timestamp through.
 *
 * Each monitor in the source calls into the sound dispatcher; in this model
 * a monitor returns the calls it would make as `SoundRequest` values, in the
 * order the source makes them, and the dispatcher's operations are modelled
 * separately (module Sounds).
 */
module Common {

  datatype Option<+T> = None | Some(value: T) {
    function GetOr(default: T): T {
      match this
      case Some(v) => v
      case None => default
    }
  }

  /** Milliseconds since an arbitrary epoch. */
  type Millis = int

  /** A call that a monitor makes on the sound dispatcher. */
  datatype SoundRequest =
    | Play(event: string)              // SoundManager.play(event:)
    | StartContinuous(event: string)   // SoundManager.startContinuous(event:)
    | StopContinuous(event: string)    // SoundManager.stopContinuous(event:)

  /**
   * True when a previous firing recorded at `last` is less than `interval`
   * milliseconds before `now`: the shape of every `timeIntervalSince(last) <
   * interval` guard in the source. A missing timestamp is never recent.
   */
  predicate Recent(last: Option<Millis>, now: Millis, interval: Millis) {
    last.Some? && now - last.value < interval
  }

  /** `m[k]` as an optional value. */
  function Lookup<K, V>(m: map<K, V>, k: K): (r: Option<V>)
    ensures r.Some? <==> k in m
    ensures r.Some? ==> r.value == m[k]
  {
    if k in m then Some(m[k]) else None
  }
}
