/** The recording clock of the link site: a store cell holding the current
    playback time and whether it is recording. Each operation replaces the
    held value with one built from the old. */
module Timestamp {

  /** The value the store holds. */
  datatype Stamp = Stamp(time: real, recording: bool)

  /** The value the store starts with and returns to on reset. */
  const Initial := Stamp(0.0, false)

  /** `start`'s update: recording, at the same time. */
  function Started(t: Stamp): (r: Stamp)
    ensures r.recording && r.time == t.time
  {
    Stamp(t.time, true)
  }

  /** `stop`'s update: not recording, at the same time. */
  function Stopped(t: Stamp): (r: Stamp)
    ensures !r.recording && r.time == t.time
  {
    Stamp(t.time, false)
  }

  /** `setTime`'s update: the new time, recording or not as before. */
  function Timed(t: Stamp, time: real): (r: Stamp)
    ensures r.time == time && r.recording == t.recording
  {
    Stamp(time, t.recording)
  }

  /** Starting and stopping are idempotent, and each undoes the other's
      effect on the flag only. */
  lemma StartStopIdempotent(t: Stamp)
    ensures Started(Started(t)) == Started(t)
    ensures Stopped(Stopped(t)) == Stopped(t)
    ensures Stopped(Started(t)) == Stopped(t) && Started(Stopped(t)) == Started(t)
  {
  }

  /** Setting the time and switching recording touch different fields, so
      their order does not matter; the last time set wins. */
  lemma TimedCommutes(t: Stamp, time: real, time': real)
    ensures Timed(Started(t), time) == Started(Timed(t, time))
    ensures Timed(Stopped(t), time) == Stopped(Timed(t, time))
    ensures Timed(Timed(t, time), time') == Timed(t, time')
  {
  }

  /** The store cell. */
  class Store {
    var value: Stamp

    /** `createTimestamp`: time 0, not recording. */
    constructor ()
      ensures value == Initial
    {
      value := Initial;
    }

    method Start()
      modifies this
      ensures value == Started(old(value))
    {
      value := Started(value);
    }

    method Stop()
      modifies this
      ensures value == Stopped(old(value))
    {
      value := Stopped(value);
    }

    method SetTime(time: real)
      modifies this
      ensures value == Timed(old(value), time)
    {
      value := Timed(value, time);
    }

    /** The store's own `set`, passed through. */
    method Set(t: Stamp)
      modifies this
      ensures value == t
    {
      value := t;
    }

    /** The store's own `update`, passed through. */
    method Update(f: Stamp -> Stamp)
      modifies this
      ensures value == f(old(value))
    {
      value := f(value);
    }

    /** Back to time 0, not recording, from any state. */
    method Reset()
      modifies this
      ensures value == Initial
    {
      value := Initial;
    }
  }
}
