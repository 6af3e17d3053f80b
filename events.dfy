/**
 * Event channels: the fan-out sinks an entity's events are forwarded to. The
 * channel class is not part of this model; a channel here is a stub marker and
 * the list of sinks connected to it.
 */
module Events {

  /** An event forwarded to observers. */
  datatype Event = Event(id: nat)

  class EventChannel {
    /** `isStub()`: the channel that means "no-op, do not connect". */
    const isStub: bool
    /** `getSinks()`: the channels connected downstream of this one. */
    var sinks: seq<EventChannel>

    constructor (isStub: bool)
      ensures this.isStub == isStub && sinks == []
    {
      this.isStub := isStub;
      sinks := [];
    }

    /** `connectTo(c)`: adds `c` downstream. */
    method ConnectTo(c: EventChannel)
      modifies this`sinks
      ensures sinks == old(sinks) + [c]
    {
      sinks := sinks + [c];
    }

    /** `disconnectFrom(c)`: removes every connection to `c`. */
    method DisconnectFrom(c: EventChannel?)
      modifies this`sinks
      ensures sinks == Without(old(sinks), c)
    {
      sinks := Without(sinks, c);
    }
  }

  /** `s` with every occurrence of `c` removed. */
  function Without(s: seq<EventChannel>, c: EventChannel?): (r: seq<EventChannel>)
    ensures forall i :: 0 <= i < |r| ==> r[i] in s && r[i] != c
    ensures forall i :: 0 <= i < |s| && s[i] != c ==> s[i] in r
    ensures |r| <= |s|
  {
    if s == [] then [] else (if s[0] == c then [] else [s[0]]) + Without(s[1..], c)
  }
}
