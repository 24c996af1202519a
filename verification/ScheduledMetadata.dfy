/** The annotations that identify a scheduled run; they are all that a later reconcile knows of it. */
module ScheduledMetadata {
  import opened Prelude
  import opened Decimal
  import opened Scheduler

  const SLOT_KEY := "kontext.dev/scheduled-slot"
  const SEQUENCE_KEY := "kontext.dev/scheduled-sequence"

  /** RFC 3339 in whole seconds: what a formatter prints, and how a text is read. */
  datatype Clock = Clock(format: Time -> string, parse: string -> Option<Time>)

  ghost predicate Sound(clock: Clock) {
    forall t: Time :: clock.parse(clock.format(t)) == Some(t)
  }

  function Lookup(annotations: map<string, string>, key: string): string {
    if key in annotations then annotations[key] else ""
  }

  class Object {
    const clock: Clock
    var annotations: Option<map<string, string>>

    constructor (clock: Clock, annotations: Option<map<string, string>>)
      ensures this.clock == clock && this.annotations == annotations
    {
      this.clock, this.annotations := clock, annotations;
    }

    function Get(key: string): string
      reads this
    {
      if annotations.None? then "" else Lookup(annotations.value, key)
    }

    function Slot(): Option<Time>
      reads this
    {
      clock.parse(Get(SLOT_KEY))
    }

    /** A positive 32-bit integer; a sign or leading zeros are accepted. */
    function Sequence(): (r: Option<nat>)
      reads this
      ensures r.Some? ==> 1 <= r.value <= MAX_INT32
    {
      match ParseInt32(Get(SEQUENCE_KEY))
      case None => None
      case Some(value) => if value < 1 then None else Some(value)
    }

    predicate RepresentsSlot(slot: Time)
      reads this
    {
      Slot() == Some(slot)
    }

    /** What is stamped is read back, and it is all that changes. */
    method SetMetadata(slot: Time, sequence: nat)
      requires Sound(clock) && 1 <= sequence <= MAX_INT32
      modifies this
      ensures Slot() == Some(slot) && Sequence() == Some(sequence)
      ensures forall t :: RepresentsSlot(t) <==> t == slot
      ensures forall key :: key != SLOT_KEY && key != SEQUENCE_KEY ==> Get(key) == old(Get(key))
    {
      KeysDiffer();
      ParseInt32Dec(sequence);
      hide ParseInt32, Dec;
      var stamped := if annotations.None? then map[] else annotations.value;
      stamped := stamped[SLOT_KEY := clock.format(slot)];
      stamped := stamped[SEQUENCE_KEY := Dec(sequence)];
      annotations := Some(stamped);
    }
  }

  lemma KeysDiffer()
    ensures SLOT_KEY != SEQUENCE_KEY
  {
    assert |SLOT_KEY| != |SEQUENCE_KEY|;
  }
}
