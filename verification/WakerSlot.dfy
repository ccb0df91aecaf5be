/** The single waker slot of the network interface. */
module WakerSlot {
  import opened Options

  /** A waker, identified by the task it wakes. */
  datatype Waker = Waker(task: nat) {
    predicate WillWake(other: Waker) { task == other.task }
  }

  /** Slot contents after registering `w`, and the waker that is woken to make room. */
  function Registered(slot: Option<Waker>, w: Waker): (r: (Option<Waker>, Option<Waker>)) {
    if slot.Some? && slot.value.WillWake(w) then (slot, None) else (Some(w), slot)
  }

  /** Registering always leaves the new waker in the slot, and the one it displaces
      is woken: no task's waker disappears silently. */
  lemma RegisterLosesNone(slot: Option<Waker>, w: Waker)
    ensures Registered(slot, w).0 == Some(w)
    ensures slot.Some? ==> slot == Registered(slot, w).0 || slot == Registered(slot, w).1
    ensures Registered(slot, w).1.Some? ==> Registered(slot, w).1 == slot && slot != Some(w)
  {
  }

  class WakerRegistration {
    var waker: Option<Waker>

    constructor ()
      ensures waker == None
    {
      waker := None;
    }

    /** Overwrite the slot; `woken` is the displaced waker, which has been woken. */
    method Register(w: Waker) returns (woken: Option<Waker>)
      modifies this
      ensures (waker, woken) == Registered(old(waker), w)
    {
      match waker
      case Some(w2) =>
        if w2.WillWake(w) {
          woken := None;
        } else {
          woken := waker;
          waker := Some(w);
        }
      case None =>
        woken := None;
        waker := Some(w);
    }

    /** Take the waker out and wake it. */
    method Wake() returns (woken: Option<Waker>)
      modifies this
      ensures waker == None && woken == old(waker)
    {
      woken := waker;
      waker := None;
    }
  }
}
