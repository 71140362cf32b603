/** The watchers of an event loop: the fields that all of them share, and those of a timer. */
module Watchers {

  const NUMPRI := 5

  type Priority = p: nat | p < NUMPRI

  class Watcher {
    /** ABSPRI: 0 is the lowest. It may only be changed while the watcher is neither active nor pending. */
    const priority: Priority
    var active: int
    /** 0, or one more than the slot in the pending queue. */
    var pending: nat
    var at: real
    var repeat: real

    constructor (priority: Priority, after: real, repeat: real)
      ensures this.priority == priority && active == 0 && pending == 0 && at == after && this.repeat == repeat
    {
      this.priority, active, pending, at, this.repeat := priority, 0, 0, after, repeat;
    }
  }
}
