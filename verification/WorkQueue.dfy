// The controller-runtime work queue a reconciler is driven by, as sets of
// names.
module WorkQueue {
  import opened Api

  // `inFlight`: a watch event for the name has happened but has not reached
  //   the informer yet; until it does, the cache may be behind for that name.
  // `dirty`: waiting for a worker (or for a rate-limited retry).
  // `timers`: waiting for a RequeueAfter to expire.
  datatype Queue = Queue(inFlight: set<Name>, dirty: set<Name>, timers: set<Name>) {

    function Notify(names: set<Name>): Queue {
      this.(inFlight := inFlight + names)
    }

    // The informer updates its cache, then calls the event handler.
    function Deliver(name: Name): Queue {
      this.(inFlight := inFlight - {name}, dirty := dirty + {name})
    }

    function Fire(name: Name): Queue {
      this.(timers := timers - {name}, dirty := dirty + {name})
    }

    // A worker takes the name. A queue with one entry per name gives its timer
    // up at this point; one with a separate delaying queue keeps it.
    function Take(name: Name, keepTimer: bool): Queue {
      this.(dirty := dirty - {name}, timers := if keepTimer then timers else timers - {name})
    }

    function Finish(name: Name, outcome: Outcome): Queue {
      match outcome
      case Failed => this.(dirty := dirty + {name})
      case Done(after) => if after > 0 then this.(timers := timers + {name}) else this
    }

    // Nothing has happened to the name that its next reconcile has yet to see.
    predicate Quiet(name: Name) {
      name !in inFlight && name !in dirty
    }
  }
}
