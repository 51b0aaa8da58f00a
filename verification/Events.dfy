// The run events every part of the API layer passes around: one RunEvent as the
// artifact, the in-memory mirror, the subscriber queues and the wire see it.
module Events {

  datatype Option<+T> = None | Some(value: T)

  // A serialised RunEvent: its run-scoped sequence number, its tagged name and the
  // rest of its fields, which no code in this project looks into.
  datatype Event = Event(sequence: int, name: string, body: string)

  const TERMINAL_EVENTS: set<string> := {"run.completed", "run.failed", "run.cancelled"}

  predicate Terminal(e: Event) {
    e.name in TERMINAL_EVENTS
  }

  // Line i of a well-numbered log holds sequence i.
  ghost predicate Numbered(log: seq<Event>) {
    forall i :: 0 <= i < |log| ==> log[i].sequence == i
  }
}
