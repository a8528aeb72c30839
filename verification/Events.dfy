/** What the queues, the dispatchers and the sinks pass along. */
module Events {

  datatype Level = Info | Recovery | Warning | Critical

  /** An event as far as the event path looks at it: its sequence number and its level. */
  datatype Event = Event(sequence: nat, level: Level)
}
