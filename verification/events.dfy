/**
 * The value types shared by the run loop and its providers
 * (Sources/Xio/RunLoop.swift): the interest kinds, the registration
 * record, the event record a poll reports and the poll timeout.
 */
module Events {

  /** Swift's Int32. */
  type Int32 = x: int | -0x8000_0000 <= x < 0x8000_0000

  /** Swift's Int16. */
  type Int16 = x: int | -0x8000 <= x < 0x8000

  /** Swift's Int (64 bits on the platforms kqueue exists on). */
  const INT_MAX: int := 0x7FFF_FFFF_FFFF_FFFF

  datatype EventType = Read | Write | Except

  /**
   * A registration: a descriptor and the ordered list of interests.
   * Its equality is structural over BOTH fields, as Swift synthesises
   * Hashable for the struct, so the same descriptor with another interest
   * list is a different key.
   */
  datatype Selectable = Selectable(fileDescriptor: Int32, eventTypes: seq<EventType>)

  /** What one poll reports for one descriptor. */
  datatype SelectableEvent = SelectableEvent(fd: Int32, eventTypes: seq<EventType>)

  datatype RunLoopTimeout = RunLoopTimeout(seconds: int, nanoSeconds: int)

  /** The descriptors a list of events reports on. */
  function Fds(evs: seq<SelectableEvent>): set<int>
  {
    if evs == [] then {} else Fds(evs[..|evs| - 1]) + {evs[|evs| - 1].fd}
  }

  /** The total number of event types carried by a list of events. */
  function TotalTypes(evs: seq<SelectableEvent>): nat
  {
    if evs == [] then 0 else TotalTypes(evs[..|evs| - 1]) + |evs[|evs| - 1].eventTypes|
  }
}
