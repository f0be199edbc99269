/**
 * The kqueue provider (Sources/Xio/RunLoopProviderKQueue.swift).
 *
 * The poll side decodes the raw records the kernel left in the 64-slot
 * buffer and groups them per descriptor; the registration side turns a
 * Selectable into the change list handed to kevent(). The kevent() call
 * itself is outside the model: its return value is a parameter and its
 * output is whatever the buffer holds.
 */
module KQueueProvider {
  import opened Wrappers
  import opened Events

  // Darwin <sys/event.h>
  const EVFILT_READ: Int16 := -1
  const EVFILT_WRITE: Int16 := -2
  const EVFILT_EXCEPT: Int16 := -15
  const EV_ADD: bv16 := 0x0001
  const EV_DELETE: bv16 := 0x0002
  const EV_ENABLE: bv16 := 0x0004
  const EV_DISABLE: bv16 := 0x0008
  const NOTE_LOWAT: bv32 := 0x0000_0001

  /** Slots of the buffer one poll may fill. */
  const EVENT_CAPACITY: nat := 64

  /**
   * A descriptor as the kernel reports it back. Registration converts a
   * non-negative Int32 into the record's unsigned ident, so only those
   * values come back, and converting them to Int32 cannot trap.
   */
  type Descriptor = x: int | 0 <= x < 0x8000_0000

  /** The part of a kernel record that a poll reads. */
  datatype ReadyRecord = ReadyRecord(ident: Descriptor, filter: Int16)

  /** A change record handed to kevent(); `udata == None` is the nil pointer. */
  datatype KEvent = KEvent(ident: Descriptor, filter: Int16, flags: bv16, fflags: bv32, data: int, udata: Option<nat>)

  datatype Timespec = Timespec(tv_sec: int, tv_nsec: int)

  // ---------------------------------------------------------------------
  // Filter encoding

  /** The filter that watches one interest kind. */
  function KFilter(t: EventType): (f: Int16)
    ensures f in {EVFILT_READ, EVFILT_WRITE, EVFILT_EXCEPT}
  {
    match t
    case Except => EVFILT_EXCEPT
    case Read => EVFILT_READ
    case Write => EVFILT_WRITE
  }

  /** The switch a poll applies to each record's filter; other filters decode to None. */
  function DecodeFilter(filter: int): (r: Option<EventType>)
    ensures r.Some? <==> filter in {EVFILT_READ, EVFILT_EXCEPT, EVFILT_WRITE}
    ensures r.Some? ==> filter == KFilter(r.value)
  {
    if filter == EVFILT_READ then Some(Read)
    else if filter == EVFILT_EXCEPT then Some(Except)
    else if filter == EVFILT_WRITE then Some(Write)
    else None
  }

  /** Decoding a filter through the poll's switch gives back the interest it encodes. */
  lemma KFilterRoundTrip(t: EventType)
    ensures DecodeFilter(KFilter(t)) == Some(t)
  {
  }

  lemma KFilterInjective(t: EventType, u: EventType)
    ensures KFilter(t) == KFilter(u) ==> t == u
  {
    KFilterRoundTrip(t);
    KFilterRoundTrip(u);
  }

  /** A record the poll keeps: one whose filter it knows. */
  predicate Known(r: ReadyRecord)
  {
    DecodeFilter(r.filter).Some?
  }

  // ---------------------------------------------------------------------
  // Timeouts

  function ToKTimespec(t: RunLoopTimeout): (ts: Timespec)
    ensures ts.tv_sec == t.seconds && ts.tv_nsec == t.nanoSeconds
  {
    Timespec(t.seconds, t.nanoSeconds)
  }

  /** The timeout argument a poll hands to kevent(): a null pointer (block) when there is none. */
  function KernelTimeout(timeout: Option<RunLoopTimeout>): (w: Option<Timespec>)
    ensures w.None? <==> timeout.None?
    ensures w.Some? ==> w.value.tv_sec == timeout.value.seconds && w.value.tv_nsec == timeout.value.nanoSeconds
  {
    match timeout
    case None => None
    case Some(t) => Some(ToKTimespec(t))
  }

  // ---------------------------------------------------------------------
  // What one poll reports: the reference definitions

  /** The types the known-filter records of `rs` report for `fd`, in buffer order, duplicates kept. */
  function TypesFor(rs: seq<ReadyRecord>, fd: int): seq<EventType>
  {
    if rs == [] then []
    else
      var last := rs[|rs| - 1];
      TypesFor(rs[..|rs| - 1], fd)
      + (if last.ident == fd && Known(last) then [DecodeFilter(last.filter).value] else [])
  }

  /** The descriptors that have at least one known-filter record in `rs`. */
  function ReportedFds(rs: seq<ReadyRecord>): set<Descriptor>
  {
    if rs == [] then {}
    else
      var last := rs[|rs| - 1];
      ReportedFds(rs[..|rs| - 1]) + (if Known(last) then {last.ident} else {})
  }

  /** The number of known-filter records in `rs`. */
  function KnownCount(rs: seq<ReadyRecord>): nat
  {
    if rs == [] then 0
    else KnownCount(rs[..|rs| - 1]) + (if Known(rs[|rs| - 1]) then 1 else 0)
  }

  /** The per-descriptor table a poll builds before flattening it. */
  function Grouped(rs: seq<ReadyRecord>): map<Descriptor, seq<EventType>>
  {
    map fd | fd in ReportedFds(rs) :: TypesFor(rs, fd)
  }

  /** The sum of the lengths of the entries of `m` under `keys`. */
  ghost function SumOver(m: map<Descriptor, seq<EventType>>, keys: set<Descriptor>): nat
    requires keys <= m.Keys
    decreases keys
  {
    if keys == {} then 0
    else
      var k :| k in keys;
      |m[k]| + SumOver(m, keys - {k})
  }

  // ---------------------------------------------------------------------
  // Properties of the reference definitions

  /** A descriptor is reported exactly when some known-filter record names it. */
  lemma {:induction false} ReportedFdsIff(rs: seq<ReadyRecord>, fd: int)
    ensures fd in ReportedFds(rs) <==> exists i :: 0 <= i < |rs| && rs[i].ident == fd && Known(rs[i])
  {
    if rs != [] {
      var init := rs[..|rs| - 1];
      ReportedFdsIff(init, fd);
      if fd in ReportedFds(rs) && fd !in ReportedFds(init) {
        assert rs[|rs| - 1].ident == fd && Known(rs[|rs| - 1]);
      }
      if exists i :: 0 <= i < |rs| && rs[i].ident == fd && Known(rs[i]) {
        var i :| 0 <= i < |rs| && rs[i].ident == fd && Known(rs[i]);
        if i < |rs| - 1 {
          assert init[i] == rs[i];
        }
      }
    }
  }

  /** Every reported descriptor carries at least one type; an unreported one none. */
  lemma {:induction false} TypesForEmptyIff(rs: seq<ReadyRecord>, fd: Descriptor)
    ensures TypesFor(rs, fd) != [] <==> fd in ReportedFds(rs)
  {
    if rs != [] {
      TypesForEmptyIff(rs[..|rs| - 1], fd);
    }
  }

  /** Grouping is order preserving: the types for a descriptor from two stretches of the buffer concatenate. */
  lemma {:induction false} TypesForAppend(rs: seq<ReadyRecord>, qs: seq<ReadyRecord>, fd: int)
    ensures TypesFor(rs + qs, fd) == TypesFor(rs, fd) + TypesFor(qs, fd)
    decreases |qs|
  {
    if qs != [] {
      var qi := qs[..|qs| - 1];
      assert (rs + qs)[..|rs + qs| - 1] == rs + qi;
      TypesForAppend(rs, qi, fd);
    } else {
      assert rs + qs == rs;
    }
  }

  /** There are never more reported descriptors than records. */
  lemma {:induction false} ReportedFdsBound(rs: seq<ReadyRecord>)
    ensures |ReportedFds(rs)| <= |rs|
  {
    if rs != [] {
      var init := rs[..|rs| - 1];
      ReportedFdsBound(init);
      var last := rs[|rs| - 1];
      if Known(last) {
        assert ReportedFds(rs) == ReportedFds(init) + {last.ident};
        assert |ReportedFds(init) + {last.ident}| <= |ReportedFds(init)| + 1;
      }
    }
  }

  /** One step of the poll loop: appending a record updates the table the way the loop does. */
  lemma GroupedStep(rs: seq<ReadyRecord>, r: ReadyRecord)
    ensures !Known(r) ==> Grouped(rs + [r]) == Grouped(rs)
    ensures Known(r) ==>
      Grouped(rs + [r]) ==
        Grouped(rs)[r.ident := (if r.ident in Grouped(rs) then Grouped(rs)[r.ident] else []) + [DecodeFilter(r.filter).value]]
  {
    var rs' := rs + [r];
    assert rs'[..|rs'| - 1] == rs;
    var g, g' := Grouped(rs), Grouped(rs');
    if Known(r) {
      var h := g[r.ident := (if r.ident in g then g[r.ident] else []) + [DecodeFilter(r.filter).value]];
      assert g'.Keys == h.Keys;
      forall fd | fd in h
        ensures g'[fd] == h[fd]
      {
        if fd == r.ident && r.ident !in g {
          TypesForEmptyIff(rs, fd);
        }
      }
    } else {
      assert g'.Keys == g.Keys;
      forall fd | fd in g
        ensures g'[fd] == g[fd]
      {
      }
    }
  }

  lemma {:induction false} SumOverRemove(m: map<Descriptor, seq<EventType>>, keys: set<Descriptor>, k: Descriptor)
    requires keys <= m.Keys && k in keys
    ensures SumOver(m, keys) == |m[k]| + SumOver(m, keys - {k})
    decreases keys
  {
    var j :| j in keys && SumOver(m, keys) == |m[j]| + SumOver(m, keys - {j});
    if j != k {
      SumOverRemove(m, keys - {j}, k);
      SumOverRemove(m, keys - {k}, j);
      assert keys - {j} - {k} == keys - {k} - {j};
    }
  }

  lemma {:induction false} SumOverAgree(m: map<Descriptor, seq<EventType>>, n: map<Descriptor, seq<EventType>>, keys: set<Descriptor>)
    requires keys <= m.Keys && keys <= n.Keys
    requires forall k :: k in keys ==> |m[k]| == |n[k]|
    ensures SumOver(m, keys) == SumOver(n, keys)
    decreases keys
  {
    if keys != {} {
      var k :| k in keys;
      SumOverRemove(m, keys, k);
      SumOverRemove(n, keys, k);
      SumOverAgree(m, n, keys - {k});
    }
  }

  /** The grouped table holds exactly as many types as there are known-filter records. */
  lemma {:induction false} GroupedTotal(rs: seq<ReadyRecord>)
    ensures SumOver(Grouped(rs), Grouped(rs).Keys) == KnownCount(rs)
  {
    if rs != [] {
      var init, r := rs[..|rs| - 1], rs[|rs| - 1];
      assert init + [r] == rs;
      GroupedTotal(init);
      GroupedStep(init, r);
      var g, g' := Grouped(init), Grouped(rs);
      if Known(r) {
        var f := r.ident;
        if f in g {
          assert g'.Keys == g.Keys;
          SumOverRemove(g', g'.Keys, f);
          SumOverRemove(g, g.Keys, f);
          SumOverAgree(g, g', g.Keys - {f});
        } else {
          assert g'.Keys - {f} == g.Keys;
          SumOverRemove(g', g'.Keys, f);
          SumOverAgree(g, g', g.Keys);
        }
      }
    }
  }

  // ---------------------------------------------------------------------
  // Change lists

  /** The flags of every record of a change list. */
  function ChangeFlags(remove: bool): (flags: bv16)
    ensures remove ==> flags & (EV_ADD | EV_ENABLE) == 0
    ensures !remove ==> flags & (EV_DELETE | EV_DISABLE) == 0
  {
    if remove then EV_DELETE | EV_DISABLE else EV_ADD | EV_ENABLE
  }

  /**
   * `c` is the change record for interest `t` of descriptor `fd`. An
   * EXCEPT record carries NOTE_LOWAT with the largest Int as its
   * threshold, on removal too, so unread receive-buffer data never wakes
   * it; every other record carries neither.
   */
  ghost predicate IsChangeFor(c: KEvent, fd: int, t: EventType, remove: bool)
  {
    && c.ident == fd
    && DecodeFilter(c.filter) == Some(t)
    && c.flags == ChangeFlags(remove)
    && c.udata == None
    && (t == Except ==> c.fflags == NOTE_LOWAT && c.data == INT_MAX)
    && (t != Except ==> c.fflags == 0 && c.data == 0)
  }

  /** `cs` has one change record per interest of `s`, in the same order. */
  ghost predicate IsChangeList(cs: seq<KEvent>, s: Selectable, remove: bool)
  {
    && |cs| == |s.eventTypes|
    && forall i :: 0 <= i < |cs| ==> IsChangeFor(cs[i], s.fileDescriptor, s.eventTypes[i], remove)
  }

  /** The interests a change list asks the kernel to watch, if every filter is known. */
  function Interests(cs: seq<KEvent>): Option<seq<EventType>>
  {
    if cs == [] then Some([])
    else
      match (Interests(cs[..|cs| - 1]), DecodeFilter(cs[|cs| - 1].filter))
      case (Some(ts), Some(t)) => Some(ts + [t])
      case _ => None
  }

  /** Decoding a change list's filters gives back the interest list it was built from. */
  lemma {:induction false} ChangeListRoundTrip(cs: seq<KEvent>, s: Selectable, remove: bool)
    requires IsChangeList(cs, s, remove)
    ensures Interests(cs) == Some(s.eventTypes)
    decreases |cs|
  {
    if cs != [] {
      var n := |cs| - 1;
      var s' := Selectable(s.fileDescriptor, s.eventTypes[..n]);
      ChangeListRoundTrip(cs[..n], s', remove);
      assert s.eventTypes[..n] + [s.eventTypes[n]] == s.eventTypes;
    }
  }

  /** A change list is determined by the Selectable and the direction. */
  lemma ChangeListUnique(a: seq<KEvent>, b: seq<KEvent>, s: Selectable, remove: bool)
    requires IsChangeList(a, s, remove) && IsChangeList(b, s, remove)
    ensures a == b
  {
    forall i | 0 <= i < |a|
      ensures a[i] == b[i]
    {
      assert a[i].filter == KFilter(s.eventTypes[i]) == b[i].filter;
    }
  }

  /**
   * Builds the change list of `update` record by record into a buffer of
   * one slot per interest. UInt(fileDescriptor) traps on a negative
   * descriptor, hence the precondition.
   */
  method BuildChangeList(s: Selectable, remove: bool) returns (changes: seq<KEvent>)
    requires s.fileDescriptor >= 0
    ensures IsChangeList(changes, s, remove)
  {
    var n := |s.eventTypes|;
    var buffer := new KEvent[n];
    var i := 0;
    while i < n
      invariant 0 <= i <= n
      invariant forall k :: 0 <= k < i ==> IsChangeFor(buffer[k], s.fileDescriptor, s.eventTypes[k], remove)
    {
      var eventType := s.eventTypes[i];
      var event := KEvent(s.fileDescriptor, KFilter(eventType), ChangeFlags(remove), 0, 0, None);
      KFilterRoundTrip(eventType);
      if eventType == Except {
        event := event.(fflags := NOTE_LOWAT, data := INT_MAX);
      }
      buffer[i] := event;
      i := i + 1;
    }
    changes := buffer[..];
  }

  /**
   * What the final loop of a poll keeps: `evs` holds one event per entry of
   * `table` outside `pending`, each descriptor once.
   */
  ghost predicate FlattenedExcept(table: map<Descriptor, seq<EventType>>, pending: set<Descriptor>, evs: seq<SelectableEvent>)
  {
    && pending <= table.Keys
    && |evs| + |pending| == |table.Keys|
    && (forall i :: 0 <= i < |evs| ==> evs[i].fd in table && evs[i].fd !in pending && evs[i].eventTypes == table[evs[i].fd])
    && (forall i, j :: 0 <= i < j < |evs| ==> evs[i].fd != evs[j].fd)
    && Fds(evs) == table.Keys - pending
  }

  lemma FlattenStep(table: map<Descriptor, seq<EventType>>, pending: set<Descriptor>, evs: seq<SelectableEvent>, f: Descriptor)
    requires FlattenedExcept(table, pending, evs) && f in pending
    ensures FlattenedExcept(table, pending - {f}, evs + [SelectableEvent(f, table[f])])
  {
    var evs' := evs + [SelectableEvent(f, table[f])];
    assert evs'[..|evs|] == evs;
  }

  /**
   * The final loop of a poll: one event per entry of the table, taken in
   * an order the model leaves open (a Swift dictionary's iteration order).
   */
  method Flatten(table: map<Descriptor, seq<EventType>>) returns (finalEvents: seq<SelectableEvent>)
    ensures |finalEvents| == |table.Keys|
    ensures forall e :: e in finalEvents ==> e.fd in table && e.eventTypes == table[e.fd]
    ensures forall i, j :: 0 <= i < j < |finalEvents| ==> finalEvents[i].fd != finalEvents[j].fd
    ensures Fds(finalEvents) == table.Keys
    ensures TotalTypes(finalEvents) == SumOver(table, table.Keys)
  {
    finalEvents := [];
    var pending := table.Keys;
    while pending != {}
      invariant FlattenedExcept(table, pending, finalEvents)
      invariant TotalTypes(finalEvents) + SumOver(table, pending) == SumOver(table, table.Keys)
      decreases pending
    {
      var f :| f in pending;
      SumOverRemove(table, pending, f);
      FlattenStep(table, pending, finalEvents, f);
      var e := SelectableEvent(f, table[f]);
      assert (finalEvents + [e])[..|finalEvents|] == finalEvents;
      finalEvents := finalEvents + [e];
      pending := pending - {f};
    }
  }

  // ---------------------------------------------------------------------
  // The provider object

  class KQueue {
    /** The kqueue descriptor. */
    const kq: int
    /** The buffer kevent() fills on each poll. */
    const events: array<ReadyRecord>
    /** The change lists handed to kevent(), oldest first. */
    var submitted: seq<seq<KEvent>>

    ghost predicate Valid()
      reads this
    {
      events.Length == EVENT_CAPACITY
    }

    /** The initialiser after kqueue() returned a usable descriptor. */
    constructor (kq: int)
      requires kq != -1
      ensures Valid() && fresh(events)
      ensures this.kq == kq && submitted == []
    {
      this.kq := kq;
      events := new ReadyRecord[EVENT_CAPACITY](_ => ReadyRecord(0, 0));
      submitted := [];
    }

    /** The failable initialiser: null when kqueue() failed. */
    static method Create(kqResult: int) returns (q: KQueue?)
      ensures q == null <==> kqResult == -1
      ensures q != null ==> fresh(q) && fresh(q.events) && q.Valid() && q.kq == kqResult && q.submitted == []
    {
      if kqResult == -1 {
        q := null;
      } else {
        q := new KQueue(kqResult);
      }
    }

    /** The records the last wait delivered: slots 0..ready-1 when it reported any. */
    ghost function Delivered(ready: int): seq<ReadyRecord>
      reads this, events
      requires Valid() && ready <= EVENT_CAPACITY
    {
      if ready <= 0 then [] else events[..ready]
    }

    /**
     * The poll, after kevent() waited with KernelTimeout(timeout) and
     * returned `ready`: -1 (a failed wait) or nothing ready gives an empty
     * list; otherwise every known-filter record in slots 0..ready-1 is
     * reported under its descriptor, once per descriptor, in buffer order.
     * The order of the descriptors is not fixed.
     */
    method Run(ready: int) returns (result: seq<SelectableEvent>)
      requires Valid()
      requires ready <= EVENT_CAPACITY
      ensures ready <= 0 ==> result == []
      ensures |result| <= EVENT_CAPACITY
      ensures forall i, j :: 0 <= i < j < |result| ==> result[i].fd != result[j].fd
      ensures forall e :: e in result ==> e.eventTypes != [] && e.eventTypes == TypesFor(Delivered(ready), e.fd)
      ensures Fds(result) == ReportedFds(Delivered(ready))
      ensures TotalTypes(result) == KnownCount(Delivered(ready))
    {
      if ready == -1 {
        return [];
      }
      if ready > 0 {
        var table := GroupReady(ready);
        ghost var rs := events[..ready];
        assert table.Keys == ReportedFds(rs);
        GroupedTotal(rs);
        ReportedFdsBound(rs);
        var finalEvents := Flatten(table);
        forall x | x in finalEvents
          ensures x.eventTypes != []
        {
          TypesForEmptyIff(rs, x.fd);
        }
        return finalEvents;
      }
      return [];
    }

    /** The loop over slots 0..ready-1 of a poll, building the per-descriptor table. */
    method GroupReady(ready: int) returns (table: map<Descriptor, seq<EventType>>)
      requires Valid()
      requires 0 < ready <= EVENT_CAPACITY
      ensures table == Grouped(events[..ready])
    {
      table := map[];
      var i := 0;
      while i < ready
        invariant 0 <= i <= ready
        invariant table == Grouped(events[..i])
      {
        var event := events[i];
        var fd := event.ident;
        var filter := event.filter;
        if filter == EVFILT_READ {
          var list := if fd in table then table[fd] else [];
          list := list + [Read];
          table := table[fd := list];
        } else if filter == EVFILT_EXCEPT {
          var list := if fd in table then table[fd] else [];
          list := list + [Except];
          table := table[fd := list];
        } else if filter == EVFILT_WRITE {
          var list := if fd in table then table[fd] else [];
          list := list + [Write];
          table := table[fd := list];
        }
        // any other filter: dropped
        assert events[..i + 1] == events[..i] + [event];
        GroupedStep(events[..i], event);
        i := i + 1;
      }
    }

    /** Registers the interests of `s`: one ADD|ENABLE record per interest. */
    method Register(s: Selectable)
      requires Valid() && s.fileDescriptor >= 0
      modifies this
      ensures Valid()
      ensures |submitted| == |old(submitted)| + 1 && submitted[..|old(submitted)|] == old(submitted)
      ensures IsChangeList(submitted[|submitted| - 1], s, false)
    {
      Update(s, false);
    }

    /** Removes the interests of `s`: one DELETE|DISABLE record per interest. */
    method Deregister(s: Selectable)
      requires Valid() && s.fileDescriptor >= 0
      modifies this
      ensures Valid()
      ensures |submitted| == |old(submitted)| + 1 && submitted[..|old(submitted)|] == old(submitted)
      ensures IsChangeList(submitted[|submitted| - 1], s, true)
    {
      Update(s, true);
    }

    method Update(s: Selectable, remove: bool)
      requires Valid() && s.fileDescriptor >= 0
      modifies this
      ensures Valid()
      ensures |submitted| == |old(submitted)| + 1 && submitted[..|old(submitted)|] == old(submitted)
      ensures IsChangeList(submitted[|submitted| - 1], s, remove)
    {
      var changes := BuildChangeList(s, remove);
      submitted := submitted + [changes];
    }
  }
}
