/**
 * The run loop (Sources/Xio/RunLoop.swift): the table of registered
 * objects and the polling cycle that drives a provider. The run loop's
 * methods run one at a time, so it is a plain sequential class here.
 */
module Reactor {
  import opened Wrappers
  import opened Events

  /** A call the run loop makes on its provider. */
  datatype ProviderCall =
    | PollCall(timeout: Option<RunLoopTimeout>)
    | RegisterCall(selectable: Selectable)
    | DeregisterCall(selectable: Selectable)

  /**
   * The object a registration hands events to. The run loop never invokes
   * one, so only its identity matters.
   */
  datatype Delegate = Delegate(id: nat)

  datatype LoopError = NotImplemented

  /** The number of polls one run makes. */
  const POLL_ROUNDS: nat := 10

  /** The timeout of each of those polls: one second. */
  const POLL_TIMEOUT: RunLoopTimeout := RunLoopTimeout(1, 0)

  /** `n` polls, each with POLL_TIMEOUT. */
  function Polls(n: nat): (cs: seq<ProviderCall>)
    ensures |cs| == n
    ensures forall i :: 0 <= i < n ==> cs[i] == PollCall(Some(POLL_TIMEOUT))
  {
    seq(n, _ => PollCall(Some(POLL_TIMEOUT)))
  }

  /** The Selectables a sequence of provider calls registers. */
  function Registrations(cs: seq<ProviderCall>): set<Selectable>
  {
    if cs == [] then {}
    else
      Registrations(cs[..|cs| - 1])
      + (match cs[|cs| - 1] case RegisterCall(s) => {s} case _ => {})
  }

  /** Registrations distribute over a split of the call history. */
  lemma {:induction false} RegistrationsAppend(a: seq<ProviderCall>, b: seq<ProviderCall>)
    ensures Registrations(a + b) == Registrations(a) + Registrations(b)
    decreases |b|
  {
    if b == [] {
      assert a + b == a;
    } else {
      var bi := b[..|b| - 1];
      assert (a + b)[..|a + b| - 1] == a + bi;
      RegistrationsAppend(a, bi);
    }
  }

  /** Polling registers nothing. */
  lemma {:induction false} PollsRegisterNothing(n: nat)
    ensures Registrations(Polls(n)) == {}
  {
    if n > 0 {
      assert Polls(n)[..n - 1] == Polls(n - 1);
      PollsRegisterNothing(n - 1);
    }
  }

  /**
   * The table after registering `s` with `d`: only key `s` changes;
   * re-registering an equal Selectable replaces its delegate and keeps the
   * size, a new one adds exactly one entry.
   */
  lemma RegisterEntry(table: map<Selectable, Delegate>, s: Selectable, d: Delegate)
    ensures table[s := d].Keys == table.Keys + {s} && table[s := d][s] == d
    ensures forall k :: k in table && k != s ==> table[s := d][k] == table[k]
    ensures s in table ==> |table[s := d]| == |table|
    ensures s !in table ==> |table[s := d]| == |table| + 1
  {
  }

  /**
   * Keys compare on both the descriptor and the interest list: the same
   * descriptor registered with two different lists gives two entries.
   */
  lemma SameFdDistinctInterests(table: map<Selectable, Delegate>, fd: Int32, a: seq<EventType>, b: seq<EventType>, d1: Delegate, d2: Delegate)
    requires a != b
    requires Selectable(fd, a) !in table && Selectable(fd, b) !in table
    ensures |table[Selectable(fd, a) := d1][Selectable(fd, b) := d2]| == |table| + 2
  {
    RegisterEntry(table, Selectable(fd, a), d1);
    RegisterEntry(table[Selectable(fd, a) := d1], Selectable(fd, b), d2);
  }

  /**
   * A provider as the run loop sees it: every call it receives is
   * recorded, and its polls answer with scripted replies (none left: an
   * empty list).
   */
  class RecordingProvider {
    var calls: seq<ProviderCall>
    var replies: seq<seq<SelectableEvent>>

    constructor (replies: seq<seq<SelectableEvent>>)
      ensures calls == [] && this.replies == replies
    {
      calls := [];
      this.replies := replies;
    }

    method Run(timeout: Option<RunLoopTimeout>) returns (events: seq<SelectableEvent>)
      modifies this
      ensures calls == old(calls) + [PollCall(timeout)]
      ensures old(replies) == [] ==> events == [] && replies == []
      ensures old(replies) != [] ==> events == old(replies)[0] && replies == old(replies)[1..]
    {
      calls := calls + [PollCall(timeout)];
      if replies == [] {
        events := [];
      } else {
        events, replies := replies[0], replies[1..];
      }
    }

    method Register(s: Selectable)
      modifies this
      ensures calls == old(calls) + [RegisterCall(s)] && replies == old(replies)
    {
      calls := calls + [RegisterCall(s)];
    }

    method Deregister(s: Selectable)
      modifies this
      ensures calls == old(calls) + [DeregisterCall(s)] && replies == old(replies)
    {
      calls := calls + [DeregisterCall(s)];
    }
  }

  class RunLoop {
    const provider: RecordingProvider
    var selectables: map<Selectable, Delegate>
    /** How many provider calls preceded this run loop. */
    ghost const start: nat

    /** The table and the provider never diverge: its keys are exactly what this loop registered. */
    ghost predicate Valid()
      reads this, provider
    {
      && start <= |provider.calls|
      && selectables.Keys == Registrations(provider.calls[start..])
    }

    constructor (provider: RecordingProvider)
      ensures this.provider == provider && selectables == map[]
      ensures Valid()
    {
      this.provider := provider;
      selectables := map[];
      start := |provider.calls|;
    }

    /**
     * Polls the provider exactly POLL_ROUNDS times with POLL_TIMEOUT and
     * returns; nothing is dispatched and the table is left alone.
     */
    method Run()
      requires Valid()
      modifies provider
      ensures provider.calls == old(provider.calls) + Polls(POLL_ROUNDS)
      ensures selectables == old(selectables)
      ensures Valid()
    {
      var i := 0;
      while true
        invariant 0 <= i <= POLL_ROUNDS
        invariant provider.calls == old(provider.calls) + Polls(i)
        decreases POLL_ROUNDS - i
      {
        i := i + 1;
        if i > POLL_ROUNDS {
          break;
        }
        var events := provider.Run(Some(POLL_TIMEOUT));
        assert Polls(i) == Polls(i - 1) + [PollCall(Some(POLL_TIMEOUT))];
      }
      RegistrationsAppend(old(provider.calls)[start..], Polls(POLL_ROUNDS));
      PollsRegisterNothing(POLL_ROUNDS);
      assert provider.calls[start..] == old(provider.calls)[start..] + Polls(POLL_ROUNDS);
    }

    /** Forwards `s` to the provider, then maps it to `d`. */
    method Register(s: Selectable, d: Delegate)
      requires Valid()
      modifies this, provider
      ensures provider.calls == old(provider.calls) + [RegisterCall(s)] && provider.replies == old(provider.replies)
      ensures selectables == old(selectables)[s := d]
      ensures Valid()
    {
      provider.Register(s);
      selectables := selectables[s := d];
      RegistrationsAppend(old(provider.calls)[start..], [RegisterCall(s)]);
      assert [RegisterCall(s)][..0] == [];
      assert provider.calls[start..] == old(provider.calls)[start..] + [RegisterCall(s)];
    }

    /** Not implemented: always aborts, before touching the provider or the table. */
    method Deregister(s: Selectable) returns (r: Outcome<LoopError>)
      ensures r == Fail(NotImplemented)
    {
      r := Fail(NotImplemented);
    }
  }
}
