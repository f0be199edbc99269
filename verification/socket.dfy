/**
 * The listening socket (Sources/Xio/Socket.swift). A Socket owns one
 * descriptor from construction to deinitialisation. The system calls it
 * makes are recorded, in order, as its trace; their results are
 * parameters.
 */
module Sockets {
  import opened Wrappers
  import opened Addresses

  // Darwin <sys/socket.h>, <netinet/in.h>, <netinet/tcp.h>
  const AF_INET: int := 2
  const SOL_SOCKET: int := 0xFFFF
  const SO_DEBUG: int := 0x0001
  const SO_REUSEADDR: int := 0x0004
  const IPPROTO_TCP: int := 6
  const TCP_NODELAY: int := 0x01

  /** The backlog a listening socket asks for. */
  const LISTEN_BACKLOG: nat := 128

  datatype SockOpt = SockOpt(level: int, name: int)

  /** A sockaddr_in: the family, the two bytes of sin_port as stored, and the IPv4 text of the host. */
  datatype SockAddrIn = SockAddrIn(family: int, portBytes: seq<nat>, host: string)

  /** A system call a socket makes on its own descriptor. */
  datatype SysCall =
    | OpenSocket(fd: int)
    | SetSockOpt(fd: int, opt: SockOpt, value: int)
    | Bind(fd: int, addr: SockAddrIn)
    | Listen(fd: int, backlog: nat)
    | GetFlags(fd: int)
    | SetFlags(fd: int, flags: bv32)
    | Close(fd: int)

  /**
   * Why setting up a listening socket aborts the process. UnableToBind and
   * UnableToListen are told apart here only; the source reports both with
   * the same "Unable to bind" message.
   */
  datatype Fatal = InvalidAddressString | UnableToBind | UnableToListen | FlagsUnavailable

  /** The address bindSocket hands to bind() for an endpoint. */
  function SockAddrFor(e: Endpoint): (a: SockAddrIn)
    requires e.port <= UINT16_MAX
    ensures a.family == AF_INET && a.host == e.host
    ensures a.portBytes == [e.port / 256, e.port % 256] && NetworkValue(a.portBytes) == e.port
  {
    StoredPortIsBigEndian(e.port);
    SockAddrIn(AF_INET, HostBytes(ByteSwap16(e.port)), e.host)
  }

  /** The two options as the source sets them: both at the socket level. */
  function ListeningOptionsAsWritten(): (opts: seq<SockOpt>)
    ensures |opts| == 2 && opts[0] == SockOpt(SOL_SOCKET, SO_REUSEADDR)
    ensures forall i :: 0 <= i < |opts| ==> opts[i].level == SOL_SOCKET
  {
    [SockOpt(SOL_SOCKET, SO_REUSEADDR), SockOpt(SOL_SOCKET, TCP_NODELAY)]
  }

  /**
   * TCP_NODELAY is a TCP-level option number; at the socket level the
   * same number is SO_DEBUG, so the second call turns on debugging and
   * leaves segment coalescing on.
   */
  lemma NoDelayAsWrittenIsSoDebug()
    ensures ListeningOptionsAsWritten()[1] == SockOpt(SOL_SOCKET, SO_DEBUG)
    ensures forall i :: 0 <= i < |ListeningOptionsAsWritten()| ==> ListeningOptionsAsWritten()[i].level != IPPROTO_TCP
  {
  }

  /** The two options as intended: address reuse at the socket level, no coalescing at the TCP level. */
  function ListeningOptions(): seq<SockOpt>
  {
    [SockOpt(SOL_SOCKET, SO_REUSEADDR), SockOpt(IPPROTO_TCP, TCP_NODELAY)]
  }

  lemma ListeningOptionsIntended()
    ensures SockOpt(SOL_SOCKET, SO_REUSEADDR) in ListeningOptions()
    ensures SockOpt(IPPROTO_TCP, TCP_NODELAY) in ListeningOptions()
    ensures SockOpt(SOL_SOCKET, SO_DEBUG) !in ListeningOptions()
  {
  }

  /** The calls of a listening socket whose every step succeeded, with `options` as the two options set. */
  function TraceWith(options: seq<SockOpt>, fd: int, e: Endpoint, flags: bv32): (t: seq<SysCall>)
    requires |options| == 2 && e.port <= UINT16_MAX && flags != FCNTL_ERROR
    ensures |t| == 7 && t[0] == OpenSocket(fd) && t[|t| - 1] == SetFlags(fd, WithNonBlocking(flags))
  {
    [ OpenSocket(fd),
      Bind(fd, SockAddrFor(e)),
      SetSockOpt(fd, options[0], 1),
      SetSockOpt(fd, options[1], 1),
      Listen(fd, LISTEN_BACKLOG),
      GetFlags(fd),
      SetFlags(fd, WithNonBlocking(flags)) ]
  }

  /** The trace of a listening socket as the source sets it up: SO_DEBUG is set, TCP_NODELAY never is. */
  function ListeningTrace(fd: int, e: Endpoint, flags: bv32): (t: seq<SysCall>)
    requires e.port <= UINT16_MAX && flags != FCNTL_ERROR
    ensures SetSockOpt(fd, SockOpt(SOL_SOCKET, SO_REUSEADDR), 1) in t
    ensures SetSockOpt(fd, SockOpt(SOL_SOCKET, SO_DEBUG), 1) in t
    ensures forall i :: 0 <= i < |t| && t[i].SetSockOpt? ==> t[i].opt.level == SOL_SOCKET
  {
    TraceWith(ListeningOptionsAsWritten(), fd, e, flags)
  }

  /** The trace the corrected options give: the same calls, with TCP_NODELAY at the TCP level instead of SO_DEBUG. */
  function ListeningTraceIntended(fd: int, e: Endpoint, flags: bv32): (t: seq<SysCall>)
    requires e.port <= UINT16_MAX && flags != FCNTL_ERROR
    ensures SetSockOpt(fd, SockOpt(SOL_SOCKET, SO_REUSEADDR), 1) in t
    ensures SetSockOpt(fd, SockOpt(IPPROTO_TCP, TCP_NODELAY), 1) in t
    ensures SetSockOpt(fd, SockOpt(SOL_SOCKET, SO_DEBUG), 1) !in t
    ensures |t| == |ListeningTrace(fd, e, flags)|
    ensures forall i :: 0 <= i < |t| && i != 3 ==> t[i] == ListeningTrace(fd, e, flags)[i]
  {
    TraceWith(ListeningOptions(), fd, e, flags)
  }

  /** The position of the first call in `t` that satisfies `p`, or |t| if none. */
  function FirstIndex(t: seq<SysCall>, p: SysCall -> bool): (k: nat)
    ensures k <= |t| && (k < |t| ==> p(t[k]))
    ensures forall i :: 0 <= i < k ==> !p(t[i])
  {
    if t == [] then 0
    else if p(t[0]) then 0
    else 1 + FirstIndex(t[1..], p)
  }

  /**
   * On a listening socket, bind() comes first, then listen(), then the
   * non-blocking flag, whichever two options are set.
   */
  lemma ListeningOrder(options: seq<SockOpt>, fd: int, e: Endpoint, flags: bv32)
    requires |options| == 2 && e.port <= UINT16_MAX && flags != FCNTL_ERROR
    ensures var t := TraceWith(options, fd, e, flags);
      FirstIndex(t, (c: SysCall) => c.Bind?) < FirstIndex(t, (c: SysCall) => c.Listen?) < FirstIndex(t, (c: SysCall) => c.SetFlags?) < |t|
  {
    var t := TraceWith(options, fd, e, flags);
    assert t[1].Bind? && t[4].Listen? && t[6].SetFlags?;
    assert !t[0].Listen? && !t[1].Listen? && !t[2].Listen? && !t[3].Listen?;
    assert !t[0].SetFlags? && !t[1].SetFlags? && !t[2].SetFlags? && !t[3].SetFlags? && !t[4].SetFlags? && !t[5].SetFlags?;
  }

  /** `t` closes `fd` at most once, and only as its last call. */
  predicate ClosesOnceAtEnd(t: seq<SysCall>)
  {
    forall i :: 0 <= i < |t| - 1 ==> !t[i].Close?
  }

  class Socket {
    const fd: int
    var trace: seq<SysCall>
    var open: bool

    /**
     * The socket owns `fd`: the trace opens it first, every call names it,
     * and it is closed exactly when the socket is no longer open, once, as
     * the last call.
     */
    ghost predicate Valid()
      reads this
    {
      && |trace| >= 1
      && trace[0] == OpenSocket(fd)
      && (forall i :: 0 <= i < |trace| ==> trace[i].fd == fd)
      && (forall i :: 0 < i < |trace| ==> !trace[i].OpenSocket?)
      && ClosesOnceAtEnd(trace)
      && (open <==> !trace[|trace| - 1].Close?)
    }

    /** socket(AF_INET, SOCK_STREAM, 0) returned `fdFromKernel`. */
    constructor (fdFromKernel: int)
      ensures Valid() && open
      ensures fd == fdFromKernel && trace == [OpenSocket(fdFromKernel)]
    {
      fd := fdFromKernel;
      trace := [OpenSocket(fdFromKernel)];
      open := true;
    }

    /**
     * Creates, binds, listens and makes non-blocking, in that order, with
     * the results of bind(), listen() and fcntl(F_GETFL) as parameters;
     * the first failure aborts.
     */
    static method ForListening(address: string, fdFromKernel: int, bindResult: int, listenResult: int, currentFlags: bv32)
      returns (r: Result<Socket, Fatal>)
      ensures ParseAddress(address).Failure? ==> r == Failure(InvalidAddressString)
      ensures ParseAddress(address).Success? && bindResult != 0 ==> r == Failure(UnableToBind)
      ensures ParseAddress(address).Success? && bindResult == 0 && listenResult != 0 ==> r == Failure(UnableToListen)
      ensures ParseAddress(address).Success? && bindResult == 0 && listenResult == 0 && currentFlags == FCNTL_ERROR
        ==> r == Failure(FlagsUnavailable)
      ensures ParseAddress(address).Success? && bindResult == 0 && listenResult == 0 && currentFlags != FCNTL_ERROR
        ==> r.Success?
      ensures r.Success? ==>
        && ParseAddress(address).Success? && bindResult == 0 && listenResult == 0 && currentFlags != FCNTL_ERROR
        && fresh(r.value) && r.value.Valid() && r.value.open && r.value.fd == fdFromKernel
        && r.value.trace == ListeningTrace(fdFromKernel, ParseAddress(address).value, currentFlags)
    {
      var socket := new Socket(fdFromKernel);
      var bound := socket.BindSocket(address, bindResult);
      if bound.Fail? {
        return Failure(bound.error);
      }
      var listening := socket.StartListening(listenResult);
      if listening.Fail? {
        return Failure(listening.error);
      }
      var nonBlocking := socket.SetNonBlocking(currentFlags);
      if nonBlocking.Fail? {
        return Failure(nonBlocking.error);
      }
      return Success(socket);
    }

    /** Parses `address` and binds to it; a refused address or a failed bind() is fatal. */
    method BindSocket(address: string, bindResult: int) returns (o: Outcome<Fatal>)
      requires Valid() && open
      modifies this
      ensures Valid() && open
      ensures ParseAddress(address).Failure? ==> o == Fail(InvalidAddressString) && trace == old(trace)
      ensures ParseAddress(address).Success? ==>
        && trace == old(trace) + [Bind(fd, SockAddrFor(ParseAddress(address).value))]
        && o == if bindResult == 0 then Pass else Fail(UnableToBind)
    {
      var parsed := ParseAddress(address);
      if parsed.Failure? {
        return Fail(InvalidAddressString);
      }
      trace := trace + [Bind(fd, SockAddrFor(parsed.value))];
      if bindResult != 0 {
        return Fail(UnableToBind);
      }
      return Pass;
    }

    /**
     * Sets the two options as the source writes them (SO_REUSEADDR, then
     * option number TCP_NODELAY at the socket level), then listens with
     * LISTEN_BACKLOG; a failed listen() is fatal.
     */
    method StartListening(listenResult: int) returns (o: Outcome<Fatal>)
      requires Valid() && open
      modifies this
      ensures Valid() && open
      ensures trace == old(trace) + [SetSockOpt(fd, ListeningOptionsAsWritten()[0], 1), SetSockOpt(fd, ListeningOptionsAsWritten()[1], 1), Listen(fd, LISTEN_BACKLOG)]
      ensures o == if listenResult == 0 then Pass else Fail(UnableToListen)
    {
      var options := ListeningOptionsAsWritten();
      trace := trace + [SetSockOpt(fd, options[0], 1)];
      trace := trace + [SetSockOpt(fd, options[1], 1)];
      trace := trace + [Listen(fd, LISTEN_BACKLOG)];
      if listenResult != 0 {
        return Fail(UnableToListen);
      }
      return Pass;
    }

    /** Reads the status flags and writes them back with O_NONBLOCK added; -1 from the read fails the assertion. */
    method SetNonBlocking(currentFlags: bv32) returns (o: Outcome<Fatal>)
      requires Valid() && open
      modifies this
      ensures Valid() && open
      ensures currentFlags == FCNTL_ERROR ==> o == Fail(FlagsUnavailable) && trace == old(trace) + [GetFlags(fd)]
      ensures currentFlags != FCNTL_ERROR ==>
        o == Pass && trace == old(trace) + [GetFlags(fd), SetFlags(fd, WithNonBlocking(currentFlags))]
    {
      trace := trace + [GetFlags(fd)];
      if currentFlags == FCNTL_ERROR {
        return Fail(FlagsUnavailable);
      }
      trace := trace + [SetFlags(fd, WithNonBlocking(currentFlags))];
      return Pass;
    }

    /** Deinitialisation closes the descriptor; the runtime runs it once. */
    method Deinit()
      requires Valid() && open
      modifies this
      ensures Valid() && !open
      ensures trace == old(trace) + [Close(fd)]
    {
      trace := trace + [Close(fd)];
      open := false;
    }
  }

  /** Over a socket's life its descriptor is closed at most once. */
  lemma CloseAtMostOnce(t: seq<SysCall>)
    requires ClosesOnceAtEnd(t)
    ensures forall i, j :: 0 <= i < |t| && 0 <= j < |t| && t[i].Close? && t[j].Close? ==> i == j
  {
  }
}
