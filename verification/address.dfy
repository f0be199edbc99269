/**
 * The pure computations behind a listening socket's setup
 * (Sources/Xio/Socket.swift): splitting "host:port", reading the port,
 * storing it in network byte order, and adding O_NONBLOCK to the file
 * status flags.
 */
module Addresses {
  import opened Wrappers

  const SEPARATOR: char := ':'
  const DEFAULT_PORT: nat := 7050
  const UINT16_MAX: nat := 0xFFFF

  /** Darwin <fcntl.h> */
  const O_NONBLOCK: bv32 := 0x0000_0004

  /** The bit pattern of fcntl()'s -1 error result. */
  const FCNTL_ERROR: bv32 := 0xFFFF_FFFF

  datatype Endpoint = Endpoint(host: string, port: nat)

  datatype AddressError = InvalidAddress

  // ---------------------------------------------------------------------
  // Splitting, with empty pieces dropped (Swift's split(separator:))

  /** The pieces of `s`, where `cur` is the piece read so far. */
  function SplitFrom(s: string, cur: string): seq<string>
    decreases |s|
  {
    if s == [] then (if cur == [] then [] else [cur])
    else if s[0] == SEPARATOR then (if cur == [] then [] else [cur]) + SplitFrom(s[1..], [])
    else SplitFrom(s[1..], cur + [s[0]])
  }

  /** The non-empty runs of `s` between separators, in order. */
  function Split(s: string): (ps: seq<string>)
    ensures forall i :: 0 <= i < |ps| ==> IsPiece(ps[i])
  {
    SplitFromPieces(s, []);
    SplitFrom(s, [])
  }

  /** `s` with every separator removed. */
  function WithoutSeparators(s: string): string
  {
    if s == [] then [] else (if s[0] == SEPARATOR then [] else [s[0]]) + WithoutSeparators(s[1..])
  }

  function Concat(ps: seq<string>): string
  {
    if ps == [] then [] else ps[0] + Concat(ps[1..])
  }

  /** A piece: non-empty and free of separators. */
  predicate IsPiece(p: string)
  {
    p != [] && SEPARATOR !in p
  }

  lemma {:induction false} ConcatAppend(a: seq<string>, b: seq<string>)
    ensures Concat(a + b) == Concat(a) + Concat(b)
  {
    if a != [] {
      assert (a + b)[1..] == a[1..] + b;
      ConcatAppend(a[1..], b);
    } else {
      assert a + b == b;
    }
  }

  lemma {:induction false} SplitFromPieces(s: string, cur: string)
    requires SEPARATOR !in cur
    ensures forall i :: 0 <= i < |SplitFrom(s, cur)| ==> IsPiece(SplitFrom(s, cur)[i])
    ensures Concat(SplitFrom(s, cur)) == cur + WithoutSeparators(s)
    decreases |s|
  {
    if s == [] {
      if cur != [] {
        assert Concat([cur]) == cur + Concat([]);
      }
    } else if s[0] == SEPARATOR {
      SplitFromPieces(s[1..], []);
      var head: seq<string> := if cur == [] then [] else [cur];
      ConcatAppend(head, SplitFrom(s[1..], []));
      if cur != [] {
        assert Concat([cur]) == cur + Concat([]);
      }
    } else {
      SplitFromPieces(s[1..], cur + [s[0]]);
      assert cur + [s[0]] + WithoutSeparators(s[1..]) == cur + WithoutSeparators(s);
    }
  }

  /**
   * Every piece is non-empty and free of separators, and the pieces
   * together hold every other character of the input, in order.
   */
  lemma SplitPieces(s: string)
    ensures forall i :: 0 <= i < |Split(s)| ==> IsPiece(Split(s)[i])
    ensures Concat(Split(s)) == WithoutSeparators(s)
  {
    SplitFromPieces(s, []);
  }

  /** A split at a separator: the pieces of both sides, in order. */
  lemma {:induction false} SplitFromAtSeparator(p: string, q: string, cur: string)
    ensures SplitFrom(p + [SEPARATOR] + q, cur) == SplitFrom(p, cur) + Split(q)
    decreases |p|
  {
    if p == [] {
      assert [SEPARATOR] + q == p + [SEPARATOR] + q;
      assert ([SEPARATOR] + q)[1..] == q;
    } else {
      assert (p + [SEPARATOR] + q)[1..] == p[1..] + [SEPARATOR] + q;
      assert (p + [SEPARATOR] + q)[0] == p[0];
      if p[0] == SEPARATOR {
        SplitFromAtSeparator(p[1..], q, []);
      } else {
        SplitFromAtSeparator(p[1..], q, cur + [p[0]]);
      }
    }
  }

  lemma SplitAtSeparator(p: string, q: string)
    ensures Split(p + [SEPARATOR] + q) == Split(p) + Split(q)
  {
    SplitFromAtSeparator(p, q, []);
  }

  /** A run without separators is its own single piece (or none, if empty). */
  lemma {:induction false} SplitFromPiece(w: string, cur: string)
    requires SEPARATOR !in w
    ensures SplitFrom(w, cur) == if cur + w == [] then [] else [cur + w]
    decreases |w|
  {
    if w != [] {
      SplitFromPiece(w[1..], cur + [w[0]]);
      assert cur + [w[0]] + w[1..] == cur + w;
    } else {
      assert cur + w == cur;
    }
  }

  lemma SplitPiece(w: string)
    requires SEPARATOR !in w
    ensures Split(w) == if w == [] then [] else [w]
  {
    SplitFromPiece(w, []);
    assert [] + w == w;
  }

  /** No pieces exactly when the input is separators only (or empty). */
  lemma SplitEmptyIff(s: string)
    ensures Split(s) == [] <==> forall i :: 0 <= i < |s| ==> s[i] == SEPARATOR
  {
    SplitPieces(s);
    WithoutSeparatorsEmptyIff(s);
    if Split(s) != [] {
      assert IsPiece(Split(s)[0]);
      ConcatAppend([Split(s)[0]], Split(s)[1..]);
      assert [Split(s)[0]] + Split(s)[1..] == Split(s);
      assert Concat([Split(s)[0]]) == Split(s)[0] + Concat([]);
    }
  }

  lemma {:induction false} WithoutSeparatorsEmptyIff(s: string)
    ensures WithoutSeparators(s) == [] <==> forall i :: 0 <= i < |s| ==> s[i] == SEPARATOR
  {
    if s != [] {
      WithoutSeparatorsEmptyIff(s[1..]);
      if forall i :: 0 <= i < |s[1..]| ==> s[1..][i] == SEPARATOR {
        if s[0] == SEPARATOR {
          forall i | 0 <= i < |s|
            ensures s[i] == SEPARATOR
          {
            if i > 0 {
              assert s[i] == s[1..][i - 1];
            }
          }
        }
      } else {
        var i :| 0 <= i < |s[1..]| && s[1..][i] != SEPARATOR;
        assert s[i + 1] != SEPARATOR;
      }
    }
  }

  // ---------------------------------------------------------------------
  // Reading a UInt16 (Swift's UInt16(_: Substring))

  predicate IsDigit(c: char)
  {
    '0' <= c <= '9'
  }

  predicate AllDigits(s: string)
  {
    forall i :: 0 <= i < |s| ==> IsDigit(s[i])
  }

  /** The value of a run of decimal digits, most significant first. */
  function DecimalValue(s: string): nat
    requires AllDigits(s)
  {
    if s == [] then 0
    else DecimalValue(s[..|s| - 1]) * 10 + (s[|s| - 1] as int - '0' as int)
  }

  /** The decimal spelling of `n`, without sign or leading zeros. */
  function Decimal(n: nat): (s: string)
    ensures s != [] && AllDigits(s)
  {
    if n < 10 then ['0' + n as char] else Decimal(n / 10) + ['0' + (n % 10) as char]
  }

  /**
   * Swift's parse of an unsigned 16-bit integer: an optional sign, then at
   * least one ASCII digit, with a value that fits. A minus sign leaves
   * only zero representable ("-0" reads as 0).
   */
  function ParseUInt16(s: string): (r: Option<nat>)
    ensures r.Some? ==> r.value <= UINT16_MAX
  {
    if s == [] then None
    else
      var signed := s[0] == '+' || s[0] == '-';
      var digits := if signed then s[1..] else s;
      if digits == [] || !AllDigits(digits) then None
      else if DecimalValue(digits) > UINT16_MAX then None
      else if s[0] == '-' && DecimalValue(digits) != 0 then None
      else Some(DecimalValue(digits))
  }

  lemma {:induction false} DecimalRoundTrip(n: nat)
    ensures DecimalValue(Decimal(n)) == n
  {
    if n >= 10 {
      DecimalRoundTrip(n / 10);
      var s := Decimal(n);
      assert s[..|s| - 1] == Decimal(n / 10);
    }
  }

  /** The spelling of every port reads back as that port. */
  lemma ParseDecimal(n: nat)
    requires n <= UINT16_MAX
    ensures ParseUInt16(Decimal(n)) == Some(n)
  {
    DecimalRoundTrip(n);
  }

  /** A run of `z` zero digits. */
  function Zeros(z: nat): (s: string)
    ensures |s| == z && AllDigits(s)
  {
    seq(z, _ => '0')
  }

  lemma {:induction false} DecimalValueZeros(z: nat, d: string)
    requires AllDigits(d)
    ensures AllDigits(Zeros(z) + d)
    ensures DecimalValue(Zeros(z) + d) == DecimalValue(d)
    decreases |d|, z
  {
    var e := Zeros(z) + d;
    assert forall i :: 0 <= i < |e| ==> IsDigit(e[i]) by {
      forall i | 0 <= i < |e|
        ensures IsDigit(e[i])
      {
        if i >= z {
          assert e[i] == d[i - z];
        }
      }
    }
    if d == [] {
      assert e == Zeros(z);
      if z > 0 {
        assert Zeros(z)[..z - 1] == Zeros(z - 1) + [];
        DecimalValueZeros(z - 1, []);
      }
    } else {
      var d' := d[..|d| - 1];
      assert e[..|e| - 1] == Zeros(z) + d';
      assert e[|e| - 1] == d[|d| - 1];
      DecimalValueZeros(z, d');
    }
  }

  /**
   * Leading zeros do not change the value: "0080" reads as 80, and a value
   * over 65535 does not fit however it is spelled ("0065536").
   */
  lemma LeadingZerosIgnored(z: nat, n: nat)
    ensures ParseUInt16(Zeros(z) + Decimal(n)) == if n <= UINT16_MAX then Some(n) else None
  {
    DecimalRoundTrip(n);
    DecimalValueZeros(z, Decimal(n));
    var s := Zeros(z) + Decimal(n);
    assert IsDigit(s[0]);
  }

  /** A value over 65535 does not fit: no spelling of it parses, with or without leading zeros. */
  lemma TooLargeRejected(z: nat, n: nat)
    requires n > UINT16_MAX
    ensures ParseUInt16(Zeros(z) + Decimal(n)).None?
    ensures ParseUInt16(['+'] + Zeros(z) + Decimal(n)).None?
    ensures ParseUInt16(['-'] + Zeros(z) + Decimal(n)).None?
  {
    LeadingZerosIgnored(z, n);
    SignedSpelling(z, n);
  }

  /**
   * A '+' sign is accepted ("+0080" reads as 80); after a '-' sign only
   * zero parses ("-00" reads as 0).
   */
  lemma SignedSpelling(z: nat, n: nat)
    ensures ParseUInt16(['+'] + Zeros(z) + Decimal(n)) == if n <= UINT16_MAX then Some(n) else None
    ensures ParseUInt16(['-'] + Zeros(z) + Decimal(n)) == if n == 0 then Some(0) else None
  {
    DecimalRoundTrip(n);
    DecimalValueZeros(z, Decimal(n));
    assert (['+'] + Zeros(z) + Decimal(n))[1..] == Zeros(z) + Decimal(n);
    assert (['-'] + Zeros(z) + Decimal(n))[1..] == Zeros(z) + Decimal(n);
  }

  /** A character that is not a digit, other than a leading sign, makes the parse fail. */
  lemma NonDigitRejected(s: string, i: nat)
    requires i < |s| && !IsDigit(s[i])
    requires i == 0 ==> s[0] != '+' && s[0] != '-'
    ensures ParseUInt16(s).None?
  {
    if s[0] == '+' || s[0] == '-' {
      assert s[1..][i - 1] == s[i];
    }
  }

  /** Without a digit there is nothing to parse: the empty string and a bare sign fail. */
  lemma NoDigitsRejected(s: string)
    requires s == [] || s == ['+'] || s == ['-']
    ensures ParseUInt16(s).None?
  {
  }

  // ---------------------------------------------------------------------
  // The address

  /** The port: the second piece if it reads as a UInt16, otherwise (or without one) DEFAULT_PORT. */
  function ChoosePort(parts: seq<string>): (port: nat)
    ensures port <= UINT16_MAX
  {
    if |parts| > 1 then
      match ParseUInt16(parts[1])
      case Some(p) => p
      case None => DEFAULT_PORT
    else DEFAULT_PORT
  }

  /** The endpoint a listening socket binds, or why the address is refused. */
  function ParseAddress(address: string): (r: Result<Endpoint, AddressError>)
    ensures r.Failure? <==> forall i :: 0 <= i < |address| ==> address[i] == SEPARATOR
    ensures r.Success? ==> IsPiece(r.value.host) && r.value.port <= UINT16_MAX
  {
    SplitEmptyIff(address);
    SplitPieces(address);
    var parts := Split(address);
    if |parts| == 0 then Failure(InvalidAddress)
    else Success(Endpoint(parts[0], ChoosePort(parts)))
  }

  /** A run of separators. */
  function Separators(n: nat): (s: string)
    ensures |s| == n && forall i :: 0 <= i < n ==> s[i] == SEPARATOR
  {
    seq(n, _ => SEPARATOR)
  }

  lemma {:induction false} SplitSeparators(n: nat)
    ensures Split(Separators(n)) == []
  {
    SplitEmptyIff(Separators(n));
  }

  lemma SplitLeading(n: nat, rest: string)
    ensures Split(Separators(n) + rest) == Split(rest)
  {
    if n > 0 {
      assert Separators(n) + rest == Separators(n - 1) + [SEPARATOR] + rest;
      SplitAtSeparator(Separators(n - 1), rest);
      SplitSeparators(n - 1);
    } else {
      assert Separators(n) + rest == rest;
    }
  }

  /**
   * Leading separators are skipped: the host is the first run between
   * separators, and with nothing after it the port is DEFAULT_PORT.
   */
  lemma HostOnly(n: nat, host: string, m: nat)
    requires IsPiece(host)
    ensures ParseAddress(Separators(n) + host + Separators(m)) == Success(Endpoint(host, DEFAULT_PORT))
  {
    var a := Separators(n) + host + Separators(m);
    assert a == Separators(n) + (host + Separators(m));
    SplitLeading(n, host + Separators(m));
    if m > 0 {
      assert host + Separators(m) == host + [SEPARATOR] + Separators(m - 1);
      SplitAtSeparator(host, Separators(m - 1));
      SplitSeparators(m - 1);
    } else {
      assert host + Separators(m) == host;
    }
    SplitPiece(host);
  }

  /**
   * The host is the first piece and the port comes from the second: its
   * UInt16 value if it parses, DEFAULT_PORT otherwise. Any run of ':'
   * before the host or between host and port is skipped, and anything from
   * a further ':' on is ignored.
   */
  lemma FirstTwoPieces(n: nat, host: string, k: nat, port: string, tail: string)
    requires IsPiece(host) && IsPiece(port) && (tail == [] || tail[0] == SEPARATOR)
    ensures ParseAddress(Separators(n) + host + Separators(k + 1) + port + tail)
      == Success(Endpoint(host, if ParseUInt16(port).Some? then ParseUInt16(port).value else DEFAULT_PORT))
  {
    var a := Separators(n) + host + Separators(k + 1) + port + tail;
    assert a == Separators(n) + (host + [SEPARATOR] + (Separators(k) + (port + tail)));
    SplitLeading(n, host + [SEPARATOR] + (Separators(k) + (port + tail)));
    SplitAtSeparator(host, Separators(k) + (port + tail));
    SplitLeading(k, port + tail);
    SplitPiece(host);
    if tail == [] {
      assert port + tail == port;
      SplitPiece(port);
    } else {
      assert port + tail == port + [SEPARATOR] + tail[1..];
      SplitAtSeparator(port, tail[1..]);
      SplitPiece(port);
    }
  }

  /** "host:port" with a port that fits binds that port, as in "127.0.0.1:7050". */
  lemma HostAndPort(host: string, port: nat, tail: string)
    requires IsPiece(host) && port <= UINT16_MAX && (tail == [] || tail[0] == SEPARATOR)
    ensures ParseAddress(host + [SEPARATOR] + Decimal(port) + tail) == Success(Endpoint(host, port))
  {
    assert SEPARATOR !in Decimal(port) by {
      assert AllDigits(Decimal(port));
    }
    ParseDecimal(port);
    assert host + [SEPARATOR] + Decimal(port) + tail == Separators(0) + host + Separators(1) + Decimal(port) + tail;
    FirstTwoPieces(0, host, 0, Decimal(port), tail);
  }

  /** A second piece that does not read as a UInt16 falls back to DEFAULT_PORT, as in "h:abc". */
  lemma BadPortFallsBack(host: string, port: string, tail: string)
    requires IsPiece(host) && IsPiece(port) && ParseUInt16(port).None? && (tail == [] || tail[0] == SEPARATOR)
    ensures ParseAddress(host + [SEPARATOR] + port + tail) == Success(Endpoint(host, DEFAULT_PORT))
  {
    assert host + [SEPARATOR] + port + tail == Separators(0) + host + Separators(1) + port + tail;
    FirstTwoPieces(0, host, 0, port, tail);
  }

  /** ":8080" names host "8080" and keeps the default port. */
  lemma PortOnlyIsHost()
    ensures ParseAddress(":8080") == Success(Endpoint("8080", DEFAULT_PORT))
  {
    assert ":8080" == Separators(1) + "8080" + Separators(0);
    HostOnly(1, "8080", 0);
  }

  // ---------------------------------------------------------------------
  // Byte order of sin_port (on a little-endian host)

  /** `port.bigEndian` on a little-endian host: the two bytes swapped. */
  function ByteSwap16(v: nat): (r: nat)
    requires v <= UINT16_MAX
    ensures r <= UINT16_MAX
  {
    (v % 256) * 256 + v / 256
  }

  /** The bytes a 16-bit value occupies in memory on a little-endian host, lowest address first. */
  function HostBytes(v: nat): (b: seq<nat>)
    requires v <= UINT16_MAX
    ensures |b| == 2 && b[0] < 256 && b[1] < 256
  {
    [v % 256, v / 256]
  }

  /** The value of two bytes read in network order (most significant first). */
  function NetworkValue(b: seq<nat>): nat
    requires |b| == 2
  {
    b[0] * 256 + b[1]
  }

  /** The stored port: high byte first, and reading it back in network order gives the port. */
  lemma StoredPortIsBigEndian(port: nat)
    requires port <= UINT16_MAX
    ensures HostBytes(ByteSwap16(port)) == [port / 256, port % 256]
    ensures NetworkValue(HostBytes(ByteSwap16(port))) == port
  {
    var lo, hi := port % 256, port / 256;
    assert port == hi * 256 + lo;
    assert ByteSwap16(port) == lo * 256 + hi;
    assert (lo * 256 + hi) % 256 == hi;
    assert (lo * 256 + hi) / 256 == lo;
  }

  // ---------------------------------------------------------------------
  // File status flags

  /** The flags setNonBlocking writes back: O_NONBLOCK set, every other bit kept. */
  function WithNonBlocking(flags: bv32): (r: bv32)
    requires flags != FCNTL_ERROR
    ensures r & O_NONBLOCK == O_NONBLOCK
    ensures r & !O_NONBLOCK == flags & !O_NONBLOCK
  {
    flags | O_NONBLOCK
  }
}
