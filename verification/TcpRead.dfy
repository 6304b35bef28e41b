/** The read shared by the TCP server and client: checks of the arguments, and a receive
    loop that retries on time-outs of a hundredth of a second until data, a disconnection,
    an error, or the end of the caller's timeout. */
module TcpRead {
  import opened Values

  type Bytes = seq<bv8>

  type Chunk = b: Bytes | b != [] witness [0]

  /** What the k-th receive finds on the wire. */
  datatype Wire =
    | Quiet                  // nothing, for a hundredth of a second
    | Strange                // a socket.timeout that does not say "timed out"
    | Broken                 // any other socket.error
    | HungUp                 // the peer has closed the connection
    | Incoming(data: Chunk)

  datatype Recv =
    | TimedOut
    | OddTimeout
    | SocketError
    | Received(data: Bytes)

  /** `sock.recv(size)`: at most `size` bytes, and none if the peer has closed the
      connection; a receive of no bytes does not look at the wire. */
  function Receives(size: nat, wire: Wire): (r: Recv)
    ensures r.Received? ==> |r.data| <= size && (r.data == [] <==> size == 0 || wire.HungUp?)
  {
    if size == 0 then Received([])
    else match wire
      case Quiet => TimedOut
      case Strange => OddTimeout
      case Broken => SocketError
      case HungUp => Received([])
      case Incoming(data) => Received(if |data| <= size then data else data[..size])
  }

  function Answers(size: nat, wire: nat -> Wire): nat -> Recv {
    (k: nat) => Receives(size, wire(k))
  }

  const COMM_TIMEOUT: real := 0.01
  const FOREVER: real := -1.0

  const NOT_ALIVE := -1
  const SOCKET_ERROR := -2
  const TIME_OUT := -3

  /** The code and data returned, and whether the peer was found disconnected. */
  datatype Read = Read(code: int, data: Option<Bytes>, disconnected: bool)

  const BUFF_SIZE := 4096

  /** The checks every read starts with; the result is the number of bytes each receive asks
      for, and a length of -1 asks for the whole buffer. */
  function CheckRead(isSocket: bool, length: Arg, timeout: Arg): (r: Result<nat>)
    ensures r.Ok? <==>
      && isSocket && length.Int? && length.i >= -1
      && IsNumber(timeout) && (Number(timeout) == -1.0 || Number(timeout) >= 0.0)
    ensures r.Ok? ==> r.value == if length.i == -1 then 4096 else length.i
    ensures r == Err(ValueError) <==>
      && isSocket && length.Int?
      && (length.i < -1 || (IsNumber(timeout) && Number(timeout) < 0.0 && Number(timeout) != FOREVER))
    ensures r.Err? ==> r.error != Raised
  {
    if !isSocket then Err(TypeError)
    else if !length.Int? then Err(TypeError)
    else if length.i != -1 && length.i < 0 then Err(ValueError)
    else if !IsNumber(timeout) then Err(TypeError)
    else if Number(timeout) != FOREVER && Number(timeout) < 0.0 then Err(ValueError)
    else Ok(if length.i == -1 then BUFF_SIZE else length.i)
  }

  function Ceiling(x: real): int {
    -((-x).Floor)
  }

  /** The most receives a read with timeout `t >= 0` makes. */
  function Limit(t: real): nat
    requires t >= 0.0
  {
    var c := Ceiling(100.0 * t);
    if c < 1 then 1 else c
  }

  /** `Limit(t)` is the least number of receives whose time-outs add up to `t`. */
  lemma LimitIsLeast(t: real, n: nat)
    requires t >= 0.0 && n >= 1
    ensures COMM_TIMEOUT * n as real >= t <==> n >= Limit(t)
  {
    var x := -100.0 * t;
    assert x.Floor as real <= x < x.Floor as real + 1.0;
  }

  /** What a receive other than a plain time-out makes the read return. */
  function Answer(r: Recv): Read
    requires !r.TimedOut?
  {
    match r
    case OddTimeout => Read(SOCKET_ERROR, None, false)
    case SocketError => Read(SOCKET_ERROR, None, false)
    case Received(data) => if data == [] then Read(NOT_ALIVE, None, true) else Read(|data|, Some(data), false)
  }

  ghost predicate AllTimedOut(recv: nat -> Recv, n: nat) {
    forall k: nat :: k < n ==> recv(k).TimedOut?
  }

  /** A read of `attempts` receives. With a timeout there are at most `Limit(timeout)`, and
      the read returns -3 exactly when that many in a row time out; otherwise, and whenever
      it waits for ever, it returns the answer to the first that does not time out. */
  ghost predicate Outcome(recv: nat -> Recv, timeout: real, r: Read, attempts: nat) {
    && attempts >= 1
    && (timeout >= 0.0 ==> attempts <= Limit(timeout))
    && (r.code == TIME_OUT <==> timeout >= 0.0 && AllTimedOut(recv, Limit(timeout)))
    && (r.code == TIME_OUT ==> attempts == Limit(timeout) && r.data == None && !r.disconnected)
    && (r.code != TIME_OUT ==>
          AllTimedOut(recv, attempts - 1) && !recv(attempts - 1).TimedOut? && r == Answer(recv(attempts - 1)))
  }

  /** The receive loop; the k-th receive answers `recv(k)`. (A read that waits for ever
      returns only if there is a receive that does not time out.) */
  method Receive(recv: nat -> Recv, timeout: real) returns (r: Read, attempts: nat)
    requires timeout == FOREVER || timeout >= 0.0
    requires timeout == FOREVER ==> exists k: nat :: !recv(k).TimedOut?
    ensures Outcome(recv, timeout, r, attempts)
  {
    ghost var end: nat := if timeout >= 0.0 then Limit(timeout) else (var k: nat :| !recv(k).TimedOut?; k + 1);
    var timeCnt := 0;
    attempts := 0;
    while true
      invariant AllTimedOut(recv, attempts)
      invariant timeout >= 0.0 ==> timeCnt == attempts < Limit(timeout)
      invariant attempts < end
      invariant timeout == FOREVER ==> !recv(end - 1).TimedOut?
      decreases end - attempts
    {
      var rxd := recv(attempts);
      attempts := attempts + 1;
      match rxd
      case TimedOut =>
        if timeout != FOREVER {
          timeCnt := timeCnt + 1;
          LimitIsLeast(timeout, timeCnt);
          if COMM_TIMEOUT * timeCnt as real >= timeout {
            return Read(TIME_OUT, None, false), attempts;
          }
        }
      case OddTimeout => return Read(SOCKET_ERROR, None, false), attempts;
      case SocketError => return Read(SOCKET_ERROR, None, false), attempts;
      case Received(data) =>
        if |data| == 0 { return Read(NOT_ALIVE, None, true), attempts; }
        return Read(|data|, Some(data), false), attempts;
    }
  }

  /** What a read returns, for a connection that is registered or not. */
  ghost predicate ReadOutcome(isSocket: bool, registered: bool, length: Arg, timeout: Arg, wire: nat -> Wire,
                              r: Result<Read>, attempts: nat) {
    match CheckRead(isSocket, length, timeout)
    case Err(e) => r == Err(e) && attempts == 0
    case Ok(size) =>
      if !registered then r == Ok(Read(NOT_ALIVE, None, false)) && attempts == 0
      else r.Ok? && Outcome(Answers(size, wire), Number(timeout), r.value, attempts)
  }

  method CheckedRead(isSocket: bool, registered: bool, length: Arg, timeout: Arg, wire: nat -> Wire)
    returns (r: Result<Read>, attempts: nat)
    requires length != Int(0) && IsNumber(timeout) && Number(timeout) == FOREVER ==> exists k: nat :: !wire(k).Quiet?
    ensures ReadOutcome(isSocket, registered, length, timeout, wire, r, attempts)
  {
    attempts := 0;
    var size :- CheckRead(isSocket, length, timeout);
    if !registered { return Ok(Read(NOT_ALIVE, None, false)), 0; }
    if size == 0 {
      AnswerAt(size, wire, 0);
    } else if Number(timeout) == FOREVER {
      ghost var k: nat :| !wire(k).Quiet?;
      AnswerAt(size, wire, k);
    }
    var read;
    read, attempts := Receive(Answers(size, wire), Number(timeout));
    return Ok(read), attempts;
  }

  lemma AnswerAt(size: nat, wire: nat -> Wire, k: nat)
    ensures Answers(size, wire)(k) == Receives(size, wire(k))
  {
  }

  /** Receives of no bytes never time out. */
  lemma NothingAsked(size: nat, wire: nat -> Wire, timeout: real)
    requires size == 0
    ensures !Answers(size, wire)(0).TimedOut?
    ensures timeout >= 0.0 ==> !AllTimedOut(Answers(size, wire), Limit(timeout))
  {
    AnswerAt(size, wire, 0);
  }

  /** What a read of at most `size` bytes tells: data it returns is never empty and never
      more than was asked for; and it takes the connection for lost exactly if the peer
      has closed it, or if no bytes were asked for. */
  lemma DisconnectedIff(size: nat, wire: nat -> Wire, timeout: real, r: Read, attempts: nat)
    requires Outcome(Answers(size, wire), timeout, r, attempts)
    ensures r.data.Some? ==> 1 <= |r.data.value| == r.code <= size
    ensures r.disconnected <==> size == 0 || wire(attempts - 1).HungUp?
    ensures r.disconnected && size > 0 ==> forall k: nat :: k < attempts - 1 ==> wire(k).Quiet?
  {
    AnswerAt(size, wire, attempts - 1);
    if size == 0 {
      NothingAsked(size, wire, timeout);
    } else {
      if r.disconnected {
        forall k: nat | k < attempts - 1 ensures wire(k).Quiet? { assert Answers(size, wire)(k).TimedOut?; }
      }
    }
  }

  /** Everything a read of at most `size > 0` bytes returns, from what its last receive
      found: the bytes that came in, at most `size` of them, or the code of what happened. */
  lemma ReadIff(size: nat, wire: nat -> Wire, timeout: real, r: Read, attempts: nat)
    requires Outcome(Answers(size, wire), timeout, r, attempts) && size > 0
    ensures forall k: nat :: k < attempts - 1 ==> wire(k).Quiet?
    ensures match wire(attempts - 1)
      case Quiet => timeout >= 0.0 && attempts == Limit(timeout) && r == Read(-3, None, false)
      case Strange => r == Read(-2, None, false)
      case Broken => r == Read(-2, None, false)
      case HungUp => r == Read(-1, None, true)
      case Incoming(data) =>
        var got := if |data| <= size then data else data[..size];
        r == Read(|got|, Some(got), false)
  {
    forall k: nat | k < attempts - 1 ensures wire(k).Quiet? {
      AnswerAt(size, wire, k);
      assert Answers(size, wire)(k).TimedOut?;
    }
    AnswerAt(size, wire, attempts - 1);
    if r.code == TIME_OUT {
      assert Answers(size, wire)(attempts - 1).TimedOut?;
    }
  }

  /** So a read of length zero takes a live connection for lost. */
  lemma ReadOfNothing(wire: nat -> Wire, timeout: Arg, r: Result<Read>, attempts: nat)
    requires ReadOutcome(true, true, Int(0), timeout, wire, r, attempts) && CheckRead(true, Int(0), timeout).Ok?
    ensures r == Ok(Read(-1, None, true)) && attempts == 1
  {
    DisconnectedIff(0, wire, Number(timeout), r.value, attempts);
    NothingAsked(0, wire, Number(timeout));
  }
}
