/** The account that both TCP modules keep of their sockets: the tables of open connections
    and of connection states, keyed by the `id` of the connected socket, against every
    socket the module ever created. */
module Sockets {

  /** A socket object: which one, and its `id`. An `id` may come back once the object that
      had it is gone; a registered socket is not gone. */
  datatype Sock = Sock(n: nat, id: nat)

  /** Where a call wants to listen or connect: a port, and whether the host is one that
      Python takes for a host name. */
  datatype Target = Target(port: int, hostOk: bool)

  const MAX_PORT := 65535

  predicate Usable(t: Target) { t.port <= MAX_PORT && t.hostOk }

  /** How one attempt to open with the new socket `sock` ends: in a `socket.error`, with the
      connection `conn` (on the client side `sock` itself), or in an exception of another
      kind, which nothing catches. */
  datatype Attempt =
    | Refused(sock: Sock)
    | Made(sock: Sock, conn: Sock)
    | Escaped(sock: Sock)

  /** `table` gives the sockets of each connection; `escaped` holds the sockets of attempts
      that escaped. */
  datatype Registry = Registry(
    table: map<nat, set<Sock>>,
    state: map<nat, int>,
    created: set<Sock>,
    closed: set<Sock>,
    escaped: set<Sock>)

  const EMPTY := Registry(map[], map[], {}, {}, {})

  function Live(table: map<nat, set<Sock>>): set<Sock> {
    set a, s | a in table && s in table[a] :: s
  }

  /** The tables have the same keys, connections share no socket, and every socket ever
      created is in exactly one of three places: closed, registered, or escaped. */
  ghost predicate Conserved(r: Registry) {
    && r.table.Keys == r.state.Keys
    && (forall a, b :: a in r.table && b in r.table && a != b ==> r.table[a] !! r.table[b])
    && r.created == r.closed + Live(r.table) + r.escaped
    && r.closed !! Live(r.table)
    && r.closed + Live(r.table) !! r.escaped
  }

  /** What a call does to the account. Opening first closes the sockets of the attempts that
      were refused. */
  datatype Event =
    | Opening(target: Target, refused: set<Sock>, sock: Sock, conn: Sock)
    | Escaping(target: Target, refused: set<Sock>, sock: Sock)
    | Closing(id: nat)
    | Disconnecting(id: nat)
    | Cleaning

  /** A connection is made only to a usable target, and an attempt escapes only on another.
      A created socket is a new object, and the `id` of a connected one is not that of
      another live one. Only a registered connection is closed or found disconnected. */
  ghost predicate Possible(r: Registry, e: Event) {
    match e
    case Opening(target, refused, sock, conn) =>
      Usable(target) && refused !! r.created && {sock, conn} !! r.created + refused && conn.id !in r.table
    case Escaping(target, refused, sock) =>
      !Usable(target) && refused !! r.created && sock !in r.created + refused
    case Closing(id) => id in r.table
    case Disconnecting(id) => id in r.table
    case Cleaning => true
  }

  function Refuse(r: Registry, refused: set<Sock>): Registry {
    r.(created := r.created + refused, closed := r.closed + refused)
  }

  function Register(r: Registry, sock: Sock, conn: Sock): Registry {
    r.(table := r.table[conn.id := {sock, conn}], state := r.state[conn.id := 1], created := r.created + {sock, conn})
  }

  function Escape(r: Registry, sock: Sock): Registry {
    r.(created := r.created + {sock}, escaped := r.escaped + {sock})
  }

  function Remove(r: Registry, id: nat): Registry
    requires id in r.table
  {
    r.(table := r.table - {id}, state := r.state - {id}, closed := r.closed + r.table[id])
  }

  function Clean(r: Registry): Registry {
    r.(table := map[], state := map[], closed := r.closed + Live(r.table))
  }

  ghost function Step(r: Registry, e: Event): Registry
    requires Possible(r, e)
  {
    match e
    case Opening(_, refused, sock, conn) => Register(Refuse(r, refused), sock, conn)
    case Escaping(_, refused, sock) => Escape(Refuse(r, refused), sock)
    case Closing(id) => Remove(r, id)
    case Disconnecting(id) => r.(state := r.state[id := 0])
    case Cleaning => Clean(r)
  }

  // Attempts

  function Socks(attempts: seq<Attempt>): set<Sock> {
    set i | 0 <= i < |attempts| :: attempts[i].sock
  }

  /** What opening does, if attempt `k` is the first that is not refused. */
  ghost function Opened(target: Target, attempts: seq<Attempt>, k: nat): Event
    requires k < |attempts| && !attempts[k].Refused?
  {
    var refused := Socks(attempts[..k]);
    match attempts[k]
    case Made(sock, conn) => Opening(target, refused, sock, conn)
    case Escaped(sock) => Escaping(target, refused, sock)
  }

  /** Some attempt is not refused, and whichever is the first can happen. */
  ghost predicate Attemptable(r: Registry, target: Target, attempts: seq<Attempt>) {
    && (exists k :: 0 <= k < |attempts| && !attempts[k].Refused?)
    && forall k: nat :: k < |attempts| && !attempts[k].Refused? ==> Possible(r, Opened(target, attempts, k))
  }

  lemma SocksSnoc(attempts: seq<Attempt>, k: nat)
    requires k < |attempts|
    ensures Socks(attempts[..k + 1]) == Socks(attempts[..k]) + {attempts[k].sock}
  {
    var a, b := attempts[..k], attempts[..k + 1];
    forall s ensures s in Socks(b) <==> s in Socks(a) || s == attempts[k].sock {
      if s in Socks(b) {
        var i :| 0 <= i < |b| && b[i].sock == s;
        if i < k { assert a[i].sock == s; }
      }
      if s in Socks(a) {
        var i :| 0 <= i < |a| && a[i].sock == s;
        assert b[i].sock == s;
      }
      assert b[k] == attempts[k];
    }
  }

  /** The loop of both `open` functions, up to the first attempt that is not refused; the
      socket of each refused one is created and closed. */
  method Retry(attempts: seq<Attempt>, ghost created: set<Sock>, ghost closed: set<Sock>)
    returns (k: nat, ghost nowCreated: set<Sock>, ghost nowClosed: set<Sock>)
    requires exists i :: 0 <= i < |attempts| && !attempts[i].Refused?
    ensures k < |attempts| && !attempts[k].Refused? && forall i :: 0 <= i < k ==> attempts[i].Refused?
    ensures nowCreated == created + Socks(attempts[..k]) && nowClosed == closed + Socks(attempts[..k])
  {
    k, nowCreated, nowClosed := 0, created, closed;
    while attempts[k].Refused?
      invariant 0 <= k < |attempts| && forall i :: 0 <= i < k ==> attempts[i].Refused?
      invariant nowCreated == created + Socks(attempts[..k]) && nowClosed == closed + Socks(attempts[..k])
      decreases |attempts| - k
    {
      nowCreated := nowCreated + {attempts[k].sock};
      nowClosed := nowClosed + {attempts[k].sock};
      SocksSnoc(attempts, k);
      k := k + 1;
    }
  }

  // What every event keeps

  lemma NoneLive()
    ensures Live(map[]) == {}
  {
  }

  lemma LiveRegister(table: map<nat, set<Sock>>, id: nat, socks: set<Sock>)
    requires id !in table
    ensures Live(table[id := socks]) == Live(table) + socks
  {
    var t := table[id := socks];
    forall s ensures s in Live(t) <==> s in Live(table) || s in socks {
      if s in socks { assert s in t[id]; }
      if s in Live(table) {
        var a :| a in table && s in table[a];
        assert s in t[a];
      }
    }
  }

  lemma LiveRemove(table: map<nat, set<Sock>>, id: nat)
    requires id in table
    requires forall a, b :: a in table && b in table && a != b ==> table[a] !! table[b]
    ensures Live(table - {id}) == Live(table) - table[id]
  {
    var t := table - {id};
    forall s ensures s in Live(t) <==> s in Live(table) && s !in table[id] {
      if s in Live(table) && s !in table[id] {
        var a :| a in table && s in table[a];
        assert s in t[a];
      }
    }
  }

  /** Closing the connections one by one, in any order, is closing them all. */
  lemma RemoveThenClean(r: Registry, id: nat)
    requires id in r.table
    ensures Clean(Remove(r, id)) == Clean(r)
  {
    var t := r.table - {id};
    forall s ensures s in Live(r.table) <==> s in Live(t) + r.table[id] {
      if s in Live(r.table) {
        var a :| a in r.table && s in r.table[a];
        if a != id { assert s in t[a]; }
      }
    }
    assert Live(r.table) == Live(t) + r.table[id];
    assert r.closed + Live(r.table) == r.closed + r.table[id] + Live(t);
  }

  lemma StepConserved(r: Registry, e: Event)
    requires Conserved(r) && Possible(r, e)
    ensures Conserved(Step(r, e))
  {
    match e
    case Opening(_, refused, sock, conn) =>
      var socks := {sock, conn};
      LiveRegister(r.table, conn.id, socks);
      forall a | a in r.table ensures r.table[a] !! socks {
        assert r.table[a] <= Live(r.table);
      }
    case Escaping(_, refused, sock) =>
    case Closing(id) =>
      LiveRemove(r.table, id);
      assert r.table[id] <= Live(r.table);
    case Disconnecting(id) =>
    case Cleaning =>
      NoneLive();
  }

  // Runs, from the empty registry

  ghost predicate PossibleRun(events: seq<Event>)
    decreases |events|, 0
  {
    events == [] || (
      var before := events[..|events| - 1];
      PossibleRun(before) && Possible(Exec(before), events[|events| - 1]))
  }

  ghost function Exec(events: seq<Event>): Registry
    requires PossibleRun(events)
    decreases |events|, 1
  {
    if events == [] then EMPTY else Step(Exec(events[..|events| - 1]), events[|events| - 1])
  }

  lemma OneMore(events: seq<Event>, e: Event)
    requires PossibleRun(events) && Possible(Exec(events), e)
    ensures PossibleRun(events + [e]) && Exec(events + [e]) == Step(Exec(events), e)
  {
    assert (events + [e])[..|events|] == events;
  }

  /** Every target the run opened, or tried to open, is usable. */
  ghost predicate AllUsable(events: seq<Event>) {
    forall i :: 0 <= i < |events| && (events[i].Opening? || events[i].Escaping?) ==> Usable(events[i].target)
  }

  lemma AllUsableSnoc(events: seq<Event>, e: Event)
    ensures AllUsable(events + [e]) <==>
      AllUsable(events) && (e.Opening? || e.Escaping? ==> Usable(e.target))
  {
    var all := events + [e];
    assert all[|events|] == e && forall i :: 0 <= i < |events| ==> all[i] == events[i];
  }

  lemma {:induction false} RunConserved(events: seq<Event>)
    requires PossibleRun(events)
    ensures Conserved(Exec(events))
    ensures Exec(events).escaped == {} <==> AllUsable(events)
    decreases |events|
  {
    if events == [] {
      NoneLive();
    } else {
      var before, e := events[..|events| - 1], events[|events| - 1];
      assert events == before + [e];
      RunConserved(before);
      StepConserved(Exec(before), e);
      AllUsableSnoc(before, e);
      assert e.Escaping? ==> e.sock in Exec(events).escaped;
    }
  }

  /** One more event in a history that accounts for the registry as it was. */
  lemma Recorded(history: seq<Event>, e: Event, now: Registry)
    requires PossibleRun(history) && Possible(Exec(history), e) && now == Step(Exec(history), e)
    ensures PossibleRun(history + [e]) && Exec(history + [e]) == now && Conserved(now)
  {
    OneMore(history, e);
    RunConserved(history + [e]);
  }

  /** Over every run of calls the account balances; a clean at its end leaves both tables
      empty, and every socket ever created closed, exactly if every port that passed the
      check was at most 65535 and every host a host name. */
  lemma CleanClosesEverythingIff(events: seq<Event>)
    requires PossibleRun(events)
    ensures Conserved(Exec(events))
    ensures var end := Clean(Exec(events));
      end.table == map[] && end.state == map[] && (end.closed == end.created <==> AllUsable(events))
  {
    RunConserved(events);
    var r := Exec(events);
    var end := Clean(r);
    assert end.created == end.closed + r.escaped && end.closed !! r.escaped;
    if end.closed == end.created { assert r.escaped == {}; }
  }

  /** Every target that is not usable leaves a socket open for good. */
  lemma UnusableLeaks(target: Target, sock: Sock)
    requires !Usable(target)
    ensures var events := [Escaping(target, {}, sock)];
      PossibleRun(events) && sock in Clean(Exec(events)).created - Clean(Exec(events)).closed
  {
    OneMore([], Escaping(target, {}, sock));
    assert [] + [Escaping(target, {}, sock)] == [Escaping(target, {}, sock)];
    NoneLive();
  }

  // What a recorded state means

  /** After this event connection `id` is no longer open, or no longer thought to be. */
  predicate Drops(e: Event, id: nat) {
    e.Cleaning? || ((e.Closing? || e.Disconnecting?) && e.id == id)
  }

  /** Connection `id` was opened, and since then neither closed nor found disconnected. */
  ghost predicate UpSince(events: seq<Event>, id: nat) {
    exists i :: 0 <= i < |events| && OpenedAt(events, i, id)
  }

  ghost predicate OpenedAt(events: seq<Event>, i: int, id: nat)
    requires 0 <= i < |events|
  {
    && events[i].Opening? && events[i].conn.id == id
    && forall j :: i < j < |events| ==> !Drops(events[j], id)
  }

  lemma UpSinceSnoc(events: seq<Event>, e: Event, id: nat)
    ensures UpSince(events + [e], id) <==>
      (e.Opening? && e.conn.id == id) || (UpSince(events, id) && !Drops(e, id))
  {
    var all := events + [e];
    var n := |events|;
    assert all[n] == e && forall i :: 0 <= i < n ==> all[i] == events[i];
    assert OpenedAt(all, n, id) <==> e.Opening? && e.conn.id == id;
    forall i | 0 <= i < n ensures OpenedAt(all, i, id) <==> OpenedAt(events, i, id) && !Drops(e, id) {
      assert OpenedAt(all, i, id) ==> !Drops(all[n], id);
    }
  }

  /** In every run the recorded states are 0 and 1, and 1 stands for the connections that
      were opened and since then neither closed nor found disconnected. */
  lemma {:induction false} StateMeans(events: seq<Event>, id: nat)
    requires PossibleRun(events)
    ensures var r := Exec(events);
      && r.table.Keys == r.state.Keys
      && (id in r.state ==> r.state[id] == 0 || r.state[id] == 1)
      && (id in r.state && r.state[id] == 1 <==> UpSince(events, id))
    decreases |events|
  {
    if events != [] {
      var before, e := events[..|events| - 1], events[|events| - 1];
      assert events == before + [e];
      StateMeans(before, id);
      UpSinceSnoc(before, e, id);
      RunConserved(before);
      StepConserved(Exec(before), e);
    }
  }
}
