/** The server side: tables of accepted connections, each with the listening socket that
    accepted it. Every method is an event of the account in `Sockets`. */
module TcpServer {
  import opened Values
  import opened TcpRead
  import opened Sockets

  datatype Pair = Pair(client: Sock, server: Sock)

  const DR_TP_SERVER_PORT := 12345

  predicate PortOk(port: Arg) {
    port.Int? && port.i >= 0 && port.i != 12345
  }

  class ServerSockets {
    var connList: map<nat, Pair>
    var connState: map<nat, int>
    ghost var created: set<Sock>
    ghost var closed: set<Sock>         // of those created, the ones `close` was called on
    ghost var escaped: set<Sock>
    ghost var history: seq<Event>       // what the calls so far have done

    ghost function View(): Registry
      reads this
    {
      Registry(map a | a in connList :: {connList[a].server, connList[a].client}, connState, created, closed, escaped)
    }

    ghost predicate Valid()
      reads this
    {
      && PossibleRun(history) && View() == Exec(history) && Conserved(View())
      && forall a :: a in connList ==> connList[a].client.id == a
    }

    /** A socket in the caller's hands: if its `id` is in the table, it is the one
        registered there. */
    predicate Held(handle: Option<Sock>)
      reads this
    {
      handle.Some? && handle.value.id in connList ==> connList[handle.value.id].client == handle.value
    }

    constructor ()
      ensures Valid() && history == [] && View() == EMPTY
    {
      connList, connState := map[], map[];
      created, closed, escaped, history := {}, {}, {}, [];
      new;
      NoneLive();
      assert View().table == map[];
    }

    method Register(server: Sock, client: Sock)
      modifies this`created, this`connList, this`connState
      ensures View() == Sockets.Register(old(View()), server, client)
      ensures connList == old(connList)[client.id := Pair(client, server)]
    {
      created := created + {server, client};
      connList := connList[client.id := Pair(client, server)];
      connState := connState[client.id := 1];
      assert View().table == old(View().table)[client.id := {server, client}];
    }

    /** `server_socket_open`: tries until an attempt, the one numbered `last`, is not
        refused; a port that passes the check is opened exactly if it is at most 65535. */
    method Open(port: Arg, attempts: seq<Attempt>) returns (r: Result<Sock>, ghost last: nat)
      requires Valid() && (PortOk(port) ==> Attemptable(View(), Target(port.i, true), attempts))
      modifies this
      ensures Valid()
      ensures !PortOk(port) ==> r == Err(if port.Int? then ValueError else TypeError)
      ensures !PortOk(port) ==> View() == old(View()) && history == old(history)
      ensures PortOk(port) ==>
        && last < |attempts| && !attempts[last].Refused? && (forall i :: 0 <= i < last ==> attempts[i].Refused?)
        && history == old(history) + [Opened(Target(port.i, true), attempts, last)]
        && r == (if attempts[last].Made? then Ok(attempts[last].conn) else Err(Raised))
        && (r.Ok? <==> port.i <= 65535)
      ensures r.Ok? ==> connList == old(connList)[r.value.id := Pair(r.value, attempts[last].sock)]
    {
      last := 0;
      if !port.Int? { return Err(TypeError), last; }
      if port.i < 0 || port.i == DR_TP_SERVER_PORT { return Err(ValueError), last; }
      var k;
      k, created, closed := Retry(attempts, created, closed);
      last := k;
      ghost var e := Opened(Target(port.i, true), attempts, k);
      match attempts[k] {
        case Refused(_) => assert false;
        case Made(server, client) =>
          Register(server, client);
          r := Ok(client);
        case Escaped(server) =>
          created := created + {server};
          escaped := escaped + {server};
          r := Err(Raised);
      }
      Recorded(history, e, View());
      history := history + [e];
    }

    /** Closes both sockets of an entry and deletes it from both tables. */
    method Remove(id: nat)
      requires id in connList
      modifies this`closed, this`connList, this`connState
      ensures View() == Sockets.Remove(old(View()), id)
      ensures connList == old(connList) - {id} && connState == old(connState) - {id}
    {
      var pair := connList[id];
      closed := closed + {pair.client};
      closed := closed + {pair.server};
      connState := connState - {id};
      connList := connList - {id};
      assert View().table == old(View().table) - {id};
    }

    lemma SameKeys()
      requires Valid()
      ensures connList.Keys == connState.Keys
    {
      assert View().table.Keys == connList.Keys;
    }

    /** `server_socket_close`; `handle` is absent if the argument is not a socket. */
    method Close(handle: Option<Sock>) returns (r: Result<int>)
      requires Valid() && Held(handle)
      modifies this
      ensures Valid()
      ensures handle == None ==> r == Err(TypeError)
      ensures handle.Some? ==> r == Ok(if handle.value.id in old(connList) then 0 else -1)
      ensures r != Ok(0) ==> View() == old(View()) && history == old(history)
      ensures r == Ok(0) ==>
        && history == old(history) + [Closing(handle.value.id)]
        && connList == old(connList) - {handle.value.id}
        && {handle.value, old(connList)[handle.value.id].server} <= closed
    {
      if handle == None { return Err(TypeError); }
      var id := handle.value.id;
      if id !in connList { return Ok(-1); }
      Remove(id);
      Recorded(history, Closing(id), View());
      history := history + [Closing(id)];
      return Ok(0);
    }

    /** `clean_server_socket`: both tables are empty after it, and everything ever created
        is closed exactly if every port ever opened was at most 65535. */
    method Clean()
      requires Valid()
      modifies this
      ensures Valid() && history == old(history) + [Cleaning]
      ensures connList == map[] && connState == map[]
      ensures created == closed <==> AllUsable(old(history))
    {
      hide Conserved, PossibleRun, Live, AllUsable;
      SameKeys();
      CleanClosesEverythingIff(history);
      var keys := connList.Keys;
      while keys != {}
        invariant keys == connList.Keys == connState.Keys
        invariant Sockets.Clean(View()) == Sockets.Clean(old(View()))
        invariant history == old(history)
        decreases keys
      {
        var id :| id in keys;
        RemoveThenClean(View(), id);
        Remove(id);
        keys := keys - {id};
      }
      assert View().table == map[];
      NoneLive();
      assert connState.Keys == {};
      Recorded(history, Cleaning, View());
      history := history + [Cleaning];
    }

    /** `server_socket_state`: 1 for a connection that was opened and since then neither
        closed nor found disconnected, 0 for every other socket. */
    method State(handle: Option<Sock>) returns (state: int)
      requires Valid() && Held(handle)
      ensures state == 0 || state == 1
      ensures state == 1 <==> handle.Some? && UpSince(history, handle.value.id)
    {
      if handle == None { return 0; }
      StateMeans(history, handle.value.id);
      if handle.value.id !in connList {
        assert handle.value.id !in View().table;
        return 0;
      }
      assert handle.value.id in View().table;
      return connState[handle.value.id];
    }

    /** `server_socket_read`: of the tables only the state of this connection changes, and
        only if the read takes it for lost; see `DisconnectedIff` for when that is right. */
    method ReadFrom(handle: Option<Sock>, length: Arg, timeout: Arg, wire: nat -> Wire)
      returns (r: Result<Read>, attempts: nat)
      requires Valid() && Held(handle)
      requires length != Int(0) && IsNumber(timeout) && Number(timeout) == FOREVER ==> exists k: nat :: !wire(k).Quiet?
      modifies this`connState, this`history
      ensures Valid()
      ensures var registered := handle.Some? && handle.value.id in connList;
        ReadOutcome(handle.Some?, registered, length, timeout, wire, r, attempts)
      ensures history == old(history) +
        (if r.Ok? && r.value.disconnected then [Disconnecting(handle.value.id)] else [])
    {
      hide CheckRead, Outcome;
      var registered := handle.Some? && handle.value.id in connList;
      r, attempts := CheckedRead(handle.Some?, registered, length, timeout, wire);
      if r.Ok? && r.value.disconnected {
        var id := handle.value.id;
        assert id in View().table;
        connState := connState[id := 0];
        assert View().table == old(View().table);
        Recorded(history, Disconnecting(id), View());
        history := history + [Disconnecting(id)];
      }
    }
  }

  /** Every port over 65535 passes the check, and its socket is still open after a clean. */
  method PortTooBigLeaks(port: nat, sock: Sock) returns (server: ServerSockets)
    requires port > 65535
    ensures fresh(server) && server.Valid() && server.connList == map[]
    ensures server.created != server.closed
  {
    server := new ServerSockets();
    var attempts := [Escaped(sock)];
    assert Opened(Target(port, true), attempts, 0) == Escaping(Target(port, true), {}, sock);
    assert !attempts[0].Refused?;
    var r, last := server.Open(Int(port), attempts);
    assert server.history[0] == Opened(Target(port, true), attempts, 0);
    server.Clean();
  }
}
