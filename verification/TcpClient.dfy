/** The client side: one table entry for each connected socket. Its methods are events of the
    same account in `Sockets` as on the server side, but closing a socket that is not
    registered fails, after closing it. */
module TcpClient {
  import opened Values
  import opened TcpRead
  import opened Sockets

  /** An address that passes the checks: any string, and any port that is not negative, the
      one the server side refuses included. */
  predicate AddressOk(ip: Option<string>, port: Arg) {
    ip.Some? && port.Int? && port.i >= 0
  }

  /** On this side the connected socket is the one that was created. */
  predicate OneSocketEach(attempts: seq<Attempt>) {
    forall i :: 0 <= i < |attempts| && attempts[i].Made? ==> attempts[i].conn == attempts[i].sock
  }

  class ClientSockets {
    const isHostName: string -> bool    // whether Python takes a string for a host name
    var connList: map<nat, Sock>
    var connState: map<nat, int>
    ghost var created: set<Sock>
    ghost var closed: set<Sock>         // of those created, the ones `close` was called on
    ghost var escaped: set<Sock>
    ghost var history: seq<Event>       // what the calls so far have done

    ghost function View(): Registry
      reads this
    {
      Registry(map a | a in connList :: {connList[a]}, connState, created, closed, escaped)
    }

    ghost predicate Valid()
      reads this
    {
      && PossibleRun(history) && View() == Exec(history) && Conserved(View())
      && forall a :: a in connList ==> connList[a].id == a
    }

    /** A socket in the caller's hands: if its `id` is in the table, it is the one
        registered there. */
    predicate Held(handle: Option<Sock>)
      reads this
    {
      handle.Some? && handle.value.id in connList ==> connList[handle.value.id] == handle.value
    }

    function To(ip: Option<string>, port: Arg): Target
      requires AddressOk(ip, port)
    {
      Target(port.i, isHostName(ip.value))
    }

    constructor (isHostName: string -> bool)
      ensures Valid() && history == [] && View() == EMPTY && this.isHostName == isHostName
    {
      this.isHostName := isHostName;
      connList, connState := map[], map[];
      created, closed, escaped, history := {}, {}, {}, [];
      new;
      NoneLive();
      assert View().table == map[];
    }

    method Register(sock: Sock)
      modifies this`created, this`connList, this`connState
      ensures View() == Sockets.Register(old(View()), sock, sock)
      ensures connList == old(connList)[sock.id := sock]
    {
      created := created + {sock};
      connList := connList[sock.id := sock];
      connState := connState[sock.id := 1];
      assert {sock} == {sock, sock};
      assert View().table == old(View().table)[sock.id := {sock, sock}];
    }

    /** `client_socket_open`: tries until an attempt, the one numbered `last`, is not
        refused; an address that passes the checks is connected to exactly if its port is at
        most 65535 and its host is a host name. */
    method Open(ip: Option<string>, port: Arg, attempts: seq<Attempt>) returns (r: Result<Sock>, ghost last: nat)
      requires Valid() && OneSocketEach(attempts)
      requires AddressOk(ip, port) ==> Attemptable(View(), To(ip, port), attempts)
      modifies this
      ensures Valid()
      ensures !AddressOk(ip, port) ==> r == Err(if ip.Some? && port.Int? then ValueError else TypeError)
      ensures !AddressOk(ip, port) ==> View() == old(View()) && history == old(history)
      ensures AddressOk(ip, port) ==>
        && last < |attempts| && !attempts[last].Refused? && (forall i :: 0 <= i < last ==> attempts[i].Refused?)
        && history == old(history) + [Opened(To(ip, port), attempts, last)]
        && r == (if attempts[last].Made? then Ok(attempts[last].sock) else Err(Raised))
        && (r.Ok? <==> port.i <= 65535 && isHostName(ip.value))
      ensures r.Ok? ==> connList == old(connList)[r.value.id := r.value]
    {
      last := 0;
      if ip == None { return Err(TypeError), last; }
      if !port.Int? { return Err(TypeError), last; }
      if port.i < 0 { return Err(ValueError), last; }
      var k;
      k, created, closed := Retry(attempts, created, closed);
      last := k;
      ghost var e := Opened(To(ip, port), attempts, k);
      match attempts[k] {
        case Refused(_) => assert false;
        case Made(sock, _) =>
          Register(sock);
          r := Ok(sock);
        case Escaped(sock) =>
          created := created + {sock};
          escaped := escaped + {sock};
          r := Err(Raised);
      }
      Recorded(history, e, View());
      history := history + [e];
    }

    lemma SameKeys()
      requires Valid()
      ensures connList.Keys == connState.Keys
    {
      assert View().table.Keys == connList.Keys;
    }

    /** Deletes an entry from both tables. */
    method Forget(id: nat)
      modifies this`connList, this`connState
      ensures connList == old(connList) - {id}
      ensures var before := old(View());
        View() == before.(table := before.table - {id}, state := before.state - {id})
    {
      connState := connState - {id};
      connList := connList - {id};
      assert View().table == old(View().table) - {id};
    }

    /** `client_socket_close`: a socket that is not registered is closed all the same, and
        then the first `del` raises a `KeyError`. (Nobody holds a socket that escaped.) */
    method Close(handle: Option<Sock>) returns (r: Result<int>)
      requires Valid() && Held(handle) && (handle.Some? ==> handle.value !in escaped)
      modifies this
      ensures Valid() && escaped == old(escaped)
      ensures handle == None ==> r == Err(TypeError)
      ensures handle.Some? ==> r == if handle.value.id in old(connList) then Ok(0) else Err(Raised)
      ensures r.Err? ==> View() == old(View()) && history == old(history) && connList == old(connList)
      ensures r.Ok? ==>
        && history == old(history) + [Closing(handle.value.id)]
        && View() == Sockets.Remove(old(View()), handle.value.id)
        && connList == old(connList) - {handle.value.id}
      ensures handle.Some? && handle.value in created ==> handle.value in closed
    {
      if handle == None { return Err(TypeError); }
      var sock := handle.value;
      SameKeys();
      if sock.id in connList {
        assert View().table[sock.id] == {sock} && sock in Live(View().table);
      }
      closed := closed + {sock} * created;
      if sock.id !in connState {
        assert closed == old(closed);
        return Err(Raised);
      }
      assert closed == old(closed) + {sock};
      Forget(sock.id);
      Recorded(history, Closing(sock.id), View());
      history := history + [Closing(sock.id)];
      return Ok(0);
    }

    /** `clean_client_socket`: both tables are empty after it, and everything ever created is
        closed exactly if every port ever opened was at most 65535 and every host a host
        name. */
    method Clean()
      requires Valid()
      modifies this
      ensures Valid() && View() == Sockets.Clean(old(View()))
      ensures old(history) <= history && forall i :: |old(history)| <= i < |history| ==> history[i].Closing?
      ensures connList == map[] && connState == map[]
      ensures created == closed <==> AllUsable(old(history))
    {
      CleanClosesEverythingIff(history);
      var keys := connList.Keys;
      while keys != {}
        invariant Valid() && keys == connList.Keys && escaped == old(escaped)
        invariant old(history) <= history && forall i :: |old(history)| <= i < |history| ==> history[i].Closing?
        invariant Sockets.Clean(View()) == Sockets.Clean(old(View()))
        decreases keys
      {
        var id :| id in keys;
        LiveNotEscaped(id);
        RemoveThenClean(View(), id);
        var r := Close(Some(connList[id]));
        assert r == Ok(0);
        keys := keys - {id};
      }
      assert View().table == map[];
      NoneLive();
      SameKeys();
    }

    lemma LiveNotEscaped(id: nat)
      requires Valid() && id in connList
      ensures connList[id] !in escaped
    {
      assert View().table[id] == {connList[id]} && connList[id] in Live(View().table);
    }

    /** `client_socket_state`: 1 for a connection that was opened and since then neither
        closed nor found disconnected, 0 for every other socket. */
    method State(handle: Option<Sock>) returns (state: int)
      requires Valid() && Held(handle)
      ensures state == 0 || state == 1
      ensures state == 1 <==> handle.Some? && UpSince(history, handle.value.id)
    {
      if handle == None { return 0; }
      StateMeans(history, handle.value.id);
      if handle.value.id !in connList {
        assert handle.value.id !in View().table;
        return 0;
      }
      assert handle.value.id in View().table;
      return connState[handle.value.id];
    }

    /** `client_socket_read`: of the tables only the state of this connection changes, and
        only if the read takes it for lost; see `DisconnectedIff` for when that is right. */
    method ReadFrom(handle: Option<Sock>, length: Arg, timeout: Arg, wire: nat -> Wire)
      returns (r: Result<Read>, attempts: nat)
      requires Valid() && Held(handle)
      requires length != Int(0) && IsNumber(timeout) && Number(timeout) == FOREVER ==> exists k: nat :: !wire(k).Quiet?
      modifies this`connState, this`history
      ensures Valid()
      ensures var registered := handle.Some? && handle.value.id in connList;
        ReadOutcome(handle.Some?, registered, length, timeout, wire, r, attempts)
      ensures history == old(history) +
        (if r.Ok? && r.value.disconnected then [Disconnecting(handle.value.id)] else [])
    {
      hide CheckRead, Outcome;
      var registered := handle.Some? && handle.value.id in connList;
      r, attempts := CheckedRead(handle.Some?, registered, length, timeout, wire);
      if r.Ok? && r.value.disconnected {
        var id := handle.value.id;
        assert id in View().table;
        connState := connState[id := 0];
        assert View().table == old(View().table);
        Recorded(history, Disconnecting(id), View());
        history := history + [Disconnecting(id)];
      }
    }
  }

  /** A port over 65535 and a string that is no host name both pass the checks, and the
      socket is still open after a clean. */
  method UnusableAddressLeaks(isHostName: string -> bool, ip: string, port: nat, sock: Sock)
    returns (client: ClientSockets)
    requires port > 65535 || !isHostName(ip)
    ensures fresh(client) && client.Valid() && client.connList == map[]
    ensures client.created != client.closed
  {
    client := new ClientSockets(isHostName);
    var target := client.To(Some(ip), Int(port));
    var attempts := [Escaped(sock)];
    assert Opened(target, attempts, 0) == Escaping(target, {}, sock);
    assert !attempts[0].Refused?;
    var r, last := client.Open(Some(ip), Int(port), attempts);
    assert client.history[0] == Opened(target, attempts, 0);
    client.Clean();
  }
}
