/**
 The server's mutable state: each client socket carries its `isAlive` flag,
 and the server holds the set of connected sockets. The connection handler,
 the pong handler, the broadcast helper, the periodic broadcaster and the
 keepalive sweep are methods; each is proved to act on the sockets as the
 corresponding step of module ClientSpec.
 */
module Server {
  import opened Telemetry
  import opened ClientSpec

  /** A client socket. `log` records the calls the server makes on it. */
  class Socket {
    var isAlive: bool
    var readyState: ReadyState
    var log: seq<Action>

    function View(): ClientView
      reads this
    {
      ClientView(isAlive, readyState, log)
    }

    /** A socket the library has just accepted: open, nothing sent yet. */
    constructor Accepted()
      ensures readyState == Open && log == []
    {
      isAlive := false;
      readyState := Open;
      log := [];
    }

    /** The pong handler: the client answered, so it is alive. */
    method Heartbeat()
      modifies this
      ensures View() == old(View()).(isAlive := true)
    {
      isAlive := true;
    }

    /** Sends one message. */
    method Send(m: Message)
      modifies this
      ensures View() == old(View()).(log := old(log) + [Sent(m)])
    {
      log := log + [Sent(m)];
    }

    /** Sends a liveness probe. */
    method Ping()
      modifies this
      ensures View() == old(View()).(log := old(log) + [Pinged])
    {
      log := log + [Pinged];
    }

    /** Hard close: the socket goes to closing at once, unless it is already closed. */
    method Terminate()
      modifies this
      ensures View() == old(View()).(readyState := AfterTerminate(old(readyState)),
                                     log := old(log) + [Terminated])
    {
      readyState := AfterTerminate(readyState);
      log := log + [Terminated];
    }

    /** The broadcast callback for this client: send only if the socket is open. */
    method SendIfOpen(m: Message)
      modifies this
      ensures View() == Offer(old(View()), m)
    {
      if readyState == Open {
        Send(m);
      }
    }

    /** The keepalive callback for this client: terminate it if not heard from, else flag and ping it. */
    method KeepaliveCheck()
      modifies this
      ensures View() == SweepOne(old(View()))
    {
      if !isAlive {
        Terminate();
        return;
      }
      isAlive := false;
      Ping();
    }
  }

  /** The views of a sequence of sockets, in order. */
  function ViewsOf(cs: seq<Socket>): (vs: seq<ClientView>)
    reads set c | c in cs
    ensures |vs| == |cs|
    ensures forall i :: 0 <= i < |cs| ==> vs[i] == cs[i].View()
  {
    if cs == [] then [] else [cs[0].View()] + ViewsOf(cs[1..])
  }

  /** Sockets whose views agree one by one with `expected` have `expected` as their views. */
  lemma ViewsAgree(cs: seq<Socket>, expected: seq<ClientView>)
    requires |cs| == |expected|
    requires forall k :: 0 <= k < |cs| ==> cs[k].View() == expected[k]
    ensures ViewsOf(cs) == expected
  {
  }

  /** The WebSocket server: the interval it announces and its connected clients. */
  class Hub {
    const intervalMs: int
    var clients: seq<Socket>

    /** The client collection is a set: no socket appears twice. */
    ghost predicate Valid()
      reads this
    {
      forall i, j :: 0 <= i < j < |clients| ==> clients[i] != clients[j]
    }

    function Views(): seq<ClientView>
      reads this, set c | c in clients
    {
      ViewsOf(clients)
    }

    constructor (intervalMs: int)
      ensures Valid() && this.intervalMs == intervalMs && clients == []
    {
      this.intervalMs := intervalMs;
      clients := [];
    }

    /** The connection handler: a new client is marked alive and greeted. */
    method Connect() returns (ws: Socket)
      requires Valid()
      modifies this
      ensures Valid() && fresh(ws)
      ensures clients == old(clients) + [ws]
      ensures Views() == StepHub(old(Views()), Event.Connect(intervalMs))
    {
      ghost var before := Views();
      ws := new Socket.Accepted();
      ws.isAlive := true;
      ws.Send(Hello(intervalMs));
      assert forall k :: 0 <= k < |clients| ==> clients[k].View() == before[k];
      clients := clients + [ws];
      assert forall k :: 0 <= k < |clients| ==> Views()[k] == (before + [Connected(intervalMs)])[k];
    }

    /** A pong from `ws` raises its flag only. */
    method Pong(ws: Socket)
      requires Valid()
      modifies ws
      ensures forall i | 0 <= i < |clients| && clients[i] == ws :: Views() == StepHub(old(Views()), Event.Pong(i))
      ensures ws !in clients ==> Views() == old(Views())
    {
      ws.Heartbeat();
    }

    /** Sends `m` to every open client and skips every other one. */
    method Broadcast(m: Message)
      requires Valid()
      modifies set c | c in clients
      ensures Views() == StepHub(old(Views()), Event.Broadcast(m))
    {
      ghost var before := Views();
      var i := 0;
      while i < |clients|
        invariant 0 <= i <= |clients|
        invariant forall k :: 0 <= k < i ==> clients[k].View() == Offer(before[k], m)
        invariant forall k :: i <= k < |clients| ==> clients[k].View() == before[k]
      {
        var ws := clients[i];
        assert forall k :: 0 <= k < |clients| && k != i ==> clients[k] != ws;
        ws.SendIfOpen(m);
        i := i + 1;
      }
      ViewsAgree(clients, BroadcastAll(before, m));
    }

    /** The periodic broadcaster: one reading of the drawn channel to every open client. */
    method EmitReading(keyName: string, value: real, now: int)
      requires Valid()
      requires keyName in KeyNames
      modifies set c | c in clients
      ensures Views() == StepHub(old(Views()), Event.Broadcast(Data(MockReading(keyName, value, now))))
      ensures WellFormed(MockReading(keyName, value, now))
    {
      Broadcast(Data(MockReading(keyName, value, now)));
    }

    /** The keepalive sweep: terminate every client not heard from, ping every other one. */
    method Sweep()
      requires Valid()
      modifies set c | c in clients
      ensures Views() == StepHub(old(Views()), Event.Sweep)
    {
      ghost var before := Views();
      var i := 0;
      while i < |clients|
        invariant 0 <= i <= |clients|
        invariant forall k :: 0 <= k < i ==> clients[k].View() == SweepOne(before[k])
        invariant forall k :: i <= k < |clients| ==> clients[k].View() == before[k]
      {
        var ws := clients[i];
        assert forall k :: 0 <= k < |clients| && k != i ==> clients[k] != ws;
        ws.KeepaliveCheck();
        i := i + 1;
      }
      ViewsAgree(clients, SweepAll(before));
    }
  }
}
