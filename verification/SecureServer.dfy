/**
 * The TLS side of AsyncServer: one server session at a time, and a list of connections parked until it ends.
 * Control blocks are numbers, as in the session registry.
 */
module SecureServers {
  import opened Bytes
  import opened AsyncClients
  import opened NodeLists
  import opened ParkedLists
  import opened ServerModels
  import opened SslRegistries

  /** Who has a session of which kind. */
  function Kinds(sessions: map<nat, Session>): map<nat, Kind> {
    map t | t in sessions :: sessions[t].kind
  }

  lemma {:induction false} KindsMore(sessions: map<nat, Session>, pcb: nat, fd: nat, kind: Kind)
    ensures Kinds(sessions[pcb := Session(pcb, fd, kind)]) == Kinds(sessions)[pcb := kind]
  {
  }

  lemma {:induction false} KindsLess(sessions: map<nat, Session>, pcb: nat)
    ensures Kinds(sessions - {pcb}) == Kinds(sessions) - {pcb}
  {
  }

  class SecureServer {
    const registry: SslRegistry
    /** `_pending` */
    const pending: NodeList<Parked>
    /** Promoted connections with what their client was given to start with, in order. */
    var promoted: seq<Parked>

    ghost predicate Valid()
      reads this, registry, registry.list, registry.list.repr, pending, pending.repr
    {
      registry.Valid() && registry.Exclusive() && pending.Valid()
    }

    /** What the server has come to. */
    ghost function Now(): State
      reads this, registry, registry.list, pending
    {
      State(Kinds(registry.Sessions()), pending.values, promoted)
    }

    /** The connection has no session. */
    ghost predicate Fresh(pcb: nat)
      reads registry, registry.list
    {
      pcb != NULL && pcb !in registry.Sessions()
    }

    constructor ()
      ensures Valid() && Now() == START && !registry.hasClient
      ensures fresh(registry) && fresh(registry.list)
      ensures fresh(registry.list.repr) && fresh(pending) && fresh(pending.repr)
    {
      registry := new SslRegistry();
      pending := new NodeList();
      promoted := [];
    }

    /** The flag of the registry is right. */
    lemma {:induction false} FlagServes()
      requires Valid()
      ensures registry.hasClient <==> Serving(Now().open)
      ensures AtMostOne(Now().open)
    {
      registry.OneServer();
      assert forall t :: t in Now().open <==> t in registry.Sessions();
    }

    /** The constructor of AsyncClient on a server with a context: the connection gets the one server session. */
    method Open(pcb: nat)
      requires Valid() && !registry.hasClient && Fresh(pcb)
      modifies registry, registry.list, registry.list.repr
      ensures Valid() && fresh(registry.list.repr - old(registry.list.repr)) && registry.hasClient
      ensures Now() == old(Now()).(open := old(Now().open)[pcb := ServerSession])
    {
      var fd := registry.NewServer(pcb, true, true, true);
      KindsMore(old(registry.Sessions()), pcb, fd, ServerSession);
    }

    /** _accept on a server with a context; `heap` says whether there is memory to park the connection. */
    method Accept(pcb: nat, heap: bool, tcpCloses: bool) returns (code: Err)
      requires Valid() && Fresh(pcb)
      modifies registry, registry.list, registry.list.repr, pending, pending.repr
      ensures Valid() && fresh(registry.list.repr - old(registry.list.repr)) && fresh(pending.repr - old(pending.repr))
      ensures Now() == Connect(old(Now()), pcb, heap)
      ensures code == if old(registry.hasClient || pending.values != []) && !heap && !tcpCloses then Abrt else Ok
      // whoever comes to an idle server gets the session; others are put at the end of the line, if there is heap
      ensures if old(!registry.hasClient && pending.values == [])
              then registry.hasClient && Now() == old(Now()).(open := old(Now().open)[pcb := ServerSession])
              else Now() == if heap then old(Now()).(list := old(Now().list) + [Parked(pcb, None)]) else old(Now())
    {
      FlagServes();
      if registry.hasClient || pending.head != null {
        if !heap {
          return if tcpCloses then Ok else Abrt;
        }
        var _ := pending.Append(Parked(pcb, None));
      } else {
        Open(pcb);
      }
      code := Ok;
    }

    /** Takes a connection off the list. */
    method Unpark(pcb: nat) returns (p: Option<Parked>)
      requires Valid() && pending.head != null
      modifies pending, pending.repr
      ensures Valid() && pending.repr == old(pending.repr) && registry.list.repr == old(registry.list.repr)
      ensures Now() == old(Now()).(list := Without(old(Now().list), Pcb, pcb))
      ensures var i := IndexOf(old(Now().list), Pcb, pcb);
              p == if i < |old(Now().list)| then Some(old(Now().list)[i]) else None
      ensures unchanged(this) && unchanged(registry) && unchanged(registry.list)
    {
      p := pending.Remove(Pcb, pcb);
    }

    /** _poll on a parked connection: it gets its session once nobody else has one. */
    method Poll(pcb: nat)
      requires Valid() && Fresh(pcb)
      modifies this`promoted, registry, registry.list, registry.list.repr, pending, pending.repr
      ensures Valid() && pending.repr == old(pending.repr) && fresh(registry.list.repr - old(registry.list.repr))
      ensures Now() == Promote(old(Now()), pcb)
      // whoever is in line gets the session, if nobody has it
      ensures old(registry.hasClient || !IsIn(pending.values, pcb)) ==> Now() == old(Now())
      ensures old(!registry.hasClient && IsIn(pending.values, pcb)) ==>
                && registry.hasClient && Now().open == old(Now().open)[pcb := ServerSession]
                && Now().list == Without(old(Now().list), Pcb, pcb)
                && |promoted| == |old(promoted)| + 1 && promoted[|old(promoted)|].pcb == pcb
    {
      FlagServes();
      if !registry.hasClient && pending.head != null {
        ghost var nodes := registry.list.repr;
        var p := Unpark(pcb);
        if p.Some? {
          assert registry.list.repr == nodes;
          Begin(p.value);
        }
      }
    }

    /** A new AsyncClient for a connection that was parked, which receives what its entry holds. */
    method Begin(p: Parked)
      requires Valid() && !registry.hasClient && Fresh(p.pcb)
      modifies this`promoted, registry, registry.list, registry.list.repr
      ensures Valid() && fresh(registry.list.repr - old(registry.list.repr)) && unchanged(pending) && registry.hasClient
      ensures Now() == State(old(Now().open)[p.pcb := ServerSession], old(Now().list), old(promoted) + [p])
    {
      Open(p.pcb);
      promoted := promoted + [p];
    }

    /** _recv on a parked connection: keeps the bytes, or drops the connection at the end of its stream. */
    method Recv(pcb: nat, pb: Option<seq<byte>>, tcpCloses: bool) returns (code: Err)
      requires Valid()
      modifies pending, pending.repr
      ensures Valid() && pending.repr == old(pending.repr)
      ensures Now() == old(Now()).(list := if pb.Some? then WithMore(old(Now().list), pcb, pb.value)
                                           else Without(old(Now().list), Pcb, pcb))
      ensures code == if pb.None? && IsIn(old(Now().list), pcb) && !tcpCloses then Abrt else Ok
    {
      code := Ok;
      if pending.head == null {
        return;
      }
      if pb.None? {
        var p := Unpark(pcb);
        if p.Some? && !tcpCloses {
          code := Abrt;
        }
      } else {
        AddData(pcb, pb.value);
      }
    }

    /** pbuf_chain: more bytes behind those that the first entry of the connection already has. */
    method AddData(pcb: nat, data: seq<byte>)
      requires Valid()
      modifies pending, pending.repr
      ensures Valid() && pending.repr == old(pending.repr)
      ensures Now() == old(Now()).(list := WithMore(old(Now().list), pcb, data))
    {
      var n := pending.Find(Pcb, pcb);
      if n != null {
        pending.Update(n, IndexOf(pending.values, Pcb, pcb), Parked(pcb, Some(Data(n.value.pb) + data)));
      }
    }

    /** A session ends: AsyncClient::_close frees it. */
    method SessionEnds(pcb: nat)
      requires Valid() && pcb in registry.Sessions()
      modifies registry, registry.list, registry.list.repr
      ensures Valid() && registry.list.repr == old(registry.list.repr)
      ensures Now() == old(Now()).(open := old(Now().open) - {pcb})
    {
      assert registry.list.values != [];
      KindsLess(registry.Sessions(), pcb);
      var _ := registry.Free(pcb);
    }

    /** A client session begins: AsyncClient::_connected on an outgoing secure connection. */
    method ClientConnects(pcb: nat, context: bool, heap: bool, ssl: bool)
      requires Valid() && Fresh(pcb)
      modifies registry, registry.list, registry.list.repr
      ensures Valid() && fresh(registry.list.repr - old(registry.list.repr))
      ensures registry.hasClient == old(registry.hasClient)
      ensures Now() == if context && heap && ssl then old(Now()).(open := old(Now().open)[pcb := ClientSession])
                       else old(Now())
    {
      var fd := registry.NewClient(pcb, context, heap, ssl);
      if fd >= 0 {
        KindsMore(old(registry.Sessions()), pcb, fd, ClientSession);
      }
    }

    /** What lwIP guarantees when `e` happens: new connections and parked ones have no session. */
    ghost predicate Live(e: Event)
      reads registry, registry.list
    {
      match e
      case NewConnection(pcb, _, _) => Fresh(pcb)
      case Polled(pcb) => Fresh(pcb)
      case SessionOver(pcb) => pcb in registry.Sessions()
      case Outgoing(pcb, _, _, _) => Fresh(pcb)
      case _ => true
    }

    lemma {:induction false} LiveAt(events: seq<Event>, n: nat)
      requires n < |events| && Possible(events, n + 1) && Now() == StateAt(events, n)
      ensures Live(events[n])
    {
      assert PlausibleAt(events, n);
      AlwaysKept(events, n);
      assert Now().open.Keys == registry.Sessions().Keys;
    }

    /** Whatever happens. A reset of a parked connection does not reach the server. */
    method Handle(e: Event)
      requires Valid() && Live(e)
      modifies this, registry, registry.list, registry.list.repr, pending, pending.repr
      ensures Valid() && fresh(registry.list.repr - old(registry.list.repr)) && fresh(pending.repr - old(pending.repr))
      ensures Now() == After(old(Now()), e)
    {
      match e
      case NewConnection(pcb, heap, tcpCloses) => var _ := Accept(pcb, heap, tcpCloses);
      case Polled(pcb) => Poll(pcb);
      case Arrives(pcb, pb, tcpCloses) => var _ := Recv(pcb, pb, tcpCloses);
      case Resets(_) =>
      case SessionOver(pcb) => SessionEnds(pcb);
      case Outgoing(pcb, context, heap, ssl) => ClientConnects(pcb, context, heap, ssl);
    }
  }

  /** The events from the `i`-th on, up to the `n`-th. */
  method ServeOn(server: SecureServer, events: seq<Event>, i: nat, n: nat)
    requires i <= n <= |events| && Possible(events, n)
    requires server.Valid() && server.Now() == StateAt(events, i)
    modifies server, server.registry, server.registry.list, server.registry.list.repr
    modifies server.pending, server.pending.repr
    ensures server.Valid() && server.Now() == StateAt(events, n)
    decreases n - i
  {
    if i < n {
      server.LiveAt(events, i);
      server.Handle(events[i]);
      ServeOn(server, events, i + 1, n);
    }
  }

  /**
   * Serves the first `n` events, whatever lwIP does. The server comes to exactly what ServerModels says, as ServeOn
   * shows of its sessions and its list, and the flag says whether there is a server session. So there is at most one;
   * those who wait are parked and have no session; the list is exactly those who wait, each once, if and only if no
   * parked connection was reset; and then everything that has arrived is handed over or still kept, each byte for its
   * own connection, in order.
   */
  method Serve(events: seq<Event>, n: nat)
    returns (flag: bool, promoted: seq<Parked>, ghost end: State, ghost polls: seq<nat>)
    requires n <= |events| && Possible(events, n)
    ensures flag <==> Serving(StateAt(events, n).open)
    ensures promoted == StateAt(events, n).promoted
    ensures end == StateAt(events, n) && ListFits(events, n, end)
    ensures AllPromoted(events, n, polls, promoted)
    ensures forall k :: 0 <= k < n ==> Outcome(events, k)
  {
    var server := new SecureServer();
    ServeOn(server, events, 0, n);
    server.FlagServes();
    AlwaysFits(events, n);
    polls := AlwaysPromoted(events, n);
    forall k | 0 <= k < n
      ensures Outcome(events, k)
    {
      AlwaysTurned(events, k);
    }
    flag, promoted, end := server.registry.hasClient, server.promoted, server.Now();
  }
}
