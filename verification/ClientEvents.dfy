/** One connection of an AsyncClient as lwIP and the application drive it: callbacks, closing, aborting, deleting. */
module ClientEvents {
  import opened Bytes
  import opened AsyncClients

  datatype ErrorEvent = EeOk | EeAborted | EeErrorCb | EeConnectedCb | EeRecvCb

  /** Remembers, beyond the life of the client, what the running lwIP callback has to return. */
  class ACErrorTracker {
    var hasClient: bool
    var closeError: Err
    var errored: ErrorEvent

    constructor ()
      ensures hasClient && closeError == Ok && errored == EeOk
    {
      hasClient, closeError, errored := true, Ok, EeOk;
    }

    method SetCloseError(e: Err)
      modifies this`closeError
      ensures closeError == if errored == EeOk then e else old(closeError)
    {
      if errored == EeOk {
        closeError := e;
      }
    }

    method SetErrored(e: ErrorEvent)
      modifies this`errored
      ensures errored == if old(errored) == EeOk then e else old(errored)
    {
      if errored == EeOk {
        errored := e;
      }
    }

    /** ERR_ABRT is returned at most once. */
    method GetCallbackCloseError() returns (e: Err)
      modifies this`errored
      ensures e == if old(errored) == EeOk then closeError else Ok
      ensures errored == if old(errored) == EeOk && closeError == Abrt then EeAborted else old(errored)
    {
      if errored != EeOk {
        return Ok;
      }
      if closeError == Abrt {
        SetErrored(EeAborted);
      }
      e := closeError;
    }

    method ClearClient()
      modifies this`hasClient
      ensures !hasClient
    {
      hasClient := false;
    }
  }

  datatype Owner = Lwip | App | Freed

  /** One buffer of a received packet. */
  class Pbuf {
    const payload: seq<byte>
    var next: Pbuf?
    var owner: Owner

    constructor (payload: seq<byte>, next: Pbuf?)
      ensures this.payload == payload && this.next == next && owner == Lwip
    {
      this.payload, this.next, owner := payload, next, Lwip;
    }

    /** pbuf_free: only what lwIP still owns, and only this one buffer. */
    method Free()
      requires owner == Lwip && next == null
      modifies this`owner
      ensures owner == Freed
    {
      owner := Freed;
    }
  }

  /** `chain` lists distinct buffers, and from its `k`-th on they are what `first` reaches, all owned by lwIP. */
  ghost predicate IsChain(first: Pbuf?, chain: seq<Pbuf>, k: nat)
    reads chain
  {
    && k <= |chain| && first == (if k == |chain| then null else chain[k])
    && (forall i :: k <= i < |chain| ==> chain[i].owner == Lwip)
    && (forall i :: k <= i < |chain| - 1 ==> chain[i].next == chain[i + 1])
    && (k < |chain| ==> chain[|chain| - 1].next == null)
    && (forall i, j :: 0 <= i < j < |chain| ==> chain[i] != chain[j])
  }

  /** lwIP does not own the first `k` buffers any more. */
  ghost predicate NotLwips(chain: seq<Pbuf>, k: nat)
    requires k <= |chain|
    reads chain
  {
    forall i :: 0 <= i < k ==> chain[i].owner != Lwip
  }

  /** What the first `n` buffers hold. */
  function Payloads(chain: seq<Pbuf>, n: nat): seq<seq<byte>>
    requires n <= |chain|
  {
    seq(n, i requires 0 <= i < n => chain[i].payload)
  }

  /** How many bytes the buffers from the `k`-th on hold. */
  function Remaining(chain: seq<Pbuf>, k: nat): nat
    requires k <= |chain|
    decreases |chain| - k
  {
    if k == |chain| then 0 else |chain[k].payload| + Remaining(chain, k + 1)
  }

  lemma {:induction false} PayloadsSnoc(before: seq<seq<byte>>, chain: seq<Pbuf>, k: nat)
    requires k < |chain|
    ensures before + Payloads(chain, k) + [chain[k].payload] == before + Payloads(chain, k + 1)
  {
    assert Payloads(chain, k) + [chain[k].payload] == Payloads(chain, k + 1);
  }

  lemma {:induction false} PayloadsPrefix(chain: seq<Pbuf>, payloads: seq<seq<byte>>, n: nat)
    requires n <= |chain| && Payloads(chain, |chain|) == payloads
    ensures n <= |payloads| && Payloads(chain, n) == payloads[..n] && (n == |chain| ==> payloads[..n] == payloads)
  {
    assert |Payloads(chain, |chain|)| == |chain|;
    forall i | 0 <= i < n
      ensures Payloads(chain, n)[i] == payloads[i]
    {
      assert payloads[i] == Payloads(chain, |chain|)[i];
    }
  }

  /** Calls into the application. */
  datatype Event =
    | OnConnect
    | OnDisconnect(inDestructor: bool)
    | OnAck(len: u32)
    | OnError(err: Err)
    | OnData(payload: seq<byte>, packet: bool)
    | OnTimeout
    | OnPoll

  /** `e` is the first event since `before`. */
  predicate Grew(before: seq<Event>, e: Event, after: seq<Event>) {
    |before| < |after| && before <= after && after[|before|] == e
  }

  /** What a number of events comes to. */
  datatype Totals = Totals(
    acked: nat,                    // lengths reported to the ack callback
    offered: seq<seq<byte>>,       // payloads given to the data and packet callbacks
    bytes: nat,                    // how long they are
    handed: nat,                   // how long those given to the packet callback are
    disconnects: nat
  ) {
    function Add(e: Event): Totals {
      match e
      case OnAck(len) => this.(acked := acked + len)
      case OnData(payload, packet) =>
        this.(offered := offered + [payload], bytes := bytes + |payload|,
              handed := handed + if packet then |payload| else 0)
      case OnDisconnect(_) => this.(disconnects := disconnects + 1)
      case _ => this
    }
  }

  function Summary(log: seq<Event>): Totals {
    if log == [] then Totals(0, [], 0, 0, 0) else Summary(log[..|log| - 1]).Add(log[|log| - 1])
  }

  lemma {:induction false} SummarySnoc(log: seq<Event>, e: Event)
    ensures Summary(log + [e]) == Summary(log).Add(e)
  {
    assert (log + [e])[..|log|] == log;
  }

  /** The disconnects that are counted are those in the log. */
  lemma {:induction false} SummaryCounts(log: seq<Event>)
    ensures Summary(log).disconnects == multiset(log)[OnDisconnect(true)] + multiset(log)[OnDisconnect(false)]
  {
    if log != [] {
      var n := |log| - 1;
      SummaryCounts(log[..n]);
      assert log == log[..n] + [log[n]];
      assert multiset(log) == multiset(log[..n]) + multiset([log[n]]);
    }
  }

  function AckLength(e: Event): nat {
    if e.OnAck? then e.len else 0
  }

  /** Calls by the application. */
  datatype Call =
    | Write(data: seq<byte>)
    | Add(data: seq<byte>)
    | Send
    | Ack(len: nat)
    | AckLater
    | Close(now: bool)
    | Abort
    | OnPacket(install: bool)
    | Delete

  /** The application: what it does in each callback, as a function of all callbacks so far. */
  type Program = seq<Event> -> seq<Call>

  /** The error callback does not delete the client, and a client under destruction is not deleted again. */
  ghost predicate Sane(app: Program) {
    forall h :: SaneAt(app, h)
  }

  predicate SaneAt(app: Program, h: seq<Event>) {
    h != [] && (h[|h| - 1].OnError? || h[|h| - 1] == OnDisconnect(true)) ==> Delete !in app(h)
  }

  ghost predicate NoClose(calls: seq<Call>) {
    forall b :: Close(b) !in calls
  }

  /** No callback calls close(). */
  ghost predicate NeverCloses(app: Program) {
    forall h :: NeverClosesAt(app, h)
  }

  ghost predicate NeverClosesAt(app: Program, h: seq<Event>) {
    NoClose(app(h))
  }

  /** No disconnect callback deletes the client. */
  ghost predicate KeepsClient(app: Program) {
    forall h :: KeepsClientAt(app, h)
  }

  predicate KeepsClientAt(app: Program, h: seq<Event>) {
    h != [] && h[|h| - 1].OnDisconnect? ==> Delete !in app(h)
  }

  /** Every disconnect callback deletes the client. */
  ghost predicate DropsClient(app: Program) {
    forall h :: DropsClientAt(app, h)
  }

  predicate DropsClientAt(app: Program, h: seq<Event>) {
    h != [] && h[|h| - 1] == OnDisconnect(false) ==> Delete in app(h)
  }

  /** The calls leave the control block to the client. */
  predicate Harmless(calls: seq<Call>) {
    Abort !in calls && Close(true) !in calls
  }

  /** No data or packet callback aborts or closes at once. */
  ghost predicate KeepsPcb(app: Program) {
    forall h :: KeepsPcbAt(app, h)
  }

  predicate KeepsPcbAt(app: Program, h: seq<Event>) {
    h != [] && h[|h| - 1].OnData? ==> Harmless(app(h))
  }

  /** What the application promises, it promises of every callback. */
  lemma {:induction false} Promised(app: Program, h: seq<Event>)
    ensures Sane(app) ==> SaneAt(app, h)
    ensures NeverCloses(app) ==> NoClose(app(h))
    ensures KeepsClient(app) ==> KeepsClientAt(app, h)
    ensures DropsClient(app) ==> DropsClientAt(app, h)
    ensures KeepsPcb(app) ==> KeepsPcbAt(app, h)
  {
    assert NeverCloses(app) ==> NeverClosesAt(app, h);
  }

  class Connection {
    const app: Program
    /** tcp_abort calls the error callback, if it is armed. */
    const abortReports: bool
    const pcb: TcpPcb
    const tracker: ACErrorTracker
    /** NULL once the application has deleted it. */
    var client: AsyncClient?
    /** connect() has been called and lwIP has not answered yet. */
    var connecting: bool
    /** What tcp_close will answer. */
    var tcpClose: Err
    var now: u32
    var log: seq<Event>
    /** What the events of `log` come to. */
    var totals: Totals
    /** How often abort() has gone on with a client that was deleted inside it. */
    var dangling: nat

    /** The client still has its control block. */
    ghost predicate Held()
      reads this, client
    {
      client != null && client.pcb != null
    }

    /** lwIP may call back. */
    predicate Callable()
      reads pcb
    {
      pcb.live && pcb.armed
    }

    ghost predicate Valid()
      reads this, tracker, client, pcb
    {
      && Sane(app)
      && tracker.hasClient == (client != null)
      && (client != null && client.pcb != null ==> client.pcb == pcb && Callable() && !connecting)
      // lwIP never calls into a client that is gone, nor after an error
      && (Callable() ==> client != null && (client.pcb == pcb || connecting) && tracker.errored == EeOk)
      && (connecting ==> client != null && client.pcb == null && Callable() && Pristine())
      // aborting
      && pcb.aborts <= 1 && (pcb.aborts == 1 ==> !pcb.live)
      && (tracker.errored == EeOk ==> tracker.closeError == if pcb.aborts == 1 then Abrt else Ok)
      // disconnecting
      && totals.disconnects <= 1 && (totals.disconnects == 1 ==> !Callable())
      && totals == Summary(log)
      // memory
      && (dangling > 0 ==> abortReports && !KeepsClient(app)) && (KeepsPcb(app) ==> pcb.strays == 0)
      // counters
      && (client != null ==> client.TxAccounted() && client.RxAccounted())
    }

    /** No byte has moved yet. */
    ghost predicate Pristine()
      requires client != null
      reads this, client, pcb
    {
      && pcb.written == [] && pcb.acked == pcb.received == pcb.recved == pcb.pending == 0
      && client.txUnacked == client.txAcked == client.txUnsent == client.rxAckLen == 0
      && client.lost == client.reported == client.handedOver == client.over == 0
    }

    /**
     * Between callbacks the counters agree with what the callbacks were told: all acknowledged bytes that were
     * reported, all bytes that were received, and those of them that went to the packet callback.
     */
    ghost predicate Settled()
      reads this, client, pcb
    {
      client != null ==>
        && client.reported == totals.acked && client.handedOver == totals.handed
        && pcb.received == totals.bytes + pcb.pending
    }

    /** All bytes that lwIP has delivered have been shown to a callback. */
    ghost predicate Shown()
      reads this, client, pcb
    {
      Held() ==> pcb.pending == 0
    }

    /** close() has opened no part of the window twice meanwhile. */
    twostate predicate KeptOver()
      reads this, client
    {
      client != null && client == old(client) ==> client.over == old(client.over)
    }

    /** tcp_abort was called while the error callback was armed, and lwIP has called that. */
    predicate Reported()
      reads this, pcb
    {
      abortReports && pcb.armed
    }

    /** What a callback leaves alone. */
    twostate predicate CallbackFrame()
      reads this, tracker, client, pcb
    {
      && connecting == old(connecting) && tcpClose == old(tcpClose) && now == old(now)
      && tracker.errored == (if pcb.aborts > old(pcb.aborts) && Reported() then EeErrorCb else old(tracker.errored))
      && (client == null || client == old(client))
      && (Held() ==> old(Held())) && (pcb.armed ==> old(pcb.armed))
      && pcb.aborts >= old(pcb.aborts) && (pcb.live ==> old(pcb.live)) && pcb.recved >= old(pcb.recved)
      && old(log) <= log && totals.(acked := 0, disconnects := 0) == old(totals).(acked := 0, disconnects := 0)
      && pcb.received == old(pcb.received) && pcb.pending == old(pcb.pending) && pcb.strays == old(pcb.strays)
      && (old(pcb.Clean()) ==> pcb.Clean())
      && (old(pcb.aborts) == 1 || pcb.live ==> pcb.armed == old(pcb.armed))
      && (client != null ==>
            && client.txAcked == old(client.txAcked) && client.rxLastPacket == old(client.rxLastPacket)
            && client.reported == old(client.reported) && client.handedOver == old(client.handedOver))
    }

    /** Without a control block there is nothing to abort, close or disconnect; `acked` bytes were reported. */
    twostate predicate ScriptFrame(acked: nat)
      reads this, tracker, client, pcb
    {
      && CallbackFrame() && totals.acked == old(totals.acked) + acked
      && (!old(Held()) ==>
            unchanged(pcb) && totals.disconnects == old(totals.disconnects) && dangling == old(dangling))
    }

    /** What every callback of lwIP leaves alone. */
    twostate predicate LwipFrame()
      reads this, client, pcb
    {
      EventFrame() && pcb.pending == old(pcb.pending) && pcb.strays == old(pcb.strays)
    }

    twostate predicate EventFrame()
      reads this, client, pcb
    {
      && (client == null || client == old(client)) && pcb.received == old(pcb.received)
      && pcb.strays >= old(pcb.strays) && pcb.recved >= old(pcb.recved)
      && pcb.aborts >= old(pcb.aborts) && (old(pcb.Clean()) ==> pcb.Clean())
      && (old(pcb.aborts) == 1 ==> pcb.armed == old(pcb.armed))
      && (NeverCloses(app) ==> KeptOver())
    }

    ghost function Rank(): nat
      reads this, client
    {
      if Held() then 1 else 0
    }

    /** A connection that a server has accepted. */
    constructor Accepted(app: Program, pcb: TcpPcb, now: u32, abortReports: bool)
      requires Sane(app) && pcb.live && pcb.armed && pcb.written == [] && pcb.acked == pcb.received == pcb.recved == 0
      requires pcb.aborts == pcb.strays == pcb.pending == 0
      ensures Valid() && Settled() && Held() && fresh(client) && fresh(tracker) && this.app == app && this.pcb == pcb
      ensures !connecting && log == [] && client.over == 0 && !client.packetCb
      ensures dangling == 0 && this.abortReports == abortReports
    {
      this.app, this.pcb, this.now, this.abortReports, dangling := app, pcb, now, abortReports, 0;
      tracker := new ACErrorTracker();
      client := new AsyncClient(pcb, now);
      connecting, tcpClose, log, totals := false, Ok, [], Summary([]);
    }

    /** A client that has called connect(): only the error callback is armed, and `_pcb` is still NULL. */
    constructor Connecting(app: Program, pcb: TcpPcb, now: u32, abortReports: bool)
      requires Sane(app) && pcb.live && pcb.armed && pcb.written == [] && pcb.acked == pcb.received == pcb.recved == 0
      requires pcb.aborts == pcb.strays == pcb.pending == 0
      ensures Valid() && Settled() && client != null && fresh(client)
      ensures fresh(tracker) && this.app == app && this.pcb == pcb
      ensures connecting && log == [] && client.over == 0 && !client.packetCb
      ensures dangling == 0 && this.abortReports == abortReports
    {
      this.app, this.pcb, this.now, this.abortReports, dangling := app, pcb, now, abortReports, 0;
      tracker := new ACErrorTracker();
      client := new AsyncClient(null, now);
      connecting, tcpClose, log, totals := true, Ok, [], Summary([]);
    }

    // ---- Into the application --------------------------------------------------------------

    /** Notes an event. */
    method Note(e: Event)
      modifies this`log, this`totals
      ensures log == old(log) + [e] && totals == old(totals).Add(e)
      ensures old(totals == Summary(log)) ==> totals == Summary(log)
    {
      SummarySnoc(log, e);
      log, totals := log + [e], totals.Add(e);
    }

    /** Runs a callback. */
    method Fire(e: Event)
      requires Valid() && client != null && !connecting && !e.OnDisconnect? && !e.OnData? && (e.OnError? ==> !Held())
      modifies this, tracker, client, pcb
      ensures Valid() && ScriptFrame(AckLength(e)) && Grew(old(log), e, log) && (NeverCloses(app) ==> KeptOver())
      ensures (e.OnError? ==> client == old(client)) && Obeyed(app(old(log) + [e]))
      // a callback that does nothing
      ensures app(old(log) + [e]) == [] ==>
                client == old(client) && unchanged(client) && unchanged(pcb) && unchanged(tracker)
      decreases Rank(), 3, 1
    {
      Note(e);
      Promised(app, log);
      RunFrom(e, old(log));
    }

    /** The calls of a callback that has just been noted. */
    method RunFrom(e: Event, ghost before: seq<Event>)
      requires Valid() && client != null && !connecting && log == before + [e]
      requires NeverCloses(app) ==> NoClose(app(log))
      requires e.OnError? ==> Delete !in app(log) && !Held()
      modifies this, tracker, client, pcb
      ensures Valid() && ScriptFrame(0) && Grew(before, e, log) && (NeverCloses(app) ==> KeptOver())
      ensures (e.OnError? ==> client == old(client)) && Obeyed(app(before + [e]))
      ensures app(before + [e]) == [] ==>
                client == old(client) && unchanged(client) && unchanged(pcb) && unchanged(tracker) && unchanged(this)
      ensures forall c {:trigger Effect(c)} :: app(before + [e]) == [c] ==> Effect(c)
      ensures old(Held()) && client != null && Harmless(app(before + [e])) ==> Held()
      ensures app(before + [e]) == [Abort] && old(Held()) && !abortReports ==>
                client == old(client) && client.ackPcb == old(client.ackPcb)
      decreases Rank(), 3, 0
    {
      Run(app(log));
    }

    /** The calls were made: a client that was to be deleted is gone, and none holds what was aborted or closed. */
    ghost predicate Obeyed(calls: seq<Call>)
      reads this, client
    {
      (Delete in calls ==> client == null) && (Abort in calls || Close(true) in calls ==> !Held())
    }

    /** The disconnect callback: only when the control block is gone. */
    method FireDisconnect(inDestructor: bool)
      requires Valid() && client != null && !connecting && !Callable() && totals.disconnects == 0 && !Held()
      modifies this, tracker, client, pcb
      ensures Valid() && CallbackFrame() && unchanged(pcb)
      ensures totals.disconnects == 1 && totals.acked == old(totals.acked)
      ensures Grew(old(log), OnDisconnect(inDestructor), log) && (NeverCloses(app) ==> KeptOver())
      ensures (inDestructor || KeepsClient(app) ==> client == old(client))
      ensures (!inDestructor && DropsClient(app) ==> client == null)
      ensures Obeyed(app(old(log) + [OnDisconnect(inDestructor)])) && dangling == old(dangling)
      decreases Rank(), 3, 0
    {
      Note(OnDisconnect(inDestructor));
      Promised(app, log);
      Run(app(log));
    }

    method Run(calls: seq<Call>)
      requires Valid() && !connecting
      modifies this, tracker, client, pcb
      ensures Valid() && ScriptFrame(0) && (NeverCloses(app) && NoClose(calls) ==> KeptOver())
      ensures Delete !in calls && !old(Held()) ==> client == old(client)
      ensures Obeyed(calls) && (old(Held()) && client != null && Harmless(calls) ==> Held())
      ensures old(client) != null ==> forall c {:trigger Effect(c)} :: calls == [c] ==> Effect(c)
      ensures calls == [Abort] && old(Held()) && !abortReports ==>
                client == old(client) && client.ackPcb == old(client.ackPcb)
      ensures calls == [] ==>
                unchanged(this) && unchanged(tracker) && unchanged(pcb) && (client != null ==> unchanged(client))
      decreases Rank(), 2, |calls|
    {
      if calls != [] && client != null {
        Do(calls[0]);
        Run(calls[1..]);
      }
    }

    /** lwIP got what it has room for, and sends it if `flush`. */
    twostate predicate Taken(data: seq<byte>, flush: bool)
      requires old(client) != null
      reads this, client, pcb
    {
      var k := Min(|data|, old(client.Space()));
      && client != null && pcb.written == old(pcb.written) + data[..k]
      && (flush && k > 0 ==> client.pcbBusy && client.txUnsent == 0)
    }

    /** What a call does to a client that holds its control block, or to any. */
    twostate predicate Effect(call: Call)
      requires old(client) != null
      reads this, client, pcb
    {
      match call
      case Write(data) => old(Held() && pcb.faults == []) ==> Taken(data, true)
      case Add(data) => old(Held() && pcb.faults == []) ==> Taken(data, false)
      case Send =>
        old(Held() && pcb.faults == []) ==>
          && client != null && client.txUnsent == 0
          && client.txUnacked == Add32(old(client.txUnacked), old(client.txUnsent))
      case Ack(len) => old(Held()) ==> pcb.recved == old(pcb.recved) + Min(len, old(client.rxAckLen))
      case AckLater => client != null && !client.ackPcb
      case OnPacket(install) => client != null && client.packetCb == install
      case Close(immediately) => if immediately then old(Held()) ==> Closed() else client != null && client.closePcb
      case Abort => old(Held()) ==> pcb.aborts == old(pcb.aborts) + 1
      case Delete => client == null
    }

    /** Hands data to lwIP, and sends it if `flush`. Without a control block nothing happens. */
    method Transmit(data: seq<byte>, flush: bool)
      requires Valid() && client != null
      modifies client, pcb
      ensures Valid() && ScriptFrame(0)
      ensures client == old(client) && client.pcb == old(client.pcb) && client.over == old(client.over)
      // with nothing failing, lwIP gets what it has room for
      ensures client.pcb != null && old(pcb.faults) == [] ==> Taken(data, flush)
    {
      if flush {
        var _ := client.Write(data, now);
      } else {
        var _ := client.Add(data);
      }
    }

    method Flush()
      requires Valid() && client != null
      modifies client, pcb
      ensures Valid() && ScriptFrame(0)
      ensures client == old(client) && client.pcb == old(client.pcb) && client.over == old(client.over)
      ensures client.pcb != null && old(pcb.faults) == [] ==>
                client.txUnacked == Add32(old(client.txUnacked), old(client.txUnsent)) && client.txUnsent == 0
    {
      if client.pcb != null {
        var _ := client.Send(now);
      }
    }

    /** Calls about received data. Without a control block there is nothing to acknowledge. */
    method Acknowledge(call: Call)
      requires Valid() && client != null
      modifies client, pcb
      ensures Valid() && ScriptFrame(0)
      ensures client == old(client) && client.pcb == old(client.pcb) && client.over == old(client.over)
      ensures call.Ack? && client.pcb != null ==> pcb.recved == old(pcb.recved) + Min(call.len, old(client.rxAckLen))
      ensures call.AckLater? ==> !client.ackPcb
      ensures call.OnPacket? ==> client.packetCb == call.install
    {
      match call
      case Ack(len) =>
        if client.pcb != null {
          var _ := client.Ack(len);
        }
      case AckLater => client.AckLater();
      case OnPacket(install) => client.packetCb := install;
      case _ =>
    }

    /** One call of the application on its client. */
    method Do(call: Call)
      requires Valid() && client != null && (connecting ==> call != Delete)
      modifies this, tracker, client, pcb
      ensures Valid() && ScriptFrame(0) && (NeverCloses(app) && !call.Close? ==> KeptOver()) && Effect(call)
      ensures call != Delete && !old(Held()) ==> client == old(client)
      ensures Obeyed([call]) && (old(Held()) && client != null && Harmless([call]) ==> Held())
      ensures call == Abort && old(Held()) ==>
                if abortReports then dangling == old(dangling) + (if client == null then 1 else 0)
                                     && (DropsClient(app) ==> client == null)
                else client == old(client) && client.ackPcb == old(client.ackPcb)
      decreases Rank(), 1, 0
    {
      match call
      case Close(immediately) =>
        if immediately {
          CloseNow(false);
        } else {
          client.CloseLater();
        }
      case Abort => DoAbort();
      case Delete => Destroy();
      case _ => Use(call);
    }

    /** A call that moves data or changes a setting. */
    method Use(call: Call)
      requires Valid() && client != null && !call.Close? && call != Abort && call != Delete
      modifies client, pcb
      ensures Valid() && ScriptFrame(0) && Effect(call)
      ensures client == old(client) && client.pcb == old(client.pcb) && client.over == old(client.over)
    {
      match call
      case Write(data) => Transmit(data, true);
      case Add(data) => Transmit(data, false);
      case Send => Flush();
      case Ack(_) => Acknowledge(call);
      case AckLater => Acknowledge(call);
      case OnPacket(_) => Acknowledge(call);
    }

    /** abort() by the application, with the callbacks armed: lwIP may call the error callback before it returns. */
    method DoAbort()
      requires Valid() && client != null
      modifies this, tracker, client, pcb
      ensures Valid() && ScriptFrame(0) && !Held() && (NeverCloses(app) ==> KeptOver())
      ensures !old(Held()) ==> client == old(client)
      ensures old(Held()) ==> pcb.aborts == old(pcb.aborts) + 1 && pcb.armed
      ensures old(Held()) && !abortReports ==> client == old(client) && client.ackPcb == old(client.ackPcb)
      // it goes on with a client that is gone exactly if lwIP calls back and the disconnect callback deletes it
      ensures dangling == old(dangling) + if old(Held()) && abortReports && client == null then 1 else 0
      ensures old(Held()) && abortReports && DropsClient(app) ==> client == null
      decreases Rank(), 0, 1
    {
      if client.pcb != null {
        client.AbortPcb();
        if abortReports {
          tracker.SetCloseError(Abrt);
          tracker.SetErrored(EeErrorCb);
          ReportError(Abrt);
        }
        if client != null {
          tracker.SetCloseError(Abrt);
        } else {
          dangling := dangling + 1;
        }
      }
    }

    /** abort() by _close(), which has disarmed the callbacks. */
    method AbortDisarmed()
      requires client != null && client.pcb == pcb && pcb.live
      modifies tracker`closeError, client`pcb, pcb
      ensures client.pcb == null && !pcb.live && pcb.aborts == old(pcb.aborts) + 1
      ensures pcb.armed == old(pcb.armed) && pcb.recved == old(pcb.recved) && pcb.received == old(pcb.received)
      ensures pcb.faults == old(pcb.faults) && pcb.failedOutputs == old(pcb.failedOutputs)
      ensures pcb.strays == old(pcb.strays) && pcb.pending == old(pcb.pending)
      ensures tracker.closeError == if tracker.errored == EeOk then Abrt else old(tracker.closeError)
    {
      client.AbortPcb();
      tracker.SetCloseError(Abrt);
    }

    /** The connection is closed, or aborted if lwIP could not close it, and the disconnect callback has run. */
    predicate Closed()
      reads this, pcb
    {
      !pcb.live && !pcb.armed && totals.disconnects == 1 && pcb.aborts == if tcpClose == Ok then 0 else 1
    }

    /** close(true) */
    method CloseNow(inDestructor: bool)
      requires Valid() && client != null
      modifies this, tracker, client, pcb
      ensures Valid() && ScriptFrame(0) && !Held()
      ensures old(Held()) ==> Closed()
      ensures inDestructor || !old(Held()) ==> client == old(client)
      ensures pcb.recved == old(pcb.recved) + if old(Held()) then old(client.rxAckLen) else 0
      decreases Rank(), 0, 1
    {
      if client.pcb != null {
        pcb.TcpRecved(client.rxAckLen);
        client.over := client.over + client.rxAckLen;
      }
      DoClose(inDestructor);
    }

    /** _close() */
    method DoClose(inDestructor: bool)
      requires Valid() && client != null
      modifies this, tracker, client, pcb
      ensures Valid() && ScriptFrame(0) && !Held()
      ensures old(Held()) ==> Closed() && Grew(old(log), OnDisconnect(inDestructor), log)
      ensures inDestructor || !old(Held()) ==> client == old(client)
      ensures pcb.recved == old(pcb.recved) && (NeverCloses(app) ==> KeptOver())
      decreases Rank(), 0, 0
    {
      if client.pcb != null {
        pcb.armed := false;
        if tcpClose == Ok {
          pcb.live := false;
          tracker.SetCloseError(Ok);
        } else {
          AbortDisarmed();
        }
        client.pcb := null;
        FireDisconnect(inDestructor);
      }
    }

    /** ~AsyncClient() */
    method Destroy()
      requires Valid() && !connecting && client != null
      modifies this, tracker, client, pcb
      ensures Valid() && ScriptFrame(0) && client == null && (old(Held()) ==> Closed())
      decreases Rank(), 0, 1
    {
      if client.pcb != null {
        DoClose(true);
      }
      tracker.ClearClient();
      client := null;
    }

    // ---- lwIP's callbacks ------------------------------------------------------------------

    /**
     * What a callback tells lwIP: ERR_ABRT exactly if tcp_abort was called while it ran, and lwIP has not heard of that
     * from the error callback.
     */
    twostate predicate Answered(code: Err)
      reads this, pcb
    {
      code == if pcb.aborts > old(pcb.aborts) && !Reported() then Abrt else Ok
    }

    /** Nothing is left of the client but its memory: report the error, then the disconnect. */
    method ReportError(err: Err)
      requires Valid() && client != null && !connecting && !Callable() && !Held() && totals.disconnects == 0
      requires tracker.errored != EeOk
      modifies this, tracker, client, pcb
      ensures Valid() && CallbackFrame() && unchanged(pcb)
      ensures totals.disconnects == 1 && totals.acked == old(totals.acked)
      ensures Grew(old(log), OnError(err), log) && dangling == old(dangling) && (NeverCloses(app) ==> KeptOver())
      ensures (KeepsClient(app) ==> client == old(client)) && (DropsClient(app) ==> client == null)
      decreases Rank(), 4, 0
    {
      Fire(OnError(err));
      FireDisconnect(false);
    }

    /** lwIP reports an error for a connection that still exists; it is forgotten, not aborted. */
    method Refuse(err: Err, event: ErrorEvent)
      requires Valid() && Settled() && Callable() && event != EeOk
      modifies this, tracker, client, pcb
      ensures Valid() && Settled() && !connecting && !Held() && LwipFrame() && pcb.aborts == old(pcb.aborts)
      ensures tracker.errored == event && !Callable() && totals.disconnects == 1 && Grew(old(log), OnError(err), log)
      ensures totals.offered == old(totals.offered)
    {
      tracker.SetCloseError(err);
      tracker.SetErrored(event);
      pcb.armed, connecting := false, false;
      client.pcb := null;
      ReportError(err);
    }

    /** Calls back, and tells lwIP what came of it. */
    method Ask(e: Event) returns (code: Err)
      requires Valid() && Settled() && Callable() && !connecting && (e.OnConnect? || e.OnPoll? || e.OnTimeout?)
      modifies this, tracker, client, pcb
      ensures Valid() && Settled() && !connecting && Answered(code) && LwipFrame() && Grew(old(log), e, log)
      ensures Obeyed(app(old(log) + [e]))
      ensures app(old(log) + [e]) == [] ==> client == old(client) && unchanged(client)
    {
      Fire(e);
      code := tracker.GetCallbackCloseError();
    }

    /** _close() in a callback, and what lwIP is told of it. */
    method CloseAndAnswer() returns (code: Err)
      requires Valid() && Settled() && Callable() && !connecting
      modifies this, tracker, client, pcb
      ensures Valid() && Settled() && !connecting && Answered(code) && LwipFrame()
      ensures Closed() && code == (if old(tcpClose) == Ok then Ok else Abrt) && totals.offered == old(totals.offered)
      ensures Grew(old(log), OnDisconnect(false), log)
    {
      DoClose(false);
      code := tracker.GetCallbackCloseError();
    }

    /** AsyncServer::_accept on a server without TLS: the connect callback is told of the new client. */
    method SAccept() returns (code: Err)
      requires Valid() && Settled() && Callable() && !connecting
      modifies this, tracker, client, pcb
      ensures Valid() && Settled() && Answered(code) && LwipFrame()
      ensures Grew(old(log), OnConnect, log) && Obeyed(app(old(log) + [OnConnect]))
    {
      code := Ask(OnConnect);
    }

    /** The client gets its control block. */
    method Attach()
      requires Valid() && Callable() && connecting
      modifies this`connecting, client`pcb, client`pcbBusy, client`rxLastPacket
      ensures Valid() && !connecting && Held() && client == old(client) && !client.pcbBusy && client.rxLastPacket == now
    {
      client.pcb, client.pcbBusy, client.rxLastPacket := pcb, false, now;
      connecting := false;
    }

    /**
     * A refusal is the end. Otherwise the connect callback finds a client that holds the control block, and unless it
     * acts it leaves it so.
     */
    twostate predicate ConnectedOn(err: Err)
      reads this, client, pcb
    {
      && Grew(old(log), if err == Ok then OnConnect else OnError(err), log)
      && (err != Ok ==> !Callable() && totals.disconnects == 1)
      && (err == Ok && app(old(log) + [OnConnect]) == [] ==>
            && client != null && client == old(client) && client.pcb == pcb && !client.pcbBusy
            && client.rxLastPacket == old(now))
    }

    /** _s_connected */
    method SConnected(err: Err) returns (code: Err)
      requires Valid() && Settled() && Callable() && connecting
      modifies this, tracker, client, pcb
      ensures Valid() && Settled() && !connecting && Answered(code) && LwipFrame() && ConnectedOn(err)
      ensures err != Ok ==> code == Ok
    {
      if err != Ok {
        Refuse(err, EeConnectedCb);
        code := tracker.GetCallbackCloseError();
      } else {
        Attach();
        code := Ask(OnConnect);
      }
    }

    /** _s_error: lwIP has already freed the control block. */
    method SError(err: Err)
      requires Valid() && Settled() && Callable()
      modifies this, tracker, client, pcb
      ensures Valid() && Settled() && !Callable() && !connecting
      ensures totals.disconnects == 1 && pcb.aborts == 0 && LwipFrame()
      ensures Grew(old(log), OnError(err), log)
    {
      pcb.live, connecting := false, false;
      tracker.SetCloseError(err);
      tracker.SetErrored(EeErrorCb);
      client.pcb := null;
      ReportError(err);
    }

    /** Tells the ack callback what has been acknowledged since it was last told. */
    method Report()
      requires Valid() && Settled() && Callable() && !connecting
      modifies this, tracker, client, pcb
      ensures Valid() && Settled() && LwipFrame()
      ensures tracker.errored == if pcb.aborts > old(pcb.aborts) && Reported() then EeErrorCb else EeOk
      ensures Grew(old(log), OnAck(old(client.txAcked)), log) && Obeyed(app(old(log) + [OnAck(old(client.txAcked))]))
      ensures client != null ==> client.txAcked == 0 && client.reported == old(client.reported) + old(client.txAcked)
      ensures client != null ==> client.rxLastPacket == old(client.rxLastPacket)
    {
      tracker.SetCloseError(Ok);
      var told := client.txAcked;
      Fire(OnAck(told));
      if tracker.hasClient {
        client.SentEnd(told);
      }
    }

    /**
     * The ack callback hears of everything acknowledged since it last did, once nothing is in flight. An
     * acknowledgement restarts the receive timer.
     */
    twostate predicate AckedOn(len: nat)
      requires old(client) != null
      reads this, client
    {
      && (client != null ==> client.rxLastPacket == old(now))
      && if old(Sub32(client.txUnacked, len)) != 0 then log == old(log)
         else
           && Grew(old(log), OnAck(old(Add32(client.txAcked, len))), log)
           && (client != null ==>
                 client.txAcked == 0 && client.reported == old(client.reported) + old(Add32(client.txAcked, len)))
    }

    /** _s_sent */
    method SSent(len: nat) returns (code: Err)
      requires Valid() && Settled() && Callable() && !connecting
      modifies this, tracker, client, pcb
      ensures Valid() && Settled() && Answered(code) && LwipFrame() && AckedOn(len)
    {
      var report := client.SentBegin(len, now);
      if report {
        Report();
      }
      code := tracker.GetCallbackCloseError();
    }

    /** A poll closes if that was asked for, else runs the timeout callback or closes if a timer is due, else polls. */
    twostate predicate PolledOn()
      requires old(client) != null
      reads this, client, pcb
    {
      |log| > |old(log)| && old(log) <= log &&
      var first := log[|old(log)|];
      if old(client.closePcb) then first == OnDisconnect(false) && !Callable() && totals.disconnects == 1
      else if old(client.pcbBusy && 0 < client.ackTimeout <= (now - client.pcbSentAt) % M32) then
        first == OnTimeout && Obeyed(app(old(log) + [OnTimeout]))
      else if old(client.RxOverdue(now)) then first == OnDisconnect(false) && !Callable() && totals.disconnects == 1
      else first == OnPoll && Obeyed(app(old(log) + [OnPoll]))
    }

    /** _s_poll */
    method SPoll() returns (code: Err)
      requires Valid() && Settled() && Callable() && !connecting
      modifies this, tracker, client, pcb
      ensures Valid() && Settled() && Answered(code) && LwipFrame() && PolledOn()
      ensures log[|old(log)|] == OnDisconnect(false) ==> code == if old(tcpClose) == Ok then Ok else Abrt
    {
      tracker.SetCloseError(Ok);
      var branch := client.PollStep(now);
      code := Follow(branch);
    }

    /** What a poll does that has come to `branch`. */
    method Follow(branch: PollBranch) returns (code: Err)
      requires Valid() && Settled() && Callable() && !connecting
      modifies this, tracker, client, pcb
      ensures Valid() && Settled() && Answered(code) && LwipFrame() && |log| > |old(log)| && old(log) <= log
      ensures match branch
              case AckTimedOut => log[|old(log)|] == OnTimeout && Obeyed(app(old(log) + [OnTimeout]))
              case Fine => log[|old(log)|] == OnPoll && Obeyed(app(old(log) + [OnPoll]))
              case _ =>
                && log[|old(log)|] == OnDisconnect(false) && !Callable() && totals.disconnects == 1
                && code == if old(tcpClose) == Ok then Ok else Abrt
    {
      match branch {
        case CloseRequested => code := CloseAndAnswer();
        case AckTimedOut => code := Ask(OnTimeout);
        case RxTimedOut => code := CloseAndAnswer();
        case Fine => code := Ask(OnPoll);
      }
    }

    /** Offers one payload to the packet or data callback. */
    method FireData(payload: seq<byte>, packet: bool)
      requires Valid() && client != null && !connecting
      modifies this, tracker, client, pcb
      ensures Valid() && RecvFrame() && pcb.pending == old(pcb.pending) && pcb.strays == old(pcb.strays)
      ensures (Held() ==> old(Held())) && (!old(Held()) ==> unchanged(pcb))
      ensures old(Held()) && client != null && KeepsPcb(app) ==> Held()
      ensures app(old(log) + [OnData(payload, packet)]) == [Abort] && old(Held()) && !abortReports ==>
                client == old(client) && client.ackPcb == old(client.ackPcb)
      ensures totals.(disconnects := 0) == old(totals).Add(OnData(payload, packet)).(disconnects := 0)
      ensures client != null ==> client.reported == old(client.reported) && client.handedOver == old(client.handedOver)
      ensures Grew(old(log), OnData(payload, packet), log) && Obeyed(app(old(log) + [OnData(payload, packet)]))
      // a callback that does nothing
      ensures app(old(log) + [OnData(payload, packet)]) == [] ==>
                client == old(client) && unchanged(client) && unchanged(pcb) && unchanged(tracker)
    {
      Note(OnData(payload, packet));
      Promised(app, log);
      RunFrom(OnData(payload, packet), old(log));
    }

    /** What offering data leaves alone. */
    twostate predicate RecvFrame()
      reads this, tracker, client, pcb
    {
      && !connecting && now == old(now)
      && tracker.errored == (if pcb.aborts > old(pcb.aborts) && Reported() then EeErrorCb else old(tracker.errored))
      && EventFrame() && (client != null ==> client.rxLastPacket == old(client.rxLastPacket))
      && (pcb.live ==> old(pcb.live) && pcb.armed == old(pcb.armed))
    }

    /** A buffer goes to the packet callback, which has to free it. */
    method HandOver(b: Pbuf)
      requires Valid() && Settled() && client != null && !connecting && b.owner == Lwip && |b.payload| <= pcb.pending
      modifies this, tracker, client, pcb, b`owner
      ensures Valid() && Settled() && totals.offered == old(totals.offered) + [b.payload]
      ensures RecvFrame() && b.owner == App
      ensures Dealt(b.payload, true) && pcb.strays == old(pcb.strays)
    {
      b.owner := App;
      FireData(b.payload, true);
      if client != null {
        client.AfterPacket(pcb, |b.payload|);
      }
    }

    /** The payload has been shown, and the control block is still held unless the callbacks gave it up. */
    twostate predicate Dealt(payload: seq<byte>, packet: bool)
      reads this, client, pcb
    {
      && Grew(old(log), OnData(payload, packet), log) && Obeyed(app(old(log) + [OnData(payload, packet)]))
      && (client != null ==> pcb.pending == old(pcb.pending) - |payload|)
      && (old(Held()) && client != null && KeepsPcb(app) ==> Held())
    }

    /** lwIP can call back, or has been told that the control block is given up. */
    predicate Engaged()
      reads pcb
    {
      pcb.live ==> pcb.armed
    }

    /** tcp_recved is called for a control block that the callback has given up. */
    predicate Astray()
      reads this, client
    {
      client != null && client.pcb == null && client.ackPcb
    }

    /** A payload goes to the data callback; the window opens now unless the callback deferred that. */
    method OfferData(payload: seq<byte>)
      requires Valid() && Settled() && client != null && !connecting && client.ackPcb
      requires Engaged() && |payload| <= pcb.pending && (KeepsPcb(app) ==> Held())
      modifies this, tracker, client, pcb
      ensures Valid() && Settled() && totals.offered == old(totals.offered) + [payload] && RecvFrame()
      ensures Dealt(payload, false)
      // a stray call exactly if the client exists without control block and has not deferred
      ensures pcb.strays == old(pcb.strays) + if Astray() then 1 else 0
      ensures pcb.recved >= old(pcb.recved) + if Held() && client.ackPcb then |payload| else 0
      ensures app(old(log) + [OnData(payload, false)]) == [] ==>
                && client == old(client) && client.rxAckLen == old(client.rxAckLen)
                && (old(Held()) ==> pcb.recved == old(pcb.recved) + |payload|)
      ensures app(old(log) + [OnData(payload, false)]) == [Abort] && old(Held()) && !abortReports ==> Astray()
    {
      FireData(payload, false);
      if tracker.hasClient {
        client.AfterData(pcb, |payload|);
      }
    }

    /** One buffer, already unlinked: handed over, or offered and freed. */
    method Deliver(b: Pbuf)
      requires Valid() && Settled() && client != null && !connecting && b.owner == Lwip && b.next == null
      requires Engaged() && |b.payload| <= pcb.pending && (KeepsPcb(app) ==> Held())
      modifies this, tracker, client, pcb, b`owner
      ensures Valid() && Settled() && totals.offered == old(totals.offered) + [b.payload] && RecvFrame()
      ensures b.owner == if old(client.packetCb) then App else Freed
      ensures Dealt(b.payload, old(client.packetCb))
      ensures pcb.strays == old(pcb.strays) + if Astray() && !old(client.packetCb) then 1 else 0
      // unless the callback asks for it, nothing is deferred
      ensures app(old(log) + [OnData(b.payload, false)]) == [] && !old(client.packetCb) ==>
                && client == old(client) && client.rxAckLen == old(client.rxAckLen)
                && (old(Held()) ==> pcb.recved == old(pcb.recved) + |b.payload|)
      ensures old(AbortsOn(b.payload)) ==> pcb.strays > old(pcb.strays)
    {
      client.ackPcb := true;
      if client.packetCb {
        HandOver(b);
      } else {
        OfferData(b.payload);
        b.Free();
      }
    }

    /** The data callback for this payload does nothing but abort. */
    ghost predicate AbortsOn(payload: seq<byte>)
      reads this, client
    {
      Held() && !abortReports && !client.packetCb && app(log + [OnData(payload, false)]) == [Abort]
    }

    /** Unlinks the first buffer of a chain. */
    method Unlink(b: Pbuf, ghost chain: seq<Pbuf>, ghost k: nat) returns (rest: Pbuf?)
      requires IsChain(b, chain, k) && k < |chain|
      modifies b`next
      ensures IsChain(rest, chain, k + 1) && b == chain[k] && b.next == null
    {
      rest := b.next;
      b.next := null;
    }

    /** Frees the rest of a chain whose client is gone. */
    method FreeRest(first: Pbuf?, ghost chain: seq<Pbuf>, ghost k: nat)
      requires IsChain(first, chain, k)
      modifies chain
      ensures forall i :: k <= i < |chain| ==> chain[i].owner == Freed
      ensures forall i :: 0 <= i < k ==> chain[i].owner == old(chain[i].owner)
    {
      var pb := first;
      ghost var m := k;
      while pb != null
        invariant k <= m && IsChain(pb, chain, m)
        invariant forall i :: k <= i < m ==> chain[i].owner == Freed
        invariant forall i :: 0 <= i < k ==> chain[i].owner == old(chain[i].owner)
        decreases |chain| - m
      {
        var b := pb;
        pb := Unlink(b, chain, m);
        b.Free();
        m := m + 1;
      }
    }

    /** Unlinks and delivers the first buffer of a chain. */
    method ReceiveOne(b: Pbuf, ghost chain: seq<Pbuf>, ghost k: nat) returns (rest: Pbuf?)
      requires Valid() && Settled() && !connecting && client != null && IsChain(b, chain, k) && k < |chain|
      requires Engaged() && pcb.pending == Remaining(chain, k) && (KeepsPcb(app) ==> Held())
      modifies this, tracker, client, pcb, b
      ensures Valid() && Settled() && RecvFrame() && IsChain(rest, chain, k + 1)
      ensures totals.offered == old(totals.offered) + [chain[k].payload]
      ensures old(NotLwips(chain, k)) ==> NotLwips(chain, k + 1)
      ensures client != null ==> pcb.pending == Remaining(chain, k + 1) && (KeepsPcb(app) ==> Held())
      ensures old(AbortsOn(chain[k].payload)) ==> pcb.strays > old(pcb.strays)
    {
      rest := Unlink(b, chain, k);
      Deliver(b);
    }

    /** Offers the buffers of a chain in order, until the client is deleted. */
    method OfferAll(first: Pbuf?, ghost chain: seq<Pbuf>) returns (rest: Pbuf?, ghost n: nat)
      requires Valid() && Settled() && !connecting && IsChain(first, chain, 0)
      requires client != null && Engaged() && pcb.pending == Remaining(chain, 0) && (KeepsPcb(app) ==> Held())
      modifies this, tracker, client, pcb, chain
      ensures Valid() && Settled() && RecvFrame() && IsChain(rest, chain, n)
      ensures totals.offered == old(totals.offered) + Payloads(chain, n)
      ensures client != null ==> rest == null && pcb.pending == 0
      ensures NotLwips(chain, n)
    {
      rest, n := first, 0;
      while rest != null && tracker.hasClient
        invariant IsChain(rest, chain, n)
        invariant Valid() && Settled() && RecvFrame()
        invariant NotLwips(chain, n) && Engaged()
        invariant totals.offered == old(totals.offered) + Payloads(chain, n)
        invariant client != null ==> pcb.pending == Remaining(chain, n) && (KeepsPcb(app) ==> Held())
        decreases |chain| - n
      {
        rest := ReceiveOne(rest, chain, n);
        PayloadsSnoc(old(totals.offered), chain, n);
        n := n + 1;
      }
    }

    /** The receiving loop of _recv: buffers are offered in order until the client is deleted; none stays with lwIP. */
    method Receive(first: Pbuf?, ghost chain: seq<Pbuf>) returns (ghost n: nat)
      requires Valid() && Settled() && !connecting && IsChain(first, chain, 0)
      requires client != null && Engaged() && pcb.pending == Remaining(chain, 0) && (KeepsPcb(app) ==> Held())
      modifies this, tracker, client, pcb, chain
      ensures Valid() && Settled() && RecvFrame()
      ensures n <= |chain| && totals.offered == old(totals.offered) + Payloads(chain, n)
      ensures client != null ==> n == |chain| && pcb.pending == 0
      ensures NotLwips(chain, n)
      ensures forall i :: n <= i < |chain| ==> chain[i].owner == Freed
    {
      var rest;
      rest, n := OfferAll(first, chain);
      FreeRest(rest, chain, n);
    }

    /** Data has arrived. */
    method ReceiveAndAnswer(first: Pbuf, ghost chain: seq<Pbuf>) returns (code: Err, ghost n: nat)
      requires Valid() && Settled() && Callable() && !connecting && IsChain(first, chain, 0)
      requires pcb.pending == Remaining(chain, 0)
      modifies this, tracker, client, pcb, chain
      ensures Valid() && Settled() && Answered(code) && EventFrame() && Shown()
      ensures n <= |chain| && NotLwips(chain, n) && totals.offered == old(totals.offered) + Payloads(chain, n)
      ensures client == null || (n == |chain| && client.rxLastPacket == old(now))
      ensures forall i :: n <= i < |chain| ==> chain[i].owner == Freed
    {
      client.rxLastPacket := now;
      tracker.SetCloseError(Ok);
      n := Receive(first, chain);
      code := tracker.GetCallbackCloseError();
    }

    /** _s_recv */
    method SRecv(first: Pbuf?, err: Err, ghost chain: seq<Pbuf>) returns (code: Err, ghost n: nat)
      requires Valid() && Settled() && Callable() && !connecting && IsChain(first, chain, 0)
      requires pcb.pending == Remaining(chain, 0)
      modifies this, tracker, client, pcb, chain
      ensures Valid() && Settled() && Answered(code) && EventFrame() && Shown()
      // an error, or the end of the stream, disconnects; with an error, nobody frees the buffers
      ensures err != Ok ==> code == Ok && forall i :: 0 <= i < |chain| ==> chain[i].owner == Lwip
      ensures err != Ok || first == null ==> !Callable() && totals.disconnects == 1 && n == 0
      // data: every buffer is freed or handed over once, and offered in order while there is a client
      ensures n <= |chain|
      ensures err == Ok ==> NotLwips(chain, n) && totals.offered == old(totals.offered) + Payloads(chain, n)
      ensures err == Ok && first != null ==> client == null || (n == |chain| && client.rxLastPacket == old(now))
      ensures err == Ok ==> forall i :: n <= i < |chain| ==> chain[i].owner == Freed
    {
      n := 0;
      assert Payloads(chain, 0) == [];
      if err != Ok {
        Refuse(err, EeRecvCb);
        code := tracker.GetCallbackCloseError();
      } else if first == null {
        code := CloseAndAnswer();
      } else {
        code, n := ReceiveAndAnswer(first, chain);
      }
    }

    /** Between callbacks everything delivered has been shown. */
    ghost predicate Rested()
      reads this, client, pcb
    {
      Settled() && Shown()
    }

    /**
     * An error or the end of the stream is the end. Data is shown piece by piece, all of it unless the client is
     * deleted meanwhile, and restarts the receive timer.
     */
    twostate predicate ReceivedOn(payloads: seq<seq<byte>>, err: Err)
      reads this, client, pcb
    {
      if err != Ok || payloads == [] then !Callable() && totals.disconnects == 1
      else
        && old(totals.offered) <= totals.offered <= old(totals.offered) + payloads
        && (client != null ==> totals.offered == old(totals.offered) + payloads && client.rxLastPacket == old(now))
    }

    /** lwIP has a packet, of which nothing has been shown yet. */
    method Bring(payloads: seq<seq<byte>>) returns (first: Pbuf?, ghost chain: seq<Pbuf>)
      requires Valid() && Rested() && Callable() && !connecting
      modifies pcb`received, pcb`pending
      ensures Valid() && Settled() && pcb.pending == Remaining(chain, 0)
      ensures IsChain(first, chain, 0) && fresh(chain) && Payloads(chain, |chain|) == payloads
    {
      first, chain := MakeChain(payloads);
      pcb.Deliver(LengthOf(payloads));
      LengthRemaining(payloads, chain, 0);
      assert payloads[0..] == payloads;
    }

    /** A packet is delivered. */
    method Arrives(payloads: seq<seq<byte>>, err: Err) returns (code: Err)
      requires Valid() && Rested() && Callable() && !connecting
      modifies this, tracker, client, pcb
      ensures Valid() && Rested() && Answered(code) && StepFrame() && ReceivedOn(payloads, err)
    {
      var first, chain := Bring(payloads);
      ghost var n;
      code, n := SRecv(first, err, chain);
      PayloadsPrefix(chain, payloads, n);
    }

    /** What comes from lwIP has reached its callback. */
    twostate predicate Reached(s: Stimulus)
      requires old(client) != null
      reads this, client, pcb
    {
      match s
      case Connected(err) => old(connecting) ==> ConnectedOn(err)
      case Failed(err) => Grew(old(log), OnError(err), log) && !Callable() && totals.disconnects == 1
      case Acked(len) => old(!connecting) ==> AckedOn(len)
      case Polled => old(!connecting) ==> PolledOn()
      case Received(payloads, err) => old(!connecting) ==> ReceivedOn(payloads, err)
      case _ => true
    }

    /** lwIP calls back, if it may; returns what it was told, if it is told anything. */
    method CallBack(s: Stimulus) returns (told: seq<Err>)
      requires Valid() && Rested() && !s.Foreground? && !s.Environment?
      modifies this, tracker, client, pcb
      ensures Valid() && Rested() && StepFrame() && |told| <= 1
      ensures told != [] ==> Answered(told[0])
      ensures told == [] ==> pcb.aborts == old(pcb.aborts)
      ensures old(!Callable()) ==> unchanged(this) && unchanged(pcb) && told == []
      ensures old(Callable()) ==> Reached(s)
    {
      told := [];
      var code;
      if !Callable() {
        return;
      }
      match s
      case Connected(err) =>
        if connecting {
          code := SConnected(err);
          told := [code];
        }
      case Failed(err) =>
        SError(err);
      case Acked(len) =>
        if !connecting {
          code := SSent(len);
          told := [code];
        }
      case Polled =>
        if !connecting {
          code := SPoll();
          told := [code];
        }
      case Received(payloads, err) =>
        if !connecting {
          code := Arrives(payloads, err);
          told := [code];
        }
    }

    /** What one step leaves alone. */
    twostate predicate StepFrame()
      reads this, client, pcb
    {
      && (client == null || client == old(client))
      && pcb.aborts >= old(pcb.aborts) && (old(pcb.Clean()) ==> pcb.Clean())
      && (old(pcb.aborts) == 1 ==> pcb.armed == old(pcb.armed)) && (NeverCloses(app) ==> KeptOver())
    }

    /**
     * What a step keeps. lwIP is always told of an abort in its own callback; an error callback has no answer and never
     * aborts.
     */
    twostate predicate Stepped(s: Stimulus, told: seq<Err>)
      reads this, client, pcb
    {
      && (client == null || client == old(client)) && (Quiet(s) && old(pcb.Clean()) ==> pcb.Clean())
      && (NeverCloses(app) && !Closes(s) ==> KeptOver())
      && pcb.aborts >= old(pcb.aborts) && |told| <= 1 && (old(pcb.aborts) == 1 ==> pcb.armed == old(pcb.armed))
      && (told != [] ==> Answered(told[0]) && !s.Foreground?)
      && (told == [] && !s.Foreground? ==> pcb.aborts == old(pcb.aborts))
    }

    /** One thing that happens to the connection; returns what lwIP was told, if it was lwIP that called. */
    method Step(s: Stimulus) returns (told: seq<Err>)
      requires Valid() && Rested()
      modifies this, tracker, client, pcb
      ensures Valid() && Rested() && Stepped(s, told)
      ensures old(!Callable()) && !s.Foreground? ==> told == [] && totals.disconnects == old(totals.disconnects)
      ensures old(!Callable()) && !s.Foreground? ==> log == old(log)
      // what comes from lwIP reaches its callback, and a call does what it should
      ensures old(Callable()) ==> Reached(s)
      ensures s.Foreground? && old(client != null && !(connecting && s.call == Delete)) ==> Effect(s.call)
      ensures s.Environment? ==>
                && tcpClose == s.tcpClose && now == s.now && pcb.sndbuf == s.room && pcb.faults == s.faults
                && log == old(log)
    {
      told := [];
      match s
      case Foreground(call) =>
        // a client that is still connecting must not be deleted: lwIP would call into it
        if client != null && !(connecting && call == Delete) {
          Do(call);
        }
      case Environment(close, room, faults, state, time) =>
        Change(close, room, faults, state, time);
      case _ =>
        told := CallBack(s);
    }

    /** Time passes, lwIP has room or not, and failures are due. */
    method Change(close: Err, room: nat, faults: seq<Fault>, state: nat, time: u32)
      requires Valid() && Rested()
      modifies this`tcpClose, this`now, pcb`sndbuf, pcb`faults, pcb`state
      ensures Valid() && Rested() && (OutputError !in faults && old(pcb.Clean()) ==> pcb.Clean())
      ensures tcpClose == close && now == time && pcb.sndbuf == room && pcb.faults == faults && pcb.state == state
    {
      tcpClose, now := close, time;
      pcb.Change(room, faults, state);
    }

    /** What one sees of it. */
    ghost function Look(): View
      reads this, client, pcb
    {
      if client == null then
        View(log, Callable(), connecting, now, false, false, false, false, 0, 0, 0, 0, 0, 0, 0, 0, 0,
             pcb.written, pcb.faults, pcb.recved, pcb.aborts)
      else
        View(log, Callable(), connecting, now, true, client.pcb != null, client.closePcb, client.pcbBusy,
             client.pcbSentAt, client.rxLastPacket, client.ackTimeout, client.rxSinceTimeout,
             client.txUnacked, client.txUnsent, client.txAcked, client.rxAckLen,
             if client.pcb != null && pcb.state == ESTABLISHED then pcb.sndbuf else 0,
             pcb.written, pcb.faults, pcb.recved, pcb.aborts)
    }

    /** A step, as one sees it. */
    method Seen(s: Stimulus) returns (told: seq<Err>)
      requires Valid() && Rested()
      modifies this, tracker, client, pcb
      ensures Valid() && Rested() && Stepped(s, told)
      ensures Reaches(s, old(Look()), Look())
    {
      match s
      case Foreground(call) => told := SeenCall(call);
      case Received(payloads, err) => told := SeenData(payloads, err);
      case Polled => told := SeenPoll();
      case Acked(len) => told := SeenAck(len);
      case _ => told := Step(s);
    }

    method SeenPoll() returns (told: seq<Err>)
      requires Valid() && Rested()
      modifies this, tracker, client, pcb
      ensures Valid() && Rested() && Stepped(Polled, told)
      ensures Reaches(Polled, old(Look()), Look())
    {
      told := Step(Polled);
    }

    method SeenAck(len: nat) returns (told: seq<Err>)
      requires Valid() && Rested()
      modifies this, tracker, client, pcb
      ensures Valid() && Rested() && Stepped(Acked(len), told)
      ensures Reaches(Acked(len), old(Look()), Look())
    {
      told := Step(Acked(len));
    }

    method SeenCall(call: Call) returns (told: seq<Err>)
      requires Valid() && Rested()
      modifies this, tracker, client, pcb
      ensures Valid() && Rested() && Stepped(Foreground(call), told)
      ensures Reaches(Foreground(call), old(Look()), Look())
    {
      told := Step(Foreground(call));
    }

    method SeenData(payloads: seq<seq<byte>>, err: Err) returns (told: seq<Err>)
      requires Valid() && Rested()
      modifies this, tracker, client, pcb
      ensures Valid() && Rested() && Stepped(Received(payloads, err), told)
      ensures Reaches(Received(payloads, err), old(Look()), Look())
    {
      told := Step(Received(payloads, err));
    }

    /** The same, with the aborts of the foreground set apart, and those that the error callback has told of. */
    method Tally(s: Stimulus) returns (told: seq<Err>, foreground: nat, reported: nat)
      requires Valid() && Rested()
      modifies this, tracker, client, pcb
      ensures Valid() && Rested() && (client == null || client == old(client))
      ensures Quiet(s) && old(pcb.Clean()) ==> pcb.Clean()
      ensures NeverCloses(app) && !Closes(s) ==> KeptOver()
      ensures forall e :: e in told ==> e == Ok || e == Abrt
      ensures pcb.aborts == old(pcb.aborts) + multiset(told)[Abrt] + foreground + reported
      ensures multiset(told)[Abrt] > 0 ==> !Reported()
      ensures reported > 0 ==> Reported()
      ensures old(pcb.aborts) == 1 ==> pcb.armed == old(pcb.armed)
      ensures Reaches(s, old(Look()), Look())
    {
      var before := pcb.aborts;
      told := Seen(s);
      var made := pcb.aborts - before;
      foreground := if s.Foreground? then made else 0;
      reported := if !s.Foreground? && Reported() then made else 0;
      assert told == [] || told == [told[0]];
    }

    /** Reads the counters, if the client holds its control block. */
    method Count() returns (held: bool, c: Counters)
      requires Valid() && Rested()
      ensures held == Held()
      ensures held && pcb.Clean() ==> SendingAdds(c)
      ensures held ==> ReportsAdd(c, totals)
      ensures held && client.over == 0 ==> ReceivingAdds(c, totals)
    {
      held, c := client != null && client.pcb != null, Counters(0, 0, 0, 0, 0, 0, 0, 0);
      if held {
        c := Counters(|pcb.written|, pcb.acked, client.txUnacked, client.txUnsent, client.txAcked,
                      pcb.received, pcb.recved, client.rxAckLen);
      }
    }
  }

  /** A packet as lwIP delivers it. */
  method MakeChain(payloads: seq<seq<byte>>) returns (first: Pbuf?, ghost chain: seq<Pbuf>)
    ensures IsChain(first, chain, 0) && fresh(chain) && Payloads(chain, |chain|) == payloads
  {
    first, chain := null, [];
    for i := |payloads| downto 0
      invariant IsChain(first, chain, 0) && fresh(chain)
      invariant Payloads(chain, |chain|) == payloads[i..]
    {
      first := new Pbuf(payloads[i], first);
      chain := [first] + chain;
    }
  }

  function LengthOf(payloads: seq<seq<byte>>): nat {
    if payloads == [] then 0 else |payloads[0]| + LengthOf(payloads[1..])
  }

  lemma {:induction false} LengthRemaining(payloads: seq<seq<byte>>, chain: seq<Pbuf>, k: nat)
    requires k <= |chain| && Payloads(chain, |chain|) == payloads
    ensures Remaining(chain, k) == LengthOf(payloads[k..])
    decreases |chain| - k
  {
    if k < |chain| {
      LengthRemaining(payloads, chain, k + 1);
      assert payloads[k] == Payloads(chain, |chain|)[k] && payloads[k..][1..] == payloads[k + 1..];
    }
  }

  /** What lwIP, the application's foreground and the environment can do. */
  datatype Stimulus =
    | Connected(err: Err)
    | Failed(err: Err)
    | Acked(len: nat)
    | Polled
    | Received(payloads: seq<seq<byte>>, err: Err)
    | Foreground(call: Call)
    | Environment(tcpClose: Err, room: nat, faults: seq<Fault>, state: nat, now: u32)

  /** What one sees of a connection, of its client, if there is one, and of its control block. */
  datatype View = View(
    log: seq<Event>, callable: bool, connecting: bool, now: u32,
    client: bool, held: bool, closing: bool, busy: bool, sentAt: u32, heardAt: u32, ackTimeout: u32, rxTimeout: u32,
    unacked: u32, unsent: u32, unreported: u32, deferred: u32, space: nat,
    given: seq<byte>, faults: seq<Fault>, reopened: nat, aborts: nat)

  /** What a poll has to begin with. */
  function Polls(v: View): Event {
    if v.closing then OnDisconnect(false)
    else if v.busy && 0 < v.ackTimeout <= (v.now - v.sentAt) % M32 then OnTimeout
    else if v.rxTimeout > 0 && (v.rxTimeout * 1000) % M32 <= (v.now - v.heardAt) % M32 then OnDisconnect(false)
    else OnPoll
  }

  /** What a call of the foreground does to a client. */
  ghost predicate Does(call: Call, v: View, v': View) {
    match call
    case Write(data) => v.held && v.faults == [] ==> v'.given == v.given + data[..Min(|data|, v.space)]
    case Add(data) => v.held && v.faults == [] ==> v'.given == v.given + data[..Min(|data|, v.space)]
    case Send => v.held && v.faults == [] ==> v'.unsent == 0 && v'.unacked == (v.unacked + v.unsent) % M32
    case Ack(len) => v.held ==> v'.reopened == v.reopened + Min(len, v.deferred)
    case Close(immediately) => if immediately then v.held ==> !v'.held && !v'.callable else v'.closing
    case Abort => v.held ==> v'.aborts == v.aborts + 1
    case Delete => !v'.client
    case _ => v'.client
  }

  /** What lwIP has to tell, as long as it may, reaches the callback that is for it; and calls do what they should. */
  ghost predicate Reaches(s: Stimulus, v: View, v': View) {
    match s
    case Connected(err) =>
      v.callable && v.connecting ==> Grew(v.log, if err == Ok then OnConnect else OnError(err), v'.log)
    case Failed(err) => if v.callable then Grew(v.log, OnError(err), v'.log) && !v'.callable else v'.log == v.log
    case Acked(len) =>
      v.callable && !v.connecting ==>
        if (v.unacked - len) % M32 != 0 then v'.log == v.log
        else Grew(v.log, OnAck((v.unreported + len) % M32), v'.log)
    case Polled =>
      v.callable && !v.connecting ==> Grew(v.log, Polls(v), v'.log)
    case Received(payloads, err) =>
      v.callable && !v.connecting ==>
        if err != Ok || payloads == [] then !v'.callable
        else
          var before, after := Summary(v.log).offered, Summary(v'.log).offered;
          before <= after <= before + payloads
          && (v'.client ==> after == before + payloads && v'.heardAt == v.now)
    case Foreground(call) => v.client && !(v.connecting && call == Delete) ==> Does(call, v, v')
    case Environment(_, _, faults, _, now) => v'.now == now && v'.faults == faults && v'.log == v.log
  }

  /** `s` makes no tcp_output fail. */
  predicate Quiet(s: Stimulus) {
    s.Environment? ==> OutputError !in s.faults
  }

  predicate Closes(s: Stimulus) {
    s.Foreground? && s.call.Close?
  }

  /** The counters of a client that holds its control block, and lwIP's counts for it. */
  datatype Counters = Counters(
    given: nat, acked: nat, unacked: u32, unsent: u32, unreported: u32, received: nat, reopened: nat, deferred: u32)

  /** Every byte given to lwIP is acknowledged, in flight or unsent. */
  predicate SendingAdds(c: Counters) {
    (c.given - c.acked - c.unacked - c.unsent) % M32 == 0
  }

  /** Every acknowledged byte has been reported to the ack callback or will be. */
  predicate ReportsAdd(c: Counters, t: Totals) {
    (c.acked - t.acked - c.unreported) % M32 == 0
  }

  /**
   * Every received byte went to a callback, and has opened the window, is deferred or belongs to the packet callback.
   */
  predicate ReceivingAdds(c: Counters, t: Totals) {
    c.received == t.bytes && (c.received - c.reopened - c.deferred - t.handed) % M32 == 0
  }

  /**
   * The whole life of one connection, under any application and any interleaving, with callbacks that send, close,
   * abort or delete; `abortReports` says whether tcp_abort calls an armed error callback. tcp_abort is called at most
   * once. One outside the foreground is answered by ERR_ABRT from the very callback that made it, unless lwIP has
   * called back for it, which is if it found the callbacks armed (`direct`, not through _close). No other callback
   * answers ERR_ABRT, nothing else but ERR_OK is ever answered, and the disconnect callback runs at most once. While
   * the client holds its control block, its counters add up with what the callbacks were told (`log`): sending as long
   * as no tcp_output fails, receiving as long as nobody calls close(). tcp_recved is never called on a control block
   * that has been given up if no data or packet callback gives it up; and abort() never goes on with a deleted client
   * if lwIP does not call back or no disconnect callback deletes the client. `views` are what one sees before, between
   * and after the stimuli, and each stimulus has the effect it should.
   */
  method Life(app: Program, abortReports: bool, accepted: bool, room: nat, stimuli: seq<Stimulus>, start: u32)
    returns (told: seq<Err>, aborts: nat, foreground: nat, direct: bool, log: seq<Event>, held: bool, c: Counters,
             strays: nat, dangling: nat, ghost views: seq<View>)
    requires Sane(app)
    ensures forall e :: e in told ==> e == Ok || e == Abrt
    ensures foreground <= aborts <= 1
    ensures multiset(told)[Abrt] == if abortReports && direct then 0 else aborts - foreground
    ensures multiset(log)[OnDisconnect(true)] + multiset(log)[OnDisconnect(false)] <= 1
    ensures held && (forall s :: s in stimuli ==> Quiet(s)) ==> SendingAdds(c)
    ensures held ==> ReportsAdd(c, Summary(log))
    ensures held && NeverCloses(app) && (forall s :: s in stimuli ==> !Closes(s)) ==> ReceivingAdds(c, Summary(log))
    ensures KeepsPcb(app) ==> strays == 0
    ensures !abortReports || KeepsClient(app) ==> dangling == 0
    // every stimulus reaches its callback, or does what the application called for
    ensures AllReached(stimuli, 0, views) && views[|stimuli|].log == log
    ensures if accepted then Grew([], OnConnect, views[0].log)
            else views[0].log == [] && views[0].callable && views[0].connecting
  {
    var b, first, early := Begin(app, abortReports, accepted, room, start);
    var t, reported;
    t, foreground, reported, views := Lives(b, stimuli, 0);
    told := first + t;
    assert multiset(told) == multiset(first) + multiset(t);
    aborts, log, direct, strays, dangling := b.pcb.aborts, b.log, b.pcb.armed, b.pcb.strays, b.dangling;
    held, c := b.Count();
    SummaryCounts(log);
  }

  /** A new connection has come up, or is to: the connect callback of a server has run. */
  method Begin(app: Program, abortReports: bool, accepted: bool, room: nat, start: u32)
    returns (b: Connection, told: seq<Err>, reported: nat)
    requires Sane(app)
    ensures b.Valid() && b.Rested() && b.app == app && b.abortReports == abortReports
    ensures fresh(b) && fresh(b.pcb) && fresh(b.tracker) && (b.client != null ==> fresh(b.client)) && b.pcb.Clean()
    ensures NeverCloses(app) && b.client != null ==> b.client.over == 0
    ensures forall e :: e in told ==> e == Ok || e == Abrt
    ensures b.pcb.aborts == multiset(told)[Abrt] + reported
    ensures (multiset(told)[Abrt] > 0 ==> !b.Reported()) && (reported > 0 ==> b.Reported())
    ensures if accepted then Grew([], OnConnect, b.log)
            else b.log == [] && b.Callable() && b.connecting
  {
    b := Born(app, abortReports, accepted, room, start);
    told, reported := [], 0;
    if accepted {
      var code := b.SAccept();
      told := [code];
      reported := if b.Reported() then b.pcb.aborts else 0;
    }
  }

  /** A new connection: accepted by a server, or one for which connect() has been called. */
  method Born(app: Program, abortReports: bool, accepted: bool, room: nat, start: u32) returns (b: Connection)
    requires Sane(app)
    ensures b.Valid() && b.Rested() && b.app == app && b.abortReports == abortReports && b.log == []
    ensures fresh(b) && fresh(b.pcb) && fresh(b.tracker) && b.client != null
    ensures fresh(b.client) && b.client.over == 0 && !b.client.packetCb
    ensures b.Engaged() && b.dangling == 0 && b.pcb.aborts == 0
    ensures b.pcb.Clean() && b.Callable() && b.connecting == !accepted
  {
    var pcb := new TcpPcb(room);
    if accepted {
      b := new Connection.Accepted(app, pcb, start, abortReports);
    } else {
      b := new Connection.Connecting(app, pcb, start, abortReports);
    }
  }

  /** The stimuli from the `i`-th on. */
  method Lives(b: Connection, stimuli: seq<Stimulus>, i: nat)
    returns (told: seq<Err>, foreground: nat, reported: nat, ghost views: seq<View>)
    requires i <= |stimuli| && b.Valid() && b.Rested()
    modifies b, b.tracker, b.client, b.pcb
    ensures b.Valid() && b.Rested() && (b.client == null || b.client == old(b.client))
    ensures (forall s :: s in stimuli ==> Quiet(s)) && old(b.pcb.Clean()) ==> b.pcb.Clean()
    ensures NeverCloses(b.app) && (forall s :: s in stimuli ==> !Closes(s)) ==> b.KeptOver()
    ensures forall e :: e in told ==> e == Ok || e == Abrt
    ensures b.pcb.aborts == old(b.pcb.aborts) + multiset(told)[Abrt] + foreground + reported
    ensures (multiset(told)[Abrt] > 0 ==> !b.Reported()) && (reported > 0 ==> b.Reported())
    ensures old(b.pcb.aborts) == 1 ==> b.pcb.armed == old(b.pcb.armed)
    ensures AllReached(stimuli, i, views) && views[0] == old(b.Look()) && views[|stimuli| - i] == b.Look()
    decreases |stimuli| - i
  {
    told, foreground, reported, views := [], 0, 0, [b.Look()];
    if i < |stimuli| {
      assert stimuli[i] in stimuli;
      told, foreground, reported := b.Tally(stimuli[i]);
      var t, f, r, later := Lives(b, stimuli, i + 1);
      assert multiset(told + t) == multiset(told) + multiset(t);
      ReachedMore(stimuli, i, views[0], later);
      told, foreground, reported, views := told + t, foreground + f, reported + r, views + later;
    }
  }

  /** Each stimulus, from the `i`-th on, has its effect. */
  ghost predicate AllReached(stimuli: seq<Stimulus>, i: nat, views: seq<View>) {
    && i <= |stimuli| && |views| == |stimuli| - i + 1
    && forall j :: 0 <= j < |stimuli| - i ==> ReachedAt(stimuli, i, views, j)
  }

  ghost predicate ReachedAt(stimuli: seq<Stimulus>, i: nat, views: seq<View>, j: nat)
    requires i + j < |stimuli| && j + 1 < |views|
  {
    Reaches(stimuli[i + j], views[j], views[j + 1])
  }

  lemma {:induction false} ReachedMore(stimuli: seq<Stimulus>, i: nat, v: View, views: seq<View>)
    requires i < |stimuli| && AllReached(stimuli, i + 1, views) && Reaches(stimuli[i], v, views[0])
    ensures AllReached(stimuli, i, [v] + views)
  {
    forall j | 0 <= j < |stimuli| - i
      ensures ReachedAt(stimuli, i, [v] + views, j)
    {
      if j > 0 {
        assert ReachedAt(stimuli, i + 1, views, j - 1);
        assert stimuli[(i + 1) + (j - 1)] == stimuli[i + j];
      }
    }
  }

  /** A data callback that aborts the connection and keeps the client makes _recv call lwIP once more. */
  method StrayCall(payload: seq<byte>) returns (strays: nat)
    ensures strays > 0
  {
    var app: Program := (h: seq<Event>) => if h != [] && h[|h| - 1].OnData? then [Abort] else [];
    var b := Born(app, false, true, 0, 0);
    assert ([] + [OnData(payload, false)])[0].OnData? && b.AbortsOn(payload);
    assert !KeepsPcbAt(app, [OnData(payload, false)]);
    strays := StrayOn(b, payload);
  }

  method StrayOn(b: Connection, payload: seq<byte>) returns (strays: nat)
    requires b.Valid() && b.Rested() && b.Engaged() && !b.connecting && b.AbortsOn(payload) && !KeepsPcb(b.app)
    modifies b, b.tracker, b.client, b.pcb
    ensures strays > 0
  {
    var first, chain := MakeChain([payload]);
    b.pcb.Deliver(|payload|);
    assert Payloads(chain, 1)[0] == payload && Remaining(chain, 1) == 0;
    var _ := b.ReceiveOne(first, chain, 0);
    strays := b.pcb.strays;
  }

  /** If tcp_abort calls back and the disconnect callback deletes the client, abort() goes on with what was deleted. */
  method DanglingAbort() returns (dangling: nat)
    ensures dangling == 1
  {
    var app: Program := (h: seq<Event>) => if h != [] && h[|h| - 1] == OnDisconnect(false) then [Delete] else [];
    var b := Born(app, true, true, 0, 0);
    assert DropsClient(app);
    b.Do(Abort);
    dangling := b.dangling;
  }
}
