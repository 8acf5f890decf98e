/** The transmit side of AsyncTCPbuffer, driven by write(), flush() and the client's callbacks. */
module TxBuffers {
  import opened Bytes
  import opened AsyncClients
  import opened TxChains

  /** The first `n` readings of the free heap are good enough for another buffer. */
  ghost predicate HeapLasts(freeHeap: nat -> nat, n: nat) {
    forall k :: 0 <= k < n ==> freeHeap(k) >= 4096
  }

  lemma {:induction false} HeapGoesOn(freeHeap: nat -> nat, n: nat)
    requires HeapLasts(freeHeap, n) && freeHeap(n) >= 4096
    ensures HeapLasts(freeHeap, n + 1)
  {
  }

  /** Sending with these failures to come lets a tcp_output fail before something goes out or memory runs out. */
  predicate OutputFails(faults: seq<Fault>) {
    faults != [] && (faults[0] == OutputError || (faults[0] == WriteError && OutputFails(faults[1..])))
  }

  class TxBuffer {
    var client: AsyncClient?
    const tx: TxChain
    /** lwIP's side, also after the client has let go of it. */
    const conn: TcpPcb
    /** Bytes that write() accepted, and bytes that the client reported as sent. */
    ghost var accepted: seq<byte>
    ghost var sent: seq<byte>

    /** What lwIP was given is what was reported as sent, plus the bytes of failed outputs. */
    ghost predicate Handed()
      reads this, conn
    {
      && |conn.written| >= |sent| + conn.failedOutputs && conn.acked <= |conn.written|
      && (conn.failedOutputs == 0 ==> conn.written == sent)
    }

    /** A client that is still there sends on this connection, and its counters add up. */
    ghost predicate Attached()
      reads this, client, conn
    {
      client != null ==>
        (client.pcb == null || client.pcb == conn) && client.Usable() && client.txUnsent == 0 && client.TxAccounted()
    }

    /** Every accepted byte has been sent or waits in the chain, once and in order. */
    ghost predicate Books(growing: bool)
      reads this, tx, tx.repr, client, conn
    {
      && tx.Linked(growing)
      && accepted == sent + tx.Queued()
      && Handed() && Attached()
    }

    ghost predicate Valid()
      reads this, tx, tx.repr, client, conn
    {
      Books(false)
    }

    constructor (client: AsyncClient, conn: TcpPcb, mss: nat)
      requires 2 <= mss < 0x1_0000
      requires client.pcb == conn && conn.live && client.txUnsent == 0
      requires conn.written == [] && conn.acked == conn.failedOutputs == 0
      requires client.TxAccounted()
      ensures Valid() && fresh(tx) && fresh(tx.repr) && this.client == client && this.conn == conn && tx.mss == mss
      ensures accepted == sent == [] && tx.read == tx.write && tx.read.contents == []
    {
      this.client, this.conn := client, conn;
      tx := new TxChain(mss);
      accepted, sent := [], [];
    }

    /**
     * Stop and wait: nothing but what lwIP was given is in flight. Until an ack timeout strikes, the client is busy
     * exactly while bytes are in flight, at most one buffer of them. The timeout ends the waiting and asks for a
     * close; until that happens one more buffer can follow.
     */
    ghost predicate Paced()
      reads this, client, conn
    {
      client != null ==>
        && |conn.written| == conn.acked + client.txUnacked
        && if client.closePcb
           then client.txUnacked <= 2 * (tx.mss - 1) && (client.pcbBusy || client.txUnacked <= tx.mss - 1)
           else client.txUnacked <= tx.mss - 1 && client.pcbBusy == (client.txUnacked > 0)
    }

    /** Between the timeout and the request to close. */
    ghost predicate Struck()
      reads this, client, conn
    {
      client != null ==> |conn.written| == conn.acked + client.txUnacked && client.txUnacked <= tx.mss - 1
    }

    // ---- _sendBuffer -----------------------------------------------------------------------

    /** What sending keeps: the connection, its accounting, and stop-and-wait unless tcp_output fails. */
    twostate predicate SendFrame(now: u32)
      reads this, client, conn
    {
      && client == old(client) && conn.KeptBySending() && (client != null ==> client.Steady() && client.Stamped(now))
      && |conn.faults| <= |old(conn.faults)|
      && (old(conn.Clean() && Paced()) ==> Paced())
    }

    /** Nothing fails, and lwIP has room for a client that waits for nothing. */
    ghost predicate Free()
      reads this, client, conn
    {
      && client != null && client.pcb == conn && conn.state == ESTABLISHED && conn.sndbuf > 0 && !client.pcbBusy
      && conn.faults == []
    }

    /** The client cannot send. */
    predicate Blocked()
      reads this, client, if client == null then null else client.pcb
    {
      client == null || !client.Connected() || !client.CanSend()
    }

    /** Nothing has gone out, or was tried. */
    twostate predicate Untouched()
      reads this, client, conn
    {
      client == old(client) && unchanged(conn) && sent == old(sent) && (client != null ==> unchanged(client))
    }

    /** How much one `_sendBuffer` sends when nothing fails. */
    function Sendable(): nat
      reads this, tx, tx.read, client, if client == null then null else client.pcb
    {
      if Blocked() then 0 else Min(tx.read.Available(), client.Space())
    }

    /** `out` has gone to lwIP. */
    twostate predicate SentChunk(out: seq<byte>)
      requires client != null && old(client) == client
      reads this, client, conn
    {
      && client.pcbBusy && client.txUnacked == Add32(old(client.txUnacked), |out|)
      && conn.written == old(conn.written) + out && conn.sndbuf == old(conn.sndbuf) - |out|
      && conn.faults == old(conn.faults)
    }

    /** An attempt that sent `n` bytes counted the tcp_output that failed, if one did. */
    twostate predicate Counted(n: nat)
      reads this, conn
    {
      && (n > 0 ==> conn.failedOutputs == old(conn.failedOutputs) && !OutputFails(old(conn.faults)))
      && (n == 0 ==>
            if OutputFails(old(conn.faults)) && old(conn.faults)[0] == OutputError
            then conn.failedOutputs == old(conn.failedOutputs) + 1
            else conn.failedOutputs == old(conn.failedOutputs) && conn.sndbuf == old(conn.sndbuf)
                 && conn.written == old(conn.written) && OutputFails(conn.faults) == OutputFails(old(conn.faults)))
    }

    /** The attempt failed; if it was tcp_output that failed, lwIP has `out` all the same. */
    twostate predicate Forgotten(out: seq<byte>)
      reads conn
    {
      && old(conn.faults) != [] && conn.faults == old(conn.faults)[1..]
      && (old(conn.faults)[0] == OutputError ==>
            conn.written == old(conn.written) + out && conn.sndbuf == old(conn.sndbuf) - |out|)
    }

    /** Offers `out` to the client. */
    method Hand(out: seq<byte>, now: u32) returns (n: nat)
      requires client != null && client.pcb == conn && Attached()
      requires 0 < |out| <= client.Space() && |out| <= tx.mss - 1 < 0x1_0000 && !client.pcbBusy
      modifies client, conn
      ensures client.pcb == conn && Attached() && (n == 0 || n == |out|)
      ensures n > 0 ==> SentChunk(out)
      ensures n == 0 ==> |conn.faults| < |old(conn.faults)| && client.KeptIdle()
      ensures SendFrame(now) && Counted(n) && (n == 0 ==> Forgotten(out))
    {
      n := client.Write(out, now);
    }

    /** Offers `out` to the client and keeps the books about what lwIP got. */
    method Offer(out: seq<byte>, now: u32) returns (n: nat)
      requires client != null && client.pcb == conn && Attached() && Handed()
      requires 0 < |out| <= client.Space() && |out| <= tx.mss - 1 < 0x1_0000 && !client.pcbBusy
      modifies this`sent, client, conn
      ensures client.pcb == conn && Attached() && Handed()
      ensures n == 0 || n == |out|
      ensures sent == old(sent) + if n > 0 then out else []
      ensures n > 0 ==> SentChunk(out)
      ensures n == 0 ==> |conn.faults| < |old(conn.faults)| && client.KeptIdle()
      ensures SendFrame(now) && Counted(n) && (n == 0 ==> Forgotten(out))
    {
      n := Hand(out, now);
      if n > 0 {
        sent := sent + out;
      }
    }

    /** No heap for the copy that is to be sent: try later. */
    method TryLater(ghost now: u32)
      requires Valid() && conn.faults != []
      modifies conn`faults
      ensures Valid() && SendFrame(now) && conn.faults == old(conn.faults)[1..]
    {
      conn.faults := conn.faults[1..];
    }

    /** The client has taken the first `n` bytes of the head, and they are counted as sent. */
    method Confirm(n: nat)
      requires tx.Linked(false) && Handed() && Attached()
      requires 0 < n <= |tx.read.contents| && n <= |tx.Queued()| && accepted == sent + tx.Queued()[n..]
      modifies tx, tx.read
      ensures Valid() && ChainKept() && tx.Queued() == old(tx.Queued())[n..]
    {
      tx.DropSent(n);
    }

    /** One attempt: offers the client what the head holds, and drops what the client says it sent. */
    method SendHead(now: u32) returns (n: nat)
      requires Valid() && client != null && client.Connected() && client.CanSend() && tx.read.contents != []
      modifies this`sent, tx, tx.read, client, conn
      ensures Valid() && SendFrame(now) && ChainKept() && Counted(n)
      ensures SentPrefix(n)
      ensures n > 0 ==> n == old(Sendable()) && SentChunk(old(tx.Queued())[..n])
      ensures n == 0 ==> |conn.faults| < |old(conn.faults)| && client.KeptIdle() && tx.read == old(tx.read)
                         && tx.read.contents == old(tx.read.contents)
      ensures n == 0 ==> old(Sendable()) <= |old(tx.Queued())| && Forgotten(old(tx.Queued())[..old(Sendable())])
    {
      var available := Min(tx.read.Available(), client.Space());
      var out := tx.Peek(available);
      n := Offer(out, now);
      if n > 0 {
        MoveFront(old(sent), tx.Queued(), n);
        Confirm(n);
      } else {
        assert tx.Queued()[0..] == tx.Queued() && tx.Queued()[..0] == [];
      }
    }

    /** One turn of the sending loop: without heap for the copy it is put off until later. */
    method Attempt(now: u32) returns (n: nat, later: bool)
      requires Valid() && client != null && client.Connected() && client.CanSend() && tx.read.contents != []
      modifies this`sent, tx, tx.read, client, conn
      ensures Valid() && SendFrame(now) && ChainKept() && SentPrefix(n)
      ensures if later then conn.failedOutputs == old(conn.failedOutputs) && conn.written == old(conn.written)
                            && conn.sndbuf == old(conn.sndbuf)
              else Counted(n)
      ensures later <==> old(conn.faults) != [] && old(conn.faults)[0] == NoMemory
      ensures n > 0 ==> n == old(Sendable()) && SentChunk(old(tx.Queued())[..n])
      ensures n == 0 ==> |conn.faults| < |old(conn.faults)| && client.KeptIdle() && tx.read == old(tx.read)
                         && tx.read.contents == old(tx.read.contents)
      ensures n == 0 && !later ==>
                old(Sendable()) <= |old(tx.Queued())| && Forgotten(old(tx.Queued())[..old(Sendable())])
    {
      later := conn.faults != [] && conn.faults[0] == NoMemory;
      if later {
        n := 0;
        TryLater(now);
        assert tx.Queued()[0..] == tx.Queued() && tx.Queued()[..0] == [];
      } else {
        n := SendHead(now);
      }
    }

    /** Draining the chain never touches its tail pointer or adds a buffer. */
    twostate predicate ChainKept()
      reads tx
    {
      tx.write == old(tx.write) && tx.repr == old(tx.repr)
    }

    /** The front of the queue that one `_sendBuffer` sends when nothing fails. */
    ghost function Chunk(): seq<byte>
      requires tx.Linked(false)
      reads this, tx, tx.repr, client, if client == null then null else client.pcb
    {
      if Sendable() <= |tx.Queued()| then tx.Queued()[..Sendable()] else []
    }

    /** One tcp_output has been about to fail, and there is room for the chunk twice. */
    twostate predicate Repeating(n: nat)
      requires old(tx.Linked(false))
      reads this, conn
    {
      if n > 0 then conn.written == old(conn.written) + old(Chunk()) + old(Chunk())
      else if conn.faults == [OutputError] then conn.written == old(conn.written)
      else
        && conn.faults == [] && conn.written == old(conn.written) + old(Chunk())
        && conn.sndbuf == old(conn.sndbuf) - old(Sendable())
    }

    /** The first `n` bytes of the queue have gone out. */
    twostate predicate SentPrefix(n: nat)
      reads this, tx
    {
      && n <= |old(tx.Queued())| && tx.Queued() == old(tx.Queued())[n..]
      && sent == old(sent) + old(tx.Queued())[..n]
    }

    /** and unless a tcp_output failed, lwIP was given nothing else. */
    twostate predicate Given(n: nat)
      reads this, tx, conn
    {
      && n <= |old(tx.Queued())| && (old(conn.faults) == [] ==> conn.failedOutputs == old(conn.failedOutputs))
      && (conn.failedOutputs == old(conn.failedOutputs) ==>
            && conn.sndbuf == old(conn.sndbuf) - n
            && conn.written == if n > 0 then old(conn.written) + old(tx.Queued())[..n] else old(conn.written))
    }

    /** What `n` sent bytes, or none, mean for the client. */
    twostate predicate Answered(n: nat)
      reads this, client, conn
    {
      client != null && client == old(client) ==>
        if n > 0 then client.pcbBusy && client.txUnacked == Add32(old(client.txUnacked), n) else client.KeptIdle()
    }

    /** The sending loop: one chunk goes out; further attempts happen only after a failure. */
    method SendLoop(now: u32) returns (n: nat)
      requires Valid() && Sendable() > 0
      modifies this`sent, tx, tx.read, client, conn
      ensures Valid() && SendFrame(now) && ChainKept() && SentPrefix(n) && Answered(n) && n <= |old(tx.read.contents)|
      ensures old(conn.faults) == [] ==> n == old(Sendable())
      ensures Given(n)
      ensures n == 0 ==> |conn.faults| < |old(conn.faults)|
      ensures old(conn.faults) == [OutputError] && old(conn.sndbuf) >= 2 * old(Sendable()) ==>
                conn.written == old(conn.written) + old(Chunk()) + old(Chunk())
      ensures conn.failedOutputs > old(conn.failedOutputs) <==> OutputFails(old(conn.faults))
    {
      n := 0;
      while client.Connected() && client.Space() > 0 && tx.read.Available() > 0 && client.CanSend()
        invariant Valid() && SendFrame(now) && ChainKept() && client != null && SentPrefix(n) && Answered(n)
        invariant n > 0 ==> n <= |old(tx.read.contents)| && (old(conn.faults) == [] ==> n == old(Sendable()))
        invariant Given(n)
        invariant n == 0 ==> tx.read == old(tx.read) && tx.read.contents == old(tx.read.contents)
        invariant n == 0 ==> |conn.faults| < |old(conn.faults)|
                             || (conn.faults == old(conn.faults) && conn.sndbuf == old(conn.sndbuf))
        invariant old(conn.faults) == [OutputError] && old(conn.sndbuf) >= 2 * old(Sendable()) ==> Repeating(n)
        invariant if conn.failedOutputs > old(conn.failedOutputs) then OutputFails(old(conn.faults))
                  else if n > 0 then !OutputFails(old(conn.faults))
                  else conn.sndbuf == old(conn.sndbuf) && OutputFails(conn.faults) == OutputFails(old(conn.faults))
        decreases |conn.faults|, !client.pcbBusy
      {
        var later;
        n, later := Attempt(now);
        if later {
          return;
        }
      }
    }

    /** _sendBuffer */
    method SendBuffer(now: u32) returns (n: nat)
      requires Valid()
      modifies this`sent, tx, tx.read, client, conn
      ensures Valid() && SendFrame(now) && ChainKept() && SentPrefix(n) && Answered(n) && n <= |old(tx.read.contents)|
      ensures old(conn.faults) == [] ==> n == old(Sendable())
      ensures Given(n)
      ensures old(Sendable()) == 0 || old(Blocked()) ==> n == 0 && Untouched()
      // with nothing failing, what the head holds and lwIP has room for goes out, and the client waits for its answer
      ensures old(Free() && tx.read.contents != []) ==>
                n == Min(|old(tx.read.contents)|, old(conn.sndbuf)) > 0 && client.pcbBusy
      ensures old(Sendable()) > 0 && n == 0 ==> |conn.faults| < |old(conn.faults)|
      // after a failed tcp_output the chunk stays in the chain although lwIP has it, so it is sent a second time
      ensures old(conn.faults) == [OutputError] && old(conn.sndbuf) >= 2 * old(Sendable()) > 0 ==>
                conn.written == old(conn.written) + old(Chunk()) + old(Chunk())
      // the books stay exact unless there is something to send and tcp_output fails under it
      ensures conn.failedOutputs > old(conn.failedOutputs) <==> old(Sendable()) > 0 && OutputFails(old(conn.faults))
    {
      n := 0;
      if tx.read.Available() == 0 || client == null || !client.Connected() || !client.CanSend() {
        assert tx.Queued()[0..] == tx.Queued();
        return;
      }
      n := SendLoop(now);
    }

    // ---- write -----------------------------------------------------------------------------

    /** How much the head holds once the tail has been filled up from `len` more bytes. */
    function HeadAfter(len: nat): nat
      reads this, tx, tx.read
    {
      if tx.read == tx.write && |tx.read.contents| < tx.mss then Min(|tx.read.contents| + len, tx.mss - 1)
      else |tx.read.contents|
    }

    /** The first of the bytes that wait and of `data` have gone out: as many as the head then held, and fitted. */
    twostate predicate Begun(data: seq<byte>)
      reads this, tx, tx.read, client, conn
    {
      var all, k := old(tx.Queued()) + data, Min(old(HeadAfter(|data|)), old(conn.sndbuf));
      && 0 < k <= |all| && conn.written == old(conn.written) + all[..k]
      && client != null && client == old(client) && client.pcbBusy
    }

    /** Fills the tail. */
    method Append(data: seq<byte>, ghost growing: bool) returns (w: nat)
      requires Books(growing) && data != []
      modifies this`accepted, tx`parts, tx.write`contents
      ensures Valid() && w <= |data| && accepted == old(accepted) + data[..w] && Blocked() == old(Blocked())
      ensures w > 0 || (|old(tx.write.contents)| == tx.mss - 1)
      ensures tx.Queued() == old(tx.Queued()) + data[..w] && |tx.read.contents| == old(HeadAfter(|data|))
    {
      w := tx.Store(data, growing);
      accepted := accepted + data[..w];
    }

    /** Fills the tail and tries to send. */
    method StoreAndSend(data: seq<byte>, ghost growing: bool, now: u32) returns (w: nat)
      requires Books(growing) && data != []
      modifies this, tx, tx.repr, client, conn
      ensures Valid() && SendFrame(now) && ChainKept()
      ensures w <= |data| && accepted == old(accepted) + data[..w]
      ensures w > 0 || (|old(tx.write.contents)| == tx.mss - 1)
      ensures old(Blocked()) ==> Untouched()
      ensures old(Free()) ==> Begun(data)
    {
      w := Append(data, growing);
      ghost var q := tx.Queued();
      assert |tx.read.contents| <= |q|;
      var n := SendBuffer(now);
      assert old(Free()) ==> q[..n] == (old(tx.Queued()) + data)[..n];
    }

    /** Adds a new buffer to the chain, since there is more data. */
    method AddBuffer()
      requires Valid() && tx.write.Valid() && tx.write.Full()
      modifies tx, tx.repr
      ensures Books(true) && tx.write.contents == []
      ensures fresh(tx.repr - old(tx.repr)) && |tx.repr| == |old(tx.repr)| + 1
    {
      tx.Grow();
    }

    /**
     * One iteration: fills the tail, tries to send, and adds a buffer if there is more data; `stop` for want of heap.
     */
    method WriteSome(data: seq<byte>, ghost growing: bool, low: bool, now: u32) returns (w: nat, more: bool, stop: bool)
      requires Books(growing) && data != []
      modifies this, tx, tx.repr, client, conn
      ensures Books(more) && SendFrame(now) && fresh(tx.repr - old(tx.repr))
      ensures w <= |data| && accepted == old(accepted) + data[..w]
      ensures more ==> w < |data| && !low && tx.write.contents == []
      ensures stop ==> w < |data| && low
      ensures |tx.repr| == |old(tx.repr)| + if more then 1 else 0
      // nothing is stored only in a full tail, and then the tail is not full any more
      ensures !stop && w == 0 ==> |old(tx.write.contents)| == tx.mss - 1 > |tx.write.contents|
      ensures old(Blocked()) ==> Untouched()
      ensures old(Free()) ==> Begun(data)
    {
      w := StoreAndSend(data, growing, now);
      var full := tx.write.Full() && w < |data|;
      more, stop := full && !low, full && low;
      if more {
        AddBuffer();
      }
    }

    /**
     * Queues `data`, sending what can be sent on the way. `freeHeap(k)` is the k-th reading of the free heap.
     * Returns the length of the prefix that was accepted; `grown` is the number of buffers that were added.
     */
    method Write(data: seq<byte>, freeHeap: nat -> nat, now: u32) returns (n: nat, ghost grown: nat)
      requires Valid()
      modifies this, tx, tx.repr, client, conn
      ensures Valid() && SendFrame(now)
      ensures fresh(tx.repr - old(tx.repr))
      ensures n <= |data| && accepted == old(accepted) + data[..n]
      ensures old(client == null || !client.Connected()) ==> n == 0
      ensures old(Blocked()) ==> Untouched()
      // if the client is free to send, it sends at once
      ensures old(Free()) && data != [] ==> Begun(data)
      // every new buffer was preceded by a good reading of the free heap, and only a bad one stops the writing
      ensures |tx.repr| == |old(tx.repr)| + grown && HeapLasts(freeHeap, grown)
      ensures old(client != null && client.Connected()) && n < |data| ==> freeHeap(grown) < 4096
    {
      n, grown := 0, 0;
      assert data[..0] == [];
      if client == null || !client.Connected() || |data| == 0 {
        return;
      }
      var w, more, stop := WriteSome(data, false, freeHeap(0) < 4096, now);
      if stop {
        return w, 0;
      }
      n, grown := WriteRest(data, w, if more then 1 else 0, more, freeHeap, now);
    }

    /** The turns of the loop after the first, which has stored `first` bytes and added `before` buffers. */
    method WriteRest(data: seq<byte>, first: nat, before: nat, ghost growing: bool, freeHeap: nat -> nat, now: u32)
      returns (n: nat, ghost grown: nat)
      requires Books(growing) && first <= |data| && (growing ==> first < |data| && tx.write.contents == [])
      requires HeapLasts(freeHeap, before)
      modifies this, tx, tx.repr, client, conn
      ensures Valid() && SendFrame(now) && fresh(tx.repr - old(tx.repr))
      ensures first <= n <= |data| && accepted == old(accepted) + data[first..n]
      ensures old(Blocked()) ==> Untouched()
      ensures |tx.repr| + before == |old(tx.repr)| + grown && HeapLasts(freeHeap, grown)
      ensures n < |data| ==> freeHeap(grown) < 4096
    {
      n, grown := first, before;
      var readings := before;
      ghost var adding := growing;
      assert data[first..first] == [];
      while n < |data|
        invariant first <= n <= |data| && accepted == old(accepted) + data[first..n]
        invariant Books(adding) && SendFrame(now) && (adding ==> n < |data| && tx.write.contents == [])
        invariant fresh(tx.repr - old(tx.repr)) && |tx.repr| + before == |old(tx.repr)| + grown
        invariant old(Blocked()) ==> Untouched()
        invariant readings == grown && HeapLasts(freeHeap, grown)
        decreases |data| - n, |tx.write.contents| == tx.mss - 1
      {
        var w, more, stop := WriteSome(data[n..], adding, freeHeap(readings) < 4096, now);
        AppendSlice(old(accepted), data, first, n, w);
        n, adding := n + w, more;
        if stop {
          return;
        }
        if more {
          HeapGoesOn(freeHeap, grown);
          readings, grown := readings + 1, grown + 1;
        }
      }
    }

    // ---- Callbacks and the network ---------------------------------------------------------

    /** No close has been asked for, and the ack timer is not due at `now`. */
    ghost predicate OnTime(now: u32)
      reads this, client
    {
      client != null ==> !client.closePcb && !client.AckOverdue(now)
    }

    /** At `now` nobody asks for a close unless the ack timer was due, and the timer runs from the last send. */
    twostate predicate Punctual(now: u32)
      reads this, client
    {
      client != null && client == old(client) ==>
        client.ackTimeout == old(client.ackTimeout) && client.Stamped(now) && (old(OnTime(now)) ==> OnTime(now))
    }

    /** The callbacks keep what sending keeps, except that time passes and acknowledgements arrive. */
    twostate predicate CallbackFrame(now: u32)
      reads this, client, conn
    {
      && accepted == old(accepted) && conn.state == old(conn.state)
      && (client == null || client == old(client)) && |conn.written| >= |old(conn.written)|
      && Punctual(now)
      && (old(conn.Clean()) ==> conn.Clean())
      && (old(conn.faults) == [] ==> conn.faults == [])
    }

    /** The first half of _sent. */
    method Acked(len: nat, now: u32) returns (report: bool)
      requires Valid() && client != null && client.pcb == conn && conn.acked + len <= |conn.written|
      modifies client, conn`acked
      ensures Valid() && CallbackFrame(now) && client == old(client) && client.pcb == conn
      ensures conn.acked == old(conn.acked) + len && client.closePcb == old(client.closePcb)
      ensures conn.sndbuf == old(conn.sndbuf) && conn.faults == old(conn.faults)
      ensures report == (client.txUnacked == 0) && client.txUnacked == Sub32(old(client.txUnacked), len)
      ensures client.pcbBusy == (old(client.pcbBusy) && !report)
      ensures old(Paced()) ==> Paced()
    {
      report := client.SentBegin(len, now);
    }

    /** The second half of _sent, after the ack callback. */
    method Told(ghost now: u32)
      requires Valid() && client != null
      modifies client
      ensures Valid() && CallbackFrame(now) && client.pcb == old(client.pcb) && client.closePcb == old(client.closePcb)
      ensures old(Paced()) ==> Paced()
      ensures client.txAcked == 0 && client.reported == old(client.reported + client.txAcked)
      ensures client.txUnacked == old(client.txUnacked)
    {
      client.SentEnd(client.txAcked);
    }

    /** `len` bytes were acknowledged; if that is everything, the next chunk goes, as much as fits. */
    twostate predicate SentOn(len: nat, n: nat)
      requires old(client) != null
      reads this, tx, tx.read, client, conn
    {
      && client == old(client) && client.pcb == conn && client.closePcb == old(client.closePcb)
      && conn.acked == old(conn.acked) + len && conn.state == old(conn.state) && SentPrefix(n) && Given(n)
      && (old(conn.faults) == [] ==> conn.faults == [])
      && client.txUnacked == Add32(Sub32(old(client.txUnacked), len), n)
      && (old(Sub32(client.txUnacked, len)) == 0 ==> client.txAcked == 0)
      && (old(conn.faults) == [] && old(client.Connected()) && len == old(client.txUnacked) ==>
            n == Min(|old(tx.read.contents)|, old(conn.sndbuf)))
    }

    /** lwIP reports `len` acknowledged bytes: _sent, with the ack callback that _attachCallbacks installs. */
    method OnSent(len: nat, now: u32) returns (n: nat)
      requires Valid() && client != null && client.pcb == conn && conn.acked + len <= |conn.written|
      modifies this, tx, tx.repr, client, conn
      ensures Valid() && CallbackFrame(now) && tx.repr == old(tx.repr) && SentOn(len, n)
      ensures old(conn.Clean() && Paced()) ==> Paced()
    {
      n := 0;
      assert tx.Queued()[0..] == tx.Queued();
      var report := Acked(len, now);
      if report {
        n := GoOn(now);
      }
    }

    /** The ack callback sends, and the client has then told of what was acknowledged. */
    method GoOn(now: u32) returns (n: nat)
      requires Valid() && client != null && client.pcb == conn && !client.pcbBusy && client.txUnacked == 0
      modifies this, tx, tx.repr, client, conn
      ensures Valid() && CallbackFrame(now) && tx.repr == old(tx.repr) && SentPrefix(n) && Given(n)
      ensures client == old(client) && client.pcb == conn && client.closePcb == old(client.closePcb)
      ensures conn.acked == old(conn.acked) && client.txUnacked == n && n <= |old(tx.read.contents)|
      ensures client.txAcked == 0 && client.reported == old(client.reported + client.txAcked)
      ensures old(conn.Clean() && Paced()) ==> Paced()
      ensures old(conn.faults) == [] && old(client.Connected()) ==> n == Min(|old(tx.read.contents)|, old(conn.sndbuf))
    {
      n := SendBuffer(now);
      Told(now);
    }

    /** The timers of _poll. */
    method Tick(now: u32) returns (branch: PollBranch)
      requires Valid() && client != null
      modifies client
      ensures Valid() && CallbackFrame(now) && client.pcb == old(client.pcb)
      ensures client.txUnacked == old(client.txUnacked)
      ensures branch == old(client.Due(now))
      ensures old(Paced()) && branch == AckTimedOut ==> Struck()
      ensures old(Paced()) && (branch == Fine || branch == RxTimedOut) ==> Paced()
      ensures !client.closePcb && client.pcbBusy == (old(client.pcbBusy) && branch != AckTimedOut)
    {
      branch := client.PollStep(now);
    }

    /** The ack timeout callback asks for a close at the next poll. */
    method OnTimeout()
      requires Valid() && client != null
      modifies client, conn
      ensures Valid() && client == old(client) && client.closePcb && client.ackTimeout == old(client.ackTimeout)
      ensures client.pcb == old(client.pcb) && client.pcbBusy == old(client.pcbBusy)
      ensures client.pcbSentAt == old(client.pcbSentAt) && conn.failedOutputs == old(conn.failedOutputs)
      ensures conn.sndbuf == old(conn.sndbuf)
      ensures client.over == old(client.over) + if client.pcb != null then client.rxAckLen else 0
      ensures conn.written == old(conn.written) && conn.acked == old(conn.acked) && conn.faults == old(conn.faults)
      ensures conn.state == old(conn.state) && (old(conn.Clean()) ==> conn.Clean()) && (old(Struck()) ==> Paced())
    {
      client.CloseLater();
    }

    /**
     * A requested close, or a receive timer that has run out, is the end of the client. An ack timer that has run out
     * asks for a close. Otherwise the head is sent, as much as fits.
     */
    twostate predicate PolledOn(n: nat, now: u32)
      requires old(client) != null
      reads this, tx, tx.read, client, conn
    {
      && SentPrefix(n) && Given(n) && conn.acked == old(conn.acked)
      && if old(client.closePcb) then client == null && n == 0
         else if old(client.pcbBusy && 0 < client.ackTimeout <= (now - client.pcbSentAt) % M32) then
           && client == old(client) && client.pcb == old(client.pcb) && client.closePcb && !client.pcbBusy
           && n == 0 && conn.written == old(conn.written)
         else if old(client.RxOverdue(now)) then client == null && n == 0
         else
           && client == old(client) && client.pcb == old(client.pcb) && !client.closePcb
           && (old(Free()) ==> n == Min(|old(tx.read.contents)|, old(conn.sndbuf)))
    }

    /** The poll timer: _poll, with the poll and timeout callbacks that _attachCallbacks installs. */
    method OnPoll(now: u32) returns (n: nat)
      requires Valid() && client != null
      modifies this, tx, tx.repr, client, conn
      ensures Valid() && CallbackFrame(now) && tx.repr == old(tx.repr) && PolledOn(n, now)
      ensures old(conn.Clean() && Paced()) ==> Paced()
    {
      var branch := Tick(now);
      n := Follow(branch, now);
    }

    /** What the callbacks do that _poll has called. */
    method Follow(branch: PollBranch, now: u32) returns (n: nat)
      requires Valid() && client != null && !client.closePcb
      modifies this, tx, tx.repr, client, conn
      ensures Valid() && tx.repr == old(tx.repr) && SentPrefix(n) && Given(n) && accepted == old(accepted)
      ensures conn.acked == old(conn.acked) && conn.state == old(conn.state) && |conn.written| >= |old(conn.written)|
      ensures (old(conn.Clean()) ==> conn.Clean()) && (old(conn.faults) == [] ==> conn.faults == [])
      ensures branch == CloseRequested || branch == RxTimedOut ==> client == null && n == 0
      ensures branch == AckTimedOut ==>
                && client == old(client) && client.pcb == old(client.pcb) && client.closePcb
                && client.ackTimeout == old(client.ackTimeout) && client.pcbBusy == old(client.pcbBusy)
                && client.pcbSentAt == old(client.pcbSentAt)
                && n == 0 && conn.written == old(conn.written) && (old(Struck()) ==> Paced())
      ensures branch == Fine ==>
                && SendFrame(now) && client != null && !client.closePcb
                && (old(Free()) ==> n == Min(|old(tx.read.contents)|, old(conn.sndbuf)))
    {
      n := 0;
      assert tx.Queued()[0..] == tx.Queued();
      match branch
      case CloseRequested => OnDisconnect();
      case RxTimedOut => OnDisconnect();
      case AckTimedOut => OnTimeout();
      case Fine =>
        if !tx.read.Empty() {
          n := SendBuffer(now);
        }
    }

    /** The disconnect callback: the client is gone. */
    method OnDisconnect()
      requires Valid()
      modifies this`client
      ensures Valid() && client == null && (old(Paced()) ==> Paced())
    {
      client := null;
    }

    /** What an event of lwIP comes to. */
    twostate predicate Delivered(e: NetEvent, n: nat, now: u32)
      requires old(conn.acked <= |conn.written|)
      reads this, tx, tx.read, client, conn
    {
      match e
      case Sent(len) =>
        old(client != null && client.pcb == conn) ==> SentOn(Min(len, old(|conn.written| - conn.acked)), n)
      case Polled => old(client) != null ==> PolledOn(n, now)
      case Conditions(room, faults, state) => conn.sndbuf == room && conn.faults == faults && conn.state == state
      case Gone => client == null
    }

    /** What lwIP does between the foreground's steps. */
    method Deliver(e: NetEvent, now: u32) returns (n: nat)
      requires Valid()
      modifies this, tx, tx.repr, client, conn
      ensures Valid() && WaitFrame(Harmless(e), now) && Delivered(e, n, now)
    {
      n := 0;
      match e
      case Sent(len) =>
        if client != null && client.pcb == conn {
          n := OnSent(Min(len, |conn.written| - conn.acked), now);
        }
      case Polled =>
        if client != null {
          n := OnPoll(now);
        }
      case Conditions(room, faults, state) =>
        conn.sndbuf, conn.faults, conn.state := room, faults, state;
      case Gone => OnDisconnect();
    }

    // ---- flush -----------------------------------------------------------------------------

    /** What waiting for lwIP keeps; `harmless` if none of its events makes tcp_output fail. */
    twostate predicate WaitFrame(harmless: bool, now: u32)
      reads this, tx, client, conn
    {
      && accepted == old(accepted) && tx.repr == old(tx.repr)
      && (client == null || client == old(client)) && Punctual(now) && |conn.written| >= |old(conn.written)|
      && (harmless && old(conn.Clean()) ==> conn.Clean() && (old(Paced()) ==> Paced()))
    }

    /**
     * Nothing fails, and the events to come acknowledge everything in flight. They are more than there are bytes
     * waiting, or nothing waits for them; and lwIP has room for all of these bytes.
     */
    ghost predicate Flowing(schedule: seq<NetEvent>)
      reads this, tx, client, conn
    {
      && Paced() && Calm() && conn.sndbuf > |tx.Queued()|
      && (|schedule| > |tx.Queued()| || (tx.Queued() == [] && !client.pcbBusy))
      && forall i :: 0 <= i < |schedule| ==> schedule[i].Sent? && schedule[i].len >= tx.mss - 1
    }

    /** Delivers the next event. */
    method Next(schedule: seq<NetEvent>, used: nat, ghost harmless: bool, now: u32)
      requires Valid() && used < |schedule| && (harmless ==> AllHarmless(schedule))
      modifies this, tx, tx.repr, client, conn
      ensures Valid() && WaitFrame(harmless, now)
      ensures old(Flowing(schedule[used..])) ==> Flowing(schedule[used + 1..])
    {
      assert schedule[used] in schedule && schedule[used..][0] == schedule[used];
      assert schedule[used..][1..] == schedule[used + 1..];
      EmptyEnds(tx.parts, tx.mss - 1);
      var _ := Deliver(schedule[used], now);
    }

    /** Lets lwIP run, one event at a time, while the client is connected but cannot send. */
    method Wait(schedule: seq<NetEvent>, ghost harmless: bool, now: u32) returns (used: nat)
      requires Valid() && (harmless ==> AllHarmless(schedule))
      modifies this, tx, tx.repr, client, conn
      ensures Valid() && WaitFrame(harmless, now)
      ensures used <= |schedule|
      ensures used < |schedule| ==> client == null || !client.Connected() || client.CanSend()
      ensures used == 0 ==> tx.Queued() == old(tx.Queued()) && conn.faults == old(conn.faults)
      ensures old(Flowing(schedule)) ==> Flowing(schedule[used..]) && client.CanSend()
    {
      used := 0;
      assert schedule[0..] == schedule;
      while client != null && client.Connected() && !client.CanSend() && used < |schedule|
        invariant used <= |schedule|
        invariant Valid() && WaitFrame(harmless, now)
        invariant used == 0 ==> tx.Queued() == old(tx.Queued()) && conn.faults == old(conn.faults)
        invariant old(Flowing(schedule)) ==> Flowing(schedule[used..])
      {
        Next(schedule, used, harmless, now);
        used := used + 1;
      }
    }

    /** The test of flush's loop, which looks at the tail only, says whether anything waits. */
    method Waits() returns (waits: bool)
      requires Valid()
      ensures waits <==> tx.Queued() != []
    {
      EmptyEnds(tx.parts, tx.mss - 1);
      waits := !tx.write.Empty();
    }

    /** One turn of flush: waits, then sends. Unless flush stops here, something has become less. */
    method Turn(schedule: seq<NetEvent>, ghost harmless: bool, now: u32) returns (rest: seq<NetEvent>, more: bool)
      requires Valid() && tx.Queued() != [] && (harmless ==> AllHarmless(schedule))
      modifies this, tx, tx.repr, client, conn
      ensures Valid() && WaitFrame(harmless, now)
      ensures |rest| <= |schedule| && (harmless ==> AllHarmless(rest))
      ensures more && |rest| == |schedule| ==>
                |tx.Queued()| < |old(tx.Queued())|
                || (|tx.Queued()| == |old(tx.Queued())| && |conn.faults| < |old(conn.faults)|)
      ensures !more && client != null && client.Connected() ==> rest == [] && !client.CanSend()
      ensures old(Flowing(schedule)) ==> more && Flowing(rest)
    {
      var used := Wait(schedule, harmless, now);
      rest, more := schedule[used..], client != null && client.Connected() && client.CanSend();
      if more {
        SendWaiting(rest, harmless, now);
      }
    }

    /** Something waits perhaps, and the client can send. */
    method SendWaiting(ghost rest: seq<NetEvent>, ghost harmless: bool, now: u32)
      requires Valid() && client != null && client.Connected() && client.CanSend()
      modifies this, tx, tx.repr, client, conn
      ensures Valid() && WaitFrame(harmless, now)
      ensures old(tx.Queued()) != [] ==>
                |tx.Queued()| < |old(tx.Queued())|
                || (|tx.Queued()| == |old(tx.Queued())| && |conn.faults| < |old(conn.faults)|)
      ensures old(Flowing(rest)) ==> Flowing(rest)
    {
      EmptyEnds(tx.parts, tx.mss - 1);
      var _ := SendBuffer(now);
    }

    /**
     * Waits until everything has gone out. `schedule` is what lwIP does at each delay(0) of the waiting loop;
     * `returned` is false if flush is still waiting when the schedule ends.
     */
    method Flush(schedule: seq<NetEvent>, now: u32) returns (returned: bool)
      requires Valid()
      modifies this, tx, tx.repr, client, conn
      ensures Valid() && WaitFrame(AllHarmless(schedule), now)
      ensures returned && client != null && client.Connected() ==> tx.Queued() == []
      ensures !returned ==> client != null && client.Connected() && !client.CanSend()
      // it does return, with everything sent, if the connection goes on working
      ensures old(Flowing(schedule)) ==> returned && tx.Queued() == [] && client != null && client.Connected()
    {
      ghost var harmless := AllHarmless(schedule);
      var rest, more := schedule, true;
      var waits := Waits();
      while waits
        invariant Valid() && WaitFrame(harmless, now) && (harmless ==> AllHarmless(rest))
        invariant waits == (tx.Queued() != [])
        invariant old(Flowing(schedule)) ==> Flowing(rest)
        decreases |rest|, |tx.Queued()|, |conn.faults|
      {
        rest, more := Turn(rest, harmless, now);
        if !more {
          return client == null || !client.Connected();
        }
        waits := Waits();
      }
      returned := true;
    }

    /** What one sees of it. */
    ghost function Look(): View
      reads this, tx, tx.read, client, conn
    {
      var q, h, s := tx.Queued(), |tx.read.contents|, tx.read == tx.write;
      if client == null || client.pcb != conn then
        View(false, false, false, 0, 0, 0, 0, 0, q, h, s,
             conn.written, conn.acked, conn.sndbuf, conn.faults, conn.state, conn.failedOutputs)
      else
        View(true, client.pcbBusy, client.closePcb, client.txUnacked, client.pcbSentAt, client.rxLastPacket,
             client.ackTimeout, client.rxSinceTimeout, q, h, s,
             conn.written, conn.acked, conn.sndbuf, conn.faults, conn.state, conn.failedOutputs)
    }

    /** No close has been asked for, and what is in flight was sent at one of the first `i` moments. */
    ghost predicate SentBy(clock: nat -> u32, i: nat)
      reads this, client
    {
      client != null ==>
        !client.closePcb && (client.pcbBusy ==> exists j :: 0 <= j < i && client.pcbSentAt == clock(j))
    }

    /** On a clock that is fast enough nobody asks for a close. */
    ghost predicate Unhurried(clock: nat -> u32, n: nat)
      reads this, client
    {
      client != null ==> Swift(clock, n, client.ackTimeout)
    }

    lemma {:induction false} StillOnTime(clock: nat -> u32, i: nat, n: nat)
      requires SentBy(clock, i) && i < n && Unhurried(clock, n)
      ensures OnTime(clock(i))
    {
    }

    /** An event of lwIP as a step. */
    method ActNet(e: NetEvent, now: u32)
      requires Valid()
      modifies this, tx, tx.repr, client, conn
      ensures Valid() && WaitFrame(Harmless(e), now)
      ensures Does(Net(e), now, tx.mss, old(Look()), Look(), [])
    {
      if e.Polled? {
        ActPoll(now);
      } else {
        var n := Deliver(e, now);
      }
    }

    /** A poll as a step. */
    method ActPoll(now: u32)
      requires Valid()
      modifies this, tx, tx.repr, client, conn
      ensures Valid() && WaitFrame(true, now)
      ensures Does(Net(Polled), now, tx.mss, old(Look()), Look(), [])
    {
      var n := Deliver(Polled, now);
    }

    /** write() as a step. */
    method ActWrite(data: seq<byte>, freeHeap: nat -> nat, now: u32) returns (taken: seq<byte>)
      requires Valid()
      modifies this, tx, tx.repr, client, conn
      ensures Valid() && SendFrame(now) && fresh(tx.repr - old(tx.repr)) && accepted == old(accepted) + taken
      ensures taken <= data && Does(DoWrite(data, freeHeap), now, tx.mss, old(Look()), Look(), taken)
    {
      var n, _ := Write(data, freeHeap, now);
      taken := data[..n];
      if forall k :: freeHeap(k) >= 4096 {
        assert old(client != null && client.Connected()) ==> n == |data|;
      }
    }

    /** One step of the foreground or of lwIP; returns the bytes that write() accepted. */
    method Act(a: Action, now: u32) returns (taken: seq<byte>)
      requires Valid()
      modifies this, tx, tx.repr, client, conn
      ensures Valid() && accepted == old(accepted) + taken && fresh(tx.repr - old(tx.repr))
      ensures TakenOf(a, taken)
      ensures client == null || client == old(client)
      ensures Quiet(a) && old(conn.Clean()) ==> conn.Clean() && (old(Paced()) ==> Paced())
      ensures Punctual(now) && |conn.written| >= |old(conn.written)|
      ensures Does(a, now, tx.mss, old(Look()), Look(), taken)
    {
      taken := [];
      match a
      case DoWrite(data, freeHeap) => taken := ActWrite(data, freeHeap, now);
      case DoFlush(schedule) =>
        var _ := Flush(schedule, now);
      case Net(event) => ActNet(event, now);
    }

    /** The step at the `i`-th of `n` moments. */
    method ActAt(a: Action, clock: nat -> u32, i: nat, ghost n: nat) returns (taken: seq<byte>)
      requires Valid() && i < n
      modifies this, tx, tx.repr, client, conn
      ensures Valid() && accepted == old(accepted) + taken && fresh(tx.repr - old(tx.repr)) && TakenOf(a, taken)
      ensures client == null || (client == old(client) && client.ackTimeout == old(client.ackTimeout))
      ensures Quiet(a) && old(conn.Clean()) ==> conn.Clean() && (old(Paced()) ==> Paced())
      ensures |conn.written| >= |old(conn.written)|
      ensures Does(a, clock(i), tx.mss, old(Look()), Look(), taken)
      ensures old(SentBy(clock, i) && Unhurried(clock, n)) ==> SentBy(clock, i + 1)
    {
      if SentBy(clock, i) && Unhurried(clock, n) {
        StillOnTime(clock, i, n);
      }
      taken := Act(a, clock(i));
    }

    // ---- What it adds up to ----------------------------------------------------------------

    /**
     * Exactly once and in order: what write() accepted is what lwIP was given followed by what waits in the
     * chain. This holds exactly as long as no tcp_output has failed.
     */
    lemma {:induction false} ExactlyOnce()
      requires Valid()
      ensures accepted == conn.written + tx.Queued() <==> conn.failedOutputs == 0
    {
      if conn.failedOutputs > 0 {
        assert |conn.written + tx.Queued()| > |sent + tx.Queued()|;
      }
    }

    /** What the buffer has come to. */
    method Outcome() returns (given: seq<byte>, drained: bool, inFlight: int, attached: bool, closing: bool)
      requires Valid()
      ensures given == conn.written && (drained <==> tx.Queued() == []) && inFlight == |given| - conn.acked
      ensures attached == (client != null) && closing == (attached && client.closePcb)
      ensures conn.failedOutputs == 0 ==> accepted == given + tx.Queued()
      ensures conn.failedOutputs == 0 ==> given <= accepted && (drained ==> given == accepted)
      ensures Paced() && attached ==> 0 <= inFlight <= (if closing then 2 else 1) * (tx.mss - 1)
    {
      ExactlyOnce();
      EmptyEnds(tx.parts, tx.mss - 1);
      given, drained, inFlight := conn.written, tx.read.Empty(), |conn.written| - conn.acked;
      attached, closing := client != null, client != null && client.closePcb;
    }

    /** The connection is up, no close has been asked for and nothing is about to fail. */
    ghost predicate Calm()
      reads this, client, conn
    {
      && client != null && client.pcb == conn && conn.state == ESTABLISHED && !client.closePcb
      && conn.faults == [] && conn.failedOutputs == 0
    }

    /** Bytes are in flight, or the next poll at `now` finds no timer expired. */
    ghost predicate Moving(now: u32)
      requires client != null
      reads this, client
    {
      client.txUnacked > 0 || client.Due(now) == Fine
    }

    /** One round trip: everything in flight is acknowledged, or the poll timer fires if nothing is. */
    method Round(room: nat, now: u32) returns (n: nat)
      requires Valid() && Paced() && Calm() && room > 0 && Moving(now)
      modifies this, tx, tx.repr, client, conn
      ensures Valid() && Paced() && Calm() && client == old(client)
      ensures accepted == old(accepted) && tx.repr == old(tx.repr)
      ensures n == Min(|old(tx.read.contents)|, room) == client.txUnacked
      ensures |tx.Queued()| == |old(tx.Queued())| - n && (old(tx.Queued()) != [] ==> n > 0)
    {
      EmptyEnds(tx.parts, tx.mss - 1);
      conn.sndbuf := room;
      if client.txUnacked > 0 {
        n := OnSent(client.txUnacked, now);
      } else {
        n := OnPoll(now);
      }
    }

    /**
     * With room in every round, the queue drains: in at most as many rounds as it holds bytes. `clock(k)` is the time
     * of the k-th round. No timer may have expired when the first poll comes; later ones find bytes in flight.
     */
    method Drain(rooms: nat -> nat, clock: nat -> u32) returns (rounds: nat)
      requires Valid() && Paced() && Calm() && (forall k :: rooms(k) > 0) && Moving(clock(0))
      modifies this, tx, tx.repr, client, conn
      ensures Valid() && Paced() && Calm()
      ensures accepted == old(accepted) && conn.written == accepted && tx.Queued() == []
      ensures rounds <= |old(tx.Queued())|
    {
      rounds := 0;
      while !tx.read.Empty()
        invariant Valid() && Paced() && Calm() && client == old(client)
        invariant accepted == old(accepted) && tx.repr == old(tx.repr)
        invariant rounds + |tx.Queued()| <= |old(tx.Queued())|
        invariant client.txUnacked > 0 || Moving(clock(rounds))
        decreases |tx.Queued()|
      {
        EmptyEnds(tx.parts, tx.mss - 1);
        var _ := Round(rooms(rounds), clock(rounds));
        rounds := rounds + 1;
      }
      EmptyEnds(tx.parts, tx.mss - 1);
      ExactlyOnce();
    }
  }

  /**
   * Why exactly-once needs tcp_output to succeed: `x` is written while lwIP has no room, room comes, and the one
   * failure that is due makes lwIP get it twice.
   */
  method SendTwice(x: byte, mss: nat) returns (accepted: seq<byte>, given: seq<byte>)
    requires 2 <= mss < 0x1_0000
    ensures accepted == [x] && given == [x, x]
  {
    var b := FullPipe(x, mss);
    accepted := [x];
    b.conn.sndbuf := 2;
    ghost var c := b.Chunk();
    EmptyEnds(b.tx.parts, mss - 1);
    assert c == [x];
    var _ := b.SendBuffer(0);
    given := b.conn.written;
    assert [] + c + c == [x, x];
  }

  /**
   * Two buffers in flight. `x` and `y` are queued, in buffers of one byte; `x` goes out and is not acknowledged. The
   * ack timeout strikes and asks for a close, and before the poll that closes, the next attempt sends `y` as well.
   */
  method TwoInFlight(x: byte, y: byte) returns (given: seq<byte>, inFlight: int, closing: bool)
    ensures given == [x, y] && inFlight == 2 && closing
  {
    var b := Queue([x, y], 2);
    b.conn.sndbuf := 2;
    given, inFlight, closing := SendFirst(b, x, y);
  }

  method SendFirst(b: TxBuffer, x: byte, y: byte) returns (given: seq<byte>, inFlight: int, closing: bool)
    requires b.Valid() && b.tx.mss == 2 && b.tx.Queued() == b.accepted == [x, y]
    requires b.conn.written == [] && b.conn.acked == 0 && b.conn.faults == [] && b.conn.failedOutputs == 0
    requires b.client != null && b.client.pcb == b.conn && b.conn.state == ESTABLISHED && b.conn.sndbuf == 2
    requires !b.client.pcbBusy && !b.client.closePcb && b.client.ackTimeout == 5000
    modifies b, b.tx, b.tx.repr, b.client, b.conn
    ensures given == [x, y] && inFlight == 2 && closing
  {
    EmptyEnds(b.tx.parts, 1);
    var n := b.SendBuffer(0);
    given, inFlight, closing := Strike(b, x, y);
  }

  /** The ack timer is due, and the poll that finds it so asks for a close. */
  method Strike(b: TxBuffer, x: byte, y: byte) returns (given: seq<byte>, inFlight: int, closing: bool)
    requires b.Valid() && b.tx.mss == 2 && b.tx.Queued() == [y] && b.accepted == [x, y]
    requires b.conn.acked == 0 && b.conn.faults == [] && b.conn.failedOutputs == 0
    requires b.client != null && b.client.pcb == b.conn && b.conn.state == ESTABLISHED
    requires b.client.pcbBusy && !b.client.closePcb && b.client.ackTimeout == 5000
    modifies b, b.tx, b.tx.repr, b.client, b.conn
    ensures given == [x, y] && inFlight == 2 && closing
  {
    var n := b.OnPoll(Add32(b.client.pcbSentAt, 5000));
    given, inFlight, closing := SendSecond(b, x, y);
  }

  method SendSecond(b: TxBuffer, x: byte, y: byte) returns (given: seq<byte>, inFlight: int, closing: bool)
    requires b.Valid() && b.tx.mss == 2 && b.tx.Queued() == [y] && b.accepted == [x, y]
    requires b.conn.acked == 0 && b.conn.faults == [] && b.conn.failedOutputs == 0
    requires b.client != null && b.client.pcb == b.conn && b.conn.state == ESTABLISHED
    requires !b.client.pcbBusy && b.client.closePcb
    modifies b, b.tx, b.tx.repr, b.client, b.conn
    ensures given == [x, y] && inFlight == 2 && closing
  {
    b.conn.sndbuf := 1;
    EmptyEnds(b.tx.parts, 1);
    var n := b.SendBuffer(0);
    b.ExactlyOnce();
    given, inFlight, closing := b.conn.written, |b.conn.written| - b.conn.acked, b.client.closePcb;
  }

  /** Everything is queued while lwIP has no room. */
  method Queue(data: seq<byte>, mss: nat) returns (b: TxBuffer)
    requires 2 <= mss < 0x1_0000
    ensures fresh(b) && fresh(b.client) && fresh(b.conn) && fresh(b.tx) && fresh(b.tx.repr) && b.tx.mss == mss
    ensures b.Valid() && b.accepted == data == b.tx.Queued()
    ensures b.conn.written == [] && b.conn.faults == [] && b.conn.acked == 0
    ensures b.client != null && b.client.pcb == b.conn && b.conn.state == ESTABLISHED && b.conn.failedOutputs == 0
    ensures !b.client.pcbBusy && !b.client.closePcb && b.client.ackTimeout == 5000 && b.client.txUnacked == 0
  {
    var conn := new TcpPcb(0);
    var client := new AsyncClient(conn, 0);
    b := new TxBuffer(client, conn, mss);
    var n, _ := b.Write(data, _ => 4096, 0);
    assert data[..n] == data && [] + data == data;
  }

  /** write() accepts `x` although lwIP has no room; the next tcp_output will fail. */
  method FullPipe(x: byte, mss: nat) returns (b: TxBuffer)
    requires 2 <= mss < 0x1_0000
    ensures fresh(b) && fresh(b.client) && fresh(b.conn) && fresh(b.tx) && fresh(b.tx.repr) && b.tx.mss == mss
    ensures b.Valid() && b.accepted == [x] == b.tx.Queued() && b.conn.written == [] && b.conn.faults == [OutputError]
    ensures b.client != null && b.client.pcb == b.conn && b.conn.state == ESTABLISHED && !b.client.pcbBusy
  {
    var conn := new TcpPcb(0);
    conn.faults := [OutputError];
    var client := new AsyncClient(conn, 0);
    b := new TxBuffer(client, conn, mss);
    var n, _ := b.Write([x], _ => 4096, 0);
    assert [x][..n] == [x] && [] + [x] == [x];
  }

  /**
   * An event from lwIP: bytes acknowledged, the poll timer, new conditions (room in its queue, failures to
   * come, connection state), or the loss of the connection.
   */
  datatype NetEvent =
    | Sent(len: nat)
    | Polled
    | Conditions(room: nat, faults: seq<Fault>, state: nat)
    | Gone

  /** `e` does not make tcp_output fail. */
  predicate Harmless(e: NetEvent) {
    e.Conditions? ==> OutputError !in e.faults
  }

  predicate AllHarmless(schedule: seq<NetEvent>) {
    forall e :: e in schedule ==> Harmless(e)
  }

  datatype Action =
    | DoWrite(data: seq<byte>, freeHeap: nat -> nat)
    | DoFlush(schedule: seq<NetEvent>)
    | Net(event: NetEvent)

  /** What one sees of a buffer, its client, if that is `attached`, and lwIP's side of the connection. */
  datatype View = View(
    attached: bool, busy: bool, closing: bool, inFlight: u32,
    sentAt: u32, heardAt: u32, ackTimeout: u32, rxTimeout: u32,
    queued: seq<byte>, head: nat, single: bool,
    given: seq<byte>, acked: nat, room: nat, faults: seq<Fault>, state: nat, failures: nat)

  /** Nothing fails, and lwIP has room for a client that waits for nothing. */
  predicate FreeView(v: View) {
    v.attached && v.state == ESTABLISHED && v.room > 0 && !v.busy && v.faults == []
  }

  /** The ack timer is due. */
  predicate Late(v: View, now: u32) {
    v.busy && 0 < v.ackTimeout <= (now - v.sentAt) % M32
  }

  /** The receive timer, in seconds, is due. */
  predicate Silent(v: View, now: u32) {
    v.rxTimeout > 0 && (v.rxTimeout * 1000) % M32 <= (now - v.heardAt) % M32
  }

  /** The first `k` bytes of `q` have gone out. */
  predicate Sends(v: View, q: seq<byte>, k: nat, v': View) {
    k <= |q| && v'.given == if k > 0 then v.given + q[..k] else v.given
  }

  /** Nothing fails, all that is in flight and all that waits will be acknowledged in turn, and there is room for it. */
  predicate FlowingView(v: View, mss: nat, schedule: seq<NetEvent>) {
    && v.attached && v.state == ESTABLISHED && !v.closing && v.faults == [] && v.failures == 0
    && |v.given| == v.acked + v.inFlight && v.inFlight < mss && v.busy == (v.inFlight > 0) && v.room > |v.queued|
    && |schedule| > |v.queued| && forall i :: 0 <= i < |schedule| ==> schedule[i].Sent? && schedule[i].len >= mss - 1
  }

  /** What an action does, as one sees it. */
  ghost predicate Does(a: Action, now: u32, mss: nat, v: View, v': View, taken: seq<byte>) {
    match a
    // a write by a client that is free to send sends at once, as much as the head can hold and lwIP has room for
    case DoWrite(data, _) =>
      && (v.attached ==> v'.attached)
      && (FreeView(v) && data != [] ==>
            var head := if v.single && v.head < mss then Min(v.head + |data|, mss - 1) else v.head;
            v'.busy && |v'.given| > |v.given| && Sends(v, v.queued + data, Min(head, v.room), v'))
      && (v.attached && v.state == ESTABLISHED && (forall k :: a.freeHeap(k) >= 4096) ==> taken == data)
      && (!v.attached || v.state != ESTABLISHED ==> taken == [])
    // a flush returns with everything sent, if the connection goes on working
    case DoFlush(schedule) => FlowingView(v, mss, schedule) ==> v'.attached && v'.queued == []
    // once everything is acknowledged, the next bytes go
    case Net(Sent(len)) =>
      v.attached && v.acked <= |v.given| ==>
        var k := Min(len, |v.given| - v.acked);
        && v'.attached && v'.acked == v.acked + k
        && (v.faults == [] && v.state == ESTABLISHED && k == v.inFlight ==> Sends(v, v.queued, Min(v.head, v.room), v'))
    // a poll ends a connection that is to be closed or has been silent, or asks for a close, or sends
    case Net(Polled) =>
      v.attached ==>
        if v.closing then !v'.attached
        else if Late(v, now) then v'.attached && v'.closing && v'.given == v.given
        else if Silent(v, now) then !v'.attached
        else v'.attached && !v'.closing && (FreeView(v) ==> Sends(v, v.queued, Min(v.head, v.room), v'))
    case Net(Conditions(room, faults, state)) => v'.room == room && v'.faults == faults && v'.state == state
    case Net(Gone) => !v'.attached
  }

  /** Nothing in `a` makes tcp_output fail. */
  predicate Quiet(a: Action) {
    match a
    case DoWrite(_, _) => true
    case DoFlush(schedule) => AllHarmless(schedule)
    case Net(event) => Harmless(event)
  }

  /** Writing accepts a prefix of what is written, and nothing else accepts anything. */
  predicate TakenOf(a: Action, taken: seq<byte>) {
    if a.DoWrite? then taken <= a.data else taken == []
  }

  /** No two of the first `n` moments, in order, are as far apart as the timeout allows; none is too far without one. */
  ghost predicate Swift(clock: nat -> u32, n: nat, timeout: u32) {
    timeout == 0 || forall j, i :: 0 <= j <= i < n ==> (clock(i) - clock(j)) % M32 < timeout
  }

  /**
   * Any interleaving of write, flush, poll, acknowledgements, timeouts and loss of the connection. As long as no
   * tcp_output fails, what lwIP was given is a prefix of what write() accepted, all of it once the chain is empty;
   * at most one buffer is in flight until an ack timeout strikes and a close is due, and never more than two. No
   * timeout strikes before its time. `views` are what one sees before, between and after the actions, and each action
   * does what it should.
   */
  method TransmitSession(mss: nat, room: nat, ackTimeout: u32, actions: seq<Action>, clock: nat -> u32)
    returns (taken: seq<seq<byte>>, given: seq<byte>, drained: bool, inFlight: int, attached: bool, closing: bool,
             ghost views: seq<View>)
    requires 2 <= mss < 0x1_0000
    ensures |taken| == |actions| && forall i :: 0 <= i < |actions| ==> TakenOf(actions[i], taken[i])
    ensures (forall a :: a in actions ==> Quiet(a)) ==>
              given <= Concat(taken) && (drained ==> given == Concat(taken))
    ensures (forall a :: a in actions ==> Quiet(a)) && attached ==>
              0 <= inFlight <= (if closing then 2 else 1) * (mss - 1)
    ensures ackTimeout == 0 && attached ==> !closing
    // if all of it takes less time than the timeout, nobody asks for a close
    ensures (forall j, i :: 0 <= j <= i < |actions| ==> (clock(i) - clock(j)) % M32 < ackTimeout) && attached ==>
              !closing
    // every action does its work
    ensures AllDone(actions, 0, clock, mss, views, taken) && Fresh(views[0], room, ackTimeout)
    ensures var last := views[|actions|];
            && given == last.given && (drained <==> last.queued == [])
            && (last.attached ==> attached && closing == last.closing)
    // so the first write sends
    ensures actions != [] && actions[0].DoWrite? ==> |given| >= Min(Min(|actions[0].data|, mss - 1), room)
  {
    var b := Connect(mss, room, ackTimeout, clock);
    taken, views := Acts(b, actions, 0, clock);
    assert [] + Concat(taken) == Concat(taken);
    given, drained, inFlight, attached, closing := b.Outcome();
    if actions != [] && actions[0].DoWrite? {
      FirstWrite(actions, clock, mss, views, taken, room, ackTimeout);
      assert views[1] in views;
    }
  }

  lemma {:induction false} FirstWrite(actions: seq<Action>, clock: nat -> u32, mss: nat, views: seq<View>,
                                      taken: seq<seq<byte>>, room: nat, ackTimeout: u32)
    requires AllDone(actions, 0, clock, mss, views, taken) && Fresh(views[0], room, ackTimeout)
    requires mss >= 2 && actions != [] && actions[0].DoWrite?
    ensures |views[1].given| >= Min(Min(|actions[0].data|, mss - 1), room)
  {
    assert DoneAt(actions, 0, clock, mss, views, taken, 0);
  }

  /** Each action, from the `i`-th on, does what it should. */
  ghost predicate AllDone(actions: seq<Action>, i: nat, clock: nat -> u32, mss: nat, views: seq<View>,
                          taken: seq<seq<byte>>) {
    && i <= |actions| && |taken| == |actions| - i && |views| == |taken| + 1
    && forall j :: 0 <= j < |taken| ==> DoneAt(actions, i, clock, mss, views, taken, j)
  }

  ghost predicate DoneAt(actions: seq<Action>, i: nat, clock: nat -> u32, mss: nat, views: seq<View>,
                         taken: seq<seq<byte>>, j: nat)
    requires i + j < |actions| && j < |taken| && j + 1 < |views|
  {
    && Does(actions[i + j], clock(i + j), mss, views[j], views[j + 1], taken[j])
    && |views[j].given| <= |views[j + 1].given|
  }

  /** Nothing has happened yet. */
  predicate Fresh(v: View, room: nat, ackTimeout: u32) {
    && v.attached && !v.busy && !v.closing && v.ackTimeout == ackTimeout && v.queued == v.given == []
    && v.head == v.acked == v.failures == 0 && v.single && v.faults == [] && v.room == room && v.state == ESTABLISHED
  }

  /** A buffer on a new connection. */
  method Connect(mss: nat, room: nat, ackTimeout: u32, clock: nat -> u32) returns (b: TxBuffer)
    requires 2 <= mss < 0x1_0000
    ensures fresh(b) && fresh(b.client) && fresh(b.conn) && fresh(b.tx) && fresh(b.tx.repr) && b.tx.mss == mss
    ensures b.Valid() && b.Paced() && b.conn.Clean() && b.accepted == [] && b.SentBy(clock, 0)
    ensures b.client != null && b.client.ackTimeout == ackTimeout && b.conn.sndbuf == room && (room > 0 ==> b.Free())
    ensures Fresh(b.Look(), room, ackTimeout)
  {
    var conn := new TcpPcb(room);
    var client := new AsyncClient(conn, clock(0));
    client.ackTimeout := ackTimeout;
    b := new TxBuffer(client, conn, mss);
  }

  /** The actions from the `i`-th on. */
  method Acts(b: TxBuffer, actions: seq<Action>, i: nat, clock: nat -> u32)
    returns (taken: seq<seq<byte>>, ghost views: seq<View>)
    requires b.Valid() && i <= |actions|
    modifies b, b.tx, b.tx.repr, b.client, b.conn
    ensures b.Valid() && b.accepted == old(b.accepted) + Concat(taken)
    ensures b.client == null || (b.client == old(b.client) && b.client.ackTimeout == old(b.client.ackTimeout))
    ensures |taken| == |actions| - i && forall j :: 0 <= j < |taken| ==> TakenOf(actions[i + j], taken[j])
    ensures (forall a :: a in actions ==> Quiet(a)) && old(b.conn.Clean()) ==>
              b.conn.Clean() && (old(b.Paced()) ==> b.Paced())
    ensures AllDone(actions, i, clock, b.tx.mss, views, taken) && views[0] == old(b.Look())
    ensures views[|taken|] == b.Look() && forall v :: v in views ==> |v.given| <= |b.conn.written|
    ensures old(b.SentBy(clock, i) && b.Unhurried(clock, |actions|)) ==> b.SentBy(clock, |actions|)
    decreases |actions| - i
  {
    taken, views := [], [b.Look()];
    assert b.accepted + [] == b.accepted;
    if i < |actions| {
      assert actions[i] in actions;
      var part := b.ActAt(actions[i], clock, i, |actions|);
      var rest, later := Acts(b, actions, i + 1, clock);
      Assoc(old(b.accepted), part, Concat(rest));
      DoneMore(actions, i, clock, b.tx.mss, views[0], later, part, rest);
      taken, views := [part] + rest, views + later;
    }
  }

  lemma {:induction false} DoneMore(actions: seq<Action>, i: nat, clock: nat -> u32, mss: nat, v: View,
                                    views: seq<View>, part: seq<byte>, taken: seq<seq<byte>>)
    requires AllDone(actions, i + 1, clock, mss, views, taken) && |v.given| <= |views[0].given|
    requires i < |actions| && Does(actions[i], clock(i), mss, v, views[0], part)
    ensures AllDone(actions, i, clock, mss, [v] + views, [part] + taken)
  {
    forall j | 0 <= j <= |taken|
      ensures DoneAt(actions, i, clock, mss, [v] + views, [part] + taken, j)
    {
      if j > 0 {
        assert DoneAt(actions, i + 1, clock, mss, views, taken, j - 1);
        assert actions[(i + 1) + (j - 1)] == actions[i + j] && clock((i + 1) + (j - 1)) == clock(i + j);
      }
    }
  }
}
