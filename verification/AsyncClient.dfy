/** The connection object of ESPAsyncTCP: its byte counters, and the lwIP control block they talk about. */
module AsyncClients {
  import opened Bytes

  const ESTABLISHED := 4

  /** err_t */
  datatype Err = Ok | Abrt | Other(code: int)

  /** A failure that the next allocation or lwIP call of its kind will report. */
  datatype Fault = NoMemory | WriteError | OutputError

  /** lwIP's side of one connection. */
  class TcpPcb {
    var state: nat
    var sndbuf: nat
    /** Failures still to come, in the order in which they strike. */
    var faults: seq<Fault>
    /** How often tcp_output has failed. */
    var failedOutputs: nat
    /** Not yet closed or aborted. */
    var live: bool
    /** The callbacks point at the client. */
    var armed: bool
    /** Bytes given to tcp_write, and how many of them the peer has acknowledged. */
    var written: seq<byte>
    var acked: nat
    /** Bytes delivered to the client, bytes for which the window was opened again, and calls of tcp_abort. */
    var received: nat
    var recved: nat
    var aborts: nat
    /** Calls of tcp_recved after the control block was closed or aborted: lwIP may have freed it. */
    var strays: nat
    /** Bytes that were delivered and that no callback has been shown yet. */
    ghost var pending: nat

    constructor (sndbuf: nat)
      ensures state == ESTABLISHED && this.sndbuf == sndbuf && faults == [] && live && armed
      ensures written == [] && acked == received == recved == aborts == failedOutputs == strays == pending == 0
    {
      state, this.sndbuf, faults, live, armed := ESTABLISHED, sndbuf, [], true, true;
      written, acked, received, recved, aborts, failedOutputs, strays, pending := [], 0, 0, 0, 0, 0, 0, 0;
    }

    /** No tcp_output has failed, and none is about to. */
    predicate Clean()
      reads this
    {
      failedOutputs == 0 && OutputError !in faults
    }

    /** Sending touches nothing but the send queue. */
    twostate predicate KeptBySending()
      reads this
    {
      && state == old(state) && live == old(live) && armed == old(armed) && acked == old(acked)
      && received == old(received) && recved == old(recved) && aborts == old(aborts)
      && strays == old(strays) && pending == old(pending) && |written| >= |old(written)|
      && failedOutputs >= old(failedOutputs) && (old(Clean()) ==> Clean())
    }

    /** The receive window opened by `n`, and nothing else changed. */
    twostate predicate OnlyRecved(n: nat)
      reads this
    {
      && recved == old(recved) + n && state == old(state) && sndbuf == old(sndbuf) && faults == old(faults)
      && live == old(live) && armed == old(armed) && written == old(written) && acked == old(acked)
      && received == old(received) && aborts == old(aborts) && failedOutputs == old(failedOutputs)
      && strays == old(strays) && pending == old(pending)
    }

    method TcpWrite(data: seq<byte>) returns (ok: bool)
      requires live && |data| <= sndbuf
      modifies this`written, this`sndbuf, this`faults
      ensures ok == (WriteError !in old(faults)[..Min(1, |old(faults)|)])
      ensures ok ==> written == old(written) + data && sndbuf == old(sndbuf) - |data| && faults == old(faults)
      ensures !ok ==> written == old(written) && sndbuf == old(sndbuf) && faults == old(faults)[1..]
    {
      ok := faults == [] || faults[0] != WriteError;
      if ok {
        written, sndbuf := written + data, sndbuf - |data|;
      } else {
        faults := faults[1..];
      }
    }

    method TcpOutput() returns (ok: bool)
      requires live
      modifies this`faults, this`failedOutputs
      ensures ok == (OutputError !in old(faults)[..Min(1, |old(faults)|)])
      ensures faults == if ok then old(faults) else old(faults)[1..]
      ensures failedOutputs == old(failedOutputs) + if ok then 0 else 1
    {
      ok := faults == [] || faults[0] != OutputError;
      if !ok {
        faults, failedOutputs := faults[1..], failedOutputs + 1;
      }
    }

    /** `tcp_recved`: the receive window opens again by `n`. */
    method TcpRecved(n: nat)
      requires live
      modifies this`recved
      ensures recved == old(recved) + n
    {
      recved := recved + n;
    }

    /** `tcp_recved` by a caller that has not looked whether the control block is still there. */
    method TcpRecvedUnchecked(n: nat)
      modifies this`recved, this`strays
      ensures if live then recved == old(recved) + n && strays == old(strays)
              else recved == old(recved) && strays == old(strays) + 1
    {
      if live {
        TcpRecved(n);
      } else {
        strays := strays + 1;
      }
    }

    /** The network changes, and failures are due. */
    method Change(room: nat, due: seq<Fault>, now: nat)
      modifies this`sndbuf, this`faults, this`state
      ensures sndbuf == room && faults == due && state == now
    {
      sndbuf, faults, state := room, due, now;
    }

    /** lwIP delivers `n` bytes. */
    method Deliver(n: nat)
      modifies this`received, this`pending
      ensures received == old(received) + n && pending == old(pending) + n
    {
      received, pending := received + n, pending + n;
    }
  }

  datatype PollBranch = CloseRequested | AckTimedOut | RxTimedOut | Fine

  class AsyncClient {
    var pcb: TcpPcb?
    var pcbBusy: bool
    var pcbSentAt: u32
    var closePcb: bool
    var ackPcb: bool
    var txUnacked: u32
    var txAcked: u32
    var txUnsent: u32
    var rxAckLen: u32
    var rxLastPacket: u32
    var rxSinceTimeout: u32
    var ackTimeout: u32
    /** A packet callback is installed. */
    var packetCb: bool
    /** Bytes that lwIP kept although send() reported failure and forgot them. */
    ghost var lost: nat
    /** Total length reported to the ack callback. */
    ghost var reported: nat
    /** Bytes handed to the packet callback, which must acknowledge them itself. */
    ghost var handedOver: nat
    /** Bytes for which close() opened the window although ack() can open it again, since `rxAckLen` stays. */
    ghost var over: nat

    constructor (pcb: TcpPcb?, now: u32)
      ensures this.pcb == pcb && !pcbBusy && !closePcb && ackPcb
      ensures txUnacked == txAcked == txUnsent == rxAckLen == 0
      ensures rxSinceTimeout == 0 && ackTimeout == 5000 && !packetCb
      ensures lost == reported == handedOver == over == 0
    {
      this.pcb, pcbBusy, pcbSentAt, closePcb, ackPcb := pcb, false, 0, false, true;
      txUnacked, txAcked, txUnsent, rxAckLen := 0, 0, 0, 0;
      rxLastPacket, rxSinceTimeout, ackTimeout := if pcb == null then 0 else now, 0, 5000;
      packetCb := false;
      lost, reported, handedOver, over := 0, 0, 0, 0;
    }

    /**
     * Every byte given to lwIP is acknowledged, in flight, unsent, or was forgotten by a failed send(); and every
     * acknowledged byte has been reported or is counted for the next report.
     */
    ghost predicate TxAccounted()
      reads this, pcb
    {
      pcb != null ==>
        && (|pcb.written| - pcb.acked - txUnacked - txUnsent - lost) % M32 == 0
        && (pcb.failedOutputs == 0 ==> lost == 0)
        && (pcb.acked - reported - txAcked) % M32 == 0
    }

    /** The control block may still be used. */
    predicate Usable()
      reads this, pcb
    {
      pcb != null ==> pcb.live
    }

    /**
     * Bytes shown to the callbacks less those that have opened the window again, wait for ack(), or went to the packet
     * callback.
     */
    ghost function RxBalance(): int
      requires pcb != null
      reads this, pcb
    {
      pcb.received - pcb.pending - pcb.recved - rxAckLen - handedOver
    }

    /** The receive account is in order but for what close() opened twice. */
    ghost predicate RxAccounted()
      reads this, pcb
    {
      pcb != null ==> (RxBalance() + over) % M32 == 0
    }

    predicate Connected()
      reads this, pcb
    {
      pcb != null && pcb.state == ESTABLISHED
    }

    function Space(): nat
      reads this, pcb
    {
      if pcb != null && pcb.state == ESTABLISHED then pcb.sndbuf else 0
    }

    predicate CanSend()
      reads this, pcb
    {
      !pcbBusy && Space() > 0
    }

    /** Sending leaves the timers and the acknowledged counts alone. */
    twostate predicate Steady()
      reads this
    {
      && pcb == old(pcb) && closePcb == old(closePcb) && ackTimeout == old(ackTimeout)
      && rxSinceTimeout == old(rxSinceTimeout) && txAcked == old(txAcked) && reported == old(reported)
    }

    /** The ack timer runs from the last send, which may have been at `now`. */
    twostate predicate Stamped(now: u32)
      reads this
    {
      pcbBusy ==> pcbSentAt == now || (old(pcbBusy) && pcbSentAt == old(pcbSentAt))
    }

    /** Nothing went out. */
    twostate predicate KeptIdle()
      reads this
    {
      pcbBusy == old(pcbBusy) && txUnacked == old(txUnacked)
    }

    // ---- Sending ---------------------------------------------------------------------------

    /** Hands as much of `data` to lwIP as it has room for. */
    method Add(data: seq<byte>) returns (willSend: nat)
      requires Usable()
      modifies this`txUnsent, pcb
      ensures willSend <= Min(|data|, old(Space()))
      ensures willSend > 0 ==> willSend == Min(|data|, old(Space()))
      ensures willSend == 0 ==> txUnsent == old(txUnsent)
      ensures txUnsent == Add32(old(txUnsent), willSend)
      ensures pcb == null ==> willSend == 0
      ensures pcb != null ==>
                && pcb.written == old(pcb.written) + data[..willSend] && pcb.sndbuf == old(pcb.sndbuf) - willSend
                && pcb.KeptBySending() && pcb.failedOutputs == old(pcb.failedOutputs)
      ensures pcb != null && willSend == 0 && data != [] && old(Space()) > 0 ==>
                old(pcb.faults) != [] && pcb.faults == old(pcb.faults)[1..] && old(pcb.faults)[0] == WriteError
      ensures pcb != null && (willSend > 0 || data == [] || old(Space()) == 0) ==> pcb.faults == old(pcb.faults)
      ensures willSend > 0 ==> WriteError !in pcb.faults[..Min(1, |pcb.faults|)]
      ensures pcb != null && (data == [] || old(Space()) == 0) ==> unchanged(pcb)
      ensures old(TxAccounted()) ==> TxAccounted()
      ensures old(RxAccounted()) ==> RxAccounted()
    {
      assert data[..0] == [];
      if pcb == null || |data| == 0 {
        return 0;
      }
      var room := Space();
      if room == 0 {
        return 0;
      }
      willSend := Min(room, |data|);
      var ok := pcb.TcpWrite(data[..willSend]);
      if !ok {
        return 0;
      }
      Add32Balances(|old(pcb.written)| - pcb.acked - txUnacked - lost, txUnsent, willSend);
      txUnsent := Add32(txUnsent, willSend);
    }

    /** Asks lwIP to send what add() collected; on failure the collected length is forgotten. */
    method Send(now: u32) returns (ok: bool)
      requires pcb != null && Usable()
      modifies this`pcbBusy, this`pcbSentAt, this`txUnacked, this`txUnsent, this`lost, pcb`faults, pcb`failedOutputs
      ensures txUnsent == 0
      ensures ok ==> pcbBusy && pcbSentAt == now && txUnacked == Add32(old(txUnacked), old(txUnsent))
      ensures ok ==>
                lost == old(lost) && pcb.faults == old(pcb.faults) && OutputError !in pcb.faults[..Min(1, |pcb.faults|)]
      ensures !ok ==> pcbBusy == old(pcbBusy) && pcbSentAt == old(pcbSentAt) && txUnacked == old(txUnacked)
      ensures !ok ==> lost == old(lost) + old(txUnsent)
      ensures pcb.failedOutputs == old(pcb.failedOutputs) + if ok then 0 else 1
      ensures pcb.KeptBySending()
      ensures !ok ==> old(pcb.faults) != [] && old(pcb.faults)[0] == OutputError && pcb.faults == old(pcb.faults)[1..]
      ensures old(TxAccounted()) ==> TxAccounted()
      ensures old(RxAccounted()) ==> RxAccounted()
    {
      ghost var given := |pcb.written| - pcb.acked - lost;
      ok := pcb.TcpOutput();
      if ok {
        pcbBusy, pcbSentAt := true, now;
        Add32Balances(given - txUnsent, txUnacked, txUnsent);
        txUnacked := Add32(txUnacked, txUnsent);
      } else {
        lost := lost + txUnsent;
      }
      txUnsent := 0;
    }

    /** add() and send(); reports what was accepted, or 0 if either failed. */
    method Write(data: seq<byte>, now: u32) returns (n: nat)
      requires Usable()
      modifies this`pcbBusy, this`pcbSentAt, this`txUnacked, this`txUnsent, this`lost, pcb
      ensures n <= Min(|data|, old(Space()))
      ensures n > 0 ==> n == Min(|data|, old(Space()))
      ensures pcb != null ==> pcb.KeptBySending()
      ensures pcb == null ==> n == 0
      ensures n > 0 ==>
                && pcbBusy && txUnsent == 0 && lost == old(lost)
                && txUnacked == Add32(old(txUnacked), Add32(old(txUnsent), n))
                && pcb.written == old(pcb.written) + data[..n] && pcb.sndbuf == old(pcb.sndbuf) - n
                && pcb.faults == old(pcb.faults) && (pcb.faults == [] || pcb.faults[0] == NoMemory)
                && pcb.failedOutputs == old(pcb.failedOutputs)
      ensures n > 0 && old(txUnsent) == 0 && old(txUnacked) + n < M32 ==> txUnacked == old(txUnacked) + n
      ensures n == 0 ==> pcbBusy == old(pcbBusy) && txUnacked == old(txUnacked)
      ensures pcbSentAt == if n > 0 then now else old(pcbSentAt)
      ensures old(txUnsent) == 0 ==> txUnsent == 0
      // nothing accepted although there was room: one failure struck, and if it was tcp_output
      // that failed then lwIP has the bytes all the same
      ensures n == 0 && data != [] && old(Space()) > 0 ==>
                && old(pcb.faults) != [] && pcb.faults == old(pcb.faults)[1..]
                && match old(pcb.faults)[0]
                   case OutputError =>
                     var k := Min(|data|, old(Space()));
                     pcb.written == old(pcb.written) + data[..k] && pcb.sndbuf == old(pcb.sndbuf) - k
                     && lost == old(lost) + Add32(old(txUnsent), k) && txUnsent == 0
                     && pcb.failedOutputs == old(pcb.failedOutputs) + 1
                   case WriteError =>
                     pcb.written == old(pcb.written) && pcb.sndbuf == old(pcb.sndbuf)
                     && lost == old(lost) && txUnsent == old(txUnsent) && pcb.failedOutputs == old(pcb.failedOutputs)
                   case NoMemory => false
      ensures data == [] || old(Space()) == 0 ==> n == 0 && unchanged(this) && (pcb != null ==> unchanged(pcb))
      ensures old(TxAccounted()) ==> TxAccounted()
      ensures old(RxAccounted()) ==> RxAccounted()
    {
      n := Add(data);
      if n == 0 {
        return;
      }
      var ok := Send(now);
      if !ok {
        n := 0;
      }
    }

    // ---- _sent, around the ack callback ---------------------------------------------------------

    /** lwIP reports `len` acknowledged bytes; `report` asks for the ack callback. */
    method SentBegin(len: nat, now: u32) returns (report: bool)
      requires pcb != null
      modifies this`rxLastPacket, this`txUnacked, this`txAcked, this`pcbBusy, pcb`acked
      ensures pcb.acked == old(pcb.acked) + len
      ensures txUnacked == Sub32(old(txUnacked), len) && txAcked == Add32(old(txAcked), len)
      ensures report == (txUnacked == 0) && pcbBusy == (old(pcbBusy) && !report) && rxLastPacket == now
      ensures old(TxAccounted()) ==> TxAccounted()
      ensures old(RxAccounted()) ==> RxAccounted()
    {
      Sub32Balances(|pcb.written| - pcb.acked - txUnsent - lost, txUnacked, len);
      Add32Balances(pcb.acked - reported, txAcked, len);
      pcb.acked := pcb.acked + len;
      rxLastPacket := now;
      txUnacked := Sub32(txUnacked, len);
      txAcked := Add32(txAcked, len);
      report := txUnacked == 0;
      if report {
        pcbBusy := false;
      }
    }

    /** After the ack callback was told `told` bytes. */
    method SentEnd(ghost told: nat)
      modifies this`txAcked, this`reported
      ensures txAcked == 0 && reported == old(reported) + told
      ensures told == old(txAcked) && old(TxAccounted()) ==> TxAccounted()
      ensures old(RxAccounted()) ==> RxAccounted()
    {
      txAcked := 0;
      reported := reported + told;
    }

    // ---- Receiving -----------------------------------------------------------------------------

    /**
     * After the data callback took `len` bytes: open the window now, or let ack() do it later. The source calls lwIP
     * whether or not the callback has given up the control block.
     */
    method AfterData(p: TcpPcb, len: nat)
      requires (pcb == null || pcb == p) && Usable() && len <= p.pending
      modifies this`rxAckLen, p`recved, p`pending, p`strays
      ensures p.pending == old(p.pending) - len
      ensures p.recved == old(p.recved) + (if ackPcb && p.live then len else 0)
      ensures p.strays == old(p.strays) + (if ackPcb && !p.live then 1 else 0)
      ensures ackPcb ==> rxAckLen == old(rxAckLen)
      ensures !ackPcb ==> rxAckLen == Add32(old(rxAckLen), len)
      ensures !ackPcb && old(rxAckLen) + len < M32 ==> rxAckLen == old(rxAckLen) + len
      ensures old(RxAccounted()) ==> RxAccounted()
      ensures old(TxAccounted()) ==> TxAccounted()
    {
      p.pending := p.pending - len;
      if !ackPcb {
        Add32Balances(p.received - p.pending - len - p.recved - handedOver + over, rxAckLen, len);
        rxAckLen := Add32(rxAckLen, len);
      } else {
        p.TcpRecvedUnchecked(len);
      }
    }

    /** After `len` bytes went to the packet callback, which has to acknowledge them itself. */
    method AfterPacket(p: TcpPcb, ghost len: nat)
      requires (pcb == null || pcb == p) && len <= p.pending
      modifies this`handedOver, p`pending
      ensures p.pending == old(p.pending) - len && handedOver == old(handedOver) + len
      ensures old(RxAccounted()) ==> RxAccounted()
      ensures old(TxAccounted()) ==> TxAccounted()
    {
      p.pending, handedOver := p.pending - len, handedOver + len;
    }

    method AckLater()
      modifies this`ackPcb
      ensures !ackPcb
      ensures old(RxAccounted()) ==> RxAccounted()
      ensures old(TxAccounted()) ==> TxAccounted()
    {
      ackPcb := false;
    }

    /** Opens the window for at most `len` of the bytes whose acknowledgement was deferred. */
    method Ack(len: nat) returns (n: nat)
      requires pcb != null && Usable()
      modifies this`rxAckLen, pcb`recved
      ensures n == Min(len, old(rxAckLen)) && rxAckLen == old(rxAckLen) - n && pcb.recved == old(pcb.recved) + n
      ensures old(RxAccounted()) ==> RxAccounted()
      ensures old(TxAccounted()) ==> TxAccounted()
    {
      n := Min(len, rxAckLen);
      if n > 0 {
        pcb.TcpRecved(n);
      }
      rxAckLen := rxAckLen - n;
    }

    // ---- Closing and polling -------------------------------------------------------------------

    /** The part of abort() that concerns lwIP: at most one tcp_abort, since the control block is forgotten. */
    method AbortPcb()
      requires Usable()
      modifies this`pcb, pcb
      ensures pcb == null
      ensures old(pcb) != null ==>
                var p := old(pcb);
                && !p.live && p.aborts == old(pcb.aborts) + 1
                && p.armed == old(pcb.armed) && p.written == old(pcb.written) && p.received == old(pcb.received)
                && p.recved == old(pcb.recved) && p.acked == old(pcb.acked) && p.state == old(pcb.state)
                && p.faults == old(pcb.faults) && p.failedOutputs == old(pcb.failedOutputs)
                && p.strays == old(pcb.strays) && p.pending == old(pcb.pending)
    {
      if pcb != null {
        pcb.live, pcb.aborts := false, pcb.aborts + 1;
        pcb := null;
      }
    }

    /** close(false) */
    method CloseLater()
      requires Usable()
      modifies this`closePcb, this`over, pcb
      ensures closePcb && over == old(over) + if pcb != null then rxAckLen else 0
      ensures pcb != null ==> pcb.OnlyRecved(rxAckLen)
      ensures old(TxAccounted()) ==> TxAccounted()
      ensures old(RxAccounted()) ==> RxAccounted()
      // an account that was in order stays so exactly if nothing was deferred
      ensures pcb != null && old(RxBalance()) % M32 == 0 ==> (RxBalance() % M32 == 0 <==> rxAckLen == 0)
    {
      if pcb != null {
        ghost var balance := RxBalance();
        pcb.TcpRecved(rxAckLen);
        over := over + rxAckLen;
        assert RxBalance() == balance - rxAckLen;
        if balance % M32 == 0 {
          StaysEven(balance, rxAckLen);
        }
      }
      closePcb := true;
    }

    /** Something has waited for its acknowledgement for as long as the timeout allows. */
    predicate AckOverdue(now: u32)
      reads this
    {
      pcbBusy && 0 < ackTimeout <= (now - pcbSentAt) % M32
    }

    /** Nothing has come for as many seconds as the receive timeout allows, counted in milliseconds of 32 bits. */
    predicate RxOverdue(now: u32)
      reads this
    {
      rxSinceTimeout > 0 && (rxSinceTimeout * 1000) % M32 <= (now - rxLastPacket) % M32
    }

    /** What a poll at `now` has to do: a requested close comes first, then the timers. */
    ghost function Due(now: u32): PollBranch
      reads this
    {
      if closePcb then CloseRequested
      else if AckOverdue(now) then AckTimedOut
      else if RxOverdue(now) then RxTimedOut
      else Fine
    }

    /**
     * The timers on a clock that does not wrap: `d` milliseconds have passed since the last send at `t`, and `e` since
     * the last packet at `u`, fewer than 2^32 each.
     */
    lemma {:induction false} DueAfter(now: u32, t: nat, d: nat, u: nat, e: nat)
      requires d < M32 && pcbSentAt == t % M32 && now == (t + d) % M32
      requires e < M32 && rxLastPacket == u % M32 && now == (u + e) % M32
      // a requested close comes first
      ensures Due(now) == CloseRequested <==> closePcb
      // the ack timer never strikes while nothing is in flight, nor too early, and then always
      ensures !pcbBusy || ackTimeout == 0 || d < ackTimeout ==> Due(now) != AckTimedOut
      ensures !closePcb && pcbBusy && 0 < ackTimeout <= d ==> Due(now) == AckTimedOut
      // nor does the receive timer, which counts seconds
      ensures rxSinceTimeout == 0 || (rxSinceTimeout * 1000 < M32 && e < 1000 * rxSinceTimeout) ==>
                Due(now) != RxTimedOut
      ensures !closePcb && Due(now) != AckTimedOut && 0 < rxSinceTimeout && 1000 * rxSinceTimeout <= e ==>
                Due(now) == RxTimedOut
    {
      Elapsed(pcbSentAt, now, t, d);
      Elapsed(rxLastPacket, now, u, e);
    }

    /** Decides what _poll does; the caller closes or runs the callback. */
    method PollStep(now: u32) returns (b: PollBranch)
      modifies this`closePcb, this`pcbBusy
      ensures closePcb == false
      ensures b == old(Due(now))
      ensures pcbBusy == (old(pcbBusy) && b != AckTimedOut)
      ensures b == CloseRequested <==> old(closePcb)
      ensures b == AckTimedOut <==> !old(closePcb) && old(pcbBusy) && 0 < ackTimeout <= (now - pcbSentAt) % M32
      ensures b == RxTimedOut ==> rxSinceTimeout > 0 && (rxSinceTimeout * 1000) % M32 <= (now - rxLastPacket) % M32
    {
      if closePcb {
        closePcb := false;
        return CloseRequested;
      }
      if pcbBusy && ackTimeout != 0 && Sub32(now, pcbSentAt) >= ackTimeout {
        pcbBusy := false;
        return AckTimedOut;
      }
      if rxSinceTimeout != 0 && Sub32(now, rxLastPacket) >= (rxSinceTimeout * 1000) % M32 {
        return RxTimedOut;
      }
      b := Fine;
    }
  }
}
