/** The receive side of SyncClient: segments wait in a list, and the window opens again as they are used up. */
module SyncClients {
  import opened Bytes
  import opened AsyncClients
  import opened SegmentLists

  class SyncClient {
    var client: AsyncClient?
    const conn: TcpPcb
    const rx: SegmentList

    predicate Connected()
      reads this, client, conn, if client == null then null else client.pcb
    {
      client != null && client.Connected()
    }

    /**
     * Every byte received has opened the window again or is deferred, but for what close() opened twice; while
     * connected, acknowledgement of exactly `total` bytes is deferred.
     */
    ghost predicate Defers(total: int)
      reads this, client, conn
    {
      client != null ==>
        && (client.pcb == null || client.pcb == conn)
        && (client.pcb != null ==> conn.live && conn.received == Balance() + conn.pending)
        && (client.Connected() ==> client.rxAckLen == total)
    }

    /** While connected, the deferred acknowledgement is exactly the length of the segments in the list. */
    ghost predicate Valid()
      reads this, client, conn, rx, rx.repr
    {
      rx.Linked() && Defers(Sum(rx.lens))
    }

    /** Nothing was opened twice meanwhile. */
    twostate predicate KeptOver()
      reads this, client
    {
      client != null && client == old(client) ==> client.over == old(client.over)
    }

    constructor (client: AsyncClient, conn: TcpPcb)
      requires client.pcb == conn && client.rxAckLen == client.over == 0 && conn.received == conn.recved
      requires conn.live && conn.pending == 0
      ensures Valid() && fresh(rx) && fresh(rx.repr) && rx.NonEmpty() && rx.Stream() == []
      ensures this.client == client && this.conn == conn
    {
      this.client, this.conn := client, conn;
      rx := new SegmentList();
    }

    /** _onData with heap for a node. */
    method OnData(data: seq<byte>)
      requires Valid() && client != null
      modifies client`ackPcb, rx, rx.repr
      ensures rx.Linked() && Defers(Sum(rx.lens) - |data|) && !client.ackPcb && fresh(rx.repr - old(rx.repr))
      ensures rx.Stream() == old(rx.Stream()) + data
      ensures data != [] && old(rx.NonEmpty()) ==> rx.NonEmpty()
    {
      client.AckLater();
      rx.Append(data);
      SumSnoc(old(rx.lens), |data|);
    }

    /** _recv after the data callback: the bytes are deferred. */
    method Account(len: nat, ghost total: int)
      requires client != null && client.pcb == conn && Defers(total) && !client.ackPcb
      requires len <= conn.pending && client.rxAckLen + len < M32
      modifies client`rxAckLen, conn`recved, conn`pending, conn`strays
      ensures Defers(total + len) && client.rxAckLen == old(client.rxAckLen) + len
      ensures conn.recved == old(conn.recved) && conn.strays == old(conn.strays)
    {
      client.AfterData(conn, len);
    }

    /** lwIP delivers `n` bytes, and _recv is about to show them. */
    method Come(n: nat)
      requires Valid() && client != null
      modifies client`ackPcb, conn`received, conn`pending
      ensures Valid() && client.ackPcb && conn.received == old(conn.received) + n
      ensures conn.pending == old(conn.pending) + n
    {
      conn.Deliver(n);
      client.ackPcb := true;
    }

    /**
     * A segment arrives: AsyncClient::_recv around the data callback. The deferred bytes stay below 2^32, far
     * above any receive window.
     */
    method OnSegment(data: seq<byte>)
      requires Valid() && client != null && client.pcb == conn
      requires client.rxAckLen + |data| < M32 && |data| <= conn.pending
      modifies client`ackPcb, client`rxAckLen, conn`recved, conn`pending, conn`strays, rx, rx.repr
      ensures Valid() && fresh(rx.repr - old(rx.repr))
      ensures rx.Stream() == old(rx.Stream()) + data
      ensures conn.recved == old(conn.recved) && conn.strays == old(conn.strays)
      ensures client.rxAckLen == old(client.rxAckLen) + |data|
      ensures data != [] && old(rx.NonEmpty()) ==> rx.NonEmpty()
    {
      OnData(data);
      Account(|data|, Sum(rx.lens) - |data|);
    }

    /** The same without heap for a node: the data is lost, so the connection is aborted. */
    method OnSegmentLost(data: seq<byte>)
      requires Valid() && client != null && client.pcb == conn && |data| <= conn.pending
      modifies client, conn
      ensures Valid() && client.pcb == null && conn.aborts == old(conn.aborts) + 1 && KeptOver()
      ensures conn.strays == old(conn.strays)
    {
      client.AckLater();
      client.AbortPcb();
      client.AfterData(conn, |data|);
    }

    /** The ack timeout: the callback asks for a close, which opens the window by what is deferred. */
    method OnTimeout()
      requires Valid() && client != null
      modifies client, conn
      ensures Valid() && client.closePcb && Connected() == old(Connected())
      ensures client.over == old(client.over) + if old(client.pcb) != null then client.rxAckLen else 0
      ensures Connected() ==> Balance() == old(Balance())
    {
      client.CloseLater();
    }

    /** The disconnect callback. */
    method OnDisconnect()
      requires Valid()
      modifies this`client
      ensures Valid() && client == null
    {
      client := null;
    }

    /** The window opened so far, and what is still to be opened, but for what close() opened twice. */
    ghost function Balance(): int
      requires client != null
      reads this, client, conn
    {
      conn.recved + client.rxAckLen - client.over
    }

    /** available() */
    method Available() returns (a: nat)
      requires Valid()
      ensures a == |rx.Stream()|
    {
      a := rx.Available();
    }

    /** peek(): the next byte, or -1 */
    method Peek() returns (c: int)
      requires Valid()
      ensures c == if rx.nodes == [] || rx.parts[0] == [] then -1 else rx.Stream()[0]
      ensures rx.NonEmpty() ==> c == if rx.Stream() == [] then -1 else rx.Stream()[0]
    {
      assert rx.parts != [] ==> rx.Stream() == rx.parts[0] + Concat(rx.parts[1..]);
      if rx.head == null {
        return -1;
      }
      c := if rx.head.Empty() then -1 else rx.head.contents[0];
    }

    /** The window opens for `len` of the `total` bytes whose acknowledgement is deferred. */
    method AckUsed(len: nat, ghost total: nat)
      requires Defers(total) && len <= total
      modifies client, conn
      ensures Defers(total - len) && Connected() == old(Connected())
      ensures conn.received == old(conn.received) && KeptOver()
      ensures Connected() ==> conn.recved == old(conn.recved) + len && Balance() == old(Balance())
      ensures Connected() ==> client.rxAckLen == old(client.rxAckLen) - len
    {
      if Connected() {
        var n := client.Ack(len);
        assert n == len;
      }
    }

    /** Takes the whole first segment; its acknowledgement is still deferred. */
    method Unlink() returns (out: seq<byte>, len: nat)
      requires Valid() && rx.head != null
      modifies rx, rx.head
      ensures rx.Linked() && Defers(Sum(rx.lens) + len) && rx.repr == old(rx.repr) && |rx.nodes| == |old(rx.nodes)| - 1
      ensures old(rx.Stream()) == out + rx.Stream() && out == old(rx.head.contents) && old(rx.lens) == [len] + rx.lens
      ensures old(rx.NonEmpty()) ==> rx.NonEmpty()
    {
      out, len := rx.PopFront();
      SumCons(len, rx.lens);
    }

    /** Takes the whole first segment, and opens the window by its original length. */
    method TakeSegment() returns (out: seq<byte>)
      requires Valid() && rx.head != null
      modifies client, conn, rx, rx.head
      ensures Valid() && rx.repr == old(rx.repr) && |rx.nodes| == |old(rx.nodes)| - 1
      ensures old(rx.Stream()) == out + rx.Stream() && out == old(rx.head.contents)
      ensures Connected() == old(Connected()) && conn.received == old(conn.received) && KeptOver()
      ensures Connected() ==> conn.recved == old(conn.recved) + old(rx.lens)[0] && Balance() == old(Balance())
      ensures Connected() ==> client.rxAckLen <= old(client.rxAckLen)
      ensures old(rx.NonEmpty()) ==> rx.NonEmpty()
    {
      var len;
      out, len := Unlink();
      AckUsed(len, Sum(rx.lens) + len);
    }

    /** read(data, len): whole segments first, then part of the one that is left. */
    method Read(len: nat) returns (r: int, out: seq<byte>)
      requires Valid()
      modifies client, conn, rx, rx.repr
      ensures Valid() && rx.repr == old(rx.repr)
      ensures old(rx.nodes) == [] ==> r == -1 && out == [] && rx.Stream() == []
      ensures old(rx.nodes) != [] ==>
                && r == |out| == Min(len, |old(rx.Stream())|)
                && out == old(rx.Stream())[..r] && rx.Stream() == old(rx.Stream())[r..]
      ensures old(rx.NonEmpty()) ==> rx.NonEmpty()
      ensures Connected() == old(Connected()) && conn.received == old(conn.received) && KeptOver()
      ensures Connected() ==> Balance() == old(Balance()) && client.rxAckLen <= old(client.rxAckLen)
    {
      out := [];
      if rx.head == null {
        assert rx.Stream() == [];
        return -1, out;
      }
      while rx.head != null && len - |out| >= rx.head.Available()
        invariant Valid() && rx.repr == old(rx.repr) && |out| <= len
        invariant old(rx.Stream()) == out + rx.Stream()
        invariant old(rx.NonEmpty()) ==> rx.NonEmpty()
        invariant Connected() == old(Connected()) && conn.received == old(conn.received) && KeptOver()
        invariant Connected() ==> Balance() == old(Balance()) && client.rxAckLen <= old(client.rxAckLen)
        decreases |rx.nodes|
      {
        ghost var rest := rx.Stream();
        var piece := TakeSegment();
        TakeMore(old(rx.Stream()), out, rest, piece, rx.Stream());
        out := out + piece;
      }
      if rx.head != null && |out| < len {
        ghost var rest := rx.Stream();
        var piece := rx.ReadFront(len - |out|);
        TakeMore(old(rx.Stream()), out, rest, piece, rx.Stream());
        out := out + piece;
      }
      r := |out|;
      TakenIsPrefix(old(rx.Stream()), out, rx.Stream());
      if |out| < len {
        assert rx.parts == [];
      }
    }

    /** read(): the byte that peek() shows, and the stream moves on. */
    method ReadByte() returns (c: int)
      requires Valid()
      modifies client, conn, rx, rx.repr
      ensures Valid() && rx.repr == old(rx.repr)
      ensures c == if old(rx.Stream()) == [] then -1 else old(rx.Stream())[0]
      ensures rx.Stream() == if old(rx.Stream()) == [] then [] else old(rx.Stream())[1..]
      ensures old(rx.NonEmpty()) ==> rx.NonEmpty()
    {
      assert old(rx.nodes) == [] ==> rx.Stream() == [];
      var r, out := Read(1);
      c := if r != 1 then -1 else out[0];
    }

    /** `n` bytes can be delivered: the connection is up, and the deferred length stays within 32 bits. */
    predicate Reachable(n: nat)
      reads this, client, conn, if client == null then null else client.pcb
    {
      Connected() && client.rxAckLen + n < M32
    }

    /** A segment, if lwIP may deliver it: to a live connection only, and never more than its window. */
    method Arrive(data: seq<byte>, heap: bool) returns (arrived: seq<byte>)
      requires Valid() && rx.NonEmpty() && data != []
      modifies client, conn, rx, rx.repr
      ensures Valid() && rx.NonEmpty() && fresh(rx.repr - old(rx.repr)) && KeptOver()
      ensures rx.Stream() == old(rx.Stream()) + arrived
      ensures Connected() ==> old(Connected()) && Balance() == old(Balance()) + |arrived|
      // it is stored exactly if there is heap for it; if there is none, the connection ends
      ensures arrived == if heap && old(Reachable(|data|)) then data else []
      ensures Connected() == (old(Connected()) && (heap || !old(Reachable(|data|))))
      ensures Connected() ==> client.rxAckLen == old(client.rxAckLen) + |arrived|
    {
      arrived := [];
      assert rx.Stream() + [] == rx.Stream();
      if Connected() && client.rxAckLen + |data| < M32 {
        Come(|data|);
        if heap {
          OnSegment(data);
          arrived := data;
        } else {
          OnSegmentLost(data);
        }
      }
    }

    /** One step of a session; `got` is what it read. */
    method Take(s: Step) returns (arrived: seq<byte>, got: seq<byte>)
      requires Valid() && rx.NonEmpty() && Plausible(s)
      modifies this, client, conn, rx, rx.repr
      ensures Valid() && rx.NonEmpty() && fresh(rx.repr - old(rx.repr)) && (client == null || client == old(client))
      ensures old(rx.Stream()) + arrived == got + rx.Stream()
      ensures Connected() ==> old(Connected()) && Balance() == old(Balance()) + |arrived|
      ensures s != TimedOut ==> KeptOver()
      ensures arrived == if s.Segment? && s.heap && old(Reachable(|s.data|)) then s.data else []
      ensures got == if s.ReadUpTo? then old(rx.Stream())[..Min(s.len, |old(rx.Stream())|)] else []
      ensures Connected() ==> client.rxAckLen <= old(client.rxAckLen) + |arrived|
      ensures Connected() ==> Lasts(s) || (s.Segment? && !old(Reachable(|s.data|)))
      ensures old(Connected()) && Lasts(s) ==> Connected()
      ensures s.TimedOut? && old(client) != null ==>
                && client != null && client.closePcb
                && client.over == old(client.over) + if old(client.pcb) != null then client.rxAckLen else 0
    {
      arrived, got := [], [];
      assert rx.Stream() + [] == [] + rx.Stream();
      match s
      case Segment(data, heap) =>
        arrived := Arrive(data, heap);
      case ReadUpTo(len) =>
        var r;
        r, got := Read(len);
        assert old(rx.Stream()) + [] == got + rx.Stream();
      case LinkLost(state) => conn.state := state;
      case TimedOut =>
        if client != null {
          OnTimeout();
        }
      case Disconnect => OnDisconnect();
    }
  }

  /**
   * A segment arrives, with or without heap for a node; the sketch reads; the link is lost; the ack timeout strikes;
   * the disconnect callback runs.
   */
  datatype Step =
    | Segment(data: seq<byte>, heap: bool)
    | ReadUpTo(len: nat)
    | LinkLost(state: nat)
    | TimedOut
    | Disconnect

  /** Segments carry data, and a connection that was lost does not come back. */
  predicate Plausible(s: Step) {
    (s.Segment? ==> s.data != []) && (s.LinkLost? ==> s.state != ESTABLISHED)
  }

  /** A connection outlives the step: no loss, and heap for a segment. */
  predicate Lasts(s: Step) {
    !s.LinkLost? && !s.Disconnect? && (s.Segment? ==> s.heap)
  }

  /** It outlives the first `n` steps. */
  predicate Up(steps: seq<Step>, n: nat)
    requires n <= |steps|
  {
    forall k :: 0 <= k < n ==> Lasts(steps[k])
  }

  /** How long the segments among the first `n` steps are. */
  function Length(steps: seq<Step>, n: nat): nat
    requires n <= |steps|
  {
    if n == 0 then 0 else Length(steps, n - 1) + if steps[n - 1].Segment? then |steps[n - 1].data| else 0
  }

  lemma {:induction false} LengthGrows(steps: seq<Step>, n: nat, m: nat)
    requires n <= m <= |steps|
    ensures Length(steps, n) <= Length(steps, m)
    decreases m
  {
    if n < m {
      LengthGrows(steps, n, m - 1);
    }
  }

  /** 32 bits are enough to count the bytes of all segments. */
  predicate Countable(steps: seq<Step>) {
    Length(steps, |steps|) < M32
  }

  /** The connection was neither lost nor closed in the first `n` steps. */
  predicate Unbroken(steps: seq<Step>, n: nat)
    requires n <= |steps|
  {
    forall k :: 0 <= k < n ==> !steps[k].LinkLost? && !steps[k].Disconnect?
  }

  /**
   * What step `j` brought and what it read. Only a segment brings anything: its data, if there was heap and the
   * connection was up. A read takes as much as it may of what has come and has not been read.
   */
  ghost predicate Told(steps: seq<Step>, pieces: seq<seq<byte>>, taken: seq<seq<byte>>, j: nat)
    requires j < |pieces| == |taken| <= |steps|
  {
    var s, came, gone := steps[j], |Concat(pieces[..j])|, |Concat(taken[..j])|;
    && Brought(steps, j, pieces[j])
    && |taken[j]| == if s.ReadUpTo? then Min(s.len, came - gone) else 0
  }

  ghost predicate Brought(steps: seq<Step>, j: nat, p: seq<byte>)
    requires j < |steps|
  {
    var s := steps[j];
    && (p != [] ==> s.Segment? && s.heap && p == s.data && Unbroken(steps, j))
    && (Countable(steps) ==> p == if s.Segment? && s.heap && Up(steps, j) then s.data else [])
  }

  ghost predicate AllTold(steps: seq<Step>, pieces: seq<seq<byte>>, taken: seq<seq<byte>>)
    requires |pieces| == |taken| <= |steps|
  {
    forall j :: 0 <= j < |pieces| ==> Told(steps, pieces, taken, j)
  }

  /** All of that, and no more has come than the segments held. */
  ghost predicate Recorded(steps: seq<Step>, pieces: seq<seq<byte>>, taken: seq<seq<byte>>) {
    && |pieces| == |taken| <= |steps| && AllTold(steps, pieces, taken)
    && |Concat(pieces)| <= Length(steps, |pieces|)
  }

  lemma {:induction false} ToldMore(steps: seq<Step>, pieces: seq<seq<byte>>, taken: seq<seq<byte>>, p: seq<byte>,
                                    r: seq<byte>)
    requires Recorded(steps, pieces, taken) && |pieces| < |steps| && Brought(steps, |pieces|, p)
    requires |p| <= Length(steps, |pieces| + 1) - Length(steps, |pieces|)
    requires var s := steps[|pieces|];
             |r| == if s.ReadUpTo? then Min(s.len, |Concat(pieces)| - |Concat(taken)|) else 0
    ensures Recorded(steps, pieces + [p], taken + [r])
    ensures Concat(pieces + [p]) == Concat(pieces) + p && Concat(taken + [r]) == Concat(taken) + r
  {
    ConcatSnoc(pieces, p);
    ConcatSnoc(taken, r);
    forall j | 0 <= j <= |pieces|
      ensures Told(steps, pieces + [p], taken + [r], j)
    {
      assert (pieces + [p])[..j] == pieces[..j] && (taken + [r])[..j] == taken[..j];
      assert pieces[..|pieces|] == pieces && taken[..|taken|] == taken;
      assert j < |pieces| ==> Told(steps, pieces, taken, j);
    }
  }

  lemma {:induction false} BroughtBy(steps: seq<Step>, j: nat, p: seq<byte>, connected: bool, deferred: nat)
    requires j < |steps| && (connected ==> deferred <= Length(steps, j) && Unbroken(steps, j))
    requires Countable(steps) ==> connected == Up(steps, j)
    requires p == if steps[j].Segment? && steps[j].heap && connected && deferred + |steps[j].data| < M32
                  then steps[j].data else []
    ensures Brought(steps, j, p) && |p| <= Length(steps, j + 1) - Length(steps, j)
    ensures Countable(steps) && connected && steps[j].Segment? ==> deferred + |steps[j].data| < M32
  {
    LengthGrows(steps, j + 1, |steps|);
  }

  /** Where a session stands after `i` steps, in which `came` has come and `gone` has been read. */
  ghost predicate StandsAt(sync: SyncClient, steps: seq<Step>, came: seq<byte>, gone: seq<byte>, i: nat)
    requires i <= |steps|
    reads sync, sync.client, sync.conn, sync.rx, sync.rx.repr, if sync.client == null then null else sync.client.pcb
  {
    && sync.Valid() && sync.rx.NonEmpty() && came == gone + sync.rx.Stream()
    && (sync.Connected() ==> sync.Balance() == |came| >= sync.client.rxAckLen && Unbroken(steps, i))
    && (Countable(steps) ==> sync.Connected() == Up(steps, i))
    && (TimedOut !in steps && sync.client != null ==> sync.client.over == 0)
  }

  ghost predicate Standing(sync: SyncClient, steps: seq<Step>, pieces: seq<seq<byte>>, taken: seq<seq<byte>>)
    reads sync, sync.client, sync.conn, sync.rx, sync.rx.repr, if sync.client == null then null else sync.client.pcb
  {
    Recorded(steps, pieces, taken) && StandsAt(sync, steps, Concat(pieces), Concat(taken), |pieces|)
  }

  /** One step more. */
  method TakeAt(sync: SyncClient, steps: seq<Step>, ghost came: seq<byte>, ghost gone: seq<byte>, i: nat)
    returns (p: seq<byte>, r: seq<byte>)
    requires i < |steps| && StandsAt(sync, steps, came, gone, i) && Plausible(steps[i]) && |came| <= Length(steps, i)
    modifies sync, sync.client, sync.conn, sync.rx, sync.rx.repr
    ensures StandsAt(sync, steps, came + p, gone + r, i + 1) && fresh(sync.rx.repr - old(sync.rx.repr))
    ensures sync.client == null || sync.client == old(sync.client)
    ensures Brought(steps, i, p) && |p| <= Length(steps, i + 1) - Length(steps, i)
    ensures |r| == if steps[i].ReadUpTo? then Min(steps[i].len, |came| - |gone|) else 0
  {
    assert steps[i] in steps;
    ghost var before, connected := sync.rx.Stream(), sync.Connected();
    ghost var deferred := if connected then sync.client.rxAckLen else 0;
    p, r := sync.Take(steps[i]);
    BroughtBy(steps, i, p, connected, deferred);
    Regroup(gone, before, p, r, sync.rx.Stream());
  }

  method StepOn(sync: SyncClient, steps: seq<Step>, ghost pieces: seq<seq<byte>>, ghost taken: seq<seq<byte>>, i: nat)
    returns (p: seq<byte>, r: seq<byte>)
    requires i < |steps| && i == |pieces| && Standing(sync, steps, pieces, taken) && Plausible(steps[i])
    modifies sync, sync.client, sync.conn, sync.rx, sync.rx.repr
    ensures Standing(sync, steps, pieces + [p], taken + [r]) && fresh(sync.rx.repr - old(sync.rx.repr))
    ensures sync.client == null || sync.client == old(sync.client)
  {
    p, r := TakeAt(sync, steps, Concat(pieces), Concat(taken), i);
    ToldMore(steps, pieces, taken, p, r);
  }

  /** The steps from the `i`-th on. */
  method StepsOn(sync: SyncClient, steps: seq<Step>, before: seq<seq<byte>>, tookBefore: seq<seq<byte>>, i: nat)
    returns (pieces: seq<seq<byte>>, taken: seq<seq<byte>>)
    requires i <= |steps| && i == |before| && Standing(sync, steps, before, tookBefore)
    requires forall s :: s in steps ==> Plausible(s)
    modifies sync, sync.client, sync.conn, sync.rx, sync.rx.repr
    ensures |pieces| == |steps| && Standing(sync, steps, pieces, taken)
    decreases |steps| - i
  {
    pieces, taken := before, tookBefore;
    if i < |steps| {
      assert steps[i] in steps;
      var p, r := StepOn(sync, steps, before, tookBefore, i);
      pieces, taken := StepsOn(sync, steps, before + [p], tookBefore + [r], i + 1);
    }
  }

  /** A new connection, on which nothing has come. */
  method Begin(steps: seq<Step>, room: nat, now: u32) returns (sync: SyncClient)
    ensures fresh(sync) && fresh(sync.client) && fresh(sync.conn) && fresh(sync.rx) && fresh(sync.rx.repr)
    ensures Standing(sync, steps, [], [])
  {
    var conn := new TcpPcb(room);
    var client := new AsyncClient(conn, now);
    sync := new SyncClient(client, conn);
  }

  /**
   * Any interleaving of arriving segments, taken, timeouts and losses. `pieces` says what each step brought, and
   * `taken` what each read: what was read is the beginning of what has come. While the connection is up everything
   * received has opened the window again or is still deferred; once nothing waits to be read the window is open for all
   * of it. An ack timeout opens the window by `over` bytes that ack() opens again.
   */
  method ReceiveSession(steps: seq<Step>, room: nat, now: u32)
    returns (pieces: seq<seq<byte>>, taken: seq<seq<byte>>, waiting: nat, connected: bool, recved: nat, deferred: nat,
             ghost over: nat)
    requires forall s :: s in steps ==> Plausible(s)
    ensures |pieces| == |taken| == |steps| && AllTold(steps, pieces, taken)
    ensures Concat(taken) <= Concat(pieces) && |Concat(pieces)| == |Concat(taken)| + waiting
    // the connection stays up exactly if no step ended it, and then every segment has come
    ensures connected ==> Unbroken(steps, |steps|)
    ensures Countable(steps) ==> connected == Up(steps, |steps|)
    ensures Countable(steps) && connected ==>
              forall j :: 0 <= j < |steps| && steps[j].Segment? ==> pieces[j] == steps[j].data
    ensures connected ==>
              && |Concat(pieces)| + over == recved + deferred && waiting <= deferred
              && (waiting == 0 ==> deferred == 0)
    ensures TimedOut !in steps ==> over == 0
  {
    var sync := Begin(steps, room, now);
    pieces, taken := StepsOn(sync, steps, [], [], 0);
    waiting := sync.Available();
    connected, recved := sync.Connected(), sync.conn.recved;
    deferred, over := if connected then sync.client.rxAckLen else 0, if connected then sync.client.over else 0;
    sync.rx.LengthsBound();
    if Countable(steps) && connected {
      forall j | 0 <= j < |steps| && steps[j].Segment?
        ensures pieces[j] == steps[j].data
      {
        assert Told(steps, pieces, taken, j);
      }
    }
  }
}
