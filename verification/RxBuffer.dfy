/** The receive side of AsyncTCPbuffer: one bounded buffer, a read mode, and callbacks that change the mode. */
module RxBuffers {
  import opened Bytes
  import opened Cbufs
  import opened RequestDecoder
  import opened PacedDecoder
  import opened RxLaws
  import opened RxTraces

  /** Data handlers that consume what they like and call nothing. */
  ghost predicate Passive(app: App) {
    forall h, offered :: app.onData(h, offered).1 == []
  }

  function Install(r: Option<Request>): seq<Command> {
    match r
    case None => []
    case Some(Exactly(n)) => [CallReadBytes(true, n, true)]
    case Some(Until(t)) => [CallReadStringUntil(t, true, true)]
  }

  /** Every done callback installs the request that `p` chooses next, and does nothing else. */
  ghost predicate Follows(app: App, p: Program) {
    forall h :: app.onDone(h) == Install(p(h.results))
  }

  class RxBuffer {
    const app: App
    var client: bool            // _client is not NULL
    var established: bool       // what _client->connected() answers
    var rx: Cbuf
    var mode: Mode
    var rxSize: nat
    var rxTerminator: byte
    var bytesPtr: bool          // _rxReadBytesPtr is not NULL
    var strPtr: bool            // _rxReadStringPtr is not NULL
    var cbRX: bool
    var cbDone: bool
    /** Bytes stored through the current request's pointer. */
    var taken: seq<byte>
    var log: History
    ghost var received: seq<byte>
    /** What the events of `log` have led to. */
    ghost var status: Status

    /** What calls and callbacks have set. */
    ghost function Fields(): Setup
      reads this
    {
      Setup(client, mode, bytesPtr, strPtr, cbRX, cbDone, rxSize, rxTerminator, taken)
    }

    ghost predicate Shape()
      reads this, rx
    {
      rx.Valid() && WellBehaved(app) && status.link == established && InOrder(app, log, status, Fields())
    }

    /** Nothing is lost, duplicated or reordered, whatever the modes and callbacks did. */
    ghost predicate Valid()
      reads this, rx
    {
      Steady() && Quiet(status)
    }

    ghost predicate Steady()
      reads this, rx
    {
      Shape() && log.consumed + Unread() == received
    }

    /** Received but not yet part of any event. */
    ghost function Unread(): seq<byte>
      reads this, rx
    {
      taken + rx.contents
    }

    /** The request being served is the one `p` chooses, and it is not yet complete. */
    ghost predicate Pending(p: Program)
      reads this
    {
      match p(log.results)
      case None => mode == ModeNone && taken == []
      case Some(Exactly(n)) =>
        mode == ModeReadBytes && bytesPtr && cbDone && rxSize + |taken| == n && (n > 0 ==> rxSize > 0)
      case Some(Until(t)) =>
        mode == ModeString && strPtr && cbDone && rxTerminator == t && FindEnd(t, taken) == |taken|
    }

    /** Serving the requests of `p`. */
    ghost predicate Reading(p: Program)
      reads this
    {
      Follows(app, p) && client && Pending(p)
    }

    /** API calls do not touch the stream: no byte moves and no request completes. */
    twostate predicate SameStream()
      reads this
    {
      rx == old(rx) && received == old(received) && established == old(established)
    }

    /** Callbacks never rewrite history. */
    twostate predicate KeptHistory()
      reads this
    {
      && established == old(established) && Inside(old(status), status) && (client ==> old(client))
      && old(log.events) <= log.events && old(log.results) <= log.results && (log == old(log) || Spoken(log))
    }

    constructor (app: App)
      requires WellBehaved(app)
      ensures Valid() && fresh(rx)
      ensures this.app == app && established
      ensures client && log == NOTHING && status == INITIAL && taken == []
      ensures received == [] && rx.contents == [] && mode == ModeFree
    {
      this.app, established, client := app, true, true;
      rx := new Cbuf(100);
      mode, rxSize, rxTerminator := ModeFree, 0, 0;
      bytesPtr, strPtr, cbRX, cbDone := false, false, false, false;
      taken, log, received, status := [], NOTHING, [], INITIAL;
    }

    /** Notes an event. */
    method Note(e: Event)
      requires Truthful(app, log, status) && Allowed(app, log, status, e)
      modifies this`log, this`status
      ensures Truthful(app, log, status) && log == old(log).Add(e) && status == Next(app, old(log), old(status), e)
    {
      TruthfulAdd(app, log, status, e);
      status := Next(app, log, status, e);
      log := log.Add(e);
    }

    // ---- API calls -------------------------------------------------------------------------

    /** The call `c` was made. */
    twostate predicate Made(c: Command)
      reads this
    {
      && rx == old(rx) && received == old(received) && established == old(established)
      && CallMade(old(log), old(status), old(Fields()), c, log, status, Fields())
    }

    /** Notes a call; the fields have still to follow. */
    method NoteCall(c: Command)
      requires Shape() && Ready(log, status, c)
      modifies this`log, this`status
      ensures CallNoted(app, old(log), old(status), Fields(), c, log, status)
    {
      InOrderCall(app, log, status, Fields(), c);
      Note(Called(c, if Replaces(client, c) then taken else []));
    }

    /** readBytes(), which does nothing without a client. */
    method ReadBytes(dst: bool, n: nat, done: bool)
      requires Shape() && Ready(log, status, CallReadBytes(dst, n, done))
      modifies this
      ensures Shape() && Made(CallReadBytes(dst, n, done))
      ensures if client then mode == ModeReadBytes && bytesPtr == dst && rxSize == n && cbDone == done && taken == []
              else Fields() == old(Fields())
    {
      NoteCall(CallReadBytes(dst, n, done));
      if client {
        WantBytes(dst, n, done);
      }
    }

    method WantBytes(dst: bool, n: nat, done: bool)
      requires client
      modifies this`mode, this`taken, this`cbDone, this`bytesPtr, this`rxSize
      ensures Fields() == Applied(old(Fields()), CallReadBytes(dst, n, done))
      ensures mode == ModeReadBytes && bytesPtr == dst && rxSize == n && cbDone == done && taken == []
    {
      mode, taken := ModeNone, [];
      cbDone, bytesPtr, rxSize := done, dst, n;
      mode := ModeReadBytes;
    }

    /** readStringUntil() */
    method ReadStringUntil(t: byte, str: bool, done: bool)
      requires Shape() && Ready(log, status, CallReadStringUntil(t, str, done))
      modifies this
      ensures Shape() && Made(CallReadStringUntil(t, str, done))
      ensures if client then mode == ModeString && strPtr == str && rxTerminator == t && cbDone == done && taken == []
              else Fields() == old(Fields())
    {
      NoteCall(CallReadStringUntil(t, str, done));
      if client {
        WantString(t, str, done);
      }
    }

    method WantString(t: byte, str: bool, done: bool)
      requires client
      modifies this`mode, this`taken, this`cbDone, this`strPtr, this`rxTerminator, this`rxSize
      ensures Fields() == Applied(old(Fields()), CallReadStringUntil(t, str, done))
      ensures mode == ModeString && strPtr == str && rxTerminator == t && cbDone == done && taken == []
    {
      mode, taken := ModeNone, [];
      cbDone, strPtr, rxTerminator, rxSize := done, str, t, 0;
      mode := ModeString;
    }

    /** onData() */
    method OnData(handler: bool)
      requires Shape() && Ready(log, status, CallOnData(handler))
      modifies this
      ensures Shape() && Made(CallOnData(handler))
      ensures if client then mode == ModeFree && cbRX == handler && !cbDone && taken == []
              else Fields() == old(Fields())
    {
      NoteCall(CallOnData(handler));
      if client {
        Listen(handler);
      }
    }

    method Listen(handler: bool)
      requires client
      modifies this`mode, this`taken, this`cbDone, this`cbRX
      ensures Fields() == Applied(old(Fields()), CallOnData(handler))
      ensures mode == ModeFree && cbRX == handler && !cbDone && taken == []
    {
      mode, taken := ModeNone, [];
      cbDone, cbRX := false, handler;
      mode := ModeFree;
    }

    /** noCallback() */
    method NoCallback()
      requires Shape() && Ready(log, status, CallNoCallback)
      modifies this
      ensures Shape() && Made(CallNoCallback)
      ensures Fields() == old(Fields()).(mode := ModeNone)
    {
      NoteCall(CallNoCallback);
      mode := ModeNone;
    }

    /** Lets go of the client; a pending request is told that it failed. */
    method Stop()
      requires Shape() && Ready(log, status, CallStop)
      modifies this
      ensures Shape() && Made(CallStop)
      ensures !client && mode == ModeNone && taken == old(taken)
      ensures log.events == old(log.events) + [Called(CallStop, [])] +
                            if old(client && cbDone && (mode == ModeReadBytes || mode == ModeString))
                            then [Failed] else []
    {
      NoteCall(CallStop);
      if !client {
        return;
      }
      var tell := LetGo();
      if tell {
        // The callback may call the API again, but with no client only noCallback() does anything.
        NoteFailure(old(log), old(status), old(Fields()));
      }
    }

    /** Forgets the client and the request; says whether a done callback has to be told. */
    method LetGo() returns (tell: bool)
      requires client
      modifies this`client, this`mode
      ensures Fields() == Applied(old(Fields()), CallStop) && !client && mode == ModeNone
      ensures tell == (cbDone && (old(mode) == ModeReadBytes || old(mode) == ModeString))
    {
      client, tell := false, false;
      if cbDone && (mode == ModeReadBytes || mode == ModeString) {
        mode, tell := ModeNone, true;
      }
      mode := ModeNone;
    }

    /** The done callback is told of the failure. */
    method NoteFailure(ghost log0: History, ghost status0: Status, ghost fields0: Setup)
      requires Truthful(app, log, status) && status.failing && Fits(status, Fields())
      requires CallMade(log0, status0, fields0, CallStop, log, status.(failing := false), Fields())
      requires log == log0.Add(CallEvent(fields0, CallStop))
      modifies this`log, this`status
      ensures InOrder(app, log, status, Fields()) && CallMade(log0, status0, fields0, CallStop, log, status, Fields())
      ensures log == old(log).Add(Failed)
    {
      InOrderFailed(app, log, status, Fields());
      CallFailed(log0, status0, fields0, log, status, Fields());
      Note(Failed);
    }

    method Call(c: Command)
      requires Shape() && Ready(log, status, c)
      modifies this
      ensures Shape() && Made(c)
    {
      match c
      case CallReadBytes(dst, n, done) => ReadBytes(dst, n, done);
      case CallReadStringUntil(t, str, done) => ReadStringUntil(t, str, done);
      case CallOnData(handler) => OnData(handler);
      case CallNoCallback => NoCallback();
      case CallStop => Stop();
    }

    /** Runs the API calls that a callback makes. */
    method Run(cs: seq<Command>)
      requires Shape() && status.owed == cs
      modifies this
      ensures Shape() && SameStream() && SameFlow(old(log), old(taken), log, taken) && (client ==> old(client))
      ensures status.owed == [] && Inside(old(status), status) && status.again == old(status.again)
      ensures log == old(log) || Spoken(log)
      ensures Fields() == AppliedAll(old(Fields()), cs) && (old(taken) == [] ==> taken == [])
      ensures cs == [] ==> unchanged(this)
      decreases |cs|
    {
      if cs != [] {
        Call(cs[0]);
        Run(cs[1..]);
      }
    }

    /** A data handler is installed and will be called. */
    predicate Listening()
      reads this
    {
      client && established && mode == ModeFree && cbRX
    }

    /** The handler was the last to be asked: it was offered everything that was unread, and left what is stored. */
    ghost predicate Declined()
      reads this, rx
    {
      && log.trail.After? && log.trail.last.Chunk?
      && var e := log.trail.last; e.n <= |e.offered| && rx.contents == e.offered[e.n..]
    }

    // ---- Callbacks -------------------------------------------------------------------------

    /** `_cbRX(data, len)`: the handler may change the mode before it says how much it consumed. */
    method Offer(data: seq<byte>, behind: bool) returns (n: nat)
      requires Shape() && status.busy && status.owed == [] && taken == []
      requires if status.again then !behind else mode == ModeFree && cbRX
      modifies this
      ensures Shape() && status.owed == [] && taken == [] && n <= |data| && status.again == (behind && n == |data|)
      ensures n == app.onData(old(log), data).0 && old(log.events) + [Chunk(data, n, behind)] <= log.events
      ensures rx == old(rx) && received == old(received) && KeptHistory()
      ensures log.consumed == old(log.consumed) + data[..n]
      ensures log.results == old(log.results) && Fields() == AppliedAll(old(Fields()), app.onData(old(log), data).1)
      ensures Passive(app) ==> log == old(log).Add(Chunk(data, n, behind)) && Fields() == old(Fields())
    {
      var (count, calls) := app.onData(log, data);
      n := count;
      NoteChunk(data, n, behind);
      ghost var before := log;
      Run(calls);
      assert before.consumed + [] == before.consumed && log.consumed + [] == log.consumed;
    }

    /** The handler has answered; its calls come next. */
    method NoteChunk(data: seq<byte>, n: nat, behind: bool)
      requires Shape() && status.busy && status.owed == [] && n == app.onData(log, data).0
      requires if status.again then !behind else mode == ModeFree && cbRX
      modifies this`log, this`status
      ensures Shape() && n <= |data| && log == old(log).Add(Chunk(data, n, behind))
      ensures status == old(status).(again := behind && n == |data|, owed := app.onData(old(log), data).1)
      ensures log.consumed == old(log.consumed) + data[..n] && log.results == old(log.results)
    {
      InOrderChunk(app, log, status, Fields(), Chunk(data, n, behind));
      Note(Chunk(data, n, behind));
      assert data[..Min(n, |data|)] == data[..n];
    }

    /** Event `e` answers the request that `p` chose, with the bytes that come next in the stream. */
    ghost predicate Answers(e: Event, p: Program)
      reads this, rx
    {
      && Follows(app, p) && client
      && |ResultOf(e)| == 1
      && p(log.results).Some?
      && Take(p(log.results).value, BytesOf(e) + rx.contents) == Some((ResultOf(e)[0], rx.contents))
    }

    /** `_cbDone(true, ...)` for a finished request. */
    method Complete(e: Event, ghost p: Program)
      requires Shape() && |ResultOf(e)| == 1 && Allowed(app, log, status, e)
      requires received == log.consumed + BytesOf(e) + rx.contents
      modifies this
      ensures Valid() && rx == old(rx) && received == old(received) && KeptHistory()
      ensures log.results == old(log.results) + ResultOf(e) && taken == [] && Unread() == rx.contents
      ensures |log.events| > |old(log.events)|
      ensures Fields() == AppliedAll(old(Fields()).(mode := ModeNone, taken := []), app.onDone(old(log).Add(e)))
      ensures old(Answers(e, p)) ==> Reading(p)
    {
      Conclude(e);
      ghost var before := log;
      Run(app.onDone(log));
      assert before.consumed + [] == before.consumed && log.consumed + [] == log.consumed;
      assert Unread() == rx.contents;
    }

    /** The request is over before its callback runs. */
    method Conclude(e: Event)
      requires Shape() && |ResultOf(e)| == 1 && Allowed(app, log, status, e)
      modifies this`mode, this`taken, this`log, this`status
      ensures Shape() && Fields() == old(Fields()).(mode := ModeNone, taken := []) && log == old(log).Add(e)
      ensures status == old(status).(active := None, latest := None, owed := app.onDone(log))
    {
      InOrderDone(app, log, status, Fields(), e);
      mode, taken := ModeNone, [];
      Note(e);
    }

    // ---- _handleRxBuffer -------------------------------------------------------------------

    /** What every branch of the handler promises about the bytes it looked at. */
    twostate predicate Handled(buf: seq<byte>, handled: nat)
      requires handled <= |buf|
      reads this, rx
    {
      && Valid() && rx == old(rx) && KeptHistory()
      && received == old(received) + buf[..handled]
      && (handled > 0 || old(rx.contents) == [] ==> rx.contents == [])
    }

    /** What it means for `p`: the request is answered by what was unread and `handled` bytes, or waits for more. */
    twostate predicate Served(p: Program, buf: seq<byte>, handled: nat)
      requires handled <= |buf|
      reads this, rx
    {
      Answered(p, old(log.results), old(Unread()), buf, handled, log.results, Unread())
    }

    /** Nothing waits for bytes, or all bytes have gone where they are wanted. */
    ghost predicate Stalled()
      reads this, rx
    {
      Unwanted(Fields()) || (rx.contents == [] && (mode == ModeReadBytes ==> rxSize > 0))
    }

    /** and of a packet nothing but `left` is left, which nothing waits for. */
    ghost predicate Leaves(left: seq<byte>)
      reads this, rx
    {
      Stalled() && (left == [] || Unwanted(Fields()))
    }

    /** If no callback was called, that is because nothing waits, or not enough has come. */
    twostate predicate Exhausted(left: seq<byte>)
      reads this, rx
    {
      |log.events| == |old(log.events)| ==> Leaves(left)
    }

    /** Offers what is stored, and removes what the handler consumed. */
    method OfferStored(behind: bool) returns (n: nat)
      requires Valid() && status.busy && mode == ModeFree && cbRX && rx.contents != []
      modifies this, rx
      ensures Steady() && status.owed == [] && taken == []
      ensures rx == old(rx) && received == old(received) && KeptHistory()
      ensures log.results == old(log.results)
      ensures n == app.onData(old(log), old(rx.contents)).0 <= |old(rx.contents)|
      ensures status.again == (behind && rx.contents == [])
      ensures rx.contents == old(rx.contents)[n..]
      ensures old(log.events) + [Chunk(old(rx.contents), n, behind)] <= log.events
      ensures Fields() == AppliedAll(old(Fields()), app.onData(old(log), old(rx.contents)).1)
      ensures Passive(app) ==> Declined() && (old(Listening()) ==> Listening())
    {
      ghost var c, x := log.consumed, rx.contents;
      assert Unread() == x && received == c + x;
      n := Offer(rx.contents, behind);
      MoveFront(c, x, n);
      assert received == log.consumed + x[n..];
      rx.Remove(n);
      assert Unread() == rx.contents;
    }

    /** Offers a packet that comes after an empty buffer, or to the handler that has just emptied it. */
    method OfferFresh(buf: seq<byte>) returns (handled: nat)
      requires Steady() && status.busy && status.owed == [] && taken == [] && rx.contents == []
      requires status.again || (mode == ModeFree && cbRX)
      modifies this
      ensures handled <= |buf| && Valid() && taken == [] && KeptHistory() && rx == old(rx)
      ensures received == old(received) + buf[..handled] && log.results == old(log.results)
      ensures Fields() == AppliedAll(old(Fields()), app.onData(old(log), buf).1)
      ensures handled == app.onData(old(log), buf).0 && old(log.events) + [Chunk(buf, handled, false)] <= log.events
      ensures Passive(app) && old(Listening()) ==> Listening()
    {
      assert received == log.consumed;
      handled := Offer(buf, false);
      received := received + buf[..handled];
      assert Unread() == [];
    }

    method HandleFree(buf: seq<byte>) returns (handled: nat)
      requires Valid() && status.busy && mode == ModeFree
      modifies this, rx
      ensures handled <= |buf| && Handled(buf, handled)
      ensures log.results == old(log.results)
      // with a handler, what is stored is offered first, and the packet only if nothing of that is left
      ensures !old(cbRX) ==> log == old(log)
      ensures old(cbRX && rx.contents != []) ==>
                var n := app.onData(old(log), old(rx.contents)).0;
                && n <= |old(rx.contents)| && old(log.events) + [Chunk(old(rx.contents), n, buf != [])] <= log.events
                && (n < |old(rx.contents)| || buf == [] ==> handled == 0)
                && (n == |old(rx.contents)| && buf != [] ==>
                      Chunk(buf, handled, false) in log.events[|old(log.events)| + 1..])
      ensures old(cbRX && rx.contents == []) && buf != [] ==>
                && handled == app.onData(old(log), buf).0
                && old(log.events) + [Chunk(buf, handled, false)] <= log.events
                && Fields() == AppliedAll(old(Fields()), app.onData(old(log), buf).1)
      ensures Exhausted(buf[handled..])
      ensures Passive(app) && old(Listening()) ==> Listening()
      ensures Passive(app) && old(cbRX && rx.contents != []) ==> rx.contents == [] || Declined()
    {
      handled := 0;
      assert buf[..0] == [];
      if !cbRX {
        return;
      }
      var available, r := rx.Available(), 0;
      if available > 0 {
        r := OfferStored(|buf| > 0);
      }
      if r == available && |buf| > 0 {
        ghost var k := |log.events|;
        handled := OfferFresh(buf);
        assert log.events[k] == Chunk(buf, handled, false);
      }
    }

    /** Stored bytes move through the request's pointer. */
    method Pull()
      requires Valid() && mode == ModeReadBytes
      modifies this`taken, this`rxSize, rx`contents
      ensures Valid() && Unread() == old(Unread())
      ensures rxSize + |taken| == old(rxSize + |taken|)
      ensures rxSize == 0 || rx.contents == []
      ensures old(rx.contents) == [] ==> rxSize == old(rxSize)
    {
      var d := rx.Read(rxSize);
      FitsBytes(status, Fields(), d);
      assert old(rx.contents) == d + rx.contents;
      Assoc(taken, d, rx.contents);
      rxSize, taken := rxSize - |d|, taken + d;
      assert Unread() == old(Unread());
    }

    /** Fresh bytes go through the request's pointer, past the empty buffer. */
    method Arrive(d: seq<byte>, size: nat)
      requires Valid() && rx.contents == [] && Fits(status, Fields().(taken := taken + d, size := size))
      modifies this`taken, this`received, this`rxSize
      ensures Valid() && taken == old(taken) + d && received == old(received) + d && rxSize == size
    {
      taken, received, rxSize := taken + d, received + d, size;
      assert Unread() == old(Unread()) + d;
      Assoc(log.consumed, old(Unread()), d);
    }

    /** The pending request is the byte request that `p` chose, complete or not. */
    ghost predicate Filling(p: Program)
      reads this
    {
      && Follows(app, p) && client
      && mode == ModeReadBytes && bytesPtr && cbDone
      && p(log.results) == Some(Exactly(rxSize + |taken|))
    }

    /** A request that still wants bytes is not answered by those it has. */
    lemma {:induction false} StillFilling(p: Program)
      requires Filling(p) && rxSize > 0 && rx.contents == []
      ensures Reading(p) && Take(p(log.results).value, Unread()).None?
    {
    }

    method FinishBytes(ghost p: Program)
      requires Valid() && status.busy && mode == ModeReadBytes && rxSize == 0 && bytesPtr && cbDone
      modifies this
      ensures Valid() && rx == old(rx) && received == old(received) && KeptHistory()
      ensures log.results == old(log.results) + [old(taken)] && Unread() == rx.contents
      ensures |log.events| > |old(log.events)|
      ensures old(Filling(p)) ==>
                Reading(p) && Take(p(old(log.results)).value, old(Unread())) == Some((old(taken), rx.contents))
    {
      assert log.consumed + Unread() == log.consumed + taken + rx.contents;
      assert Unread()[..|taken|] == taken && Unread()[|taken|..] == rx.contents;
      Complete(Done(taken), p);
    }

    /** As many fresh bytes as the request still wants, if the buffer is empty. */
    method Fill(buf: seq<byte>) returns (handled: nat)
      requires Valid() && mode == ModeReadBytes
      modifies this`taken, this`received, this`rxSize
      ensures handled == if rx.contents == [] then Min(|buf|, old(rxSize)) else 0
      ensures Valid() && Unread() == old(Unread()) + buf[..handled]
      ensures rxSize == old(rxSize) - handled && taken == old(taken) + buf[..handled]
      ensures received == old(received) + buf[..handled]
    {
      handled := 0;
      assert buf[..0] == [];
      if rx.Empty() && |buf| > 0 {
        handled := Min(|buf|, rxSize);
        FitsBytes(status, Fields(), buf[..handled]);
        Arrive(buf[..handled], rxSize - handled);
      }
    }

    /** Fresh bytes for a request that has used up what was stored, or is satisfied by it. */
    method ServeBytes(buf: seq<byte>, ghost p: Program) returns (handled: nat)
      requires Valid() && status.busy && mode == ModeReadBytes
      requires bytesPtr && cbDone && (rxSize == 0 || rx.contents == [])
      modifies this
      ensures handled <= |buf| && Handled(buf, handled)
      ensures Exhausted(buf[handled..])
      ensures old(Filling(p)) ==> Reading(p) && Served(p, buf, handled)
    {
      handled := Fill(buf);
      assert old(Filling(p)) ==> Filling(p);
      if rxSize == 0 {
        FinishBytes(p);
      } else {
        assert buf[..|buf|] == buf;
        if Filling(p) {
          StillFilling(p);
        }
      }
    }

    method HandleBytes(buf: seq<byte>, ghost p: Program) returns (handled: nat)
      requires Valid() && status.busy && mode == ModeReadBytes
      modifies this, rx
      ensures handled <= |buf| && Handled(buf, handled)
      ensures Exhausted(buf[handled..])
      ensures old(Reading(p)) ==> Reading(p) && Served(p, buf, handled)
      ensures old(!bytesPtr || !cbDone) ==> handled == 0 && unchanged(this) && unchanged(rx)
    {
      if !bytesPtr || !cbDone {
        handled := 0;
        assert buf[..0] == [];
        return;
      }
      handled := TakeBytes(buf, p);
    }

    /** Stored bytes first, then fresh ones. */
    method TakeBytes(buf: seq<byte>, ghost p: Program) returns (handled: nat)
      requires Valid() && status.busy && mode == ModeReadBytes && bytesPtr && cbDone
      modifies this, rx
      ensures handled <= |buf| && Handled(buf, handled)
      ensures Exhausted(buf[handled..])
      ensures old(Reading(p)) ==> Reading(p) && Served(p, buf, handled)
    {
      if rx.Available() > 0 {
        Pull();
      }
      assert old(Reading(p)) ==> Filling(p);
      handled := ServeBytes(buf, p);
    }

    /** The pending request is the string request that `p` chose, and its end has not been seen. */
    ghost predicate Scanning(p: Program)
      reads this
    {
      && Follows(app, p) && client
      && mode == ModeString && strPtr && cbDone
      && p(log.results) == Some(Until(rxTerminator)) && FindEnd(rxTerminator, taken) == |taken|
    }

    /** `c` has just been taken off the stream and ends the string. */
    method FinishString(c: byte, ghost p: Program)
      requires Shape() && Quiet(status) && status.busy && mode == ModeString
      requires strPtr && cbDone && (c == rxTerminator || c == 0)
      requires received == log.consumed + (taken + [c] + rx.contents)
      modifies this
      ensures Valid() && rx == old(rx) && received == old(received) && KeptHistory()
      ensures log.results == old(log.results) + [old(taken)] && Unread() == rx.contents
      ensures |log.events| > |old(log.events)|
      ensures old(Scanning(p)) ==>
                && Reading(p)
                && Take(p(old(log.results)).value, old(taken) + [c] + rx.contents) == Some((old(taken), rx.contents))
    {
      if Scanning(p) {
        TakeString(rxTerminator, taken, c, rx.contents);
      }
      Assoc(log.consumed, taken + [c], rx.contents);
      Complete(DoneString(taken, c), p);
    }

    /** One character of the buffer; `more` unless it ended the string. */
    method ScanStored(ghost p: Program) returns (more: bool)
      requires Valid() && status.busy && mode == ModeString && strPtr && cbDone && rx.contents != []
      modifies this, rx
      ensures Valid() && rx == old(rx) && received == old(received) && KeptHistory()
      ensures more ==>
                && log == old(log) && mode == ModeString && strPtr && cbDone
                && |rx.contents| == |old(rx.contents)| - 1 && Unread() == old(Unread())
      ensures !more ==> log.results == old(log.results) + [old(taken)] && Unread() == rx.contents
      ensures !more ==> |log.events| > |old(log.events)|
      ensures old(Scanning(p)) && more ==> Scanning(p)
      ensures old(Scanning(p)) && !more ==>
                Reading(p) && Take(p(old(log.results)).value, old(Unread())) == Some((old(taken), Unread()))
    {
      var d := rx.Read(1);
      var c := d[0];
      assert old(Unread()) == taken + [c] + rx.contents;
      if c == rxTerminator || c == 0 {
        FinishString(c, p);
        return false;
      }
      FitsCharacter(status, Fields(), c);
      taken := taken + [c];
      assert Unread() == old(Unread());
      return true;
    }

    /** One fresh character; the buffer is empty. */
    method ScanFresh(c: byte, ghost p: Program) returns (more: bool)
      requires Valid() && status.busy && mode == ModeString && strPtr && cbDone && rx.contents == []
      modifies this
      ensures Valid() && rx == old(rx) && received == old(received) + [c] && KeptHistory()
      ensures more ==> log == old(log) && mode == ModeString && strPtr && cbDone && Unread() == old(Unread()) + [c]
      ensures !more ==> log.results == old(log.results) + [old(taken)] && Unread() == []
      ensures !more ==> |log.events| > |old(log.events)|
      ensures old(Scanning(p)) && more ==> Scanning(p)
      ensures old(Scanning(p)) && !more ==>
                Reading(p) && Take(p(old(log.results)).value, old(Unread()) + [c]) == Some((old(taken), []))
    {
      assert Unread() + [c] == taken + [c] + rx.contents;
      if c == rxTerminator || c == 0 {
        received := received + [c];
        FinishString(c, p);
        return false;
      }
      FitsCharacter(status, Fields(), c);
      Arrive([c], rxSize);
      return true;
    }

    method HandleString(buf: seq<byte>, ghost p: Program) returns (handled: nat)
      requires Valid() && status.busy && mode == ModeString
      modifies this, rx
      ensures handled <= |buf| && Handled(buf, handled)
      ensures Exhausted(buf[handled..])
      ensures old(Reading(p)) ==> Reading(p) && Served(p, buf, handled)
      ensures old(!strPtr || !cbDone) ==> handled == 0 && unchanged(this) && unchanged(rx)
    {
      handled := 0;
      assert buf[..0] == [] && Unread() + [] == Unread();
      if !strPtr || !cbDone {
        return;
      }
      while !rx.Empty()
        invariant Valid() && rx == old(rx) && received == old(received) && KeptHistory()
        invariant log == old(log) && mode == ModeString && strPtr && cbDone && Unread() == old(Unread())
        invariant rx.contents == [] || old(rx.contents) != []
        invariant old(Reading(p)) ==> Scanning(p)
        decreases |rx.contents|
      {
        var more := ScanStored(p);
        if !more {
          return;
        }
      }
      handled := ScanPacket(buf, p);
    }

    /** The loop over the packet; the buffer is empty. */
    method ScanPacket(buf: seq<byte>, ghost p: Program) returns (handled: nat)
      requires Valid() && status.busy && mode == ModeString && strPtr && cbDone && rx.contents == []
      modifies this
      ensures handled <= |buf| && Valid() && rx == old(rx)
      ensures received == old(received) + buf[..handled] && KeptHistory()
      ensures Exhausted(buf[handled..])
      ensures old(Scanning(p)) ==> Reading(p) && Served(p, buf, handled)
    {
      handled := 0;
      assert buf[..0] == [] && Unread() + [] == Unread();
      while handled < |buf|
        invariant handled <= |buf| && rx.contents == []
        invariant Valid() && rx == old(rx) && received == old(received) + buf[..handled] && KeptHistory()
        invariant log == old(log) && mode == ModeString && strPtr
        invariant cbDone && Unread() == old(Unread()) + buf[..handled]
        invariant old(Scanning(p)) ==> Scanning(p)
      {
        var c := buf[handled];
        ghost var before := buf[..handled];
        handled := handled + 1;
        assert buf[..handled] == before + [c];
        assert (old(Unread()) + before) + [c] == old(Unread()) + buf[..handled];
        var more := ScanFresh(c, p);
        if !more {
          return;
        }
      }
      assert buf[..handled] == buf;
    }

    /** `_handleRxBuffer(buf, len)`; `[]` stands for the NULL pointer. */
    method HandleRxBuffer(buf: seq<byte>, ghost p: Program) returns (handled: nat)
      requires Valid() && status.busy
      modifies this, rx
      ensures handled <= |buf| && Handled(buf, handled)
      ensures old(client && established) ==> Exhausted(buf[handled..])
      ensures old(Reading(p)) && established ==> Reading(p) && Served(p, buf, handled)
      ensures old(!client || !established || mode == ModeNone) ==> handled == 0 && unchanged(this) && unchanged(rx)
      ensures Passive(app) && old(Listening()) ==> Listening()
      ensures Passive(app) && old(Listening() && rx.contents != []) ==> rx.contents == [] || Declined()
    {
      handled := 0;
      assert buf[..0] == [];
      if client && established {
        if mode == ModeFree {
          handled := HandleFree(buf);
        } else if mode == ModeReadBytes {
          handled := HandleBytes(buf, p);
        } else if mode == ModeString {
          handled := HandleString(buf, p);
        }
      }
    }

    /** Before the first packet the application installs the first request. */
    method Begin(ghost p: Program)
      requires Valid() && Level() && Follows(app, p) && client && log == NOTHING && taken == [] && rx.contents == []
      modifies this
      ensures Valid() && Level() && Reading(p) && rx == old(rx) && log.results == [] && Unread() == []
      ensures received == old(received) && established == old(established)
    {
      LevelSettled();
      NoCallback();
      var calls := app.onDone(log);
      if calls != [] {
        Call(calls[0]);
      }
      assert log.consumed + taken == [];
    }

    // ---- _rxData ---------------------------------------------------------------------------

    /** The requests of `p` are at `goal`, or on the way there with `rest` of the packet still to be looked at. */
    ghost predicate Towards(p: Program, goal: (seq<seq<byte>>, seq<byte>), rest: seq<byte>, handled: nat)
      reads this, rx
    {
      Reading(p) && Halfway(p, goal, log.results, Unread(), rest, handled)
    }

    /** Lets the handlers look at a packet for the first time. */
    method Look(packet: seq<byte>, ghost p: Program) returns (handled: nat)
      requires Valid() && status.busy && mode != ModeNone
      modifies this, rx
      ensures handled <= |packet| && Handled(packet, handled)
      ensures old(client && established) ==> Exhausted(packet[handled..])
      ensures old(Reading(p)) && established ==>
                Towards(p, InPacket(p, old(log.results), old(Unread()), packet), packet[handled..], handled)
      ensures Passive(app) && old(Listening()) ==> Listening()
    {
      handled := HandleRxBuffer(packet, p);
      if old(Reading(p)) && established {
        FirstLook(p, old(log.results), old(Unread()), packet, handled, log.results, Unread());
      }
    }

    /** Lets them look at the rest of it, with nothing stored. */
    method LookAgain(rest: seq<byte>, ghost p: Program, ghost goal: (seq<seq<byte>>, seq<byte>), ghost before: nat)
      returns (handled: nat)
      requires Valid() && status.busy && mode != ModeNone && rest != [] && before > 0
      modifies this, rx
      ensures handled <= |rest| && Handled(rest, handled)
      ensures if old(client && established) then Exhausted(rest[handled..])
              else handled == 0 && unchanged(this) && unchanged(rx)
      ensures old(Towards(p, goal, rest, before)) && established ==> Towards(p, goal, rest[handled..], handled)
      ensures Passive(app) && old(Listening()) ==> Listening()
    {
      handled := HandleRxBuffer(rest, p);
      if old(Towards(p, goal, rest, before)) && established {
        NextLook(p, goal, old(log.results), rest, handled, log.results, Unread());
      }
    }

    /** Goes on with what the first look, which used `first` bytes, has left of a packet. */
    method LookOn(buf: seq<byte>, first: nat, ghost p: Program, ghost goal: (seq<seq<byte>>,
                  seq<byte>)) returns (rest: seq<byte>)
      requires Valid() && status.busy && (first > 0 ==> rx.contents == [])
      modifies this, rx
      ensures Valid() && rx == old(rx) && KeptHistory() && received + rest == old(received) + buf
      ensures old(Towards(p, goal, buf, first)) && established ==> Reading(p) && goal == (log.results, Unread() + rest)
      ensures old(Leaves(buf)) ==> Exhausted(rest)
      ensures Passive(app) && old(Listening()) ==> Listening()
    {
      rest := buf;
      var handled := first;
      while mode != ModeNone && handled != 0 && |rest| > 0
        invariant Valid() && rx == old(rx) && KeptHistory() && received + rest == old(received) + buf
        invariant Passive(app) && old(Listening()) ==> Listening()
        invariant old(Towards(p, goal, buf, first)) && established ==> Towards(p, goal, rest, handled)
        invariant old(Leaves(buf)) ==> Exhausted(rest)
        decreases |rest|, handled
      {
        ghost var before := received;
        handled := LookAgain(rest, p, goal, handled);
        MoveFront(before, rest, handled);
        rest := rest[handled..];
      }
      if Towards(p, goal, rest, handled) {
        Reached(p, goal, log.results, Unread(), rest, handled);
      }
    }

    /** Lets the handlers use a packet directly while the buffer is empty; says what is left of it. */
    method HandleFresh(packet: seq<byte>, ghost p: Program) returns (rest: seq<byte>)
      requires Valid() && status.busy
      modifies this, rx
      ensures Valid() && rx == old(rx) && KeptHistory() && received + rest == old(received) + packet
      ensures old(client && established) ==> Exhausted(rest)
      ensures old(Reading(p)) && established ==>
                Reading(p) && (log.results, Unread() + rest) == InPacket(p, old(log.results), old(Unread()), packet)
      ensures Passive(app) && old(Listening()) ==> Listening()
    {
      rest := packet;
      if mode == ModeNone {
        return;
      }
      ghost var goal := InPacket(p, log.results, Unread(), packet);
      var handled := Look(packet, p);
      MoveFront(old(received), packet, handled);
      rest := packet[handled..];
      if rx.Empty() {
        rest := LookOn(rest, handled, p, goal);
      } else if Towards(p, goal, rest, handled) {
        Reached(p, goal, log.results, Unread(), rest, handled);
      }
    }

    /** Grows the buffer so that all of `rest` fits, and stores it. */
    method Store(rest: seq<byte>)
      requires rx.Valid()
      modifies rx
      ensures rx.Valid() && rx.contents == old(rx.contents) + rest
    {
      if |rest| > 0 {
        if rx.Room() < |rest| {
          rx.Resize(rx.size + |rest| + rx.Room());
        }
        var w := rx.Write(rest);
        assert rest[..w] == rest;
      }
    }

    /** Stores what nobody wanted yet. */
    method Keep(rest: seq<byte>)
      requires Valid()
      modifies this`received, rx
      ensures Valid() && received == old(received) + rest
      ensures rx.contents == old(rx.contents) + rest && Unread() == old(Unread()) + rest
    {
      Store(rest);
      received := received + rest;
      assert Unread() == old(Unread()) + rest;
      Assoc(log.consumed, old(Unread()), rest);
    }

    /** Serves the request that is waiting from what is stored. */
    method HandleStored(ghost p: Program)
      requires Valid() && status.busy
      modifies this, rx
      ensures Valid() && rx == old(rx) && received == old(received) && KeptHistory()
      ensures old(client && established && (rx.contents == [] ==> Stalled())) ==> Exhausted([])
      ensures old(Reading(p)) && established && old(Unread()) != [] ==>
                Reading(p) && (log.results, Unread()) == Decode(p, old(log.results), old(Unread()), 1)
      ensures old(Reading(p)) && old(Unread()) == [] ==>
                Reading(p) && log.results == old(log.results) && Unread() == []
      ensures Passive(app) && old(Listening()) ==> Listening() && (rx.contents == [] || Declined())
    {
      assert Unread() + [] == Unread();
      if !rx.Empty() && mode != ModeNone {
        var handled := HandleRxBuffer([], p);
        // Without a packet nothing is ever `handled`, so the retry loop that follows in the source is dead.
        assert handled == 0;
      }
    }

    /** An empty buffer gives its memory back. */
    method GiveBack()
      requires Valid()
      modifies rx`size
      ensures Valid() && (rx.contents == [] ==> 100 <= rx.size <= 101)
    {
      if rx.Empty() && rx.Room() != 100 {
        rx.Resize(100);
      }
    }

    /** What happens to the bytes of a packet that were not used at once. */
    method Settle(rest: seq<byte>, ghost p: Program)
      requires Valid() && status.busy
      modifies this, rx
      ensures Valid() && rx == old(rx) && KeptHistory() && received == old(received) + rest
      ensures old(client && established && Leaves(rest)) ==> Exhausted([])
      ensures old(Reading(p)) && established ==>
                var unread := old(Unread()) + rest;
                && Reading(p)
                && (log.results, Unread()) ==
                   if unread == [] then (old(log.results), unread) else Decode(p, old(log.results), unread, 1)
      ensures Passive(app) && old(Listening()) ==> Listening() && (rx.contents == [] || Declined())
      ensures rx.contents == [] ==> 100 <= rx.size <= 101
    {
      Keep(rest);
      HandleStored(p);
      GiveBack();
    }

    /** What was received is what the packets brought, and a packet without callback has left nothing to answer. */
    ghost predicate Level()
      reads this, rx
    {
      received == status.received && Prompt(log, status, Unread())
    }

    /** Something may come from outside. */
    lemma {:induction false} LevelSettled()
      requires Valid() && Level()
      ensures Settled(log, status) && Rest(log, status) == Unread()
    {
      assert status.received[|log.consumed|..] == Unread();
    }

    /** A packet comes, or the link changes. */
    method NoteOutside(e: Event)
      requires Valid() && Level() && e.Arrived?
      modifies this`log, this`status
      ensures Valid() && log == old(log).Add(e) && status == Next(app, old(log), old(status), e)
      ensures log.results == old(log.results)
    {
      LevelSettled();
      InOrderOutside(app, log, status, Fields(), e);
      Note(e);
    }

    /** `_rxData(buf, len)`: a packet from the network. */
    method RxData(packet: seq<byte>, ghost p: Program)
      requires Valid() && Level()
      modifies this, rx
      ensures Valid() && rx == old(rx) && established == old(established) && (client ==> old(client))
      ensures status.outside == old(status.outside) + [Packet(packet)] && old(log.results) <= log.results
      ensures received == old(received) + if old(client && established) then packet else []
      ensures !old(client && established) ==> log == old(log).Add(Arrived(packet)) && Fields() == old(Fields())
      ensures Level()
      // the requests of `p` are answered at exactly the pace of PacedDecoder
      ensures old(Reading(p)) && established ==>
                Reading(p) && (log.results, Unread()) == AfterPacket(p, old(log.results), old(Unread()), packet)
      // in FREE mode a handler that calls nothing has been offered everything that is left
      ensures Passive(app) && old(Listening()) ==> Listening() && (rx.contents == [] || Declined())
      // an empty buffer gives its memory back
      ensures old(client && established) && rx.contents == [] ==> 100 <= rx.size <= 101
    {
      NoteOutside(Arrived(packet));
      assert received + [] == received;
      if !client || !established {
        return;
      }
      Heed(packet, p);
    }

    /** A packet for a client that is connected. */
    method Heed(packet: seq<byte>, ghost p: Program)
      requires Valid() && status.busy && client && established
      modifies this, rx
      ensures Valid() && rx == old(rx) && KeptHistory() && received == old(received) + packet
      // no callback is called only if nothing waits or what has come is not enough
      ensures |log.events| == |old(log.events)| ==> Unanswered(status.active, Unread())
      ensures old(Reading(p)) && established ==>
                Reading(p) && (log.results, Unread()) == AfterPacket(p, old(log.results), old(Unread()), packet)
      ensures Passive(app) && old(Listening()) ==> Listening() && (rx.contents == [] || Declined())
      ensures rx.contents == [] ==> 100 <= rx.size <= 101
    {
      var rest := HandleFresh(packet, p);
      Settle(rest, p);
      if Stalled() {
        assert rx.contents == [] ==> Unread() == taken;
        FitsStalled(status, Fields(), Unread());
      }
    }

    /** The packets of a conversation from the `i`-th on. */
    method Hear(p: Program, packets: seq<seq<byte>>, i: nat)
      requires Valid() && Level() && established && Reading(p) && i <= |packets|
      requires (log.results, Unread()) == Paced(p, packets[..i])
      modifies this, rx
      ensures Valid() && Reading(p) && (log.results, Unread()) == Paced(p, packets)
      decreases |packets| - i
    {
      if i < |packets| {
        assert packets[..i + 1][..i] == packets[..i];
        RxData(packets[i], p);
        Hear(p, packets, i + 1);
      } else {
        assert packets[..i] == packets;
      }
    }

    /** A call from the foreground. */
    method Ask(call: Command)
      requires Valid() && Level()
      modifies this
      ensures Valid() && rx == old(rx) && established == old(established)
      ensures status.outside == old(status.outside) + [Api(call)]
      ensures Level()
    {
      LevelSettled();
      Assoc(log.consumed, taken, rx.contents);
      Call(call);
      Assoc(log.consumed, taken, rx.contents);
    }

    /** The connection comes up or goes. */
    method Relink(up: bool)
      requires Valid() && Level()
      modifies this`established, this`log, this`status
      ensures Valid() && status.outside == old(status.outside) + [Link(up)]
      ensures Level()
    {
      LevelSettled();
      InOrderOutside(app, log, status, Fields(), Linked(up));
      established := up;
      Note(Linked(up));
    }

    /** One step of a session. */
    method Advance(s: Step)
      requires Valid() && Level()
      modifies this, rx
      ensures Valid() && Level() && rx == old(rx) && status.outside == old(status.outside) + [s]
    {
      match s
      case Packet(data) => RxData(data, _ => None);
      case Api(call) => Ask(call);
      case Link(up) => Relink(up);
    }

    /** The steps of a session from the `i`-th on. */
    method Play(steps: seq<Step>, i: nat)
      requires Valid() && Level() && i <= |steps| && status.outside == steps[..i]
      modifies this, rx
      ensures Valid() && Level() && status.outside == steps
      decreases |steps| - i
    {
      if i < |steps| {
        Advance(steps[i]);
        assert steps[..i + 1] == steps[..i] + [steps[i]];
        Play(steps, i + 1);
      } else {
        assert steps[..i] == steps;
      }
    }

    /** What a session comes to. */
    lemma {:induction false} Ended()
      requires Valid() && Level()
      ensures Genuine(app, log.trail) && log == Replay(log.trail) && StatusOf(app, log.trail) == status
      ensures Settled(log, status) && Rest(log, status) == Unread()
      ensures log.consumed + Unread() == status.received
    {
      LevelSettled();
      assert Genuine(app, log.trail) && log == Replay(log.trail);
    }
  }

  /** How far the loop over a packet has come: to `goal`, or to where Greedy goes on with `rest`. */
  ghost predicate Halfway(p: Program, goal: (seq<seq<byte>>, seq<byte>), res: seq<seq<byte>>, unread: seq<byte>,
                          rest: seq<byte>, handled: nat) {
    || (handled > 0 && unread == [] && goal == Greedy(p, res, rest))
    || (goal == (res, unread + rest) && (handled == 0 || rest == []))
  }

  /** `handled` bytes of `buf`, behind `unread`, answered the request or were all taken. */
  predicate Answered(p: Program, res: seq<seq<byte>>, unread: seq<byte>, buf: seq<byte>, handled: nat,
                     res': seq<seq<byte>>, unread': seq<byte>)
    requires handled <= |buf|
  {
    match p(res)
    case None => handled == 0 && res' == res && unread' == unread
    case Some(r) =>
      match Take(r, unread + buf[..handled])
      case None => handled == |buf| && res' == res && unread' == unread + buf
      case Some((v, rest)) => res' == res + [v] && unread' == rest && (handled > 0 ==> rest == [])
  }

  /** The first look at a packet. */
  lemma {:induction false} FirstLook(p: Program, res: seq<seq<byte>>, unread: seq<byte>, packet: seq<byte>,
                                     handled: nat,
                                     res': seq<seq<byte>>, unread': seq<byte>)
    requires p(res).Some? && handled <= |packet| && Answered(p, res, unread, packet, handled, res', unread')
    ensures Halfway(p, InPacket(p, res, unread, packet), res', unread', packet[handled..], handled)
  {
    var r, front, back := p(res).value, packet[..handled], packet[handled..];
    assert packet == front + back && unread + packet == (unread + front) + back;
    if Take(r, unread).Some? {
      TakeExtend(r, unread, front);
      assert handled == 0;
      assert unread + front == unread;
    } else if Take(r, unread + front).Some? {
      assert unread + [] == unread;
      assert handled > 0;
      TakeExtend(r, unread + front, back);
      assert [] + back == back;
    } else {
      assert front == packet && back == [];
      assert (unread + packet) + [] == unread + packet;
    }
  }

  /** When the loop ends, the goal is reached. */
  lemma {:induction false} Reached(p: Program, goal: (seq<seq<byte>>, seq<byte>), res: seq<seq<byte>>,
                                   unread: seq<byte>,
                                   rest: seq<byte>, handled: nat)
    requires Halfway(p, goal, res, unread, rest, handled) && (p(res).None? || handled == 0 || rest == [])
    ensures goal == (res, unread + rest)
  {
    assert unread == [] ==> unread + rest == rest;
  }

  /** Another look, with nothing stored. */
  lemma {:induction false} NextLook(p: Program, goal: (seq<seq<byte>>, seq<byte>), res: seq<seq<byte>>, buf: seq<byte>,
                                    handled: nat, res': seq<seq<byte>>, unread': seq<byte>)
    requires buf != [] && p(res).Some? && goal == Greedy(p, res, buf)
    requires handled <= |buf| && Answered(p, res, [], buf, handled, res', unread')
    ensures Halfway(p, goal, res', unread', buf[handled..], handled)
  {
    FirstLook(p, res, [], buf, handled, res', unread');
    assert [] + buf == buf;
  }

  /**
   * Runs `p` from its first request over a stream that arrives as `packets`. The results are those that PacedDecoder
   * gives for these packets: each is what was asked for, and put together again, with what ended them (`ends`), and
   * with what is `unread`, they are the stream. They are all that the stream holds exactly if what is unread does not
   * answer the next request.
   */
  method Converse(app: App, p: Program, packets: seq<seq<byte>>)
    returns (results: seq<seq<byte>>, ghost ends: seq<seq<byte>>, ghost unread: seq<byte>)
    requires WellBehaved(app) && Follows(app, p)
    ensures (results, unread) == Paced(p, packets)
    ensures ReadOff(p, Concat(packets), results, ends, unread)
    ensures Decodes(p, Concat(packets), results)
    ensures DecodesAll(p, Concat(packets), results) <==> Stuck(p, results, unread)
    // what was asked for has the length that was asked for, or no end in it
    ensures forall i :: 0 <= i < |results| ==>
              match p(results[..i])
              case Some(Exactly(n)) => |results[i]| == n
              case Some(Until(t)) => t !in results[i] && 0 !in results[i] && (ends[i] == [t] || ends[i] == [0])
              case None => false
  {
    var b := new RxBuffer(app);
    b.Begin(p);
    assert packets[..0] == [];
    b.Hear(p, packets, 0);
    results, unread := b.log.results, b.Unread();
    PacedDecodes(p, packets);
    CompleteIff(p, Concat(packets), results, unread);
    ends := DecodeReadsOff(p, Concat(packets), |results|);
    assert forall i :: 0 <= i < |results| ==> Meets(p(results[..i]).value, results[i], ends[i]);
  }

  /** Two ways of cutting one stream into packets never disagree: one run is at most further along. */
  lemma {:induction false} SegmentationIndependence(p: Program, s: seq<byte>, a: seq<seq<byte>>, b: seq<seq<byte>>)
    requires Decodes(p, s, a) && Decodes(p, s, b)
    ensures a <= b || b <= a
  {
    if |a| <= |b| {
      DecodeMonotone(p, [], s, |a|, |b|);
    } else {
      DecodeMonotone(p, [], s, |b|, |a|);
    }
  }

  /**
   * A whole session, for every application and every mixture of modes. The bytes that the events account for, followed
   * by those still unread, are the bytes of the packets that came while the link was up and the client was there.
   * Every event is one that may happen: handlers are charged with what they claim, requests complete with what they
   * asked for, and all calls are those of the foreground and of the callbacks.
   */
  method Session(app: App, steps: seq<Step>) returns (log: History, unread: seq<byte>)
    requires WellBehaved(app)
    ensures Genuine(app, log.trail) && log == Replay(log.trail)
    ensures var st := StatusOf(app, log.trail); st.outside == steps && Settled(log, st)
    ensures log.consumed + unread == Heard(log.events) && unread == UnreadOf(log.events)
    // what came over the network is what the events show, and every callback's calls follow it
    ensures Came(log.events) == Network(steps) && AllCallsMade(app, log.events)
    // nothing is answered that the last call did not ask for, and what can be answered is answered at once
    ensures AllSensible(log.events) && Complete(log.events)
    // so a packet for a handler is shown to it
    ensures AllShown(log.events)
  {
    var b := new RxBuffer(app);
    b.Play(steps, 0);
    b.Ended();
    log, unread := b.log, b.taken + b.rx.contents;
    Lawful(app, log.trail);
    assert unread == b.Unread() == Rest(log, b.status) == UnreadOf(log.events);
  }
}
