/** What comes to an AsyncTCPbuffer, what its application is told and calls, and which sequences of that make sense. */
module RxTraces {
  import opened Bytes

  /** API calls. The flags say whether the pointer arguments are non-null. */
  datatype Command =
    | CallReadBytes(dst: bool, n: nat, done: bool)
    | CallReadStringUntil(t: byte, str: bool, done: bool)
    | CallOnData(handler: bool)
    | CallNoCallback
    | CallStop

  /** What comes from outside: a packet, an API call from the foreground, a change of the link. */
  datatype Step = Packet(data: seq<byte>) | Api(call: Command) | Link(established: bool)

  /**
   * What happens between the network, the application and the buffer. The data handler is offered what is stored,
   * perhaps with a packet `behind` it, or else a packet.
   */
  datatype Event =
    | Arrived(data: seq<byte>)                          // a packet
    | Linked(established: bool)                         // the connection is up, or not
    | Chunk(offered: seq<byte>, n: nat, behind: bool)   // the data handler consumed n of what it was offered
    | Done(data: seq<byte>)                             // readBytes completed
    | DoneString(text: seq<byte>, end: byte)            // readStringUntil completed
    | Failed                                            // done(false) from stop()
    | Called(call: Command, dropped: seq<byte>)         // a call, and what the request that it replaces had taken

  /** The bytes of the stream that an event accounts for. */
  function BytesOf(e: Event): seq<byte> {
    match e
    case Chunk(offered, n, _) => offered[..Min(n, |offered|)]
    case Done(data) => data
    case DoneString(text, end) => text + [end]
    case Called(_, dropped) => dropped
    case _ => []
  }

  /** The result a completed request delivers, if the event is one. */
  function ResultOf(e: Event): seq<seq<byte>> {
    match e
    case Done(data) => [data]
    case DoneString(text, end) => [text]
    case _ => []
  }

  /** One event after another. */
  datatype Trail = Start | After(before: Trail, last: Event)

  /** What has happened so far, and the events in order, the bytes they account for, the results they delivered. */
  datatype History = History(trail: Trail, events: seq<Event>, consumed: seq<byte>, results: seq<seq<byte>>) {
    function Add(e: Event): History {
      History(After(trail, e), events + [e], consumed + BytesOf(e), results + ResultOf(e))
    }
  }

  const NOTHING := History(Start, [], [], [])

  function Replay(trail: Trail): History {
    match trail
    case Start => NOTHING
    case After(before, last) => Replay(before).Add(last)
  }

  /**
   * The application: what its callbacks do, as a function of everything it has seen.
   * A data handler also says how many of the offered bytes it consumed.
   */
  datatype App = App(onDone: History -> seq<Command>,
                     onData: (History, seq<byte>) -> (nat, seq<Command>))

  /** A data handler must not claim more bytes than it was offered. */
  ghost predicate WellBehaved(app: App) {
    forall h, offered :: app.onData(h, offered).0 <= |offered|
  }

  /** Where the events have led. */
  datatype Status = Status(
    client: bool,               // nobody has let go of the client
    link: bool,                 // the connection is up
    received: seq<byte>,        // the packets that came while both held
    busy: bool,                 // such a packet is being handled
    active: Option<Command>,    // the call that is in force
    latest: Option<Command>,    // the last one that was, even if noCallback() has suspended it
    failing: bool,              // done(false) comes next
    again: bool,                // the handler has taken all that was stored, and is offered the packet as well
    owed: seq<Command>,         // what the callback that is running has still to call
    outside: seq<Step>          // what has come from outside
  )

  /** At first the buffer is in FREE mode, without a handler. */
  const INITIAL := Status(true, true, [], false, Some(CallOnData(false)), None, false, false, [], [])

  predicate IsRequest(c: Command) {
    c.CallReadBytes? || c.CallReadStringUntil?
  }

  /** A request with a done callback. */
  predicate Expects(active: Option<Command>) {
    active.Some? && IsRequest(active.value) && active.value.done
  }

  /** A call is one that the running callback owed, or comes from the foreground. */
  function Count(st: Status, c: Command): Status {
    if st.owed != [] then st.(owed := st.owed[1..]) else st.(busy := false, outside := st.outside + [Api(c)])
  }

  /** What a call changes. Without a client, calls have no effect. */
  function AfterCall(st: Status, c: Command): Status {
    var made := Count(st, c);
    if !st.client then made
    else
      match c
      case CallStop => made.(client := false, active := None, failing := Expects(st.active))
      case CallNoCallback => made.(active := None)
      case _ => made.(active := Some(c), latest := Some(c))
  }

  function Next(app: App, h: History, st: Status, e: Event): Status {
    match e
    case Arrived(data) =>
      var heard := st.client && st.link;
      st.(busy := heard, received := st.received + if heard then data else [], outside := st.outside + [Packet(data)])
    case Linked(up) => st.(busy := false, link := up, outside := st.outside + [Link(up)])
    case Chunk(offered, n, behind) => st.(again := behind && n == |offered|, owed := app.onData(h, offered).1)
    case Done(_) => st.(active := None, latest := None, owed := app.onDone(h.Add(e)))
    case DoneString(_, _) => st.(active := None, latest := None, owed := app.onDone(h.Add(e)))
    case Failed => st.(failing := false)
    case Called(c, _) => AfterCall(st, c)
  }

  /** `d` is what a request may have taken without being complete. */
  predicate Partial(request: Option<Command>, d: seq<byte>) {
    match request
    case Some(CallReadBytes(_, n, _)) => |d| <= n
    case Some(CallReadStringUntil(t, _, _)) => t !in d && 0 !in d
    case _ => d == []
  }

  /** Nothing has come from outside. */
  predicate Inside(st: Status, st': Status) {
    st'.outside == st.outside && st'.received == st.received && st'.busy == st.busy && st'.link == st.link
  }

  /** No callback is running, and none has to follow the last one. */
  predicate Quiet(st: Status) {
    st.owed == [] && !st.failing && !st.again
  }

  /** The unread bytes answer the call `c`. */
  predicate Answerable(c: Command, unread: seq<byte>) {
    match c
    case CallOnData(handler) => handler && unread != []
    case CallReadBytes(dst, n, done) => dst && done && n <= |unread|
    case CallReadStringUntil(t, str, done) => str && done && (t in unread || 0 in unread)
    case _ => false
  }

  /** They do not answer the call in force. */
  predicate Unanswered(active: Option<Command>, unread: seq<byte>) {
    active.Some? ==> !Answerable(active.value, unread)
  }

  /** Something has happened since the last packet. */
  predicate Spoken(log: History) {
    log.trail.After? && !log.trail.last.Arrived?
  }

  /** A packet that led to no callback has left nothing that could be answered. */
  predicate Prompt(log: History, st: Status, unread: seq<byte>) {
    log.trail.After? && !Spoken(log) && st.client && st.link ==> Unanswered(st.active, unread)
  }

  /** What has been received and is not accounted for. */
  function Rest(log: History, st: Status): seq<byte> {
    if |log.consumed| <= |st.received| then st.received[|log.consumed|..] else []
  }

  /** The last packet has been dealt with, so that something may come from outside. */
  predicate Settled(log: History, st: Status) {
    Quiet(st) && log.consumed <= st.received && Prompt(log, st, Rest(log, st))
  }

  /** The call `c` can come: from the callback that is running, or from outside. */
  predicate Ready(log: History, st: Status, c: Command) {
    !st.failing && if st.owed != [] then c == st.owed[0] else Settled(log, st)
  }

  /** A packet goes to the handler of which all that was stored has gone, whatever that has called meanwhile. */
  predicate AllowedChunk(app: App, h: History, st: Status, offered: seq<byte>, n: nat, behind: bool) {
    && st.busy && st.owed == [] && !st.failing && n == app.onData(h, offered).0 <= |offered|
    && if st.again then !behind else st.active == Some(CallOnData(true))
  }

  /**
   * `e` can happen: callbacks come while a packet is handled, are for the call in force, deliver what it asked for,
   * and make their calls at once. Nothing comes from outside while a packet without callback could be answered.
   */
  predicate Allowed(app: App, h: History, st: Status, e: Event) {
    match e
    case Arrived(_) => Settled(h, st)
    case Linked(_) => Settled(h, st)
    case Chunk(offered, n, behind) => AllowedChunk(app, h, st, offered, n, behind)
    case Failed => st.failing
    case Called(c, dropped) =>
      Ready(h, st, c) && if Replaces(st.client, c) then Partial(st.latest, dropped) else dropped == []
    case _ => st.busy && Quiet(st) && st.active.Some? && Delivers(e, st.active.value)
  }

  /** `e` delivers what the call `c` asked for. */
  predicate Delivers(e: Event, c: Command) {
    match e
    case Done(data) => c == CallReadBytes(true, |data|, true)
    case DoneString(text, end) =>
      c.CallReadStringUntil? && c.str && c.done && c.t !in text && 0 !in text && (end == c.t || end == 0)
    case _ => false
  }

  /** The call installs a request or a handler. */
  predicate Replaces(client: bool, c: Command) {
    client && (IsRequest(c) || c.CallOnData?)
  }

  function StatusOf(app: App, trail: Trail): Status {
    match trail
    case Start => INITIAL
    case After(before, last) => Next(app, Replay(before), StatusOf(app, before), last)
  }

  ghost predicate Genuine(app: App, trail: Trail) {
    match trail
    case Start => true
    case After(before, last) => Genuine(app, before) && Allowed(app, Replay(before), StatusOf(app, before), last)
  }

  /** `log` is what its events come to, every one of them was allowed, and `st` is where they have led. */
  ghost predicate Truthful(app: App, log: History, st: Status) {
    forall t | t == log.trail :: log == Replay(t) && st == StatusOf(app, t) && Genuine(app, t)
  }

  lemma {:induction false} TruthfulAdd(app: App, log: History, st: Status, e: Event)
    requires Truthful(app, log, st) && Allowed(app, log, st, e)
    ensures Truthful(app, log.Add(e), Next(app, log, st, e))
  {
    assert Genuine(app, log.trail) && log == Replay(log.trail);
  }

  // ---- What the buffer knows of it -------------------------------------------------------------

  datatype Mode = ModeNone | ModeFree | ModeReadBytes | ModeString

  /** The fields of a buffer that calls set, and the bytes stored through the pointer of the current request. */
  datatype Setup = Setup(client: bool, mode: Mode, bytesPtr: bool, strPtr: bool, cbRX: bool, cbDone: bool,
                         size: nat, terminator: byte, taken: seq<byte>)

  /** What a call does to them. */
  function Applied(u: Setup, c: Command): Setup {
    if !u.client then (if c.CallNoCallback? then u.(mode := ModeNone) else u)
    else
      match c
      case CallReadBytes(dst, n, done) =>
        u.(mode := ModeReadBytes, bytesPtr := dst, cbDone := done, size := n, taken := [])
      case CallReadStringUntil(t, str, done) =>
        u.(mode := ModeString, strPtr := str, cbDone := done, terminator := t, size := 0, taken := [])
      case CallOnData(handler) => u.(mode := ModeFree, cbDone := false, cbRX := handler, taken := [])
      case CallNoCallback => u.(mode := ModeNone)
      case CallStop => u.(client := false, mode := ModeNone)
  }

  /** The fields say what the calls and callbacks so far have led to. */
  predicate Fits(st: Status, u: Setup) {
    && st.client == u.client && (st.client || st.active.None?) && Partial(st.latest, u.taken)
    && match st.active
       case None => u.mode == ModeNone
       case Some(CallReadBytes(dst, n, done)) =>
         && st.latest == st.active && u.mode == ModeReadBytes
         && u.bytesPtr == dst && u.cbDone == done && u.size + |u.taken| == n
       case Some(CallReadStringUntil(t, str, done)) =>
         && st.latest == st.active && u.mode == ModeString && u.strPtr == str && u.cbDone == done && u.terminator == t
       case Some(CallOnData(handler)) => u.mode == ModeFree && u.cbRX == handler && u.taken == []
       case _ => false
  }

  lemma {:induction false} FitsCall(st: Status, u: Setup, c: Command)
    requires Fits(st, u)
    ensures Fits(AfterCall(st, c), Applied(u, c))
  {
    assert Fits(Count(st, c), u);
  }

  /** Whether stop() has to call the done callback. */
  lemma {:induction false} FitsExpects(st: Status, u: Setup)
    requires Fits(st, u)
    ensures Expects(st.active) == (u.cbDone && (u.mode == ModeReadBytes || u.mode == ModeString))
  {
    match st.active
    case None =>
    case Some(c) =>
      match c
      case CallReadBytes(_, _, _) =>
      case CallReadStringUntil(_, _, _) =>
      case CallOnData(_) =>
      case _ =>
  }

  /** What a sequence of calls does. */
  function AppliedAll(u: Setup, cs: seq<Command>): Setup
    decreases |cs|
  {
    if cs == [] then u else AppliedAll(Applied(u, cs[0]), cs[1..])
  }

  /** A byte request takes as many bytes as it goes on to want less. */
  lemma {:induction false} FitsBytes(st: Status, u: Setup, d: seq<byte>)
    requires Fits(st, u) && u.mode == ModeReadBytes && |d| <= u.size
    ensures Fits(st, u.(taken := u.taken + d, size := u.size - |d|))
  {
  }

  /** A string request takes a character that does not end its string. */
  lemma {:induction false} FitsCharacter(st: Status, u: Setup, c: byte)
    requires Fits(st, u) && u.mode == ModeString && c != u.terminator && c != 0
    ensures u.terminator !in u.taken && 0 !in u.taken
    ensures Fits(st, u.(taken := u.taken + [c]))
  {
  }

  /** The bytes accounted for, and those of the current request, are the same in all; nothing completed. */
  predicate SameFlow(log: History, taken: seq<byte>, log': History, taken': seq<byte>) {
    && log.events <= log'.events && log.results == log'.results
    && log.consumed + taken == log'.consumed + taken'
  }

  /** A call moves what the current request has taken into the account, or leaves it there. */
  lemma {:induction false} SameFlowCall(log: History, u: Setup, c: Command)
    ensures SameFlow(log, u.taken, log.Add(CallEvent(u, c)), Applied(u, c).taken)
  {
  }

  function CallEvent(u: Setup, c: Command): Event {
    Called(c, if Replaces(u.client, c) then u.taken else [])
  }

  /** The events were allowed, `st` is where they have led, and the fields agree with it. */
  ghost predicate InOrder(app: App, log: History, st: Status, u: Setup) {
    Truthful(app, log, st) && !st.failing && Fits(st, u)
  }

  /** The call `c` was made: this is what it changes. */
  predicate CallMade(log: History, st: Status, u: Setup, c: Command, log': History, st': Status, u': Setup) {
    && st' == AfterCall(st, c).(failing := false) && u' == Applied(u, c) && SameFlow(log, u.taken, log', u'.taken)
    && (log' == log.Add(CallEvent(u, c)) || (c.CallStop? && log' == log.Add(CallEvent(u, c)).Add(Failed)))
  }

  /** A call has been noted, and the fields have still to follow; so has `Failed`, if the call abandons a request. */
  ghost predicate CallNoted(app: App, log: History, st: Status, u: Setup, c: Command, log': History, st': Status) {
    var u' := Applied(u, c);
    && Truthful(app, log', st') && log' == log.Add(CallEvent(u, c)) && Fits(st', u')
    && CallMade(log, st, u, c, log', st'.(failing := false), u')
    && st'.failing == (c.CallStop? && u.client && u.cbDone && (u.mode == ModeReadBytes || u.mode == ModeString))
    && (st'.failing || (InOrder(app, log', st', u') && st'.(failing := false) == st'))
  }

  lemma {:induction false} InOrderCall(app: App, log: History, st: Status, u: Setup, c: Command)
    requires InOrder(app, log, st, u) && Ready(log, st, c)
    ensures Allowed(app, log, st, CallEvent(u, c)) && AfterCall(st, c) == Next(app, log, st, CallEvent(u, c))
    ensures CallNoted(app, log, st, u, c, log.Add(CallEvent(u, c)), AfterCall(st, c))
  {
    FitsCall(st, u, c);
    FitsExpects(st, u);
    SameFlowCall(log, u, c);
    TruthfulAdd(app, log, st, CallEvent(u, c));
  }

  /** A call that lets go of the client fails the request in force, if it has a done callback. */
  lemma {:induction false} InOrderFailed(app: App, log: History, st: Status, u: Setup)
    requires Truthful(app, log, st) && st.failing && Fits(st, u)
    ensures InOrder(app, log.Add(Failed), Next(app, log, st, Failed), u)
  {
    TruthfulAdd(app, log, st, Failed);
  }

  lemma {:induction false} CallFailed(log0: History, st0: Status, u0: Setup, log: History, st: Status, u: Setup)
    requires CallMade(log0, st0, u0, CallStop, log, st.(failing := false), u)
    requires log == log0.Add(CallEvent(u0, CallStop))
    ensures CallMade(log0, st0, u0, CallStop, log.Add(Failed), st.(failing := false), u)
  {
    assert log.Add(Failed).consumed == log.consumed && log.Add(Failed).results == log.results;
  }

  /** A request completes. */
  lemma {:induction false} InOrderDone(app: App, log: History, st: Status, u: Setup, e: Event)
    requires InOrder(app, log, st, u) && Allowed(app, log, st, e) && ResultOf(e) != []
    ensures InOrder(app, log.Add(e), Next(app, log, st, e), u.(mode := ModeNone, taken := []))
    ensures Next(app, log, st, e) == st.(active := None, latest := None, owed := app.onDone(log.Add(e)))
  {
    TruthfulAdd(app, log, st, e);
  }

  /** The handler is offered something. */
  lemma {:induction false} InOrderChunk(app: App, log: History, st: Status, u: Setup, e: Event)
    requires InOrder(app, log, st, u) && Allowed(app, log, st, e) && e.Chunk?
    ensures InOrder(app, log.Add(e), Next(app, log, st, e), u)
    ensures Next(app, log, st, e) == st.(again := e.behind && e.n == |e.offered|, owed := app.onData(log, e.offered).1)
  {
    TruthfulAdd(app, log, st, e);
  }

  /** A packet comes, or the link changes. */
  lemma {:induction false} InOrderOutside(app: App, log: History, st: Status, u: Setup, e: Event)
    requires InOrder(app, log, st, u) && Settled(log, st) && (e.Arrived? || e.Linked?)
    ensures InOrder(app, log.Add(e), Next(app, log, st, e), u) && Quiet(Next(app, log, st, e))
    ensures log.Add(e).consumed == log.consumed && log.Add(e).results == log.results
  {
    TruthfulAdd(app, log, st, e);
  }

  /** All bytes are where they are wanted, and not enough. */
  lemma {:induction false} FitsStalled(st: Status, u: Setup, unread: seq<byte>)
    requires Fits(st, u) && (Unwanted(u) || (unread == u.taken && (u.mode == ModeReadBytes ==> u.size > 0)))
    ensures Unanswered(st.active, unread)
  {
  }

  /** Nothing waits for bytes. */
  predicate Unwanted(u: Setup) {
    match u.mode
    case ModeNone => true
    case ModeFree => !u.cbRX
    case ModeReadBytes => !u.bytesPtr || !u.cbDone
    case ModeString => !u.strPtr || !u.cbDone
  }
}
