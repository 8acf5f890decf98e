/**
 * What it means for the events of a run that every one of them was allowed: what was asked for is answered at once and
 * nothing else is, calls come from whom they should, and nothing of the network is missing. No state is carried along.
 */
module RxLaws {
  import opened Bytes
  import opened RxTraces

  /** What may come between a call and its answer. */
  predicate Passing(e: Event) {
    e.Arrived? || e.Linked? || e.Chunk?
  }

  predicate AllPassing(events: seq<Event>) {
    forall j :: 0 <= j < |events| ==> Passing(events[j])
  }

  /** The last call was `c`, at event `k`. */
  ghost predicate LastCall(events: seq<Event>, c: Command, k: nat) {
    k < |events| && events[k].Called? && events[k].call == c && forall j :: k < j < |events| ==> Passing(events[j])
  }

  /** Nobody has let go of the client. */
  predicate Kept(events: seq<Event>) {
    forall j :: 0 <= j < |events| && events[j].Called? ==> events[j].call != CallStop
  }

  /** The connection has come up again whenever it was lost. */
  ghost predicate LinkUp(events: seq<Event>) {
    forall j :: 0 <= j < |events| && events[j] == Linked(false) ==> Restored(events, j)
  }

  ghost predicate Restored(events: seq<Event>, j: nat) {
    exists m :: j < m < |events| && events[m] == Linked(true)
  }

  /** The packets that came while it was up and the client was there. */
  ghost function Heard(events: seq<Event>): seq<byte> {
    if events == [] then []
    else
      var front, last := events[..|events| - 1], events[|events| - 1];
      Heard(front) + if last.Arrived? && LinkUp(front) && Kept(front) then last.data else []
  }

  /** The history that the events make. */
  function HistoryOf(events: seq<Event>): History {
    if events == [] then NOTHING else HistoryOf(events[..|events| - 1]).Add(events[|events| - 1])
  }

  /** What has been heard and is not accounted for. */
  ghost function UnreadOf(events: seq<Event>): seq<byte> {
    var consumed := HistoryOf(events).consumed;
    if |consumed| <= |Heard(events)| then Heard(events)[|consumed|..] else []
  }

  lemma {:induction false} LastCallSnoc(events: seq<Event>, e: Event, c: Command, k: nat)
    ensures LastCall(events + [e], c, k) <==>
            if Passing(e) then LastCall(events, c, k) else e.Called? && e.call == c && k == |events|
  {
    var more := events + [e];
    assert more[|events|] == e && forall j :: 0 <= j < |events| ==> more[j] == events[j];
    if LastCall(events, c, k) && Passing(e) {
      assert LastCall(more, c, k);
    }
  }

  lemma {:induction false} KeptSnoc(events: seq<Event>, e: Event)
    ensures Kept(events + [e]) <==> Kept(events) && !(e.Called? && e.call == CallStop)
    ensures AllPassing(events + [e]) <==> AllPassing(events) && Passing(e)
  {
    var more := events + [e];
    assert more[|events|] == e && forall j :: 0 <= j < |events| ==> more[j] == events[j];
  }

  /** What is in force is what the last call asked for, whichever it was; at first, FREE mode without a handler. */
  ghost predicate InForce(events: seq<Event>, st: Status) {
    && st.client == Kept(events) && (st.failing ==> !st.client) && (!st.client ==> st.active.None?)
    && (AllPassing(events) ==> st.active == Some(CallOnData(false)))
    && (forall c, k :: LastCall(events, c, k) && st.client ==> st.active == if c.CallNoCallback? then None else Some(c))
    && (st.active.Some? ==> AllPassing(events) || exists k :: LastCall(events, st.active.value, k))
  }

  lemma {:induction false} InForceStep(app: App, h: History, st: Status, e: Event)
    requires Allowed(app, h, st, e) && InForce(h.events, st)
    ensures InForce(h.events + [e], Next(app, h, st, e))
  {
    var events, st' := h.events, Next(app, h, st, e);
    KeptSnoc(events, e);
    forall c, k | LastCall(events + [e], c, k) && st'.client
      ensures st'.active == if c.CallNoCallback? then None else Some(c)
    {
      LastCallSnoc(events, e, c, k);
    }
    if st'.active.Some? && !AllPassing(events + [e]) {
      if Passing(e) {
        var k :| LastCall(events, st.active.value, k);
        LastCallSnoc(events, e, st.active.value, k);
      } else {
        LastCallSnoc(events, e, st'.active.value, |events|);
      }
    }
  }

  /** The link and what has been received are what the events say. */
  ghost predicate Shows(events: seq<Event>, st: Status) {
    st.link == LinkUp(events) && st.received == Heard(events)
  }

  lemma {:induction false} LinkSnoc(events: seq<Event>, e: Event)
    ensures LinkUp(events + [e]) == if e.Linked? then e.established else LinkUp(events)
  {
    var more := events + [e];
    assert more[|events|] == e && forall j :: 0 <= j < |events| ==> more[j] == events[j];
    if e == Linked(true) {
      assert forall j :: 0 <= j < |events| && more[j] == Linked(false) ==> more[|events|] == Linked(true);
    } else if e == Linked(false) {
      assert !Restored(more, |events|);
    } else {
      forall j: nat | j < |events|
        ensures Restored(more, j) == Restored(events, j)
      {
        if Restored(events, j) {
          var m :| j < m < |events| && events[m] == Linked(true);
          assert more[m] == Linked(true);
        }
      }
    }
  }

  lemma {:induction false} HeardSnoc(events: seq<Event>, e: Event)
    ensures Heard(events + [e]) ==
            if e.Arrived? && LinkUp(events) && Kept(events) then Heard(events) + e.data else Heard(events)
  {
    assert (events + [e])[..|events|] == events;
    assert Heard(events) + [] == Heard(events);
  }

  /** What an event changes of the link and of what has been received. */
  lemma {:induction false} LinkStep(app: App, h: History, st: Status, e: Event)
    ensures var st' := Next(app, h, st, e);
            && st'.link == (if e.Linked? then e.established else st.link)
            && st'.received == if e.Arrived? && st.link && st.client then st.received + e.data else st.received
  {
    assert st.received + [] == st.received;
  }

  lemma {:induction false} ShowsStep(app: App, h: History, st: Status, e: Event)
    requires Shows(h.events, st) && st.client == Kept(h.events)
    ensures Shows(h.events + [e], Next(app, h, st, e))
  {
    LinkSnoc(h.events, e);
    HeardSnoc(h.events, e);
    LinkStep(app, h, st, e);
  }

  // ---- Answers come at once, and only then ------------------------------------------------------

  /** A handler was installed last, or has taken all that was stored and is offered the packet behind it. */
  ghost predicate Listens(events: seq<Event>) {
    (exists k :: LastCall(events, CallOnData(true), k)) || Continues(events)
  }

  ghost predicate Continues(events: seq<Event>) {
    exists j :: EmptiedAt(events, j)
  }

  /** Event `j` left nothing of what was stored, a packet was behind that, and only calls have come since. */
  ghost predicate EmptiedAt(events: seq<Event>, j: nat) {
    && j < |events| && events[j].Chunk? && events[j].behind && events[j].n == |events[j].offered|
    && forall m :: j < m < |events| ==> events[m].Called? || events[m].Failed?
  }

  /** stop() has just let go of the client and of a request that expects an answer. */
  ghost predicate Abandoned(events: seq<Event>) {
    && events != [] && var front, last := events[..|events| - 1], events[|events| - 1];
    && last.Called? && last.call == CallStop && Kept(front)
    && exists c, k :: LastCall(front, c, k) && IsRequest(c) && c.done
  }

  /** A packet has just been heard, and now what is unread answers the last call. */
  ghost predicate Outstanding(events: seq<Event>, c: Command) {
    && events != [] && events[|events| - 1].Arrived? && LinkUp(events) && Kept(events)
    && (exists k :: LastCall(events, c, k)) && Answerable(c, UnreadOf(events))
  }

  predicate Responds(e: Event, c: Command) {
    if c.CallOnData? then e.Chunk? else Delivers(e, c)
  }

  /**
   * How `e` follows the events before it: only what was asked for is answered, what can be answered is answered at
   * once, and when something comes from outside, what is accounted for is the beginning of what has been heard.
   */
  ghost predicate Sensible(before: seq<Event>, e: Event) {
    && (e.Chunk? ==> Listens(before))
    && (ResultOf(e) != [] ==> exists c, k :: LastCall(before, c, k) && Delivers(e, c))
    && (e.Failed? <==> Abandoned(before))
    && (forall c :: Outstanding(before, c) ==> Responds(e, c))
    && (e.Arrived? || e.Linked? ==> HistoryOf(before).consumed <= Heard(before))
  }

  ghost predicate SensibleAt(events: seq<Event>, i: nat)
    requires i < |events|
  {
    Sensible(events[..i], events[i])
  }

  ghost predicate AllSensible(events: seq<Event>) {
    forall i :: 0 <= i < |events| ==> SensibleAt(events, i)
  }

  /** Nothing that should have followed is missing at the end. */
  ghost predicate Complete(events: seq<Event>) {
    !Abandoned(events) && forall c :: !Outstanding(events, c)
  }

  /** What the status says of the events. */
  ghost predicate Traced(h: History, st: Status) {
    && InForce(h.events, st) && Shows(h.events, st) && Recorded(h, st)
    && (st.failing <==> Abandoned(h.events)) && (st.again ==> Continues(h.events))
  }

  /** The history is that of its events, and a packet that has just come finds no callback running. */
  ghost predicate Recorded(h: History, st: Status) {
    && h == HistoryOf(h.events) && h.trail.After? == (h.events != [])
    && (h.trail.After? ==> h.events[|h.events| - 1] == h.trail.last)
    && (h.trail.After? && h.trail.last.Arrived? ==> Quiet(st))
  }

  lemma {:induction false} RecordedStep(app: App, h: History, st: Status, e: Event)
    requires Recorded(h, st) && Allowed(app, h, st, e)
    ensures Recorded(h.Add(e), Next(app, h, st, e))
  {
    assert (h.events + [e])[..|h.events|] == h.events;
  }

  /** When `Failed` has to come next. */
  lemma {:induction false} FailingStep(app: App, h: History, st: Status, e: Event)
    requires Allowed(app, h, st, e) && (st.failing ==> !st.client)
    ensures Next(app, h, st, e).failing == (e.Called? && e.call == CallStop && st.client && Expects(st.active))
  {
  }

  lemma {:induction false} AbandonedSnoc(events: seq<Event>, e: Event)
    ensures Abandoned(events + [e]) <==>
            && e.Called? && e.call == CallStop && Kept(events)
            && exists c, k :: LastCall(events, c, k) && IsRequest(c) && c.done
  {
    assert (events + [e])[..|events|] == events && (events + [e])[|events|] == e;
  }

  lemma {:induction false} ExpectsLast(events: seq<Event>, st: Status)
    requires InForce(events, st) && st.client
    ensures Expects(st.active) <==> exists c, k :: LastCall(events, c, k) && IsRequest(c) && c.done
  {
    if Expects(st.active) {
      assert !AllPassing(events);
      var k :| LastCall(events, st.active.value, k);
    }
  }

  lemma {:induction false} AbandonedStep(app: App, h: History, st: Status, e: Event)
    requires Traced(h, st) && Allowed(app, h, st, e)
    ensures Next(app, h, st, e).failing <==> Abandoned(h.events + [e])
  {
    FailingStep(app, h, st, e);
    AbandonedSnoc(h.events, e);
    if st.client {
      ExpectsLast(h.events, st);
    }
  }

  lemma {:induction false} ContinuesStep(app: App, h: History, st: Status, e: Event)
    requires Traced(h, st) && Allowed(app, h, st, e)
    ensures Next(app, h, st, e).again ==> Continues(h.events + [e])
  {
    if e.Chunk? && Next(app, h, st, e).again {
      assert EmptiedAt(h.events + [e], |h.events|);
    } else if (e.Called? || e.Failed?) && st.again {
      var j :| EmptiedAt(h.events, j);
      assert EmptiedAt(h.events + [e], j);
    }
  }

  lemma {:induction false} TracedStep(app: App, h: History, st: Status, e: Event)
    requires Traced(h, st) && Allowed(app, h, st, e)
    ensures Traced(h.Add(e), Next(app, h, st, e))
  {
    InForceStep(app, h, st, e);
    ShowsStep(app, h, st, e);
    AbandonedStep(app, h, st, e);
    ContinuesStep(app, h, st, e);
    RecordedStep(app, h, st, e);
    assert h.Add(e).events == h.events + [e];
  }

  lemma {:induction false} TracedAt(app: App, trail: Trail)
    requires Genuine(app, trail)
    ensures Traced(Replay(trail), StatusOf(app, trail))
  {
    if trail.After? {
      TracedAt(app, trail.before);
      TracedStep(app, Replay(trail.before), StatusOf(app, trail.before), trail.last);
    }
  }

  /** If something is outstanding, the packet has not been dealt with. */
  lemma {:induction false} NotPrompt(h: History, st: Status, c: Command)
    requires Traced(h, st) && Outstanding(h.events, c)
    ensures !Prompt(h, st, Rest(h, st)) && st.active == Some(c)
  {
    var k :| LastCall(h.events, c, k);
  }

  /** Everything that may happen follows sensibly. */
  lemma {:induction false} SensibleStep(app: App, h: History, st: Status, e: Event)
    requires Traced(h, st) && Allowed(app, h, st, e)
    ensures Sensible(h.events, e)
  {
    forall c | Outstanding(h.events, c)
      ensures Responds(e, c)
    {
      NotPrompt(h, st, c);
    }
    if e.Chunk? && !st.again {
      assert !AllPassing(h.events);
    }
    if ResultOf(e) != [] {
      assert !AllPassing(h.events) && Delivers(e, st.active.value);
    }
  }

  /** In every genuine run each event follows sensibly. */
  lemma {:induction false} EachSensible(app: App, trail: Trail, i: nat)
    requires Genuine(app, trail) && i < |Replay(trail).events|
    ensures SensibleAt(Replay(trail).events, i)
  {
    var before := Replay(trail.before);
    assert Replay(trail).events == before.events + [trail.last];
    if i < |before.events| {
      EachSensible(app, trail.before, i);
      assert Replay(trail).events[..i] == before.events[..i];
    } else {
      TracedAt(app, trail.before);
      SensibleStep(app, before, StatusOf(app, trail.before), trail.last);
      assert Replay(trail).events[..i] == before.events;
    }
  }

  /** A run that may stop where it does leaves nothing outstanding. */
  lemma {:induction false} Completes(app: App, trail: Trail)
    requires Genuine(app, trail) && Settled(Replay(trail), StatusOf(app, trail))
    ensures AllSensible(Replay(trail).events) && Complete(Replay(trail).events)
    ensures UnreadOf(Replay(trail).events) == Rest(Replay(trail), StatusOf(app, trail))
  {
    var events := Replay(trail).events;
    forall i | 0 <= i < |events|
      ensures SensibleAt(events, i)
    {
      EachSensible(app, trail, i);
    }
    TracedAt(app, trail);
    forall c | Outstanding(events, c)
      ensures false
    {
      NotPrompt(Replay(trail), StatusOf(app, trail), c);
    }
  }

  lemma {:induction false} Awaits(before: seq<Event>, e: Event, k: nat)
    requires e.Arrived? && e.data != [] && LinkUp(before) && Kept(before)
    requires LastCall(before, CallOnData(true), k) && HistoryOf(before).consumed <= Heard(before)
    ensures Outstanding(before + [e], CallOnData(true))
  {
    LastCallSnoc(before, e, CallOnData(true), k);
    LinkSnoc(before, e);
    KeptSnoc(before, e);
    assert (before + [e])[..|before|] == before;
  }

  lemma {:induction false} ShownNext(before: seq<Event>, e: Event, next: Event, k: nat)
    requires Sensible(before, e) && Sensible(before + [e], next)
    requires e.Arrived? && e.data != [] && LinkUp(before) && Kept(before) && LastCall(before, CallOnData(true), k)
    ensures next.Chunk?
  {
    Awaits(before, e, k);
  }

  lemma {:induction false} NotTheEnd(before: seq<Event>, e: Event, k: nat)
    requires Sensible(before, e)
    requires e.Arrived? && e.data != [] && LinkUp(before) && Kept(before) && LastCall(before, CallOnData(true), k)
    ensures !Complete(before + [e])
  {
    Awaits(before, e, k);
  }

  /** A packet with data that comes to a handler is shown to it at once. */
  lemma {:induction false} ShownAtOnce(events: seq<Event>, i: nat, k: nat)
    requires AllSensible(events) && Complete(events) && i < |events| && HeardBy(events, i, k)
    ensures i + 1 < |events| && events[i + 1].Chunk?
  {
    assert events[..i + 1] == events[..i] + [events[i]];
    assert SensibleAt(events, i);
    if i + 1 < |events| {
      assert SensibleAt(events, i + 1);
      ShownNext(events[..i], events[i], events[i + 1], k);
    } else {
      assert events[..i + 1] == events;
      NotTheEnd(events[..i], events[i], k);
    }
  }

  /** So it is throughout. */
  ghost predicate AllShown(events: seq<Event>) {
    forall i, k :: 0 <= i < |events| && HeardBy(events, i, k) ==> i + 1 < |events| && events[i + 1].Chunk?
  }

  /** Event `i` is a packet with data, for a client that is there, and the last call, event `k`, installed a handler. */
  ghost predicate HeardBy(events: seq<Event>, i: nat, k: nat)
    requires i < |events|
  {
    && events[i].Arrived? && events[i].data != [] && LinkUp(events[..i]) && Kept(events[..i])
    && LastCall(events[..i], CallOnData(true), k)
  }

  lemma {:induction false} AlwaysShown(events: seq<Event>)
    requires AllSensible(events) && Complete(events)
    ensures AllShown(events)
  {
    forall i, k | 0 <= i < |events| && HeardBy(events, i, k)
      ensures i + 1 < |events| && events[i + 1].Chunk?
    {
      ShownAtOnce(events, i, k);
    }
  }

  // ---- Who calls -------------------------------------------------------------------------------

  /** The calls among the events. */
  function CallsIn(events: seq<Event>): seq<Command> {
    if events == [] then []
    else
      var front, last := events[..|events| - 1], events[|events| - 1];
      CallsIn(front) + if last.Called? then [last.call] else []
  }

  /** What the callback at event `j` calls. */
  function CallsOf(app: App, events: seq<Event>, j: nat): seq<Command>
    requires j < |events|
  {
    match events[j]
    case Chunk(offered, _, _) => app.onData(HistoryOf(events[..j]), offered).1
    case Done(_) => app.onDone(HistoryOf(events[..j + 1]))
    case DoneString(_, _) => app.onDone(HistoryOf(events[..j + 1]))
    case _ => []
  }

  /** The callback at event `j` has made the calls `made` up to event `m`, with nothing else in between. */
  ghost predicate MadeBy(events: seq<Event>, j: nat, m: nat, made: seq<Command>) {
    && j < m <= |events| && CallsIn(events[j + 1..m]) == made
    && forall i :: j < i < m ==> events[i].Called? || events[i].Failed?
  }

  /** Its calls follow it at once, all of them and in order. */
  ghost predicate AllMade(app: App, events: seq<Event>, j: nat)
    requires j < |events|
  {
    exists m :: MadeBy(events, j, m, CallsOf(app, events, j))
  }

  /** So it is with every callback, but for the calls that the last one still owes. */
  ghost predicate Owing(app: App, events: seq<Event>, owed: seq<Command>) {
    forall j :: 0 <= j < |events| ==> MadeOrOwed(app, events, j, owed)
  }

  ghost predicate MadeOrOwed(app: App, events: seq<Event>, j: nat, owed: seq<Command>)
    requires j < |events|
  {
    AllMade(app, events, j) || OwedBy(app, events, j, owed)
  }

  ghost predicate OwedBy(app: App, events: seq<Event>, j: nat, owed: seq<Command>)
    requires j < |events|
  {
    && owed != [] && |owed| <= |CallsOf(app, events, j)|
    && var n := |CallsOf(app, events, j)| - |owed|;
    && owed == CallsOf(app, events, j)[n..] && MadeBy(events, j, |events|, CallsOf(app, events, j)[..n])
  }

  lemma {:induction false} MadeMore(events: seq<Event>, e: Event, j: nat, m: nat, made: seq<Command>)
    requires MadeBy(events, j, m, made)
    ensures MadeBy(events + [e], j, m, made)
    ensures m == |events| && (e.Called? || e.Failed?) ==>
              MadeBy(events + [e], j, m + 1, made + if e.Called? then [e.call] else [])
  {
    var more := events + [e];
    assert more[j + 1..m] == events[j + 1..m];
    if m == |events| && (e.Called? || e.Failed?) {
      var since := more[j + 1..m + 1];
      assert since[..|since| - 1] == events[j + 1..m] && since[|since| - 1] == e;
    }
  }

  lemma {:induction false} CallsSame(app: App, events: seq<Event>, e: Event, j: nat)
    requires j < |events|
    ensures CallsOf(app, events + [e], j) == CallsOf(app, events, j)
  {
    assert (events + [e])[..j] == events[..j] && (events + [e])[..j + 1] == events[..j + 1];
  }

  /** A callback, or anything else, that has just happened has made no call yet. */
  lemma {:induction false} OwingNew(app: App, h: History, st: Status, e: Event)
    requires Allowed(app, h, st, e) && h == HistoryOf(h.events)
    ensures var events, owed := h.events + [e], Next(app, h, st, e).owed;
            MadeOrOwed(app, events, |h.events|, owed)
  {
    var n, events := |h.events|, h.events + [e];
    assert events[..n] == h.events && events[..n + 1] == events;
    var cs := CallsOf(app, events, n);
    assert CallsIn(events[n + 1..n + 1]) == [] == cs[..0];
    assert MadeBy(events, n, n + 1, []);
    if cs != [] {
      assert cs[0..] == cs;
    }
  }

  lemma {:induction false} OwingOld(app: App, h: History, st: Status, e: Event, j: nat)
    requires Allowed(app, h, st, e) && Owing(app, h.events, st.owed) && j < |h.events|
    ensures var events, owed := h.events + [e], Next(app, h, st, e).owed;
            MadeOrOwed(app, events, j, owed)
  {
    CallsSame(app, h.events, e, j);
    assert MadeOrOwed(app, h.events, j, st.owed);
    if AllMade(app, h.events, j) {
      var m :| MadeBy(h.events, j, m, CallsOf(app, h.events, j));
      MadeMore(h.events, e, j, m, CallsOf(app, h.events, j));
    } else if e.Called? {
      OwedCall(app, h.events, e, j, st.owed);
    } else {
      OwedStill(app, h.events, e, j, st.owed);
    }
  }

  /** The next of the calls that are owed. */
  lemma {:induction false} OwedCall(app: App, events: seq<Event>, e: Event, j: nat, owed: seq<Command>)
    requires j < |events| && OwedBy(app, events, j, owed) && e.Called? && e.call == owed[0]
    ensures AllMade(app, events + [e], j) || OwedBy(app, events + [e], j, owed[1..])
  {
    var cs := CallsOf(app, events, j);
    var n := |cs| - |owed|;
    CallsSame(app, events, e, j);
    MadeMore(events, e, j, |events|, cs[..n]);
    assert cs[n] == owed[0] && cs[..n] + [cs[n]] == cs[..n + 1] && owed[1..] == cs[n + 1..];
    assert n + 1 == |cs| ==> cs[..n + 1] == cs;
  }

  lemma {:induction false} OwedStill(app: App, events: seq<Event>, e: Event, j: nat, owed: seq<Command>)
    requires j < |events| && OwedBy(app, events, j, owed) && e.Failed?
    ensures OwedBy(app, events + [e], j, owed)
  {
    var cs := CallsOf(app, events, j);
    CallsSame(app, events, e, j);
    MadeMore(events, e, j, |events|, cs[..|cs| - |owed|]);
    assert cs[..|cs| - |owed|] + [] == cs[..|cs| - |owed|];
  }

  lemma {:induction false} OwingStep(app: App, h: History, st: Status, e: Event)
    requires Allowed(app, h, st, e) && h == HistoryOf(h.events) && Owing(app, h.events, st.owed)
    ensures Owing(app, h.events + [e], Next(app, h, st, e).owed)
  {
    var events, owed := h.events + [e], Next(app, h, st, e).owed;
    OwingNew(app, h, st, e);
    forall j | 0 <= j < |events|
      ensures MadeOrOwed(app, events, j, owed)
    {
      if j < |h.events| {
        OwingOld(app, h, st, e, j);
      }
    }
  }

  lemma {:induction false} OwingAt(app: App, trail: Trail)
    requires Genuine(app, trail)
    ensures Owing(app, Replay(trail).events, StatusOf(app, trail).owed)
  {
    if trail.After? {
      OwingAt(app, trail.before);
      TracedAt(app, trail.before);
      OwingStep(app, Replay(trail.before), StatusOf(app, trail.before), trail.last);
    }
  }

  /** What came over the network. */
  function Network(steps: seq<Step>): seq<Step> {
    if steps == [] then []
    else
      var front, last := steps[..|steps| - 1], steps[|steps| - 1];
      if last.Api? then Network(front) else Network(front) + [last]
  }

  function Came(events: seq<Event>): seq<Step> {
    if events == [] then []
    else
      var front := Came(events[..|events| - 1]);
      match events[|events| - 1]
      case Arrived(data) => front + [Packet(data)]
      case Linked(up) => front + [Link(up)]
      case _ => front
  }

  lemma {:induction false} NetworkSnoc(steps: seq<Step>, s: Step)
    ensures Network(steps + [s]) == if s.Api? then Network(steps) else Network(steps) + [s]
  {
    assert (steps + [s])[..|steps|] == steps;
  }

  lemma {:induction false} CameSnoc(events: seq<Event>, e: Event)
    ensures Came(events + [e]) ==
            match e
            case Arrived(data) => Came(events) + [Packet(data)]
            case Linked(up) => Came(events) + [Link(up)]
            case _ => Came(events)
  {
    assert (events + [e])[..|events|] == events;
  }

  /** What an event adds to what has come from outside. */
  lemma {:induction false} OutsideStep(app: App, h: History, st: Status, e: Event)
    ensures var outside := Next(app, h, st, e).outside;
            match e
            case Arrived(data) => outside == st.outside + [Packet(data)]
            case Linked(up) => outside == st.outside + [Link(up)]
            case Called(c, _) => outside == if st.owed == [] then st.outside + [Api(c)] else st.outside
            case _ => outside == st.outside
  {
  }

  lemma {:induction false} CameStep(events: seq<Event>, e: Event, outside: seq<Step>, outside': seq<Step>)
    requires Came(events) == Network(outside)
    requires match e
             case Arrived(data) => outside' == outside + [Packet(data)]
             case Linked(up) => outside' == outside + [Link(up)]
             case Called(c, _) => outside' == outside || outside' == outside + [Api(c)]
             case _ => outside' == outside
    ensures Came(events + [e]) == Network(outside')
  {
    CameSnoc(events, e);
    if outside' != outside {
      NetworkSnoc(outside, outside'[|outside|]);
    }
  }

  lemma {:induction false} CameAt(app: App, trail: Trail)
    ensures Came(Replay(trail).events) == Network(StatusOf(app, trail).outside)
  {
    if trail.After? {
      CameAt(app, trail.before);
      OutsideStep(app, Replay(trail.before), StatusOf(app, trail.before), trail.last);
      CameStep(Replay(trail.before).events, trail.last, StatusOf(app, trail.before).outside,
               StatusOf(app, trail).outside);
    }
  }

  /** Every callback makes its calls. */
  ghost predicate AllCallsMade(app: App, events: seq<Event>) {
    forall j :: 0 <= j < |events| ==> AllMade(app, events, j)
  }

  lemma {:induction false} NothingOwed(app: App, events: seq<Event>)
    requires Owing(app, events, [])
    ensures AllCallsMade(app, events)
  {
    forall j | 0 <= j < |events|
      ensures AllMade(app, events, j)
    {
      assert MadeOrOwed(app, events, j, []);
    }
  }

  /** All of this holds of a run that may stop where it does. */
  lemma {:induction false} Lawful(app: App, trail: Trail)
    requires Genuine(app, trail) && Settled(Replay(trail), StatusOf(app, trail))
    ensures var events, st := Replay(trail).events, StatusOf(app, trail);
            && AllSensible(events) && Complete(events) && AllShown(events) && AllCallsMade(app, events)
            && Came(events) == Network(st.outside)
            && Replay(trail).consumed + UnreadOf(events) == Heard(events) == st.received
  {
    Completes(app, trail);
    AlwaysShown(Replay(trail).events);
    OwingAt(app, trail);
    NothingOwed(app, Replay(trail).events);
    CameAt(app, trail);
    TracedAt(app, trail);
  }
}
