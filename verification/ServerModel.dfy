/**
 * What a run of the secure server comes to, event by event: who has a session, who is parked with which bytes, and who
 * was promoted with what. lwIP may use the number of a connection again once it has freed it.
 */
module ServerModels {
  import opened Bytes
  import opened NodeLists
  import opened ParkedLists
  import opened SslRegistries

  /**
   * What happens to the server: a connection comes, the timer of a parked one fires, bytes or the end of the stream
   * arrive on it, its peer resets it, a session ends, an outgoing secure connection is made.
   */
  datatype Event =
    | NewConnection(pcb: nat, heap: bool, tcpCloses: bool)
    | Polled(pcb: nat)
    | Arrives(pcb: nat, pb: Option<seq<byte>>, tcpCloses: bool)
    | Resets(pcb: nat)
    | SessionOver(pcb: nat)
    | Outgoing(pcb: nat, context: bool, heap: bool, ssl: bool)

  /** The sessions, the parked connections in order, and those promoted with what their client started with. */
  datatype State = State(open: map<nat, Kind>, list: seq<Parked>, promoted: seq<Parked>)

  const START := State(map[], [], [])

  /** There is a server session. */
  ghost predicate Serving(open: map<nat, Kind>) {
    exists t :: t in open && open[t] == ServerSession
  }

  /** A connection gets the server session if there is none and nobody waits for one, else it is parked. */
  ghost function Connect(s: State, pcb: nat, heap: bool): State {
    if !Serving(s.open) && s.list == [] then s.(open := s.open[pcb := ServerSession])
    else if heap then s.(list := s.list + [Parked(pcb, None)])
    else s
  }

  /** Its first entry is taken off the list for a server session, if there is no other. */
  ghost function Promote(s: State, pcb: nat): State {
    var i := IndexOf(s.list, Pcb, pcb);
    if Serving(s.open) || i == |s.list| then s
    else State(s.open[pcb := ServerSession], Without(s.list, Pcb, pcb), s.promoted + [s.list[i]])
  }

  ghost function After(s: State, e: Event): State {
    match e
    case NewConnection(pcb, heap, _) => Connect(s, pcb, heap)
    case Polled(pcb) => Promote(s, pcb)
    case Arrives(pcb, Some(data), _) => s.(list := WithMore(s.list, pcb, data))
    case Arrives(pcb, None, _) => s.(list := Without(s.list, Pcb, pcb))
    case SessionOver(pcb) => s.(open := s.open - {pcb})
    case Outgoing(pcb, context, heap, ssl) =>
      if context && heap && ssl then s.(open := s.open[pcb := ClientSession]) else s
    case Resets(_) => s
  }

  /** After the first `n` events. */
  ghost function StateAt(events: seq<Event>, n: nat): State
    requires n <= |events|
    decreases n
  {
    if n == 0 then START else After(StateAt(events, n - 1), events[n - 1])
  }

  /** The parked connections that are alive. */
  ghost function WaitingAt(events: seq<Event>, n: nat): set<nat>
    requires n <= |events|
    decreases n
  {
    if n == 0 then {} else Waits(WaitingAt(events, n - 1), StateAt(events, n - 1), events[n - 1])
  }

  ghost function Waits(waiting: set<nat>, s: State, e: Event): set<nat> {
    match e
    case NewConnection(pcb, _, _) => if |After(s, e).list| > |s.list| then waiting + {pcb} else waiting
    case Polled(pcb) => if |After(s, e).promoted| > |s.promoted| then waiting - {pcb} else waiting
    case Arrives(pcb, pb, _) => if pb.None? then waiting - {pcb} else waiting
    case Resets(pcb) => waiting - {pcb}
    case _ => waiting
  }

  /** lwIP can do `e`: it calls back for live connections only, and a new connection has a number not in use. */
  predicate Plausible(e: Event, open: set<nat>, waiting: set<nat>) {
    if e.NewConnection? || e.Outgoing? then e.pcb != NULL && e.pcb !in open && e.pcb !in waiting
    else if e.SessionOver? then e.pcb in open
    else (e.Polled? || e.Arrives? || e.Resets?) && e.pcb in waiting
  }

  ghost predicate PlausibleAt(events: seq<Event>, k: nat)
    requires k < |events|
  {
    Plausible(events[k], StateAt(events, k).open.Keys, WaitingAt(events, k))
  }

  ghost predicate Possible(events: seq<Event>, n: nat)
    requires n <= |events|
  {
    forall k: nat :: k < n ==> PlausibleAt(events, k)
  }

  function ResetsIn(events: seq<Event>, n: nat): nat
    requires n <= |events|
    decreases n
  {
    if n == 0 then 0 else ResetsIn(events, n - 1) + if events[n - 1].Resets? then 1 else 0
  }

  // ---- Exclusion and the list ------------------------------------------------------------------

  /** There is no second server session. */
  ghost predicate AtMostOne(open: map<nat, Kind>) {
    forall t, u | t in open && u in open :: open[t] == ServerSession && open[u] == ServerSession ==> t == u
  }

  /**
   * At most one server session. Every connection that waits has an entry and no session; `resets` entries have no
   * connection any more; and without resets the list is those who wait, each once.
   */
  ghost predicate Kept(s: State, waiting: set<nat>, resets: nat) {
    && AtMostOne(s.open)
    && (forall t :: t in waiting ==> IsIn(s.list, t) && t !in s.open && t != NULL)
    && |s.list| == |waiting| + resets
    && (resets == 0 ==> Sound(s.list, waiting))
  }

  lemma {:induction false} KeptNew(s: State, waiting: set<nat>, resets: nat, e: Event)
    requires Kept(s, waiting, resets) && e.NewConnection? && Plausible(e, s.open.Keys, waiting)
    ensures Kept(After(s, e), Waits(waiting, s, e), resets)
  {
    var more := s.list + [Parked(e.pcb, None)];
    if resets == 0 {
      SoundPark(s.list, waiting, e.pcb);
    }
    forall t | t in waiting + {e.pcb}
      ensures IsIn(more, t)
    {
      Finds(more, if t in waiting then s.list[IndexOf(s.list, Pcb, t)] else Parked(e.pcb, None));
    }
  }

  lemma {:induction false} KeptLeave(s: State, waiting: set<nat>, resets: nat, pcb: nat)
    requires Kept(s, waiting, resets) && pcb in waiting
    ensures var left := s.(list := Without(s.list, Pcb, pcb)); Kept(left, waiting - {pcb}, resets)
  {
    if resets == 0 {
      SoundLeave(s.list, waiting, pcb);
    }
    forall t | t in waiting && t != pcb
      ensures IsIn(Without(s.list, Pcb, pcb), t)
    {
      StillIn(s.list, pcb, t, []);
    }
  }

  lemma {:induction false} KeptMore(s: State, waiting: set<nat>, resets: nat, pcb: nat, data: seq<byte>)
    requires Kept(s, waiting, resets) && pcb in waiting
    ensures Kept(s.(list := WithMore(s.list, pcb, data)), waiting, resets)
  {
    if resets == 0 {
      SoundMore(s.list, waiting, pcb, data);
    }
    forall t | t in waiting
      ensures IsIn(WithMore(s.list, pcb, data), t)
    {
      StillIn(s.list, pcb, t, data);
    }
  }

  lemma {:induction false} KeptPoll(s: State, waiting: set<nat>, resets: nat, pcb: nat)
    requires Kept(s, waiting, resets) && pcb in waiting
    ensures Kept(Promote(s, pcb), Waits(waiting, s, Polled(pcb)), resets)
  {
    KeptLeave(s, waiting, resets, pcb);
  }

  /** A reset leaves an entry without connection. */
  lemma {:induction false} KeptReset(s: State, waiting: set<nat>, resets: nat, pcb: nat)
    requires Kept(s, waiting, resets) && pcb in waiting
    ensures Kept(s, waiting - {pcb}, resets + 1)
  {
  }

  lemma {:induction false} KeptSession(s: State, waiting: set<nat>, resets: nat, e: Event)
    requires Kept(s, waiting, resets) && Plausible(e, s.open.Keys, waiting) && (e.SessionOver? || e.Outgoing?)
    ensures Kept(After(s, e), waiting, resets)
  {
  }

  lemma {:induction false} KeptStep(s: State, waiting: set<nat>, resets: nat, e: Event)
    requires Kept(s, waiting, resets) && Plausible(e, s.open.Keys, waiting)
    ensures Kept(After(s, e), Waits(waiting, s, e), resets + if e.Resets? then 1 else 0)
  {
    match e
    case NewConnection(_, _, _) => KeptNew(s, waiting, resets, e);
    case Polled(pcb) => KeptPoll(s, waiting, resets, pcb);
    case Arrives(pcb, None, _) => KeptLeave(s, waiting, resets, pcb);
    case Arrives(pcb, Some(data), _) => KeptMore(s, waiting, resets, pcb, data);
    case Resets(pcb) => KeptReset(s, waiting, resets, pcb);
    case _ => KeptSession(s, waiting, resets, e);
  }

  /** In every run. */
  lemma {:induction false} AlwaysKept(events: seq<Event>, n: nat)
    requires n <= |events| && Possible(events, n)
    ensures Kept(StateAt(events, n), WaitingAt(events, n), ResetsIn(events, n))
  {
    if n > 0 {
      AlwaysKept(events, n - 1);
      assert PlausibleAt(events, n - 1);
      KeptStep(StateAt(events, n - 1), WaitingAt(events, n - 1), ResetsIn(events, n - 1), events[n - 1]);
    }
  }

  /** The list is exactly the connections that wait, each once, if and only if no parked connection was reset. */
  lemma {:induction false} SoundIff(events: seq<Event>, n: nat)
    requires n <= |events| && Possible(events, n)
    ensures Sound(StateAt(events, n).list, WaitingAt(events, n)) <==> ResetsIn(events, n) == 0
  {
    AlwaysKept(events, n);
    if Sound(StateAt(events, n).list, WaitingAt(events, n)) {
      SoundFits(StateAt(events, n).list, WaitingAt(events, n));
    }
  }

  // ---- Whose bytes -----------------------------------------------------------------------------

  predicate Comes(e: Event, pcb: nat) {
    e.NewConnection? && e.pcb == pcb
  }

  /** `data`, and the bytes that `e` brings for `pcb`. */
  function WithPiece(data: seq<byte>, e: Event, pcb: nat): seq<byte> {
    if e.Arrives? && e.pcb == pcb && e.pb.Some? then data + e.pb.value else data
  }

  /** The bytes that have arrived on the number `pcb`, in the first `n` events, since a connection last came by it. */
  function Brought(events: seq<Event>, n: nat, pcb: nat): seq<byte>
    requires n <= |events|
    decreases n
  {
    if n == 0 || Comes(events[n - 1], pcb) then [] else WithPiece(Brought(events, n - 1, pcb), events[n - 1], pcb)
  }

  /** Each entry holds what has arrived on its connection since it came. */
  ghost predicate AllHold(events: seq<Event>, n: nat, list: seq<Parked>)
    requires n <= |events|
  {
    forall p :: p in list ==> Data(p.pb) == Brought(events, n, Pcb(p))
  }

  /** `q` is new, or an entry that was there, with what `e` brings for it. */
  ghost predicate Carried(list: seq<Parked>, e: Event, q: Parked) {
    if Comes(e, q.pcb) then q.pb.None?
    else exists p :: p in list && p.pcb == q.pcb && Data(q.pb) == WithPiece(Data(p.pb), e, q.pcb)
  }

  lemma {:induction false} HoldsCarried(events: seq<Event>, n: nat, list: seq<Parked>, list': seq<Parked>)
    requires n < |events| && AllHold(events, n, list) && forall q :: q in list' ==> Carried(list, events[n], q)
    ensures AllHold(events, n + 1, list')
  {
  }

  lemma {:induction false} SameCarried(list: seq<Parked>, e: Event, q: Parked)
    requires q in list && !Comes(e, q.pcb) && !(e.Arrives? && e.pb.Some? && e.pcb == q.pcb)
    ensures Carried(list, e, q)
  {
    assert Data(q.pb) == WithPiece(Data(q.pb), e, q.pcb);
  }

  lemma {:induction false} MoreCarried(list: seq<Parked>, waiting: set<nat>, e: Event, q: Parked)
    requires Sound(list, waiting) && e.Arrives? && e.pb.Some? && q in WithMore(list, e.pcb, e.pb.value)
    ensures Carried(list, e, q)
  {
    SoundMore(list, waiting, e.pcb, e.pb.value);
    var p :| p in list && p.pcb == q.pcb && Data(q.pb) == Data(p.pb) + if p.pcb == e.pcb then e.pb.value else [];
    assert Data(q.pb) == WithPiece(Data(p.pb), e, q.pcb);
  }

  /** In a sound list every event carries the entries over. */
  lemma {:induction false} AllCarried(s: State, waiting: set<nat>, e: Event, q: Parked)
    requires Sound(s.list, waiting) && Plausible(e, s.open.Keys, waiting) && q in After(s, e).list
    ensures Carried(s.list, e, q)
  {
    WithoutDistinct(s.list, Pcb, e.pcb);
    if e.Arrives? && e.pb.Some? {
      MoreCarried(s.list, waiting, e, q);
    } else if q in s.list {
      assert Pcb(q) in waiting;
      SameCarried(s.list, e, q);
    }
  }

  lemma {:induction false} HoldsStep(events: seq<Event>, n: nat)
    requires n < |events| && Possible(events, n + 1) && ResetsIn(events, n) == 0
    requires AllHold(events, n, StateAt(events, n).list)
    ensures AllHold(events, n + 1, StateAt(events, n + 1).list)
  {
    AlwaysKept(events, n);
    assert PlausibleAt(events, n);
    forall q | q in StateAt(events, n + 1).list
      ensures Carried(StateAt(events, n).list, events[n], q)
    {
      AllCarried(StateAt(events, n), WaitingAt(events, n), events[n], q);
    }
    HoldsCarried(events, n, StateAt(events, n).list, StateAt(events, n + 1).list);
  }

  /** Without resets, every parked connection holds every byte that has arrived on it, in order. */
  lemma {:induction false} AlwaysHold(events: seq<Event>, n: nat)
    requires n <= |events| && Possible(events, n) && ResetsIn(events, n) == 0
    ensures AllHold(events, n, StateAt(events, n).list)
  {
    if n > 0 {
      AlwaysHold(events, n - 1);
      HoldsStep(events, n - 1);
    }
  }

  /** The `k`-th event has to promote somebody: a poll of a connection that waits while nobody has the session. */
  ghost predicate Promotes(events: seq<Event>, k: nat) {
    k < |events| && events[k].Polled? && events[k].pcb in WaitingAt(events, k) && !Serving(StateAt(events, k).open)
  }

  /** It promoted `p`. */
  ghost predicate Promoted(events: seq<Event>, k: nat, p: Parked) {
    Promotes(events, k) && events[k] == Polled(p.pcb)
  }

  /** and gave its client every byte that had arrived on it, in order. */
  ghost predicate HandedOver(events: seq<Event>, k: nat, p: Parked) {
    Promoted(events, k, p) && Data(p.pb) == Brought(events, k, p.pcb)
  }

  /** `polls` are those that had to promote somebody, and they promoted those in `promoted`, in this order. */
  ghost predicate AllPromoted(events: seq<Event>, n: nat, polls: seq<nat>, promoted: seq<Parked>)
    requires n <= |events|
  {
    && |polls| == |promoted| && (forall i, j :: 0 <= i < j < |polls| ==> polls[i] < polls[j])
    && (forall k: nat :: k < n && Promotes(events, k) ==> k in polls)
    && (forall j :: 0 <= j < |polls| ==> polls[j] < n && Promoted(events, polls[j], promoted[j]))
    && (ResetsIn(events, n) == 0 ==> forall j :: 0 <= j < |polls| ==> HandedOver(events, polls[j], promoted[j]))
  }

  lemma {:induction false} PromotedMore(events: seq<Event>, n: nat, polls: seq<nat>, promoted: seq<Parked>, p: Parked)
    requires n < |events| && AllPromoted(events, n, polls, promoted)
    requires Promoted(events, n, p) && (ResetsIn(events, n) == 0 ==> HandedOver(events, n, p))
    ensures AllPromoted(events, n + 1, polls + [n], promoted + [p])
  {
    assert (polls + [n])[|polls|] == n;
    assert forall k :: k in polls ==> k in polls + [n];
  }

  lemma {:induction false} PromotedNone(events: seq<Event>, n: nat, polls: seq<nat>, promoted: seq<Parked>)
    requires n < |events| && AllPromoted(events, n, polls, promoted) && !Promotes(events, n)
    ensures AllPromoted(events, n + 1, polls, promoted)
  {
  }

  /** What one event adds to those promoted. */
  lemma {:induction false} PromotedStep(events: seq<Event>, n: nat) returns (p: Parked)
    requires n < |events| && Possible(events, n + 1)
    ensures var s, s' := StateAt(events, n), StateAt(events, n + 1);
            s'.promoted == if Promotes(events, n) then s.promoted + [p] else s.promoted
    ensures Promotes(events, n) ==>
              Promoted(events, n, p) && (ResetsIn(events, n) == 0 ==> HandedOver(events, n, p))
  {
    var s, e := StateAt(events, n), events[n];
    assert PlausibleAt(events, n);
    AlwaysKept(events, n);
    p := Parked(0, None);
    if e.Polled? {
      p := s.list[IndexOf(s.list, Pcb, e.pcb)];
      assert p in s.list;
      if ResetsIn(events, n) == 0 {
        AlwaysHold(events, n);
      }
    }
  }

  lemma {:induction false} PromotedNext(events: seq<Event>, n: nat, polls: seq<nat>) returns (polls': seq<nat>)
    requires n < |events| && Possible(events, n + 1) && AllPromoted(events, n, polls, StateAt(events, n).promoted)
    ensures AllPromoted(events, n + 1, polls', StateAt(events, n + 1).promoted)
  {
    var p := PromotedStep(events, n);
    if Promotes(events, n) {
      PromotedMore(events, n, polls, StateAt(events, n).promoted, p);
      polls' := polls + [n];
    } else {
      PromotedNone(events, n, polls, StateAt(events, n).promoted);
      polls' := polls;
    }
  }

  /**
   * In every run, exactly the polls of waiting connections while nobody has the session promote them, and without
   * resets they hand over all bytes.
   */
  lemma {:induction false} AlwaysPromoted(events: seq<Event>, n: nat) returns (polls: seq<nat>)
    requires n <= |events| && Possible(events, n)
    ensures AllPromoted(events, n, polls, StateAt(events, n).promoted)
  {
    polls := [];
    if n > 0 {
      polls := AlwaysPromoted(events, n - 1);
      polls := PromotedNext(events, n - 1, polls);
    }
  }

  // ---- Who has a session and who waits -----------------------------------------------------------

  /** Nobody has the session, and nobody is in line for it. */
  ghost predicate Idle(s: State) {
    !Serving(s.open) && s.list == []
  }

  /** What the `k`-th event comes to for those who have a session, those in line and those who wait. */
  ghost predicate Outcome(events: seq<Event>, k: nat)
    requires k < |events|
  {
    && Turned(events[k], StateAt(events, k), WaitingAt(events, k), StateAt(events, k + 1), WaitingAt(events, k + 1))
    && forall t: nat :: Fed(events[k], t, Brought(events, k, t), Brought(events, k + 1, t))
  }

  /** Bytes come behind those that came before, on their own connection; a new one starts with none. */
  predicate Fed(e: Event, t: nat, bytes: seq<byte>, bytes': seq<byte>) {
    match e
    case NewConnection(u, _, _) => bytes' == if u == t then [] else bytes
    case Arrives(u, Some(data), _) => bytes' == if u == t then bytes + data else bytes
    case _ => bytes' == bytes
  }

  /**
   * A new connection gets the session if the server is idle; else it waits at the end of the line, if there is heap for
   * its entry. A poll gives the session to one that waits if nobody has it, and takes it out of the line. The end of
   * the stream takes it out as well; a reset leaves its entry. A session that ends is gone. Nothing else changes.
   */
  ghost predicate Turned(e: Event, s: State, waiting: set<nat>, s': State, waiting': set<nat>) {
    match e
    case NewConnection(t, heap, _) =>
      if Idle(s) then s' == s.(open := s.open[t := ServerSession]) && waiting' == waiting
      else if heap then s' == s.(list := s.list + [Parked(t, None)]) && waiting' == waiting + {t}
      else s' == s && waiting' == waiting
    case Polled(t) =>
      if Serving(s.open) then s' == s && waiting' == waiting
      else
        && s'.open == s.open[t := ServerSession] && waiting' == waiting - {t} && |s'.list| == |s.list| - 1
        && |s'.promoted| == |s.promoted| + 1 && s.promoted <= s'.promoted && s'.promoted[|s.promoted|].pcb == t
    case Arrives(t, pb, _) =>
      && s'.open == s.open && s'.promoted == s.promoted
      && if pb.None? then waiting' == waiting - {t} && |s'.list| == |s.list| - 1
         else waiting' == waiting && |s'.list| == |s.list|
    case Resets(t) => s' == s && waiting' == waiting - {t}
    case SessionOver(t) => s' == s.(open := s.open - {t}) && waiting' == waiting
    case Outgoing(t, context, heap, ssl) =>
      && waiting' == waiting
      && s' == if context && heap && ssl then s.(open := s.open[t := ClientSession]) else s
  }

  lemma {:induction false} TurnedStep(s: State, waiting: set<nat>, resets: nat, e: Event)
    requires Kept(s, waiting, resets) && Plausible(e, s.open.Keys, waiting)
    ensures Turned(e, s, waiting, After(s, e), Waits(waiting, s, e))
  {
    if e.Polled? && !Serving(s.open) {
      assert IsIn(s.list, e.pcb);
    }
  }

  /** In every run. */
  lemma {:induction false} AlwaysTurned(events: seq<Event>, k: nat)
    requires k < |events| && Possible(events, k + 1)
    ensures Outcome(events, k)
  {
    AlwaysKept(events, k);
    assert PlausibleAt(events, k);
    TurnedStep(StateAt(events, k), WaitingAt(events, k), ResetsIn(events, k), events[k]);
  }

  // ---- All together ----------------------------------------------------------------------------

  /**
   * At most one server session; those who wait have an entry and no session, and there are as many other entries as
   * there were resets. Without resets the list is exactly those who wait, each once, with all that has arrived.
   */
  ghost predicate ListFits(events: seq<Event>, n: nat, s: State)
    requires n <= |events|
  {
    var waiting, resets := WaitingAt(events, n), ResetsIn(events, n);
    && AtMostOne(s.open) && (forall t :: t in waiting ==> IsIn(s.list, t) && t !in s.open)
    && |s.list| == |waiting| + resets
    && (Sound(s.list, waiting) <==> resets == 0)
    && (resets == 0 ==> AllHold(events, n, s.list))
    && (resets == 0 ==> forall p :: p in s.list ==> p.pcb in waiting && p.pcb !in s.open)
  }

  lemma {:induction false} AlwaysFits(events: seq<Event>, n: nat)
    requires n <= |events| && Possible(events, n)
    ensures ListFits(events, n, StateAt(events, n))
  {
    AlwaysKept(events, n);
    SoundIff(events, n);
    if ResetsIn(events, n) == 0 {
      AlwaysHold(events, n);
      assert forall p :: p in StateAt(events, n).list ==> Pcb(p) in WaitingAt(events, n);
    }
  }

  // ---- The run for which the list is not sound -------------------------------------------------

  /**
   * Connection 1 takes the session and connection 2 is parked; `data` arrives on it and its peer resets it. lwIP uses
   * its number for a new connection, on which `later` arrives. Connection 1 ends, and a timer fires.
   */
  function Reuse(data: seq<byte>, later: seq<byte>): seq<Event> {
    [NewConnection(1, true, true), NewConnection(2, true, true), Arrives(2, Some(data), true), Resets(2),
     NewConnection(2, true, true), Arrives(2, Some(later), true), SessionOver(1), Polled(2)]
  }

  const ONE := map[1 := ServerSession]

  lemma {:induction false} OneServes()
    ensures Serving(ONE)
  {
    assert ONE[1] == ServerSession;
  }

  lemma {:induction false} ReuseStarts(data: seq<byte>, later: seq<byte>)
    ensures var events := Reuse(data, later);
            && PlausibleAt(events, 0) && PlausibleAt(events, 1)
            && StateAt(events, 2) == State(ONE, [Parked(2, None)], []) && WaitingAt(events, 2) == {2}
            && ResetsIn(events, 2) == 0
  {
    var events := Reuse(data, later);
    OneServes();
    assert StateAt(events, 0) == START && !Serving(START.open) && WaitingAt(events, 0) == {};
    assert StateAt(events, 1) == After(START, events[0]) == State(ONE, [], []);
    assert WaitingAt(events, 1) == Waits({}, START, events[0]) == {};
    assert ResetsIn(events, 1) == 0;
  }

  /** Connection 2 is parked, gets its bytes and is reset. */
  lemma {:induction false} ReuseParks(data: seq<byte>, later: seq<byte>)
    ensures var events := Reuse(data, later);
            && Possible(events, 4) && WaitingAt(events, 4) == {} && ResetsIn(events, 4) == 1
            && StateAt(events, 4) == State(ONE, [Parked(2, Some(data))], [])
  {
    var events := Reuse(data, later);
    ReuseStarts(data, later);
    assert [] + data == data;
    assert StateAt(events, 3) == State(ONE, [Parked(2, Some(data))], []) && WaitingAt(events, 3) == {2};
    assert ResetsIn(events, 3) == 0;
    assert PlausibleAt(events, 2) && PlausibleAt(events, 3);
  }

  /** Its number comes again. */
  lemma {:induction false} ReuseParksAgain(data: seq<byte>, later: seq<byte>)
    ensures var events := Reuse(data, later);
            && Possible(events, 6) && WaitingAt(events, 6) == {2}
            && StateAt(events, 6) == State(ONE, [Parked(2, Some(data + later)), Parked(2, None)], [])
  {
    var events := Reuse(data, later);
    OneServes();
    ReuseParks(data, later);
    assert StateAt(events, 5) == State(ONE, [Parked(2, Some(data)), Parked(2, None)], []);
    assert WaitingAt(events, 5) == {2};
    assert PlausibleAt(events, 4) && PlausibleAt(events, 5);
  }

  /** The client of the new connection starts with the bytes of the old one. */
  lemma {:induction false} ReusedNumber(data: seq<byte>, later: seq<byte>)
    ensures Possible(Reuse(data, later), 8)
    ensures StateAt(Reuse(data, later), 8).promoted == [Parked(2, Some(data + later))]
    ensures Brought(Reuse(data, later), 7, 2) == later
  {
    var events := Reuse(data, later);
    ReuseParksAgain(data, later);
    assert StateAt(events, 7).open == map[] && !Serving(StateAt(events, 7).open) && WaitingAt(events, 7) == {2};
    assert PlausibleAt(events, 6) && PlausibleAt(events, 7);
    assert [] + later == later && Brought(events, 5, 2) == [];
    assert Brought(events, 6, 2) == WithPiece(Brought(events, 5, 2), events[5], 2);
  }
}
