/** The TLS session registry of tcp_axtls.c: a global list of sessions, a descriptor counter and a one-bit flag. */
module SslRegistries {
  import opened Bytes
  import opened NodeLists

  /** The NULL control block; every other number names one. */
  const NULL := 0
  /** Descriptors are the non-negative values of an int. */
  const FDS := 0x8000_0000
  const INVALID_CLIENTFD_DATA := -104

  datatype Kind = ClientSession | ServerSession

  datatype Session = Session(tcp: nat, fd: nat, kind: Kind)

  function Tcp(s: Session): nat { s.tcp }

  function Fd(s: Session): nat { s.fd }

  /** The registry as a map from control blocks to sessions. */
  function ToMap(list: seq<Session>): map<nat, Session> {
    if list == [] then map[] else ToMap(list[1..])[list[0].tcp := list[0]]
  }

  function Servers(list: seq<Session>): nat {
    if list == [] then 0 else (if list[0].kind == ServerSession then 1 else 0) + Servers(list[1..])
  }

  /** Searching the list is looking up the map. */
  lemma {:induction false} Lookup(list: seq<Session>, k: nat)
    ensures var i := IndexOf(list, Tcp, k);
            if i < |list| then k in ToMap(list) && ToMap(list)[k] == list[i] else k !in ToMap(list)
  {
    if list != [] {
      Lookup(list[1..], k);
    }
  }

  lemma {:induction false} AppendSession(list: seq<Session>, s: Session)
    requires s.tcp !in ToMap(list)
    ensures ToMap(list + [s]) == ToMap(list)[s.tcp := s]
    ensures Servers(list + [s]) == Servers(list) + if s.kind == ServerSession then 1 else 0
  {
    if list == [] {
      assert list + [s] == [s];
    } else {
      AppendSession(list[1..], s);
      assert (list + [s])[1..] == list[1..] + [s];
    }
  }

  lemma {:induction false} NotInTail(list: seq<Session>)
    requires Distinct(list, Tcp) && list != []
    ensures list[0].tcp !in ToMap(list[1..])
  {
    forall j | 0 <= j < |list[1..]|
      ensures Tcp(list[1..][j]) != list[0].tcp
    {
      assert Tcp(list[0]) != Tcp(list[j + 1]);
    }
    Lookup(list[1..], list[0].tcp);
  }

  /** Unlinking the entry of `k` takes `k` out of the map and leaves the rest, in order. */
  lemma {:induction false} RemoveSession(list: seq<Session>, k: nat)
    requires Distinct(list, Tcp)
    ensures ToMap(Without(list, Tcp, k)) == ToMap(list) - {k}
    ensures Servers(Without(list, Tcp, k)) ==
            Servers(list) - if k in ToMap(list) && ToMap(list)[k].kind == ServerSession then 1 else 0
  {
    if list != [] {
      var first, rest := list[0], list[1..];
      WithoutStep(list, Tcp, k);
      NotInTail(list);
      if first.tcp != k {
        RemoveSession(rest, k);
        var left := Without(rest, Tcp, k);
        assert ([first] + left)[0] == first && ([first] + left)[1..] == left;
        assert ToMap([first] + left) == ToMap(left)[first.tcp := first];
      }
    }
  }

  /** The count is positive exactly if some session is a server's, and one means only one. */
  lemma {:induction false} CountServers(list: seq<Session>)
    ensures Servers(list) == 0 <==> forall s :: s in list ==> s.kind != ServerSession
    ensures Servers(list) == 1 ==>
              forall s, t :: s in list && t in list && s.kind == ServerSession && t.kind == ServerSession ==> s == t
  {
    if list != [] {
      CountServers(list[1..]);
      assert forall s :: s in list <==> s == list[0] || s in list[1..];
    }
  }

  /** The counter after `n` allocations: it wraps to a negative value, which the next allocation turns into 0. */
  predicate NextIs(next: int, n: nat) {
    -FDS <= next < FDS && n % FDS == if next < 0 then 0 else next
  }

  lemma {:induction false} NextStep(next: int, n: nat)
    requires NextIs(next, n) && next >= 0
    ensures NextIs(if next == FDS - 1 then -FDS else next + 1, n + 1)
  {
  }

  /** Every session got its descriptor from the allocation that made it, and the list is in that order. */
  ghost predicate Numbered(list: seq<Session>, serials: seq<nat>, n: nat) {
    && |serials| == |list|
    && (forall i :: 0 <= i < |serials| ==> serials[i] < n && list[i].fd == serials[i] % FDS)
    && (forall i, j :: 0 <= i < j < |serials| ==> serials[i] < serials[j])
  }

  /** What the list looks like after `n` allocations: one entry for each control block, none for NULL. */
  ghost predicate Proper(list: seq<Session>, serials: seq<nat>, n: nat) {
    Distinct(list, Tcp) && NULL !in ToMap(list) && Numbered(list, serials, n)
  }

  lemma {:induction false} ProperAppend(list: seq<Session>, serials: seq<nat>, n: nat, s: Session)
    requires Proper(list, serials, n) && s.fd == n % FDS && s.tcp != NULL && s.tcp !in ToMap(list)
    ensures Proper(list + [s], serials + [n], n + 1)
  {
    AppendSession(list, s);
    Lookup(list, s.tcp);
    NoneBefore(list, Tcp, s.tcp);
  }

  lemma {:induction false} NumberedRemove(list: seq<Session>, serials: seq<nat>, n: nat, i: nat)
    requires Numbered(list, serials, n) && i < |list|
    ensures Numbered(list[..i] + list[i + 1..], serials[..i] + serials[i + 1..], n)
  {
    var left, numbers := list[..i] + list[i + 1..], serials[..i] + serials[i + 1..];
    assert forall j :: 0 <= j < |left| ==> left[j] == list[if j < i then j else j + 1];
    assert forall j :: 0 <= j < |numbers| ==> numbers[j] == serials[if j < i then j else j + 1];
  }

  lemma {:induction false} ProperRemove(list: seq<Session>, serials: seq<nat>, n: nat, k: nat)
    requires Proper(list, serials, n)
    ensures var i := IndexOf(list, Tcp, k);
            i < |list| ==> Proper(Without(list, Tcp, k), serials[..i] + serials[i + 1..], n)
  {
    RemoveSession(list, k);
    WithoutDistinct(list, Tcp, k);
    var i := IndexOf(list, Tcp, k);
    if i < |list| {
      NumberedRemove(list, serials, n, i);
    }
  }

  class SslRegistry {
    const list: NodeList<Session>
    var nextFd: int
    /** `_tcp_ssl_has_client` */
    var hasClient: bool
    /** The number of sessions ever made, and which of them each entry is. */
    ghost var allocations: nat
    ghost var serials: seq<nat>

    ghost function Sessions(): map<nat, Session>
      reads this, list
    {
      ToMap(list.values)
    }

    ghost predicate Valid()
      reads this, list, list.repr
    {
      && list.Valid()
      && NextIs(nextFd, allocations) && Proper(list.values, serials, allocations)
    }

    /** The flag counts the server sessions, and there is at most one. */
    ghost predicate Exclusive()
      reads this, list
    {
      Servers(list.values) == if hasClient then 1 else 0
    }

    constructor ()
      ensures Valid() && Exclusive() && fresh(list) && fresh(list.repr) && Sessions() == map[] && !hasClient
    {
      list := new NodeList();
      nextFd, hasClient, allocations, serials := 0, false, 0, [];
    }

    /** Mutual exclusion: the flag says whether there is a server session, and there is never a second one. */
    lemma {:induction false} OneServer()
      requires Valid() && Exclusive()
      ensures hasClient <==> exists t :: t in Sessions() && Sessions()[t].kind == ServerSession
      ensures forall t, u | t in Sessions() && u in Sessions() ::
                Sessions()[t].kind == ServerSession && Sessions()[u].kind == ServerSession ==> t == u
    {
      CountServers(list.values);
      forall t | t in Sessions()
        ensures Sessions()[t] in list.values && Sessions()[t].tcp == t
      {
        Lookup(list.values, t);
      }
      if hasClient {
        var s :| s in list.values && s.kind == ServerSession;
        var i :| 0 <= i < |list.values| && list.values[i] == s;
        IndexIs(list.values, Tcp, s.tcp, i);
        Lookup(list.values, s.tcp);
        assert Sessions()[s.tcp].kind == ServerSession;
      }
    }

    /** Two sessions share a descriptor exactly if their allocations are a multiple of 2^31 apart. */
    lemma {:induction false} SharedFd(i: nat, j: nat)
      requires Valid() && i < j < |list.values|
      ensures list.values[i].fd == list.values[j].fd <==> (serials[j] - serials[i]) % 0x8000_0000 == 0
    {
    }

    /** Descriptors are distinct while fewer than 2^31 sessions have been made since the oldest one still open. */
    lemma {:induction false} FdsDistinct()
      requires Valid() && (serials != [] ==> allocations - serials[0] <= 0x8000_0000)
      ensures Distinct(list.values, Fd)
    {
      forall i, j | 0 <= i < j < |serials|
        ensures list.values[i].fd != list.values[j].fd
      {
        assert serials[0] <= serials[i] < serials[j] < allocations;
        SharedFd(i, j);
      }
    }

    /** tcp_ssl_get */
    method Get(tcp: nat) returns (s: Option<Session>)
      requires Valid()
      ensures s == if tcp in Sessions() then Some(Sessions()[tcp]) else None
    {
      if tcp == NULL {
        return None;
      }
      Lookup(list.values, tcp);
      var n := list.Find(Tcp, tcp);
      s := if n == null then None else Some(n.value);
    }

    /** tcp_ssl_get_by_fd */
    method GetByFd(fd: nat) returns (s: Option<Session>)
      requires Valid()
      ensures s.Some? ==> s.value.tcp in Sessions() && Sessions()[s.value.tcp] == s.value && s.value.fd == fd
      ensures s.None? ==> forall t :: t in Sessions() ==> Sessions()[t].fd != fd
      // while descriptors are distinct, it finds the session that has this one
      ensures Distinct(list.values, Fd) ==>
                forall t :: t in Sessions() && Sessions()[t].fd == fd ==> s == Some(Sessions()[t])
    {
      var n := list.Find(Fd, fd);
      NoneBefore(list.values, Fd, fd);
      ghost var i := IndexOf(list.values, Fd, fd);
      s := if n == null then None else Some(n.value);
      if n != null {
        IndexIs(list.values, Tcp, n.value.tcp, i);
        Lookup(list.values, n.value.tcp);
      }
      forall t | t in Sessions() && Sessions()[t].fd == fd
        ensures i < |list.values|
        ensures Distinct(list.values, Fd) ==> s == Some(Sessions()[t])
      {
        Lookup(list.values, t);
        var j := IndexOf(list.values, Tcp, t);
        assert Fd(list.values[j]) == fd;
      }
    }

    /** Hangs a new client entry behind the others and counts it. */
    method Enlist(tcp: nat) returns (n: Node<Session>)
      requires Valid() && nextFd >= 0 && tcp != NULL && tcp !in Sessions()
      modifies this`nextFd, this`allocations, this`serials, list, list.repr
      ensures Valid() && fresh(list.repr - old(list.repr))
      ensures list.nodes == old(list.nodes) + [n] && n in list.repr
      ensures n.value == Session(tcp, old(nextFd), ClientSession) && list.values == old(list.values) + [n.value]
      ensures allocations == old(allocations) + 1 && serials == old(serials) + [old(allocations)]
    {
      var s := Session(tcp, nextFd, ClientSession);
      ProperAppend(list.values, serials, allocations, s);
      NextStep(nextFd, allocations);
      n := list.Append(s);
      nextFd := if nextFd == FDS - 1 then -FDS else nextFd + 1;
      serials, allocations := serials + [allocations], allocations + 1;
    }

    /** tcp_ssl_new; `heap` says whether malloc succeeds. */
    method New(tcp: nat, heap: bool) returns (n: Node?<Session>)
      requires Valid() && tcp != NULL && tcp !in Sessions()
      modifies this`nextFd, this`allocations, this`serials, list, list.repr
      ensures Valid() && fresh(list.repr - old(list.repr))
      ensures !heap ==> n == null && list.values == old(list.values) && list.repr == old(list.repr)
      ensures heap ==>
                && n != null && list.nodes == old(list.nodes) + [n] && n in list.repr
                && n.value == Session(tcp, old(allocations) % 0x8000_0000, ClientSession)
                && list.values == old(list.values) + [n.value]
                && allocations == old(allocations) + 1 && serials == old(serials) + [old(allocations)]
    {
      if nextFd < 0 {
        nextFd := 0;  // overflow
      }
      if !heap {
        return null;
      }
      n := Enlist(tcp);
    }

    /** Unlinks the entry of `tcp`. */
    method Unlink(tcp: nat) returns (removed: Option<Session>)
      requires Valid() && list.head != null
      modifies this`serials, list, list.repr
      ensures Valid() && list.repr == old(list.repr) && list.values == Without(old(list.values), Tcp, tcp)
      ensures removed == if tcp in old(Sessions()) then Some(old(Sessions())[tcp]) else None
    {
      Lookup(list.values, tcp);
      ProperRemove(list.values, serials, allocations, tcp);
      ghost var i := IndexOf(list.values, Tcp, tcp);
      removed := list.Remove(Tcp, tcp);
      if removed.Some? {
        serials := serials[..i] + serials[i + 1..];
      }
    }

    /** tcp_ssl_free */
    method Free(tcp: nat) returns (r: int)
      requires Valid() && (tcp == NULL || list.head != null)
      modifies this`hasClient, this`serials, list, list.repr
      ensures Valid() && list.repr == old(list.repr)
      ensures r == if tcp == NULL then -1 else if tcp in old(Sessions()) then 0 else -104
      ensures Sessions() == old(Sessions()) - {tcp} && list.values == Without(old(list.values), Tcp, tcp)
      ensures hasClient == (old(hasClient) && !(r == 0 && old(Sessions())[tcp].kind == ServerSession))
      ensures old(Exclusive()) ==> Exclusive()
    {
      RemoveSession(list.values, tcp);
      if tcp == NULL {
        Lookup(list.values, tcp);
        return -1;
      }
      var removed := Unlink(tcp);
      if removed.None? {
        return INVALID_CLIENTFD_DATA;
      }
      if removed.value.kind == ServerSession {
        hasClient := false;
      }
      r := 0;
    }

    /** Takes back an entry for which there is no SSL object. */
    method Withdraw(tcp: nat) returns (r: int)
      requires Valid() && tcp in Sessions() && list.head != null
      modifies this`hasClient, this`serials, list, list.repr
      ensures Valid() && list.repr == old(list.repr) && r == -1 && Sessions() == old(Sessions()) - {tcp}
      ensures if old(Sessions())[tcp].kind == ServerSession
              then !hasClient && Servers(list.values) == Servers(old(list.values)) - 1
              else hasClient == old(hasClient) && Servers(list.values) == Servers(old(list.values))
    {
      RemoveSession(list.values, tcp);
      var _ := Free(tcp);
      r := -1;
    }

    /** A new client entry. */
    method OpenClient(tcp: nat) returns (fd: nat)
      requires Valid() && tcp != NULL && tcp !in Sessions()
      modifies this`nextFd, this`allocations, this`serials, list, list.repr
      ensures Valid() && fresh(list.repr - old(list.repr)) && list.head != null
      ensures Sessions() == old(Sessions())[tcp := Session(tcp, fd, ClientSession)]
      ensures Servers(list.values) == Servers(old(list.values))
    {
      var n := New(tcp, true);
      AppendSession(old(list.values), n.value);
      fd := n.value.fd;
    }

    /** tcp_ssl_new_client; the flags say which allocations succeed. */
    method NewClient(tcp: nat, context: bool, heap: bool, ssl: bool) returns (r: int)
      requires Valid()
      modifies this`nextFd, this`hasClient, this`allocations, this`serials, list, list.repr
      ensures Valid() && fresh(list.repr - old(list.repr)) && (old(Exclusive()) ==> Exclusive())
      ensures r >= 0 <==> tcp != NULL && tcp !in old(Sessions()) && context && heap && ssl
      ensures r < 0 ==> r == -1 && Sessions() == old(Sessions())
      ensures r >= 0 ==> Sessions() == old(Sessions())[tcp := Session(tcp, r, ClientSession)]
      ensures hasClient == old(hasClient)
    {
      if tcp == NULL {
        return -1;
      }
      var known := Get(tcp);
      if known.Some? || !context {
        return -1;
      }
      if !heap {
        var none := New(tcp, false);
        return -1;
      }
      r := OpenClient(tcp);
      if !ssl {
        r := Withdraw(tcp);
      }
    }

    /** A new entry that is a server's, and the flag. */
    method Admit(tcp: nat) returns (fd: nat)
      requires Valid() && tcp != NULL && tcp !in Sessions()
      modifies this, list, list.repr
      ensures Valid() && fresh(list.repr - old(list.repr)) && list.head != null && hasClient
      ensures Sessions() == old(Sessions())[tcp := Session(tcp, fd, ServerSession)]
      ensures old(Exclusive()) ==> (Exclusive() <==> !old(hasClient))
      ensures Servers(list.values) == Servers(old(list.values)) + 1
    {
      var n := New(tcp, true);
      var s := n.value.(kind := ServerSession);
      AppendSession(old(list.values), s);
      ProperAppend(old(list.values), old(serials), old(allocations), s);
      list.Update(n, |list.nodes| - 1, s);
      assert list.values == old(list.values) + [s];
      fd, hasClient := s.fd, true;
    }

    /** tcp_ssl_new_server; the flags say whether there is a context and which allocations succeed. */
    method NewServer(tcp: nat, context: bool, heap: bool, ssl: bool) returns (r: int)
      requires Valid()
      modifies this, list, list.repr
      ensures Valid() && fresh(list.repr - old(list.repr))
      ensures r >= 0 <==> tcp != NULL && context && tcp !in old(Sessions()) && heap && ssl
      ensures r < 0 ==> r == -1 && Sessions() == old(Sessions())
      ensures r >= 0 ==> Sessions() == old(Sessions())[tcp := Session(tcp, r, ServerSession)] && hasClient
      // exclusion survives a new server session exactly if there was none
      ensures old(Exclusive()) && r >= 0 ==> (Exclusive() <==> !old(hasClient))
      ensures old(Exclusive() && !hasClient) ==> Exclusive()
    {
      if tcp == NULL || !context {
        return -1;
      }
      var known := Get(tcp);
      if known.Some? {
        return -1;
      }
      if !heap {
        var none := New(tcp, false);
        return -1;
      }
      r := Admit(tcp);
      if !ssl {
        r := Withdraw(tcp);
      }
    }
  }
}
