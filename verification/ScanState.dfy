/** The bookkeeping of the TCP connect scanner as values: per-port verdicts, the
    socket table and the counters, the elementary steps a scan is made of, and
    the invariant every step keeps. */
module ScanState {

  datatype PortState = Unknown | Closed | Open | Silent | Rejected | NotTested | Testing

  datatype SockState = Unused | Opening | Connected

  datatype Sock = Sock(fd: int, port: int, state: SockState)

  /** Answers of the kernel about a connection attempt. */
  datatype Errno = Success | InProgress | TryAgain | Refused | Unreachable | OtherError

  const PORTS := 65536

  /** `replies` and `lost` are history: the definitive answer the kernel gave for a
      port, and the ports dropped for want of a descriptor.  `filteredBefore` and
      `undecidedBefore` count the ports the last pass change took out of the totals, and
      `oldFiltered` those it put to the test again. */
  datatype Scan = Scan(
    ports: seq<PortState>, socks: seq<Sock>,
    waiting: int, openNb: int, closedNb: int,
    unfiltered: int, filtered: int, untested: int,
    reported: seq<int>,
    replies: map<int, Errno>, lost: set<int>,
    filteredBefore: int, undecidedBefore: nat, oldFiltered: int)

  function Verdict(e: Errno): PortState {
    if e == Success then Open else if e == Unreachable then Rejected else Closed
  }

  function Num(ports: seq<PortState>, st: PortState): nat {
    multiset(ports)[st]
  }

  function CountSocks(socks: seq<Sock>, st: SockState): nat {
    if socks == [] then 0
    else CountSocks(socks[..|socks| - 1], st) + (if socks[|socks| - 1].state == st then 1 else 0)
  }

  predicate Dead(s: Sock) { s.state == Unused || s.fd < 0 }

  /** The live sockets, in table order. */
  function Live(socks: seq<Sock>): seq<Sock> {
    if socks == [] then []
    else if Dead(socks[0]) then Live(socks[1..])
    else [socks[0]] + Live(socks[1..])
  }

  // ----- the invariant -----

  ghost predicate SockOk(v: Scan, s: Sock)
    requires |v.ports| == PORTS
  {
    match s.state
    case Unused => s.fd < 0
    case Opening => s.fd > 0 && 0 < s.port < PORTS && v.ports[s.port] == Testing && s.port !in v.lost
    case Connected => s.fd > 0 && 0 < s.port < PORTS && v.ports[s.port] == Open
  }

  ghost predicate Distinct(socks: seq<Sock>) {
    forall i, j | 0 <= i < j < |socks| && !Dead(socks[i]) && !Dead(socks[j]) ::
      socks[i].port != socks[j].port && socks[i].fd != socks[j].fd
  }

  ghost predicate BeingOpened(socks: seq<Sock>, p: int) {
    exists i | 0 <= i < |socks| :: socks[i].state == Opening && socks[i].port == p
  }

  ghost predicate Table(v: Scan) {
    && |v.ports| == PORTS && v.ports[0] == NotTested
    && (forall i | 0 <= i < |v.socks| :: SockOk(v, v.socks[i]))
    && Distinct(v.socks)
    && (forall p | 0 <= p < PORTS :: v.ports[p] == Testing ==> p in v.lost || BeingOpened(v.socks, p))
    && (forall p | p in v.lost :: 0 < p < PORTS && v.ports[p] == Testing)
  }

  ghost predicate Counters(v: Scan) {
    && v.waiting == CountSocks(v.socks, Connected)
    && v.openNb == Num(v.ports, Open)
    && v.closedNb == Num(v.ports, Closed)
    && v.unfiltered == v.openNb + v.closedNb
    && v.filtered == Num(v.ports, Silent) + Num(v.ports, Rejected) - v.filteredBefore
    && v.untested == Num(v.ports, Unknown) + Num(v.ports, Testing) - v.undecidedBefore
  }

  ghost predicate Evidence(v: Scan) {
    && |v.ports| == PORTS
    && (forall p | 0 <= p < PORTS ::
          if p in v.replies then v.ports[p] == Verdict(v.replies[p])
          else v.ports[p] !in {Open, Closed, Rejected})
    && (forall p | p in v.replies :: 0 < p < PORTS)
    && (forall i, j | 0 <= i < j < |v.reported| :: v.reported[i] != v.reported[j])
    && (forall p | 0 <= p < PORTS :: p in v.reported <==> v.ports[p] == Open)
    && (forall p | p in v.reported :: 0 <= p < PORTS)
  }

  ghost predicate Inv(v: Scan) { Table(v) && Counters(v) && Evidence(v) }

  /** Bounds the rounds a pass can still take. */
  ghost function Measure(v: Scan): nat {
    3 * Num(v.ports, Unknown) + 2 * CountSocks(v.socks, Opening) + CountSocks(v.socks, Connected)
  }

  // ----- elementary steps -----

  /** Gives port `p` the verdict `st`, adjusting every counter. */
  function Settle(v: Scan, p: int, st: PortState): Scan
    requires 0 <= p < |v.ports|
  {
    var w := v.(ports := v.ports[p := st], untested := v.untested - 1);
    match st
    case Open => w.(unfiltered := v.unfiltered + 1, openNb := v.openNb + 1, reported := v.reported + [p])
    case Closed => w.(unfiltered := v.unfiltered + 1, closedNb := v.closedNb + 1)
    case _ => w.(filtered := v.filtered + 1)
  }

  /** The verdict the kernel's answer `e` calls for. */
  function Hear(v: Scan, p: int, e: Errno): Scan
    requires 0 <= p < |v.ports|
  {
    Settle(v, p, Verdict(e)).(replies := v.replies[p := e])
  }

  /** `connect` is under way on descriptor `fd`. */
  function Launch(v: Scan, p: int, fd: int): Scan
    requires 0 <= p < |v.ports|
  {
    v.(ports := v.ports[p := Testing], socks := v.socks + [Sock(fd, p, Opening)])
  }

  /** `connect` succeeded at once. */
  function LaunchConnected(v: Scan, p: int, fd: int): Scan
    requires 0 <= p < |v.ports|
  {
    Hear(v, p, Success).(socks := v.socks + [Sock(fd, p, Connected)], waiting := v.waiting + 1)
  }

  /** No descriptor for port `p`: it stays under test without a socket. */
  function Lose(v: Scan, p: int): Scan
    requires 0 <= p < |v.ports|
  {
    v.(ports := v.ports[p := Testing], lost := v.lost + {p})
  }

  function Kill(socks: seq<Sock>, i: nat): seq<Sock>
    requires i < |socks|
  {
    socks[i := socks[i].(fd := -1, state := Unused)]
  }

  /** The kernel's answer on socket `i`, whose connection was being opened. */
  function Answered(v: Scan, i: nat, e: Errno): Scan
    requires i < |v.socks| && 0 <= v.socks[i].port < |v.ports|
  {
    var w := Hear(v, v.socks[i].port, e);
    if e == Success
    then w.(socks := v.socks[i := v.socks[i].(state := Connected)], waiting := v.waiting + 1)
    else w.(socks := Kill(v.socks, i))
  }

  /** The socket may be updated before the verdict. */
  lemma AnsweredIs(v: Scan, i: nat, e: Errno)
    requires i < |v.socks| && 0 <= v.socks[i].port < |v.ports|
    ensures Answered(v, i, e) ==
      Hear(if e == Success
           then v.(socks := v.socks[i := v.socks[i].(state := Connected)], waiting := v.waiting + 1)
           else v.(socks := Kill(v.socks, i)), v.socks[i].port, e)
  {
  }

  /** Socket `i` is closed without an answer from its port, or after its banner. */
  function Dropped(v: Scan, i: nat): Scan
    requires i < |v.socks| && 0 <= v.socks[i].port < |v.ports|
  {
    match v.socks[i].state
    case Opening => Settle(v, v.socks[i].port, Silent).(socks := Kill(v.socks, i))
    case Connected => v.(socks := Kill(v.socks, i), waiting := v.waiting - 1)
    case Unused => v.(socks := Kill(v.socks, i))
  }

  // ----- counting sockets -----

  lemma {:induction false} CountUpdate(socks: seq<Sock>, i: nat, s: Sock, st: SockState)
    requires i < |socks|
    ensures CountSocks(socks[i := s], st)
         == CountSocks(socks, st) - (if socks[i].state == st then 1 else 0) + (if s.state == st then 1 else 0)
  {
    var n := |socks| - 1;
    if i == n {
      assert socks[i := s][..n] == socks[..n];
    } else {
      assert socks[i := s][..n] == socks[..n][i := s];
      CountUpdate(socks[..n], i, s, st);
    }
  }

  lemma CountAppend(socks: seq<Sock>, s: Sock, st: SockState)
    ensures CountSocks(socks + [s], st) == CountSocks(socks, st) + (if s.state == st then 1 else 0)
  {
    assert (socks + [s])[..|socks|] == socks;
  }

  lemma {:induction false} CountPrepend(s: Sock, socks: seq<Sock>, st: SockState)
    ensures CountSocks([s] + socks, st) == (if s.state == st then 1 else 0) + CountSocks(socks, st)
  {
    if socks == [] {
      assert [s] + socks == [] + [s];
      CountAppend([], s, st);
    } else {
      var n := |socks| - 1;
      CountPrepend(s, socks[..n], st);
      assert [s] + socks == ([s] + socks[..n]) + [socks[n]];
      CountAppend([s] + socks[..n], socks[n], st);
    }
  }

  lemma {:induction false} CountZero(socks: seq<Sock>, st: SockState)
    requires forall i | 0 <= i < |socks| :: socks[i].state != st
    ensures CountSocks(socks, st) == 0
  {
    if socks != [] { CountZero(socks[..|socks| - 1], st); }
  }

  // ----- steps keep the invariant and make progress -----

  ghost predicate FreshFd(socks: seq<Sock>, fd: int) {
    fd > 0 && forall i | 0 <= i < |socks| :: socks[i].fd != fd
  }

  /** A verdict on an undecided port keeps the counters of ports. */
  lemma SettleCounts(v: Scan, p: int, st: PortState)
    requires Counters(v) && 0 <= p < |v.ports| && v.ports[p] in {Unknown, Testing}
    requires st in {Open, Closed, Rejected, Silent}
    ensures Counters(Settle(v, p, st))
    ensures Num(Settle(v, p, st).ports, Unknown) ==
            Num(v.ports, Unknown) - (if v.ports[p] == Unknown then 1 else 0)
  {
    hide Num, CountSocks;
    NumUpdate(v.ports, p, st);
  }

  lemma NumUpdate(ports: seq<PortState>, p: int, st: PortState)
    requires 0 <= p < |ports|
    ensures forall x :: Num(ports[p := st], x) ==
              Num(ports, x) - (if ports[p] == x then 1 else 0) + (if st == x then 1 else 0)
  {
  }

  lemma HearEvidence(v: Scan, p: int, e: Errno)
    requires Evidence(v) && 0 < p < PORTS && v.ports[p] in {Unknown, Testing}
    ensures Evidence(Hear(v, p, e))
  {
  }

  /** Adding a socket for a port that had none keeps the table. */
  lemma TableAppend(v: Scan, p: int, st: PortState, s: Sock)
    requires Table(v) && 0 < p < PORTS && v.ports[p] == Unknown
    requires FreshFd(v.socks, s.fd) && s.port == p
    requires (s.state == Opening && st == Testing) || (s.state == Connected && st == Open)
    ensures Table(v.(ports := v.ports[p := st], socks := v.socks + [s]))
  {
    var w := v.(ports := v.ports[p := st], socks := v.socks + [s]);
    forall q | 0 <= q < PORTS && w.ports[q] == Testing
      ensures q in w.lost || BeingOpened(w.socks, q)
    {
      if q == p {
        assert w.socks[|v.socks|] == s;
      } else if BeingOpened(v.socks, q) {
        var i :| 0 <= i < |v.socks| && v.socks[i].state == Opening && v.socks[i].port == q;
        assert w.socks[i] == v.socks[i];
      }
    }
  }

  lemma LaunchKeeps(v: Scan, p: int, fd: int)
    requires Inv(v) && 0 < p < PORTS && v.ports[p] == Unknown && FreshFd(v.socks, fd)
    ensures Inv(Launch(v, p, fd)) && Measure(Launch(v, p, fd)) == Measure(v) - 1
  {
    hide Table, Num, CountSocks, Evidence;
    TableSize(v);
    CountAppend(v.socks, Sock(fd, p, Opening), Opening);
    CountAppend(v.socks, Sock(fd, p, Opening), Connected);
    TableAppend(v, p, Testing, Sock(fd, p, Opening));
    NumUpdate(v.ports, p, Testing);
    LaunchEvidence(v, p, fd);
  }

  lemma LaunchEvidence(v: Scan, p: int, fd: int)
    requires Evidence(v) && 0 <= p < |v.ports| && v.ports[p] == Unknown
    ensures Evidence(Launch(v, p, fd))
  {
  }

  lemma LaunchConnectedKeeps(v: Scan, p: int, fd: int)
    requires Inv(v) && 0 < p < PORTS && v.ports[p] == Unknown && FreshFd(v.socks, fd)
    ensures Inv(LaunchConnected(v, p, fd)) && Measure(LaunchConnected(v, p, fd)) == Measure(v) - 2
  {
    hide Table, Num, CountSocks;
    TableSize(v);
    var w := LaunchConnected(v, p, fd);
    CountAppend(v.socks, Sock(fd, p, Connected), Opening);
    CountAppend(v.socks, Sock(fd, p, Connected), Connected);
    SettleCounts(v, p, Open);
    HearEvidence(v, p, Success);
    TableAppend(v, p, Open, Sock(fd, p, Connected));
    SameTable(v.(ports := v.ports[p := Open], socks := w.socks), w);
  }

  /** The table invariant reads only the ports, the sockets and the lost ports. */
  lemma SameTable(v: Scan, w: Scan)
    requires Table(v) && w.ports == v.ports && w.socks == v.socks && w.lost == v.lost
    ensures Table(w)
  {
    forall i | 0 <= i < |w.socks| ensures SockOk(w, w.socks[i]) {
      assert SockOk(v, v.socks[i]);
    }
  }

  lemma TableSettle(v: Scan, p: int, st: PortState)
    requires Table(v) && 0 < p < PORTS && v.ports[p] == Unknown && st != Testing
    ensures Table(v.(ports := v.ports[p := st]))
  {
    var w := v.(ports := v.ports[p := st]);
    forall i | 0 <= i < |w.socks| ensures SockOk(w, w.socks[i]) {
      assert SockOk(v, v.socks[i]);
    }
  }

  lemma HearTable(v: Scan, p: int, e: Errno)
    requires Table(v) && 0 < p < |v.ports| && v.ports[p] == Unknown
    ensures Table(Hear(v, p, e))
  {
    hide Table;
    TableSize(v);
    TableSettle(v, p, Verdict(e));
    SameTable(v.(ports := v.ports[p := Verdict(e)]), Hear(v, p, e));
  }

  lemma TableSize(v: Scan)
    requires Table(v)
    ensures |v.ports| == PORTS
  {
  }

  lemma HearCounts(v: Scan, p: int, e: Errno)
    requires Counters(v) && 0 < p < |v.ports| && v.ports[p] == Unknown
    ensures Counters(Hear(v, p, e)) && Measure(Hear(v, p, e)) == Measure(v) - 3
  {
    SettleCounts(v, p, Verdict(e));
  }

  /** A refusal or rejection at once. */
  lemma HearKeeps(v: Scan, p: int, e: Errno)
    requires Inv(v) && 0 < p < PORTS && v.ports[p] == Unknown
    ensures Inv(Hear(v, p, e)) && Measure(Hear(v, p, e)) == Measure(v) - 3
  {
    hide Table, Evidence, Counters, Measure, Hear;
    TableSize(v);
    HearTable(v, p, e);
    HearEvidence(v, p, e);
    HearCounts(v, p, e);
  }

  lemma LoseKeeps(v: Scan, p: int)
    requires Inv(v) && 0 < p < PORTS && v.ports[p] == Unknown
    ensures Inv(Lose(v, p)) && Measure(Lose(v, p)) == Measure(v) - 3
  {
    hide Table, Counters, Evidence, Num;
    TableSize(v);
    LoseTable(v, p);
    LoseCounts(v, p);
    LoseEvidence(v, p);
    NumUpdate(v.ports, p, Testing);
  }

  lemma LoseTable(v: Scan, p: int)
    requires Table(v) && 0 < p < PORTS && v.ports[p] == Unknown
    ensures Table(Lose(v, p))
  {
    var w := Lose(v, p);
    forall i | 0 <= i < |w.socks| ensures SockOk(w, w.socks[i]) {
      assert SockOk(v, v.socks[i]);
    }
  }

  lemma LoseCounts(v: Scan, p: int)
    requires Counters(v) && 0 <= p < |v.ports| && v.ports[p] == Unknown
    ensures Counters(Lose(v, p))
  {
    hide Num, CountSocks;
    NumUpdate(v.ports, p, Testing);
  }

  lemma LoseEvidence(v: Scan, p: int)
    requires Evidence(v) && 0 <= p < |v.ports| && v.ports[p] == Unknown
    ensures Evidence(Lose(v, p))
  {
  }

  /** Changing the socket of port `p`, and `p`'s verdict with it, keeps the table. */
  lemma TableUpdate(v: Scan, i: nat, st: PortState, s: Sock)
    requires Table(v) && i < |v.socks| && v.socks[i].state != Unused && s.port == v.socks[i].port
    requires if s.state == Connected then st == Open && s.fd == v.socks[i].fd
             else s.state == Unused && s.fd < 0 && st in {Open, Closed, Rejected, Silent}
    ensures Table(v.(ports := v.ports[s.port := st], socks := v.socks[i := s]))
  {
    var w := v.(ports := v.ports[s.port := st], socks := v.socks[i := s]);
    assert SockOk(v, v.socks[i]);
    forall j | 0 <= j < |w.socks| ensures SockOk(w, w.socks[j]) {
      assert SockOk(v, v.socks[j]);
    }
    forall q | 0 <= q < PORTS && w.ports[q] == Testing
      ensures q in w.lost || BeingOpened(w.socks, q)
    {
      if BeingOpened(v.socks, q) {
        var j :| 0 <= j < |v.socks| && v.socks[j].state == Opening && v.socks[j].port == q;
        assert w.socks[j] == v.socks[j];
      }
    }
  }

  lemma AnsweredCounts(v: Scan, i: nat, e: Errno)
    requires Counters(v) && i < |v.socks| && v.socks[i].state == Opening
    requires 0 <= v.socks[i].port < |v.ports| && v.ports[v.socks[i].port] == Testing
    ensures Counters(Answered(v, i, e)) && Measure(Answered(v, i, e)) < Measure(v)
  {
    var s := Answered(v, i, e).socks[i];
    CountUpdate(v.socks, i, s, Opening);
    CountUpdate(v.socks, i, s, Connected);
    SettleCounts(v, s.port, Verdict(e));
  }

  lemma AnsweredTable(v: Scan, i: nat, e: Errno)
    requires Table(v) && i < |v.socks| && v.socks[i].state == Opening && 0 < v.socks[i].port < PORTS
    ensures Table(Answered(v, i, e))
  {
    hide Table;
    SockPort(v, i);
    var w := Answered(v, i, e);
    TableUpdate(v, i, Verdict(e), w.socks[i]);
    SameTable(v.(ports := v.ports[v.socks[i].port := Verdict(e)], socks := w.socks), w);
  }

  lemma AnsweredEvidence(v: Scan, i: nat, e: Errno)
    requires Evidence(v) && i < |v.socks| && 0 < v.socks[i].port < PORTS && v.ports[v.socks[i].port] == Testing
    ensures Evidence(Answered(v, i, e))
  {
    hide Hear;
    HearEvidence(v, v.socks[i].port, e);
    SameEvidence(Hear(v, v.socks[i].port, e), Answered(v, i, e));
  }

  lemma SameEvidence(v: Scan, w: Scan)
    requires Evidence(v) && w.ports == v.ports && w.replies == v.replies && w.reported == v.reported
    ensures Evidence(w)
  {
  }

  lemma AnsweredKeeps(v: Scan, i: nat, e: Errno)
    requires Inv(v) && i < |v.socks| && v.socks[i].state == Opening
    ensures Inv(Answered(v, i, e)) && Measure(Answered(v, i, e)) < Measure(v)
  {
    hide Table, Evidence, Counters, Measure, Answered;
    SockPort(v, i);
    AnsweredTable(v, i, e);
    AnsweredEvidence(v, i, e);
    AnsweredCounts(v, i, e);
  }

  /** What a socket in use says about its port. */
  lemma SockPort(v: Scan, i: nat)
    requires Table(v) && i < |v.socks| && v.socks[i].state != Unused
    ensures |v.ports| == PORTS && 0 < v.socks[i].port < PORTS
    ensures v.ports[v.socks[i].port] == if v.socks[i].state == Opening then Testing else Open
  {
    assert SockOk(v, v.socks[i]);
  }

  lemma DroppedTable(v: Scan, i: nat)
    requires Table(v) && i < |v.socks| && v.socks[i].state != Unused && 0 < v.socks[i].port < PORTS
    ensures Table(Dropped(v, i))
  {
    hide Table;
    SockPort(v, i);
    var w := Dropped(v, i);
    var p, s := v.socks[i].port, w.socks[i];
    var st := if v.socks[i].state == Opening then Silent else Open;
    TableUpdate(v, i, st, s);
    assert w.ports == v.ports[p := st];
    SameTable(v.(ports := v.ports[p := st], socks := w.socks), w);
  }

  lemma DroppedEvidence(v: Scan, i: nat)
    requires Evidence(v) && i < |v.socks| && 0 < v.socks[i].port < PORTS
    requires v.socks[i].state == Opening ==> v.ports[v.socks[i].port] == Testing
    ensures Evidence(Dropped(v, i))
  {
  }

  lemma DroppedCounts(v: Scan, i: nat)
    requires Counters(v) && i < |v.socks| && 0 <= v.socks[i].port < |v.ports| && v.socks[i].state != Unused
    requires v.socks[i].state == Opening ==> v.ports[v.socks[i].port] == Testing
    ensures Counters(Dropped(v, i)) && Measure(Dropped(v, i)) < Measure(v)
  {
    var s := Dropped(v, i).socks[i];
    CountUpdate(v.socks, i, s, Opening);
    CountUpdate(v.socks, i, s, Connected);
    if v.socks[i].state == Opening { SettleCounts(v, s.port, Silent); }
  }

  lemma DroppedKeeps(v: Scan, i: nat)
    requires Inv(v) && i < |v.socks| && v.socks[i].state != Unused
    ensures Inv(Dropped(v, i)) && Measure(Dropped(v, i)) < Measure(v)
  {
    hide Table, Evidence, Counters, Measure, Dropped;
    SockPort(v, i);
    DroppedTable(v, i);
    DroppedEvidence(v, i);
    DroppedCounts(v, i);
  }

  // ----- compaction -----

  lemma {:induction false} LiveMembers(socks: seq<Sock>)
    ensures forall s :: s in Live(socks) <==> s in socks && !Dead(s)
  {
    if socks != [] { LiveMembers(socks[1..]); }
  }

  lemma {:induction false} LiveAppend(a: seq<Sock>, b: seq<Sock>)
    ensures Live(a + b) == Live(a) + Live(b)
  {
    if a == [] {
      assert a + b == b;
    } else {
      assert (a + b)[1..] == a[1..] + b;
      LiveAppend(a[1..], b);
    }
  }

  lemma {:induction false} LiveNone(d: seq<Sock>)
    requires forall i | 0 <= i < |d| :: Dead(d[i])
    ensures Live(d) == []
  {
    if d != [] { LiveNone(d[1..]); }
  }

  lemma {:induction false} LiveAll(a: seq<Sock>)
    requires forall i | 0 <= i < |a| :: !Dead(a[i])
    ensures Live(a) == a
  {
    if a != [] { LiveAll(a[1..]); }
  }

  /** Cutting a run of dead entries out of a table loses no live socket. */
  lemma LiveCut(a: seq<Sock>, d: seq<Sock>, b: seq<Sock>)
    requires forall i | 0 <= i < |d| :: Dead(d[i])
    ensures Live(a + d + b) == Live(a + b)
  {
    LiveNone(d);
    LiveAppend(a, d);
    LiveAppend(a + d, b);
    LiveAppend(a, b);
  }

  lemma {:induction false} LiveDistinct(socks: seq<Sock>)
    requires Distinct(socks)
    ensures Distinct(Live(socks))
  {
    if socks != [] {
      LiveDistinct(socks[1..]);
      LiveMembers(socks[1..]);
    }
  }

  lemma {:induction false} LiveCounts(socks: seq<Sock>, st: SockState)
    requires st != Unused
    requires forall i | 0 <= i < |socks| :: Dead(socks[i]) ==> socks[i].state == Unused
    ensures CountSocks(Live(socks), st) == CountSocks(socks, st)
  {
    if socks != [] {
      LiveCounts(socks[1..], st);
      assert socks == [socks[0]] + socks[1..];
      CountPrepend(socks[0], socks[1..], st);
      if !Dead(socks[0]) { CountPrepend(socks[0], Live(socks[1..]), st); }
    }
  }

  /** Dropping the dead entries changes no verdict, no counter and no measure. */
  lemma CompactKeeps(v: Scan)
    requires Inv(v)
    ensures var w := v.(socks := Live(v.socks));
            Inv(w) && Measure(w) == Measure(v) && forall i | 0 <= i < |w.socks| :: !Dead(w.socks[i])
    ensures forall st | st != Unused :: CountSocks(Live(v.socks), st) == CountSocks(v.socks, st)
  {
    var w := v.(socks := Live(v.socks));
    LiveMembers(v.socks);
    LiveDistinct(v.socks);
    LiveCounts(v.socks, Opening);
    LiveCounts(v.socks, Connected);
    forall i | 0 <= i < |w.socks| ensures SockOk(w, w.socks[i]) && !Dead(w.socks[i]) {
      assert w.socks[i] in w.socks;
      assert SockOk(v, w.socks[i]);
    }
    forall q | 0 <= q < PORTS && w.ports[q] == Testing
      ensures q in w.lost || BeingOpened(w.socks, q)
    {
      if BeingOpened(v.socks, q) {
        var i :| 0 <= i < |v.socks| && v.socks[i].state == Opening && v.socks[i].port == q;
        assert v.socks[i] in Live(v.socks);
        var j :| 0 <= j < |w.socks| && w.socks[j] == v.socks[i];
      }
    }
  }

  // ----- pass change -----

  /** Between passes every silent port is tried again. */
  function Retry(ports: seq<PortState>): seq<PortState> {
    seq(|ports|, i requires 0 <= i < |ports| => if ports[i] == Silent then Unknown else ports[i])
  }

  /** The next pass: the totals forget the rejected and the undecided ports. */
  function NextPass(v: Scan): Scan {
    v.(ports := Retry(v.ports), untested := Num(v.ports, Silent), filtered := 0,
       filteredBefore := Num(v.ports, Rejected), undecidedBefore := Num(v.ports, Unknown) + Num(v.ports, Testing),
       oldFiltered := Num(v.ports, Silent))
  }

  lemma {:induction false} RetryCounts(ports: seq<PortState>, st: PortState)
    ensures Num(Retry(ports), st) ==
            if st == Unknown then Num(ports, Unknown) + Num(ports, Silent)
            else if st == Silent then 0 else Num(ports, st)
  {
    if ports == [] {
      assert Retry(ports) == [];
    } else {
      var n := |ports| - 1;
      RetryCounts(ports[..n], st);
      assert ports == ports[..n] + [ports[n]];
      assert Retry(ports) == Retry(ports[..n]) + [if ports[n] == Silent then Unknown else ports[n]];
    }
  }

  lemma NextPassKeeps(v: Scan)
    requires Inv(v)
    ensures Inv(NextPass(v))
  {
    RetryCounts(v.ports, Unknown);
    RetryCounts(v.ports, Silent);
    RetryCounts(v.ports, Rejected);
    RetryCounts(v.ports, Testing);
    RetryCounts(v.ports, Open);
    RetryCounts(v.ports, Closed);
  }

  /** A pass over the ports still unknown only: the totals forget everything decided as filtered. */
  function RecheckPass(v: Scan): Scan {
    v.(untested := Num(v.ports, Unknown), filtered := 0,
       filteredBefore := Num(v.ports, Silent) + Num(v.ports, Rejected), undecidedBefore := Num(v.ports, Testing),
       oldFiltered := Num(v.ports, Unknown))
  }

  lemma RecheckPassKeeps(v: Scan)
    requires Inv(v)
    ensures Inv(RecheckPass(v))
  {
    SameTable(v, RecheckPass(v));
  }
}
