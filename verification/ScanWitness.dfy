/** Runs of the connect scanner that end otherwise than one would wish. */
module ScanWitness {
  import opened ScanState
  import opened ScanWorld

  const UNDER_WAY := Attempt(Descriptor({}), true, InProgress, false)
  const NO_FILE := Attempt(TooManyFiles, true, InProgress, false)

  /** One attempt, on the descriptor the kernel gives out. */
  ghost function Try(v: Scan, p: int, a: Attempt): Scan
    requires 0 <= p < |v.ports|
  {
    Attempted(v, p, FdFor(v.socks, a), a)
  }

  /** The table at the end of a round. */
  ghost function Packed(v: Scan): Scan { v.(socks := Live(v.socks)) }

  /** A scan of the ports `p`, `q` and `r` that has not begun. */
  ghost predicate Start(v: Scan, p: int, q: int, r: int) {
    && Inv(v) && v.socks == [] && 0 < p < q < r < PORTS
    && v.ports[p] == v.ports[q] == v.ports[r] == Unknown
    && v.untested == 3 && v.unfiltered == v.filtered == v.undecidedBefore == 0 && v.oldFiltered == -1
    && Silent !in v.ports && forall x | 0 <= x < PORTS && v.ports[x] == Unknown :: x in {p, q, r}
  }

  /** There is one. */
  lemma SomeStart(p: int, q: int, r: int) returns (v: Scan)
    requires 0 < p < q < r < PORTS
    ensures Start(v, p, q, r) && Marked(v.ports) && Num(v.ports, Unknown) == 3
  {
    var none := seq(PORTS, _ => NotTested);
    assert Unknown !in none;
    var ports := none[p := Unknown][q := Unknown][r := Unknown];
    v := Scan(ports, [], 0, 0, 0, 0, 0, 3, [], map[], {}, 0, 0, -1);
    FirstView(v);
  }

  lemma LowFd(socks: seq<Sock>, a: Attempt)
    requires a == UNDER_WAY && |socks| <= 2
    ensures FdFor(socks, a) < FD_SETSIZE
  {
    FewFds(socks);
    assert UsedFds(socks) + {} == UsedFds(socks);
  }

  /** A connection under way. */
  lemma TryUnderWay(v: Scan, p: int)
    requires Inv(v) && 0 < p < PORTS && v.ports[p] == Unknown && |v.socks| <= 2
    ensures 0 <= p < |v.ports|
    ensures var w := Try(v, p, UNDER_WAY);
            Inv(w) && w == Launch(v, p, FdFor(v.socks, UNDER_WAY))
  {
    hide Inv, Measure, FdFor;
    AllPorts(v);
    LowFd(v.socks, UNDER_WAY);
    AttemptedSteps(v, p, FdFor(v.socks, UNDER_WAY), UNDER_WAY);
  }

  /** Pass one, the opening loop: `p` and `q` are under way, and `r` finds no descriptor. */
  ghost function Begun(v: Scan, p: int, q: int, r: int): Scan
    requires |v.ports| == PORTS && 0 < p < q < r < PORTS
  {
    Try(Try(Try(v, p, UNDER_WAY), q, UNDER_WAY), r, NO_FILE)
  }

  lemma BegunIs(v: Scan, p: int, q: int, r: int)
    requires Start(v, p, q, r)
    ensures |v.ports| == PORTS
    ensures var w := Begun(v, p, q, r);
            && Inv(w) && |w.socks| == 2
            && w.socks[0].port == p && w.socks[1].port == q && w.socks[0].state == w.socks[1].state == Opening
            && w.ports[r] == Testing && Unknown !in w.ports && Silent !in w.ports
            && (w.untested, w.unfiltered, w.filtered, w.oldFiltered) == (3, 0, 0, -1)
  {
    hide Inv, Measure, FdFor, Num;
    AllPorts(v);
    TryUnderWay(v, p);
    var v1 := Try(v, p, UNDER_WAY);
    TryUnderWay(v1, q);
    var v2 := Try(v1, q, UNDER_WAY);
    AttemptedSteps(v2, r, FdFor(v2.socks, NO_FILE), NO_FILE);
  }

  /** The first round: `p` refuses. */
  ghost function Refusing(v: Scan): Scan
    requires |v.socks| == 2 && 0 <= v.socks[0].port < |v.ports|
  {
    Packed(Answered(v, 0, Refused))
  }

  lemma RefusingIs(v: Scan, r: int)
    requires Inv(v) && |v.socks| == 2 && v.socks[0].state == v.socks[1].state == Opening
    requires 0 < r < PORTS && v.ports[r] == Testing && v.socks[0].port != r && Unknown !in v.ports
    ensures 0 < v.socks[0].port < |v.ports| == PORTS
    ensures var w := Refusing(v);
            && Inv(w) && w.socks == [v.socks[1]] && w.ports[r] == Testing && Unknown !in w.ports
            && (Silent !in v.ports ==> Silent !in w.ports)
            && (w.untested, w.unfiltered, w.filtered, w.oldFiltered)
               == (v.untested - 1, v.unfiltered + 1, v.filtered, v.oldFiltered)
  {
    hide Inv, Measure, Num;
    AllPorts(v);
    AnsweredSteps(v, 0, Refused);
    var w := Answered(v, 0, Refused);
    CompactSteps(v, w);
    UnusedFd(v, 1);
    assert w.socks == [Kill(v.socks, 0)[0], v.socks[1]];
    assert w.socks[1..] == [v.socks[1]];
    assert Live([v.socks[1]]) == [v.socks[1]];
    assert w.ports == v.ports[v.socks[0].port := Closed];
  }

  /** The second: nothing answers, and `q` is dropped. */
  ghost function Dropping(v: Scan): Scan
    requires |v.socks| == 1 && 0 <= v.socks[0].port < |v.ports|
  {
    Packed(Dropped(v, 0))
  }

  lemma DroppingIs(v: Scan, r: int)
    requires Inv(v) && |v.socks| == 1 && v.socks[0].state == Opening
    requires 0 < r < PORTS && v.ports[r] == Testing && v.socks[0].port != r
    requires Unknown !in v.ports && Silent !in v.ports
    ensures 0 < v.socks[0].port < |v.ports| == PORTS
    ensures var w := Dropping(v);
            && Inv(w) && w.socks == [] && w.ports[r] == Testing && Unknown !in w.ports
            && w.ports[v.socks[0].port] == Silent && Num(w.ports, Silent) == 1
            && (forall x | 0 <= x < PORTS && w.ports[x] == Silent :: x == v.socks[0].port)
            && (w.untested, w.unfiltered, w.filtered, w.oldFiltered)
               == (v.untested - 1, v.unfiltered, v.filtered + 1, v.oldFiltered)
  {
    hide Inv, Measure;
    AllPorts(v);
    DroppedSteps(v, 0);
    var w := Dropped(v, 0);
    CompactSteps(v, w);
    assert w.ports == v.ports[v.socks[0].port := Silent];
    assert w.socks[1..] == [];
  }

  /** The retry: `q` is under way again and refuses. */
  ghost function Retrying(v: Scan, q: int): (w: Scan)
    requires |v.ports| == PORTS && 0 < q < PORTS && v.socks == []
  {
    var d := Try(NextPass(v), q, UNDER_WAY);
    if |d.socks| == 1 && d.socks[0].port == q then Packed(Answered(d, 0, Refused)) else d
  }

  lemma RetryingIs(v: Scan, q: int, r: int)
    requires Inv(v) && v.socks == [] && 0 < q < PORTS && 0 < r < PORTS && v.ports[r] == Testing && Unknown !in v.ports
    requires v.ports[q] == Silent && Num(v.ports, Silent) == 1
    requires forall x | 0 <= x < PORTS && v.ports[x] == Silent :: x == q
    ensures var w := Retrying(v, q);
            && Inv(w) && w.socks == [] && w.ports[r] == Testing && Unknown !in w.ports
            && (w.untested, w.filtered, w.unfiltered) == (0, 0, v.unfiltered + 1)
  {
    hide Inv, Measure, Num, FdFor;
    AllPorts(v);
    var d := NextPass(v);
    NextPassKeeps(v);
    TryUnderWay(d, q);
    var e := Try(d, q, UNDER_WAY);
    AnsweredSteps(e, 0, Refused);
    var w := Answered(e, 0, Refused);
    CompactSteps(e, w);
    assert w.ports == d.ports[q := Closed];
    assert w.socks[1..] == [];
  }

  /** The window of the opening loop: room for the third attempt, which then closes it to one. */
  ghost predicate OpeningWindow(l: Limits, begun: Scan) {
    var w := Window(l.minCnx, l.maxCnx);
    |begun.socks| == 2 < w.max && WindowAfter(w, 2, FdFor(begun.socks, NO_FILE), NO_FILE) == Window(1, 1)
  }

  /** The window after a round with `n` sockets of which `dropped` were dropped, and the flag for a retry. */
  ghost predicate RoundWindow(l: Limits, w: Window, v: Scan, n: nat, dropped: nat, w': Window, flag: bool) {
    && Adjusted(l, w, v.filtered, v.unfiltered, n, dropped, 0) == (w', flag) && w'.max >= 1 && w'.max2 >= 1
    && Unknown !in v.ports
  }

  /** The full-scan mark can be set with a port undecided: a scan of three ports, with the windows and the
      decisions on its way. In pass one `r` meets a resource error and is lost, `p` refuses and `q` is
      dropped with the flag that calls for a retry; in pass two `q` refuses, which leaves nothing untested
      by the count, nothing filtered, and so no further pass. */
  lemma FullScanCanBeWrong(l: Limits, v: Scan, p: int, q: int, r: int)
    returns (begun: Scan, refusing: Scan, dropping: Scan, w: Window, last: Scan)
    requires l.Ok() && l.minCnx >= 3 && Start(v, p, q, r)
    ensures |v.ports| == PORTS && begun == Begun(v, p, q, r) && OpeningWindow(l, begun)
    ensures 0 <= begun.socks[0].port < |begun.ports| && refusing == Refusing(begun)
    ensures RoundWindow(l, Window(1, 1), refusing, 2, 0, Window(l.minCnx, 1), false)
    ensures |refusing.socks| == 1 && 0 <= refusing.socks[0].port < |refusing.ports| && dropping == Dropping(refusing)
    ensures RoundWindow(l, Window(l.minCnx, 1), dropping, 1, 1, w, true)
    ensures dropping.socks == [] && dropping.filtered != dropping.oldFiltered
    ensures |dropping.ports| == PORTS && last == Retrying(dropping, q)
    ensures var w' := RetryWindow(l, w, 1, true, false);
            w'.max >= 1 && w'.max2 >= 1 && RoundWindow(l, w', last, 1, 0, Adjusted(l, w', 0, 2, 1, 0, 0).0, false)
    ensures Inv(last) && last.socks == [] && last.filtered == 0
    ensures last.untested <= 0 && last.ports[r] == Testing
  {
    hide Inv, Begun, Refusing, Dropping, Retrying, Num, FdFor;
    BegunIs(v, p, q, r);
    begun := Begun(v, p, q, r);
    RefusingIs(begun, r);
    refusing := Refusing(begun);
    DroppingIs(refusing, r);
    dropping := Dropping(refusing);
    RetryingIs(dropping, q, r);
    AllPorts(dropping);
    last := Retrying(dropping, q);
    w := Adjusted(l, Window(l.minCnx, 1), 1, 1, 1, 1, 0).0;
  }

  /** A descriptor beyond FD_SETSIZE can end a pass: with a window of one and an empty table, the attempt on
      `p` closes the window and leaves `q` unknown, while the second limit is still positive. */
  lemma HighFdEndsPass(v: Scan, p: int, q: int, m: int, fd: int, a: Attempt)
    requires Inv(v) && v.socks == [] && 0 < p < PORTS && 0 < q < PORTS && p != q && m > 1
    requires v.ports[p] == v.ports[q] == Unknown && a.socket.Descriptor? && fd >= FD_SETSIZE
    ensures |v.ports| == PORTS
    ensures var w, u := WindowAfter(Window(1, m), 0, fd, a), Attempted(v, p, fd, a);
            w == Window(0, m - 1) && w.max2 > 0 && u.socks == [] && !(|u.socks| < w.max) && u.ports[q] == Unknown
  {
    hide Inv;
    AllPorts(v);
  }
}
