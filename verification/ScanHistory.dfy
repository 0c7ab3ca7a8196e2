/** What is known of a connect scan from pass to pass: the port tables at the changes of pass, the ports
    they took out of the totals, and the connection window they leave. */
module ScanHistory {
  import opened ScanState
  import opened ScanWorld

  // ----- the passes -----

  /** The port tables at the changes of pass so far, after the one the scan was started with;
      the first change may have been the one that only rechecks unknown ports. */
  datatype History = History(tables: seq<seq<PortState>>, rechecked: bool) {
    ghost predicate Rechecks(k: int) { k == 1 && rechecked }

    /** The table the pass after change `k` starts from. */
    ghost function Start(k: int): seq<PortState>
      requires 0 <= k < |tables|
    {
      if k == 0 || Rechecks(k) then tables[k] else Retry(tables[k])
    }

    /** What change `k` took out of the filtered ports, and out of the undecided ones. */
    ghost function FilteredBefore(k: int): int
      requires 0 <= k < |tables|
    {
      if k == 0 then 0
      else Num(tables[k], Rejected) + if Rechecks(k) then Num(tables[k], Silent) else 0
    }

    /** How many ports change `k` put to the test; none before it. */
    ghost function Tested(k: int): int
      requires 0 <= k < |tables|
    {
      if k == 0 then -1 else Num(tables[k], if Rechecks(k) then Unknown else Silent)
    }

    /** The filtered ports of a pass after change `k` that ended with the table `end`. */
    ghost function Filtered(k: int, end: seq<PortState>): int
      requires 0 <= k < |tables|
    {
      Num(end, Silent) + Num(end, Rejected) - FilteredBefore(k)
    }

    ghost function UndecidedBefore(k: int): nat
      requires 0 <= k < |tables|
    {
      if k == 0 then 0
      else Num(tables[k], Testing) + if Rechecks(k) then 0 else Num(tables[k], Unknown)
    }
  }

  /** The verdicts in a table are what the world said. */
  ghost predicate Truthful(rec: Record, ports: seq<PortState>, crowded: bool) {
    forall p | 0 <= p < |ports| ::
      match ports[p]
      case Open => Says(rec, p, Success)
      case Rejected => Says(rec, p, Unreachable)
      case Closed => exists e :: e != Success && e != Unreachable && Says(rec, p, e)
      case Silent => Says(rec, p, InProgress)
      case Testing => Starved(rec, p) || crowded
      case _ => true
  }

  /** A table at the end of a pass that began with `start`. */
  ghost predicate PassEnds(rec: Record, start: seq<PortState>, end: seq<PortState>, crowded: bool) {
    Evolves(start, end) && Truthful(rec, end, crowded) && (!crowded ==> Unknown !in end)
  }

  /** Every pass of the history is a pass of this world. */
  ghost predicate Chronicle(rec: Record, marks: seq<PortState>, h: History, crowded: bool) {
    && h.tables != [] && h.tables[0] == marks && |marks| == PORTS
    && (h.rechecked ==> crowded && |h.tables| > 1)
    && forall k | 1 <= k < |h.tables| :: PassEnds(rec, h.Start(k - 1), h.tables[k], crowded)
  }

  /** A history with one change more. */
  ghost function Longer(h: History, end: seq<PortState>, re: bool): History {
    History(h.tables + [end], h.rechecked || (|h.tables| == 1 && re))
  }

  lemma SameStart(h: History, end: seq<PortState>, re: bool, k: int)
    requires 0 <= k < |h.tables| && (|h.tables| == 1 ==> !h.rechecked)
    ensures Longer(h, end, re).tables[k] == h.tables[k] && Longer(h, end, re).Start(k) == h.Start(k)
    ensures Longer(h, end, re).FilteredBefore(k) == h.FilteredBefore(k)
    ensures Longer(h, end, re).UndecidedBefore(k) == h.UndecidedBefore(k)
    ensures Longer(h, end, re).Tested(k) == h.Tested(k)
  {
  }

  lemma ChronicleMore(rec: Record, marks: seq<PortState>, h: History, end: seq<PortState>, re: bool, c: bool)
    requires Chronicle(rec, marks, h, c) && PassEnds(rec, h.Start(|h.tables| - 1), end, c) && (re ==> c)
    ensures Chronicle(rec, marks, Longer(h, end, re), c)
  {
    hide PassEnds;
    var g := Longer(h, end, re);
    forall k | 1 <= k < |g.tables| ensures PassEnds(rec, g.Start(k - 1), g.tables[k], c) {
      Before(rec, marks, h, end, re, c, k);
    }
  }

  lemma Before(rec: Record, marks: seq<PortState>, h: History, end: seq<PortState>, re: bool, c: bool, k: int)
    requires Chronicle(rec, marks, h, c) && PassEnds(rec, h.Start(|h.tables| - 1), end, c) && 1 <= k <= |h.tables|
    ensures PassEnds(rec, Longer(h, end, re).Start(k - 1), Longer(h, end, re).tables[k], c)
  {
    hide PassEnds, History.Start;
    SameStart(h, end, re, k - 1);
    if k < |h.tables| { assert Longer(h, end, re).tables[k] == h.tables[k]; }
  }

  lemma StillTruthful(prior: Record, rec: Record, ports: seq<PortState>, c: bool, d: bool)
    requires Further(prior, rec) && Truthful(prior, ports, c) && (c ==> d)
    ensures Truthful(rec, ports, d)
  {
    hide Says, Starved;
    forall p, e | Says(prior, p, e) ensures Says(rec, p, e) { StillSays(prior, rec, p, e); }
    forall p | Starved(prior, p) ensures Starved(rec, p) { StillSays(prior, rec, p, Success); }
  }

  lemma StillChronicle(prior: Record, rec: Record, marks: seq<PortState>, h: History, c: bool, d: bool)
    requires Further(prior, rec) && Chronicle(prior, marks, h, c) && (c ==> d)
    ensures Chronicle(rec, marks, h, d)
  {
    hide Truthful, Evolves;
    forall k | 1 <= k < |h.tables| ensures PassEnds(rec, h.Start(k - 1), h.tables[k], d) {
      StillTruthful(prior, rec, h.tables[k], c, d);
    }
  }

  lemma OnlyLostRemain(v: Scan, p: int)
    requires Inv(v) && v.socks == [] && 0 <= p < PORTS
    ensures v.ports[p] == Testing <==> p in v.lost
  {
  }

  lemma VerdictsTruthful(rec: Record, v: Scan, o: bool, crowded: bool)
    requires Inv(v) && v.socks == [] && Grounded(rec, v, o) && (o ==> crowded)
    ensures Truthful(rec, v.ports, crowded)
  {
    hide Says, Starved, Table, Counters;
    forall p | 0 <= p < PORTS && v.ports[p] in {Silent, Testing}
      ensures if v.ports[p] == Silent then Says(rec, p, InProgress) else Starved(rec, p) || crowded
    {
      OnlyLostRemain(v, p);
    }
  }

  /** Verdicts only become more. */
  lemma {:induction false} NumGrows(a: seq<PortState>, b: seq<PortState>, st: PortState)
    requires Evolves(a, b) && st !in {Unknown, Testing}
    ensures Num(a, st) <= Num(b, st)
  {
    if a != [] {
      var n := |a| - 1;
      assert a == a[..n] + [a[n]] && b == b[..n] + [b[n]];
      NumGrows(a[..n], b[..n], st);
    }
  }

  // ----- a kind world from pass to pass -----

  /** In a kind world every pass tests fewer ports than the one before, so `pass - 2` of the `n` ports
      asked for have got an answer since the first. */
  ghost predicate Shrinks(v: Scan, pass: nat, n: int) {
    && v.undecidedBefore == 0 && v.filtered == 0 && v.filteredBefore <= Num(v.ports, Rejected)
    && v.untested + Greater(pass - 2, 0) <= n
    && (pass >= 2 ==> v.oldFiltered == v.untested)
  }

  /** The pass from `v` to `w` was followed by another. */
  lemma ShrinksAgain(v: Scan, w: Scan, pass: nat, n: int)
    requires Inv(v) && Step(v, w) && Shrinks(v, pass, n) && pass >= 1
    requires Num(w.ports, Unknown) == Num(w.ports, Testing) == 0 && w.filtered != w.oldFiltered
    ensures Shrinks(NextPass(w), pass + 1, n)
  {
    hide Table, Evidence, Measure, Num, Retry;
    NumGrows(v.ports, w.ports, Open);
    NumGrows(v.ports, w.ports, Closed);
    NumGrows(v.ports, w.ports, Rejected);
    RetryCounts(w.ports, Rejected);
  }

  /** A pass begins with no port silent and a second limit of two, or with nothing left to test. */
  ghost predicate Roomy(v: Scan, max2: int) {
    && Num(v.ports, Silent) == 0
    && (max2 >= 2 || (max2 >= 1 && v.untested == 0 && v.oldFiltered == 0))
  }

  /** A pass with nothing to test changes nothing, so no other follows. */
  lemma NothingToTest(v: Scan, w: Scan, pass: nat, n: int)
    requires Inv(v) && Step(v, w) && Shrinks(v, pass, n) && v.untested == 0 && v.oldFiltered == 0
    ensures w.filtered == w.oldFiltered
  {
    assert Unknown !in v.ports && Testing !in v.ports;
    assert w.ports == v.ports;
  }

  /** The pass from `v` to `w`, with the second limits `max2` and `mid`, was followed by another. */
  lemma RoomyAgain(l: Limits, v: Scan, max2: int, w: Scan, mid: int, max2': int, pass: nat, n: int)
    requires Inv(v) && Step(v, w) && Shrinks(v, pass, n) && Roomy(v, max2) && w.filtered != w.oldFiltered
    requires Wide(max2, Num(v.ports, Silent)) ==> Wide(mid, Num(w.ports, Silent))
    requires Wide(mid, Num(w.ports, Silent)) ==> max2' >= if Num(w.ports, Silent) > 0 then 2 else 1
    ensures Roomy(NextPass(w), max2')
  {
    hide Inv, Step, Num, Shrinks, Retry;
    if max2 < 2 { NothingToTest(v, w, pass, n); }
    RetryCounts(w.ports, Silent);
  }

  // ----- from pass to pass -----

  /** What is known where a pass begins: the history so far, and the totals and the window it left. */
  ghost predicate Begun(rec: Record, l: Limits, marks: seq<PortState>, h: History, v: Scan, max2: int)
    requires l.Ok()
  {
    && SameRequest(marks, v.ports) && Chronicle(rec, marks, h, Crowded(rec, l))
    && v.ports == h.Start(|h.tables| - 1)
    && v.filteredBefore == h.FilteredBefore(|h.tables| - 1) && v.undecidedBefore == h.UndecidedBefore(|h.tables| - 1)
    && (|| Harsh(rec) || Crowded(rec, l)
        || (Shrinks(v, |h.tables|, Num(marks, Unknown)) && (l.minCnx >= SAFE_MIN_CNX ==> Roomy(v, max2))))
  }

  /** What is known where it has ended. */
  ghost predicate Ended(rec: Record, l: Limits, marks: seq<PortState>, h: History, w: Scan) {
    && SameRequest(marks, w.ports) && Chronicle(rec, marks, h, Crowded(rec, l))
    && PassEnds(rec, h.Start(|h.tables| - 1), w.ports, Crowded(rec, l))
    && w.filteredBefore == h.FilteredBefore(|h.tables| - 1) && w.undecidedBefore == h.UndecidedBefore(|h.tables| - 1)
  }

  lemma FirstBegun(rec: Record, l: Limits, v: Scan)
    requires l.Ok() && Marked(v.ports) && v.untested == Num(v.ports, Unknown)
    requires v.filtered == v.filteredBefore == v.undecidedBefore == 0
    ensures Begun(rec, l, v.ports, History([v.ports], false), v, l.maxCnx)
  {
    hide Harsh, Crowded;
  }

  lemma PassIsOver(rec: Record, v: Scan, w: Scan, o: bool, c: bool)
    requires Step(v, w) && w.socks == [] && Grounded(rec, w, o) && (o ==> c)
    requires !o ==> forall p | 1 <= p < PORTS :: w.ports[p] != Unknown
    ensures PassEnds(rec, v.ports, w.ports, c)
  {
    hide Inv, Grounded, Measure, Truthful, Evolves;
    AllPorts(w);
    VerdictsTruthful(rec, w, o, c);
  }

  lemma PassEnded(prior: Record, rec: Record, l: Limits, marks: seq<PortState>, h: History, v: Scan, max2: int, w: Scan)
    requires l.Ok() && Further(prior, rec) && Begun(prior, l, marks, h, v, max2) && Step(v, w)
    requires PassEnds(rec, v.ports, w.ports, Crowded(rec, l))
    ensures Ended(rec, l, marks, h, w)
  {
    hide Inv, Measure, Truthful, Chronicle, Harsh, Crowded;
    StillHarsh(prior, rec, l);
    StillChronicle(prior, rec, marks, h, Crowded(prior, l), Crowded(rec, l));
  }

  /** In a kind world a pass decides every port. */
  lemma KindEnd(rec: Record, start: seq<PortState>, end: seq<PortState>)
    requires PassEnds(rec, start, end, false) && !Harsh(rec)
    ensures Num(end, Unknown) == Num(end, Testing) == 0
  {
    hide Says;
    if Testing in end {
      var p :| 0 <= p < |end| && end[p] == Testing;
      StarvedIsHarsh(rec, p);
    }
  }

  lemma StarvedIsHarsh(rec: Record, p: int)
    requires Starved(rec, p)
    ensures Harsh(rec)
  {
    var n: nat :| (n, p) in rec.attempts && Starves(rec.env.attempt(n, p));
    assert Unkind(rec.env.attempt(n, p));
  }

  /** What a pass in a kind world, and the change after it, do to the second limit. */
  ghost predicate Reopens(rec: Record, l: Limits, v: Scan, max2: int, w: Scan, mid: int, max2': int) {
    && (l.minCnx >= SAFE_MIN_CNX && Wide(max2, Num(v.ports, Silent)) ==>
          Harsh(rec) || Crowded(rec, l) || Wide(mid, Num(w.ports, Silent)))
    && (Wide(mid, Num(w.ports, Silent)) ==> max2' >= if Num(w.ports, Silent) > 0 then 2 else 1)
  }

  /** A change of pass that retries the silent ports. */
  lemma RetryBegun(prior: Record, rec: Record, l: Limits, marks: seq<PortState>, h: History, v: Scan, max2: int,
                   w: Scan, mid: int, max2': int)
    requires l.Ok() && Inv(v) && Further(prior, rec) && Begun(prior, l, marks, h, v, max2)
    requires Step(v, w) && Ended(rec, l, marks, h, w)
    requires w.filtered != w.oldFiltered && Reopens(rec, l, v, max2, w, mid, max2')
    ensures Begun(rec, l, marks, Longer(h, w.ports, false), NextPass(w), max2')
  {
    hide Inv, Measure, Harsh, Crowded, PassEnds, Chronicle, Num, Retry, Shrinks, Roomy, Reopens, Step, SameRequest;
    EndedFacts(rec, l, marks, h, w);
    ChronicleMore(rec, marks, h, w.ports, false, Crowded(rec, l));
    SameRetry(marks, w.ports);
    StillHarsh(prior, rec, l);
    if !Harsh(rec) && !Crowded(rec, l) { KindRetry(rec, l, marks, h, v, max2, w, mid, max2'); }
  }

  /** The same in a kind world. */
  lemma KindRetry(rec: Record, l: Limits, marks: seq<PortState>, h: History, v: Scan, max2: int, w: Scan, mid: int,
                  max2': int)
    requires l.Ok() && Inv(v) && Step(v, w) && Ended(rec, l, marks, h, w) && h.tables != []
    requires !Harsh(rec) && !Crowded(rec, l) && w.filtered != w.oldFiltered
    requires Shrinks(v, |h.tables|, Num(marks, Unknown)) && (l.minCnx >= SAFE_MIN_CNX ==> Roomy(v, max2))
    requires Reopens(rec, l, v, max2, w, mid, max2')
    ensures Shrinks(NextPass(w), |h.tables| + 1, Num(marks, Unknown))
    ensures l.minCnx >= SAFE_MIN_CNX ==> Roomy(NextPass(w), max2')
  {
    hide Inv, Measure, Harsh, Crowded, PassEnds, Chronicle, Num, Retry, Shrinks, Roomy, Wide, Step, SameRequest;
    var n := |h.tables|;
    KindEnd(rec, h.Start(n - 1), w.ports);
    ShrinksAgain(v, w, n, Num(marks, Unknown));
    if l.minCnx >= SAFE_MIN_CNX { RoomyAgain(l, v, max2, w, mid, max2', n, Num(marks, Unknown)); }
  }

  lemma SameRetry(marks: seq<PortState>, ports: seq<PortState>)
    requires SameRequest(marks, ports)
    ensures SameRequest(marks, Retry(ports))
  {
  }

  /** A change of pass that rechecks the unknown ports: only the descriptor limit leaves any. */
  lemma RecheckBegun(rec: Record, l: Limits, marks: seq<PortState>, h: History, w: Scan, max2': int)
    requires l.Ok() && Ended(rec, l, marks, h, w) && |h.tables| == 1 && Num(w.ports, Unknown) > 0
    ensures Begun(rec, l, marks, Longer(h, w.ports, true), RecheckPass(w), max2')
  {
    hide Truthful, Harsh, Crowded, Evolves, Retry, Shrinks, Roomy;
    assert Unknown in w.ports;
    ChronicleMore(rec, marks, h, w.ports, true, Crowded(rec, l));
  }

  /** The ports a pass was about, by their states at its end. */
  ghost function PassTotal(end: seq<PortState>, filteredBefore: int, undecidedBefore: int): int {
    Num(end, Open) + Num(end, Closed) + Num(end, Silent) + Num(end, Rejected) - filteredBefore
    + Num(end, Unknown) + Num(end, Testing) - undecidedBefore
  }

  /** Either change of pass. */
  lemma Changed(prior: Record, rec: Record, l: Limits, marks: seq<PortState>, h: History, v: Scan, max2: int,
                w: Scan, mid: int, u: Scan, max2': int)
    returns (g: History)
    requires l.Ok() && Inv(v) && Further(prior, rec) && Begun(prior, l, marks, h, v, max2)
    requires Step(v, w) && Ended(rec, l, marks, h, w)
    requires h.tables != []
    requires || (u == NextPass(w) && w.filtered != w.oldFiltered && Reopens(rec, l, v, max2, w, mid, max2'))
             || (u == RecheckPass(w) && |h.tables| == 1 && Num(w.ports, Unknown) > 0)
    ensures Begun(rec, l, marks, g, u, max2')
    ensures var n := |h.tables|;
            && |g.tables| == n + 1 && g.tables[..n] == h.tables && g.tables[n] == w.ports
            && g == Longer(h, w.ports, u != NextPass(w))
            && Total(w) == PassTotal(g.tables[n], g.FilteredBefore(n - 1), g.UndecidedBefore(n - 1))
            && (n > 1 ==> u.untested == u.oldFiltered == Num(g.tables[n], Silent))
  {
    hide Inv, Measure, Truthful, Harsh, Crowded, PassEnds, Retry, Shrinks, Begun, History.Start, Reopens;
    var re := u != NextPass(w);
    g := Longer(h, w.ports, re);
    EndedFacts(rec, l, marks, h, w);
    SameStart(h, w.ports, re, |h.tables| - 1);
    if re {
      RecheckBegun(rec, l, marks, h, w, max2');
    } else {
      RetryBegun(prior, rec, l, marks, h, v, max2, w, mid, max2');
    }
    TotalIs(w);
  }

  lemma EndedFacts(rec: Record, l: Limits, marks: seq<PortState>, h: History, w: Scan)
    requires Ended(rec, l, marks, h, w)
    ensures h.tables != [] && (|h.tables| == 1 ==> !h.rechecked)
    ensures w.filteredBefore == h.FilteredBefore(|h.tables| - 1)
    ensures w.undecidedBefore == h.UndecidedBefore(|h.tables| - 1)
  {
  }

  lemma TotalIs(w: Scan)
    requires Inv(w)
    ensures Total(w) == PassTotal(w.ports, w.filteredBefore, w.undecidedBefore)
  {
  }

  /** In a kind world a pass does not begin without a window, and there are at most two more passes
      than ports. */
  lemma KindBegun(rec: Record, l: Limits, marks: seq<PortState>, h: History, v: Scan, max2: int)
    requires l.Ok() && Inv(v) && Begun(rec, l, marks, h, v, max2)
    ensures max2 > 0 || Harsh(rec) || Crowded(rec, l) || l.minCnx < SAFE_MIN_CNX
    ensures |h.tables| <= Num(marks, Unknown) + 2 || Harsh(rec) || Crowded(rec, l)
  {
    hide Inv, Harsh, Crowded, Chronicle;
    if !Harsh(rec) && !Crowded(rec, l) { UntestedNat(v); }
  }

  lemma UntestedNat(v: Scan)
    requires Inv(v) && v.undecidedBefore == 0
    ensures v.untested >= 0
  {
  }

  // ----- when a scan is over -----

  /** What the scan remembers from one end of a pass to the next: a recheck is under way, how often a rate
      limit was suspected, and the number of open ports. */
  datatype Memory = Memory(doublecheck: bool, rateLimits: nat, openNb: int)

  /** What the end of a pass adds: its number, the open and closed ports it found, the seconds it and the
      whole scan took, whether its last round dropped sockets, and the second limit. */
  datatype Ending = Ending(pass: nat, open1: int, closed1: int, d1: int, d: int, dropped: bool, max2: int)

  /** The number of refusals per second looks like a rate limit. */
  ghost predicate LooksRateLimited(l: Limits, w: Scan, e: Ending) {
    && e.pass > 1 && e.open1 == 0 && e.closed1 >= l.minCnx
    && (e.d1 + 1) * 10 <= e.closed1 < (e.d1 + 1) * 201
    && (e.d + 1) * 10 <= w.closedNb < (e.d + 1) * 201
  }

  /** A rate limit is met with the window at its safe size, or not for the first time. */
  ghost predicate Insists(l: Limits, w: Scan, e: Ending, m: Memory) {
    LooksRateLimited(l, w, e) && (e.max2 <= GRAB_MAX_SOCK_SAFE || m.rateLimits > 0)
  }

  /** Retrying is worth while if the pass changed something: the number of filtered ports is not the one put
      to the test, a recheck under a rate limit has found another open port, and no rate limit insists,
      unless ports are unknown. */
  ghost predicate Worth(l: Limits, w: Scan, e: Ending, m: Memory) {
    && w.filtered != w.oldFiltered
    && !(m.doublecheck && m.rateLimits > 0 && w.openNb == m.openNb)
    && !(Insists(l, w, e, m) && Num(w.ports, Unknown) == 0)
  }

  /** What is remembered when a retry follows. */
  ghost function Recalled(l: Limits, w: Scan, e: Ending, m: Memory): Memory {
    Memory(Insists(l, w, e, m), if LooksRateLimited(l, w, e) then m.rateLimits + 1 else m.rateLimits, w.openNb)
  }

  /** The pass calls for a retry of the silent ports: it dropped sockets, or it was the first and left many
      ports filtered and many closed, or a later one that left any filtered. */
  ghost predicate CallsForRetry(w: Scan, e: Ending) {
    e.dropped || if e.pass == 1 then w.filtered > 10 && w.closedNb > 10 else w.filtered > 0
  }

  ghost predicate Continues(l: Limits, w: Scan, e: Ending, m: Memory) {
    if CallsForRetry(w, e) then Worth(l, w, e, m) else w.filtered > 0 && Num(w.ports, Unknown) > 0
  }

  /** The memory at the beginning of the pass after the last change of `h`. */
  ghost predicate Remembers(m: Memory, h: History)
    requires h.tables != []
  {
    var n := |h.tables| - 1;
    if n == 0 then m == Memory(false, 0, -1) else m.rateLimits > 0 ==> m.openNb == Num(h.tables[n], Open)
  }

  /** Why a scan that ends with the table `end` had no further pass. The first left few ports filtered or few
      closed, and none unknown if any were filtered; a later one left none filtered, or as many as it was to
      test, or found no open port. */
  ghost predicate NoReason(h: History, end: seq<PortState>)
    requires h.tables != []
  {
    var n := |h.tables| - 1;
    var filtered := h.Filtered(n, end);
    if n == 0 then
      && !(filtered > 10 && Num(end, Closed) > 10)
      && (filtered > 0 ==> Num(end, Unknown) == 0)
    else filtered <= 0 || filtered == h.Tested(n) || Num(end, Open) == Num(h.tables[n], Open)
  }

  /** Every pass after the second was made because the one before left another number of ports filtered than
      it was to test. */
  ghost predicate Justified(h: History) {
    forall k | 2 <= k < |h.tables| :: h.Filtered(k - 1, h.tables[k]) != h.Tested(k - 1)
  }

  lemma StartOpen(h: History, k: int)
    requires 0 <= k < |h.tables|
    ensures Num(h.Start(k), Open) == Num(h.tables[k], Open)
  {
    hide Num, Retry;
    RetryCounts(h.tables[k], Open);
  }

  /** The counters at the end of a pass, by the history. */
  lemma EndCounts(rec: Record, l: Limits, marks: seq<PortState>, h: History, w: Scan)
    requires Inv(w) && Ended(rec, l, marks, h, w)
    ensures h.tables != [] && w.filtered == h.Filtered(|h.tables| - 1, w.ports)
    ensures w.closedNb == Num(w.ports, Closed) && w.openNb == Num(w.ports, Open)
  {
  }

  lemma WhyOver(l: Limits, h: History, w: Scan, e: Ending, m: Memory)
    requires h.tables != [] && e.pass == |h.tables| && Remembers(m, h) && !Continues(l, w, e, m)
    requires w.filtered == h.Filtered(|h.tables| - 1, w.ports) && w.oldFiltered == h.Tested(|h.tables| - 1)
    requires w.closedNb == Num(w.ports, Closed) && w.openNb == Num(w.ports, Open)
    requires e.open1 == w.openNb - Num(h.tables[|h.tables| - 1], Open)
    ensures NoReason(h, w.ports)
  {
    hide Num, History.Filtered, History.Tested;
    assert h.Tested(0) == -1 by { FirstTested(h); }
  }

  /** Where a scan begins. */
  lemma FirstRemembers(marks: seq<PortState>)
    ensures var h := History([marks], false);
            Remembers(Memory(false, 0, -1), h) && h.Tested(0) == -1 && Justified(h)
  {
  }

  lemma FirstTested(h: History)
    requires h.tables != []
    ensures h.Tested(0) == -1
  {
  }

  /** The open ports known where a pass begins. */
  lemma PassOpened(rec: Record, l: Limits, marks: seq<PortState>, h: History, v: Scan, max2: int)
    requires l.Ok() && Inv(v) && Begun(rec, l, marks, h, v, max2)
    ensures h.tables != [] && v.openNb == Num(h.tables[|h.tables| - 1], Open)
  {
    hide Harsh, Crowded, Table, Evidence, Shrinks, Roomy;
    StartOpen(h, |h.tables| - 1);
  }

  /** The next pass remembers this one. */
  lemma NextRemembers(l: Limits, h: History, w: Scan, e: Ending, m: Memory, m': Memory, u: Scan)
    requires h.tables != [] && (|h.tables| == 1 ==> !h.rechecked) && Remembers(m, h) && Justified(h)
    requires w.filtered == h.Filtered(|h.tables| - 1, w.ports) && w.oldFiltered == h.Tested(|h.tables| - 1)
    requires w.openNb == Num(w.ports, Open)
    requires if CallsForRetry(w, e) then u == NextPass(w) && w.filtered != w.oldFiltered && m' == Recalled(l, w, e, m)
             else u == RecheckPass(w) && |h.tables| == 1 && Num(w.ports, Unknown) > 0 && m' == m.(doublecheck := true)
    ensures var g := Longer(h, w.ports, u != NextPass(w));
            Remembers(m', g) && u.oldFiltered == g.Tested(|h.tables|) && Justified(g)
  {
    hide Num, History.Filtered, Retry, Insists, LooksRateLimited;
    var g := Longer(h, w.ports, u != NextPass(w));
    assert g.tables[|h.tables|] == w.ports;
    if u == RecheckPass(w) && u == NextPass(w) { SameCounts(w); }
    WhyMore(h, w, u != NextPass(w));
  }

  lemma SameCounts(w: Scan)
    requires RecheckPass(w) == NextPass(w)
    ensures Num(w.ports, Unknown) == Num(w.ports, Silent)
  {
    assert RecheckPass(w).untested == NextPass(w).untested;
  }

  lemma WhyMore(h: History, w: Scan, re: bool)
    requires Justified(h) && h.tables != [] && (|h.tables| == 1 ==> !h.rechecked) && (re ==> |h.tables| == 1)
    requires |h.tables| > 1 ==> h.Filtered(|h.tables| - 1, w.ports) != h.Tested(|h.tables| - 1)
    ensures Justified(Longer(h, w.ports, re))
  {
    var g, n := Longer(h, w.ports, re), |h.tables|;
    forall k | 2 <= k < |g.tables| ensures g.Filtered(k - 1, g.tables[k]) != g.Tested(k - 1) {
      SameStart(h, w.ports, re, k - 1);
      if k < n { assert g.tables[k] == h.tables[k]; }
    }
  }
}
