/** The SYN scan of one IPv4 host: which probes are sent, and how often. Captured packets
    and the clock are inputs; every packet is sent without error. */
module SynScan {
  import opened ProbeList
  import opened Sequences

  /** A captured packet: its source port, and whether it acknowledges a SYN. */
  datatype Packet = Packet(port: nat, synAck: bool)

  /** What the network and the clock do, step by step. */
  datatype Env = Env(
    now: nat -> nat,                // the time a packet is sent
    over: (nat, nat) -> bool,       // is the time of a port's probe over in the n-th sweep
    replies: nat -> seq<Packet>,    // the packets captured in the n-th sniffing
    rounds: nat                     // how often the retry loop is observed
  )

  /** A packet from `port` is captured in the n-th sniffing. */
  ghost predicate From(env: Env, n: nat, port: nat) {
    exists k | 0 <= k < |env.replies(n)| :: env.replies(n)[k].port == port
  }

  /** The ports of the packets that acknowledge a SYN, in their order. */
  function Open(packets: seq<Packet>): seq<nat> {
    if packets == [] then []
    else
      var n := |packets| - 1;
      Open(packets[..n]) + if packets[n].synAck then [packets[n].port] else []
  }

  /** Those of the first `sniffs` sniffings. */
  function Opened(env: Env, sniffs: nat): seq<nat> {
    if sniffs == 0 then [] else Opened(env, sniffs - 1) + Open(env.replies(sniffs - 1))
  }

  ghost predicate SamePorts(a: seq<nat>, b: seq<nat>) { forall p :: p in a <==> p in b }

  ghost predicate OneEach(l: seq<Probe>) {
    forall i, j | 0 <= i < j < |l| :: l[i].port != l[j].port
  }

  /** How many SYN packets went to `port`. */
  function Times(log: seq<nat>, port: nat): nat { multiset(log)[port] }

  ghost predicate Pending(l: seq<Probe>, port: nat) { exists i | 0 <= i < |l| :: l[i].port == port }

  /** One probe per port, which counts the packets sent to it; a port that is no longer in the
      list has answered or used up all its retries. */
  ghost predicate Inv(l: seq<Probe>, log: seq<nat>, heard: set<nat>) {
    && OneEach(l)
    && (forall i | 0 <= i < |l| ::
          l[i].port != 0 && l[i].retries <= NUM_RETRIES && Times(log, l[i].port) == l[i].retries + 1)
    && (forall p: nat :: Times(log, p) <= NUM_RETRIES + 1)
    && (forall p | p in log :: Pending(l, p) || p in heard || Times(log, p) == NUM_RETRIES + 1)
  }

  lemma TimesMore(log: seq<nat>, port: nat)
    ensures forall p: nat :: Times(log + [port], p) == Times(log, p) + if p == port then 1 else 0
  {
  }

  /** The first packet to a port. */
  lemma FirstKeeps(l: seq<Probe>, log: seq<nat>, heard: set<nat>, port: nat, now: nat)
    requires Inv(l, log, heard) && port != 0 && port !in log
    ensures Added(l, port, now) == [Probe(port, now, 0)] + l
    ensures Inv(Added(l, port, now), log + [port], heard)
  {
    hide Times;
    TimesMore(log, port);
    NotSent(log, port);
    var k := Find(l, port);
    assert forall i | 0 <= i < |l| :: l[i].port != port;
    var r := [Probe(port, now, 0)] + l;
    assert forall i | 0 <= i < |l| :: r[i + 1] == l[i];
    assert Pending(r, port) by { assert r[0].port == port; }
    forall p | p in log + [port] ensures Pending(r, p) || p in heard || Times(log + [port], p) == NUM_RETRIES + 1 {
      if p != port && Pending(l, p) {
        var i :| 0 <= i < |l| && l[i].port == p;
        assert r[i + 1].port == p;
      }
    }
  }

  lemma NotSent(log: seq<nat>, port: nat)
    ensures Times(log, port) > 0 <==> port in log
  {
  }

  /** Another packet to a port that has retries left. */
  lemma AgainKeeps(l: seq<Probe>, log: seq<nat>, heard: set<nat>, port: nat, now: nat, k: nat)
    requires Inv(l, log, heard) && k < |l| && l[k].port == port && l[k].retries < NUM_RETRIES
    ensures Inv(Added(l, port, now), log + [port], heard)
  {
    hide Times;
    TimesMore(log, port);
    assert Find(l, port) == k;
    var r := Added(l, port, now);
    assert forall i | 0 <= i < |l| :: r[i].port == l[i].port;
    assert Pending(r, port) by { assert r[k].port == port; }
    forall p | p in log + [port] ensures Pending(r, p) || p in heard || Times(log + [port], p) == NUM_RETRIES + 1 {
      if p != port && Pending(l, p) {
        var i :| 0 <= i < |l| && l[i].port == p;
        assert r[i].port == p;
      }
    }
  }

  /** A packet captured from a port. */
  lemma RemoveKeeps(l: seq<Probe>, log: seq<nat>, heard: set<nat>, port: nat)
    requires Inv(l, log, heard)
    ensures Inv(Removed(l, port), log, heard + {port}) && (port !in log ==> Inv(Removed(l, port), log, heard))
  {
    hide Times;
    var k, r := Find(l, port), Removed(l, port);
    assert forall i | 0 <= i < |r| :: r[i] == l[if i < k then i else i + 1];
    forall p | p in log ensures Pending(r, p) || p in heard + {port} || Times(log, p) == NUM_RETRIES + 1 {
      if p != port && Pending(l, p) {
        var i :| 0 <= i < |l| && l[i].port == p;
        assert r[if i < k then i else i - 1].port == p;
      }
    }
  }

  /** A kept probe is still there, in its order. */
  lemma {:induction false} SweptMembers(l: seq<Probe>, dead: seq<bool>)
    requires |dead| == |l| && OneEach(l)
    ensures OneEach(Swept(l, dead))
    ensures forall i | 0 <= i < |l| && !(dead[i] && l[i].retries >= NUM_RETRIES) :: l[i] in Swept(l, dead)
  {
    if l != [] {
      var n := |l| - 1;
      SweptMembers(l[..n], dead[..n]);
      var s := Swept(l[..n], dead[..n]);
      forall i | 0 <= i < |s| ensures s[i].port != l[n].port { assert s[i] in l[..n]; }
    }
  }

  lemma SweepKeeps(l: seq<Probe>, log: seq<nat>, heard: set<nat>, dead: seq<bool>)
    requires Inv(l, log, heard) && |dead| == |l|
    ensures Inv(Swept(l, dead), log, heard)
  {
    hide Times, Swept;
    SweptMembers(l, dead);
    var r := Swept(l, dead);
    forall i | 0 <= i < |r|
      ensures r[i].port != 0 && r[i].retries <= NUM_RETRIES && Times(log, r[i].port) == r[i].retries + 1
    {
      assert r[i] in r;
    }
    forall p | p in log ensures Pending(r, p) || p in heard || Times(log, p) == NUM_RETRIES + 1 {
      if Pending(l, p) {
        var i :| 0 <= i < |l| && l[i].port == p;
        if !(dead[i] && l[i].retries >= NUM_RETRIES) {
          var j :| 0 <= j < |r| && r[j] == l[i];
          assert r[j].port == p;
        }
      }
    }
  }

  /** The port to try again still has a probe with retries left. */
  lemma {:induction false} RetryPending(l: seq<Probe>, dead: seq<bool>)
    requires |dead| == |l| && RetryPort(l, dead) != 0
    ensures exists i | 0 <= i < |Swept(l, dead)| ::
              Swept(l, dead)[i].port == RetryPort(l, dead) && Swept(l, dead)[i].retries < NUM_RETRIES
  {
    var n := |l| - 1;
    var s, r := Swept(l[..n], dead[..n]), Swept(l, dead);
    if dead[n] && l[n].retries < NUM_RETRIES {
      assert r[|s|] == l[n];
    } else {
      RetryPending(l[..n], dead[..n]);
      var i :| 0 <= i < |s| && s[i].port == RetryPort(l[..n], dead[..n]) && s[i].retries < NUM_RETRIES;
      assert r[i] == s[i];
    }
  }

  // ----- who has answered -----

  /** `times` keeps for every packet of the log how many sniffings were before it. */
  ghost predicate Timed(log: seq<nat>, times: seq<nat>, sniffs: nat) {
    |times| == |log| && forall i | 0 <= i < |times| :: times[i] <= sniffs
  }

  /** A packet from `port` was captured in a sniffing after a packet to it. */
  ghost predicate Answered(env: Env, log: seq<nat>, times: seq<nat>, sniffs: nat, port: nat)
    requires Timed(log, times, sniffs)
  {
    exists i, n: nat | 0 <= i < |log| && times[i] <= n < sniffs :: log[i] == port && From(env, n, port)
  }

  /** No packet was sent to a port that had answered one. */
  ghost predicate Spared(env: Env, log: seq<nat>, times: seq<nat>, sniffs: nat)
    requires Timed(log, times, sniffs)
  {
    forall i, j, n: nat | 0 <= i < j < |log| && log[i] == log[j] && times[i] <= n < times[j] :: !From(env, n, log[i])
  }

  /** A port that has answered has no probe. */
  ghost predicate Settled(env: Env, l: seq<Probe>, log: seq<nat>, times: seq<nat>, sniffs: nat)
    requires Timed(log, times, sniffs)
  {
    forall p | Pending(l, p) :: !Answered(env, log, times, sniffs, p)
  }

  /** Sending to a port without a probe before, or with one. */
  lemma SendSpares(env: Env, l: seq<Probe>, log: seq<nat>, times: seq<nat>, sniffs: nat, port: nat, l': seq<Probe>)
    requires Timed(log, times, sniffs) && Spared(env, log, times, sniffs) && Settled(env, l, log, times, sniffs)
    requires port !in log || Pending(l, port)
    requires forall p | Pending(l', p) :: p == port || Pending(l, p)
    ensures Timed(log + [port], times + [sniffs], sniffs) && Spared(env, log + [port], times + [sniffs], sniffs)
    ensures Settled(env, l', log + [port], times + [sniffs], sniffs)
    ensures forall p ::
      Answered(env, log + [port], times + [sniffs], sniffs, p) <==> Answered(env, log, times, sniffs, p)
  {
    hide From, Pending;
    var log', times' := log + [port], times + [sniffs];
    forall p ensures Answered(env, log', times', sniffs, p) <==> Answered(env, log, times, sniffs, p) {
      SameAnswers(env, log, times, sniffs, port, p);
    }
    forall i, j, n: nat | 0 <= i < j < |log'| && log'[i] == log'[j] && times'[i] <= n < times'[j]
      ensures !From(env, n, log'[i])
    {
      if j == |log| { assert log[i] == port && !Answered(env, log, times, sniffs, port); }
    }
    if port !in log { assert !Answered(env, log, times, sniffs, port); }
  }

  lemma SameAnswers(env: Env, log: seq<nat>, times: seq<nat>, sniffs: nat, port: nat, p: nat)
    requires Timed(log, times, sniffs)
    ensures Timed(log + [port], times + [sniffs], sniffs)
    ensures Answered(env, log + [port], times + [sniffs], sniffs, p) <==> Answered(env, log, times, sniffs, p)
  {
    hide From;
    var log', times' := log + [port], times + [sniffs];
    if Answered(env, log, times, sniffs, p) {
      var i, n: nat :| 0 <= i < |log| && times[i] <= n < sniffs && log[i] == p && From(env, n, p);
      assert log'[i] == p && times'[i] <= n;
    }
    if Answered(env, log', times', sniffs, p) {
      var i, n: nat :| 0 <= i < |log'| && times'[i] <= n < sniffs && log'[i] == p && From(env, n, p);
      assert log[i] == p && times[i] <= n;
    }
  }

  /** A sniffing after which no port a packet was captured from has a probe. */
  lemma SniffSettles(env: Env, l: seq<Probe>, log: seq<nat>, times: seq<nat>, sniffs: nat, l': seq<Probe>)
    requires Timed(log, times, sniffs) && Spared(env, log, times, sniffs) && Settled(env, l, log, times, sniffs)
    requires forall p | Pending(l', p) :: Pending(l, p) && !From(env, sniffs, p)
    ensures Timed(log, times, sniffs + 1) && Spared(env, log, times, sniffs + 1)
    ensures Settled(env, l', log, times, sniffs + 1)
    ensures forall p :: Answered(env, log, times, sniffs + 1, p) <==>
              Answered(env, log, times, sniffs, p) || (p in log && From(env, sniffs, p))
  {
    hide From, Pending;
    forall p ensures Answered(env, log, times, sniffs + 1, p) <==>
                     Answered(env, log, times, sniffs, p) || (p in log && From(env, sniffs, p))
    {
      if Answered(env, log, times, sniffs, p) {
        var i, n: nat :| 0 <= i < |log| && times[i] <= n < sniffs && log[i] == p && From(env, n, p);
        assert times[i] <= n < sniffs + 1;
      }
      if p in log && From(env, sniffs, p) {
        var i :| 0 <= i < |log| && log[i] == p;
        assert times[i] <= sniffs < sniffs + 1;
      }
    }
  }

  // ----- the scan ends -----

  /** In every `period` sweeps the time of every probe is over once. */
  ghost predicate Fair(env: Env, period: nat) {
    forall n: nat, port: nat :: OverWithin(env, n, period, port)
  }

  ghost predicate OverWithin(env: Env, n: nat, period: nat, port: nat) {
    exists k: nat :: n <= k < n + period && env.over(k, port)
  }

  /** The packets the probes in the list may still cause, and one for each removal. */
  function Budget(l: seq<Probe>): int {
    if l == [] then 0 else
      var n := |l| - 1;
      Budget(l[..n]) + NUM_RETRIES + 1 - l[n].retries
  }

  lemma {:induction false} BudgetAppend(a: seq<Probe>, b: seq<Probe>)
    ensures Budget(a + b) == Budget(a) + Budget(b)
  {
    if b == [] {
      assert a + b == a;
    } else {
      var n := |b| - 1;
      assert (a + b)[..|a + b| - 1] == a + b[..n];
      BudgetAppend(a, b[..n]);
    }
  }

  lemma BudgetSplit(l: seq<Probe>, k: nat)
    requires k < |l|
    ensures Budget(l) == Budget(l[..k]) + (NUM_RETRIES + 1 - l[k].retries) + Budget(l[k + 1..])
  {
    hide Budget;
    var a, p, b := l[..k], [l[k]], l[k + 1..];
    assert l == a + (p + b);
    BudgetAppend(a, p + b);
    BudgetAppend(p, b);
    BudgetOne(l[k]);
  }

  lemma BudgetOne(p: Probe)
    ensures Budget([p]) == NUM_RETRIES + 1 - p.retries
  {
    assert [p][..0] == [];
  }

  lemma AgainCosts(l: seq<Probe>, port: nat, now: nat)
    requires Find(l, port) < |l|
    ensures Budget(Added(l, port, now)) == Budget(l) - 1
  {
    hide Budget;
    var k, r := Find(l, port), Added(l, port, now);
    BudgetSplit(l, k);
    BudgetSplit(r, k);
    assert r[..k] == l[..k] && r[k + 1..] == l[k + 1..];
  }

  lemma RemoveCosts(l: seq<Probe>, port: nat)
    requires forall i | 0 <= i < |l| :: l[i].retries <= NUM_RETRIES
    ensures Budget(Removed(l, port)) <= Budget(l) && (Budget(Removed(l, port)) == Budget(l) ==> Removed(l, port) == l)
  {
    hide Budget, Find;
    var k := Find(l, port);
    if k < |l| {
      BudgetSplit(l, k);
      BudgetAppend(l[..k], l[k + 1..]);
      assert Removed(l, port) == l[..k] + l[k + 1..];
    }
  }

  /** A sweep lowers the budget by what it removes; if that is nothing and there is no port to try
      again, no time was over. */
  lemma {:induction false} SweepCosts(l: seq<Probe>, dead: seq<bool>)
    requires |dead| == |l| && forall i | 0 <= i < |l| :: l[i].retries <= NUM_RETRIES && l[i].port != 0
    ensures Budget(Swept(l, dead)) <= Budget(l)
    ensures Budget(Swept(l, dead)) == Budget(l) && RetryPort(l, dead) == 0 ==>
              Swept(l, dead) == l && forall i | 0 <= i < |l| :: !dead[i]
  {
    hide Budget;
    if l != [] {
      var n := |l| - 1;
      SweepCosts(l[..n], dead[..n]);
      BudgetLast(l);
      assert l == l[..n] + [l[n]];
      if dead[n] && l[n].retries >= NUM_RETRIES {
        assert Swept(l, dead) == Swept(l[..n], dead[..n]);
      } else {
        BudgetLast(Swept(l[..n], dead[..n]) + [l[n]]);
      }
    }
  }

  lemma BudgetLast(l: seq<Probe>)
    requires l != []
    ensures forall s, p | l == s + [p] :: Budget(l) == Budget(s) + NUM_RETRIES + 1 - p.retries
  {
    forall s, p | l == s + [p] ensures Budget(l) == Budget(s) + NUM_RETRIES + 1 - p.retries {
      assert l[..|l| - 1] == s;
    }
  }

  lemma {:induction false} BudgetPositive(l: seq<Probe>)
    requires forall i | 0 <= i < |l| :: l[i].retries <= NUM_RETRIES
    ensures Budget(l) >= |l|
  {
    if l != [] { BudgetPositive(l[..|l| - 1]); }
  }

  /** Since round `from`, which began with sweep `since`, no time was over; until then every period of
      rounds has cost a packet of the budget. */
  ghost predicate Waiting(env: Env, l: seq<Probe>, from: nat, since: nat, round: nat, sweep: nat, period: nat,
                          total: nat) {
    && from <= round && round - from == sweep - since && Budget(l) <= total && from <= (total - Budget(l)) * period
    && forall i, n: nat | 0 <= i < |l| && since <= n < sweep :: !env.over(n, l[i].port)
  }

  /** A fair clock lets a probe wait less than a period. */
  lemma WaitEnds(env: Env, l: seq<Probe>, from: nat, since: nat, round: nat, sweep: nat, period: nat, total: nat)
    requires Fair(env, period) && Waiting(env, l, from, since, round, sweep, period, total) && l != []
    ensures round < from + period
  {
    assert OverWithin(env, since, period, l[0].port);
    var k: nat :| since <= k < since + period && env.over(k, l[0].port);
  }

  lemma WaitOn(env: Env, l: seq<Probe>, from: nat, since: nat, round: nat, sweep: nat, period: nat, total: nat)
    requires Waiting(env, l, from, since, round, sweep, period, total)
    requires forall i | 0 <= i < |l| :: !env.over(sweep, l[i].port)
    ensures Waiting(env, l, from, since, round + 1, sweep + 1, period, total)
  {
  }

  lemma WaitAgain(env: Env, l: seq<Probe>, from: nat, since: nat, round: nat, sweep: nat, period: nat, total: nat,
                  l': seq<Probe>, sweep': nat)
    requires Fair(env, period) && Waiting(env, l, from, since, round, sweep, period, total) && l != []
    requires Budget(l') < Budget(l)
    ensures Waiting(env, l', round + 1, sweep', round + 1, sweep', period, total)
  {
    hide Budget;
    WaitEnds(env, l, from, since, round, sweep, period, total);
    var b, b' := total - Budget(l), total - Budget(l');
    assert (b + 1) * period <= b' * period;
  }

  lemma WaitOver(env: Env, l: seq<Probe>, from: nat, since: nat, round: nat, sweep: nat, period: nat, total: nat)
    requires Fair(env, period) && Waiting(env, l, from, since, round, sweep, period, total) && l != [] && Budget(l) >= 1
    ensures round < total * period
  {
    hide Budget;
    WaitEnds(env, l, from, since, round, sweep, period, total);
    assert (total - Budget(l) + 1) * period <= total * period;
  }

  lemma NoBudget()
    ensures Budget([]) == 0
  {
  }

  lemma FirstCosts(l: seq<Probe>, port: nat, now: nat)
    ensures Budget([Probe(port, now, 0)] + l) == Budget(l) + NUM_RETRIES + 1
  {
    BudgetAppend([Probe(port, now, 0)], l);
    assert [Probe(port, now, 0)][..0] == [];
  }

  lemma Retries(l: seq<Probe>, log: seq<nat>, heard: set<nat>)
    requires Inv(l, log, heard)
    ensures forall i | 0 <= i < |l| :: l[i].retries <= NUM_RETRIES && l[i].port != 0
  {
  }

  // ----- the scan -----

  class Scan {
    const env: Env
    const list: List
    var sniffs: nat
    var sweeps: nat
    var clock: nat
    var log: seq<nat>         // the ports SYN packets were sent to
    var reported: seq<nat>    // the ports found open
    var times: seq<nat>       // how many sniffings were before each packet of the log
    var heard: set<nat>       // the ports that answered a packet

    /** What every step keeps, also in the middle of a sniffing. */
    ghost predicate Core()
      reads this, list, list.nodes
    {
      list.Valid() && Inv(list.Contents(), log, heard) && Timed(log, times, sniffs)
    }

    ghost predicate Valid()
      reads this, list, list.nodes
    {
      && Core() && Spared(env, log, times, sniffs) && Settled(env, list.Contents(), log, times, sniffs)
      && (forall p: nat :: p in heard <==> Answered(env, log, times, sniffs, p))
      && reported == Opened(env, sniffs)
    }

    constructor (env: Env)
      ensures Valid() && log == [] && heard == {} && sniffs == 0 && this.env == env
      ensures fresh(list) && list.nodes == []
    {
      this.env := env;
      list := new List();
      sniffs, sweeps, clock, log, reported, times, heard := 0, 0, 0, [], [], [], {};
    }

    /** Every node of the list was there before or is new. */
    twostate predicate OwnNodes()
      reads this, list
    {
      forall k | 0 <= k < |list.nodes| :: list.nodes[k] in old(list.nodes) || fresh(list.nodes[k])
    }

    ghost function Left(): int
      reads this, list, list.nodes
    {
      Budget(list.Contents())
    }

    /** The list holds a probe of `port` with retries left. */
    ghost predicate Retriable(port: nat)
      reads this, list, list.nodes
    {
      var l := list.Contents();
      exists i | 0 <= i < |l| :: l[i].port == port && l[i].retries < NUM_RETRIES
    }

    /** The sending half of sendpacket. */
    method Send(port: nat)
      requires Valid() && port != 0
      requires port !in log || Retriable(port)
      modifies this, list, list.nodes
      ensures Valid() && OwnNodes() && log == old(log) + [port] && heard == old(heard)
      ensures times == old(times) + [sniffs] && sniffs == old(sniffs)
      ensures Left() == (old(Left()) + if port in old(log) then -1 else NUM_RETRIES + 1) && sweeps == old(sweeps)
    {
      hide Inv, Budget, Added, Answered, Spared, Settled, Timed, Opened;
      var now := env.now(clock);
      ghost var l := list.Contents();
      AddedPending(l, port, now);
      SendSpares(env, l, log, times, sniffs, port, Added(l, port, now));
      if port !in log {
        FirstKeeps(l, log, heard, port, now);
        FirstCosts(l, port, now);
      } else {
        ghost var k :| 0 <= k < |l| && l[k].port == port && l[k].retries < NUM_RETRIES;
        AgainKeeps(l, log, heard, port, now, k);
        AgainCosts(l, port, now);
      }
      list.Add(port, now);
      log, times, clock := log + [port], times + [sniffs], clock + 1;
    }

    /** A captured packet settles its port. */
    method Settle(p: Packet)
      requires Core()
      modifies `reported, `heard, list, list.nodes
      ensures Core() && OwnNodes() && list.Contents() == Removed(old(list.Contents()), p.port)
      ensures heard == old(heard) + (if p.port in log then {p.port} else {})
      ensures reported == old(reported) + (if p.synAck then [p.port] else [])
      ensures Left() <= old(Left()) && (Left() == old(Left()) ==> list.Contents() == old(list.Contents()))
    {
      hide Inv, Budget, List.Valid, List.Contents, Timed, Removed;
      Retries(list.Contents(), log, heard);
      RemoveCosts(list.Contents(), p.port);
      RemoveKeeps(list.Contents(), log, heard, p.port);
      if p.synAck { reported := reported + [p.port]; }
      list.Remove(p.port);
      if p.port in log { heard := heard + {p.port}; }
    }

    /** The sniffing half of sendpacket: no port a packet was captured from has a probe afterwards. */
    method Sniff()
      requires Valid()
      modifies this, list, list.nodes
      ensures Valid() && OwnNodes() && log == old(log) && times == old(times) && sweeps == old(sweeps)
      ensures sniffs == old(sniffs) + 1
      ensures forall p | Pending(list.Contents(), p) :: !From(env, old(sniffs), p)
      ensures Left() <= old(Left()) && (Left() == old(Left()) ==> list.Contents() == old(list.Contents()))
    {
      hide Core, Left, List.Contents, Spared, Settled, Answered, Timed, Open, Opened;
      var captured := env.replies(sniffs);
      ghost var l := list.Contents();
      CoreFacts();
      NoneYet(captured);
      for k := 0 to |captured|
        invariant Core() && OwnNodes()
        invariant unchanged(`log, `times, `sweeps, `sniffs, `clock)
        invariant forall p | Pending(list.Contents(), p) :: Pending(l, p) && !Among(captured[..k], p)
        invariant forall p: nat :: p in heard <==> p in old(heard) || (p in log && Among(captured[..k], p))
        invariant reported == old(reported) + Open(captured[..k])
        invariant Left() <= old(Left()) && (Left() == old(Left()) ==> list.Contents() == l)
      {
        CoreFacts();
        NoLonger(list.Contents(), captured[k].port);
        OneMorePacket(captured, k);
        Settle(captured[k]);
      }
      assert captured[..|captured|] == captured;
      Sniffed(env, captured, sniffs);
      SniffSettles(env, l, log, times, sniffs, list.Contents());
      assert reported == Opened(env, sniffs + 1) by { NextOpened(env, sniffs); }
      Tick();
    }

    lemma CoreFacts()
      requires Core()
      ensures OneEach(list.Contents()) && Timed(log, times, sniffs)
    {
    }

    /** Counts the sniffing. */
    method Tick()
      requires Core()
      modifies `sniffs
      ensures Core() && Left() == old(Left()) && list.Contents() == old(list.Contents()) && sniffs == old(sniffs) + 1
    {
      hide Inv, List.Valid, List.Contents;
      sniffs := sniffs + 1;
    }

    /** In sweep `n` the time of no probe in the list is over. */
    ghost predicate Quiet(n: nat)
      reads this, list, list.nodes
    {
      forall i | 0 <= i < |list.Contents()| :: !env.over(n, list.Contents()[i].port)
    }

    /** rm_dead_packets, at the times the clock gives. */
    method Sweep() returns (retry: nat)
      requires Valid()
      modifies this, list, list.nodes
      ensures Valid() && OwnNodes() && unchanged(`log, `times, `heard, `sniffs)
      ensures retry != 0 ==> Retriable(retry)
      ensures Left() <= old(Left()) && sweeps == old(sweeps) + 1
      ensures Left() == old(Left()) && retry == 0 ==> list.Contents() == old(list.Contents()) && Quiet(old(sweeps))
    {
      hide Inv, Swept, Budget, RetryPort, Answered, Spared, Timed, Opened, Pending;
      var n := sweeps;
      var over := (port: nat) => env.over(n, port);
      sweeps := sweeps + 1;
      ghost var l := list.Contents();
      ghost var dead := Verdicts(over, l);
      SweepKeeps(l, log, heard, dead);
      Retries(l, log, heard);
      SweepCosts(l, dead);
      SweptPending(l, dead);
      retry := list.RemoveDead(over);
      if retry != 0 { RetryPending(l, dead); }
    }

    /** The first packet to every port, sniffing after every second one. */
    method SendFirst(ports: seq<nat>)
      requires Valid() && log == [] && sniffs == 0
      requires forall i | 0 <= i < |ports| :: ports[i] != 0
      requires forall i, j | 0 <= i < j < |ports| :: ports[i] != ports[j]
      modifies this, list, list.nodes
      ensures Valid() && OwnNodes() && log == ports && Left() <= old(Left()) + (NUM_RETRIES + 1) * |ports|
      ensures sniffs == |ports| / 2 && |times| == |ports| && forall i | 0 <= i < |ports| :: times[i] == i / 2
    {
      hide Valid, Left;
      Lengths();
      var i := 0;
      while i < |ports|
        invariant i <= |ports| || i == |ports| + 1
        invariant Valid() && OwnNodes() && log == if i <= |ports| then ports[..i] else ports
        invariant Left() <= old(Left()) + 3 * |log|
        invariant i % 2 == 0 && sniffs == |log| / 2
        invariant |times| == |log| && forall k | 0 <= k < |times| :: times[k] == k / 2
        decreases |ports| + 1 - i
      {
        Send(ports[i]);
        assert ports[..i + 1] == ports[..i] + [ports[i]];
        if i + 1 < |ports| {
          Send(ports[i + 1]);
          assert ports[..i + 2] == ports[..i + 1] + [ports[i + 1]];
          Sniff();
        }
        i := i + 2;
      }
    }

    lemma Lengths()
      requires Valid()
      ensures |times| == |log|
    {
    }

    /** Another packet to a port probed before. */
    method Resend(port: nat)
      requires Valid() && port != 0 && Retriable(port)
      modifies this, list, list.nodes
      ensures Valid() && OwnNodes() && |log| == |old(log)| + 1 && SamePorts(log, old(log))
      ensures Left() == old(Left()) - 1 && unchanged(`sweeps, `sniffs) && Longer(old(log), log, old(times), times)
    {
      hide Left;
      assert port in log by {
        ghost var i :| 0 <= i < |list.Contents()| && list.Contents()[i].port == port;
        NotSent(log, port);
      }
      Send(port);
    }

    lemma SomethingLeft()
      requires Valid()
      ensures if list.Contents() == [] then Left() == 0 else Left() >= 1
    {
      hide Budget;
      Retries(list.Contents(), log, heard);
      BudgetPositive(list.Contents());
      NoBudget();
    }

    lemma Outcome()
      requires Valid()
      ensures list.head == null <==> list.Contents() == []
      ensures forall p: nat :: Times(log, p) <= NUM_RETRIES + 1
      ensures list.head == null ==> forall p | p in log :: p in heard || Times(log, p) == NUM_RETRIES + 1
    {
    }

    /** One turn of the retry loop: at most three packets, only to ports probed before. */
    method RetryRound()
      requires Valid()
      modifies this, list, list.nodes
      ensures Valid() && OwnNodes() && |log| <= |old(log)| + 3 && SamePorts(log, old(log))
      ensures sniffs == old(sniffs) + 1 && Longer(old(log), log, old(times), times)
      ensures Left() <= old(Left())
      ensures Left() == old(Left()) ==>
        sweeps == old(sweeps) + 1 && list.Contents() == old(list.Contents()) && Quiet(old(sweeps))
    {
      hide Valid, Retriable, Left, List.Contents;
      var i := 0;
      var retry := Sweep();
      while retry != 0 && i < 2
        invariant Valid() && OwnNodes() && |log| <= |old(log)| + i && i <= 2
        invariant SamePorts(log, old(log)) && (retry != 0 ==> Retriable(retry))
        invariant sniffs == old(sniffs) && Longer(old(log), log, old(times), times)
        invariant Left() <= old(Left()) - i
        invariant i == 0 ==> sweeps == old(sweeps) + 1
        invariant i == 0 && retry == 0 && Left() == old(Left()) ==>
          list.Contents() == old(list.Contents()) && Quiet(old(sweeps))
        decreases 2 - i
      {
        Resend(retry);
        retry := Sweep();
        i := i + 1;
      }
      if retry != 0 { Resend(retry); }
      Sniff();
    }

    /** One turn, and what became of the wait. */
    method WaitRound(ghost w: Wait, ghost period: nat, ghost total: nat) returns (ghost w': Wait)
      requires Valid() && list.head != null && (Fair(env, period) ==> Waits(w, period, total))
      modifies this, list, list.nodes
      ensures Valid() && OwnNodes() && SamePorts(log, old(log)) && w'.round == w.round + 1
      ensures sniffs == old(sniffs) + 1 && Longer(old(log), log, old(times), times)
      ensures Fair(env, period) ==> Waits(w', period, total)
    {
      hide Valid, Fair, Waiting, Budget, Quiet;
      ghost var l, sweep := list.Contents(), sweeps;
      Outcome();
      RetryRound();
      w' := if Left() < Budget(l) then Wait(w.round + 1, sweeps, w.round + 1) else w.(round := w.round + 1);
      if Fair(env, period) {
        if Left() < Budget(l) {
          WaitAgain(env, l, w.from, w.since, w.round, sweep, period, total, list.Contents(), sweeps);
        } else {
          QuietIs(sweep);
          WaitOn(env, l, w.from, w.since, w.round, sweep, period, total);
        }
      }
    }

    lemma QuietIs(n: nat)
      requires Quiet(n)
      ensures forall i | 0 <= i < |list.Contents()| :: !env.over(n, list.Contents()[i].port)
    {
    }

    ghost predicate Waits(w: Wait, period: nat, total: nat)
      reads this, list, list.nodes
    {
      Waiting(env, list.Contents(), w.from, w.since, w.round, sweeps, period, total)
    }

    /** The retry loop, for as many rounds as it is observed: a fair clock empties the list. */
    method RetryLoop(ghost period: nat, ghost total: nat)
      requires Valid() && Left() <= total
      modifies this, list, list.nodes
      ensures Valid() && OwnNodes() && SamePorts(log, old(log)) && Longer(old(log), log, old(times), times)
      ensures list.head != null ==> sniffs == old(sniffs) + env.rounds
      ensures Fair(env, period) && env.rounds >= total * period ==> list.head == null
    {
      hide Valid, Fair, Waits, Quiet, List.Contents;
      var round := 0;
      ghost var w := Wait(0, sweeps, 0);
      FirstWaits(w, period, total);
      while list.head != null && round < env.rounds
        invariant Valid() && OwnNodes() && SamePorts(log, old(log)) && round == w.round <= env.rounds
        invariant sniffs == old(sniffs) + round && Longer(old(log), log, old(times), times)
        invariant Fair(env, period) ==> Waits(w, period, total)
        decreases env.rounds - round
      {
        w := WaitRound(w, period, total);
        round := round + 1;
      }
      if list.head != null && Fair(env, period) { WaitsOver(w, period, total); }
    }

    lemma FirstWaits(w: Wait, period: nat, total: nat)
      requires w == Wait(0, sweeps, 0) && Left() <= total
      ensures Waits(w, period, total)
    {
      FirstWait(env, list.Contents(), sweeps, period, total);
    }

    lemma WaitsOver(w: Wait, period: nat, total: nat)
      requires Valid() && list.head != null && Fair(env, period) && Waits(w, period, total)
      ensures w.round < total * period
    {
      hide Fair, Waiting, Valid, Budget;
      SomethingLeft();
      Outcome();
      WaitOver(env, list.Contents(), w.from, w.since, w.round, sweeps, period, total);
    }
  }

  /** Both records only grew. */
  ghost predicate Longer(log: seq<nat>, log': seq<nat>, times: seq<nat>, times': seq<nat>) {
    log <= log' && times <= times'
  }

  /** A wait under way: since which round and sweep, and the round now. */
  datatype Wait = Wait(from: nat, since: nat, round: nat)

  /** What a scan leaves: the packets sent with the number of sniffings before each, the ports found open,
      the ports that answered a packet, and how many sniffings there were. */
  datatype Result = Result(
    log: seq<nat>, times: seq<nat>, reported: seq<nat>, heard: set<nat>, sniffs: nat, ended: bool)

  /** The whole scan of distinct ports, observed for any number of rounds: only listed ports are
      probed, all of them are, none more than three times and none that has answered; the
      open ports reported are those of the captured packets; when the list is empty, every port that
      did not answer was probed that often; and a fair clock empties it. */
  method RunScan(ports: seq<nat>, env: Env, ghost period: nat) returns (r: Result)
    requires forall i | 0 <= i < |ports| :: ports[i] != 0
    requires forall i, j | 0 <= i < j < |ports| :: ports[i] != ports[j]
    ensures Timed(r.log, r.times, r.sniffs) && ports <= r.log && SamePorts(r.log, ports)
    ensures forall i | 0 <= i < |ports| :: r.times[i] == i / 2
    ensures forall p: nat :: Times(r.log, p) <= 3
    ensures Spared(env, r.log, r.times, r.sniffs)
    ensures forall p: nat :: p in r.heard <==> Answered(env, r.log, r.times, r.sniffs, p)
    ensures r.reported == Opened(env, r.sniffs)
    ensures r.ended ==> forall p | p in ports :: p in r.heard || Times(r.log, p) == 3
    ensures !r.ended ==> r.sniffs == |ports| / 2 + env.rounds
    ensures Fair(env, period) && env.rounds >= 3 * |ports| * period ==> r.ended
  {
    hide Fair, Times, Inv, Spared, Answered, Opened, Settled;
    var scan := new Scan(env);
    scan.SomethingLeft();
    scan.SendFirst(ports);
    scan.RetryLoop(period, (NUM_RETRIES + 1) * |ports|);
    scan.Outcome();
    r := Result(scan.log, scan.times, scan.reported, scan.heard, scan.sniffs, scan.list.head == null);
  }

  // ----- one packet -----

  ghost predicate Among(packets: seq<Packet>, port: nat) { exists k | 0 <= k < |packets| :: packets[k].port == port }

  lemma NoneYet(packets: seq<Packet>)
    ensures packets[..0] == [] && Open(packets[..0]) == [] && forall p :: !Among(packets[..0], p)
  {
  }

  lemma OneMorePacket(packets: seq<Packet>, k: nat)
    requires k < |packets|
    ensures Open(packets[..k + 1]) == Open(packets[..k]) + if packets[k].synAck then [packets[k].port] else []
    ensures forall p :: Among(packets[..k + 1], p) <==> Among(packets[..k], p) || p == packets[k].port
  {
    var more := packets[..k + 1];
    assert more[..k] == packets[..k] && more[k] == packets[k];
    forall p ensures Among(more, p) <==> Among(packets[..k], p) || p == packets[k].port {
      if Among(packets[..k], p) {
        var i :| 0 <= i < k && packets[..k][i].port == p;
        assert more[i].port == p;
      }
      if Among(more, p) && p != packets[k].port {
        var i :| 0 <= i < |more| && more[i].port == p;
        assert packets[..k][i].port == p;
      }
    }
  }

  lemma Sniffed(env: Env, packets: seq<Packet>, n: nat)
    requires packets == env.replies(n)
    ensures forall p :: Among(packets, p) <==> From(env, n, p)
  {
  }

  lemma NextOpened(env: Env, n: nat)
    ensures Opened(env, n + 1) == Opened(env, n) + Open(env.replies(n))
  {
  }

  /** One probe per port: once removed it is gone. */
  lemma NoLonger(l: seq<Probe>, port: nat)
    requires OneEach(l)
    ensures forall p | Pending(Removed(l, port), p) :: p != port && Pending(l, p)
  {
    var k, r := Find(l, port), Removed(l, port);
    forall p | Pending(r, p) ensures p != port && Pending(l, p) {
      var i :| 0 <= i < |r| && r[i].port == p;
      if k < |l| { TakenOut(l, k, i); }
    }
  }

  lemma AddedPending(l: seq<Probe>, port: nat, now: nat)
    ensures forall p | Pending(Added(l, port, now), p) :: p == port || Pending(l, p)
  {
    var k, r := Find(l, port), Added(l, port, now);
    forall p | Pending(r, p) && p != port ensures Pending(l, p) {
      var i :| 0 <= i < |r| && r[i].port == p;
      if k < |l| { assert l[i].port == p; } else { assert l[i - 1].port == p; }
    }
  }

  lemma {:induction false} SweptPending(l: seq<Probe>, dead: seq<bool>)
    requires |dead| == |l|
    ensures forall p | Pending(Swept(l, dead), p) :: Pending(l, p)
  {
    var r := Swept(l, dead);
    forall p | Pending(r, p) ensures Pending(l, p) {
      var i :| 0 <= i < |r| && r[i].port == p;
      assert r[i] in r;
      var j :| 0 <= j < |l| && l[j] == r[i];
      assert l[j].port == p;
    }
  }

  lemma FirstWait(env: Env, l: seq<Probe>, since: nat, period: nat, total: nat)
    requires Budget(l) <= total
    ensures Waiting(env, l, 0, since, 0, since, period, total)
  {
  }
}
