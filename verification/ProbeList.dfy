/** The outstanding probes of the SYN scanner: a doubly linked list changed in place. */
module ProbeList {
  import opened Sequences

  const NUM_RETRIES := 2

  datatype Probe = Probe(port: nat, sent: nat, retries: nat)

  // ----- the operations on values -----

  /** The position of the first probe of `port`, or the length. */
  function Find(l: seq<Probe>, port: nat): (k: nat)
    ensures k <= |l| && (forall i | 0 <= i < k :: l[i].port != port) && (k < |l| ==> l[k].port == port)
  {
    if l == [] || l[0].port == port then 0 else 1 + Find(l[1..], port)
  }

  function Added(l: seq<Probe>, port: nat, now: nat): seq<Probe> {
    var k := Find(l, port);
    if k < |l| then l[k := Probe(port, now, l[k].retries + 1)] else [Probe(port, now, 0)] + l
  }

  function Removed(l: seq<Probe>, port: nat): seq<Probe> {
    var k := Find(l, port);
    if k < |l| then l[..k] + l[k + 1..] else l
  }

  /** Of which probes the time is over, going by their ports. */
  function Verdicts(over: nat -> bool, l: seq<Probe>): (dead: seq<bool>)
    ensures |dead| == |l| && forall k | 0 <= k < |l| :: dead[k] == over(l[k].port)
  {
    seq(|l|, k requires 0 <= k < |l| => over(l[k].port))
  }

  /** The probes that are not both dead and out of retries. */
  function Swept(l: seq<Probe>, dead: seq<bool>): (r: seq<Probe>)
    requires |dead| == |l|
    ensures |r| <= |l| && forall p | p in r :: p in l
  {
    if l == [] then [] else
      var n := |l| - 1;
      Swept(l[..n], dead[..n]) + (if dead[n] && l[n].retries >= NUM_RETRIES then [] else [l[n]])
  }

  /** The port to try again: that of the last dead probe with retries left, or 0. */
  function RetryPort(l: seq<Probe>, dead: seq<bool>): nat
    requires |dead| == |l|
  {
    if l == [] then 0 else
      var n := |l| - 1;
      if dead[n] && l[n].retries < NUM_RETRIES then l[n].port else RetryPort(l[..n], dead[..n])
  }

  /** A sweep under way: the first `j` probes are looked at, `m` of them are kept. */
  ghost predicate Sweeping(c: seq<Probe>, l: seq<Probe>, dead: seq<bool>, j: nat, m: nat)
    requires |dead| == |l|
  {
    j <= |l| && m <= |c| && c[..m] == Swept(l[..j], dead[..j]) && c[m..] == l[j..]
  }

  lemma SweepStarts(l: seq<Probe>, dead: seq<bool>)
    requires |dead| == |l|
    ensures Sweeping(l, l, dead, 0, 0) && RetryPort(l[..0], dead[..0]) == 0
  {
  }

  lemma SweepOn(c: seq<Probe>, l: seq<Probe>, dead: seq<bool>, j: nat, m: nat)
    requires |dead| == |l| && Sweeping(c, l, dead, j, m) && j < |l|
    ensures m < |c| && c[m] == l[j]
    ensures dead[j] && l[j].retries >= NUM_RETRIES ==> Sweeping(c[..m] + c[m + 1..], l, dead, j + 1, m)
    ensures !(dead[j] && l[j].retries >= NUM_RETRIES) ==> Sweeping(c, l, dead, j + 1, m + 1)
    ensures RetryPort(l[..j + 1], dead[..j + 1]) ==
            if dead[j] && l[j].retries < NUM_RETRIES then l[j].port else RetryPort(l[..j], dead[..j])
  {
    assert l[..j + 1][..j] == l[..j] && dead[..j + 1][..j] == dead[..j];
    assert c[m] == c[m..][0];
    assert c[..m + 1] == c[..m] + [c[m]] && c[m + 1..] == l[j + 1..];
    var r := c[..m] + c[m + 1..];
    assert r[..m] == c[..m] && r[m..] == c[m + 1..];
  }

  lemma SweepEnds(c: seq<Probe>, l: seq<Probe>, dead: seq<bool>, m: nat)
    requires |dead| == |l| && Sweeping(c, l, dead, |l|, m)
    ensures c == Swept(l, dead)
    ensures RetryPort(l[..|l|], dead[..|l|]) == RetryPort(l, dead)
  {
    assert l[..|l|] == l && dead[..|l|] == dead;
    assert c == c[..m] + c[m..];
  }

  // ----- the list -----

  class Node {
    var port: nat
    var sent: nat
    var retries: nat
    var prev: Node?
    var next: Node?

    constructor (port: nat, sent: nat)
      ensures this.port == port && this.sent == sent && retries == 0 && prev == null && next == null
    {
      this.port, this.sent, retries, prev, next := port, sent, 0, null, null;
    }
  }

  /** The node at position `i` points to its neighbours. */
  ghost predicate LinkedAt(ns: seq<Node>, i: int)
    requires 0 <= i < |ns|
    reads ns`prev, ns`next
  {
    && ns[i].prev == (if i == 0 then null else ns[i - 1])
    && ns[i].next == (if i + 1 < |ns| then ns[i + 1] else null)
  }

  ghost predicate Distinct(ns: seq<Node>) { forall i, j | 0 <= i < j < |ns| :: ns[i] != ns[j] }

  ghost predicate Linked(ns: seq<Node>)
    reads ns`prev, ns`next
  {
    Distinct(ns) && forall i | 0 <= i < |ns| :: LinkedAt(ns, i)
  }

  ghost function Values(ns: seq<Node>): (l: seq<Probe>)
    reads ns`port, ns`sent, ns`retries
    ensures |l| == |ns| && forall i | 0 <= i < |ns| :: l[i] == Probe(ns[i].port, ns[i].sent, ns[i].retries)
  {
    if ns == [] then [] else [Probe(ns[0].port, ns[0].sent, ns[0].retries)] + Values(ns[1..])
  }

  lemma ValuesCut(ns: seq<Node>, k: nat)
    requires k < |ns|
    ensures Values(ns[..k] + ns[k + 1..]) == Values(ns)[..k] + Values(ns)[k + 1..]
  {
    hide Values;
    var rs := ns[..k] + ns[k + 1..];
    var l, r := Values(ns), Values(rs);
    forall i | 0 <= i < |rs| ensures r[i] == (l[..k] + l[k + 1..])[i] {
      TakenOut(ns, k, i);
      TakenOut(l, k, i);
    }
  }

  class List {
    var head: Node?
    ghost var nodes: seq<Node>

    ghost predicate Valid()
      reads this, nodes`prev, nodes`next
    {
      Linked(nodes) && head == if nodes == [] then null else nodes[0]
    }

    ghost function Contents(): (l: seq<Probe>)
      reads `nodes, nodes`port, nodes`sent, nodes`retries
      ensures |l| == |nodes|
    {
      Values(nodes)
    }

    constructor ()
      ensures Valid() && Contents() == [] && nodes == []
    {
      head, nodes := null, [];
    }

    /** get_packet. */
    method Get(port: nat) returns (p: Node?)
      requires Valid()
      ensures var k := Find(Contents(), port); p == if k < |nodes| then nodes[k] else null
    {
      p := head;
      ghost var i := 0;
      while p != null
        invariant i <= |nodes| && p == if i < |nodes| then nodes[i] else null
        invariant i <= Find(Contents(), port)
        decreases |nodes| - i
      {
        assert LinkedAt(nodes, i) && Contents()[i].port == p.port;
        if p.port == port { return; }
        p := p.next;
        i := i + 1;
      }
    }

    /** A probe already in the list is sent again. */
    method Again(p: Node, now: nat, ghost k: nat)
      requires Valid() && k < |nodes| && p == nodes[k]
      modifies p`retries, p`sent
      ensures Valid() && nodes == old(nodes)
      ensures Contents() == old(Contents()[k := Contents()[k].(sent := now, retries := Contents()[k].retries + 1)])
    {
      p.retries := p.retries + 1;
      p.sent := now;
    }

    /** A new probe at the head. */
    method Push(port: nat, now: nat)
      requires Valid()
      modifies this, nodes
      ensures Valid() && Contents() == [Probe(port, now, 0)] + old(Contents())
      ensures |nodes| > 0 && fresh(nodes[0]) && nodes[1..] == old(nodes)
    {
      var p := new Node(port, now);
      ghost var ns, rs := nodes, [p] + nodes;
      p.next := head;
      if p.next != null { p.next.prev := p; }
      head := p;
      nodes := rs;
      forall i | 0 <= i < |rs| ensures LinkedAt(rs, i) {
        if i > 0 { assert rs[i] == ns[i - 1] && old(LinkedAt(ns, i - 1)); }
      }
      assert Distinct(rs);
    }

    /** add_packet. */
    method Add(port: nat, now: nat)
      requires Valid()
      modifies this, nodes
      ensures Valid() && Contents() == Added(old(Contents()), port, now)
      ensures forall n | n in nodes :: n in old(nodes) || fresh(n)
    {
      hide Linked;
      var p := Get(port);
      if p != null {
        Again(p, now, Find(Contents(), port));
      } else {
        Push(port, now);
        assert nodes == [nodes[0]] + nodes[1..];
      }
    }

    /** Takes the node at position `k` out. */
    method Unlink(p: Node, ghost k: nat)
      requires Valid() && k < |nodes| && p == nodes[k]
      modifies this, nodes`prev, nodes`next
      ensures Valid() && nodes == old(nodes[..k] + nodes[k + 1..])
      ensures Contents() == old(Contents()[..k] + Contents()[k + 1..])
    {
      hide Values;
      ghost var ns, rs := nodes, nodes[..k] + nodes[k + 1..];
      ValuesCut(ns, k);
      assert LinkedAt(ns, k);
      if p.next != null { p.next.prev := p.prev; }
      if p.prev != null { p.prev.next := p.next; } else { head := p.next; }
      nodes := rs;
      forall i | 0 <= i < |rs| ensures LinkedAt(rs, i) {
        var j := if i < k then i else i + 1;
        assert rs[i] == ns[j] && old(LinkedAt(ns, j));
      }
      assert Distinct(rs);
    }

    /** rm_packet. */
    method Remove(port: nat)
      requires Valid()
      modifies this, nodes
      ensures Valid() && Contents() == Removed(old(Contents()), port)
      ensures forall n | n in nodes :: n in old(nodes)
    {
      hide Linked;
      var p := Get(port);
      if p == null { return; }
      Unlink(p, Find(Contents(), port));
    }

    /** rm_dead_packets; `over` says of each port whether the time of its probe is over. */
    method RemoveDead(over: nat -> bool) returns (retry: nat)
      requires Valid()
      modifies this, nodes
      ensures Valid() && Contents() == Swept(old(Contents()), Verdicts(over, old(Contents())))
      ensures retry == RetryPort(old(Contents()), Verdicts(over, old(Contents())))
      ensures forall n | n in nodes :: n in old(nodes)
    {
      hide Swept, RetryPort, Contents, Valid, Sweeping;
      ghost var l, dead := Contents(), Verdicts(over, Contents());
      ghost var m := 0;
      var j := 0;
      var p := head;
      retry := 0;
      HeadIs();
      SweepStarts(l, dead);
      while p != null
        invariant Valid() && Sweeping(Contents(), l, dead, j, m)
        invariant |nodes| - m == |l| - j >= 0 && p == if m < |nodes| then nodes[m] else null
        invariant forall k | 0 <= k < |nodes| :: nodes[k] in old(nodes)
        invariant retry == RetryPort(l[..j], dead[..j])
        decreases |l| - j
      {
        SweepOn(Contents(), l, dead, j, m);
        ValueAt(m);
        var next := Next(p, m);
        if over(p.port) {
          if p.retries < NUM_RETRIES {
            retry := p.port;
            m := m + 1;
          } else {
            Unlink(p, m);
          }
        } else {
          m := m + 1;
        }
        p := next;
        j := j + 1;
      }
      SweepEnds(Contents(), l, dead, m);
    }

    lemma HeadIs()
      requires Valid()
      ensures head == if nodes == [] then null else nodes[0]
    {
    }

    lemma ValueAt(k: nat)
      requires k < |nodes|
      ensures Contents()[k] == Probe(nodes[k].port, nodes[k].sent, nodes[k].retries)
    {
    }

    method Next(p: Node, ghost k: nat) returns (next: Node?)
      requires Valid() && k < |nodes| && p == nodes[k]
      ensures next == if k + 1 < |nodes| then nodes[k + 1] else null
    {
      assert LinkedAt(nodes, k);
      next := p.next;
    }
  }
}
