/** The certificate objects of a script run: allocation of object ids and the list of
    open objects. The certificates themselves are opaque values. */
module CertObjects {
  import opened Sequences

  const MAX_INT := 0x7fff_ffff

  datatype Object<C> = Object(id: int, cert: C)

  ghost function Ids<C>(list: seq<Object<C>>): set<int> { set o | o in list :: o.id }

  ghost predicate Distinct<C>(list: seq<Object<C>>) {
    forall i, j | 0 <= i < j < |list| :: list[i].id != list[j].id
  }

  /** What every sequence of opens and closes keeps. */
  ghost predicate Consistent<C>(last: int, wrapped: bool, list: seq<Object<C>>) {
    && 0 <= last <= MAX_INT
    && Distinct(list)
    && (forall o | o in list :: 1 <= o.id <= MAX_INT)
    && (!wrapped ==> forall o | o in list :: o.id <= last)
  }

  // ----- a free id exists -----

  lemma {:induction false} Pigeonhole(n: nat, used: set<int>) returns (free: int)
    requires |used| < n
    ensures 1 <= free <= n && free !in used
  {
    if n in used {
      free := Pigeonhole(n - 1, used - {n});
    } else {
      free := n;
    }
  }

  lemma {:induction false} FewIds<C>(list: seq<Object<C>>)
    ensures |Ids(list)| <= |list|
  {
    if list != [] {
      var rest := list[..|list| - 1];
      FewIds(rest);
      assert Ids(list) == Ids(rest) + {list[|list| - 1].id};
    }
  }

  /** Fewer objects than ids leave one unused. */
  lemma SomeFree<C>(list: seq<Object<C>>) returns (free: int)
    requires |list| < MAX_INT
    ensures 1 <= free <= MAX_INT && free !in Ids(list)
  {
    FewIds(list);
    free := Pigeonhole(MAX_INT, Ids(list));
  }

  // ----- the search -----

  /** The id tried after `last`: signed overflow shows as a value that is not positive. */
  function Step(last: int): int { if last == MAX_INT then 1 else last + 1 }

  /** How many steps lead from `last` to `target`. */
  function Distance(last: int, target: int): (d: nat)
    requires 0 <= last <= MAX_INT && 1 <= target <= MAX_INT
    ensures d > 0
  {
    if last < target then target - last else MAX_INT - last + target
  }

  /** The ids passed over from `from` on are in use up to, but without, `id`. */
  ghost predicate SkipsUsed(from: int, id: int, used: set<int>)
    requires 0 <= from <= MAX_INT && 1 <= id <= MAX_INT
  {
    forall x | 1 <= x <= MAX_INT && Distance(from, x) < Distance(from, id) :: x in used
  }

  lemma SkipOne(from: int, id: int, used: set<int>)
    requires 0 <= from <= MAX_INT && 1 <= id <= MAX_INT && id in used && SkipsUsed(from, id, used)
    requires Distance(from, id) < MAX_INT
    ensures SkipsUsed(from, Step(id), used) && Distance(from, Step(id)) == Distance(from, id) + 1
  {
    forall x | 1 <= x <= MAX_INT && Distance(from, x) < Distance(from, Step(id)) ensures x in used {
      assert Distance(from, x) == Distance(from, id) ==> x == id;
    }
  }

  // ----- the list of objects -----

  class Node<C(!new)> {
    const desc: Object<C>
    var next: Node?<C>

    constructor (desc: Object<C>, next: Node?<C>)
      ensures this.desc == desc && this.next == next
    {
      this.desc, this.next := desc, next;
    }
  }

  ghost predicate Apart<C(!new)>(ns: seq<Node<C>>) { forall i, j | 0 <= i < j < |ns| :: ns[i] != ns[j] }

  ghost predicate Linked<C(!new)>(ns: seq<Node<C>>)
    reads ns
  {
    Apart(ns) && forall i | 0 <= i < |ns| :: ns[i].next == Follower(ns, i)
  }

  ghost function Follower<C(!new)>(ns: seq<Node<C>>, i: nat): Node?<C>
    requires i < |ns|
  {
    if i + 1 < |ns| then ns[i + 1] else null
  }

  ghost function Objects<C(!new)>(ns: seq<Node<C>>): (l: seq<Object<C>>)
    ensures |l| == |ns|
  {
    seq(|ns|, i requires 0 <= i < |ns| => ns[i].desc)
  }

  /** The links after the node at `k` was taken out: only the one before it has another follower. */
  lemma FollowerCut<C(!new)>(ns: seq<Node<C>>, k: nat, i: nat)
    requires k < |ns| && i + 1 < |ns|
    ensures var rs, j := ns[..k] + ns[k + 1..], if i < k then i else i + 1;
            rs[i] == ns[j] && Follower(rs, i) == if i + 1 == k then Follower(ns, k) else Follower(ns, j)
  {
    TakenOut(ns, k, i);
    if i + 2 < |ns| { TakenOut(ns, k, i + 1); }
  }

  lemma ApartCut<C(!new)>(ns: seq<Node<C>>, k: nat)
    requires k < |ns| && Apart(ns)
    ensures Apart(ns[..k] + ns[k + 1..])
  {
    var rs := ns[..k] + ns[k + 1..];
    forall i, j | 0 <= i < j < |rs| ensures rs[i] != rs[j] {
      TakenOut(ns, k, i);
      TakenOut(ns, k, j);
    }
  }

  lemma FollowerPush<C(!new)>(n: Node<C>, ns: seq<Node<C>>, i: nat)
    requires i <= |ns|
    ensures ([n] + ns)[i] == (if i == 0 then n else ns[i - 1])
    ensures Follower([n] + ns, i) == if i > 0 then Follower(ns, i - 1) else if ns == [] then null else ns[0]
  {
  }

  lemma ApartPush<C(!new)>(n: Node<C>, ns: seq<Node<C>>)
    requires Apart(ns) && n !in ns
    ensures Apart([n] + ns)
  {
  }

  lemma ObjectsPush<C(!new)>(n: Node<C>, ns: seq<Node<C>>)
    ensures Objects([n] + ns) == [n.desc] + Objects(ns)
  {
  }

  lemma ObjectsCut<C(!new)>(ns: seq<Node<C>>, k: nat)
    requires k < |ns|
    ensures Objects(ns[..k] + ns[k + 1..]) == Objects(ns)[..k] + Objects(ns)[k + 1..]
  {
  }

  lemma NodesCut<C(!new)>(ns: seq<Node<C>>, k: nat)
    requires k < |ns|
    ensures var rs := ns[..k] + ns[k + 1..];
            && |rs| == |ns| - 1 && (forall n | n in rs :: n in ns)
            && (if rs == [] then null else rs[0]) == if k == 0 then Follower(ns, 0) else ns[0]
  {
  }

  /** The node before the one at `k` is at no other place. */
  lemma PrevOnly<C(!new)>(ns: seq<Node<C>>, k: nat, i: nat)
    requires k < |ns| && i + 1 < |ns| && Apart(ns)
    ensures k > 0 ==> (ns[if i < k then i else i + 1] == ns[k - 1] <==> i == k - 1)
  {
  }

  class Table<C(!new)> {
    var last: int
    var wrapped: bool
    var head: Node?<C>
    ghost var nodes: seq<Node<C>>

    ghost predicate Valid()
      reads this, nodes
    {
      && Linked(nodes) && head == (if nodes == [] then null else nodes[0])
      && Consistent(last, wrapped, Contents())
    }

    ghost function Contents(): (l: seq<Object<C>>)
      reads `nodes
    {
      Objects(nodes)
    }

    constructor ()
      ensures Valid() && Contents() == [] && nodes == [] && last == 0 && !wrapped
    {
      last, wrapped, head, nodes := 0, false, null, [];
    }

    /** The counter moved on by one. */
    method Advance()
      requires 0 <= last <= MAX_INT
      modifies `last, `wrapped
      ensures last == Step(old(last)) && wrapped == (old(wrapped) || old(last) == MAX_INT)
    {
      last := if last == MAX_INT then -MAX_INT - 1 else last + 1;
      if last <= 0 {
        last := 1;
        wrapped := true;
      }
    }

    method InUse(id: int) returns (found: bool)
      requires Valid()
      ensures found <==> id in Ids(Contents())
    {
      var p := head;
      ghost var k := 0;
      while p != null
        invariant k <= |nodes| && p == if k < |nodes| then nodes[k] else null
        invariant forall n | 0 <= n < k :: Contents()[n].id != id
        decreases |nodes| - k
      {
        assert Contents()[k] == p.desc && p.next == Follower(nodes, k);
        if p.desc.id == id { return true; }
        p := p.next;
        k := k + 1;
      }
      return false;
    }

    /** next_object_id: a free id, found by trying one id after the other. */
    method NextId() returns (id: int)
      requires Valid() && |nodes| < MAX_INT
      modifies `last, `wrapped
      ensures Valid() && id == last && 1 <= id <= MAX_INT && id !in Ids(Contents())
      ensures SkipsUsed(old(last), id, Ids(Contents()))
    {
      hide Linked;
      ghost var free := SomeFree(Contents());
      ghost var from := last;
      Advance();
      while true
        invariant 1 <= last <= MAX_INT && Valid()
        invariant SkipsUsed(from, last, Ids(Contents())) && Distance(from, last) <= Distance(from, free)
        invariant wrapped || last == from + 1
        invariant !wrapped ==> last !in Ids(Contents())
        decreases Distance(from, free) - Distance(from, last)
      {
        if wrapped {
          var taken := InUse(last);
          if !taken { return last; }
          SkipOne(from, last, Ids(Contents()));
          Advance();
        } else {
          return last;
        }
      }
    }

    /** nasl_cert_open, once the certificate is read. */
    method Open(cert: C) returns (id: int)
      requires Valid() && |nodes| < MAX_INT
      modifies this
      ensures Valid() && 1 <= id && id !in Ids(old(Contents()))
      ensures Contents() == [Object(id, cert)] + old(Contents()) && last == id
      ensures |nodes| > 0 && fresh(nodes[0]) && nodes[1..] == old(nodes)
    {
      id := NextId();
      Push(Object(id, cert));
    }

    method Push(o: Object<C>)
      requires Valid() && 1 <= o.id <= MAX_INT && o.id !in Ids(Contents()) && (!wrapped ==> o.id <= last)
      modifies `head, `nodes
      ensures Valid() && Contents() == [o] + old(Contents())
      ensures |nodes| > 0 && fresh(nodes[0]) && nodes[1..] == old(nodes)
    {
      hide Consistent, Objects, Follower, Apart, Ids;
      PushKeeps(last, wrapped, Contents(), o);
      ghost var ns := nodes;
      var first := new Node(o, head);
      head := first;
      nodes := [first] + ns;
      ObjectsPush(first, ns);
      ApartPush(first, ns);
      forall i | 0 <= i < |nodes| ensures nodes[i].next == Follower(nodes, i) {
        FollowerPush(first, ns, i);
      }
    }

    /** nasl_cert_close. */
    method Close(id: int)
      requires Valid()
      modifies this, nodes
      ensures Valid() && Contents() == Without(old(Contents()), id)
      ensures forall n | n in nodes :: n in old(nodes)
    {
      hide Without, Consistent;
      CutKeeps(last, wrapped, Contents());
      if id <= 0 {
        Absent(Contents(), id);
        return;
      }
      var prev: Node?<C> := null;
      var obj := head;
      ghost var k := 0;
      while obj != null && obj.desc.id != id
        invariant k <= |nodes| && obj == (if k < |nodes| then nodes[k] else null)
        invariant prev == if k == 0 then null else nodes[k - 1]
        invariant forall n | 0 <= n < k :: Contents()[n].id != id
        decreases |nodes| - k
      {
        assert Contents()[k] == obj.desc && obj.next == Follower(nodes, k);
        prev, obj := obj, obj.next;
        k := k + 1;
      }
      if obj == null {
        Absent(Contents(), id);
        return;
      }
      assert Contents()[k] == obj.desc;
      WithoutAt(Contents(), k);
      Unlink(prev, obj, k);
    }

    method Unlink(prev: Node?<C>, obj: Node<C>, ghost k: nat)
      requires Valid() && k < |nodes| && obj == nodes[k] && prev == if k == 0 then null else nodes[k - 1]
      requires Consistent(last, wrapped, Contents()[..k] + Contents()[k + 1..])
      modifies `head, `nodes, prev
      ensures Valid() && Contents() == old(Contents())[..k] + old(Contents())[k + 1..]
      ensures forall n | n in nodes :: n in old(nodes)
    {
      hide Consistent, Objects, Follower, Apart;
      ghost var ns, rs := nodes, nodes[..k] + nodes[k + 1..];
      ObjectsCut(ns, k);
      ApartCut(ns, k);
      NodesCut(ns, k);
      assert obj.next == Follower(ns, k);
      if prev != null {
        prev.next := obj.next;
      } else {
        head := obj.next;
      }
      nodes := rs;
      forall i | 0 <= i < |rs| ensures rs[i].next == Follower(rs, i) {
        FollowerCut(ns, k, i);
        PrevOnly(ns, k, i);
      }
    }
  }

  lemma PushKeeps<C>(last: int, wrapped: bool, list: seq<Object<C>>, o: Object<C>)
    requires Consistent(last, wrapped, list) && 1 <= o.id <= MAX_INT && o.id !in Ids(list)
    requires !wrapped ==> o.id <= last
    ensures Consistent(last, wrapped, [o] + list)
  {
    assert forall i | 0 <= i < |list| :: list[i].id in Ids(list);
  }

  // ----- removal -----

  /** The objects with other ids, in their order. */
  function Without<C(!new)>(list: seq<Object<C>>, id: int): (r: seq<Object<C>>)
    ensures forall o :: o in r <==> o in list && o.id != id
  {
    if list == [] then [] else
      (if list[0].id == id then [] else [list[0]]) + Without(list[1..], id)
  }

  lemma {:induction false} Absent<C(!new)>(list: seq<Object<C>>, id: int)
    requires id !in Ids(list)
    ensures Without(list, id) == list
  {
    if list != [] {
      assert list[0] in list && forall o | o in list[1..] :: o in list;
      Absent(list[1..], id);
    }
  }

  lemma {:induction false} WithoutAt<C(!new)>(list: seq<Object<C>>, k: nat)
    requires k < |list| && Distinct(list)
    ensures Without(list, list[k].id) == list[..k] + list[k + 1..]
  {
    if k == 0 {
      Absent(list[1..], list[0].id);
    } else {
      WithoutAt(list[1..], k - 1);
      assert list[1..][k - 1] == list[k];
      assert list[..k] + list[k + 1..] == [list[0]] + (list[1..][..k - 1] + list[1..][k..]);
    }
  }

  lemma CutKeeps<C>(last: int, wrapped: bool, list: seq<Object<C>>)
    requires Consistent(last, wrapped, list)
    ensures Distinct(list) && forall o | o in list :: o.id > 0
    ensures forall k | 0 <= k < |list| :: Consistent(last, wrapped, list[..k] + list[k + 1..])
  {
    forall k | 0 <= k < |list| ensures Consistent(last, wrapped, list[..k] + list[k + 1..]) {
      var r := list[..k] + list[k + 1..];
      assert forall n | 0 <= n < |r| :: r[n] == list[if n < k then n else n + 1];
    }
  }

  // ----- runs -----

  datatype Op<C> = OpenCert(cert: C) | CloseCert(id: int)

  /** The open objects after `ops`, when the opens returned the given ids. */
  function Live<C(!new)>(ops: seq<Op<C>>, ids: seq<int>): (r: seq<Object<C>>)
    requires |ids| == |ops|
  {
    if ops == [] then [] else
      var n := |ops| - 1;
      Applied(Live(ops[..n], ids[..n]), ops[n], ids[n])
  }

  function Applied<C(!new)>(list: seq<Object<C>>, op: Op<C>, id: int): seq<Object<C>> {
    match op
    case OpenCert(cert) => [Object(id, cert)] + list
    case CloseCert(x) => Without(list, x)
  }

  /** A new id is positive and none of the live ones. */
  ghost predicate NewId<C(!new)>(ops: seq<Op<C>>, ids: seq<int>, k: nat)
    requires |ids| <= |ops| && k < |ids|
  {
    ops[k].OpenCert? ==> ids[k] > 0 && ids[k] !in Ids(Live(ops[..k], ids[..k]))
  }

  /** Over every sequence of opens and closes, however long, every new id is positive and none of the live
      ones; only with all ids in use does the search for another not end, and there the run stops. */
  method Replay<C(!new)>(ops: seq<Op<C>>) returns (ids: seq<int>, list: seq<Object<C>>)
    ensures |ids| <= |ops| && list == Live(ops[..|ids|], ids) && Distinct(list)
    ensures |ids| < |ops| ==> ops[|ids|].OpenCert? && |list| == MAX_INT
    ensures forall k | 0 <= k < |ids| :: NewId(ops, ids, k)
  {
    hide Linked, Consistent, Live;
    var table := new Table<C>();
    ids, list := [], [];
    FirstLive(ops);
    for n := 0 to |ops|
      invariant table.Valid() && |ids| == n && list == table.Contents() == Live(ops[..n], ids) && |list| <= MAX_INT
      invariant forall k | 0 <= k < |table.nodes| :: fresh(table.nodes[k])
      invariant forall k | 0 <= k < n :: NewId(ops, ids, k)
    {
      if ops[n].OpenCert? && |list| == MAX_INT {
        OneEach(table.last, table.wrapped, list);
        return;
      }
      ghost var before := ids;
      var id := 0;
      match ops[n] {
        case OpenCert(cert) =>
          id := table.Open(cert);
          list := [Object(id, cert)] + list;
          assert forall k | 1 <= k < |table.nodes| :: table.nodes[k] == table.nodes[1..][k - 1];
        case CloseCert(x) =>
          WithoutShorter(list, x);
          table.Close(x);
          assert forall k | 0 <= k < |table.nodes| :: table.nodes[k] in table.nodes;
          list := Without(list, x);
      }
      LiveNext(ops, ids, n, id);
      ids := ids + [id];
      NewIds(ops, before, ids, n);
    }
    OneEach(table.last, table.wrapped, list);
  }

  lemma {:induction false} WithoutShorter<C(!new)>(list: seq<Object<C>>, id: int)
    ensures |Without(list, id)| <= |list|
  {
    if list != [] { WithoutShorter(list[1..], id); }
  }

  lemma OneEach<C>(last: int, wrapped: bool, list: seq<Object<C>>)
    requires Consistent(last, wrapped, list)
    ensures Distinct(list)
  {
  }

  lemma FirstLive<C(!new)>(ops: seq<Op<C>>)
    ensures Live(ops[..0], []) == []
  {
  }

  lemma LiveNext<C(!new)>(ops: seq<Op<C>>, ids: seq<int>, n: nat, id: int)
    requires n < |ops| && |ids| == n
    ensures Live(ops[..n + 1], ids + [id]) == Applied(Live(ops[..n], ids), ops[n], id)
  {
    assert ops[..n + 1][..n] == ops[..n] && (ids + [id])[..n] == ids;
  }

  lemma NewIds<C(!new)>(ops: seq<Op<C>>, before: seq<int>, ids: seq<int>, n: nat)
    requires n < |ops| && |before| == n && |ids| == n + 1 && ids[..n] == before
    requires forall k | 0 <= k < n :: NewId(ops, before, k)
    requires ops[n].OpenCert? ==> ids[n] > 0 && ids[n] !in Ids(Live(ops[..n], before))
    ensures forall k | 0 <= k < n + 1 :: NewId(ops, ids, k)
  {
    hide Live;
    forall k | 0 <= k < n + 1 ensures NewId(ops, ids, k) {
      assert ids[..k] == before[..k];
      if k < n { assert NewId(ops, before, k) && ids[k] == before[k]; }
    }
  }
}
