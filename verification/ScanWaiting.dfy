/** Which sockets `select` reported: no port is given up whose socket was reported, and every socket
    reported is asked for its error. */
module ScanWaiting {
  import opened ScanState
  import opened ScanWorld

  predicate Reports(reply: SelectReply, fd: int) { reply.Ready? && fd in reply.writable }

  // ----- waiting for an answer -----

  /** Attempt `n`, the last one on port `p`, put a connection under way on descriptor `fd`. */
  ghost predicate Tried(rec: Record, n: nat, p: int, fd: int) {
    && (n, p) in rec.attempts && n in rec.fds && rec.fds[n] == fd && Connects(rec.env.attempt(n, p), InProgress)
    && forall m: nat | (m, p) in rec.attempts :: m <= n
  }

  /** No `select` after attempt `n` has reported `fd`. */
  ghost predicate Unreported(rec: Record, n: nat, fd: int) {
    forall k: nat | k in rec.selects && n < k :: !Reports(rec.env.select(k), fd)
  }

  /** None had by the one numbered `last`. */
  ghost predicate UnreportedBy(rec: Record, n: nat, last: nat, fd: int) {
    forall k: nat | k in rec.selects && n < k <= last :: !Reports(rec.env.select(k), fd)
  }

  /** The connection to port `p` on `fd` is under way and was never reported. */
  ghost predicate Waits(rec: Record, p: int, fd: int) {
    exists n: nat :: Tried(rec, n, p, fd) && Unreported(rec, n, fd)
  }

  /** The last attempt on port `p` was given up at a `select`, and none up to that one had reported it. */
  ghost predicate Lapsed(rec: Record, p: int) {
    exists n: nat, last: nat, fd ::
      n < last && last in rec.selects && Tried(rec, n, p, fd) && UnreportedBy(rec, n, last, fd)
  }

  /** No port is silent whose socket was reported. */
  ghost predicate AllLapsed(rec: Record, ports: seq<PortState>) {
    forall p | 0 <= p < |ports| && ports[p] == Silent :: Lapsed(rec, p)
  }

  /** Sockets being opened were never reported, but for the descriptors `due`, and ports found silent
      neither. */
  ghost predicate Patient(rec: Record, v: Scan, due: set<int>) {
    && (forall i | 0 <= i < |v.socks| && v.socks[i].state == Opening && v.socks[i].fd !in due ::
          Waits(rec, v.socks[i].port, v.socks[i].fd))
    && AllLapsed(rec, v.ports)
  }

  /** The questions asked so far are numbered up to `asked`. */
  ghost predicate Numbered(rec: Record, asked: nat) {
    && (forall n: nat, p | (n, p) in rec.attempts :: n < asked)
    && (forall k | k in rec.selects :: k <= asked)
  }

  /** The record with attempt `n` on port `p`. */
  ghost function Attempting(rec: Record, n: nat, p: int, fd: int): Record {
    rec.(attempts := rec.attempts + {(n, p)}, fds := rec.fds[n := fd])
  }

  lemma AttemptOnOther(rec: Record, n: nat, p: int, fd: int, q: int, f: int)
    requires Numbered(rec, n) && q != p
    ensures Waits(rec, q, f) ==> Waits(Attempting(rec, n, p, fd), q, f)
    ensures Lapsed(rec, q) ==> Lapsed(Attempting(rec, n, p, fd), q)
  {
    var more := Attempting(rec, n, p, fd);
    if Waits(rec, q, f) {
      var m: nat :| Tried(rec, m, q, f) && Unreported(rec, m, f);
      assert Tried(more, m, q, f) && Unreported(more, m, f);
    }
    if Lapsed(rec, q) {
      var m: nat, last: nat, g :|
        m < last && last in rec.selects && Tried(rec, m, q, g) && UnreportedBy(rec, m, last, g);
      assert Tried(more, m, q, g) && UnreportedBy(more, m, last, g);
    }
  }

  /** Asking about a port that is unknown says nothing about the others. */
  lemma AttemptPatient(rec: Record, n: nat, v: Scan, p: int, fd: int)
    requires Table(v) && Numbered(rec, n) && Patient(rec, v, {}) && 0 < p < PORTS && v.ports[p] == Unknown
    ensures Numbered(Attempting(rec, n, p, fd), n + 1) && Patient(Attempting(rec, n, p, fd), v, {})
  {
    hide Waits, Lapsed, Distinct;
    forall i | 0 <= i < |v.socks| && v.socks[i].state == Opening
      ensures Waits(Attempting(rec, n, p, fd), v.socks[i].port, v.socks[i].fd)
    {
      SockPort(v, i);
      AttemptOnOther(rec, n, p, fd, v.socks[i].port, v.socks[i].fd);
    }
    forall q | 0 <= q < |v.ports| && v.ports[q] == Silent ensures Lapsed(Attempting(rec, n, p, fd), q) {
      AttemptOnOther(rec, n, p, fd, q, 0);
    }
  }

  lemma JustTried(rec: Record, n: nat, p: int, fd: int)
    requires Numbered(rec, n) && Connects(rec.env.attempt(n, p), InProgress)
    ensures Waits(Attempting(rec, n, p, fd), p, fd)
  {
    var more := Attempting(rec, n, p, fd);
    assert Tried(more, n, p, fd) && Unreported(more, n, fd);
  }

  /** The answer to the attempt. */
  lemma AttemptedPatient(rec: Record, v: Scan, p: int, fd: int, a: Attempt)
    requires 0 <= p < |v.ports| && v.ports[p] == Unknown && Patient(rec, v, {}) && !Fatal(fd, a)
    requires Connects(a, InProgress) ==> Waits(rec, p, fd)
    ensures Patient(rec, Attempted(v, p, fd, a), {})
  {
    hide Waits, Lapsed;
  }

  /** After `select` was asked, only the sockets it reported may no longer be waiting. */
  lemma SelectPatient(rec: Record, m: nat, v: Scan, due: set<int>)
    requires m > 0 && Numbered(rec, m - 1) && Patient(rec, v, {})
    requires forall fd | Reports(rec.env.select(m), fd) :: fd in due
    ensures var more := rec.(selects := rec.selects + {m});
            Numbered(more, m) && Patient(more, v, due)
  {
    var more := rec.(selects := rec.selects + {m});
    forall i | 0 <= i < |v.socks| && v.socks[i].state == Opening && v.socks[i].fd !in due
      ensures Waits(more, v.socks[i].port, v.socks[i].fd)
    {
      SelectWaits(rec, m, v.socks[i].port, v.socks[i].fd);
    }
    forall p | 0 <= p < |v.ports| && v.ports[p] == Silent ensures Lapsed(more, p) {
      SelectLapsed(rec, m, p);
    }
  }

  lemma SelectWaits(rec: Record, m: nat, p: int, fd: int)
    requires Waits(rec, p, fd) && !Reports(rec.env.select(m), fd)
    ensures Waits(rec.(selects := rec.selects + {m}), p, fd)
  {
    var n: nat :| Tried(rec, n, p, fd) && Unreported(rec, n, fd);
    var more := rec.(selects := rec.selects + {m});
    assert Tried(more, n, p, fd) && Unreported(more, n, fd);
  }

  lemma SelectLapsed(rec: Record, m: nat, p: int)
    requires m > 0 && Numbered(rec, m - 1) && Lapsed(rec, p)
    ensures Lapsed(rec.(selects := rec.selects + {m}), p)
  {
    var n: nat, last: nat, fd :|
      n < last && last in rec.selects && Tried(rec, n, p, fd) && UnreportedBy(rec, n, last, fd);
    var more := rec.(selects := rec.selects + {m});
    assert Tried(more, n, p, fd) && UnreportedBy(more, n, last, fd);
  }

  /** A port still waited for is given up. */
  lemma GiveUp(rec: Record, m: nat, p: int, fd: int)
    requires Waits(rec, p, fd) && m in rec.selects && forall n: nat, q | (n, q) in rec.attempts :: n < m
    ensures Lapsed(rec, p)
  {
    var n: nat :| Tried(rec, n, p, fd) && Unreported(rec, n, fd);
    assert UnreportedBy(rec, n, m, fd);
  }

  lemma DroppedPatient(rec: Record, m: nat, v: Scan, i: nat, due: set<int>)
    requires Patient(rec, v, due) && i < |v.socks| && 0 <= v.socks[i].port < |v.ports|
    requires v.socks[i].state == Opening ==> v.socks[i].fd !in due
    requires m in rec.selects && forall n: nat, q | (n, q) in rec.attempts :: n < m
    ensures Patient(rec, Dropped(v, i), due)
  {
    hide Waits, Lapsed;
    if v.socks[i].state == Opening { GiveUp(rec, m, v.socks[i].port, v.socks[i].fd); }
  }

  lemma AnsweredPatient(rec: Record, v: Scan, i: nat, e: Errno, due: set<int>)
    requires Patient(rec, v, due) && i < |v.socks| && 0 <= v.socks[i].port < |v.ports|
    ensures Patient(rec, Answered(v, i, e), due)
  {
    hide Waits, Lapsed;
  }

  /** Pending errors do not matter here. */
  lemma SamePatient(rec: Record, errors: set<(nat, int)>, v: Scan, due: set<int>)
    requires Patient(rec, v, due)
    ensures Patient(rec.(errors := errors), v, due)
  {
    var more := rec.(errors := errors);
    forall p, fd | Waits(rec, p, fd) ensures Waits(more, p, fd) {
      var n: nat :| Tried(rec, n, p, fd) && Unreported(rec, n, fd);
      assert Tried(more, n, p, fd) && Unreported(more, n, fd);
    }
    forall p | Lapsed(rec, p) ensures Lapsed(more, p) {
      var n: nat, last: nat, fd :|
        n < last && last in rec.selects && Tried(rec, n, p, fd) && UnreportedBy(rec, n, last, fd);
      assert Tried(more, n, p, fd) && UnreportedBy(more, n, last, fd);
    }
  }

  /** No reported socket is left being opened. */
  lemma NoneDue(rec: Record, v: Scan, due: set<int>)
    requires Patient(rec, v, due)
    requires forall i | 0 <= i < |v.socks| && v.socks[i].state == Opening :: v.socks[i].fd !in due
    ensures Patient(rec, v, {})
  {
    hide Waits, Lapsed;
  }

  lemma LivePatient(rec: Record, v: Scan, due: set<int>)
    requires Patient(rec, v, due)
    ensures Patient(rec, v.(socks := Live(v.socks)), due)
  {
    hide Waits, Lapsed, Live;
    LiveMembers(v.socks);
    var w := Live(v.socks);
    forall i | 0 <= i < |w| && w[i].state == Opening && w[i].fd !in due ensures Waits(rec, w[i].port, w[i].fd) {
      assert w[i] in w;
    }
  }

  lemma PassPatient(rec: Record, v: Scan, due: set<int>)
    requires Patient(rec, v, due) && v.socks == []
    ensures Patient(rec, NextPass(v), due) && Patient(rec, RecheckPass(v), due)
  {
    hide Waits, Lapsed;
  }

  // ----- what a round makes of a socket -----

  /** `select` reported the socket, as writable while it is being opened, as readable once connected. */
  predicate Hit(reply: SelectReply, s: Sock) {
    reply.Ready? && ((s.state == Opening && s.fd in reply.writable) || (s.state == Connected && s.fd in reply.readable))
  }

  ghost predicate Busy(reply: SelectReply, socks: seq<Sock>) {
    exists i | 0 <= i < |socks| :: Hit(reply, socks[i])
  }

  /** Question `n` was asked about the pending error of port `p`, and the answer calls for `st`. */
  ghost predicate Judged(rec: Record, n: nat, p: int, st: PortState) {
    && (n, p) in rec.errors && rec.env.sockError(n, p).SockOpt?
    && var e := rec.env.sockError(n, p).err;
       st == if e == Success then Open else if e == Unreachable then Rejected else Closed
  }

  function Shut(s: Sock): Sock { s.(fd := -1, state := Unused) }

  /** The reply to `select` number `n` turns socket `s` into `t`; `busy` tells that it reported any socket. */
  ghost predicate Polled(rec: Record, n: nat, busy: bool, s: Sock, t: Sock, ports: seq<PortState>) {
    && 0 <= s.port < |ports|
    && if !Hit(rec.env.select(n), s) then
         if busy then t == s else t == Shut(s) && (s.state == Opening ==> ports[s.port] == Silent)
       else if s.state == Opening then
         && Judged(rec, n, s.port, ports[s.port])
         && t == if ports[s.port] == Open then s.(state := Connected) else Shut(s)
       else t == Shut(s)
  }

  ghost predicate AllPolled(rec: Record, n: nat, v: Scan, w: Scan) {
    |w.socks| == |v.socks| &&
    forall i | 0 <= i < |v.socks| ::
      Polled(rec, n, Busy(rec.env.select(n), v.socks), v.socks[i], w.socks[i], w.ports)
  }

  lemma StillPolled(prior: Record, rec: Record, n: nat, busy: bool, s: Sock, t: Sock,
                    a: seq<PortState>, b: seq<PortState>)
    requires Polled(prior, n, busy, s, t, a) && Further(prior, rec) && Evolves(a, b)
    ensures Polled(rec, n, busy, s, t, b)
  {
  }

  /** Socket `s` becomes `t`, being shut if it is `late`. */
  ghost predicate TimedOut(late: bool, s: Sock, t: Sock, ports: seq<PortState>) {
    && t == (if !Dead(s) && late then Shut(s) else s)
    && (s.state == Opening && late ==> 0 <= s.port < |ports| && ports[s.port] == Silent)
  }

  ghost predicate AllTimedOut(env: Env, n: nat, v: Scan, w: Scan) {
    |w.socks| == |v.socks| &&
    forall i | 0 <= i < |v.socks| :: TimedOut(env.expired(n, i), v.socks[i], w.socks[i], w.ports)
  }

  lemma StillTimedOut(late: bool, s: Sock, t: Sock, a: seq<PortState>, b: seq<PortState>)
    requires TimedOut(late, s, t, a) && Evolves(a, b)
    ensures TimedOut(late, s, t, b)
  {
  }

  /** What the whole round of `select` number `n` makes of socket `s`; `late` tells that it waited too long. */
  ghost predicate Turned(rec: Record, n: nat, busy: bool, s: Sock, late: bool, w: Scan) {
    && 0 <= s.port < |w.ports|
    && (s in w.socks <==> busy && !Hit(rec.env.select(n), s) && !late)
    && (s.state == Opening ==>
          if Hit(rec.env.select(n), s) then
            && Judged(rec, n, s.port, w.ports[s.port])
            && (s.(state := Connected) in w.socks <==> w.ports[s.port] == Open && !late)
          else !busy || late ==> w.ports[s.port] == Silent)
  }

  ghost predicate AllTurned(rec: Record, n: nat, v: Scan, w: Scan) {
    && n in rec.selects && rec.env.select(n).Ready?
    && forall i | 0 <= i < |v.socks| ::
         Turned(rec, n, Busy(rec.env.select(n), v.socks), v.socks[i], rec.env.expired(n, i), w)
  }

  /** An entry of the table is in it once. */
  lemma OnlyThere(socks: seq<Sock>, t: seq<Sock>, i: nat, s: Sock)
    requires Distinct(socks) && Alive(socks) && |t| == |socks| && i < |socks| && s.port == socks[i].port && !Dead(s)
    requires forall k | 0 <= k < |t| :: t[k].port == socks[k].port
    ensures s in Live(t) <==> t[i] == s
  {
    hide Live;
    LiveMembers(t);
    if s in Live(t) {
      var k :| 0 <= k < |t| && t[k] == s;
      assert !Dead(socks[k]) && !Dead(socks[i]);
    }
  }

  /** The round is the reply followed by expiry, which gives the table `t`, and compaction. */
  lemma RoundTurned(rec: Record, n: nat, v: Scan, u: Scan, t: seq<Sock>, w: Scan)
    requires Distinct(v.socks) && Alive(v.socks) && n in rec.selects && rec.env.select(n).Ready?
    requires AllPolled(rec, n, v, u) && Evolves(u.ports, w.ports)
    requires AllTimedOut(rec.env, n, u, w.(socks := t)) && w.socks == Live(t)
    ensures AllTurned(rec, n, v, w)
  {
    hide Live, Judged, Distinct, Alive, Evolves, Turned;
    forall k | 0 <= k < |t| ensures t[k].port == v.socks[k].port {
      assert Polled(rec, n, Busy(rec.env.select(n), v.socks), v.socks[k], u.socks[k], u.ports);
      assert TimedOut(rec.env.expired(n, k), u.socks[k], t[k], w.ports);
    }
    forall i | 0 <= i < |v.socks|
      ensures Turned(rec, n, Busy(rec.env.select(n), v.socks), v.socks[i], rec.env.expired(n, i), w)
    {
      SocketTurned(rec, n, v, u, t, w, i);
    }
  }

  lemma SocketTurned(rec: Record, n: nat, v: Scan, u: Scan, t: seq<Sock>, w: Scan, i: nat)
    requires Distinct(v.socks) && Alive(v.socks) && i < |v.socks| == |u.socks| == |t|
    requires Polled(rec, n, Busy(rec.env.select(n), v.socks), v.socks[i], u.socks[i], u.ports)
    requires TimedOut(rec.env.expired(n, i), u.socks[i], t[i], w.ports)
    requires Evolves(u.ports, w.ports) && w.socks == Live(t)
    requires forall k | 0 <= k < |t| :: t[k].port == v.socks[k].port
    ensures Turned(rec, n, Busy(rec.env.select(n), v.socks), v.socks[i], rec.env.expired(n, i), w)
  {
    hide Live, Distinct, Busy;
    var s := v.socks[i];
    assert !Dead(s);
    NoFurther(rec);
    StillPolled(rec, rec, n, Busy(rec.env.select(n), v.socks), s, u.socks[i], u.ports, w.ports);
    OnlyThere(v.socks, t, i, s);
    if s.state == Opening { OnlyThere(v.socks, t, i, s.(state := Connected)); }
  }

  // ----- the steps of a round -----

  /** A question newly asked about port `p` found its descriptor writable at once. */
  ghost predicate Notices(rec: Record, prior: Record, p: int) {
    exists n: nat :: (n, p) in rec.attempts - prior.attempts && rec.env.attempt(n, p).writable
  }

  lemma NoticesSince(rec: Record, prior: Record, first: Record, p: int)
    requires Notices(rec, prior, p) && Further(first, prior)
    ensures Notices(rec, first, p)
  {
  }

  lemma StartAttempt(rec: Record, n: nat, v: Scan, p: int, fd: int)
    requires Inv(v) && Numbered(rec, n) && Patient(rec, v, {}) && 0 < p < PORTS && v.ports[p] == Unknown
    requires OneAtATime(rec)
    ensures var more := Attempting(rec, n, p, fd);
            && Numbered(more, n + 1) && Patient(more, v, {}) && Further(rec, more) && OneAtATime(more)
            && (Connects(rec.env.attempt(n, p), InProgress) ==> Waits(more, p, fd))
            && (n, p) in more.attempts - rec.attempts
  {
    hide Patient, Waits, Table, Counters, Evidence;
    AttemptPatient(rec, n, v, p, fd);
    if Connects(rec.env.attempt(n, p), InProgress) { JustTried(rec, n, p, fd); }
  }

  /** Verdicts given stay. */
  lemma Finality(v: Scan, w: Scan)
    requires Step(v, w)
    ensures Evolves(v.ports, w.ports) && |v.ports| == |w.ports| == PORTS
  {
    AllPorts(w);
  }

  lemma DistinctSocks(v: Scan)
    requires Inv(v)
    ensures Distinct(v.socks)
  {
  }

  /** Membership in the descriptor sets tells whether a socket was reported. */
  lemma HitFd(v: Scan, i: nat, reply: SelectReply)
    requires Inv(v) && i < |v.socks| && !Dead(v.socks[i]) && reply.Ready?
    ensures v.socks[i].fd in Fds(v.socks, Opening) * reply.writable <==>
            v.socks[i].state == Opening && Hit(reply, v.socks[i])
    ensures v.socks[i].fd in Fds(v.socks, Connected) * reply.readable <==>
            v.socks[i].state == Connected && Hit(reply, v.socks[i])
  {
    hide Inv;
    if v.socks[i].fd in Fds(v.socks, Opening) { FdState(v, i, Opening); }
    if v.socks[i].fd in Fds(v.socks, Connected) { FdState(v, i, Connected); }
  }

  /** No descriptor in either set: nothing was reported. */
  lemma AnyHit(v: Scan, w: set<int>, r: set<int>)
    requires Inv(v) && Alive(v.socks)
    ensures Fds(v.socks, Opening) * w == {} && Fds(v.socks, Connected) * r == {} <==> !Busy(Ready(w, r), v.socks)
    ensures !Busy(Ready(w, r), v.socks) ==>
              forall i | 0 <= i < |v.socks| && v.socks[i].state == Opening :: v.socks[i].fd !in w
  {
    hide Inv;
    forall i | 0 <= i < |v.socks|
      ensures Hit(Ready(w, r), v.socks[i]) <==>
              v.socks[i].fd in Fds(v.socks, Opening) * w || v.socks[i].fd in Fds(v.socks, Connected) * r
    {
      HitFd(v, i, Ready(w, r));
    }
    var wfs, rfs := Fds(v.socks, Opening) * w, Fds(v.socks, Connected) * r;
    if wfs != {} {
      var fd :| fd in wfs;
      var i := FdOfSock(v, Opening, fd);
    } else if rfs != {} {
      var fd :| fd in rfs;
      var i := FdOfSock(v, Connected, fd);
    }
  }

  lemma FdOfSock(v: Scan, st: SockState, fd: int) returns (i: nat)
    requires fd in Fds(v.socks, st)
    ensures i < |v.socks| && v.socks[i].fd == fd
  {
    i :| i < |v.socks| && v.socks[i].fd == fd;
  }

  lemma AllShut(rec: Record, n: nat, v: Scan, w: Scan)
    requires !Busy(rec.env.select(n), v.socks) && |w.socks| == |v.socks|
    requires forall i | 0 <= i < |v.socks| ::
               && w.socks[i] == Shut(v.socks[i]) && 0 <= w.socks[i].port < |w.ports|
               && (v.socks[i].state == Opening ==> w.ports[w.socks[i].port] == Silent)
    ensures AllPolled(rec, n, v, w)
  {
  }

  /** The answer to the question about the pending error. */
  lemma AnsweredPolled(rec: Record, n: nat, v: Scan, i: nat, e: Errno)
    requires i < |v.socks| && 0 <= v.socks[i].port < |v.ports| && v.socks[i].state == Opening
    requires Hit(rec.env.select(n), v.socks[i])
    requires (n, v.socks[i].port) in rec.errors && rec.env.sockError(n, v.socks[i].port) == SockOpt(e)
    ensures var w := Answered(v, i, e); i < |w.socks| && Polled(rec, n, true, v.socks[i], w.socks[i], w.ports)
  {
  }

  lemma ShutPolled(rec: Record, n: nat, v: Scan, i: nat, w: Scan)
    requires i < |v.socks| == |w.socks| && 0 <= v.socks[i].port < |w.ports| && v.socks[i].state == Connected
    requires Hit(rec.env.select(n), v.socks[i]) && w.socks[i] == Shut(v.socks[i])
    ensures Polled(rec, n, true, v.socks[i], w.socks[i], w.ports)
  {
  }

  lemma NotPolled(rec: Record, n: nat, v: Scan, i: nat)
    requires i < |v.socks| && 0 <= v.socks[i].port < |v.ports| && !Hit(rec.env.select(n), v.socks[i])
    ensures Polled(rec, n, true, v.socks[i], v.socks[i], v.ports)
  {
  }

  /** Every socket reported as writable has been asked. */
  lemma ServedNotDue(rec: Record, n: nat, v: Scan, w: Scan)
    requires rec.env.select(n).Ready? && Busy(rec.env.select(n), v.socks) && |w.socks| == |v.socks|
    requires forall i | 0 <= i < |v.socks| :: Polled(rec, n, true, v.socks[i], w.socks[i], w.ports)
    ensures AllPolled(rec, n, v, w)
    ensures forall i | 0 <= i < |w.socks| && w.socks[i].state == Opening :: w.socks[i].fd !in rec.env.select(n).writable
  {
    hide Judged;
    forall i | 0 <= i < |w.socks| && w.socks[i].state == Opening ensures w.socks[i].fd !in rec.env.select(n).writable {
      assert Polled(rec, n, true, v.socks[i], w.socks[i], w.ports);
    }
  }
}
