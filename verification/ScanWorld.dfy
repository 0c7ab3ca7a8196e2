/** The world a connect scan meets, and what one attempt, one round and one change of pass make
    of its answers: the descriptors, the connection window and the scan state. */
module ScanWorld {
  import opened ScanState

  const FD_SETSIZE := 1024
  const GRAB_MAX_SOCK := 1024
  const GRAB_MAX_SOCK_SAFE := 128
  const MAX_PASS_NB := 16

  // ----- what the kernel and the clock may answer -----

  /** `socket` gives a descriptor, of which `others` are open elsewhere in the process, or an error. */
  datatype SocketReply = Descriptor(others: set<int>) | FileTableFull | TooManyFiles | SocketError

  /** The answers met while trying one port. */
  datatype Attempt = Attempt(socket: SocketReply, configured: bool, connect: Errno, writable: bool)

  /** `select` fails, or reports descriptors ready for writing and for reading. */
  datatype SelectReply = SelectError | Ready(writable: set<int>, readable: set<int>)

  datatype SockOpt = SockOptError | SockOpt(err: Errno)

  /** Every behaviour of the outside world; the first argument counts the questions asked, the
      second one of `attempt` and `sockError` is the port asked about. */
  datatype Env = Env(
    attempt: (nat, int) -> Attempt,
    select: nat -> SelectReply,
    sockError: (nat, int) -> SockOpt,
    expired: (nat, nat) -> bool,
    seconds: nat -> int)

  /** The world as far as a scan has asked: the attempts and the pending errors by question and port,
      the descriptor each attempt was made on, and the calls of `select`. */
  datatype Record = Record(
    env: Env, attempts: set<(nat, int)>, fds: map<nat, int>, selects: set<nat>, errors: set<(nat, int)>)

  /** The same world, asked further. */
  ghost predicate Further(prior: Record, rec: Record) {
    && rec.env == prior.env
    && prior.attempts <= rec.attempts && prior.selects <= rec.selects && prior.errors <= rec.errors
  }

  /** Every question is about one port. */
  ghost predicate OneAtATime(rec: Record) {
    forall n: nat, p, q | (n, p) in rec.attempts && (n, q) in rec.attempts :: p == q
  }

  /** The world was asked about port `p` and gave the answer `e`. */
  ghost predicate Says(rec: Record, p: int, e: Errno) {
    || (exists n: nat :: (n, p) in rec.attempts && Connects(rec.env.attempt(n, p), e))
    || (exists n: nat :: (n, p) in rec.errors && rec.env.sockError(n, p) == SockOpt(e))
  }

  predicate Connects(a: Attempt, e: Errno) { a.socket.Descriptor? && a.connect == e }

  /** A resource error stood in the way of an attempt on port `p`. */
  ghost predicate Starved(rec: Record, p: int) {
    exists n: nat :: (n, p) in rec.attempts && Starves(rec.env.attempt(n, p))
  }

  predicate Starves(a: Attempt) { a.socket in {FileTableFull, TooManyFiles} || Connects(a, TryAgain) }

  /** An error ended the scan or took a port from it. */
  ghost predicate Harsh(rec: Record) {
    || (exists n: nat, p :: (n, p) in rec.attempts && Unkind(rec.env.attempt(n, p)))
    || (exists n: nat :: n in rec.selects && rec.env.select(n).SelectError?)
    || (exists n: nat, p :: (n, p) in rec.errors && rec.env.sockError(n, p).SockOptError?)
  }

  predicate Unkind(a: Attempt) {
    !a.socket.Descriptor? || !a.configured || a.connect in {OtherError, TryAgain}
  }

  /** The connection limit and the descriptors open elsewhere together reached FD_SETSIZE. */
  ghost predicate Crowded(rec: Record, l: Limits) {
    exists n: nat, p ::
      && (n, p) in rec.attempts && rec.env.attempt(n, p).socket.Descriptor?
      && |rec.env.attempt(n, p).socket.others| + l.maxCnx >= FD_SETSIZE
  }

  /** Nothing that was asked is forgotten. */
  lemma StillSays(prior: Record, rec: Record, p: int, e: Errno)
    requires Further(prior, rec)
    ensures Says(prior, p, e) ==> Says(rec, p, e)
    ensures Starved(prior, p) ==> Starved(rec, p)
  {
  }

  lemma StillHarsh(prior: Record, rec: Record, l: Limits)
    requires Further(prior, rec)
    ensures Harsh(prior) ==> Harsh(rec)
    ensures Crowded(prior, l) ==> Crowded(rec, l)
  {
  }

  lemma NoFurther(rec: Record)
    ensures Further(rec, rec)
  {
  }

  lemma FurtherTransitive(first: Record, prior: Record, rec: Record)
    requires Further(first, prior) && Further(prior, rec)
    ensures Further(first, rec)
  {
  }

  /** The lowest number from `k` on that is not in use. */
  function LowestFree(used: set<int>, k: int): (fd: int)
    ensures k <= fd <= k + |used| && fd !in used
    decreases |used|
  {
    if k in used then LowestFree(used - {k}, k + 1) else k
  }

  lemma {:induction false} LowerUsed(used: set<int>, k: int, x: int)
    requires k <= x < LowestFree(used, k)
    ensures x in used
    decreases |used|
  {
    if x > k { LowerUsed(used - {k}, k + 1, x); }
  }

  function UsedFds(socks: seq<Sock>): set<int> { set i | 0 <= i < |socks| :: socks[i].fd }

  lemma {:induction false} FewFds(socks: seq<Sock>)
    ensures |UsedFds(socks)| <= |socks|
  {
    if socks != [] {
      var n := |socks| - 1;
      FewFds(socks[..n]);
      assert UsedFds(socks) == UsedFds(socks[..n]) + {socks[n].fd};
    }
  }

  /** `socket` hands out the lowest positive descriptor that is not in use. */
  function FdFor(socks: seq<Sock>, a: Attempt): (fd: int)
    ensures FreshFd(socks, fd)
  {
    var fd := LowestFree(UsedFds(socks) + (if a.socket.Descriptor? then a.socket.others else {}), 1);
    assert forall i | 0 <= i < |socks| :: socks[i].fd in UsedFds(socks);
    fd
  }

  /** No lower one was free. */
  lemma FdIsLowest(socks: seq<Sock>, a: Attempt, x: int)
    requires 1 <= x < FdFor(socks, a)
    ensures (exists i | 0 <= i < |socks| :: socks[i].fd == x) || (a.socket.Descriptor? && x in a.socket.others)
  {
    LowerUsed(UsedFds(socks) + (if a.socket.Descriptor? then a.socket.others else {}), 1, x);
  }

  /** A descriptor beyond FD_SETSIZE needs that many in use. */
  lemma HighFd(rec: Record, l: Limits, n: nat, p: int, socks: seq<Sock>)
    requires |socks| < l.maxCnx && (n, p) in rec.attempts && rec.env.attempt(n, p).socket.Descriptor?
    requires FdFor(socks, rec.env.attempt(n, p)) >= FD_SETSIZE
    ensures Crowded(rec, l)
  {
    FewFds(socks);
    var others := rec.env.attempt(n, p).socket.others;
    Together(UsedFds(socks), others);
    assert |others| + l.maxCnx >= FD_SETSIZE;
  }

  lemma Together(a: set<int>, b: set<int>)
    ensures |a + b| <= |a| + |b|
  {
    assert a + b == a + (b - a);
    assert b == (b - a) + (b * a);
  }

  /** Descriptors of the sockets in state `st`. */
  function Fds(socks: seq<Sock>, st: SockState): (fds: set<int>) {
    set i | 0 <= i < |socks| && socks[i].state == st && socks[i].fd >= 0 :: socks[i].fd
  }

  /** A descriptor tells its socket apart from all others. */
  lemma FdState(v: Scan, i: nat, st: SockState)
    requires Inv(v) && i < |v.socks| && v.socks[i].fd in Fds(v.socks, st) && st != Unused
    ensures v.socks[i].state == st
  {
    var j :| 0 <= j < |v.socks| && v.socks[j].state == st && v.socks[j].fd >= 0 && v.socks[j].fd == v.socks[i].fd;
    assert SockOk(v, v.socks[i]) && SockOk(v, v.socks[j]);
    assert i == j || !Distinct(v.socks);
  }

  lemma LiveFd(v: Scan, i: nat)
    requires Inv(v) && i < |v.socks| && !Dead(v.socks[i])
    ensures v.socks[i].fd > 0
  {
    assert SockOk(v, v.socks[i]);
  }

  lemma UnusedFd(v: Scan, i: nat)
    requires Inv(v) && i < |v.socks|
    ensures v.socks[i].state == Unused <==> v.socks[i].fd < 0
  {
    assert SockOk(v, v.socks[i]);
  }

  // ----- the connection window -----

  datatype Window = Window(max: int, max2: int)

  datatype Limits = Limits(minCnx: int, maxCnx: int) {
    predicate Ok() { 1 <= minCnx && 2 * minCnx <= maxCnx <= GRAB_MAX_SOCK }
  }

  ghost predicate InWindow(l: Limits, w: Window) {
    w.max <= l.maxCnx && w.max2 <= l.maxCnx
  }

  /** The window after the attempt `a`, with `n` sockets in the table. */
  function WindowAfter(w: Window, n: nat, fd: int, a: Attempt): Window {
    var shrunk := n - (if n / 16 > 0 then n / 16 else 1);
    match a.socket
    case FileTableFull => Window(n / 2 - 1, n / 2 - 1)
    case TooManyFiles => Window(shrunk, shrunk)
    case SocketError => w
    case Descriptor(_) =>
      if fd >= FD_SETSIZE then Window(w.max - 1, w.max2 - 1)
      else if a.configured && a.connect == TryAgain then Window(shrunk, shrunk)
      else w
  }

  /** Only the descriptor limit can close the window while `max2` stays positive. */
  lemma WindowAfterAttempt(l: Limits, w: Window, n: nat, fd: int, a: Attempt)
    requires InWindow(l, w) && n <= l.maxCnx
    ensures InWindow(l, WindowAfter(w, n, fd, a))
    ensures var w' := WindowAfter(w, n, fd, a);
            (w.max >= 1 || w.max2 <= 0) ==> w'.max >= 1 || w'.max2 <= 0 || (a.socket.Descriptor? && fd >= FD_SETSIZE)
  {
  }

  function Lesser(a: int, b: int): int { if a < b then a else b }
  function Greater(a: int, b: int): int { if a > b then a else b }

  /** The window after a round: `dropped` and `timeouts` sockets were given up. */
  function Adjusted(l: Limits, w: Window, filtered: int, unfiltered: int, n: nat, dropped: nat,
                    timeouts: nat): (r: (Window, bool)) {
    var (w1, flag) :=
      if dropped > 0 && dropped >= n * 3 / 4 && (dropped < filtered || dropped > unfiltered) then
        (Window(w.max + dropped, if w.max2 < l.maxCnx then w.max2 + 1 else w.max2), false)
      else if dropped > 0 then
        var m := Greater(w.max - (dropped + 2) / 3, l.minCnx);
        (Window(m, (m + 3 * w.max2) / 4), true)
      else
        (w, false);
    (Window(Greater(Lesser(w1.max + timeouts, w1.max2), l.minCnx), w1.max2), flag)
  }

  /** No round makes the window outgrow the table or fall below the minimum. */
  lemma AdjustedInWindow(l: Limits, w: Window, filtered: int, unfiltered: int, n: nat, dropped: nat, timeouts: nat)
    requires l.Ok() && InWindow(l, w) && w.max2 > 0
    ensures var (w', _) := Adjusted(l, w, filtered, unfiltered, n, dropped, timeouts);
            InWindow(l, w') && l.minCnx <= w'.max && w'.max2 > 0
  {
  }

  /** The least minimum with which a pass that finds silent ports leaves room for another. */
  const SAFE_MIN_CNX := 6

  /** The second limit of a pass that has found `silent` ports silent. */
  ghost predicate Wide(max2: int, silent: nat) {
    max2 >= 2 && (silent > 0 ==> max2 >= 3)
  }

  /** A round that drops sockets never leaves the second limit below three. */
  lemma AdjustedWide(l: Limits, w: Window, filtered: int, unfiltered: int, n: nat, dropped: nat, timeouts: nat,
                     silent: nat)
    requires l.Ok() && l.minCnx >= SAFE_MIN_CNX && Wide(w.max2, silent)
    ensures Wide(Adjusted(l, w, filtered, unfiltered, n, dropped, timeouts).0.max2, silent + dropped)
  {
  }

  /** What a change of pass without dropped sockets leaves of the second limit. */
  function Wear(n: int): int { n * 2 / 3 }

  /** The window for the pass after `pass` that retries the silent ports. */
  function RetryWindow(l: Limits, w: Window, pass: nat, dropped: bool, rateLimited: bool): Window {
    var m := Greater(l.minCnx / (pass + 1), 1);
    if !dropped then Window(m, Wear(w.max2))
    else if rateLimited then Window(Lesser(m, GRAB_MAX_SOCK_SAFE), Lesser(w.max2, GRAB_MAX_SOCK_SAFE))
    else if w.max2 <= m then Window(m, m * 2)
    else Window(m, w.max2)
  }

  /** The window for a pass that checks the standard ports again. */
  function RecheckWindow(l: Limits, w: Window, pass: nat): Window
    requires pass > 0
  {
    var m := l.minCnx / pass;
    Window(Lesser(m, GRAB_MAX_SOCK_SAFE), Lesser(if w.max2 <= m then m * 2 else w.max2, GRAB_MAX_SOCK_SAFE))
  }

  lemma Shares(n: nat, k: nat)
    requires k > 0
    ensures 0 <= n / k <= n && (k >= 2 ==> 2 * (n / k) <= n)
  {
    var q, r := n / k, n % k;
    assert n == q * k + r;
    Multiple(q, 1, k);
    if k >= 2 { Multiple(q, 2, k); }
  }

  lemma Multiple(q: nat, a: nat, k: nat)
    requires a <= k
    ensures q * a <= q * k
  {
    assert q * k == q * a + q * (k - a);
  }

  /** Neither kind of pass change lets the window outgrow the table. */
  lemma PassWindows(l: Limits, w: Window, pass: nat, dropped: bool, rateLimited: bool)
    requires l.Ok() && InWindow(l, w) && w.max2 > 0 && pass > 0
    ensures InWindow(l, RetryWindow(l, w, pass, dropped, rateLimited))
    ensures RetryWindow(l, w, pass, dropped, rateLimited).max >= 1
    ensures InWindow(l, RecheckWindow(l, w, pass))
  {
    Shares(l.minCnx, pass + 1);
    Shares(l.minCnx, pass);
  }

  /** A retry of silent ports starts with a second limit of two, any retry with one. */
  lemma RetryWide(l: Limits, w: Window, pass: nat, dropped: bool, rateLimited: bool, silent: nat)
    requires Wide(w.max2, silent)
    ensures RetryWindow(l, w, pass, dropped, rateLimited).max2 >= if silent > 0 then 2 else 1
  {
  }

  // ----- limits too small for that -----

  /** The second limit after a round with the window at its minimum that drops sockets. */
  function AfterDrop(l: Limits, x: int): int { (l.minCnx + 3 * x) / 4 }

  lemma DropRound(l: Limits, x: int, filtered: int, unfiltered: int, n: nat, dropped: nat)
    requires l.Ok() && filtered <= dropped <= unfiltered && dropped > 0
    ensures Adjusted(l, Window(l.minCnx, x), filtered, unfiltered, n, dropped, 0)
         == (Window(l.minCnx, AfterDrop(l, x)), true)
  {
  }

  /** The second limit after `k` such rounds. */
  function Narrowed(l: Limits, x: int, k: nat): int
    decreases k
  {
    if k == 0 then x else Narrowed(l, AfterDrop(l, x), k - 1)
  }

  lemma NarrowedToMinimum(l: Limits, x: int) returns (k: nat)
    requires l.Ok() && x >= l.minCnx
    ensures Narrowed(l, x, k) == l.minCnx
    decreases x
  {
    if x == l.minCnx { return 0; }
    k := NarrowedToMinimum(l, AfterDrop(l, x));
    k := k + 1;
  }

  /** The second limit after `k` passes with such a round, each followed by a change without dropped sockets. */
  function Passed(l: Limits, x: int, k: nat): int
    decreases k
  {
    if k == 0 then x else Passed(l, Wear(AfterDrop(l, x)), k - 1)
  }

  /** Six is the least minimum at which a pass from a second limit of two gives back a second limit of two. */
  lemma SixIsLeast(l: Limits)
    requires l.Ok()
    ensures Passed(l, 2, 1) >= 2 <==> l.minCnx >= SAFE_MIN_CNX
  {
    assert Passed(l, 2, 1) == Wear(AfterDrop(l, 2));
  }

  /** Below it the window closes: enough rounds that drop sockets take the second limit down to the
      minimum, at most two more passes with such a round down to one, and the change after the next
      to nothing. */
  lemma WindowWearsOut(l: Limits) returns (rounds: nat, passes: nat)
    requires l.Ok() && l.minCnx < SAFE_MIN_CNX
    ensures Narrowed(l, l.maxCnx, rounds) == l.minCnx && passes <= 2
    ensures Wear(Passed(l, Wear(l.minCnx), passes)) == 0
  {
    rounds := NarrowedToMinimum(l, l.maxCnx);
    passes := if l.minCnx == 5 then 2 else if l.minCnx >= 3 then 1 else 0;
    if passes == 2 {
      assert Passed(l, 3, 2) == Passed(l, 2, 1) == Passed(l, 1, 0);
    } else if passes == 1 {
      assert Passed(l, 2, 1) == Passed(l, 1, 0);
    }
  }

  // ----- the limits a scan is started with -----

  const GRAB_MIN_SOCK := 32

  datatype Rlimit = Unavailable | Infinite | Current(n: nat)

  /** The descriptors of the system that one host may use; `freeFds` is zero or less when unknown. */
  function Share(maxHosts: int, freeFds: int): int {
    var hosts := if maxHosts <= 0 then 15 else maxHosts;
    var fds := if freeFds <= 0 then 16384 else freeFds;
    if fds < 1024 then GRAB_MIN_SOCK else (fds - 1024) / hosts
  }

  /** The most connections, of `n` wanted and `share` allowed. */
  function Most(n: int, share: int, safe: bool, rlim: Rlimit): int {
    var m0 := Greater(Lesser(Lesser(n, share), GRAB_MAX_SOCK), GRAB_MIN_SOCK);
    var m1 := if safe then Lesser(m0, GRAB_MAX_SOCK_SAFE) else m0;
    // the subtraction is unsigned: a limit of 0 wraps around and arrives as -1
    if rlim.Current? && m1 >= rlim.n then rlim.n - 1 else m1
  }

  /** Connection limits from the preferences, the load average, the free system
      descriptors and the descriptor limit of the process. */
  function ConnectionLimits(maxHosts: int, maxChecks: int, safe: bool, load: real, freeFds: int, rlim: Rlimit): Limits
    requires load >= 0.0
  {
    var checks := if maxChecks <= 0 || maxChecks > 5 then 5 else maxChecks;
    var wanted := if safe then 24 * checks else 80 * checks;
    var most := Most((wanted as real / (1.0 + load)).Floor, Share(maxHosts, freeFds), safe, rlim);
    var half := if most < 0 then 0x7fff_ffff else most / 2;
    Limits(if 8 * checks > half then Greater(half, 1) else 8 * checks, most)
  }

  method ComputeShare(maxHosts: int, freeFds: int) returns (x: int)
    ensures x == Share(maxHosts, freeFds)
  {
    var hosts, fds := maxHosts, freeFds;
    if hosts <= 0 { hosts := 15; }
    if fds <= 0 { fds := 16384; }
    if fds < 1024 {
      x := 32;
    } else {
      fds := fds - 1024;
      x := fds / hosts;
    }
  }

  method ComputeMost(n: int, x: int, safe: bool, rlim: Rlimit) returns (max: int)
    ensures max == Most(n, x, safe, rlim)
  {
    max := n;
    if max > x { max := x; }
    if max > 1024 { max := 1024; }
    if max < 32 { max := 32; }
    if safe && max > 128 { max := 128; }
    if rlim.Current? && max >= rlim.n { max := rlim.n - 1; }
  }

  /** The limits as they are computed before a scan. */
  method ChooseLimits(maxHosts: int, maxChecks: int, safe: bool, load: real, freeFds: int, rlim: Rlimit)
    returns (l: Limits)
    requires load >= 0.0
    ensures l == ConnectionLimits(maxHosts, maxChecks, safe, load, freeFds, rlim)
  {
    hide Share, Most;
    var checks := maxChecks;
    if checks <= 0 || checks > 5 { checks := 5; }
    var min, max := 8 * checks, 80 * checks;
    if safe { max := 24 * checks; }
    max := (max as real / (1.0 + load)).Floor;
    var x := ComputeShare(maxHosts, freeFds);
    max := ComputeMost(max, x, safe, rlim);
    x := if max < 0 then 0x7fff_ffff else max / 2;
    if min > x { min := if x > 0 then x else 1; }
    l := Limits(min, max);
  }

  /** On an idle machine with descriptors to spare. */
  lemma UsualLimits(maxHosts: int, checks: int, safe: bool, freeFds: int)
    requires 1 <= checks <= 5 && maxHosts > 0 && freeFds >= 1024 + 400 * maxHosts
    ensures ConnectionLimits(maxHosts, checks, safe, 0.0, freeFds, Infinite) ==
            Limits(8 * checks, if !safe then 80 * checks else if checks == 1 then 32 else 24 * checks)
  {
    var wanted := if safe then 24 * checks else 80 * checks;
    assert wanted as real / (1.0 + 0.0) == wanted as real;
    AtLeast(freeFds - 1024, maxHosts, 400);
  }

  lemma AtLeast(n: int, k: int, q: nat)
    requires k > 0 && n >= q * k
    ensures n / k >= q
  {
    if n / k < q { Multiple(k, n / k + 1, q); }
  }

  /** The window arithmetic is safe exactly when the process may have three descriptors. */
  lemma LimitsOk(maxHosts: int, maxChecks: int, safe: bool, load: real, freeFds: int, rlim: Rlimit)
    requires load >= 0.0
    ensures ConnectionLimits(maxHosts, maxChecks, safe, load, freeFds, rlim).Ok()
       <==> !(rlim.Current? && rlim.n < 3)
  {
  }

  /** The minimum is safe exactly when the process may have thirteen. */
  lemma SafeLimits(maxHosts: int, maxChecks: int, safe: bool, load: real, freeFds: int, rlim: Rlimit)
    requires load >= 0.0
    ensures var l := ConnectionLimits(maxHosts, maxChecks, safe, load, freeFds, rlim);
            l.Ok() && l.minCnx >= SAFE_MIN_CNX <==> !(rlim.Current? && rlim.n < 13)
  {
  }

  // ----- one attempt -----

  /** What the scanner makes of the answers to one attempt on port `p`. */
  function Attempted(v: Scan, p: int, fd: int, a: Attempt): Scan
    requires 0 <= p < |v.ports|
  {
    match a.socket
    case FileTableFull => Lose(v, p)
    case TooManyFiles => Lose(v, p)
    case SocketError => v
    case Descriptor(_) =>
      if fd >= FD_SETSIZE then Lose(v, p)
      else if !a.configured then v
      else
        match a.connect
        case InProgress => Launch(v, p, fd)
        case TryAgain => Lose(v, p)
        case Success => LaunchConnected(v, p, fd)
        case OtherError => v
        case _ => Hear(v, p, a.connect)
  }

  /** The answer to `connect` for a port already marked as being tested. */
  function Reached(t: Scan, p: int, fd: int, e: Errno): Scan
    requires 0 <= p < |t.ports|
  {
    match e
    case InProgress => t.(socks := t.socks + [Sock(fd, p, Opening)])
    case TryAgain => t.(lost := t.lost + {p})
    case Success => LaunchConnected(t, p, fd)
    case OtherError => t
    case _ => Hear(t, p, e)
  }

  lemma ReachedIsAttempted(v: Scan, p: int, fd: int, a: Attempt)
    requires 0 <= p < |v.ports| && a.socket.Descriptor? && fd < FD_SETSIZE && a.configured && a.connect != OtherError
    ensures Attempted(v, p, fd, a) == Reached(v.(ports := v.ports[p := Testing]), p, fd, a.connect)
  {
    var e := a.connect;
    assert v.ports[p := Testing][p := Verdict(e)] == v.ports[p := Verdict(e)];
  }

  /** Every recorded answer was given, every port lost met a resource error or the descriptor limit,
      and a port without an answer had a connection under way. */
  ghost predicate Grounded(rec: Record, v: Scan, overflown: bool) {
    && (forall p | p in v.replies :: Says(rec, p, v.replies[p]))
    && (forall p | p in v.lost :: Starved(rec, p) || overflown)
    && (forall p | 0 <= p < |v.ports| && v.ports[p] in {Testing, Silent} :: Says(rec, p, InProgress) || p in v.lost)
  }

  lemma StillGrounded(prior: Record, rec: Record, v: Scan, o: bool)
    requires Further(prior, rec) && Grounded(prior, v, o)
    ensures Grounded(rec, v, o)
  {
    hide Says, Starved;
    forall p, e | Says(prior, p, e) ensures Says(rec, p, e) { StillSays(prior, rec, p, e); }
    forall p | Starved(prior, p) ensures Starved(rec, p) { StillSays(prior, rec, p, Success); }
  }

  lemma AttemptedGrounded(rec: Record, v: Scan, p: int, fd: int, n: nat, o: bool)
    requires Grounded(rec, v, o) && 0 <= p < |v.ports| && (n, p) in rec.attempts && !Fatal(fd, rec.env.attempt(n, p))
    ensures var a := rec.env.attempt(n, p);
            Grounded(rec, Attempted(v, p, fd, a), o || (a.socket.Descriptor? && fd >= FD_SETSIZE))
  {
  }

  lemma AnsweredGrounded(rec: Record, v: Scan, i: nat, e: Errno, o: bool)
    requires Grounded(rec, v, o) && i < |v.socks| && 0 <= v.socks[i].port < |v.ports| && Says(rec, v.socks[i].port, e)
    ensures Grounded(rec, Answered(v, i, e), o)
  {
    hide Says, Starved;
  }

  lemma DroppedGrounded(rec: Record, v: Scan, i: nat, o: bool)
    requires Grounded(rec, v, o) && i < |v.socks| && 0 <= v.socks[i].port < |v.ports|
    requires v.socks[i].state == Opening ==> v.ports[v.socks[i].port] == Testing
    ensures Grounded(rec, Dropped(v, i), o)
  {
    hide Says, Starved;
  }

  /** Only an unkind answer or the descriptor limit ends the scan or changes the window. */
  lemma HarshAttempt(rec: Record, n: nat, p: int, w: Window, m: nat, fd: int)
    requires (n, p) in rec.attempts
    ensures var a := rec.env.attempt(n, p);
            (Fatal(fd, a) ==> Harsh(rec))
            && (WindowAfter(w, m, fd, a) == w || Harsh(rec) || (a.socket.Descriptor? && fd >= FD_SETSIZE))
  {
    assert Unkind(rec.env.attempt(n, p)) ==> Harsh(rec);
  }

  lemma SameGrounded(rec: Record, v: Scan, w: Scan, o: bool)
    requires Grounded(rec, v, o) && w.ports == v.ports && w.replies == v.replies && w.lost == v.lost
    ensures Grounded(rec, w, o)
  {
    hide Says, Starved;
  }

  lemma PassGrounded(rec: Record, v: Scan, o: bool)
    requires Grounded(rec, v, o)
    ensures Grounded(rec, NextPass(v), o) && Grounded(rec, RecheckPass(v), o)
  {
    hide Says, Starved;
  }

  /** Answers on which the scan gives up. */
  predicate Fatal(fd: int, a: Attempt) {
    match a.socket
    case SocketError => true
    case Descriptor(_) => fd < FD_SETSIZE && (!a.configured || a.connect == OtherError)
    case _ => false
  }

  lemma AttemptedKeeps(v: Scan, p: int, fd: int, a: Attempt)
    requires Inv(v) && 0 < p < PORTS && v.ports[p] == Unknown && FreshFd(v.socks, fd) && !Fatal(fd, a)
    ensures Inv(Attempted(v, p, fd, a)) && Measure(Attempted(v, p, fd, a)) < Measure(v)
    ensures Total(Attempted(v, p, fd, a)) == Total(v)
  {
    hide Inv, Grounded, Crowded, Measure;
    match a.socket
    case FileTableFull => LoseKeeps(v, p);
    case TooManyFiles => LoseKeeps(v, p);
    case Descriptor(_) =>
      if fd >= FD_SETSIZE || a.connect == TryAgain { LoseKeeps(v, p); }
      else if a.connect == InProgress { LaunchKeeps(v, p, fd); }
      else if a.connect == Success { LaunchConnectedKeeps(v, p, fd); }
      else { HearKeeps(v, p, a.connect); }
  }

  ghost function Total(v: Scan): int { v.unfiltered + v.filtered + v.untested }

  /** Within a pass verdicts are final and no port becomes untested. */
  ghost predicate Evolves(a: seq<PortState>, b: seq<PortState>) {
    && |a| == |b|
    && forall p | 0 <= p < |a| ::
         && (a[p] !in {Unknown, Testing} ==> b[p] == a[p])
         && (b[p] == Unknown ==> a[p] == Unknown)
         && (b[p] == NotTested ==> a[p] == NotTested)
  }

  lemma AttemptedEvolves(v: Scan, p: int, fd: int, a: Attempt)
    requires |v.ports| == PORTS && 0 < p < PORTS && v.ports[p] == Unknown && !Fatal(fd, a)
    ensures Evolves(v.ports, Attempted(v, p, fd, a).ports)
    ensures |Attempted(v, p, fd, a).socks| <= |v.socks| + 1
    ensures FreshFd(v.socks, fd) && Alive(v.socks) ==> Alive(Attempted(v, p, fd, a).socks)
    ensures var w := Attempted(v, p, fd, a);
            (w.filteredBefore, w.undecidedBefore, w.oldFiltered) == (v.filteredBefore, v.undecidedBefore, v.oldFiltered)
  {
  }

  lemma AttemptedSilent(v: Scan, p: int, fd: int, a: Attempt)
    requires 0 <= p < |v.ports| && v.ports[p] == Unknown
    ensures Num(Attempted(v, p, fd, a).ports, Silent) == Num(v.ports, Silent)
  {
  }

  lemma EvolvesTransitive(a: seq<PortState>, b: seq<PortState>, c: seq<PortState>)
    requires Evolves(a, b) && Evolves(b, c)
    ensures Evolves(a, c)
  {
  }

  /** What one step of a pass keeps: the invariant, the totals, the verdicts given. */
  ghost predicate Step(v: Scan, w: Scan) {
    && Inv(w) && Measure(w) <= Measure(v) && Total(w) == Total(v) && Evolves(v.ports, w.ports)
    && w.filteredBefore == v.filteredBefore && w.undecidedBefore == v.undecidedBefore && w.oldFiltered == v.oldFiltered
  }

  lemma NoStep(v: Scan)
    requires Inv(v)
    ensures Step(v, v)
  {
  }

  lemma StepTransitive(u: Scan, v: Scan, w: Scan)
    requires Step(u, v) && Step(v, w)
    ensures Step(u, w) && Measure(w) <= Measure(v) <= Measure(u)
  {
    hide Inv, Grounded, Crowded, Measure;
    EvolvesTransitive(u.ports, v.ports, w.ports);
  }

  lemma AttemptedSteps(v: Scan, p: int, fd: int, a: Attempt)
    requires Inv(v) && 0 < p < PORTS && v.ports[p] == Unknown && FreshFd(v.socks, fd) && !Fatal(fd, a)
    ensures Step(v, Attempted(v, p, fd, a)) && Measure(Attempted(v, p, fd, a)) < Measure(v)
    ensures |Attempted(v, p, fd, a).socks| <= |v.socks| + 1
    ensures Alive(v.socks) ==> Alive(Attempted(v, p, fd, a).socks)
    ensures Num(Attempted(v, p, fd, a).ports, Silent) == Num(v.ports, Silent)
  {
    hide Inv, Grounded, Crowded, Measure, Evolves, Attempted, Alive, Num;
    AllPorts(v);
    AttemptedKeeps(v, p, fd, a);
    AttemptedEvolves(v, p, fd, a);
    AttemptedSilent(v, p, fd, a);
  }

  lemma AllPorts(v: Scan)
    requires Inv(v)
    ensures |v.ports| == PORTS && v.ports[0] == NotTested
  {
  }

  ghost predicate Alive(socks: seq<Sock>) {
    forall i | 0 <= i < |socks| :: !Dead(socks[i])
  }

  lemma AnsweredSteps(v: Scan, i: nat, e: Errno)
    requires Inv(v) && i < |v.socks| && v.socks[i].state == Opening
    ensures 0 < v.socks[i].port < |v.ports|
    ensures Step(v, Answered(v, i, e)) && Measure(Answered(v, i, e)) < Measure(v)
    ensures Num(Answered(v, i, e).ports, Silent) == Num(v.ports, Silent)
  {
    hide Table, Counters, Evidence, Measure;
    SockPort(v, i);
    AnsweredKeeps(v, i, e);
  }

  lemma DroppedSteps(v: Scan, i: nat)
    requires Inv(v) && i < |v.socks| && v.socks[i].state != Unused
    ensures 0 < v.socks[i].port < |v.ports|
    ensures Step(v, Dropped(v, i)) && Measure(Dropped(v, i)) < Measure(v)
    ensures Num(Dropped(v, i).ports, Silent)
         == Num(v.ports, Silent) + if v.socks[i].state == Opening then 1 else 0
  {
    hide Table, Counters, Evidence, Measure;
    SockPort(v, i);
    DroppedKeeps(v, i);
  }

  /** Compaction after a step. */
  lemma CompactSteps(u: Scan, v: Scan)
    requires Step(u, v)
    ensures var w := v.(socks := Live(v.socks)); Step(u, w) && Alive(w.socks)
    ensures CountSocks(Live(v.socks), Opening) == CountSocks(v.socks, Opening)
    ensures CountSocks(Live(v.socks), Connected) == CountSocks(v.socks, Connected)
  {
    hide Inv, Grounded, Crowded, Measure, Live, CountSocks;
    CompactKeeps(v);
  }

  /** A port list as the port-range parser leaves it. */
  ghost predicate Marked(marks: seq<PortState>) {
    |marks| == PORTS && marks[0] == NotTested && forall p | 0 <= p < PORTS :: marks[p] in {Unknown, NotTested}
  }

  lemma FirstView(v: Scan)
    requires Marked(v.ports) && v.socks == [] && v.reported == [] && v.replies == map[] && v.lost == {}
    requires v.waiting == v.openNb == v.closedNb == v.unfiltered == v.filtered == 0
    requires v.filteredBefore == v.undecidedBefore == 0 && v.untested == Num(v.ports, Unknown)
    ensures Inv(v)
  {
    assert forall st :: st in v.ports ==> st in {Unknown, NotTested};
  }

  ghost predicate SameRequest(a: seq<PortState>, b: seq<PortState>) {
    |a| == |b| && forall p | 0 <= p < |a| :: a[p] == NotTested <==> b[p] == NotTested
  }
}
