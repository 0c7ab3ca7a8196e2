/** The TCP connect scanner: the opening loop, the select handling, the adaptive
    connection window, the compaction of the socket table and the passes. */
module ConnectScanner {
  import opened ScanHistory
  import opened ScanWaiting
  import opened ScanState
  import opened ScanWorld

  datatype Flow = More | Enough | GiveUp

  datatype RoundEnd = Again | PassOver | Failed

  /** A move of more than the table in use moves the table in use. */
  lemma Shorter(s: seq<Sock>, i: nat, j: nat, n: nat, end: nat, t: seq<Sock>)
    requires i <= j <= n <= end <= |s| && t == s[..i] + s[j..end]
    ensures t[..i + n - j] == s[..i] + s[j..n]
  {
  }

  class Scanner {
    const limits: Limits
    const env: Env
    const ports: array<PortState>
    const sockets: array<Sock>

    var openSockNb: int
    var window: Window
    var minport: int
    var waitSockNb: int
    var openPortsNb: int
    var closedPortsNb: int
    var unfilteredPortsNb: int
    var filteredPortsNb: int
    var untestedPortsNb: int
    var droppedFlag: bool
    var reported: seq<int>
    var asked: nat
    var oldFiltered: int

    ghost var replies: map<int, Errno>
    ghost var lost: set<int>
    ghost var filteredBefore: int
    ghost var undecidedBefore: nat
    ghost var overflown: bool
    ghost var known: Record
    ghost var due: set<int>

    constructor (marks: seq<PortState>, untested: int, limits: Limits, env: Env)
      requires Marked(marks) && untested == Num(marks, Unknown) && limits.Ok()
      ensures Valid() && openSockNb == 0 && window.max >= 1 && window.max2 > 0 && fresh(ports) && fresh(sockets)
      ensures ports[..] == marks && !overflown && this.env == env && this.limits == limits
      ensures known == Record(env, {}, map[], {}, {}) && due == {} && oldFiltered == -1
      ensures Begun(known, limits, marks, History([marks], false), View(), window.max2)
    {
      this.limits, this.env := limits, env;
      ports := new PortState[PORTS](i requires 0 <= i < |marks| => marks[i]);
      sockets := new Sock[GRAB_MAX_SOCK](_ => Sock(-1, 0, Unused));
      openSockNb, window, minport := 0, Window(limits.minCnx, limits.maxCnx), 1;
      waitSockNb, openPortsNb, closedPortsNb := 0, 0, 0;
      unfilteredPortsNb, filteredPortsNb, untestedPortsNb := 0, 0, untested;
      droppedFlag, oldFiltered := false, -1;
      reported, asked := [], 0;
      replies, lost, filteredBefore, undecidedBefore, overflown := map[], {}, 0, 0, false;
      known, due := Record(env, {}, map[], {}, {}), {};
      new;
      assert ports[..] == marks;
      FirstView(View());
      FirstBegun(known, limits, View());
    }

    ghost predicate Sized()
      reads this
    {
      ports.Length == PORTS && sockets.Length == GRAB_MAX_SOCK && 0 <= openSockNb <= sockets.Length
    }

    /** The scanner's memory as one value. */
    ghost function View(): Scan
      requires Sized()
      reads this, ports, sockets
    {
      Scan(ports[..], sockets[..openSockNb],
           waitSockNb, openPortsNb, closedPortsNb,
           unfilteredPortsNb, filteredPortsNb, untestedPortsNb,
           reported, replies, lost, filteredBefore, undecidedBefore, oldFiltered)
    }

    ghost predicate Sound()
      reads `known
    {
      known.env == env && OneAtATime(known)
    }

    ghost predicate Settled()
      requires Sized()
      reads this, ports, sockets
    {
      && limits.Ok() && InWindow(limits, window)
      && openSockNb <= limits.maxCnx
      && Sound() && Grounded(known, View(), overflown) && (overflown ==> Crowded(known, limits))
      && 1 <= minport <= PORTS
      && forall p | 1 <= p < minport :: ports[p] != Unknown
    }

    /** `due` are the descriptors that the last `select` reported and that have not been served. */
    ghost predicate Valid()
      reads this, ports, sockets
    {
      Sized() && Inv(View()) && Settled() && Numbered(known, asked) && Patient(known, View(), due)
    }

    /** Another question was asked, about which the reply to the sockets `late` is due. */
    ghost method Ask(rec: Record, late: set<int>)
      requires Sized() && Inv(View()) && Settled() && Further(known, rec) && OneAtATime(rec)
      requires Numbered(rec, asked) && Patient(rec, View(), late)
      modifies `known, `due
      ensures Valid() && known == rec && due == late && View() == old(View())
    {
      hide Inv, Grounded, Crowded, OneAtATime, Numbered, Patient;
      StillGrounded(known, rec, View(), overflown);
      StillHarsh(known, rec, limits);
      known, due := rec, late;
    }

    method SetPort(p: int, st: PortState)
      requires 0 <= p < ports.Length
      modifies ports
      ensures ports[..] == old(ports[..])[p := st]
    {
      ports[p] := st;
    }

    method SetSock(i: int, s: Sock)
      requires 0 <= i < sockets.Length
      modifies sockets
      ensures sockets[..] == old(sockets[..])[i := s]
    {
      sockets[i] := s;
    }

    /** Gives `p` a verdict and adjusts the counters. */
    method Conclude(p: int, st: PortState)
      requires Sized() && 0 <= p < PORTS && st in {Open, Closed, Rejected, Silent}
      modifies ports, `unfilteredPortsNb, `filteredPortsNb, `untestedPortsNb, `openPortsNb, `closedPortsNb, `reported
      ensures View() == Settle(old(View()), p, st)
    {
      SetPort(p, st);
      untestedPortsNb := untestedPortsNb - 1;
      if st == Open {
        unfilteredPortsNb := unfilteredPortsNb + 1;
        openPortsNb := openPortsNb + 1;
        reported := reported + [p];
      } else if st == Closed {
        unfilteredPortsNb := unfilteredPortsNb + 1;
        closedPortsNb := closedPortsNb + 1;
      } else {
        filteredPortsNb := filteredPortsNb + 1;
      }
    }

    /** Puts a socket at the end of the table. */
    method AddSock(s: Sock)
      requires Sized() && openSockNb < sockets.Length
      modifies sockets, `openSockNb
      ensures Sized() && View() == old(View()).(socks := old(View()).socks + [s])
    {
      ghost var n := openSockNb;
      SetSock(openSockNb, s);
      openSockNb := openSockNb + 1;
      assert sockets[..openSockNb] == old(sockets[..])[..n] + [s];
      assert old(sockets[..])[..n] == old(sockets[..openSockNb]);
    }

    /** The kernel's definitive answer about `p`. */
    method Heard(p: int, e: Errno)
      requires Sized() && 0 <= p < PORTS
      modifies this, ports
      ensures Sized() && View() == Hear(old(View()), p, e)
      ensures unchanged(`window, `minport, `openSockNb, `overflown, `asked, `droppedFlag, `known, `due)
    {
      Conclude(p, Verdict(e));
      replies := replies[p := e];
    }

    /** `connect` on the new descriptor `fd` of a port just marked as under test. */
    method Connect(p: int, fd: int, a: Attempt) returns (flow: Flow)
      requires Sized() && openSockNb < sockets.Length && 0 <= p < PORTS
      modifies this, ports, sockets
      ensures Sized() && unchanged(`minport, `overflown, `asked, `droppedFlag, `known, `due)
      ensures flow == GiveUp <==> a.connect == OtherError
      ensures flow == Enough ==> openSockNb > 0 && a.writable
      ensures a.connect != OtherError ==> View() == Reached(old(View()), p, fd, a.connect)
      ensures a.connect != TryAgain ==> window == old(window)
      ensures var n := old(openSockNb);
        a.connect == TryAgain ==> window == Window(n - Greater(n / 16, 1), n - Greater(n / 16, 1))
    {
      match a.connect {
        case InProgress =>
          AddSock(Sock(fd, p, Opening));
        case TryAgain =>
          var x := openSockNb - (if openSockNb / 16 > 0 then openSockNb / 16 else 1);
          window := Window(x, x);
          lost := lost + {p};
          return More;
        case Refused =>
          Heard(p, Refused);
          return More;
        case Unreachable =>
          Heard(p, Unreachable);
          return More;
        case OtherError =>
          return GiveUp;
        case Success =>
          AddSock(Sock(fd, p, Connected));
          Heard(p, Success);
          waitSockNb := waitSockNb + 1;
      }
      flow := if a.writable then Enough else More;
    }

    /** One attempt on port `p`. */
    method TryPort(p: int, a: Attempt) returns (flow: Flow)
      requires Sized() && 0 <= p < PORTS && openSockNb < sockets.Length
      modifies this, ports, sockets
      ensures Sized() && unchanged(`minport, `asked, `droppedFlag, `known, `due) && (old(overflown) ==> overflown)
      ensures var fd := FdFor(old(View()).socks, a);
        && (flow == GiveUp <==> Fatal(fd, a))
        && (flow == Enough ==> openSockNb > 0 && a.writable)
        && (!Fatal(fd, a) ==>
              && View() == Attempted(old(View()), p, fd, a)
              && window == WindowAfter(old(window), old(openSockNb), fd, a))
        && (overflown <==> old(overflown) || (a.socket.Descriptor? && fd >= FD_SETSIZE))
    {
      hide FdFor, Reached, Hear, LaunchConnected;
      var fd := FdFor(sockets[..openSockNb], a);
      ghost var v := View();
      SetPort(p, Testing);
      ghost var t := View();
      assert t == v.(ports := v.ports[p := Testing]);
      match a.socket {
        case FileTableFull =>
          window := Window(openSockNb / 2 - 1, openSockNb / 2 - 1);
          lost := lost + {p};
          return More;
        case TooManyFiles =>
          var x := openSockNb - (if openSockNb / 16 > 0 then openSockNb / 16 else 1);
          window := Window(x, x);
          lost := lost + {p};
          return More;
        case SocketError =>
          return GiveUp;
        case Descriptor(_) =>
          if fd >= FD_SETSIZE {
            window := Window(window.max - 1, window.max2 - 1);
            lost, overflown := lost + {p}, true;
            return More;
          }
          if !a.configured { return GiveUp; }
          flow := Connect(p, fd, a);
          if flow != GiveUp { ReachedIsAttempted(v, p, fd, a); }
      }
    }

    /** Tries `port`, the first untested one. */
    method TryNext(port: int) returns (flow: Flow)
      requires Valid() && Alive(View().socks) && openSockNb < window.max
      requires port == minport < PORTS && ports[port] == Unknown
      requires window.max >= 1 || window.max2 <= 0 || overflown
      requires due == {}
      modifies this, ports, sockets
      ensures Further(old(known), known) && Sound() && due == {}
      ensures (old(overflown) ==> overflown) && (overflown ==> Crowded(known, limits))
      ensures flow != GiveUp ==>
        && Valid() && Alive(View().socks) && Step(old(View()), View()) && Measure(View()) < old(Measure(View()))
        && (window.max >= 1 || window.max2 <= 0 || overflown)
        && (window.max2 == old(window.max2) || Harsh(known) || overflown)
        && Num(View().ports, Silent) == Num(old(View()).ports, Silent)
      ensures flow == GiveUp ==> Harsh(known)
      ensures flow == Enough ==> openSockNb > 0 && Notices(known, old(known), port)
    {
      hide Inv, Grounded, Crowded, Measure, Attempted, WindowAfter, Harsh, FdFor, Num, Numbered, Patient, Waits;
      var a := env.attempt(asked, port);
      ghost var n := asked;
      ghost var v, w, fd := View(), window, FdFor(View().socks, a);
      StartAttempt(known, n, v, port, fd);
      asked := asked + 1;
      Ask(Attempting(known, n, port, fd), {});
      flow := TryPort(port, a);
      HarshAttempt(known, n, port, w, |v.socks|, fd);
      if a.socket.Descriptor? && fd >= FD_SETSIZE { HighFd(known, limits, n, port, v.socks); }
      if flow != GiveUp {
        AttemptedSteps(v, port, fd, a);
        AttemptedGrounded(known, v, port, fd, n, old(overflown));
        AttemptedPatient(known, v, port, fd, a);
        WindowAfterAttempt(limits, w, |v.socks|, fd, a);
        assert View() == Attempted(v, port, fd, a);
        assert |View().socks| == openSockNb;
        assert forall p | 1 <= p < minport :: ports[..][p] != Unknown;
      }
    }

    /** The opening loop: fills the window with attempts on untested ports. */
    method OpenSockets() returns (ok: bool)
      requires Valid() && Alive(View().socks) && window.max >= 1 && due == {}
      modifies this, ports, sockets
      ensures ok ==> Valid() && Alive(View().socks) && Step(old(View()), View()) && due == {}
      ensures ok ==>
        || openSockNb >= window.max || (forall p | 1 <= p < PORTS :: ports[p] != Unknown)
        || exists p :: Notices(known, old(known), p)
      ensures ok ==> Num(View().ports, Silent) == Num(old(View()).ports, Silent)
      ensures ok && openSockNb == 0 && window.max2 > 0 && !overflown ==>
        forall p | 1 <= p < PORTS :: ports[p] != Unknown
      ensures Further(old(known), known) && Sound()
      ensures (old(overflown) ==> overflown) && (overflown ==> Crowded(known, limits))
      ensures !ok ==> Harsh(known)
      ensures window.max2 == old(window.max2) || Harsh(known) || overflown
    {
      hide Inv, Grounded, Crowded, Measure, Harsh, Num;
      ghost var v0 := View();
      while openSockNb < window.max
        invariant Valid() && Alive(View().socks) && Step(v0, View())
        invariant window.max >= 1 || window.max2 <= 0 || overflown
        invariant (old(overflown) ==> overflown) && Further(old(known), known) && due == {}
        invariant window.max2 == old(window.max2) || Harsh(known) || overflown
        invariant Num(View().ports, Silent) == Num(v0.ports, Silent)
        decreases Measure(View())
      {
        var port := minport;
        while port <= 65535 && ports[port] != Unknown
          invariant minport <= port <= PORTS
          invariant forall p | 1 <= p < port :: ports[p] != Unknown
        {
          port := port + 1;
        }
        minport := port;
        if port > 65535 { return true; }
        ghost var v, prior := View(), known;
        var flow := TryNext(port);
        StillHarsh(prior, known, limits);
        if flow == GiveUp { return false; }
        StepTransitive(v0, v, View());
        if flow == Enough {
          NoticesSince(known, prior, old(known), port);
          return true;
        }
      }
      return true;
    }

    /** Replaces entry `i` of the table in use. */
    method Replace(i: int, s: Sock)
      requires Sized() && 0 <= i < openSockNb
      modifies sockets
      ensures View() == old(View()).(socks := old(View()).socks[i := s])
    {
      SetSock(i, s);
      assert sockets[..][..openSockNb] == sockets[..openSockNb];
      assert old(sockets[..])[i := s][..openSockNb] == old(sockets[..openSockNb])[i := s];
    }

    /** Closes socket `i`; a port that never answered is silent. */
    method DropSock(i: int)
      requires Sized() && 0 <= i < openSockNb && 0 <= sockets[i].port < PORTS
      modifies this, ports, sockets
      ensures Sized() && View() == Dropped(old(View()), i)
      ensures unchanged(`window, `minport, `openSockNb, `overflown, `asked, `droppedFlag, `known, `due)
    {
      var s := sockets[i];
      Replace(i, s.(fd := -1, state := Unused));
      if s.state == Opening {
        Conclude(s.port, Silent);
      } else if s.state == Connected {
        waitSockNb := waitSockNb - 1;
      }
    }

    /** The pending error of socket `i`, whose descriptor is writable. */
    method AnswerSock(i: int, e: Errno)
      requires Sized() && 0 <= i < openSockNb && 0 <= sockets[i].port < PORTS
      modifies this, ports, sockets
      ensures Sized() && View() == Answered(old(View()), i, e)
      ensures unchanged(`window, `minport, `openSockNb, `overflown, `asked, `droppedFlag, `known, `due)
    {
      hide Answered, Hear;
      AnsweredIs(View(), i, e);
      var s := sockets[i];
      if e == Success {
        Replace(i, s.(state := Connected));
        waitSockNb := waitSockNb + 1;
      } else {
        Replace(i, s.(fd := -1, state := Unused));
      }
      Heard(s.port, e);
    }

    /** What closing or answering one socket leaves alone. */
    twostate predicate Touched(i: int)
      requires old(Sized()) && Sized()
      reads this, sockets
    {
      && unchanged(`window, `minport, `openSockNb, `overflown, `asked, `droppedFlag, `due)
      && forall k | 0 <= k < openSockNb && k != i :: sockets[k] == old(sockets[k])
    }

    method Close(i: int)
      requires Valid() && 0 <= i < openSockNb && sockets[i].state != Unused && asked in known.selects
      requires sockets[i].state == Opening ==> sockets[i].fd !in due
      modifies this, ports, sockets
      ensures Valid() && Step(old(View()), View()) && Measure(View()) < old(Measure(View()))
      ensures Touched(i) && sockets[i] == Shut(old(sockets[i])) && 0 <= sockets[i].port < PORTS
      ensures old(sockets[i]).state == Opening ==> ports[sockets[i].port] == Silent
      ensures replies == old(replies) && known == old(known)
      ensures Num(View().ports, Silent)
           == Num(old(View()).ports, Silent) + if old(sockets[i]).state == Opening then 1 else 0
      ensures forall st | st != Unused :: CountSocks(View().socks, st) ==
                CountSocks(old(View()).socks, st) - (if old(sockets[i]).state == st then 1 else 0)
    {
      hide Table, Counters, Evidence, Grounded, Crowded, Measure, Num, Patient;
      ghost var v := View();
      DroppedSteps(v, i);
      DroppedPatient(known, asked, v, i, due);
      SockPort(v, i);
      DroppedGrounded(known, v, i, overflown);
      DropSock(i);
      forall st | st != Unused
        ensures CountSocks(View().socks, st) == CountSocks(v.socks, st) - (if v.socks[i].state == st then 1 else 0)
      {
        CountUpdate(v.socks, i, Kill(v.socks, i)[i], st);
      }
      assert forall k | 0 <= k < openSockNb :: sockets[k] == View().socks[k];
      assert forall p | 0 <= p < PORTS :: ports[p] == View().ports[p];
    }

    method Answer(i: int, e: Errno)
      requires Valid() && 0 <= i < openSockNb && sockets[i].state == Opening && Says(known, sockets[i].port, e)
      modifies this, ports, sockets
      ensures Valid() && Step(old(View()), View()) && Measure(View()) < old(Measure(View()))
      ensures Touched(i) && View() == Answered(old(View()), i, e) && known == old(known)
      ensures Num(View().ports, Silent) == Num(old(View()).ports, Silent)
    {
      hide Inv, Grounded, Crowded, Measure, Patient;
      ghost var v := View();
      AnsweredSteps(v, i, e);
      AnsweredPatient(known, v, i, e, due);
      AnsweredGrounded(known, v, i, e, overflown);
      AnswerSock(i, e);
      assert forall k | 0 <= k < openSockNb :: sockets[k] == View().socks[k];
      assert forall p | 0 <= p < PORTS :: ports[p] == View().ports[p];
    }

    /** Nothing happened before the timeout: every socket is closed. */
    method CloseAll() returns (dropped: nat)
      requires Valid() && Alive(View().socks) && due == {} && asked in known.selects
      modifies this, ports, sockets
      ensures Valid() && Step(old(View()), View())
      ensures old(openSockNb) > 0 ==> Measure(View()) < old(Measure(View()))
      ensures unchanged(`window, `minport, `openSockNb, `overflown, `asked, `droppedFlag, `known, `due)
      ensures forall i | 0 <= i < openSockNb ::
        && sockets[i] == Shut(old(sockets[i])) && 0 <= sockets[i].port < PORTS
        && (old(sockets[i]).state == Opening ==> ports[sockets[i].port] == Silent)
      ensures replies == old(replies) && dropped == CountSocks(old(View()).socks, Opening)
      ensures Num(View().ports, Silent) == Num(old(View()).ports, Silent) + dropped
    {
      hide Inv, Settled, Measure, Num, Step, Patient, Numbered, CountSocks;
      ghost var v0 := View();
      NoStep(v0);
      dropped := 0;
      for i := 0 to openSockNb
        invariant Valid() && Step(v0, View())
        invariant i > 0 ==> Measure(View()) < Measure(v0)
        invariant unchanged(`window, `minport, `openSockNb, `overflown, `asked, `droppedFlag, `known, `due)
        invariant forall k | 0 <= k < i ::
          && sockets[k] == Shut(v0.socks[k]) && 0 <= sockets[k].port < PORTS
          && (v0.socks[k].state == Opening ==> ports[sockets[k].port] == Silent)
        invariant forall k | i <= k < openSockNb :: sockets[k] == v0.socks[k]
        invariant replies == old(replies)
        invariant dropped + CountSocks(View().socks, Opening) == CountSocks(v0.socks, Opening)
        invariant Num(View().ports, Silent) == Num(v0.ports, Silent) + dropped
      {
        ghost var v := View();
        assert !Dead(v0.socks[i]);
        if sockets[i].state == Opening { dropped := dropped + 1; }
        Close(i);
        Finality(v, View());
        StepTransitive(v0, v, View());
      }
      CountZero(View().socks, Opening);
    }

    /** Serves socket `i` if `select` reported its descriptor. */
    method Serve(i: int, wfs: set<int>, rfs: set<int>) returns (ok: bool)
      requires Valid() && 0 <= i < openSockNb && sockets[i].fd > 0 && asked in known.selects
      requires sockets[i].fd in wfs <==> sockets[i].state == Opening && Hit(env.select(asked), sockets[i])
      requires sockets[i].fd in rfs <==> sockets[i].state == Connected && Hit(env.select(asked), sockets[i])
      modifies this, ports, sockets
      ensures unchanged(`window, `minport, `openSockNb, `overflown, `asked, `droppedFlag, `due)
      ensures ok ==> Valid() && Step(old(View()), View()) && Touched(i)
      ensures asked in known.selects
      ensures ok ==> Polled(known, asked, true, old(sockets[i]), sockets[i], View().ports)
      ensures ok && Hit(env.select(asked), old(sockets[i])) ==> Measure(View()) < old(Measure(View()))
      ensures ok ==> Num(View().ports, Silent) == Num(old(View()).ports, Silent)
      ensures Further(old(known), known) && Sound() && (!ok ==> Harsh(known))
    {
      hide Table, Counters, Evidence, Grounded, Crowded, Measure, Num, Patient, Polled, Answered;
      ghost var v := View();
      UnusedFd(v, i);
      SockPort(v, i);
      if sockets[i].fd in wfs {
        var p := sockets[i].port;
        SamePatient(known, known.errors + {(asked, p)}, View(), due);
        Ask(known.(errors := known.errors + {(asked, p)}), due);
        match env.sockError(asked, p)
        case SockOptError => return false;
        case SockOpt(e) =>
          Answer(i, e);
          AnsweredPolled(known, asked, v, i, e);
          assert sockets[i] == View().socks[i];
      } else if sockets[i].fd in rfs {
        Close(i);
        ShutPolled(known, asked, v, i, View());
      } else {
        NotPolled(known, asked, v, i);
      }
      return true;
    }

    /** Serves the descriptors `select` reported: `wfs` of sockets being opened, `rfs` of connected ones. */
    method HandleReady(wfs: set<int>, rfs: set<int>) returns (ok: bool)
      requires Valid() && Alive(View().socks) && asked in known.selects && env.select(asked).Ready?
      requires wfs == Fds(View().socks, Opening) * env.select(asked).writable
      requires rfs == Fds(View().socks, Connected) * env.select(asked).readable
      modifies this, ports, sockets
      ensures unchanged(`window, `minport, `openSockNb, `overflown, `asked, `droppedFlag, `due)
      ensures ok ==> Valid() && Step(old(View()), View())
      ensures ok && Busy(env.select(asked), old(View()).socks) ==> Measure(View()) < old(Measure(View()))
      ensures asked in known.selects
      ensures ok ==> forall i | 0 <= i < openSockNb ::
        Polled(known, asked, true, old(View()).socks[i], View().socks[i], View().ports)
      ensures ok ==> Num(View().ports, Silent) == Num(old(View()).ports, Silent)
      ensures Further(old(known), known) && Sound() && (!ok ==> Harsh(known))
    {
      hide Inv, Grounded, Crowded, Measure, Harsh, Num, Step, InWindow, OneAtATime, Further, Patient, Numbered;
      hide Polled, Hit, Fds;
      ghost var v0 := View();
      NoStep(v0);
      NoFurther(known);
      for i := 0 to openSockNb
        invariant Valid() && Step(v0, View()) && Num(View().ports, Silent) == Num(v0.ports, Silent)
        invariant unchanged(`window, `minport, `openSockNb, `overflown, `asked, `droppedFlag, `due)
        invariant Further(old(known), known) && asked in known.selects
        invariant forall k | i <= k < openSockNb :: sockets[k] == v0.socks[k]
        invariant forall k | 0 <= k < i && Hit(env.select(asked), v0.socks[k]) :: Measure(View()) < Measure(v0)
        invariant forall k | 0 <= k < i :: Polled(known, asked, true, v0.socks[k], sockets[k], View().ports)
      {
        ghost var v, prior, table := View(), known, sockets[..];
        assert v0.socks[i] == sockets[i];
        LiveFd(v0, i);
        HitFd(v0, i, env.select(asked));
        if sockets[i].fd > 0 {
          ok := Serve(i, wfs, rfs);
          FurtherTransitive(old(known), prior, known);
          if !ok { return; }
          StepTransitive(v0, v, View());
          Finality(v, View());
          forall k | 0 <= k < i ensures Polled(known, asked, true, v0.socks[k], sockets[k], View().ports) {
            StillPolled(prior, known, asked, true, v0.socks[k], table[k], v.ports, View().ports);
          }
        }
      }
      return true;
    }

    /** Closes socket `i` if it has waited too long. */
    method ExpireSock(i: int) returns (dropped: nat, timeouts: nat)
      requires Valid() && due == {} && asked in known.selects && 0 <= i < openSockNb
      modifies this, ports, sockets
      ensures Valid() && Step(old(View()), View()) && Touched(i) && known == old(known)
      ensures dropped == CountSocks(old(View()).socks, Opening) - CountSocks(View().socks, Opening)
      ensures timeouts == CountSocks(old(View()).socks, Connected) - CountSocks(View().socks, Connected)
      ensures Num(View().ports, Silent) == Num(old(View()).ports, Silent) + dropped
      ensures TimedOut(env.expired(asked, i), old(sockets[i]), sockets[i], View().ports)
    {
      hide Inv, Settled, Measure, Num, Step, CountSocks, Patient, Numbered;
      dropped, timeouts := 0, 0;
      ghost var v := View();
      UnusedFd(v, i);
      NoStep(v);
      if sockets[i].fd >= 0 && env.expired(asked, i) {
        match sockets[i].state {
          case Connected => timeouts := timeouts + 1;
          case Opening => dropped := dropped + 1;
        }
        Close(i);
      }
    }

    /** Closes the sockets that have waited too long. */
    method Expire() returns (dropped: nat, timeouts: nat)
      requires Valid() && due == {} && asked in known.selects
      modifies this, ports, sockets
      ensures Valid() && Step(old(View()), View())
      ensures unchanged(`window, `minport, `openSockNb, `overflown, `asked, `droppedFlag, `known, `due)
      ensures dropped == CountSocks(old(View()).socks, Opening) - CountSocks(View().socks, Opening)
      ensures timeouts == CountSocks(old(View()).socks, Connected) - CountSocks(View().socks, Connected)
      ensures Num(View().ports, Silent) == Num(old(View()).ports, Silent) + dropped
      ensures AllTimedOut(env, asked, old(View()), View())
    {
      hide Inv, Settled, Measure, Num, Step, CountSocks, Patient, Numbered, TimedOut;
      ghost var v0 := View();
      NoStep(v0);
      dropped, timeouts := 0, 0;
      for i := 0 to openSockNb
        invariant Valid() && Step(v0, View())
        invariant unchanged(`window, `minport, `openSockNb, `overflown, `asked, `droppedFlag, `known, `due)
        invariant dropped + CountSocks(View().socks, Opening) == CountSocks(v0.socks, Opening)
        invariant timeouts + CountSocks(View().socks, Connected) == CountSocks(v0.socks, Connected)
        invariant Num(View().ports, Silent) == Num(v0.ports, Silent) + dropped
        invariant forall k | i <= k < openSockNb :: sockets[k] == v0.socks[k]
        invariant forall k | 0 <= k < i :: TimedOut(env.expired(asked, k), v0.socks[k], sockets[k], View().ports)
      {
        ghost var v, table := View(), sockets[..];
        var d, t := ExpireSock(i);
        dropped, timeouts := dropped + d, timeouts + t;
        Finality(v, View());
        StepTransitive(v0, v, View());
        forall k | 0 <= k < i ensures TimedOut(env.expired(asked, k), v0.socks[k], sockets[k], View().ports) {
          StillTimedOut(env.expired(asked, k), v0.socks[k], table[k], v.ports, View().ports);
        }
      }
    }

    /** memmove of the entries from `j` up to the table limit down to `i`. */
    method MoveDown(i: int, j: int, end: int)
      requires 0 <= i <= j <= end <= sockets.Length
      modifies sockets
      ensures sockets[..i + end - j] == old(sockets[..i]) + old(sockets[j..end])
    {
      ghost var kept := sockets[..i] + sockets[j..end];
      forall k | i <= k < i + end - j {
        sockets[k] := sockets[k + j - i];
      }
      assert forall k | 0 <= k < i + end - j :: sockets[k] == kept[k];
    }

    /** Cuts entries `i` to `j` out of the table. */
    method CloseGap(i: int, j: int)
      requires Sized() && 0 <= i <= j <= openSockNb <= limits.maxCnx <= GRAB_MAX_SOCK
      modifies `openSockNb, sockets
      ensures Sized() && openSockNb == old(openSockNb) - (j - i)
      ensures sockets[..openSockNb] == old(sockets[..i]) + old(sockets[j..openSockNb])
    {
      ghost var n, s := openSockNb, sockets[..];
      if j < openSockNb {
        MoveDown(i, j, limits.maxCnx);
        Shorter(s, i, j, n, limits.maxCnx, sockets[..i + limits.maxCnx - j]);
      } else {
        assert s[j..n] == [];
      }
      openSockNb := openSockNb - (j - i);
    }

    /** Packs the live sockets at the front of the table, in their order. */
    method Compact()
      requires Sized() && openSockNb <= limits.maxCnx <= GRAB_MAX_SOCK
      modifies `openSockNb, sockets
      ensures Sized() && openSockNb <= old(openSockNb)
      ensures sockets[..openSockNb] == Live(old(sockets[..openSockNb]))
    {
      ghost var s0 := sockets[..openSockNb];
      var i := 0;
      while i < openSockNb
        invariant 0 <= i <= openSockNb <= old(openSockNb)
        invariant forall k | 0 <= k < i :: !Dead(sockets[k])
        invariant Live(sockets[..openSockNb]) == Live(s0)
        decreases openSockNb - i
      {
        if Dead(sockets[i]) {
          var j := i + 1;
          while j < openSockNb && Dead(sockets[j])
            invariant i < j <= openSockNb
            invariant forall k | i <= k < j :: Dead(sockets[k])
          {
            j := j + 1;
          }
          ghost var a, d, b := sockets[..i], sockets[i..j], sockets[j..openSockNb];
          assert sockets[..openSockNb] == a + d + b;
          LiveCut(a, d, b);
          CloseGap(i, j);
          assert forall k | 0 <= k < i :: sockets[k] == sockets[..openSockNb][k] == a[k];
        } else {
          i := i + 1;
        }
      }
      LiveAll(sockets[..openSockNb]);
    }

    /** Asks `select` about the sockets in use. */
    ghost method AskSelect()
      requires Sized() && Inv(View()) && Settled() && due == {}
      requires asked > 0 && Numbered(known, asked - 1) && Patient(known, View(), {})
      modifies `known, `due
      ensures Valid() && View() == old(View()) && Further(old(known), known) && asked in known.selects
      ensures due == if env.select(asked).Ready? then env.select(asked).writable else {}
    {
      hide Inv, Grounded, Crowded, Numbered, Patient;
      ghost var late := if env.select(asked).Ready? then env.select(asked).writable else {};
      SelectPatient(known, asked, View(), late);
      Ask(known.(selects := known.selects + {asked}), late);
    }

    /** Waits for the sockets and serves what happened; counts the ports found silent. */
    method Poll() returns (ok: bool, dropped: nat)
      requires Valid() && Alive(View().socks) && openSockNb > 0 && due == {}
      modifies this, ports, sockets
      ensures unchanged(`window, `overflown) && Further(old(known), known) && Sound()
      ensures asked == old(asked) + 1 && asked in known.selects
      ensures ok ==> Valid() && Step(old(View()), View()) && Measure(View()) < old(Measure(View())) && !droppedFlag
      ensures ok ==> Num(View().ports, Silent) == Num(old(View()).ports, Silent) + dropped
      ensures ok ==> due == {} && env.select(asked).Ready? && AllPolled(known, asked, old(View()), View())
      ensures ok ==>
        dropped == if Busy(env.select(asked), old(View()).socks) then 0 else CountSocks(old(View()).socks, Opening)
      ensures !ok ==> Harsh(known)
    {
      hide Inv, Grounded, Crowded, Measure, Num, Step, Patient, Numbered, Further, OneAtATime, Polled, CountSocks, Hit;
      hide Alive, Busy, AllPolled, InWindow, Fds;
      var wfs, rfs := Fds(sockets[..openSockNb], Opening), Fds(sockets[..openSockNb], Connected);
      droppedFlag := false;
      ghost var v, known0 := View(), known;
      asked := asked + 1;
      AskSelect();
      ghost var prior := known;
      dropped := 0;
      match env.select(asked)
      case SelectError => ok := false;
      case Ready(w, r) =>
        AnyHit(v, w, r);
        if wfs * w == {} && rfs * r == {} {
          NoneDue(known, v, due);
          due := {};
          dropped := CloseAll();
          ok := true;
          AllShut(known, asked, v, View());
        } else {
          ok := HandleReady(wfs * w, rfs * r);
          FurtherTransitive(known0, prior, known);
          if ok {
            ServedNotDue(known, asked, v, View());
            NoneDue(known, View(), due);
            due := {};
          }
        }
    }

    /** The end of a round: expiry, window and compaction. */
    method Tidy(dropped: nat)
      requires Valid() && window.max2 > 0 && !droppedFlag && dropped <= Num(View().ports, Silent)
      requires due == {} && asked in known.selects
      modifies this, ports, sockets
      ensures Valid() && Alive(View().socks) && Step(old(View()), View()) && unchanged(`asked, `due)
      ensures exists t :: AllTimedOut(env, asked, old(View()), View().(socks := t)) && View().socks == Live(t)
      ensures window.max >= limits.minCnx && window.max2 > 0 && overflown == old(overflown) && known == old(known)
      ensures limits.minCnx >= SAFE_MIN_CNX && Wide(old(window.max2), old(Num(View().ports, Silent)) - dropped) ==>
        Wide(window.max2, Num(View().ports, Silent))
      ensures var late := CountSocks(old(View()).socks, Opening) - CountSocks(View().socks, Opening);
              var timeouts := CountSocks(old(View()).socks, Connected) - CountSocks(View().socks, Connected);
              late >= 0 && timeouts >= 0 &&
              (window, droppedFlag) ==
              Adjusted(limits, old(window), filteredPortsNb, unfilteredPortsNb, old(openSockNb),
                       dropped + late, timeouts)
    {
      hide Inv, Grounded, Crowded, Measure, Adjusted, Live, CountSocks, Step, Num, Wide, Patient, Numbered, TimedOut;
      ghost var v0 := View();
      var late, timeouts := Expire();
      ghost var v := View();
      CompactSteps(v0, v);
      if limits.minCnx >= SAFE_MIN_CNX && Wide(window.max2, Num(v0.ports, Silent) - dropped) {
        AdjustedWide(limits, window, filteredPortsNb, unfilteredPortsNb, openSockNb, dropped + late, timeouts,
                     Num(v0.ports, Silent) - dropped);
      }
      AdjustWindow(dropped + late, timeouts);
      Pack();
      assert View().(socks := v.socks) == v;
    }

    /** The window after a round. */
    method AdjustWindow(dropped: nat, timeouts: nat)
      requires Valid() && window.max2 > 0 && !droppedFlag
      modifies `window, `droppedFlag
      ensures Valid() && View() == old(View()) && window.max >= limits.minCnx && window.max2 > 0
      ensures (window, droppedFlag) ==
              Adjusted(limits, old(window), filteredPortsNb, unfilteredPortsNb, openSockNb, dropped, timeouts)
    {
      hide Inv, Grounded, Crowded, Adjusted, Patient, Numbered;
      AdjustedInWindow(limits, window, filteredPortsNb, unfilteredPortsNb, openSockNb, dropped, timeouts);
      Resize(dropped, timeouts);
    }

    method Resize(dropped: nat, timeouts: nat)
      requires openSockNb >= 0 && !droppedFlag
      modifies `window, `droppedFlag
      ensures (window, droppedFlag) ==
              Adjusted(limits, old(window), filteredPortsNb, unfilteredPortsNb, openSockNb, dropped, timeouts)
    {
      var max, max2 := window.max, window.max2;
      if dropped > 0 && dropped >= openSockNb * 3 / 4 && (dropped < filteredPortsNb || dropped > unfilteredPortsNb) {
        max := max + dropped;
        if max2 < limits.maxCnx { max2 := max2 + 1; }
      } else if dropped > 0 {
        droppedFlag := true;
        max := max - (dropped + 2) / 3;
        if max < limits.minCnx { max := limits.minCnx; }
        max2 := (max + 3 * max2) / 4;
      } else if droppedFlag {
        max := max + 1;
      }
      max := max + timeouts;
      if max > max2 { max := max2; }
      if max < limits.minCnx { max := limits.minCnx; }
      window := Window(max, max2);
    }

    /** Compaction keeps the invariant. */
    method Pack()
      requires Valid()
      modifies `openSockNb, sockets
      ensures Valid() && View() == old(View().(socks := Live(View().socks)))
    {
      hide Inv, Grounded, Crowded, Live, Patient, Numbered;
      ghost var v := View();
      Compact();
      CompactKeeps(v);
      LivePatient(known, v, due);
      SameGrounded(known, v, v.(socks := Live(v.socks)), overflown);
      assert View() == v.(socks := Live(v.socks));
    }

    /** A round from the call of `select` on. */
    method Turn() returns (ok: bool)
      requires Valid() && Alive(View().socks) && openSockNb > 0 && window.max2 > 0 && due == {}
      modifies this, ports, sockets
      ensures overflown == old(overflown) && Further(old(known), known) && Sound()
      ensures ok ==> Valid() && Alive(View().socks) && Step(old(View()), View())
      ensures ok ==> due == {} && asked == old(asked) + 1 && AllTurned(known, asked, old(View()), View())
      ensures ok ==> Measure(View()) < old(Measure(View())) && window.max >= 1 && window.max2 > 0
      ensures ok && limits.minCnx >= SAFE_MIN_CNX && Wide(old(window.max2), old(Num(View().ports, Silent))) ==>
        Wide(window.max2, Num(View().ports, Silent))
      ensures !ok ==> Harsh(known)
    {
      hide Inv, Grounded, Crowded, Measure, Harsh, Num, Wide, Step, Alive, InWindow, Further, OneAtATime;
      hide Patient, Numbered, AllPolled, AllTurned, AllTimedOut, Adjusted, Live, Evolves;
      ghost var v := View();
      var dropped;
      ok, dropped := Poll();
      if !ok { return; }
      ghost var w := View();
      Tidy(dropped);
      Finality(w, View());
      DistinctSocks(v);
      ghost var t :| AllTimedOut(env, asked, w, View().(socks := t)) && View().socks == Live(t);
      RoundTurned(known, asked, v, w, t, View());
      StepTransitive(v, w, View());
    }

    /** One round of a pass. */
    method Round() returns (r: RoundEnd)
      requires Valid() && Alive(View().socks) && window.max >= 1 && due == {}
      modifies this, ports, sockets
      ensures r != Failed ==> due == {} && Valid() && Step(old(View()), View()) && window.max2 > 0
      ensures r == Again ==>
        Alive(View().socks) && window.max >= 1 && Measure(View()) < old(Measure(View()))
      ensures r == PassOver ==>
        openSockNb == 0 && (!overflown ==> forall p | 1 <= p < PORTS :: ports[p] != Unknown)
      ensures (old(overflown) ==> overflown) && Further(old(known), known) && Sound()
      ensures r == Failed ==> Harsh(known) || Crowded(known, limits) || old(window.max2) <= 0
      ensures r != Failed && limits.minCnx >= SAFE_MIN_CNX && Wide(old(window.max2), old(Num(View().ports, Silent))) ==>
        Harsh(known) || Crowded(known, limits) || Wide(window.max2, Num(View().ports, Silent))
    {
      hide Inv, Grounded, Crowded, Measure, Harsh, Num, Wide, Step, Alive, InWindow, Further, OneAtATime;
      ghost var v0 := View();
      var ok := OpenSockets();
      if !ok || window.max2 <= 0 { return Failed; }
      if openSockNb == 0 { return PassOver; }
      ghost var v1, prior := View(), known;
      ok := Turn();
      StillHarsh(prior, known, limits);
      FurtherTransitive(old(known), prior, known);
      if !ok { return Failed; }
      StepTransitive(v0, v1, View());
      return Again;
    }

    /** One pass over the untested ports. */
    method Pass() returns (ok: bool, total: int)
      requires Valid() && openSockNb == 0 && window.max >= 1 && due == {}
      modifies this, ports, sockets
      ensures (old(overflown) ==> overflown) && Further(old(known), known) && Sound()
      ensures ok ==>
        && due == {} && Valid() && openSockNb == 0 && window.max2 > 0 && Step(old(View()), View())
        && total == Total(View()) && oldFiltered == old(oldFiltered)
        && (!overflown ==> forall p | 1 <= p < PORTS :: ports[p] != Unknown)
      ensures !ok ==> Harsh(known) || Crowded(known, limits) || old(window.max2) <= 0
      ensures ok && limits.minCnx >= SAFE_MIN_CNX && Wide(old(window.max2), old(Num(View().ports, Silent))) ==>
        Harsh(known) || Crowded(known, limits) || Wide(window.max2, Num(View().ports, Silent))
    {
      hide Inv, Grounded, Crowded, Measure, Harsh, Num, Wide;
      ghost var v0 := View();
      minport := 1;
      while true
        invariant Valid() && Alive(View().socks) && window.max >= 1 && Step(v0, View()) && due == {}
        invariant (old(overflown) ==> overflown) && Further(old(known), known)
        invariant window.max2 > 0 || old(window.max2) <= 0
        invariant limits.minCnx >= SAFE_MIN_CNX && Wide(old(window.max2), Num(v0.ports, Silent)) ==>
          Harsh(known) || Crowded(known, limits) || Wide(window.max2, Num(View().ports, Silent))
        decreases Measure(View())
      {
        total := unfilteredPortsNb + filteredPortsNb + untestedPortsNb;
        ghost var v, prior := View(), known;
        var r := Round();
        StillHarsh(prior, known, limits);
        if r == Failed { return false, total; }
        StepTransitive(v0, v, View());
        if r == PassOver { return true, total; }
      }
    }

    /** Makes every silent port untested again and counts them. */
    method RetrySilent() returns (n: nat)
      requires ports.Length == PORTS && ports[0] == NotTested
      modifies ports
      ensures ports[..] == Retry(old(ports[..])) && n == Num(old(ports[..]), Silent)
    {
      ghost var s := ports[..];
      n := 0;
      assert s[..1] == [NotTested];
      for p := 1 to PORTS
        invariant forall k | 0 <= k < p :: ports[k] == if s[k] == Silent then Unknown else s[k]
        invariant forall k | p <= k < PORTS :: ports[k] == s[k]
        invariant n == Num(s[..p], Silent)
      {
        assert s[..p + 1] == s[..p] + [s[p]];
        if ports[p] == Silent {
          ports[p] := Unknown;
          n := n + 1;
        }
      }
      assert s[..PORTS] == s;
    }

    /** No port is standard any more, so this only counts the ports still unknown. */
    method DoubleCheckStdPorts() returns (n: nat)
      requires ports.Length == PORTS && ports[0] == NotTested
      ensures n == Num(ports[..], Unknown)
    {
      ghost var s := ports[..];
      n := 0;
      assert s[..1] == [NotTested];
      for p := 1 to PORTS
        invariant n == Num(s[..p], Unknown)
      {
        assert s[..p + 1] == s[..p] + [s[p]];
        if ports[p] == Unknown { n := n + 1; }
      }
      assert s[..PORTS] == s;
    }

    /** The window of a pass that retries the silent ports. */
    method ShrinkWindow(pass: nat, rateLimited: bool)
      requires pass > 0
      modifies `window
      ensures window == RetryWindow(limits, old(window), pass, droppedFlag, rateLimited)
    {
      var max, max2 := limits.minCnx / (pass + 1), window.max2;
      if max < 1 { max := 1; }
      if !droppedFlag {
        max2 := max2 * 2;
        max2 := max2 / 3;
      } else if rateLimited {
        if max2 > GRAB_MAX_SOCK_SAFE { max2 := GRAB_MAX_SOCK_SAFE; }
        if max > GRAB_MAX_SOCK_SAFE { max := GRAB_MAX_SOCK_SAFE; }
      } else if max2 <= max {
        max2 := max * 2;
      }
      window := Window(max, max2);
    }

    /** The window of a pass over the ports left unknown. */
    method RecheckingWindow(pass: nat)
      requires pass > 0
      modifies `window
      ensures window == RecheckWindow(limits, old(window), pass)
    {
      var max, max2 := limits.minCnx / pass, window.max2;
      if max2 <= max { max2 := max * 2; }
      if max2 > GRAB_MAX_SOCK_SAFE { max2 := GRAB_MAX_SOCK_SAFE; }
      if max > GRAB_MAX_SOCK_SAFE { max := GRAB_MAX_SOCK_SAFE; }
      window := Window(max, max2);
    }

    /** The counters a pass starts with. */
    method StartPass(n: nat, ghost filtered: int, ghost undecided: nat)
      requires Sized()
      modifies `oldFiltered, `untestedPortsNb, `filteredPortsNb, `filteredBefore, `undecidedBefore
      ensures Sized() && View() == old(View()).(untested := n, filtered := 0, filteredBefore := filtered,
                                     undecidedBefore := undecided, oldFiltered := n)
    {
      oldFiltered, untestedPortsNb, filteredPortsNb := n, n, 0;
      filteredBefore, undecidedBefore := filtered, undecided;
    }

    /** Prepares the pass that retries the silent ports. */
    method PrepareRetry(pass: nat, rateLimited: bool)
      requires Valid() && openSockNb == 0 && window.max2 > 0 && pass > 0
      modifies ports, `minport, `untestedPortsNb, `filteredPortsNb, `window
      modifies `oldFiltered, `filteredBefore, `undecidedBefore
      ensures Valid() && window.max >= 1 && View() == NextPass(old(View()))
      ensures var silent := old(Num(View().ports, Silent));
              Wide(old(window.max2), silent) ==> window.max2 >= if silent > 0 then 2 else 1
    {
      hide Inv, Grounded, Crowded, Measure, RetryWindow, Num, NextPass, Patient, Numbered;
      ghost var v := View();
      AllPorts(v);
      NextPassKeeps(v);
      PassGrounded(known, v, overflown);
      PassPatient(known, v, due);
      PassWindows(limits, window, pass, droppedFlag, rateLimited);
      if Wide(window.max2, Num(v.ports, Silent)) {
        RetryWide(limits, window, pass, droppedFlag, rateLimited, Num(v.ports, Silent));
      }
      ShrinkWindow(pass, rateLimited);
      MakeUntested();
    }

    /** Every silent port is untested again, and the totals forget the others. */
    method MakeUntested()
      requires Sized() && ports[0] == NotTested
      modifies ports, `minport, `untestedPortsNb, `filteredPortsNb, `oldFiltered, `filteredBefore, `undecidedBefore
      ensures Sized() && minport == 1 && View() == NextPass(old(View()))
    {
      hide Num, Retry;
      ghost var v := View();
      minport := 1;
      var n := RetrySilent();
      StartPass(n, Num(v.ports, Rejected), Num(v.ports, Unknown) + Num(v.ports, Testing));
    }

    /** Prepares the pass over the ports left unknown; only the first pass leads here. */
    method PrepareRecheck(pass: nat, tbd: nat)
      requires Valid() && openSockNb == 0 && pass == 1 && window.max2 > 0 && tbd == Num(ports[..], Unknown)
      modifies `oldFiltered, `untestedPortsNb, `filteredPortsNb, `filteredBefore, `undecidedBefore, `window
      ensures Valid() && window.max >= 1 && View() == RecheckPass(old(View()))
    {
      hide Inv, Grounded, Crowded, Measure, Num, Patient, Numbered;
      ghost var v := View();
      RecheckPassKeeps(v);
      PassGrounded(known, v, overflown);
      PassPatient(known, v, due);
      PassWindows(limits, window, 1, false, false);
      StartPass(tbd, Num(v.ports, Silent) + Num(v.ports, Rejected), Num(v.ports, Testing));
      RecheckingWindow(pass);
    }

    /** The pass that has just ended, as far as the decision about another depends on it. */
    ghost function End(pass: nat, open1: int, closed1: int): Ending
      reads this
    {
      Ending(pass, open1, closed1, env.seconds(asked), env.seconds(asked + 1), droppedFlag, window.max2)
    }

    /** Filtered ports remain: is it worth retrying them? */
    method WorthRetrying(pass: nat, open1: int, closed1: int, m: Memory) returns (worth: bool, m': Memory)
      requires Sized() && ports[0] == NotTested
      modifies `asked
      ensures asked == old(asked) + 2
      ensures var e := old(End(pass, open1, closed1));
        && (worth <==> Worth(limits, View(), e, m))
        && (worth ==> m' == Recalled(limits, View(), e, m))
    {
      hide Num;
      var d1, d := env.seconds(asked), env.seconds(asked + 1);
      asked := asked + 2;
      m' := m;
      if m'.doublecheck && m'.rateLimits > 0 && openPortsNb == m'.openNb { return false, m'; }
      m' := m'.(openNb := openPortsNb, doublecheck := false);
      if filteredPortsNb == oldFiltered { return false, m'; }
      if pass > 1 && open1 == 0 && closed1 >= limits.minCnx && closed1 >= (d1 + 1) * 10 && closed1 < (d1 + 1) * 201
         && closedPortsNb >= (d + 1) * 10 && closedPortsNb < (d + 1) * 201 {
        var stop := window.max2 <= GRAB_MAX_SOCK_SAFE || m'.rateLimits > 0;
        if stop {
          var tbd := DoubleCheckStdPorts();
          if tbd > 0 {
            m' := m'.(doublecheck := true);
            stop := false;
          }
        }
        m' := m'.(rateLimits := m'.rateLimits + 1);
        if stop { return false, m'; }
      }
      return true, m';
    }

    /** Retries the silent ports if that is worth while. */
    method RetryIfWorth(pass: nat, open1: int, closed1: int, m: Memory) returns (again: bool, m': Memory)
      requires Valid() && openSockNb == 0 && window.max2 > 0 && pass > 0
      modifies this, ports
      ensures unchanged(`overflown, `known, `due, `openSockNb) && Valid() && (again ==> window.max >= 1)
      ensures var e := old(End(pass, open1, closed1));
        && (again <==> Worth(limits, old(View()), e, m))
        && (again ==> m' == Recalled(limits, old(View()), e, m))
      ensures View() == if again then NextPass(old(View())) else old(View())
      ensures var silent := old(Num(View().ports, Silent));
              again && Wide(old(window.max2), silent) ==> window.max2 >= if silent > 0 then 2 else 1
    {
      hide Inv, Grounded, Crowded, InWindow, Sound, Measure, NextPass, Worth, Recalled, Wide, Patient;
      AllPorts(View());
      again, m' := WorthRetrying(pass, open1, closed1, m);
      if again { PrepareRetry(pass, m'.rateLimits > 0); }
    }

    /** Rechecks the ports left unknown, if there are any. */
    method RecheckIfUnknown(pass: nat) returns (again: bool)
      requires Valid() && openSockNb == 0 && window.max2 > 0 && pass == 1
      modifies this
      ensures unchanged(`overflown, `known, `due, `openSockNb) && Valid() && (again ==> window.max >= 1)
      ensures again <==> Num(ports[..], Unknown) > 0
      ensures View() == if again then RecheckPass(old(View())) else old(View())
    {
      hide Inv, Grounded, Crowded, InWindow, Sound, Measure, RecheckPass, Num, Patient, Numbered;
      AllPorts(View());
      var tbd := DoubleCheckStdPorts();
      again := tbd > 0;
      if again { PrepareRecheck(pass, tbd); }
    }

    /** Decides whether another pass follows, and prepares it. */
    method EndPass(pass: nat, open1: int, closed1: int, m: Memory) returns (again: bool, m': Memory)
      requires Valid() && openSockNb == 0 && window.max2 > 0 && pass > 0
      modifies this, ports
      ensures unchanged(`overflown, `known, `due, `openSockNb) && Valid() && (again ==> window.max >= 1)
      ensures again <==> Continues(limits, old(View()), old(End(pass, open1, closed1)), m)
      ensures var w, e := old(View()), old(End(pass, open1, closed1));
        if !again then View() == w
        else if CallsForRetry(w, e) then
          && View() == NextPass(w) && w.filtered != w.oldFiltered && m' == Recalled(limits, w, e, m)
          && var silent := Num(w.ports, Silent);
             Wide(old(window.max2), silent) ==> window.max2 >= if silent > 0 then 2 else 1
        else View() == RecheckPass(w) && pass == 1 && Num(w.ports, Unknown) > 0 && m' == m.(doublecheck := true)
    {
      hide Inv, Settled, Measure, NextPass, RecheckPass, Recalled, LooksRateLimited, Wide, Patient, Numbered, Num;
      m' := m;
      if droppedFlag || (pass == 1 && filteredPortsNb > 10 && closedPortsNb > 10) || (pass > 1 && filteredPortsNb > 0) {
        again, m' := RetryIfWorth(pass, open1, closed1, m);
      } else if filteredPortsNb > 0 {
        m' := m'.(doublecheck := true);
        again := RecheckIfUnknown(pass);
      } else {
        again := false;
      }
    }

    /** The change to the next pass after the one that led from `v` here, if there is one. */
    method ChangePass(pass: nat, open0: int, closed0: int, m: Memory, ghost marks: seq<PortState>, ghost h: History,
                      ghost prior: Record, ghost v: Scan, ghost max2: int)
      returns (again: bool, m': Memory, ghost g: History)
      requires Valid() && openSockNb == 0 && window.max2 > 0 && due == {} && Inv(v) && open0 == v.openNb
      requires Further(prior, known) && Begun(prior, limits, marks, h, v, max2) && pass == |h.tables| > 0
      requires Step(v, View()) && Ended(known, limits, marks, h, View())
      requires limits.minCnx >= SAFE_MIN_CNX && Wide(max2, Num(v.ports, Silent)) ==>
        Harsh(known) || Crowded(known, limits) || Wide(window.max2, Num(View().ports, Silent))
      requires Remembers(m, h) && oldFiltered == h.Tested(pass - 1) && Justified(h)
      modifies this, ports
      ensures unchanged(`overflown, `known, `due, `openSockNb) && Valid()
      ensures !again ==> View() == old(View()) && g == h && NoReason(h, View().ports)
      ensures again ==>
        && window.max >= 1 && Begun(known, limits, marks, g, View(), window.max2)
        && |g.tables| == pass + 1 && g.tables[pass] == old(View()).ports
        && old(Total(View())) == PassTotal(g.tables[pass], g.FilteredBefore(pass - 1), g.UndecidedBefore(pass - 1))
        && (pass > 1 ==> View().untested == View().oldFiltered == Num(g.tables[pass], Silent))
      ensures again ==> Remembers(m', g) && oldFiltered == g.Tested(pass) && Justified(g)
    {
      hide Inv, Grounded, InWindow, Sound, Crowded, Measure, Harsh, Begun, Ended, Step, NextPass, RecheckPass, Num;
      hide Patient, Numbered, Continues, CallsForRetry, Recalled, Remembers, NoReason, Justified, Total, PassTotal;
      hide Wide, History.Start, History.Tested, History.Filtered, History.FilteredBefore, History.UndecidedBefore;
      ghost var w, mid := View(), window.max2;
      ghost var e := End(pass, openPortsNb - open0, closedPortsNb - closed0);
      EndCounts(known, limits, marks, h, w);
      EndedFacts(known, limits, marks, h, w);
      PassOpened(prior, limits, marks, h, v, max2);
      again, m' := EndPass(pass, openPortsNb - open0, closedPortsNb - closed0, m);
      g := h;
      if again {
        g := Changed(prior, known, limits, marks, h, v, max2, w, mid, View(), window.max2);
        NextRemembers(limits, h, w, e, m, m', View());
      } else {
        WhyOver(limits, h, w, e, m);
      }
    }

    /** One pass, and the change to the next if there is one. */
    method OnePass(pass: nat, m: Memory, ghost marks: seq<PortState>, ghost h: History)
      returns (ok: bool, again: bool, total: int, m': Memory, ghost g: History)
      requires Valid() && openSockNb == 0 && window.max >= 1 && due == {}
      requires Begun(known, limits, marks, h, View(), window.max2) && pass == |h.tables| > 0
      requires Remembers(m, h) && oldFiltered == h.Tested(pass - 1) && Justified(h)
      modifies this, ports, sockets
      ensures !ok ==> Harsh(known) || Crowded(known, limits) || old(window.max2) <= 0
      ensures Further(old(known), known) && Sound()
      ensures ok ==> Valid() && openSockNb == 0 && due == {}
      ensures ok && !again ==> AllLapsed(known, View().ports)
      ensures ok && again ==> |g.tables| > pass && AllLapsed(known, g.tables[pass])
      ensures ok && !again ==> NoReason(h, View().ports)
      ensures ok && again ==> Remembers(m', g) && oldFiltered == g.Tested(pass) && Justified(g)
      ensures ok && !again ==> g == h && Ended(known, limits, marks, h, View()) && total == Total(View())
      ensures ok && again ==> window.max >= 1 && Begun(known, limits, marks, g, View(), window.max2)
      ensures ok && again ==>
        && |g.tables| == pass + 1
        && total == PassTotal(g.tables[pass], g.FilteredBefore(pass - 1), g.UndecidedBefore(pass - 1))
        && (pass > 1 ==> View().untested == View().oldFiltered == Num(g.tables[pass], Silent))
    {
      hide Inv, Grounded, Crowded, Measure, Harsh, Begun, Ended, Step, NextPass, RecheckPass, Shrinks;
      hide AllLapsed, Waits, Numbered, Remembers, NoReason, Justified, History.Tested;
      g, again, m' := h, false, m;
      ghost var v, max2 := View(), window.max2;
      var open0, closed0 := openPortsNb, closedPortsNb;
      ok, total := Pass();
      if !ok { return; }
      ghost var w := View();
      PassIsOver(known, v, w, overflown, Crowded(known, limits));
      PassEnded(old(known), known, limits, marks, h, v, max2, w);
      again, m', g := ChangePass(pass, open0, closed0, m, marks, h, old(known), v, max2);
    }

    /** Up to sixteen passes. In a kind world the scan does not fail if the limits are not too small, and
        every change of pass but the first has found an answer for another port. */
    method Passes(ghost marks: seq<PortState>) returns (ok: bool, pass: nat, total: int, ghost h: History)
      requires Valid() && openSockNb == 0 && window.max >= 1 && due == {}
      requires Begun(known, limits, marks, History([marks], false), View(), window.max2) && oldFiltered == -1
      modifies this, ports, sockets
      ensures 1 <= pass <= MAX_PASS_NB + 1 && Further(old(known), known) && Sound()
      ensures !ok ==> Harsh(known) || Crowded(known, limits) || limits.minCnx < SAFE_MIN_CNX
      ensures ok ==> Valid() && openSockNb == 0 && |h.tables| == pass
      ensures ok ==> pass <= Num(marks, Unknown) + 2 || Harsh(known) || Crowded(known, limits)
      ensures ok ==> Justified(h) && (pass <= MAX_PASS_NB ==> NoReason(h, View().ports))
      ensures ok && pass <= MAX_PASS_NB ==> Ended(known, limits, marks, h, View()) && total == Total(View())
      ensures ok ==> AllLapsed(known, if pass > MAX_PASS_NB then h.tables[MAX_PASS_NB] else View().ports)
      ensures ok && pass > MAX_PASS_NB ==>
        && Begun(known, limits, marks, h, View(), window.max2)
        && View().untested == View().oldFiltered == Num(h.tables[MAX_PASS_NB], Silent)
        && total == PassTotal(h.tables[MAX_PASS_NB], h.FilteredBefore(MAX_PASS_NB - 1),
                              h.UndecidedBefore(MAX_PASS_NB - 1))
    {
      hide Inv, Grounded, Patient, Numbered, Measure, Harsh, Crowded, Begun, Ended, PassTotal, AllLapsed, NoReason;
      hide Justified, Remembers, History.Tested, History.FilteredBefore, History.UndecidedBefore;
      FirstRemembers(marks);
      var m := Memory(false, 0, -1);
      pass, total, h := 1, 0, History([marks], false);
      while pass <= MAX_PASS_NB
        invariant 1 <= pass == |h.tables| <= MAX_PASS_NB + 1 && Further(old(known), known)
        invariant Valid() && openSockNb == 0 && window.max >= 1 && due == {}
        invariant Begun(known, limits, marks, h, View(), window.max2)
        invariant pass > 1 ==> AllLapsed(known, h.tables[pass - 1])
        invariant Remembers(m, h) && oldFiltered == h.Tested(pass - 1) && Justified(h)
        invariant pass > 2 ==>
          && View().untested == View().oldFiltered == Num(h.tables[pass - 1], Silent)
          && total == PassTotal(h.tables[pass - 1], h.FilteredBefore(pass - 2), h.UndecidedBefore(pass - 2))
      {
        ghost var v, max2, prior := View(), window.max2, known;
        var again;
        ghost var g;
        ok, again, total, m, g := OnePass(pass, m, marks, h);
        KindBegun(prior, limits, marks, h, v, max2);
        StillHarsh(prior, known, limits);
        if !ok || !again { return; }
        h, pass := g, pass + 1;
      }
      KindBegun(known, limits, marks, h, View(), window.max2);
      return true, pass, total, h;
    }
  }

  // ----- the whole scan -----

  datatype Report =
    | Aborted
    | Finished(ports: seq<PortState>, passes: nat, exhausted: bool,
               openNb: int, closedNb: int, filteredNb: int, untestedNb: int,
               scanned: int, fullScan: bool, reported: seq<int>)

  /** What a report says about the ports asked for, given the history of the passes. */
  ghost predicate Faithful(rec: Record, l: Limits, marks: seq<PortState>, r: Report, h: History)
    requires r.Finished?
  {
    var n := |h.tables| - 1;
    && Chronicle(rec, marks, h, Crowded(rec, l))
    // exactly the requested ports were scanned
    && SameRequest(marks, r.ports)
    // every open port is reported, once
    && (forall p | 0 <= p < PORTS :: p in r.reported <==> r.ports[p] == Open)
    && (forall i, j | 0 <= i < j < |r.reported| :: r.reported[i] != r.reported[j])
    // the published counts
    && r.openNb == Num(r.ports, Open) && r.closedNb == Num(r.ports, Closed) && (r.fullScan <==> r.untestedNb <= 0)
    && if r.exhausted then
         // the last change of pass made the silent ports unknown again
         && n == r.passes == MAX_PASS_NB && r.ports == Retry(h.tables[n])
         && r.filteredNb == r.untestedNb == Num(h.tables[n], Silent)
         && r.scanned == PassTotal(h.tables[n], h.FilteredBefore(n - 1), h.UndecidedBefore(n - 1)) - r.untestedNb
       else
         && n + 1 == r.passes <= MAX_PASS_NB && PassEnds(rec, h.Start(n), r.ports, Crowded(rec, l))
         && r.filteredNb == Num(r.ports, Silent) + Num(r.ports, Rejected) - h.FilteredBefore(n)
         && r.untestedNb == Num(r.ports, Unknown) + Num(r.ports, Testing) - h.UndecidedBefore(n)
         && r.scanned == r.openNb + r.closedNb + r.filteredNb
  }

  /** Nothing takes a descriptor from the scan. */
  ghost predicate Unhindered(rec: Record, l: Limits) {
    !Crowded(rec, l) && forall p :: !Starved(rec, p)
  }

  /** The ports left over, by the states in the report: `crowded` tells that descriptors can run out. */
  ghost predicate Complete(rec: Record, r: Report, crowded: bool)
    requires r.Finished?
  {
    && Truthful(rec, r.ports, crowded)
    && (!crowded && !r.exhausted ==> Unknown !in r.ports)
    && (!crowded && r.exhausted ==>
          && r.filteredNb == Num(r.ports, Unknown)
          && forall p | 0 <= p < |r.ports| && r.ports[p] == Unknown :: Says(rec, p, InProgress))
    && (r.passes == 1 && !r.exhausted ==>
          && r.filteredNb == Num(r.ports, Silent) + Num(r.ports, Rejected)
          && r.untestedNb == Num(r.ports, Unknown) + Num(r.ports, Testing))
  }

  /** No port is silent at the end of the last pass whose socket `select` had reported. */
  ghost predicate Silence(rec: Record, r: Report, h: History)
    requires r.Finished?
  {
    if r.exhausted then |h.tables| > MAX_PASS_NB && AllLapsed(rec, h.tables[MAX_PASS_NB]) else AllLapsed(rec, r.ports)
  }

  /** Without resource errors the count of untested ports and the full-scan mark are exact. */
  ghost predicate Exact(r: Report)
    requires r.Finished?
  {
    && Testing !in r.ports && r.untestedNb == Num(r.ports, Unknown)
    && (r.fullScan <==> Unknown !in r.ports) && (!r.exhausted ==> r.fullScan)
  }

  lemma LastTable(rec: Record, marks: seq<PortState>, h: History, c: bool)
    requires Chronicle(rec, marks, h, c) && |h.tables| > 1
    ensures var e := h.tables[|h.tables| - 1]; PassEnds(rec, h.Start(|h.tables| - 2), e, c)
  {
  }

  lemma RetryTruthful(rec: Record, e: seq<PortState>, c: bool)
    requires Truthful(rec, e, c) && (!c ==> Unknown !in e)
    ensures Truthful(rec, Retry(e), c)
    ensures !c ==> Num(Retry(e), Unknown) == Num(e, Silent)
    ensures !c ==> forall p | 0 <= p < |Retry(e)| && Retry(e)[p] == Unknown :: Says(rec, p, InProgress)
  {
    hide Says, Starved;
    RetryCounts(e, Unknown);
    forall p | !c && 0 <= p < |e| && Retry(e)[p] == Unknown ensures Says(rec, p, InProgress) {
      assert e[p] in e;
    }
  }

  lemma ReportComplete(rec: Record, l: Limits, marks: seq<PortState>, r: Report, h: History)
    requires r.Finished? && Faithful(rec, l, marks, r, h)
    ensures Complete(rec, r, Crowded(rec, l))
  {
    hide Says, Starved, Crowded, Truthful, Retry, Evolves, Num;
    if r.exhausted {
      LastTable(rec, marks, h, Crowded(rec, l));
      RetryTruthful(rec, h.tables[MAX_PASS_NB], Crowded(rec, l));
    }
  }

  lemma NoTesting(rec: Record, end: seq<PortState>)
    requires Truthful(rec, end, false) && forall p :: !Starved(rec, p)
    ensures Testing !in end && Num(end, Testing) == 0
  {
    hide Says, Starved;
  }

  /** If no port is starved and the descriptors suffice, nothing is lost from the totals. */
  lemma ReportExact(rec: Record, l: Limits, marks: seq<PortState>, r: Report, h: History)
    requires r.Finished? && Faithful(rec, l, marks, r, h) && Unhindered(rec, l)
    ensures Exact(r)
  {
    hide Says, Starved, Crowded, Truthful, Retry, Evolves;
    var n := |h.tables| - 1;
    ReportComplete(rec, l, marks, r, h);
    NoTesting(rec, r.ports);
    if n > 0 {
      LastTable(rec, marks, h, false);
      NoTesting(rec, h.tables[n]);
    }
    assert Num(r.ports, Unknown) == 0 <==> Unknown !in r.ports;
  }

  /** The report drawn from a scan that holds the invariant is faithful. */
  lemma Published(rec: Record, l: Limits, marks: seq<PortState>, r: Report, h: History, v: Scan, total: int, max2: int)
    requires l.Ok() && Inv(v) && r.Finished? && h.tables != []
    requires r.ports == v.ports && r.openNb == v.openNb && r.closedNb == v.closedNb && r.reported == v.reported
    requires r.untestedNb == v.untested && (r.fullScan <==> v.untested <= 0) && r.scanned == total - v.untested
    requires r.passes == (if r.exhausted then |h.tables| - 1 else |h.tables|) && |h.tables| <= MAX_PASS_NB + 1
    requires !r.exhausted ==>
      Ended(rec, l, marks, h, v) && total == Total(v) && r.filteredNb == v.filtered && |h.tables| <= MAX_PASS_NB
    requires r.exhausted ==>
      && Begun(rec, l, marks, h, v, max2) && |h.tables| == MAX_PASS_NB + 1 && r.filteredNb == v.oldFiltered
      && v.untested == v.oldFiltered == Num(h.tables[MAX_PASS_NB], Silent)
      && total == PassTotal(h.tables[MAX_PASS_NB], h.FilteredBefore(MAX_PASS_NB - 1),
                            h.UndecidedBefore(MAX_PASS_NB - 1))
    ensures Faithful(rec, l, marks, r, h)
  {
    hide Table, Crowded, Harsh, Chronicle, PassEnds, Shrinks, PassTotal, Retry;
  }

  /** For every behaviour of the outside world. */
  method BannerGrab(marks: seq<PortState>, untested: int, limits: Limits, env: Env)
    returns (r: Report, ghost h: History, ghost rec: Record)
    requires Marked(marks) && untested == Num(marks, Unknown) && limits.Ok()
    ensures rec.env == env && OneAtATime(rec)
    ensures r.Aborted? ==> Harsh(rec) || Crowded(rec, limits) || limits.minCnx < SAFE_MIN_CNX
    ensures r.Finished? ==> Faithful(rec, limits, marks, r, h) && Complete(rec, r, Crowded(rec, limits))
    ensures r.Finished? && Unhindered(rec, limits) ==> Exact(r)
    ensures r.Finished? ==> r.passes <= Num(marks, Unknown) + 2 || Harsh(rec) || Crowded(rec, limits)
    ensures r.Finished? ==> Silence(rec, r, h)
    ensures r.Finished? ==> Justified(h) && (!r.exhausted ==> h.tables != [] && NoReason(h, r.ports))
  {
    hide Inv, Grounded, Measure, Faithful, Complete, Exact, Harsh, Crowded, Begun, Ended, PassTotal;
    hide AllLapsed, Waits, Numbered;
    var s := new Scanner(marks, untested, limits, env);
    var ok, pass, total;
    ok, pass, total, h := s.Passes(marks);
    rec := s.known;
    if !ok { return Aborted, h, rec; }
    var exhausted := pass > MAX_PASS_NB;
    r := Finished(s.ports[..], if exhausted then pass - 1 else pass, exhausted, s.openPortsNb, s.closedPortsNb,
                  if exhausted then s.oldFiltered else s.filteredPortsNb, s.untestedPortsNb,
                  total - s.untestedPortsNb, s.untestedPortsNb <= 0, s.reported);
    Published(rec, limits, marks, r, h, s.View(), total, s.window.max2);
    ReportComplete(rec, limits, marks, r, h);
    if Unhindered(rec, limits) { ReportExact(rec, limits, marks, r, h); }
  }
}
