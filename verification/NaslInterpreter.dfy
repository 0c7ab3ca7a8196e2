/** The interpreter's control flow: break, continue and return are flags of the
    current context, which every evaluation step has to respect. */
module NaslInterpreter {
  import opened NaslSemantics
  import opened Options

  /** A context of the call chain: pending return value, loop flags, names. */
  datatype Ctx = Ctx(ret: Option<Cell>, brk: bool, cont: bool, scope: Scope)

  function Scopes(s: seq<Ctx>): (r: seq<Scope>)
    ensures |r| == |s|
  {
    seq(|s|, i requires 0 <= i < |s| => s[i].scope)
  }

  function Rescope(s: seq<Ctx>, sc: seq<Scope>): (r: seq<Ctx>)
    requires |s| == |sc|
    ensures |r| == |s| && Scopes(r) == sc
  {
    seq(|s|, i requires 0 <= i < |s| => s[i].(scope := sc[i]))
  }

  predicate Looping(c: Ctx) { c.brk || c.cont }

  predicate Pending(c: Ctx) { c.ret.Some? || Looping(c) }

  function Top(s: seq<Ctx>): Ctx
    requires s != []
  {
    s[|s| - 1]
  }

  // ----- what holds of every context chain -----

  ghost predicate AtMostOne(c: Ctx) {
    !(c.ret.Some? && c.brk) && !(c.ret.Some? && c.cont) && !(c.brk && c.cont)
  }

  /** Function names are pairwise distinct along the chain and never those of built-ins. */
  ghost predicate DistinctNames(lib: Library, st: seq<Scope>) {
    && (forall i, f | 0 <= i < |st| && f in st[i].funs :: f !in lib.names)
    && (forall i, j, f | 0 <= i < j < |st| && f in st[i].funs :: f !in st[j].funs)
  }

  ghost predicate Chain(lib: Library, s: seq<Ctx>) {
    && s != []
    && (forall i | 0 <= i < |s| ::
          AtMostOne(s[i]) && s[i].ret != Some(Null) && (s[i].scope.isFunction <==> i > 0))
    && (forall i | 0 <= i < |s| - 1 :: !Looping(s[i]))
    && DistinctNames(lib, Scopes(s))
  }

  ghost predicate SameFlags(a: Ctx, b: Ctx) {
    a.brk == b.brk && a.cont == b.cont && a.scope.funs == b.scope.funs
  }

  /** Running anything in the current context leaves the loop flags and functions of its callers alone. */
  ghost predicate CallersKept(m: seq<Ctx>, n: seq<Ctx>) {
    |m| == |n| && forall i | 0 <= i < |m| - 1 :: SameFlags(m[i], n[i])
  }

  /** Evaluating an expression leaves the current loop flags and functions alone too. */
  ghost predicate FlagsKept(m: seq<Ctx>, n: seq<Ctx>) {
    |m| == |n| && forall i | 0 <= i < |m| :: SameFlags(m[i], n[i])
  }

  // ----- worlds and completions as flags -----

  function WorldOf(s: seq<Ctx>): (w: World)
    requires s != []
    ensures |w.st| == |s|
  {
    World(Scopes(s), Top(s).ret)
  }

  /** The chain `s` after something that led to the world `w`: the names are those of `w`, the
      loop flags did not change, and if there was an exit then every context returns its code,
      otherwise return values are as they were. */
  function Settled(s: seq<Ctx>, w: World): (r: seq<Ctx>)
    requires s != [] && |w.st| == |s|
    ensures |r| == |s| && WorldOf(r) == w
  {
    seq(|s|, i requires 0 <= i < |s| =>
      s[i].(scope := w.st[i], ret := if w.gone == Top(s).ret then s[i].ret else w.gone))
  }

  /** The chain whose current context carries the completion `comp`. */
  function Flagged(s: seq<Ctx>, comp: Completion): (r: seq<Ctx>)
    requires s != []
    ensures |r| == |s| && Scopes(r) == Scopes(s)
  {
    var n := |s| - 1;
    match comp
    case Normal(_) => s
    case Broke => s[n := s[n].(brk := true)]
    case Continued => s[n := s[n].(cont := true)]
    case Returned(c) => s[n := s[n].(ret := Some(c))]
  }

  function AllReturn(s: seq<Ctx>, c: Cell): seq<Ctx> {
    seq(|s|, i requires 0 <= i < |s| => s[i].(ret := Some(c)))
  }

  /** Sets the return value from context `i` up to the nearest function context. */
  function MarkReturn(s: seq<Ctx>, c: Cell, i: nat): seq<Ctx>
    requires i < |s|
    decreases i
  {
    var s1 := s[i := s[i].(ret := Some(c))];
    if s[i].scope.isFunction || i == 0 then s1 else MarkReturn(s1, c, i - 1)
  }

  // ----- what every step guarantees -----

  ghost predicate EvalAgrees(out: EvalOut, m: seq<Ctx>, ok: bool, c: Cell, n: seq<Ctx>)
    requires m != []
  {
    match out
    case EvalDry => !ok
    case EvalOut(w, cell) => ok && c == cell && |w.st| == |m| && n == Settled(m, w)
  }

  ghost predicate ExecAgrees(out: ExecOut, m: seq<Ctx>, ok: bool, c: Cell, n: seq<Ctx>)
    requires m != []
  {
    match out
    case ExecDry => !ok
    case ExecOut(w, comp) =>
      && ok && |w.st| == |m| && n == Flagged(Settled(m, w), comp)
      && (if comp.Normal? then c == comp.cell else c != Null)
  }

  /** Going from `m` to `n`, with cell `c`, is a correct evaluation of an expression with
      structured meaning `out`: the chain stays
      well formed, nothing happens while a completion is pending, and the outcome is that of
      the structured semantics. */
  ghost predicate Evaluated(lib: Library, out: EvalOut, m: seq<Ctx>, ok: bool, c: Cell, n: seq<Ctx>)
    requires m != []
  {
    && (ok ==> Chain(lib, n) && FlagsKept(m, n))
    && (Pending(Top(m)) ==> ok && n == m)
    && (!Looping(Top(m)) ==> EvalAgrees(out, m, ok, c, n))
  }

  /** The same for a statement with structured meaning `out`. */
  ghost predicate Executed(lib: Library, out: ExecOut, m: seq<Ctx>, ok: bool, c: Cell, n: seq<Ctx>)
    requires m != []
  {
    && (ok ==> Chain(lib, n) && CallersKept(m, n))
    && (Pending(Top(m)) ==> ok && n == m && c != Null)
    && (!Looping(Top(m)) ==> ExecAgrees(out, m, ok, c, n))
  }

  // ----- facts about chains -----

  lemma ChainFacts(lib: Library, s: seq<Ctx>)
    requires Chain(lib, s)
    ensures s != [] && Top(s).ret != Some(Null)
  {
  }

  lemma ScopesAt(s: seq<Ctx>)
    ensures forall k | 0 <= k < |s| :: Scopes(s)[k] == s[k].scope
  {
  }

  lemma Lengths(m: seq<Ctx>, n: seq<Ctx>)
    requires FlagsKept(m, n)
    ensures |m| == |n|
  {
  }

  lemma Unmoved(m: seq<Ctx>)
    ensures FlagsKept(m, m) && CallersKept(m, m) && (m != [] ==> Settled(m, WorldOf(m)) == m)
  {
  }

  lemma FlagsKeptTransitive(m: seq<Ctx>, n: seq<Ctx>, o: seq<Ctx>)
    requires FlagsKept(m, n) && FlagsKept(n, o)
    ensures FlagsKept(m, o)
  {
  }

  lemma CallersKeptTransitive(m: seq<Ctx>, n: seq<Ctx>, o: seq<Ctx>)
    requires CallersKept(m, n) && CallersKept(n, o)
    ensures CallersKept(m, o)
  {
  }

  lemma FlagsAndCallers(m: seq<Ctx>, n: seq<Ctx>)
    requires FlagsKept(m, n)
    ensures CallersKept(m, n)
  {
  }

  /** An expression sets no loop flag. */
  lemma StillCalm(m: seq<Ctx>, n: seq<Ctx>)
    requires m != [] && !Looping(Top(m)) && FlagsKept(m, n)
    ensures n != [] && !Looping(Top(n))
  {
  }

  /** Two steps in turn are one step to the second world: an exit is never undone. */
  lemma SettledTwice(m: seq<Ctx>, w1: World, w2: World)
    requires m != [] && |w1.st| == |w2.st| == |m|
    requires Top(m).ret.Some? ==> w1.gone == Top(m).ret
    requires w1.gone.Some? ==> w2.gone.Some?
    ensures Settled(Settled(m, w1), w2) == Settled(m, w2)
  {
  }

  lemma RescopeSettles(m: seq<Ctx>, st: seq<Scope>)
    requires m != [] && |st| == |m|
    ensures Rescope(m, st) == Settled(m, World(st, Top(m).ret))
  {
  }

  lemma Rescoped(lib: Library, m: seq<Ctx>, st: seq<Scope>)
    requires Chain(lib, m) && |st| == |m|
    requires forall k | 0 <= k < |st| ::
      st[k].funs == m[k].scope.funs && st[k].isFunction == m[k].scope.isFunction
    ensures Chain(lib, Rescope(m, st)) && FlagsKept(m, Rescope(m, st))
    ensures Rescope(m, st) == Settled(m, World(st, Top(m).ret))
  {
    RescopeSettles(m, st);
    assert forall k | 0 <= k < |st| :: Scopes(m)[k] == m[k].scope;
  }

  lemma PushChain(lib: Library, s: seq<Ctx>, sc: Scope)
    requires Chain(lib, s) && !Looping(Top(s)) && sc.isFunction && sc.funs == map[]
    ensures Chain(lib, s + [Ctx(None, false, false, sc)])
    ensures WorldOf(s + [Ctx(None, false, false, sc)]) == World(Scopes(s) + [sc], None)
  {
    assert Scopes(s + [Ctx(None, false, false, sc)]) == Scopes(s) + [sc];
  }

  /** Dropping the callee's context gives back the caller's chain. */
  lemma Popped(lib: Library, m: seq<Ctx>, sc: Scope, n: seq<Ctx>)
    requires Chain(lib, m) && Chain(lib, n) && CallersKept(m + [Ctx(None, false, false, sc)], n)
    ensures Chain(lib, n[..|m|]) && FlagsKept(m, n[..|m|])
  {
    var s1, s3 := m + [Ctx(None, false, false, sc)], n[..|m|];
    assert forall i | 0 <= i < |m| :: Scopes(s3)[i] == Scopes(n)[i] && s1[i] == m[i];
  }

  /** The world of the caller after its callee, started from the world `w`, led to `w2`. */
  function Back(w: World, w2: World): (r: World)
    requires |w2.st| == |w.st| + 1
    ensures |r.st| == |w.st|
  {
    World(w2.st[..|w.st|], if w2.gone.Some? then w2.gone else w.gone)
  }

  /** Of the flags a callee leaves behind only those of an exit reach its callers. */
  lemma CalleeFlags(out: ExecOut, m: seq<Ctx>, w: World, sc: Scope, c: Cell, o: seq<Ctx>)
    requires m != [] && Top(m).ret.None? && |w.st| == |m| && out.ExecOut?
    requires ExecAgrees(out, Settled(m, w) + [Ctx(None, false, false, sc)], true, c, o)
    ensures |o| == |m| + 1 && |out.w.st| == |m| + 1
    ensures o[..|m|] == Settled(m, Back(w, out.w))
    ensures Top(o).ret == if out.comp.Returned? then Some(out.comp.cell) else out.w.gone
  {
    var n1 := Settled(m, w) + [Ctx(None, false, false, sc)];
    assert Top(n1).ret == None;
    forall i | 0 <= i < |m| ensures o[i] == Settled(m, Back(w, out.w))[i] {
      assert o[i] == Settled(n1, out.w)[i] && n1[i] == Settled(m, w)[i];
    }
  }

  /** A return never reaches the caller's context. */
  lemma ReturnStops(lib: Library, m: seq<Ctx>, c: Cell)
    requires Chain(lib, m) && !Looping(Top(m)) && c != Null
    ensures var s := MarkReturn(m, c, |m| - 1);
            s == Flagged(m, Returned(c)) && Chain(lib, s) && CallersKept(m, s)
  {
    var s := MarkReturn(m, c, |m| - 1);
    assert Scopes(s) == Scopes(m);
  }

  /** Reads a completion off the flags of the current context. */
  lemma Outcome(out: ExecOut, m: seq<Ctx>, c: Cell, n: seq<Ctx>)
    requires m != [] && !Looping(Top(m)) && ExecAgrees(out, m, true, c, n)
    ensures out.ExecOut? && n != [] && |n| == |m| == |out.w.st| && Scopes(n) == out.w.st
    ensures Top(n).brk == out.comp.Broke? && Top(n).cont == out.comp.Continued?
    ensures Top(n).ret == if out.comp.Returned? then Some(out.comp.cell) else out.w.gone
    ensures if out.comp.Normal? then n == Settled(m, out.w) && WorldOf(n) == out.w && c == out.comp.cell else c != Null
  {
  }

  lemma Dryness(out: ExecOut, m: seq<Ctx>, c: Cell, n: seq<Ctx>)
    requires m != []
    ensures ExecAgrees(out, m, false, c, n) <==> out.ExecDry?
    ensures ExecAgrees(out, m, true, c, n) ==> out.ExecOut?
  {
  }

  /** A chain in which only names changed, or that is exiting, completes normally. */
  lemma NormalOutcome(m: seq<Ctx>, w: World, c: Cell)
    requires m != [] && |w.st| == |m|
    ensures ExecAgrees(ExecOut(w, Normal(c)), m, true, c, Settled(m, w))
  {
  }

  /** An outcome from the world a first step led to is an outcome of both. */
  lemma AgreesAfter(out: ExecOut, m: seq<Ctx>, w: World, ok: bool, c: Cell, o: seq<Ctx>)
    requires m != [] && Top(m).ret.None? && |w.st| == |m|
    requires out.ExecOut? && w.gone.Some? ==> out.w.gone.Some?
    requires ExecAgrees(out, Settled(m, w), ok, c, o)
    ensures ExecAgrees(out, m, ok, c, o)
  {
    if out.ExecOut? { SettledTwice(m, w, out.w); }
  }

  lemma AnyCell(out: ExecOut, m: seq<Ctx>, c: Cell, c': Cell, n: seq<Ctx>)
    requires m != [] && ExecAgrees(out, m, true, c, n) && out.ExecOut? && !out.comp.Normal?
    ensures c' != Null ==> ExecAgrees(out, m, true, c', n)
  {
  }

  lemma {:induction false} NotFound(st: seq<Scope>, f: string)
    requires FindFun(st, f).None?
    ensures forall i | 0 <= i < |st| :: f !in st[i].funs
  {
    if st != [] { NotFound(st[..|st| - 1], f); }
  }

  /** Nothing runs while a completion is pending. */
  lemma HeldBack(lib: Library, e: Expr, s: Stmt, fuel: nat, m: seq<Ctx>, c: Cell)
    requires Chain(lib, m) && Pending(Top(m)) && c == if Top(m).ret.Some? then Top(m).ret.value else Fake
    ensures Evaluated(lib, Eval(lib, e, WorldOf(m), fuel), m, true, c, m)
    ensures Executed(lib, Exec(lib, s, WorldOf(m), fuel), m, true, c, m)
  {
    hide Chain, FlagsKept, CallersKept, Settled, Eval, Exec;
    ChainFacts(lib, m);
    Unmoved(m);
  }

  // ----- one lemma per kind of expression -----

  lemma VarDone(lib: Library, x: string, fuel: nat, m: seq<Ctx>)
    requires Chain(lib, m) && !Pending(Top(m))
    ensures var st := Resolve(Scopes(m), x);
            Evaluated(lib, Eval(lib, Var(x), WorldOf(m), fuel), m, true, st[Find(Scopes(m), x)].vars[x], Rescope(m, st))
  {
    Rescoped(lib, m, Resolve(Scopes(m), x));
  }

  lemma AssignDone(lib: Library, x: string, rhs: Expr, fuel: nat, m: seq<Ctx>, ok: bool, c: Cell, n: seq<Ctx>)
    requires Chain(lib, m) && !Pending(Top(m))
    requires var m1 := Rescope(m, Resolve(Scopes(m), x));
             Evaluated(lib, Eval(lib, rhs, WorldOf(m1), fuel), m1, ok, c, n)
    ensures !ok ==> Evaluated(lib, Eval(lib, Assign(x, rhs), WorldOf(m), fuel), m, ok, c, n)
    ensures ok ==> |n| == |m|
    ensures ok ==>
      Evaluated(lib, Eval(lib, Assign(x, rhs), WorldOf(m), fuel), m, ok, c,
                Rescope(n, Put(Scopes(n), Find(Scopes(m), x), x, c)))
  {
    hide Chain, FlagsKept, Scopes, Resolve, Find, Put, Settled, Rescope;
    ChainFacts(lib, m);
    var st := Resolve(Scopes(m), x);
    assert forall k | 0 <= k < |m| :: Scopes(m)[k] == m[k].scope by { ScopesAt(m); }
    Rescoped(lib, m, st);
    var m1 := Rescope(m, st);
    StillCalm(m, m1);
    if ok {
      Lengths(m1, n);
      assert forall k | 0 <= k < |n| :: Scopes(n)[k] == n[k].scope by { ScopesAt(n); }
      var st2 := Put(Scopes(n), Find(Scopes(m), x), x, c);
      Rescoped(lib, n, st2);
      FlagsKeptTransitive(m, m1, n);
      FlagsKeptTransitive(m, n, Rescope(n, st2));
      SettledTwice(m, WorldOf(m1), WorldOf(n));
      SettledTwice(m, WorldOf(n), World(st2, Top(n).ret));
    }
  }

  /** Two operands in turn. */
  lemma PairDone(lib: Library, l: Expr, r: Expr, fuel: nat, m: seq<Ctx>, c1: Cell, n: seq<Ctx>,
                 ok: bool, c2: Cell, o: seq<Ctx>)
    requires m != [] && !Pending(Top(m)) && n != []
    requires Evaluated(lib, Atom(lib, l, WorldOf(m), fuel), m, true, c1, n)
    requires Evaluated(lib, Atom(lib, r, WorldOf(n), fuel), n, ok, c2, o)
    ensures ok ==> Chain(lib, o) && FlagsKept(m, o)
    ensures var out := Atom(lib, l, WorldOf(m), fuel);
      && out.EvalOut? && out.cell == c1 && out.w.st != []
      && EvalAgrees(Atom(lib, r, out.w, fuel), m, ok, c2, o)
  {
    hide Chain, FlagsKept, Atom, Settled;
    StillCalm(m, n);
    if ok {
      FlagsKeptTransitive(m, n, o);
      SettledTwice(m, WorldOf(n), WorldOf(o));
    }
  }

  lemma PrimDone(lib: Library, op: nat, l: Expr, r: Expr, fuel: nat, m: seq<Ctx>, c1: Cell, n: seq<Ctx>,
                 ok: bool, c2: Cell, o: seq<Ctx>)
    requires m != [] && !Pending(Top(m)) && n != []
    requires Evaluated(lib, Atom(lib, l, WorldOf(m), fuel), m, true, c1, n)
    requires Evaluated(lib, Atom(lib, r, WorldOf(n), fuel), n, ok, c2, o)
    ensures Evaluated(lib, Eval(lib, Prim(op, l, r), WorldOf(m), fuel), m, ok, lib.prim(op, c1, c2), o)
  {
    hide Chain, FlagsKept, Settled, Atom;
    PairDone(lib, l, r, fuel, m, c1, n, ok, c2, o);
  }

  lemma AndDone(lib: Library, l: Expr, r: Expr, fuel: nat, m: seq<Ctx>, c1: Cell, n: seq<Ctx>,
                ok: bool, c2: Cell, o: seq<Ctx>)
    requires m != [] && !Pending(Top(m)) && n != []
    requires Evaluated(lib, Atom(lib, l, WorldOf(m), fuel), m, true, c1, n)
    requires Truth(c1) ==> Evaluated(lib, Atom(lib, r, WorldOf(n), fuel), n, ok, c2, o)
    ensures if Truth(c1) then Evaluated(lib, Eval(lib, And(l, r), WorldOf(m), fuel), m, ok, FromBool(Truth(c2)), o)
            else Evaluated(lib, Eval(lib, And(l, r), WorldOf(m), fuel), m, true, FromBool(false), n)
  {
    hide Chain, FlagsKept, Settled, Atom;
    if Truth(c1) { PairDone(lib, l, r, fuel, m, c1, n, ok, c2, o); }
  }

  lemma OrDone(lib: Library, l: Expr, r: Expr, fuel: nat, m: seq<Ctx>, c1: Cell, n: seq<Ctx>,
               ok: bool, c2: Cell, o: seq<Ctx>)
    requires m != [] && !Pending(Top(m)) && n != []
    requires Evaluated(lib, Atom(lib, l, WorldOf(m), fuel), m, true, c1, n)
    requires !Truth(c1) ==> Evaluated(lib, Atom(lib, r, WorldOf(n), fuel), n, ok, c2, o)
    ensures if !Truth(c1) then Evaluated(lib, Eval(lib, Or(l, r), WorldOf(m), fuel), m, ok, FromBool(Truth(c2)), o)
            else Evaluated(lib, Eval(lib, Or(l, r), WorldOf(m), fuel), m, true, FromBool(true), n)
  {
    hide Chain, FlagsKept, Settled, Atom;
    if !Truth(c1) { PairDone(lib, l, r, fuel, m, c1, n, ok, c2, o); }
  }

  lemma NotDone(lib: Library, a: Expr, fuel: nat, m: seq<Ctx>, ok: bool, c: Cell, n: seq<Ctx>)
    requires m != [] && !Pending(Top(m)) && Evaluated(lib, Eval(lib, a, WorldOf(m), fuel), m, ok, c, n)
    ensures Evaluated(lib, Eval(lib, Not(a), WorldOf(m), fuel), m, ok, FromBool(!Truth(c)), n)
  {
    hide Chain, FlagsKept, Settled;
  }

  /** An expression one of whose operands did not finish. */
  lemma OperandDry(lib: Library, e: Expr, l: Expr, fuel: nat, m: seq<Ctx>, c: Cell, n: seq<Ctx>, c': Cell)
    requires m != [] && !Pending(Top(m)) && Evaluated(lib, Atom(lib, l, WorldOf(m), fuel), m, false, c, n)
    requires match e case Prim(_, a, _) => l == a case And(a, _) => l == a case Or(a, _) => l == a case _ => false
    ensures Evaluated(lib, Eval(lib, e, WorldOf(m), fuel), m, false, c', n)
  {
    hide Chain, FlagsKept, Settled, Atom;
  }

  // ----- calls -----

  /** The same for binding the arguments of a call into `sc`; `r` is None after a binding error. */
  ghost predicate Bound(lib: Library, args: Args, sc: Scope, fuel: nat, m: seq<Ctx>, ok: bool, r: Option<Scope>,
                        n: seq<Ctx>)
    requires m != []
  {
    && (ok ==> Chain(lib, n) && FlagsKept(m, n))
    && (ok && r.Some? ==> r.value.isFunction == sc.isFunction && r.value.funs == sc.funs)
    && (!Looping(Top(m)) ==>
          match EvalArgs(lib, args, sc, WorldOf(m), fuel)
          case ArgsDry => !ok
          case ArgsOut(w, sc1) => ok && r == sc1 && |w.st| == |m| && n == Settled(m, w))
  }

  lemma NoArgsDone(lib: Library, sc: Scope, fuel: nat, m: seq<Ctx>)
    requires Chain(lib, m)
    ensures Bound(lib, NoArgs, sc, fuel, m, true, Some(sc), m)
  {
    hide Chain, FlagsKept;
    ChainFacts(lib, m);
    Unmoved(m);
  }

  lemma ArgDone(lib: Library, args: Args, sc: Scope, fuel: nat, m: seq<Ctx>, ok1: bool, c: Cell, n: seq<Ctx>,
                ok: bool, r: Option<Scope>, o: seq<Ctx>)
    requires args.Arg? && m != [] && Evaluated(lib, Atom(lib, args.value, WorldOf(m), fuel), m, ok1, c, n)
    requires var sc1 := Bind(sc, args.name, c);
      ok1 && sc1.Some? ==> n != [] && Bound(lib, args.next, sc1.value, fuel, n, ok, r, o)
    ensures !ok1 ==> Bound(lib, args, sc, fuel, m, false, None, n)
    ensures ok1 && Bind(sc, args.name, c).None? ==> Bound(lib, args, sc, fuel, m, true, None, n)
    ensures ok1 && Bind(sc, args.name, c).Some? ==> Bound(lib, args, sc, fuel, m, ok, r, o)
  {
    hide Chain, FlagsKept, Settled, Atom;
    if ok1 && Bind(sc, args.name, c).Some? {
      if !Looping(Top(m)) { StillCalm(m, n); }
      if ok {
        FlagsKeptTransitive(m, n, o);
        if !Looping(Top(m)) { SettledTwice(m, WorldOf(n), WorldOf(o)); }
      }
    }
  }

  /** The body of `f` ran in the context `sc` chained to `n`, and left the chain `o`. */
  lemma BodyDone(lib: Library, body: Stmt, w: World, sc: Scope, fuel: nat, m: seq<Ctx>, n: seq<Ctx>, c: Cell,
                 o: seq<Ctx>)
    requires m != [] && !Pending(Top(m)) && |w.st| == |m| && n == Settled(m, w)
    requires Chain(lib, n) && !Looping(Top(n)) && sc.isFunction && sc.funs == map[]
    requires var n1 := n + [Ctx(None, false, false, sc)];
      Executed(lib, Exec(lib, body, WorldOf(n1), fuel), n1, true, c, o)
    ensures |o| == |n| + 1 && Chain(lib, o[..|n|]) && FlagsKept(n, o[..|n|])
    ensures var out := Exec(lib, body, World(w.st + [sc], None), fuel);
      && out.ExecOut? && |out.w.st| == |w.st| + 1 && o[..|n|] == Settled(m, Back(w, out.w))
      && CallValue(out.comp, out.w.gone) == if Top(o).ret.Some? then Top(o).ret.value else Fake
  {
    hide Exec, DistinctNames, Settled, Chain, CallersKept, FlagsKept, ExecAgrees;
    var n1 := n + [Ctx(None, false, false, sc)];
    PushChain(lib, n, sc);
    var out := Exec(lib, body, World(w.st + [sc], None), fuel);
    Dryness(out, n1, c, o);
    Popped(lib, n, sc, o);
    CalleeFlags(out, m, w, sc, c, o);
  }

  /** A call whose arguments were bound, up to its function: the built-in's result or an error. */
  lemma CallDone(lib: Library, f: string, args: Args, fuel: nat, m: seq<Ctx>, r: Option<Scope>, n: seq<Ctx>)
    requires Chain(lib, m) && !Pending(Top(m))
    requires Bound(lib, args, FreshScope(lib), fuel, m, true, r, n)
    requires FindFun(Scopes(m), f).Some? || f in lib.names
    ensures var def := FindFun(Scopes(m), f); var e := Call(f, args);
      && (r.None? ==> Evaluated(lib, Eval(lib, e, WorldOf(m), fuel), m, true, Null, n))
      && (r.Some? && def.None? && f != EXIT ==>
            Evaluated(lib, Eval(lib, e, WorldOf(m), fuel), m, true, lib.run(f, r.value), n))
      && (r.Some? && def.Some? && fuel == 0 ==> Evaluated(lib, Eval(lib, e, WorldOf(m), fuel), m, false, Null, n))
  {
    hide Chain, FlagsKept, Settled, FindFun;
    ChainFacts(lib, m);
  }

  /** The value the body of a function returned. */
  lemma FunctionDone(lib: Library, f: string, args: Args, fuel: nat, m: seq<Ctx>, sc: Scope, n: seq<Ctx>,
                     ok: bool, c: Cell, o: seq<Ctx>)
    requires Chain(lib, m) && !Pending(Top(m)) && fuel > 0 && FindFun(Scopes(m), f).Some?
    requires Bound(lib, args, FreshScope(lib), fuel, m, true, Some(sc), n)
    requires var n1 := n + [Ctx(None, false, false, sc)];
      Executed(lib, Exec(lib, FindFun(Scopes(m), f).value, WorldOf(n1), fuel - 1), n1, ok, c, o)
    ensures if !ok then Evaluated(lib, Eval(lib, Call(f, args), WorldOf(m), fuel), m, false, c, o)
      else |o| == |n| + 1 && Evaluated(lib, Eval(lib, Call(f, args), WorldOf(m), fuel), m, true,
             if Top(o).ret.Some? then Top(o).ret.value else Fake, o[..|n|])
  {
    hide Chain, FlagsKept, CallersKept, ExecAgrees, Settled, FindFun, Exec, EvalArgs;
    ChainFacts(lib, m);
    StillCalm(m, n);
    var body := FindFun(Scopes(m), f).value;
    var w := EvalArgs(lib, args, FreshScope(lib), WorldOf(m), fuel).w;
    PushChain(lib, n, sc);
    if ok {
      BodyDone(lib, body, w, sc, fuel - 1, m, n, c, o);
      FlagsKeptTransitive(m, n, o[..|n|]);
    } else {
      Dryness(Exec(lib, body, World(w.st + [sc], None), fuel - 1), n + [Ctx(None, false, false, sc)], c, o);
    }
  }

  lemma UnknownDone(lib: Library, f: string, args: Args, fuel: nat, m: seq<Ctx>)
    requires Chain(lib, m) && !Pending(Top(m)) && FindFun(Scopes(m), f).None? && f !in lib.names
    ensures Evaluated(lib, Eval(lib, Call(f, args), WorldOf(m), fuel), m, true, Null, m)
  {
    hide Chain, FlagsKept;
    ChainFacts(lib, m);
    Unmoved(m);
  }

  lemma ArgsDryDone(lib: Library, f: string, args: Args, fuel: nat, m: seq<Ctx>, r: Option<Scope>, n: seq<Ctx>)
    requires Chain(lib, m) && !Pending(Top(m)) && Bound(lib, args, FreshScope(lib), fuel, m, false, r, n)
    requires FindFun(Scopes(m), f).Some? || f in lib.names
    ensures Evaluated(lib, Eval(lib, Call(f, args), WorldOf(m), fuel), m, false, Null, n)
  {
    hide Chain, FlagsKept, Settled;
  }

  lemma AllReturnKeeps(lib: Library, n: seq<Ctx>, c: Cell)
    requires Chain(lib, n) && !Looping(Top(n)) && c != Null
    ensures Chain(lib, AllReturn(n, c)) && FlagsKept(n, AllReturn(n, c))
  {
    assert Scopes(AllReturn(n, c)) == Scopes(n);
  }

  lemma AllReturnSettles(m: seq<Ctx>, w: World, c: Cell)
    requires m != [] && Top(m).ret.None? && |w.st| == |m|
    ensures AllReturn(Settled(m, w), c) == Settled(m, World(w.st, Some(c)))
  {
  }

  /** `exit` makes every context of the chain return; it is the only way to reach the callers. */
  lemma ExitDone(lib: Library, args: Args, fuel: nat, m: seq<Ctx>, sc: Scope, n: seq<Ctx>)
    requires Chain(lib, m) && !Pending(Top(m)) && FindFun(Scopes(m), EXIT).None? && EXIT in lib.names
    requires Bound(lib, args, FreshScope(lib), fuel, m, true, Some(sc), n)
    ensures var c := ExitCell(lib, sc);
            Evaluated(lib, Eval(lib, Call(EXIT, args), WorldOf(m), fuel), m, true, c, AllReturn(n, c))
  {
    hide Chain, FlagsKept, Settled, FindFun, EvalArgs, AllReturn;
    ChainFacts(lib, m);
    StillCalm(m, n);
    AllReturnKeeps(lib, n, ExitCell(lib, sc));
    FlagsKeptTransitive(m, n, AllReturn(n, ExitCell(lib, sc)));
    AllReturnSettles(m, EvalArgs(lib, args, FreshScope(lib), WorldOf(m), fuel).w, ExitCell(lib, sc));
  }

  // ----- one lemma per kind of statement -----

  lemma DoDone(lib: Library, e: Expr, fuel: nat, m: seq<Ctx>, ok: bool, c: Cell, n: seq<Ctx>)
    requires m != [] && !Pending(Top(m)) && Evaluated(lib, Eval(lib, e, WorldOf(m), fuel), m, ok, c, n)
    ensures Executed(lib, Exec(lib, Do(e), WorldOf(m), fuel), m, ok, c, n)
  {
    hide Chain, FlagsKept, CallersKept, ExecAgrees, Settled, Eval;
    if ok {
      FlagsAndCallers(m, n);
      NormalOutcome(m, WorldOf(n), c);
    } else {
      Dryness(ExecDry, m, c, n);
    }
  }

  lemma NopDone(lib: Library, fuel: nat, m: seq<Ctx>)
    requires Chain(lib, m) && !Pending(Top(m))
    ensures Executed(lib, Exec(lib, Nop, WorldOf(m), fuel), m, true, Null, m)
  {
    hide Chain, CallersKept, ExecAgrees, Settled;
    ChainFacts(lib, m);
    Unmoved(m);
    NormalOutcome(m, WorldOf(m), Null);
  }

  lemma JumpDone(lib: Library, s: Stmt, fuel: nat, m: seq<Ctx>, t: seq<Ctx>)
    requires Chain(lib, m) && !Pending(Top(m)) && (s.Break? || s.Continue?)
    requires t == m[|m| - 1 := Top(m).(brk := s.Break?, cont := s.Continue?)]
    ensures Executed(lib, Exec(lib, s, WorldOf(m), fuel), m, true, Fake, t)
  {
    hide Settled;
    Unmoved(m);
    assert Scopes(t) == Scopes(m);
  }

  /** Defining a new name in the current context keeps names distinct along the chain. */
  lemma DefineKeeps(lib: Library, f: string, body: Stmt, m: seq<Ctx>)
    requires Chain(lib, m) && f !in lib.names && FindFun(Scopes(m), f).None?
    ensures var s := Rescope(m, Define(Scopes(m), f, body)); Chain(lib, s) && CallersKept(m, s)
  {
    NotFound(Scopes(m), f);
    assert Scopes(Rescope(m, Define(Scopes(m), f, body))) == Define(Scopes(m), f, body);
  }

  lemma DeclareDone(lib: Library, f: string, body: Stmt, fuel: nat, m: seq<Ctx>)
    requires Chain(lib, m) && !Pending(Top(m))
    ensures var st := Scopes(m); var out := Exec(lib, FunDef(f, body), WorldOf(m), fuel);
      if FindFun(st, f).Some? || f in lib.names then Executed(lib, out, m, true, Null, m)
      else Executed(lib, out, m, true, Fake, Rescope(m, Define(st, f, body)))
  {
    hide Chain, CallersKept, DistinctNames, ExecAgrees, Settled, FindFun, Define, Rescope;
    ChainFacts(lib, m);
    var st := Scopes(m);
    if FindFun(st, f).None? && f !in lib.names {
      DefineKeeps(lib, f, body, m);
      RescopeSettles(m, Define(st, f, body));
      NormalOutcome(m, World(Define(st, f, body), Top(m).ret), Fake);
    } else {
      Unmoved(m);
      NormalOutcome(m, WorldOf(m), Null);
    }
  }

  lemma BlockDone(lib: Library, s1: Stmt, s2: Stmt, fuel: nat, m: seq<Ctx>, ok1: bool, c1: Cell, n: seq<Ctx>,
                  ok2: bool, c2: Cell, o: seq<Ctx>)
    requires Chain(lib, m) && !Pending(Top(m))
    requires Executed(lib, Exec(lib, s1, WorldOf(m), fuel), m, ok1, c1, n)
    requires ok1 ==> n != []
    requires ok1 && s2 != Nop && !Looping(Top(n)) ==> Executed(lib, Exec(lib, s2, WorldOf(n), fuel), n, ok2, c2, o)
    ensures var out := Exec(lib, Block(s1, s2), WorldOf(m), fuel);
      && (!ok1 ==> Executed(lib, out, m, false, c1, n))
      && (ok1 && (s2 == Nop || Looping(Top(n))) ==> Executed(lib, out, m, true, c1, n))
      && (ok1 && s2 != Nop && !Looping(Top(n)) ==> Executed(lib, out, m, ok2, c2, o))
  {
    hide Chain, CallersKept, ExecAgrees, Flagged, Settled;
    ChainFacts(lib, m);
    var out1 := Exec(lib, s1, WorldOf(m), fuel);
    if ok1 { Outcome(out1, m, c1, n); } else { Dryness(out1, m, c1, n); Dryness(ExecDry, m, c1, n); }
    if ok1 && s2 != Nop && !Looping(Top(n)) {
      if ok2 { CallersKeptTransitive(m, n, o); }
      if out1.comp.Returned? {
        AnyCell(out1, m, c1, c2, n);
      } else {
        AgreesAfter(Exec(lib, s2, WorldOf(n), fuel), m, WorldOf(n), ok2, c2, o);
      }
    }
  }

  /** The condition did not finish, or selects no branch. */
  lemma IfEnds(lib: Library, e: Expr, t: Stmt, f: Stmt, fuel: nat, m: seq<Ctx>, ok: bool, c: Cell, n: seq<Ctx>)
    requires Chain(lib, m) && !Pending(Top(m)) && Evaluated(lib, Eval(lib, e, WorldOf(m), fuel), m, ok, c, n)
    requires ok ==> !Truth(c) && f == Nop
    ensures Executed(lib, Exec(lib, If(e, t, f), WorldOf(m), fuel), m, ok, if ok then Fake else c, n)
  {
    hide Chain, FlagsKept, CallersKept, ExecAgrees, Settled, Eval;
    ChainFacts(lib, m);
    if ok {
      FlagsAndCallers(m, n);
      NormalOutcome(m, WorldOf(n), Fake);
    } else {
      Dryness(ExecDry, m, c, n);
    }
  }

  /** The condition selected a branch, which led from `n` to `o`. */
  lemma IfRuns(lib: Library, e: Expr, t: Stmt, f: Stmt, fuel: nat, m: seq<Ctx>, c1: Cell, n: seq<Ctx>,
               ok: bool, c2: Cell, o: seq<Ctx>)
    requires Chain(lib, m) && !Pending(Top(m)) && Evaluated(lib, Eval(lib, e, WorldOf(m), fuel), m, true, c1, n)
    requires n != [] && (Truth(c1) || f != Nop)
    requires Executed(lib, Exec(lib, if Truth(c1) then t else f, WorldOf(n), fuel), n, ok, c2, o)
    ensures Executed(lib, Exec(lib, If(e, t, f), WorldOf(m), fuel), m, ok, c2, o)
  {
    hide Chain, FlagsKept, CallersKept, ExecAgrees, Settled, Eval;
    ChainFacts(lib, m);
    FlagsAndCallers(m, n);
    StillCalm(m, n);
    if ok { CallersKeptTransitive(m, n, o); }
    AgreesAfter(Exec(lib, if Truth(c1) then t else f, WorldOf(n), fuel), m, WorldOf(n), ok, c2, o);
  }

  lemma ReturnDone(lib: Library, e: Expr, fuel: nat, m: seq<Ctx>, ok: bool, c: Cell, n: seq<Ctx>)
    requires Chain(lib, m) && !Pending(Top(m)) && Evaluated(lib, Eval(lib, e, WorldOf(m), fuel), m, ok, c, n)
    requires ok ==> n != []
    ensures var out := Exec(lib, Return(e), WorldOf(m), fuel);
      if !ok then Executed(lib, out, m, false, c, n)
      else Executed(lib, out, m, true, Fake, MarkReturn(n, if c == Null then Fake else c, |n| - 1))
  {
    hide Chain, FlagsKept, CallersKept, Settled, Eval, MarkReturn;
    ChainFacts(lib, m);
    if ok {
      var r := if c == Null then Fake else c;
      StillCalm(m, n);
      FlagsAndCallers(m, n);
      ReturnStops(lib, n, r);
      CallersKeptTransitive(m, n, MarkReturn(n, r, |n| - 1));
    }
  }

  // ----- loops -----

  datatype Kind = ForLoop(cond: Expr, step: Expr, body: Stmt) | UntilLoop(body: Stmt, cond: Expr)

  /** A `while` is a `for` without start and end expression. */
  function LoopMeaning(lib: Library, k: Kind, w: World, fuel: nat): (r: ExecOut)
    requires w.st != []
    ensures r.ExecOut? ==> |r.w.st| == |w.st|
    ensures w.gone.Some? ==> r == ExecOut(w, Normal(w.gone.value))
  {
    match k
    case ForLoop(c, step, body) => Loop(lib, c, step, body, w, fuel)
    case UntilLoop(body, c) => Until(lib, body, c, w, fuel)
  }

  /** How one iteration ends: out of fuel, out of the loop, or ready for the next. */
  datatype Lap = Dry | Stop(c: Cell) | Go

  function Unlooped(s: seq<Ctx>): seq<Ctx>
    requires s != []
  {
    s[|s| - 1 := Top(s).(brk := false, cont := false)]
  }

  /** Clearing the loop flags consumes a break or a continue, never a return. */
  lemma Consumed(lib: Library, out: ExecOut, m: seq<Ctx>, c: Cell, n: seq<Ctx>)
    requires m != [] && !Looping(Top(m)) && Executed(lib, out, m, true, c, n)
    ensures n != [] && |n| == |m| && Chain(lib, Unlooped(n)) && CallersKept(m, Unlooped(n))
    ensures !Looping(Top(Unlooped(n)))
    ensures out.ExecOut? && |out.w.st| == |m| && (Top(n).brk <==> out.comp.Broke?)
    ensures Top(n).ret == if out.comp.Returned? then Some(out.comp.cell) else out.w.gone
    ensures Top(n).ret.Some? ==> Unlooped(n) == n
    ensures out.comp.Returned? ==> Unlooped(n) == n && ExecAgrees(out, m, true, Fake, n)
    ensures !out.comp.Returned? ==> Unlooped(n) == Settled(m, out.w)
  {
    hide Settled, DistinctNames;
    assert Scopes(Unlooped(n)) == Scopes(n);
    Outcome(out, m, c, n);
    SettledFlags(m, out.w);
  }

  lemma SettledFlags(m: seq<Ctx>, w: World)
    requires m != [] && |w.st| == |m|
    ensures Top(Settled(m, w)).brk == Top(m).brk && Top(Settled(m, w)).cont == Top(m).cont
  {
  }

  /** After an iteration that led from `m` to `n` the loop has meaning `out`: the body returned, or the
      rest is what the loop means from there. */
  ghost predicate GoesOn(lib: Library, k: Kind, fuel: nat, out: ExecOut, m: seq<Ctx>, n: seq<Ctx>)
    requires m != []
  {
    && |n| == |m| && !Looping(Top(n))
    && ((out.ExecOut? && out.comp.Returned? && Top(n).ret.Some? && ExecAgrees(out, m, true, Fake, n))
        || (n == Settled(m, WorldOf(n)) && out == LoopMeaning(lib, k, WorldOf(n), fuel)))
  }

  /** One iteration of `k` from `m`, with `fuel` left for what it runs. */
  ghost predicate Lapped(lib: Library, k: Kind, fuel: nat, m: seq<Ctx>, lap: Lap, n: seq<Ctx>)
    requires m != []
  {
    var out := LoopMeaning(lib, k, WorldOf(m), fuel + 1);
    && (lap != Dry ==> Chain(lib, n) && CallersKept(m, n))
    && match lap
       case Dry => out.ExecDry?
       case Stop(c) => ExecAgrees(out, m, true, c, n)
       case Go => GoesOn(lib, k, fuel, out, m, n)
  }

  /** The condition of a `for` or `while` did not finish or does not hold. */
  lemma ForLapEnds(lib: Library, k: Kind, fuel: nat, m: seq<Ctx>, ok: bool, c: Cell, n: seq<Ctx>)
    requires k.ForLoop? && Chain(lib, m) && !Pending(Top(m))
    requires Evaluated(lib, Eval(lib, k.cond, WorldOf(m), fuel), m, ok, c, n)
    requires ok ==> !Truth(c)
    ensures Lapped(lib, k, fuel, m, if ok then Stop(if c == Null then Null else Fake) else Dry, n)
  {
    hide Chain, FlagsKept, CallersKept, ExecAgrees, Settled, Exec, Eval;
    ChainFacts(lib, m);
    if ok {
      FlagsAndCallers(m, n);
      NormalOutcome(m, WorldOf(n), if c == Null then Null else Fake);
    }
  }

  /** The condition held, in `n`, and the body led to `o`, where it did not finish or broke out of the loop. */
  lemma ForLapBreaks(lib: Library, k: Kind, fuel: nat, m: seq<Ctx>, c1: Cell, n: seq<Ctx>, ok: bool, c: Cell,
                     o: seq<Ctx>)
    requires k.ForLoop? && Chain(lib, m) && !Pending(Top(m))
    requires Evaluated(lib, Eval(lib, k.cond, WorldOf(m), fuel), m, true, c1, n)
    requires Truth(c1) && n != [] && Executed(lib, Exec(lib, k.body, WorldOf(n), fuel), n, ok, c, o)
    requires ok ==> o != [] && Top(o).brk
    ensures if ok then Lapped(lib, k, fuel, m, Stop(Fake), Unlooped(o)) else Lapped(lib, k, fuel, m, Dry, o)
  {
    hide Chain, FlagsKept, CallersKept, ExecAgrees, Settled, Exec, Eval, Unlooped;
    ChainFacts(lib, m);
    StillCalm(m, n);
    var out := Exec(lib, k.body, WorldOf(n), fuel);
    if ok {
      FlagsAndCallers(m, n);
      Consumed(lib, out, n, c, o);
      CallersKeptTransitive(m, n, Unlooped(o));
      SettledTwice(m, WorldOf(n), out.w);
      NormalOutcome(m, out.w, Fake);
    } else {
      Dryness(out, n, c, o);
    }
  }

  /** The condition held, in `n`, the body led to `o` without a break, and the end expression to `p`. */
  lemma ForLapGoes(lib: Library, k: Kind, fuel: nat, m: seq<Ctx>, c1: Cell, n: seq<Ctx>, c2: Cell, o: seq<Ctx>,
                   ok: bool, c3: Cell, p: seq<Ctx>)
    requires k.ForLoop? && Chain(lib, m) && !Pending(Top(m))
    requires Evaluated(lib, Eval(lib, k.cond, WorldOf(m), fuel), m, true, c1, n)
    requires Truth(c1) && n != [] && Executed(lib, Exec(lib, k.body, WorldOf(n), fuel), n, true, c2, o)
    requires o != [] && !Top(o).brk
    requires Evaluated(lib, Eval(lib, k.step, WorldOf(Unlooped(o)), fuel), Unlooped(o), ok, c3, p)
    ensures Lapped(lib, k, fuel, m, if ok then Go else Dry, p)
  {
    hide Chain, FlagsKept, CallersKept, ExecAgrees, Settled, Exec, Eval, Unlooped;
    ChainFacts(lib, m);
    StillCalm(m, n);
    FlagsAndCallers(m, n);
    var out := Exec(lib, k.body, WorldOf(n), fuel);
    Consumed(lib, out, n, c2, o);
    var q := Unlooped(o);
    CallersKeptTransitive(m, n, q);
    if ok {
      StillCalm(q, p);
      FlagsAndCallers(q, p);
      CallersKeptTransitive(m, q, p);
      if out.comp.Returned? {
        AgreesAfter(out, m, WorldOf(n), true, Fake, o);
      } else {
        SettledTwice(m, WorldOf(n), out.w);
        SettledTwice(m, out.w, WorldOf(p));
      }
    }
  }

  /** `repeat`: the body led to `n`, where it did not finish or broke out of the loop. */
  lemma UntilLapBreaks(lib: Library, k: Kind, fuel: nat, m: seq<Ctx>, ok: bool, c: Cell, n: seq<Ctx>)
    requires k.UntilLoop? && Chain(lib, m) && !Pending(Top(m))
    requires Executed(lib, Exec(lib, k.body, WorldOf(m), fuel), m, ok, c, n)
    requires ok ==> n != [] && Top(n).brk
    ensures if ok then Lapped(lib, k, fuel, m, Stop(Fake), Unlooped(n)) else Lapped(lib, k, fuel, m, Dry, n)
  {
    hide Chain, FlagsKept, CallersKept, ExecAgrees, Settled, Exec, Eval, Unlooped;
    ChainFacts(lib, m);
    var out := Exec(lib, k.body, WorldOf(m), fuel);
    if ok {
      Consumed(lib, out, m, c, n);
      NormalOutcome(m, out.w, Fake);
    } else {
      Dryness(out, m, c, n);
    }
  }

  /** `repeat`: the body led to `n` without a break, the condition to `o`. */
  lemma UntilLapGoes(lib: Library, k: Kind, fuel: nat, m: seq<Ctx>, c1: Cell, n: seq<Ctx>, ok: bool, c2: Cell,
                     o: seq<Ctx>)
    requires k.UntilLoop? && Chain(lib, m) && !Pending(Top(m))
    requires Executed(lib, Exec(lib, k.body, WorldOf(m), fuel), m, true, c1, n)
    requires n != [] && !Top(n).brk
    requires Evaluated(lib, Eval(lib, k.cond, WorldOf(Unlooped(n)), fuel), Unlooped(n), ok, c2, o)
    ensures Lapped(lib, k, fuel, m, if !ok then Dry else if Truth(c2) then Stop(Fake) else Go, o)
  {
    hide Chain, FlagsKept, CallersKept, ExecAgrees, Settled, Exec, Eval, Unlooped;
    ChainFacts(lib, m);
    var out := Exec(lib, k.body, WorldOf(m), fuel);
    Consumed(lib, out, m, c1, n);
    var q := Unlooped(n);
    if ok {
      StillCalm(q, o);
      FlagsAndCallers(q, o);
      CallersKeptTransitive(m, q, o);
      if !out.comp.Returned? {
        SettledTwice(m, out.w, WorldOf(o));
        NormalOutcome(m, WorldOf(o), Fake);
      }
    }
  }

  /** One element of a `foreach`: from `m` the variable was set and the body led to `o`. */
  lemma EachDone(lib: Library, x: string, i: nat, elems: seq<Value>, body: Stmt, fuel: nat, m: seq<Ctx>,
                 ok: bool, c: Cell, o: seq<Ctx>)
    requires Chain(lib, m) && !Looping(Top(m)) && i < |m| && elems != []
    requires var n := Rescope(m, Put(Scopes(m), i, x, Val(elems[0])));
      Executed(lib, Exec(lib, body, WorldOf(n), fuel), n, ok, c, o)
    ensures ok ==>
      && o != [] && Chain(lib, Unlooped(o)) && CallersKept(m, Unlooped(o)) && !Looping(Top(Unlooped(o)))
      && |o| == |m| && (Top(o).ret.Some? ==> Unlooped(o) == o)
    ensures var out := Each(lib, x, i, elems, body, WorldOf(m), fuel);
      if !ok then out.ExecDry?
      else if Top(o).ret.Some? || Top(o).brk then ExecAgrees(out, m, true, Fake, Unlooped(o))
      else Unlooped(o) == Settled(m, WorldOf(Unlooped(o))) && Top(m).ret.None? && Top(Unlooped(o)).ret.None?
           && out == Each(lib, x, i, elems[1..], body, WorldOf(Unlooped(o)), fuel)
  {
    hide Chain, FlagsKept, CallersKept, ExecAgrees, Settled, Exec, Put, Unlooped, Rescope;
    ChainFacts(lib, m);
    ScopesAt(m);
    var st := Put(Scopes(m), i, x, Val(elems[0]));
    Rescoped(lib, m, st);
    var n := Rescope(m, st);
    FlagsAndCallers(m, n);
    StillCalm(m, n);
    var out := Exec(lib, body, WorldOf(n), fuel);
    if ok {
      Consumed(lib, out, n, c, o);
      CallersKeptTransitive(m, n, Unlooped(o));
      SettledTwice(m, WorldOf(n), out.w);
      if out.comp.Returned? {
        AgreesAgain(out, m, WorldOf(n), o);
      } else {
        NormalOutcome(m, out.w, Fake);
      }
    } else {
      Dryness(out, n, c, o);
    }
  }

  lemma AgreesAgain(out: ExecOut, m: seq<Ctx>, w: World, o: seq<Ctx>)
    requires m != [] && |w.st| == |m| && out.ExecOut? && |out.w.st| == |m|
    requires Settled(Settled(m, w), out.w) == Settled(m, out.w)
    requires ExecAgrees(out, Settled(m, w), true, Fake, o)
    ensures ExecAgrees(out, m, true, Fake, o)
  {
  }

  /** The iterations so far led from `m0` to `m`, and if there were any, none exited. */
  ghost predicate Since(m0: seq<Ctx>, m: seq<Ctx>)
    requires m0 != []
  {
    && |m| == |m0| && m == Settled(m0, WorldOf(m))
    && (m == m0 || (Top(m0).ret.None? && Top(m).ret.None?))
  }

  lemma SinceThen(m0: seq<Ctx>, m: seq<Ctx>, n: seq<Ctx>)
    requires m0 != [] && Since(m0, m) && |n| == |m| && n == Settled(m, WorldOf(n)) && Top(n).ret.None?
    requires Top(m).ret.None?
    ensures Since(m0, n)
  {
    SettledTwice(m0, WorldOf(m), WorldOf(n));
  }

  lemma AgreesThen(out: ExecOut, m0: seq<Ctx>, m: seq<Ctx>, n: seq<Ctx>)
    requires m0 != [] && Since(m0, m) && ExecAgrees(out, m, true, Fake, n)
    ensures ExecAgrees(out, m0, true, Fake, n)
  {
    if m != m0 { AgreesAfter(out, m0, WorldOf(m), true, Fake, n); }
  }

  lemma EachOver(lib: Library, x: string, i: nat, elems: seq<Value>, body: Stmt, fuel: nat, m0: seq<Ctx>, m: seq<Ctx>)
    requires m0 != [] && Since(m0, m) && i < |m| && elems == []
    ensures ExecAgrees(Each(lib, x, i, elems, body, WorldOf(m), fuel), m0, true, Fake, m)
  {
    NormalOutcome(m0, WorldOf(m), Fake);
  }

  /** The whole loop `k` from `m`, where a return may already be pending. */
  ghost predicate Looped(lib: Library, k: Kind, fuel: nat, m: seq<Ctx>, ok: bool, c: Cell, n: seq<Ctx>)
    requires m != []
  {
    && (ok ==> Chain(lib, n) && CallersKept(m, n))
    && ExecAgrees(LoopMeaning(lib, k, WorldOf(m), fuel), m, ok, c, n)
  }

  /** Without fuel no loop finishes. */
  lemma LoopDry(lib: Library, k: Kind, w: World)
    requires w.st != [] && w.gone.None?
    ensures LoopMeaning(lib, k, w, 0).ExecDry?
  {
  }

  lemma LoopStarts(lib: Library, k: Kind, fuel: nat, m: seq<Ctx>)
    requires m != [] && !Looping(Top(m))
    ensures GoesOn(lib, k, fuel, LoopMeaning(lib, k, WorldOf(m), fuel), m, m)
  {
    hide LoopMeaning, Settled;
    Unmoved(m);
  }

  /** A loop with a return or an exit pending is over. */
  lemma LoopLeft(lib: Library, k: Kind, fuel: nat, out: ExecOut, m0: seq<Ctx>, c: Cell, n: seq<Ctx>)
    requires m0 != [] && n != [] && GoesOn(lib, k, fuel, out, m0, n) && Top(n).ret == Some(c) && c != Null
    ensures ExecAgrees(out, m0, true, c, n)
  {
    hide Settled, LoopMeaning;
  }

  lemma LoopBefore(lib: Library, k: Kind, fuel: nat, out: ExecOut, m0: seq<Ctx>, m: seq<Ctx>)
    requires m0 != [] && m != [] && GoesOn(lib, k, fuel, out, m0, m) && Top(m).ret.None?
    ensures |m| == |m0| && !Pending(Top(m)) && m == Settled(m0, WorldOf(m))
    ensures out == LoopMeaning(lib, k, WorldOf(m), fuel)
  {
    hide Settled, LoopMeaning, ExecAgrees;
  }

  lemma GoesOnAgain(lib: Library, k: Kind, fuel: nat, out: ExecOut, m0: seq<Ctx>, m: seq<Ctx>, n: seq<Ctx>)
    requires m0 != [] && Top(m0).ret.None? && fuel > 0 && m != [] && Top(m).ret.None?
    requires GoesOn(lib, k, fuel, out, m0, m)
    requires GoesOn(lib, k, fuel - 1, LoopMeaning(lib, k, WorldOf(m), fuel), m, n)
    ensures GoesOn(lib, k, fuel - 1, out, m0, n)
  {
    hide ExecAgrees, Settled, LoopMeaning;
    if n == Settled(m, WorldOf(n)) && out == LoopMeaning(lib, k, WorldOf(n), fuel - 1) {
      SettledBefore(m0, m, WorldOf(n));
    } else {
      AgreesSince(out, m0, m, Fake, n);
    }
  }

  lemma SettledBefore(m0: seq<Ctx>, m: seq<Ctx>, w: World)
    requires m0 != [] && |m| == |m0| == |w.st| && Top(m).ret.None? && m == Settled(m0, WorldOf(m))
    requires Top(m0).ret.None?
    ensures Settled(m, w) == Settled(m0, w)
  {
    SettledTwice(m0, WorldOf(m), w);
  }

  lemma AgreesSince(out: ExecOut, m0: seq<Ctx>, m: seq<Ctx>, c: Cell, n: seq<Ctx>)
    requires m0 != [] && |m| == |m0| && Top(m).ret.None? && m == Settled(m0, WorldOf(m)) && Top(m0).ret.None?
    requires ExecAgrees(out, m, true, c, n)
    ensures ExecAgrees(out, m0, true, c, n)
  {
    AgreesAfter(out, m0, WorldOf(m), true, c, n);
  }

  lemma ForDone(lib: Library, init: Expr, k: Kind, fuel: nat, m: seq<Ctx>, ok1: bool, c1: Cell, n: seq<Ctx>,
                ok: bool, c: Cell, o: seq<Ctx>)
    requires Chain(lib, m) && !Pending(Top(m)) && k.ForLoop?
    requires Evaluated(lib, Eval(lib, init, WorldOf(m), fuel), m, ok1, c1, n)
    requires if ok1 then n != [] && Looped(lib, k, fuel, n, ok, c, o) else !ok && c == c1 && o == n
    ensures Executed(lib, Exec(lib, For(init, k.cond, k.step, k.body), WorldOf(m), fuel), m, ok, c, o)
  {
    hide Chain, FlagsKept, CallersKept, ExecAgrees, Settled, Eval, Loop;
    ChainFacts(lib, m);
    if ok1 {
      FlagsAndCallers(m, n);
      if ok { CallersKeptTransitive(m, n, o); }
      AgreesAfter(LoopMeaning(lib, k, WorldOf(n), fuel), m, WorldOf(n), ok, c, o);
    } else {
      Dryness(ExecDry, m, c1, n);
    }
  }

  lemma WhileDone(lib: Library, e: Expr, body: Stmt, fuel: nat, m: seq<Ctx>, ok: bool, c: Cell, n: seq<Ctx>)
    requires Chain(lib, m) && !Pending(Top(m)) && Looped(lib, ForLoop(e, Nothing, body), fuel, m, ok, c, n)
    ensures Executed(lib, Exec(lib, While(e, body), WorldOf(m), fuel), m, ok, c, n)
  {
    hide Chain, CallersKept, ExecAgrees, Loop;
  }

  lemma RepeatDone(lib: Library, body: Stmt, e: Expr, fuel: nat, m: seq<Ctx>, ok: bool, c: Cell, n: seq<Ctx>)
    requires Chain(lib, m) && !Pending(Top(m)) && Looped(lib, UntilLoop(body, e), fuel, m, ok, c, n)
    ensures Executed(lib, Exec(lib, Repeat(body, e), WorldOf(m), fuel), m, ok, c, n)
  {
    hide Chain, CallersKept, ExecAgrees, Until;
  }

  lemma RescopedPut(lib: Library, m: seq<Ctx>, i: nat, x: string, c: Cell)
    requires Chain(lib, m) && i < |m|
    ensures Chain(lib, Rescope(m, Put(Scopes(m), i, x, c)))
  {
    Rescoped(lib, m, Put(Scopes(m), i, x, c));
  }

  lemma ForeachDone(lib: Library, x: string, a: Expr, body: Stmt, fuel: nat, m: seq<Ctx>, ok1: bool, c1: Cell,
                    n: seq<Ctx>, ok: bool, c: Cell, o: seq<Ctx>)
    requires Chain(lib, m) && !Pending(Top(m))
    requires var m1 := Rescope(m, Resolve(Scopes(m), x));
             Evaluated(lib, Eval(lib, a, WorldOf(m1), fuel), m1, ok1, c1, n)
    requires !ok1 ==> !ok && o == n
    requires ok1 ==> c == Fake && |n| == |m| && (ok ==> Chain(lib, o) && CallersKept(n, o))
    requires ok1 ==>
      ExecAgrees(Each(lib, x, Find(Scopes(m), x), Elements(c1), body, WorldOf(n), fuel), n, ok, Fake, o)
    ensures Executed(lib, Exec(lib, Foreach(x, a, body), WorldOf(m), fuel), m, ok, c, o)
  {
    hide Chain, FlagsKept, CallersKept, ExecAgrees, Settled, Eval, Each, Find, Resolve, Rescope;
    ChainFacts(lib, m);
    ScopesAt(m);
    var st := Resolve(Scopes(m), x);
    Rescoped(lib, m, st);
    var m1 := Rescope(m, st);
    StillCalm(m, m1);
    if ok1 {
      FlagsKeptTransitive(m, m1, n);
      FlagsAndCallers(m, n);
      if ok { CallersKeptTransitive(m, n, o); }
      SettledTwice(m, WorldOf(m1), WorldOf(n));
      AgreesAfter(Each(lib, x, Find(Scopes(m), x), Elements(c1), body, WorldOf(n), fuel), m, WorldOf(n), ok, Fake, o);
    } else {
      Dryness(ExecDry, m, c, o);
    }
  }

  /** `n` evaluations of a call in turn. */
  ghost predicate TimesDone(lib: Library, call: Expr, n: nat, fuel: nat, m: seq<Ctx>, ok: bool, o: seq<Ctx>)
    requires m != []
  {
    && (ok ==> Chain(lib, o) && FlagsKept(m, o))
    && match Times(lib, call, n, WorldOf(m), fuel)
       case ExecDry => !ok
       case ExecOut(w, _) => ok && |w.st| == |m| && o == Settled(m, w)
  }

  /** One more evaluation, from `s` to `t`. */
  lemma TimesStep(lib: Library, call: Expr, n: nat, fuel: nat, m: seq<Ctx>, s: seq<Ctx>, ok: bool, c: Cell, t: seq<Ctx>)
    requires m != [] && |s| == |m| && n > 0 && s == Settled(m, WorldOf(s)) && (Top(m).ret.Some? ==> s == m)
    requires EvalAgrees(Eval(lib, call, WorldOf(s), fuel), s, ok, c, t)
    ensures if ok then |t| == |m| && t == Settled(m, WorldOf(t)) && (Top(m).ret.Some? ==> t == m)
                       && Times(lib, call, n, WorldOf(s), fuel) == Times(lib, call, n - 1, WorldOf(t), fuel)
            else Times(lib, call, n, WorldOf(s), fuel).ExecDry?
  {
    hide Settled, Eval;
    if ok {
      SettledTwice(m, WorldOf(s), WorldOf(t));
      Unmoved(m);
    }
  }

  lemma RepeatedDone(lib: Library, call: Expr, times: Expr, fuel: nat, m: seq<Ctx>, ok1: bool, c1: Cell, n: seq<Ctx>,
                     ok: bool, o: seq<Ctx>)
    requires Chain(lib, m) && !Pending(Top(m)) && Evaluated(lib, Eval(lib, times, WorldOf(m), fuel), m, ok1, c1, n)
    requires if !ok1 then !ok && o == n
             else if lib.toInt(c1) <= 0 then ok && o == n
             else n != [] && TimesDone(lib, call, lib.toInt(c1), fuel, n, ok, o)
    ensures Executed(lib, Exec(lib, Repeated(call, times), WorldOf(m), fuel), m, ok,
                     if ok && lib.toInt(c1) <= 0 then Null else Fake, o)
  {
    hide Chain, FlagsKept, CallersKept, ExecAgrees, Settled, Eval, Times;
    ChainFacts(lib, m);
    if ok1 {
      FlagsAndCallers(m, n);
      if lib.toInt(c1) > 0 && ok {
        FlagsAndCallers(n, o);
        CallersKeptTransitive(m, n, o);
        SettledTwice(m, WorldOf(n), WorldOf(o));
      }
      if ok { NormalOutcome(m, WorldOf(o), if lib.toInt(c1) <= 0 then Null else Fake); }
    }
    Dryness(ExecDry, m, Fake, o);
  }

  // ----- the interpreter -----

  class Interpreter {
    const lib: Library
    var stack: seq<Ctx>

    constructor (lib: Library)
      ensures this.lib == lib
      ensures stack == [Ctx(None, false, false, Scope(false, lib.predefined, [], map[]))]
      ensures Chain(lib, stack)
    {
      this.lib := lib;
      stack := [Ctx(None, false, false, Scope(false, lib.predefined, [], map[]))];
    }

    /** nasl_exec on an expression. */
    method Evaluate(e: Expr, fuel: nat) returns (ok: bool, c: Cell)
      requires Chain(lib, stack)
      modifies `stack
      ensures Evaluated(lib, Eval(lib, e, WorldOf(old(stack)), fuel), old(stack), ok, c, stack)
      decreases fuel, e, 2
    {
      hide Eval, EvalAgrees, Chain, FlagsKept;
      ChainFacts(lib, stack);
      var t := Top(stack);
      if t.ret.Some? || t.brk || t.cont {
        c := if t.ret.Some? then t.ret.value else Fake;
        HeldBack(lib, e, Nop, fuel, stack, c);
        return true, c;
      }
      match e {
        case Nothing => ok, c := EvalConst(e, fuel);
        case Const(v) => ok, c := EvalConst(e, fuel);
        case Var(x) => ok, c := EvalVar(x, fuel);
        case Assign(x, r) => ok, c := EvalAssign(x, r, fuel);
        case Prim(op, l, r) => ok, c := EvalPrim(op, l, r, fuel);
        case And(l, r) => ok, c := EvalAnd(l, r, fuel);
        case Or(l, r) => ok, c := EvalOr(l, r, fuel);
        case Not(a) => ok, c := EvalNot(a, fuel);
        case Call(f, args) => ok, c := EvalCall(f, args, fuel);
      }
    }

    /** cell2atom: a constant is taken as it is. */
    method Operand(e: Expr, fuel: nat) returns (ok: bool, c: Cell)
      requires Chain(lib, stack)
      modifies `stack
      ensures Evaluated(lib, Atom(lib, e, WorldOf(old(stack)), fuel), old(stack), ok, c, stack)
      decreases fuel, e, 3
    {
      hide Eval, Chain, FlagsKept, Settled;
      ChainFacts(lib, stack);
      Unmoved(stack);
      match e {
        case Nothing => return true, Null;
        case Const(v) => return true, Val(v);
        case _ => ok, c := Evaluate(e, fuel);
      }
    }

    method EvalConst(e: Expr, fuel: nat) returns (ok: bool, c: Cell)
      requires Chain(lib, stack) && !Pending(Top(stack)) && (e.Nothing? || e.Const?)
      ensures Evaluated(lib, Eval(lib, e, WorldOf(stack), fuel), stack, ok, c, stack)
    {
      Unmoved(stack);
      return true, if e.Nothing? then Null else Val(e.v);
    }

    /** Looks `x` up along the chain; an unknown variable is created in the current context. */
    method Locate(x: string) returns (i: nat)
      requires Chain(lib, stack)
      modifies `stack
      ensures i == Find(Scopes(old(stack)), x) && stack == Rescope(old(stack), Resolve(Scopes(old(stack)), x))
      ensures Chain(lib, stack) && (!Pending(Top(old(stack))) ==> !Pending(Top(stack)))
    {
      Rescoped(lib, stack, Resolve(Scopes(stack), x));
      i := Find(Scopes(stack), x);
      stack := Rescope(stack, Resolve(Scopes(stack), x));
    }

    method EvalVar(x: string, fuel: nat) returns (ok: bool, c: Cell)
      requires Chain(lib, stack) && !Pending(Top(stack))
      modifies `stack
      ensures Evaluated(lib, Eval(lib, Var(x), WorldOf(old(stack)), fuel), old(stack), ok, c, stack)
    {
      hide Evaluated, Chain, Find, Resolve;
      VarDone(lib, x, fuel, stack);
      var i := Locate(x);
      return true, stack[i].scope.vars[x];
    }

    method EvalAssign(x: string, rhs: Expr, fuel: nat) returns (ok: bool, c: Cell)
      requires Chain(lib, stack) && !Pending(Top(stack))
      modifies `stack
      ensures Evaluated(lib, Eval(lib, Assign(x, rhs), WorldOf(old(stack)), fuel), old(stack), ok, c, stack)
      decreases fuel, Assign(x, rhs), 1
    {
      hide Evaluated, Chain, Find, Resolve, Put, Scopes;
      var i := Locate(x);
      ok, c := Evaluate(rhs, fuel);
      AssignDone(lib, x, rhs, fuel, old(stack), ok, c, stack);
      if ok { stack := Rescope(stack, Put(Scopes(stack), i, x, c)); }
    }

    method EvalPrim(op: nat, l: Expr, r: Expr, fuel: nat) returns (ok: bool, c: Cell)
      requires Chain(lib, stack) && !Pending(Top(stack))
      modifies `stack
      ensures Evaluated(lib, Eval(lib, Prim(op, l, r), WorldOf(old(stack)), fuel), old(stack), ok, c, stack)
      decreases fuel, Prim(op, l, r), 1
    {
      hide Atom, Eval, Exec, EvalAgrees, ExecAgrees, Chain, FlagsKept, CallersKept, Scopes, Settled;
      ChainFacts(lib, stack);
      var c1, c2;
      ok, c1 := Operand(l, fuel);
      if !ok {
        OperandDry(lib, Prim(op, l, r), l, fuel, old(stack), c1, stack, c1);
        return false, c1;
      }
      ghost var m := stack;
      ChainFacts(lib, stack);
      ok, c2 := Operand(r, fuel);
      c := lib.prim(op, c1, c2);
      PrimDone(lib, op, l, r, fuel, old(stack), c1, m, ok, c2, stack);
    }

    method EvalAnd(l: Expr, r: Expr, fuel: nat) returns (ok: bool, c: Cell)
      requires Chain(lib, stack) && !Pending(Top(stack))
      modifies `stack
      ensures Evaluated(lib, Eval(lib, And(l, r), WorldOf(old(stack)), fuel), old(stack), ok, c, stack)
      decreases fuel, And(l, r), 1
    {
      hide Atom, Eval, Exec, EvalAgrees, ExecAgrees, Chain, FlagsKept, CallersKept, Scopes, Settled;
      ChainFacts(lib, stack);
      var c1, c2;
      ok, c1 := Operand(l, fuel);
      if !ok {
        OperandDry(lib, And(l, r), l, fuel, old(stack), c1, stack, c1);
        return false, c1;
      }
      ghost var m := stack;
      ChainFacts(lib, stack);
      if !Truth(c1) {
        AndDone(lib, l, r, fuel, old(stack), c1, m, ok, c1, m);
        return true, FromBool(false);
      }
      ok, c2 := Operand(r, fuel);
      c := FromBool(Truth(c2));
      AndDone(lib, l, r, fuel, old(stack), c1, m, ok, c2, stack);
    }

    method EvalOr(l: Expr, r: Expr, fuel: nat) returns (ok: bool, c: Cell)
      requires Chain(lib, stack) && !Pending(Top(stack))
      modifies `stack
      ensures Evaluated(lib, Eval(lib, Or(l, r), WorldOf(old(stack)), fuel), old(stack), ok, c, stack)
      decreases fuel, Or(l, r), 1
    {
      hide Atom, Eval, Exec, EvalAgrees, ExecAgrees, Chain, FlagsKept, CallersKept, Scopes, Settled;
      ChainFacts(lib, stack);
      var c1, c2;
      ok, c1 := Operand(l, fuel);
      if !ok {
        OperandDry(lib, Or(l, r), l, fuel, old(stack), c1, stack, c1);
        return false, c1;
      }
      ghost var m := stack;
      ChainFacts(lib, stack);
      if Truth(c1) {
        OrDone(lib, l, r, fuel, old(stack), c1, m, ok, c1, m);
        return true, FromBool(true);
      }
      ok, c2 := Operand(r, fuel);
      c := FromBool(Truth(c2));
      OrDone(lib, l, r, fuel, old(stack), c1, m, ok, c2, stack);
    }

    method EvalNot(a: Expr, fuel: nat) returns (ok: bool, c: Cell)
      requires Chain(lib, stack) && !Pending(Top(stack))
      modifies `stack
      ensures Evaluated(lib, Eval(lib, Not(a), WorldOf(old(stack)), fuel), old(stack), ok, c, stack)
      decreases fuel, Not(a), 1
    {
      hide Eval, Exec, EvalAgrees, ExecAgrees, Chain, FlagsKept, CallersKept, Scopes, Settled;
      ChainFacts(lib, stack);
      ok, c := Evaluate(a, fuel);
      NotDone(lib, a, fuel, old(stack), ok, c, stack);
      c := FromBool(!Truth(c));
    }

    /** Evaluates arguments in the caller's context, up to the first that cannot be bound. */
    method BindArgs(args: Args, sc: Scope, fuel: nat) returns (ok: bool, r: Option<Scope>)
      requires Chain(lib, stack)
      modifies `stack
      ensures Bound(lib, args, sc, fuel, old(stack), ok, r, stack)
      decreases fuel, args, 3
    {
      hide Atom, Eval, EvalArgs, EvalAgrees, Chain, FlagsKept, Scopes, Settled;
      ChainFacts(lib, stack);
      match args {
        case NoArgs =>
          NoArgsDone(lib, sc, fuel, stack);
          return true, Some(sc);
        case Arg(name, e, next) =>
          var c;
          ok, c := Operand(e, fuel);
          ghost var m := stack;
          r := None;
          if ok {
            ChainFacts(lib, stack);
            var sc1 := Bind(sc, name, c);
            if sc1.Some? {
              ok, r := BindArgs(next, sc1.value, fuel);
              ArgDone(lib, args, sc, fuel, old(stack), true, c, m, ok, r, stack);
              return;
            }
          }
          ArgDone(lib, args, sc, fuel, old(stack), ok, c, m, ok, r, m);
      }
    }

    /** nasl_func_call. */
    method EvalCall(f: string, args: Args, fuel: nat) returns (ok: bool, c: Cell)
      requires Chain(lib, stack) && !Pending(Top(stack))
      modifies `stack
      ensures Evaluated(lib, Eval(lib, Call(f, args), WorldOf(old(stack)), fuel), old(stack), ok, c, stack)
      decreases fuel, Call(f, args), 1
    {
      hide Eval, Exec, EvalArgs, EvalAgrees, ExecAgrees, Chain, FlagsKept, CallersKept, Scopes, Settled;
      ChainFacts(lib, stack);
      var def := FindFun(Scopes(stack), f);
      if def.None? && f !in lib.names {
        UnknownDone(lib, f, args, fuel, stack);
        return true, Null;
      }
      var sc;
      ok, sc := BindArgs(args, FreshScope(lib), fuel);
      if !ok {
        ArgsDryDone(lib, f, args, fuel, old(stack), sc, stack);
        return false, Null;
      }
      ghost var m := stack;
      StillCalm(old(stack), m);
      if sc.None? || (def.None? && f != EXIT) || (def.Some? && fuel == 0) {
        CallDone(lib, f, args, fuel, old(stack), sc, m);
        if sc.None? { return true, Null; }
        if def.None? { return true, lib.run(f, sc.value); }
        return false, Null;
      }
      if def.None? {
        c := ExitCell(lib, sc.value);
        ExitDone(lib, args, fuel, old(stack), sc.value, m);
        stack := AllReturn(stack, c);
        return true, c;
      }
      PushChain(lib, stack, sc.value);
      stack := stack + [Ctx(None, false, false, sc.value)];
      ok, c := Execute(def.value, fuel - 1);
      FunctionDone(lib, f, args, fuel, old(stack), sc.value, m, ok, c, stack);
      if ok {
        c := if Top(stack).ret.Some? then Top(stack).ret.value else Fake;
        stack := stack[..|stack| - 1];
      }
    }

    /** nasl_exec on a statement. */
    method Execute(s: Stmt, fuel: nat) returns (ok: bool, c: Cell)
      requires Chain(lib, stack)
      modifies `stack
      ensures Executed(lib, Exec(lib, s, WorldOf(old(stack)), fuel), old(stack), ok, c, stack)
      decreases fuel, s, 4
    {
      hide Exec, ExecAgrees, Chain, CallersKept, Scopes;
      ChainFacts(lib, stack);
      var t := Top(stack);
      if t.ret.Some? || t.brk || t.cont {
        c := if t.ret.Some? then t.ret.value else Fake;
        HeldBack(lib, Nothing, s, fuel, stack, c);
        return true, c;
      }
      match s {
        case Nop => ok, c := ExecSimple(s, fuel);
        case Do(e) => ok, c := ExecDo(e, fuel);
        case Block(s1, s2) => ok, c := ExecBlock(s1, s2, fuel);
        case If(cond, s1, s2) => ok, c := ExecIf(cond, s1, s2, fuel);
        case For(init, cond, step, body) => ok, c := ExecFor(init, cond, step, body, fuel);
        case While(cond, body) => ok, c := ExecWhile(cond, body, fuel);
        case Repeat(body, cond) => ok, c := ExecRepeat(body, cond, fuel);
        case Foreach(x, a, body) => ok, c := ExecForeach(x, a, body, fuel);
        case Repeated(call, n) => ok, c := ExecRepeated(call, n, fuel);
        case FunDef(f, body) => ok, c := ExecSimple(s, fuel);
        case Return(e) => ok, c := ExecReturn(e, fuel);
        case Break => ok, c := ExecSimple(s, fuel);
        case Continue => ok, c := ExecSimple(s, fuel);
      }
    }

    /** Statements that run nothing: a jump, a declaration, or nothing at all. */
    method ExecSimple(s: Stmt, fuel: nat) returns (ok: bool, c: Cell)
      requires Chain(lib, stack) && !Pending(Top(stack))
      requires s.Nop? || s.FunDef? || s.Break? || s.Continue?
      modifies `stack
      ensures Executed(lib, Exec(lib, s, WorldOf(old(stack)), fuel), old(stack), ok, c, stack)
    {
      hide Executed, Exec, Chain, Scopes, Define, FindFun;
      ChainFacts(lib, stack);
      var n := |stack| - 1;
      ok := true;
      match s {
        case Nop =>
          NopDone(lib, fuel, stack);
          c := Null;
        case Break =>
          stack, c := stack[n := stack[n].(brk := true)], Fake;
          JumpDone(lib, s, fuel, old(stack), stack);
        case Continue =>
          stack, c := stack[n := stack[n].(cont := true)], Fake;
          JumpDone(lib, s, fuel, old(stack), stack);
        case FunDef(f, body) =>
          // insert_nasl_func: a name known along the chain or built in cannot be defined again
          DeclareDone(lib, f, body, fuel, stack);
          if FindFun(Scopes(stack), f).Some? || f in lib.names {
            c := Null;
          } else {
            stack, c := Rescope(stack, Define(Scopes(stack), f, body)), Fake;
          }
      }
    }

    method ExecDo(e: Expr, fuel: nat) returns (ok: bool, c: Cell)
      requires Chain(lib, stack) && !Pending(Top(stack))
      modifies `stack
      ensures Executed(lib, Exec(lib, Do(e), WorldOf(old(stack)), fuel), old(stack), ok, c, stack)
      decreases fuel, Do(e), 3
    {
      hide Executed, Evaluated, Exec, Chain, Scopes;
      ChainFacts(lib, stack);
      ok, c := Evaluate(e, fuel);
      DoDone(lib, e, fuel, old(stack), ok, c, stack);
    }

    method ExecBlock(s1: Stmt, s2: Stmt, fuel: nat) returns (ok: bool, c: Cell)
      requires Chain(lib, stack) && !Pending(Top(stack))
      modifies `stack
      ensures Executed(lib, Exec(lib, Block(s1, s2), WorldOf(old(stack)), fuel), old(stack), ok, c, stack)
      decreases fuel, Block(s1, s2), 3
    {
      hide Eval, Exec, EvalAgrees, ExecAgrees, Chain, FlagsKept, CallersKept, Scopes, Settled;
      ok, c := Execute(s1, fuel);
      ghost var m, ok1, c1 := stack, ok, c;
      if ok {
        ChainFacts(lib, stack);
        if s2 != Nop && !Looping(Top(stack)) {
          ok, c := Execute(s2, fuel);
        }
      }
      BlockDone(lib, s1, s2, fuel, old(stack), ok1, c1, m, ok, c, stack);
    }

    method ExecIf(cond: Expr, s1: Stmt, s2: Stmt, fuel: nat) returns (ok: bool, c: Cell)
      requires Chain(lib, stack) && !Pending(Top(stack))
      modifies `stack
      ensures Executed(lib, Exec(lib, If(cond, s1, s2), WorldOf(old(stack)), fuel), old(stack), ok, c, stack)
      decreases fuel, If(cond, s1, s2), 3
    {
      hide Eval, Exec, EvalAgrees, ExecAgrees, Chain, FlagsKept, CallersKept, Scopes, Settled, Executed;
      ok, c := Evaluate(cond, fuel);
      ghost var n, c1 := stack, c;
      if !ok || (!Truth(c) && s2 == Nop) {
        IfEnds(lib, cond, s1, s2, fuel, old(stack), ok, c, n);
        return ok, if ok then Fake else c;
      }
      ChainFacts(lib, stack);
      var branch := if Truth(c) then s1 else s2;
      ok, c := Execute(branch, fuel);
      IfRuns(lib, cond, s1, s2, fuel, old(stack), c1, n, ok, c, stack);
    }

    /** nasl_return. */
    method ExecReturn(e: Expr, fuel: nat) returns (ok: bool, c: Cell)
      requires Chain(lib, stack) && !Pending(Top(stack))
      modifies `stack
      ensures Executed(lib, Exec(lib, Return(e), WorldOf(old(stack)), fuel), old(stack), ok, c, stack)
      decreases fuel, Return(e), 3
    {
      hide Eval, Exec, EvalAgrees, ExecAgrees, Chain, FlagsKept, CallersKept, Scopes, Settled, Executed;
      ok, c := Evaluate(e, fuel);
      if ok { ChainFacts(lib, stack); }
      ReturnDone(lib, e, fuel, old(stack), ok, c, stack);
      if ok {
        SetReturn(if c == Null then Fake else c);
        c := Fake;
      }
    }

    /** Sets the return value up to the nearest function context. */
    method SetReturn(c: Cell)
      requires stack != []
      modifies `stack
      ensures stack == MarkReturn(old(stack), c, |old(stack)| - 1)
    {
      var i := |stack| - 1;
      while true
        invariant 0 <= i < |stack| == |old(stack)|
        invariant MarkReturn(stack, c, i) == MarkReturn(old(stack), c, |stack| - 1)
        decreases i
      {
        stack := stack[i := stack[i].(ret := Some(c))];
        if stack[i].scope.isFunction || i == 0 { break; }
        i := i - 1;
      }
    }

    /** One iteration of a loop, from a context without pending completion. */
    method RunLap(k: Kind, fuel: nat) returns (lap: Lap)
      requires Chain(lib, stack) && stack != [] && !Pending(Top(stack))
      modifies `stack
      ensures Lapped(lib, k, fuel, old(stack), lap, stack)
      decreases fuel, k, 3
    {
      match k
      case ForLoop(_, _, _) => lap := ForLap(k, fuel);
      case UntilLoop(_, _) => lap := UntilLap(k, fuel);
    }

    method ForLap(k: Kind, fuel: nat) returns (lap: Lap)
      requires k.ForLoop? && Chain(lib, stack) && !Pending(Top(stack))
      modifies `stack
      ensures Lapped(lib, k, fuel, old(stack), lap, stack)
      decreases fuel, k, 2
    {
      hide Eval, Exec, EvalAgrees, ExecAgrees, Chain, FlagsKept, CallersKept, Scopes, Settled, Lapped;
      ChainFacts(lib, stack);
      ghost var m := stack;
      var ok, c := Evaluate(k.cond, fuel);
      ghost var n, c1 := stack, c;
      if !ok || !Truth(c) {
        ForLapEnds(lib, k, fuel, m, ok, c1, n);
        return if ok then Stop(if c == Null then Null else Fake) else Dry;
      }
      ChainFacts(lib, stack);
      StillCalm(m, n);
      ok, c := Execute(k.body, fuel);
      ghost var o, c2 := stack, c;
      if ok { ChainFacts(lib, stack); }
      if !ok || Top(stack).brk {
        ForLapBreaks(lib, k, fuel, m, c1, n, ok, c2, o);
        if ok { ClearLoopFlags(); }
        return if ok then Stop(Fake) else Dry;
      }
      Consumed(lib, Exec(lib, k.body, WorldOf(n), fuel), n, c2, o);
      ClearLoopFlags();
      ok, c := Evaluate(k.step, fuel);
      ForLapGoes(lib, k, fuel, m, c1, n, c2, o, ok, c, stack);
      lap := if ok then Go else Dry;
    }

    method UntilLap(k: Kind, fuel: nat) returns (lap: Lap)
      requires k.UntilLoop? && Chain(lib, stack) && !Pending(Top(stack))
      modifies `stack
      ensures Lapped(lib, k, fuel, old(stack), lap, stack)
      decreases fuel, k, 2
    {
      hide Eval, Exec, EvalAgrees, ExecAgrees, Chain, FlagsKept, CallersKept, Scopes, Settled, Lapped;
      ChainFacts(lib, stack);
      ghost var m := stack;
      var ok, c := Execute(k.body, fuel);
      ghost var n, c1 := stack, c;
      if ok { ChainFacts(lib, stack); }
      if !ok || Top(stack).brk {
        UntilLapBreaks(lib, k, fuel, m, ok, c1, n);
        if ok { ClearLoopFlags(); }
        return if ok then Stop(Fake) else Dry;
      }
      Consumed(lib, Exec(lib, k.body, WorldOf(m), fuel), m, c1, n);
      ClearLoopFlags();
      ok, c := Evaluate(k.cond, fuel);
      UntilLapGoes(lib, k, fuel, m, c1, n, ok, c, stack);
      lap := if !ok then Dry else if Truth(c) then Stop(Fake) else Go;
    }

    /** The loop takes the break or continue its body left behind. */
    method ClearLoopFlags()
      requires stack != []
      modifies `stack
      ensures stack == Unlooped(old(stack))
    {
      stack := stack[|stack| - 1 := Top(stack).(brk := false, cont := false)];
    }

    /** The loops of nasl_exec: `for (;;)` until the iteration says stop or a return is pending. */
    method RunLoop(k: Kind, fuel: nat) returns (ok: bool, c: Cell)
      requires Chain(lib, stack) && !Looping(Top(stack))
      modifies `stack
      ensures Looped(lib, k, fuel, old(stack), ok, c, stack)
      decreases fuel, k.body, 8
    {
      hide LoopMeaning, ExecAgrees, Chain, CallersKept, Scopes, Settled, GoesOn;
      ChainFacts(lib, stack);
      Unmoved(stack);
      ghost var m0 := stack;
      ghost var out := LoopMeaning(lib, k, WorldOf(m0), fuel);
      var f: nat := fuel;
      LoopStarts(lib, k, f, m0);
      while true
        invariant Chain(lib, stack) && stack != [] && CallersKept(m0, stack)
        invariant f <= fuel && GoesOn(lib, k, f, out, m0, stack) && (Top(m0).ret.Some? ==> stack == m0)
        decreases f
      {
        ChainFacts(lib, stack);
        if Top(stack).ret.Some? {
          c := Top(stack).ret.value;
          LoopLeft(lib, k, f, out, m0, c, stack);
          return true, c;
        }
        ghost var m := stack;
        LoopBefore(lib, k, f, out, m0, m);
        if f == 0 {
          LoopDry(lib, k, WorldOf(stack));
          Dryness(out, m0, Null, stack);
          return false, Null;
        }
        f := f - 1;
        var lap := RunLap(k, f);
        match lap {
          case Dry =>
            Dryness(out, m0, Null, stack);
            return false, Null;
          case Stop(r) =>
            CallersKeptTransitive(m0, m, stack);
            AgreesSince(out, m0, m, r, stack);
            return true, r;
          case Go =>
            CallersKeptTransitive(m0, m, stack);
            ChainFacts(lib, stack);
            GoesOnAgain(lib, k, f + 1, out, m0, m, stack);
        }
      }
    }

    method ExecFor(init: Expr, cond: Expr, step: Expr, body: Stmt, fuel: nat) returns (ok: bool, c: Cell)
      requires Chain(lib, stack) && !Pending(Top(stack))
      modifies `stack
      ensures var s := For(init, cond, step, body);
              Executed(lib, Exec(lib, s, WorldOf(old(stack)), fuel), old(stack), ok, c, stack)
      decreases fuel, For(init, cond, step, body), 3
    {
      hide Eval, Exec, EvalAgrees, ExecAgrees, Chain, FlagsKept, CallersKept, Scopes, Settled, Executed;
      ChainFacts(lib, stack);
      ok, c := Evaluate(init, fuel);
      ghost var n, ok1, c1 := stack, ok, c;
      if ok {
        StillCalm(old(stack), n);
        ok, c := RunLoop(ForLoop(cond, step, body), fuel);
      }
      ForDone(lib, init, ForLoop(cond, step, body), fuel, old(stack), ok1, c1, n, ok, c, stack);
    }

    method ExecWhile(cond: Expr, body: Stmt, fuel: nat) returns (ok: bool, c: Cell)
      requires Chain(lib, stack) && !Pending(Top(stack))
      modifies `stack
      ensures var s := While(cond, body);
              Executed(lib, Exec(lib, s, WorldOf(old(stack)), fuel), old(stack), ok, c, stack)
      decreases fuel, While(cond, body), 3
    {
      hide Eval, Exec, EvalAgrees, ExecAgrees, Chain, FlagsKept, CallersKept, Scopes, Settled, Executed;
      ChainFacts(lib, stack);
      ok, c := RunLoop(ForLoop(cond, Nothing, body), fuel);
      WhileDone(lib, cond, body, fuel, old(stack), ok, c, stack);
    }

    method ExecRepeat(body: Stmt, cond: Expr, fuel: nat) returns (ok: bool, c: Cell)
      requires Chain(lib, stack) && !Pending(Top(stack))
      modifies `stack
      ensures var s := Repeat(body, cond);
              Executed(lib, Exec(lib, s, WorldOf(old(stack)), fuel), old(stack), ok, c, stack)
      decreases fuel, Repeat(body, cond), 3
    {
      hide Eval, Exec, EvalAgrees, ExecAgrees, Chain, FlagsKept, CallersKept, Scopes, Settled, Executed;
      ChainFacts(lib, stack);
      ok, c := RunLoop(UntilLoop(body, cond), fuel);
      RepeatDone(lib, body, cond, fuel, old(stack), ok, c, stack);
    }

    method ExecForeach(x: string, a: Expr, body: Stmt, fuel: nat) returns (ok: bool, c: Cell)
      requires Chain(lib, stack) && !Pending(Top(stack))
      modifies `stack
      ensures var s := Foreach(x, a, body);
              Executed(lib, Exec(lib, s, WorldOf(old(stack)), fuel), old(stack), ok, c, stack)
      decreases fuel, Foreach(x, a, body), 3
    {
      hide Eval, Exec, EvalAgrees, ExecAgrees, Chain, FlagsKept, CallersKept, Scopes, Settled, Find, Resolve, Each;
      hide Rescope, Elements, Executed;
      ChainFacts(lib, stack);
      var i := Locate(x);
      ok, c := Evaluate(a, fuel);
      ghost var n, ok1, c1 := stack, ok, c;
      if ok {
        Lengths(Rescope(old(stack), Resolve(Scopes(old(stack)), x)), n);
        StillCalm(Rescope(old(stack), Resolve(Scopes(old(stack)), x)), n);
        ok := RunEach(x, i, Elements(c), body, fuel);
        c := Fake;
      }
      ForeachDone(lib, x, a, body, fuel, old(stack), ok1, c1, n, ok, c, stack);
    }

    /** The iterations of a `foreach` over `elems`; variable `x` lives in context `i`. */
    method RunEach(x: string, i: nat, elems: seq<Value>, body: Stmt, fuel: nat) returns (ok: bool)
      requires Chain(lib, stack) && !Looping(Top(stack)) && i < |stack|
      modifies `stack
      ensures ok ==> Chain(lib, stack) && CallersKept(old(stack), stack)
      ensures ExecAgrees(Each(lib, x, i, elems, body, WorldOf(old(stack)), fuel), old(stack), ok, Fake, stack)
      decreases fuel, body, 6
    {
      hide Exec, ExecAgrees, Chain, CallersKept, Scopes, Settled, Each, Put, Rescope, Unlooped;
      ghost var m0 := stack;
      ghost var out := Each(lib, x, i, elems, body, WorldOf(m0), fuel);
      Unmoved(m0);
      var j := 0;
      assert elems[0..] == elems;
      while j < |elems|
        invariant 0 <= j <= |elems| && i < |stack|
        invariant Chain(lib, stack) && CallersKept(m0, stack) && Since(m0, stack) && !Looping(Top(stack))
        invariant out == Each(lib, x, i, elems[j..], body, WorldOf(stack), fuel)
      {
        ghost var m := stack;
        ChainFacts(lib, stack);
        RescopedPut(lib, m, i, x, Val(elems[j]));
        stack := Rescope(stack, Put(Scopes(stack), i, x, Val(elems[j])));
        var c;
        ok, c := Execute(body, fuel);
        EachDone(lib, x, i, elems[j..], body, fuel, m, ok, c, stack);
        if !ok {
          Dryness(out, m0, Fake, stack);
          return false;
        }
        CallersKeptTransitive(m0, m, Unlooped(stack));
        if Top(stack).ret.Some? {
          AgreesThen(out, m0, m, stack);
          return true;
        }
        if Top(stack).brk {
          ClearLoopFlags();
          AgreesThen(out, m0, m, stack);
          return true;
        }
        ClearLoopFlags();
        SinceThen(m0, m, stack);
        assert elems[j..][1..] == elems[j + 1..];
        j := j + 1;
      }
      EachOver(lib, x, i, elems[j..], body, fuel, m0, stack);
      return true;
    }

    method ExecRepeated(call: Expr, times: Expr, fuel: nat) returns (ok: bool, c: Cell)
      requires Chain(lib, stack) && !Pending(Top(stack))
      modifies `stack
      ensures var s := Repeated(call, times);
              Executed(lib, Exec(lib, s, WorldOf(old(stack)), fuel), old(stack), ok, c, stack)
      decreases fuel, Repeated(call, times), 3
    {
      hide Eval, Exec, EvalAgrees, ExecAgrees, Chain, FlagsKept, CallersKept, Scopes, Settled, Executed;
      ChainFacts(lib, stack);
      ok, c := Evaluate(times, fuel);
      ghost var n, ok1, c1 := stack, ok, c;
      if ok {
        StillCalm(old(stack), n);
        if lib.toInt(c) <= 0 {
          RepeatedDone(lib, call, times, fuel, old(stack), true, c1, n, true, n);
          return true, Null;
        }
        ok := RunTimes(call, lib.toInt(c), fuel);
      }
      c := Fake;
      RepeatedDone(lib, call, times, fuel, old(stack), ok1, c1, n, ok, stack);
    }

    method RunTimes(call: Expr, n: nat, fuel: nat) returns (ok: bool)
      requires Chain(lib, stack) && !Looping(Top(stack))
      modifies `stack
      ensures TimesDone(lib, call, n, fuel, old(stack), ok, stack)
      decreases fuel, call, 4
    {
      hide Eval, EvalAgrees, Chain, FlagsKept, Scopes, Settled;
      ghost var m0 := stack;
      ChainFacts(lib, stack);
      Unmoved(m0);
      for k := 0 to n
        invariant Chain(lib, stack) && FlagsKept(m0, stack) && stack != [] && !Looping(Top(stack))
        invariant |stack| == |m0| && stack == Settled(m0, WorldOf(stack)) && (Top(m0).ret.Some? ==> stack == m0)
        invariant Times(lib, call, n, WorldOf(m0), fuel) == Times(lib, call, n - k, WorldOf(stack), fuel)
      {
        ghost var m := stack;
        var c;
        ok, c := Evaluate(call, fuel);
        TimesStep(lib, call, n - k, fuel, m0, m, ok, c, stack);
        if !ok { return false; }
        FlagsKeptTransitive(m0, m, stack);
        StillCalm(m0, stack);
      }
      return true;
    }
  }

  datatype ScriptResult = OutOfFuel | Ran(error: bool, vars: map<string, Cell>)

  /** exec_nasl_script on a parsed script: runs it in a fresh top-level context. */
  method RunScript(lib: Library, script: Stmt, fuel: nat) returns (r: ScriptResult)
    ensures match Exec(lib, script, World([Scope(false, lib.predefined, [], map[])], None), fuel)
            case ExecDry => r == OutOfFuel
            case ExecOut(w, comp) => r == Ran(comp == Normal(Null), w.st[0].vars)
  {
    hide Exec, Chain, CallersKept, ExecAgrees, Flagged, Settled;
    var i := new Interpreter(lib);
    assert Scopes(i.stack) == [Scope(false, lib.predefined, [], map[])];
    ghost var m := i.stack;
    ghost var out := Exec(lib, script, WorldOf(m), fuel);
    var ok, c := i.Execute(script, fuel);
    if !ok {
      Dryness(out, m, c, i.stack);
      return OutOfFuel;
    }
    Outcome(out, m, c, i.stack);
    r := Ran(c == Null, i.stack[0].scope.vars);
  }
}
