/** The fuel of the structured semantics only decides whether a run is seen to its
    end: more of it never changes a result. */
module NaslFuel {
  import opened NaslSemantics
  import opened Options

  lemma {:induction false} EvalMore(lib: Library, e: Expr, w: World, fuel: nat)
    requires w.st != [] && Eval(lib, e, w, fuel).EvalOut?
    ensures Eval(lib, e, w, fuel + 1) == Eval(lib, e, w, fuel)
    decreases fuel, e, 1
  {
    if w.gone.Some? { return; }
    match e
    case Nothing =>
    case Const(_) =>
    case Var(_) =>
    case Assign(x, rhs) => EvalMore(lib, rhs, w.(st := Resolve(w.st, x)), fuel);
    case Prim(_, l, r) =>
      AtomMore(lib, l, w, fuel);
      AtomMore(lib, r, Atom(lib, l, w, fuel).w, fuel);
    case And(l, r) =>
      AtomMore(lib, l, w, fuel);
      var out := Atom(lib, l, w, fuel);
      if Truth(out.cell) { AtomMore(lib, r, out.w, fuel); }
    case Or(l, r) =>
      AtomMore(lib, l, w, fuel);
      var out := Atom(lib, l, w, fuel);
      if !Truth(out.cell) { AtomMore(lib, r, out.w, fuel); }
    case Not(a) => EvalMore(lib, a, w, fuel);
    case Call(f, args) =>
      var def := FindFun(w.st, f);
      if def.Some? || f in lib.names {
        ArgsMore(lib, args, FreshScope(lib), w, fuel);
        var out := EvalArgs(lib, args, FreshScope(lib), w, fuel);
        if out.sc.Some? && def.Some? { ExecMore(lib, def.value, World(out.w.st + [out.sc.value], None), fuel - 1); }
      }
  }

  lemma {:induction false} AtomMore(lib: Library, e: Expr, w: World, fuel: nat)
    requires w.st != [] && Atom(lib, e, w, fuel).EvalOut?
    ensures Atom(lib, e, w, fuel + 1) == Atom(lib, e, w, fuel)
    decreases fuel, e, 2
  {
    if !e.Nothing? && !e.Const? { EvalMore(lib, e, w, fuel); }
  }

  lemma {:induction false} ArgsMore(lib: Library, args: Args, sc: Scope, w: World, fuel: nat)
    requires w.st != [] && EvalArgs(lib, args, sc, w, fuel).ArgsOut?
    ensures EvalArgs(lib, args, sc, w, fuel + 1) == EvalArgs(lib, args, sc, w, fuel)
    decreases fuel, args, 1
  {
    match args
    case NoArgs =>
    case Arg(name, e, next) =>
      AtomMore(lib, e, w, fuel);
      var out := Atom(lib, e, w, fuel);
      var sc1 := Bind(sc, name, out.cell);
      if sc1.Some? { ArgsMore(lib, next, sc1.value, out.w, fuel); }
  }

  /** A run that ends, ends the same way with any larger amount of fuel. */
  lemma {:induction false} ExecMore(lib: Library, s: Stmt, w: World, fuel: nat)
    requires w.st != [] && Exec(lib, s, w, fuel).ExecOut?
    ensures Exec(lib, s, w, fuel + 1) == Exec(lib, s, w, fuel)
    decreases fuel, s, 2
  {
    if w.gone.Some? { return; }
    match s
    case Nop =>
    case Do(e) => EvalMore(lib, e, w, fuel);
    case Block(s1, s2) =>
      ExecMore(lib, s1, w, fuel);
      var out := Exec(lib, s1, w, fuel);
      if out.comp.Normal? && s2 != Nop { ExecMore(lib, s2, out.w, fuel); }
    case If(c, t, f) =>
      EvalMore(lib, c, w, fuel);
      var out := Eval(lib, c, w, fuel);
      if Truth(out.cell) { ExecMore(lib, t, out.w, fuel); }
      else if f != Nop { ExecMore(lib, f, out.w, fuel); }
    case For(init, c, step, body) =>
      EvalMore(lib, init, w, fuel);
      LoopMore(lib, c, step, body, Eval(lib, init, w, fuel).w, fuel);
    case While(c, body) => LoopMore(lib, c, Nothing, body, w, fuel);
    case Repeat(body, c) => UntilMore(lib, body, c, w, fuel);
    case Foreach(x, a, body) =>
      EvalMore(lib, a, w.(st := Resolve(w.st, x)), fuel);
      var out := Eval(lib, a, w.(st := Resolve(w.st, x)), fuel);
      EachMore(lib, x, Find(w.st, x), Elements(out.cell), body, out.w, fuel);
    case Repeated(call, times) =>
      EvalMore(lib, times, w, fuel);
      var out := Eval(lib, times, w, fuel);
      if lib.toInt(out.cell) > 0 { TimesMore(lib, call, lib.toInt(out.cell), out.w, fuel); }
    case FunDef(_, _) =>
    case Return(e) => EvalMore(lib, e, w, fuel);
    case Break =>
    case Continue =>
  }

  /** One more iteration costs one unit of fuel. */
  lemma LoopUnroll(lib: Library, c: Expr, step: Expr, body: Stmt, w: World, fuel: nat)
    requires w.st != [] && Eval(lib, c, w, fuel).EvalOut? && Truth(Eval(lib, c, w, fuel).cell)
    requires var w1 := Eval(lib, c, w, fuel).w; Exec(lib, body, w1, fuel).ExecOut?
    requires var out := Exec(lib, body, Eval(lib, c, w, fuel).w, fuel);
             (out.comp.Normal? || out.comp.Continued?) && Eval(lib, step, out.w, fuel).EvalOut?
    ensures var out := Exec(lib, body, Eval(lib, c, w, fuel).w, fuel);
            Loop(lib, c, step, body, w, fuel + 1) == Loop(lib, c, step, body, Eval(lib, step, out.w, fuel).w, fuel)
  {
    hide Eval, Exec;
  }

  lemma UntilUnroll(lib: Library, body: Stmt, c: Expr, w: World, fuel: nat)
    requires w.st != [] && Exec(lib, body, w, fuel).ExecOut?
    requires var out := Exec(lib, body, w, fuel);
             (out.comp.Normal? || out.comp.Continued?) && Eval(lib, c, out.w, fuel).EvalOut?
             && !Truth(Eval(lib, c, out.w, fuel).cell)
    ensures var out := Exec(lib, body, w, fuel);
            Until(lib, body, c, w, fuel + 1) == Until(lib, body, c, Eval(lib, c, out.w, fuel).w, fuel)
  {
    hide Eval, Exec;
  }

  /** The parts of an iteration of a loop that ends have ended. */
  lemma LoopParts(lib: Library, c: Expr, step: Expr, body: Stmt, w: World, fuel: nat)
    requires w.st != [] && w.gone.None? && Loop(lib, c, step, body, w, fuel).ExecOut?
    ensures fuel > 0 && Eval(lib, c, w, fuel - 1).EvalOut?
    ensures Truth(Eval(lib, c, w, fuel - 1).cell) ==>
      var out := Exec(lib, body, Eval(lib, c, w, fuel - 1).w, fuel - 1);
      out.ExecOut? && (out.comp.Normal? || out.comp.Continued? ==> Eval(lib, step, out.w, fuel - 1).EvalOut?)
  {
    hide Eval, Exec;
  }

  /** A loop that stops in its first iteration needs no more fuel than that. */
  lemma LoopStops(lib: Library, c: Expr, step: Expr, body: Stmt, w: World, fuel: nat)
    requires w.st != [] && Eval(lib, c, w, fuel).EvalOut? && Eval(lib, c, w, fuel + 1) == Eval(lib, c, w, fuel)
    requires var e := Eval(lib, c, w, fuel);
      Truth(e.cell) ==>
        var out := Exec(lib, body, e.w, fuel);
        out.ExecOut? && Exec(lib, body, e.w, fuel + 1) == out && (out.comp.Broke? || out.comp.Returned?)
    ensures Loop(lib, c, step, body, w, fuel + 2) == Loop(lib, c, step, body, w, fuel + 1)
  {
    hide Eval, Exec;
  }

  lemma {:induction false} LoopMore(lib: Library, c: Expr, step: Expr, body: Stmt, w: World, fuel: nat)
    requires w.st != [] && Loop(lib, c, step, body, w, fuel).ExecOut?
    ensures Loop(lib, c, step, body, w, fuel + 1) == Loop(lib, c, step, body, w, fuel)
    decreases fuel, body, 3
  {
    hide Eval, Exec, Loop;
    if w.gone.Some? { return; }
    LoopParts(lib, c, step, body, w, fuel);
    var f: nat := fuel - 1;
    EvalMore(lib, c, w, f);
    var w1 := Eval(lib, c, w, f).w;
    if Truth(Eval(lib, c, w, f).cell) {
      ExecMore(lib, body, w1, f);
      var out := Exec(lib, body, w1, f);
      if out.comp.Normal? || out.comp.Continued? {
        EvalMore(lib, step, out.w, f);
        LoopUnroll(lib, c, step, body, w, f);
        LoopUnroll(lib, c, step, body, w, fuel);
        LoopMore(lib, c, step, body, Eval(lib, step, out.w, f).w, f);
        return;
      }
    }
    LoopStops(lib, c, step, body, w, f);
  }

  lemma UntilParts(lib: Library, body: Stmt, c: Expr, w: World, fuel: nat)
    requires w.st != [] && w.gone.None? && Until(lib, body, c, w, fuel).ExecOut?
    ensures fuel > 0 && Exec(lib, body, w, fuel - 1).ExecOut?
    ensures var out := Exec(lib, body, w, fuel - 1);
            out.comp.Normal? || out.comp.Continued? ==> Eval(lib, c, out.w, fuel - 1).EvalOut?
  {
    hide Eval, Exec;
  }

  lemma UntilStops(lib: Library, body: Stmt, c: Expr, w: World, fuel: nat)
    requires w.st != [] && Exec(lib, body, w, fuel).ExecOut? && Exec(lib, body, w, fuel + 1) == Exec(lib, body, w, fuel)
    requires var out := Exec(lib, body, w, fuel);
      out.comp.Normal? || out.comp.Continued? ==>
        var e := Eval(lib, c, out.w, fuel);
        e.EvalOut? && Truth(e.cell) && Eval(lib, c, out.w, fuel + 1) == e
    ensures Until(lib, body, c, w, fuel + 2) == Until(lib, body, c, w, fuel + 1)
  {
    hide Eval, Exec;
  }

  lemma {:induction false} UntilMore(lib: Library, body: Stmt, c: Expr, w: World, fuel: nat)
    requires w.st != [] && Until(lib, body, c, w, fuel).ExecOut?
    ensures Until(lib, body, c, w, fuel + 1) == Until(lib, body, c, w, fuel)
    decreases fuel, body, 3
  {
    hide Eval, Exec, Until;
    if w.gone.Some? { return; }
    UntilParts(lib, body, c, w, fuel);
    var f: nat := fuel - 1;
    ExecMore(lib, body, w, f);
    var out := Exec(lib, body, w, f);
    if out.comp.Normal? || out.comp.Continued? {
      EvalMore(lib, c, out.w, f);
      if !Truth(Eval(lib, c, out.w, f).cell) {
        UntilUnroll(lib, body, c, w, f);
        UntilUnroll(lib, body, c, w, fuel);
        UntilMore(lib, body, c, Eval(lib, c, out.w, f).w, f);
        return;
      }
    }
    UntilStops(lib, body, c, w, f);
  }

  lemma {:induction false} EachMore(lib: Library, x: string, i: nat, elems: seq<Value>, body: Stmt, w: World, fuel: nat)
    requires i < |w.st| && Each(lib, x, i, elems, body, w, fuel).ExecOut?
    ensures Each(lib, x, i, elems, body, w, fuel + 1) == Each(lib, x, i, elems, body, w, fuel)
    decreases fuel, body, 3, |elems|
  {
    hide Eval, Exec;
    if elems != [] {
      var w1 := w.(st := Put(w.st, i, x, Val(elems[0])));
      ExecMore(lib, body, w1, fuel);
      var out := Exec(lib, body, w1, fuel);
      if out.comp.Normal? || out.comp.Continued? { EachMore(lib, x, i, elems[1..], body, out.w, fuel); }
    }
  }

  lemma {:induction false} TimesMore(lib: Library, call: Expr, n: nat, w: World, fuel: nat)
    requires w.st != [] && Times(lib, call, n, w, fuel).ExecOut?
    ensures Times(lib, call, n, w, fuel + 1) == Times(lib, call, n, w, fuel)
    decreases fuel, call, 2, n
  {
    hide Eval, Exec;
    if n > 0 {
      EvalMore(lib, call, w, fuel);
      TimesMore(lib, call, n - 1, Eval(lib, call, w, fuel).w, fuel);
    }
  }

  /** Two runs that end agree, whatever fuel each was given. */
  lemma {:induction false} ExecStable(lib: Library, s: Stmt, w: World, fuel: nat, more: nat)
    requires w.st != [] && fuel <= more && Exec(lib, s, w, fuel).ExecOut?
    ensures Exec(lib, s, w, more) == Exec(lib, s, w, fuel)
    decreases more - fuel
  {
    hide Exec;
    if fuel < more {
      ExecMore(lib, s, w, fuel);
      ExecStable(lib, s, w, fuel + 1, more);
    }
  }
}
