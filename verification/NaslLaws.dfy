/** What the structured semantics says of simple programs, in the language's own terms. */
module NaslLaws {
  import opened NaslSemantics
  import opened Options

  // ----- conditions -----

  /** Null, the fake cell, zero and the empty string are false, everything else is true. */
  ghost predicate IsFalse(c: Cell) {
    c == Null || c == Fake || c == Val(Int(0)) || c == Val(Str(""))
  }

  lemma TruthIs(c: Cell)
    ensures Truth(c) <==> !IsFalse(c)
  {
  }

  lemma IfLaw(lib: Library, e: Expr, t: Stmt, f: Stmt, w: World, fuel: nat)
    requires w.st != [] && w.gone.None? && Eval(lib, e, w, fuel).EvalOut?
    ensures var out := Eval(lib, e, w, fuel);
            Exec(lib, If(e, t, f), w, fuel) ==
            if !IsFalse(out.cell) then Exec(lib, t, out.w, fuel)
            else if f == Nop then ExecOut(out.w, Normal(Fake)) else Exec(lib, f, out.w, fuel)
  {
    hide Eval, Truth;
    TruthIs(Eval(lib, e, w, fuel).cell);
  }

  /** A constant condition: zero and the empty string select the second branch, every other number,
      string and every array the first. */
  lemma IfConstant(lib: Library, v: Value, t: Stmt, f: Stmt, w: World, fuel: nat)
    requires w.st != [] && w.gone.None? && f != Nop
    ensures v == Int(0) || v == Str("") ==> Exec(lib, If(Const(v), t, f), w, fuel) == Exec(lib, f, w, fuel)
    ensures v != Int(0) && v != Str("") ==> Exec(lib, If(Const(v), t, f), w, fuel) == Exec(lib, t, w, fuel)
    ensures Exec(lib, If(Nothing, t, f), w, fuel) == Exec(lib, f, w, fuel)
  {
    hide Exec, IsFalse;
    assert Eval(lib, Const(v), w, fuel) == EvalOut(w, Val(v));
    assert Eval(lib, Nothing, w, fuel) == EvalOut(w, Null);
    IfLaw(lib, Const(v), t, f, w, fuel);
    IfLaw(lib, Nothing, t, f, w, fuel);
    FalseConstants(v);
  }

  lemma FalseConstants(v: Value)
    ensures IsFalse(Val(v)) <==> v == Int(0) || v == Str("")
    ensures IsFalse(Null)
  {
  }

  /** Both operators give one or zero, and the second operand is only evaluated if it decides. */
  lemma AndLaw(lib: Library, l: Expr, r: Expr, w: World, fuel: nat)
    requires w.st != [] && w.gone.None? && Atom(lib, l, w, fuel).EvalOut?
    ensures var a := Atom(lib, l, w, fuel);
      && (IsFalse(a.cell) ==> Eval(lib, And(l, r), w, fuel) == EvalOut(a.w, Val(Int(0))))
      && (!IsFalse(a.cell) ==>
            var b := Atom(lib, r, a.w, fuel);
            && (b.EvalDry? ==> Eval(lib, And(l, r), w, fuel).EvalDry?)
            && (b.EvalOut? ==>
                  Eval(lib, And(l, r), w, fuel) == EvalOut(b.w, Val(Int(if IsFalse(b.cell) then 0 else 1)))))
  {
    hide Atom, Truth;
    var a := Atom(lib, l, w, fuel);
    TruthIs(a.cell);
    var b := Atom(lib, r, a.w, fuel);
    if b.EvalOut? { TruthIs(b.cell); }
  }

  lemma OrLaw(lib: Library, l: Expr, r: Expr, w: World, fuel: nat)
    requires w.st != [] && w.gone.None? && Atom(lib, l, w, fuel).EvalOut?
    ensures var a := Atom(lib, l, w, fuel);
      && (!IsFalse(a.cell) ==> Eval(lib, Or(l, r), w, fuel) == EvalOut(a.w, Val(Int(1))))
      && (IsFalse(a.cell) ==>
            var b := Atom(lib, r, a.w, fuel);
            && (b.EvalDry? ==> Eval(lib, Or(l, r), w, fuel).EvalDry?)
            && (b.EvalOut? ==>
                  Eval(lib, Or(l, r), w, fuel) == EvalOut(b.w, Val(Int(if IsFalse(b.cell) then 0 else 1)))))
  {
    hide Atom, Truth;
    var a := Atom(lib, l, w, fuel);
    TruthIs(a.cell);
    var b := Atom(lib, r, a.w, fuel);
    if b.EvalOut? { TruthIs(b.cell); }
  }

  lemma NotLaw(lib: Library, e: Expr, w: World, fuel: nat)
    requires w.st != [] && w.gone.None? && Eval(lib, e, w, fuel).EvalOut?
    ensures var a := Eval(lib, e, w, fuel);
            Eval(lib, Not(e), w, fuel) == EvalOut(a.w, Val(Int(if IsFalse(a.cell) then 1 else 0)))
  {
    TruthIs(Eval(lib, e, w, fuel).cell);
  }

  /** A `while` whose condition is false is over; otherwise its body runs, a break ends the loop, and after
      a normal end or a continue it starts again. */
  lemma WhileLaw(lib: Library, c: Expr, body: Stmt, w: World, fuel: nat)
    requires w.st != [] && w.gone.None? && Eval(lib, c, w, fuel).EvalOut?
    ensures var e := Eval(lib, c, w, fuel); var out := Exec(lib, While(c, body), w, fuel + 1);
      && (IsFalse(e.cell) ==> out.ExecOut? && out.w == e.w && out.comp.Normal?)
      && (!IsFalse(e.cell) ==>
            var b := Exec(lib, body, e.w, fuel);
            && (b.ExecDry? ==> out.ExecDry?)
            && (b.ExecOut? && b.comp.Broke? ==> out == ExecOut(b.w, Normal(Fake)))
            && (b.ExecOut? && b.comp.Returned? ==> out == b)
            && (b.ExecOut? && (b.comp.Normal? || b.comp.Continued?) && b.w.gone.None? ==>
                  out == Exec(lib, While(c, body), b.w, fuel)))
  {
    hide Exec, Truth;
    var e := Eval(lib, c, w, fuel);
    TruthIs(e.cell);
    WhileIsLoop(lib, c, body, w, fuel + 1);
    var b := Exec(lib, body, e.w, fuel);
    if b.ExecOut? && b.w.gone.None? {
      assert Eval(lib, Nothing, b.w, fuel) == EvalOut(b.w, Null);
      WhileIsLoop(lib, c, body, b.w, fuel);
    }
  }

  lemma WhileIsLoop(lib: Library, c: Expr, body: Stmt, w: World, fuel: nat)
    requires w.st != [] && w.gone.None?
    ensures Exec(lib, While(c, body), w, fuel) == Loop(lib, c, Nothing, body, w, fuel)
  {
  }

  /** A `repeat` runs its body, and again as long as the condition is false. */
  lemma RepeatLaw(lib: Library, body: Stmt, c: Expr, w: World, fuel: nat)
    requires w.st != [] && w.gone.None? && Exec(lib, body, w, fuel).ExecOut?
    requires Exec(lib, body, w, fuel).comp.Normal? && Exec(lib, body, w, fuel).w.gone.None?
    requires Eval(lib, c, Exec(lib, body, w, fuel).w, fuel).EvalOut?
    ensures var e := Eval(lib, c, Exec(lib, body, w, fuel).w, fuel);
            var out := Exec(lib, Repeat(body, c), w, fuel + 1);
            && (!IsFalse(e.cell) ==> out == ExecOut(e.w, Normal(Fake)))
            && (IsFalse(e.cell) && e.w.gone.None? ==> out == Exec(lib, Repeat(body, c), e.w, fuel))
  {
    hide Exec, Truth;
    var e := Eval(lib, c, Exec(lib, body, w, fuel).w, fuel);
    TruthIs(e.cell);
    RepeatIsUntil(lib, body, c, w, fuel + 1);
    if e.w.gone.None? { RepeatIsUntil(lib, body, c, e.w, fuel); }
  }

  lemma RepeatIsUntil(lib: Library, body: Stmt, c: Expr, w: World, fuel: nat)
    requires w.st != [] && w.gone.None?
    ensures Exec(lib, Repeat(body, c), w, fuel) == Until(lib, body, c, w, fuel)
  {
  }

  // ----- variables -----

  /** A variable belongs to the innermost context that has it, and to the current one if none has. */
  lemma {:induction false} FindLaw(st: seq<Scope>, x: string)
    requires st != []
    ensures var i := Find(st, x);
      && (forall k | i < k < |st| :: x !in st[k].vars)
      && (x !in st[i].vars ==> i == |st| - 1 && forall k | 0 <= k < |st| :: x !in st[k].vars)
  {
    var n := |st| - 1;
    if x !in st[n].vars && exists k | 0 <= k < |st| :: x in st[k].vars {
      var k :| 0 <= k < |st| && x in st[k].vars;
      assert st[..n][k] == st[k];
      FindLaw(st[..n], x);
    }
  }

  /** What a chain of contexts holds for `x`. */
  ghost predicate Holds(st: seq<Scope>, x: string, c: Cell) {
    exists i | 0 <= i < |st| ::
      x in st[i].vars && st[i].vars[x] == c && forall k | i < k < |st| :: x !in st[k].vars
  }

  lemma ReadLaw(lib: Library, x: string, w: World, c: Cell, fuel: nat)
    requires w.st != [] && w.gone.None? && Holds(w.st, x, c)
    ensures Eval(lib, Var(x), w, fuel) == EvalOut(w, c)
  {
    FindLaw(w.st, x);
  }

  /** A variable no context has reads as null. */
  lemma UndefinedLaw(lib: Library, x: string, w: World, fuel: nat)
    requires w.st != [] && w.gone.None? && forall k | 0 <= k < |w.st| :: x !in w.st[k].vars
    ensures var out := Eval(lib, Var(x), w, fuel); out.EvalOut? && out.cell == Null && out.w.gone.None?
  {
    FindLaw(w.st, x);
  }

  /** After an assignment the variable holds the value, and every other variable what it held. */
  lemma AssignLaw(lib: Library, x: string, v: Value, w: World, fuel: nat)
    requires w.st != [] && w.gone.None?
    ensures var out := Eval(lib, Assign(x, Const(v)), w, fuel);
      && out.EvalOut? && out.cell == Val(v) && out.w.gone.None? && |out.w.st| == |w.st| && Holds(out.w.st, x, Val(v))
      && forall y, c | y != x && Holds(w.st, y, c) :: Holds(out.w.st, y, c)
  {
    hide Find, Holds;
    FindLaw(w.st, x);
    var i := Find(w.st, x);
    var st := Resolve(w.st, x);
    assert Eval(lib, Const(v), w.(st := st), fuel) == EvalOut(w.(st := st), Val(v));
    var r := Put(st, i, x, Val(v));
    AssignedHolds(w.st, r, i, x, Val(v));
    forall y, c | y != x && Holds(w.st, y, c) ensures Holds(r, y, c) {
      OthersHold(w.st, r, i, x, Val(v), y, c);
    }
  }

  lemma AssignedHolds(st: seq<Scope>, r: seq<Scope>, i: nat, x: string, c: Cell)
    requires i < |st| == |r| && x in r[i].vars && r[i].vars[x] == c
    requires forall k | i < k < |st| :: x !in st[k].vars && r[k] == st[k]
    ensures Holds(r, x, c)
  {
  }

  lemma OthersHold(st: seq<Scope>, r: seq<Scope>, i: nat, x: string, c: Cell, y: string, d: Cell)
    requires i < |st| == |r| && x != y && Holds(st, y, d) && r[i].vars == st[i].vars[x := c]
    requires forall k | 0 <= k < |st| && k != i :: r[k] == st[k]
    ensures Holds(r, y, d)
  {
    var j :| 0 <= j < |st| && y in st[j].vars && st[j].vars[y] == d && forall k | j < k < |st| :: y !in st[k].vars;
    assert y in r[j].vars && r[j].vars[y] == d;
    assert forall k | j < k < |r| :: y !in r[k].vars;
  }

  /** A variable assigned from a function without a return value is null. */
  lemma AssignNothing(lib: Library, x: string, f: string, w: World, fuel: nat)
    requires w.st != [] && w.gone.None? && FindFun(w.st, f) == Some(Nop) && fuel > 0
    ensures var out := Eval(lib, Assign(x, Call(f, NoArgs)), w, fuel);
            out.EvalOut? && out.cell == Fake && Holds(out.w.st, x, Null)
  {
    hide Find, Holds, FindFun;
    FindLaw(w.st, x);
    var i := Find(w.st, x);
    var w1 := w.(st := Resolve(w.st, x));
    SameFuns(w.st, w1.st, f);
    var sc := FreshScope(lib);
    assert EvalArgs(lib, NoArgs, sc, w1, fuel) == ArgsOut(w1, Some(sc));
    var inner := World(w1.st + [sc], None);
    assert Exec(lib, Nop, inner, fuel - 1) == ExecOut(inner, Normal(Null));
    assert inner.st[..|w1.st|] == w1.st;
    assert Eval(lib, Call(f, NoArgs), w1, fuel) == EvalOut(w1, Fake);
    AssignedHolds(w.st, Put(w1.st, i, x, Fake), i, x, Null);
  }

  // ----- functions -----

  /** A function is found if a context has it, the innermost first. */
  lemma {:induction false} FindFunLaw(st: seq<Scope>, f: string)
    ensures match FindFun(st, f)
            case None => forall k | 0 <= k < |st| :: f !in st[k].funs
            case Some(body) => exists i | 0 <= i < |st| ::
              f in st[i].funs && st[i].funs[f] == body && forall k | i < k < |st| :: f !in st[k].funs
  {
    if st != [] && f !in st[|st| - 1].funs {
      var n := |st| - 1;
      FindFunLaw(st[..n], f);
      if FindFun(st[..n], f).Some? {
        var i :| 0 <= i < n && f in st[..n][i].funs && st[..n][i].funs[f] == FindFun(st[..n], f).value
          && forall k | i < k < n :: f !in st[..n][k].funs;
        assert st[i] == st[..n][i];
        assert forall k | i < k < n :: st[k] == st[..n][k];
      }
    }
  }

  /** A function that returns a constant, called where it was defined. */
  lemma ReturnLaw(lib: Library, f: string, v: Value, w: World, fuel: nat)
    requires w.st != [] && w.gone.None? && FindFun(w.st, f).None? && f !in lib.names && fuel > 0
    ensures var def := Exec(lib, FunDef(f, Return(Const(v))), w, fuel);
            def.ExecOut? && def.w.gone.None? && def.w.st != []
            && Eval(lib, Call(f, NoArgs), def.w, fuel) == EvalOut(def.w, Val(v))
  {
    var body := Return(Const(v));
    var d := w.(st := Define(w.st, f, body));
    assert FindFun(d.st, f) == Some(body);
    var sc := FreshScope(lib);
    assert EvalArgs(lib, NoArgs, sc, d, fuel) == ArgsOut(d, Some(sc));
    var inner := World(d.st + [sc], None);
    assert Eval(lib, Const(v), inner, fuel - 1) == EvalOut(inner, Val(v));
    assert Exec(lib, body, inner, fuel - 1) == ExecOut(inner, Returned(Val(v)));
    assert (d.st + [sc])[..|w.st|] == d.st;
  }

  /** Arguments reach the function under their names; the same name twice is an error. */
  lemma NamedArgument(lib: Library, f: string, x: string, v: Value, w: World, fuel: nat)
    requires w.st != [] && w.gone.None? && FindFun(w.st, f) == Some(Return(Var(x))) && fuel > 0
    requires x !in lib.predefined
    ensures Eval(lib, Call(f, Arg(Some(x), Const(v), NoArgs)), w, fuel) == EvalOut(w, Val(v))
    ensures Eval(lib, Call(f, Arg(Some(x), Const(v), Arg(Some(x), Const(v), NoArgs))), w, fuel) == EvalOut(w, Null)
  {
    hide FindFun;
    var sc0 := FreshScope(lib);
    var sc := sc0.(vars := sc0.vars[x := Val(v)]);
    var one := Arg(Some(x), Const(v), NoArgs);
    assert Atom(lib, Const(v), w, fuel) == EvalOut(w, Val(v));
    assert Bind(sc0, Some(x), Val(v)) == Some(sc) && Bind(sc, Some(x), Val(v)).None?;
    assert EvalArgs(lib, NoArgs, sc, w, fuel) == ArgsOut(w, Some(sc));
    assert EvalArgs(lib, one, sc, w, fuel) == ArgsOut(w, None);
    assert EvalArgs(lib, one, sc0, w, fuel) == ArgsOut(w, Some(sc));
    assert EvalArgs(lib, Arg(Some(x), Const(v), one), sc0, w, fuel) == ArgsOut(w, None);
    var inner := World(w.st + [sc], None);
    assert Holds(inner.st, x, Val(v)) by { assert inner.st[|w.st|] == sc; }
    ReadLaw(lib, x, inner, Val(v), fuel - 1);
    assert Exec(lib, Return(Var(x)), inner, fuel - 1) == ExecOut(inner, Returned(Val(v)));
    assert (w.st + [sc])[..|w.st|] == w.st;
  }

  /** Unnamed arguments reach a built-in function in their order. */
  lemma NumberedArguments(lib: Library, f: string, u: Value, v: Value, w: World, fuel: nat)
    requires w.st != [] && w.gone.None? && FindFun(w.st, f).None? && f in lib.names && f != EXIT
    ensures Eval(lib, Call(f, Arg(None, Const(u), Arg(None, Const(v), NoArgs))), w, fuel)
         == EvalOut(w, lib.run(f, Scope(true, lib.predefined, [Val(u), Val(v)], map[])))
  {
    hide FindFun;
    var sc0 := FreshScope(lib);
    var sc1, sc2 := sc0.(nums := [] + [Val(u)]), sc0.(nums := [] + [Val(u)] + [Val(v)]);
    var last := Arg(None, Const(v), NoArgs);
    assert Atom(lib, Const(u), w, fuel) == EvalOut(w, Val(u)) && Atom(lib, Const(v), w, fuel) == EvalOut(w, Val(v));
    assert Bind(sc0, None, Val(u)) == Some(sc1) && Bind(sc1, None, Val(v)) == Some(sc2);
    assert EvalArgs(lib, NoArgs, sc2, w, fuel) == ArgsOut(w, Some(sc2));
    assert EvalArgs(lib, last, sc1, w, fuel) == ArgsOut(w, Some(sc2));
    assert EvalArgs(lib, Arg(None, Const(u), last), sc0, w, fuel) == ArgsOut(w, Some(sc2));
    assert [] + [Val(u)] + [Val(v)] == [Val(u), Val(v)];
  }

  // ----- foreach -----

  /** A `foreach` with nothing to do leaves its variable at the last element. */
  lemma ForeachLaw(lib: Library, x: string, a: seq<Value>, w: World, fuel: nat)
    requires w.st != [] && w.gone.None? && a != []
    ensures var out := Exec(lib, Foreach(x, Const(Arr(a)), Nop), w, fuel);
            out.ExecOut? && out.w.gone.None? && Holds(out.w.st, x, Val(a[|a| - 1]))
  {
    hide Find, Holds;
    FindLaw(w.st, x);
    var i := Find(w.st, x);
    var w1 := w.(st := Resolve(w.st, x));
    assert Eval(lib, Const(Arr(a)), w1, fuel) == EvalOut(w1, Val(Arr(a)));
    EachLast(lib, x, i, a, w1, fuel);
    var out := Each(lib, x, i, a, Nop, w1, fuel);
    AssignedHolds(w.st, out.w.st, i, x, Val(a[|a| - 1]));
  }

  lemma {:induction false} EachLast(lib: Library, x: string, i: nat, a: seq<Value>, w: World, fuel: nat)
    requires i < |w.st| && w.gone.None? && a != []
    ensures Each(lib, x, i, a, Nop, w, fuel) == ExecOut(w.(st := Put(w.st, i, x, Val(a[|a| - 1]))), Normal(Fake))
    decreases |a|
  {
    var w1 := w.(st := Put(w.st, i, x, Val(a[0])));
    assert Exec(lib, Nop, w1, fuel) == ExecOut(w1, Normal(Null));
    if |a| == 1 {
      assert a[1..] == [];
    } else {
      EachLast(lib, x, i, a[1..], w1, fuel);
      assert w1.st[i].vars[x := Val(a[|a| - 1])] == w.st[i].vars[x := Val(a[|a| - 1])];
      assert Put(w1.st, i, x, Val(a[|a| - 1])) == Put(w.st, i, x, Val(a[|a| - 1]));
    }
  }

  /** Something that is not an array has no elements. */
  lemma ForeachNothing(lib: Library, x: string, v: Value, body: Stmt, w: World, fuel: nat)
    requires w.st != [] && w.gone.None? && !v.Arr?
    ensures var out := Exec(lib, Foreach(x, Const(v), body), w, fuel);
            out.ExecOut? && forall y, c | Holds(w.st, y, c) :: Holds(out.w.st, y, c)
  {
    hide Find, Holds;
    FindLaw(w.st, x);
    var w1 := w.(st := Resolve(w.st, x));
    assert Eval(lib, Const(v), w1, fuel) == EvalOut(w1, Val(v));
    forall y, c | Holds(w.st, y, c) ensures Holds(w1.st, y, c) {
      StillHolds(w.st, x, y, c);
    }
  }

  lemma StillHolds(st: seq<Scope>, x: string, y: string, c: Cell)
    requires st != [] && Holds(st, y, c)
    ensures Holds(Resolve(st, x), y, c)
  {
    hide Find;
    FindLaw(st, x);
    var i := Find(st, x);
    if x !in st[i].vars {
      var j :| 0 <= j < |st| && y in st[j].vars && st[j].vars[y] == c && forall k | j < k < |st| :: y !in st[k].vars;
      OthersHold(st, Resolve(st, x), i, x, Null, y, c);
    }
  }

  // ----- a script -----

  /** `if (1) x = 7;` leaves seven in x, and `if (0) x = 7;` does not. */
  lemma ScriptLaw(lib: Library, x: string, n: int, fuel: nat)
    requires x !in lib.predefined
    ensures var start := World([Scope(false, lib.predefined, [], map[])], None);
            var out := Exec(lib, If(Const(Int(n)), Do(Assign(x, Const(Int(7)))), Nop), start, fuel);
            out.ExecOut? && if n != 0 then Holds(out.w.st, x, Val(Int(7))) else out.w == start
  {
    hide Exec, Eval, Holds;
    var start := World([Scope(false, lib.predefined, [], map[])], None);
    var s := Do(Assign(x, Const(Int(7))));
    ConstantIs(lib, Int(n), start, fuel);
    IfLaw(lib, Const(Int(n)), s, Nop, start, fuel);
    AssignLaw(lib, x, Int(7), start, fuel);
    DoIs(lib, Assign(x, Const(Int(7))), start, fuel);
  }

  lemma ConstantIs(lib: Library, v: Value, w: World, fuel: nat)
    requires w.st != [] && w.gone.None?
    ensures Eval(lib, Const(v), w, fuel) == EvalOut(w, Val(v))
  {
  }

  lemma DoIs(lib: Library, e: Expr, w: World, fuel: nat)
    requires w.st != [] && w.gone.None?
    ensures Exec(lib, Do(e), w, fuel) == Plain(Eval(lib, e, w, fuel))
  {
  }
}
