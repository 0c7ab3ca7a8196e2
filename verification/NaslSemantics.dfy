/** NASL programs as the grammar builds them, and their structured meaning: what a
    block, a loop, a jump or a call does, with jumps as completions of statements. */
module NaslSemantics {
  import opened Options

  datatype Value = Int(i: int) | Str(s: string) | Arr(a: seq<Value>)

  /** A null cell, the fake cell of statements without a value, or a value. */
  datatype Cell = Null | Fake | Val(v: Value)

  /** `Nothing` is the missing expression of `return;` and `for (;...;)`. */
  datatype Expr =
    | Nothing
    | Const(v: Value)
    | Var(name: string)
    | Assign(name: string, rhs: Expr)
    | Prim(op: nat, left: Expr, right: Expr)
    | And(left: Expr, right: Expr)
    | Or(left: Expr, right: Expr)
    | Not(arg: Expr)
    | Call(name: string, args: Args)

  /** The argument list of a call; a name is optional. */
  datatype Args = NoArgs | Arg(name: Option<string>, value: Expr, next: Args)

  datatype Stmt =
    | Nop
    | Do(e: Expr)
    | Block(first: Stmt, rest: Stmt)
    | If(cond: Expr, thn: Stmt, els: Stmt)
    | For(init: Expr, cond: Expr, step: Expr, body: Stmt)
    | While(cond: Expr, body: Stmt)
    | Repeat(body: Stmt, cond: Expr)
    | Foreach(name: string, array: Expr, body: Stmt)
    | Repeated(call: Expr, times: Expr)
    | FunDef(name: string, body: Stmt)
    | Return(e: Expr)
    | Break
    | Continue

  const EXIT := "exit"

  /** The built-in functions, the eager operators, integer conversion and the
      variables every new context starts with. */
  datatype Library = Library(
    names: set<string>,
    run: (string, Scope) -> Cell,
    prim: (nat, Cell, Cell) -> Cell,
    toInt: Cell -> int,
    predefined: map<string, Cell>)

  /** Variables and functions of one context. */
  datatype Scope = Scope(isFunction: bool, vars: map<string, Cell>, nums: seq<Cell>, funs: map<string, Stmt>)

  function Truth(c: Cell): bool {
    match c
    case Null => false
    case Fake => false
    case Val(Int(i)) => i != 0
    case Val(Str(s)) => s != ""
    case Val(Arr(_)) => true
  }

  function FromBool(b: bool): Cell { Val(Int(if b then 1 else 0)) }

  /** What a variable holds after being assigned `c`. */
  function Stored(c: Cell): Cell { if c == Fake then Null else c }

  // ----- variables and functions along the context chain -----

  /** The innermost scope that knows `x`, or the current one, which then gets it undefined. */
  function Find(st: seq<Scope>, x: string): (i: nat)
    requires st != []
    ensures i < |st|
  {
    if x in st[|st| - 1].vars || !(exists k | 0 <= k < |st| :: x in st[k].vars) then |st| - 1
    else Find(st[..|st| - 1], x)
  }

  function Resolve(st: seq<Scope>, x: string): (r: seq<Scope>)
    requires st != []
    ensures |r| == |st| && x in r[Find(st, x)].vars
    ensures forall k | 0 <= k < |st| :: r[k].funs == st[k].funs && r[k].isFunction == st[k].isFunction
  {
    var i := Find(st, x);
    if x in st[i].vars then st else st[i := st[i].(vars := st[i].vars[x := Null])]
  }

  function Put(st: seq<Scope>, i: nat, x: string, c: Cell): (r: seq<Scope>)
    requires i < |st|
    ensures |r| == |st|
    ensures forall k | 0 <= k < |st| :: r[k].funs == st[k].funs && r[k].isFunction == st[k].isFunction
  {
    st[i := st[i].(vars := st[i].vars[x := Stored(c)])]
  }

  /** The definition of `f` met first when climbing the chain. */
  function FindFun(st: seq<Scope>, f: string): Option<Stmt> {
    if st == [] then None
    else if f in st[|st| - 1].funs then Some(st[|st| - 1].funs[f])
    else FindFun(st[..|st| - 1], f)
  }

  function Define(st: seq<Scope>, f: string, body: Stmt): (r: seq<Scope>)
    requires st != []
    ensures |r| == |st|
  {
    var n := |st| - 1;
    st[n := st[n].(funs := st[n].funs[f := body])]
  }

  /** The context of a call before its arguments are bound. */
  function FreshScope(lib: Library): Scope { Scope(true, lib.predefined, [], map[]) }

  /** Binds one argument: unnamed ones are numbered, a name already taken is an error. */
  function Bind(sc: Scope, name: Option<string>, c: Cell): Option<Scope> {
    match name
    case None => Some(sc.(nums := sc.nums + [Stored(c)]))
    case Some(x) => if x in sc.vars then None else Some(sc.(vars := sc.vars[x := Stored(c)]))
  }

  // ----- structured semantics -----

  /** The variables and functions of the chain, and the code of an `exit` the current context is leaving with. */
  datatype World = World(st: seq<Scope>, gone: Option<Cell>)

  datatype Completion = Normal(cell: Cell) | Broke | Continued | Returned(cell: Cell)

  datatype EvalOut = EvalOut(w: World, cell: Cell) | EvalDry
  datatype ArgsOut = ArgsOut(w: World, sc: Option<Scope>) | ArgsDry
  datatype ExecOut = ExecOut(w: World, comp: Completion) | ExecDry

  /** The code `exit` was given. */
  function ExitCell(lib: Library, sc: Scope): Cell {
    Val(Int(if sc.nums == [] then 0 else lib.toInt(sc.nums[0])))
  }

  /** The value of a call whose body completed with `comp`, perhaps after an `exit`. */
  function CallValue(comp: Completion, gone: Option<Cell>): Cell {
    if comp.Returned? then comp.cell else if gone.Some? then gone.value else Fake
  }

  /** Value and effect of an expression; `fuel` bounds calls and loop iterations. An `exit` makes
      what is left of the current context do nothing and yield its code, but a constant operand
      keeps its value, an assignment still stores the value it is given, and a call still runs its
      function, in a context of its own. */
  function Eval(lib: Library, e: Expr, w: World, fuel: nat): (r: EvalOut)
    requires w.st != []
    ensures r.EvalOut? ==> |r.w.st| == |w.st|
    ensures w.gone.Some? ==> r == EvalOut(w, w.gone.value)
    decreases fuel, e, 1
  {
    if w.gone.Some? then EvalOut(w, w.gone.value)
    else
      match e
      case Nothing => EvalOut(w, Null)
      case Const(v) => EvalOut(w, Val(v))
      case Var(x) => EvalOut(w.(st := Resolve(w.st, x)), Resolve(w.st, x)[Find(w.st, x)].vars[x])
      case Assign(x, rhs) =>
        (match Eval(lib, rhs, w.(st := Resolve(w.st, x)), fuel)
         case EvalDry => EvalDry
         case EvalOut(w1, c) => EvalOut(w1.(st := Put(w1.st, Find(w.st, x), x, c)), c))
      case Prim(op, l, r) =>
        (match Atom(lib, l, w, fuel)
         case EvalDry => EvalDry
         case EvalOut(w1, c1) =>
           match Atom(lib, r, w1, fuel)
           case EvalDry => EvalDry
           case EvalOut(w2, c2) => EvalOut(w2, lib.prim(op, c1, c2)))
      case And(l, r) =>
        (match Atom(lib, l, w, fuel)
         case EvalDry => EvalDry
         case EvalOut(w1, c1) =>
           if !Truth(c1) then EvalOut(w1, FromBool(false))
           else
             match Atom(lib, r, w1, fuel)
             case EvalDry => EvalDry
             case EvalOut(w2, c2) => EvalOut(w2, FromBool(Truth(c2))))
      case Or(l, r) =>
        (match Atom(lib, l, w, fuel)
         case EvalDry => EvalDry
         case EvalOut(w1, c1) =>
           if Truth(c1) then EvalOut(w1, FromBool(true))
           else
             match Atom(lib, r, w1, fuel)
             case EvalDry => EvalDry
             case EvalOut(w2, c2) => EvalOut(w2, FromBool(Truth(c2))))
      case Not(a) =>
        (match Eval(lib, a, w, fuel)
         case EvalDry => EvalDry
         case EvalOut(w1, c) => EvalOut(w1, FromBool(!Truth(c))))
      case Call(f, args) =>
        var def := FindFun(w.st, f);
        if def.None? && f !in lib.names then EvalOut(w, Null)
        else
          match EvalArgs(lib, args, FreshScope(lib), w, fuel)
          case ArgsDry => EvalDry
          case ArgsOut(w1, sc) =>
            if sc.None? then EvalOut(w1, Null)
            else if def.None? && f == EXIT then
              EvalOut(World(w1.st, Some(ExitCell(lib, sc.value))), ExitCell(lib, sc.value))
            else if def.None? then EvalOut(w1, lib.run(f, sc.value))
            else if fuel == 0 then EvalDry
            else
              match Exec(lib, def.value, World(w1.st + [sc.value], None), fuel - 1)
              case ExecDry => EvalDry
              case ExecOut(w2, comp) =>
                EvalOut(World(w2.st[..|w.st|], if w2.gone.Some? then w2.gone else w1.gone), CallValue(comp, w2.gone))
  }

  /** The value of an operand or an argument: a constant is taken as it is, even after an `exit`. */
  function Atom(lib: Library, e: Expr, w: World, fuel: nat): (r: EvalOut)
    requires w.st != []
    ensures r.EvalOut? ==> |r.w.st| == |w.st| && (w.gone.Some? ==> r.w == w)
    decreases fuel, e, 2
  {
    match e
    case Nothing => EvalOut(w, Null)
    case Const(v) => EvalOut(w, Val(v))
    case _ => Eval(lib, e, w, fuel)
  }

  /** Evaluates arguments in the caller's context and binds them in `sc`, up to the first error. */
  function EvalArgs(lib: Library, args: Args, sc: Scope, w: World, fuel: nat): (r: ArgsOut)
    requires w.st != []
    ensures r.ArgsOut? ==> |r.w.st| == |w.st| && (w.gone.Some? ==> r.w == w)
    decreases fuel, args, 1
  {
    match args
    case NoArgs => ArgsOut(w, Some(sc))
    case Arg(name, e, next) =>
      match Atom(lib, e, w, fuel)
      case EvalDry => ArgsDry
      case EvalOut(w1, c) =>
        var sc1 := Bind(sc, name, c);
        if sc1.None? then ArgsOut(w1, None) else EvalArgs(lib, next, sc1.value, w1, fuel)
  }

  /** Effect and completion of a statement. */
  function Exec(lib: Library, s: Stmt, w: World, fuel: nat): (r: ExecOut)
    requires w.st != []
    ensures r.ExecOut? ==> |r.w.st| == |w.st|
    ensures w.gone.Some? ==> r == ExecOut(w, Normal(w.gone.value))
    decreases fuel, s, 2
  {
    if w.gone.Some? then ExecOut(w, Normal(w.gone.value))
    else
      match s
      case Nop => ExecOut(w, Normal(Null))
      case Do(e) => Plain(Eval(lib, e, w, fuel))
      case Block(s1, s2) =>
        (match Exec(lib, s1, w, fuel)
         case ExecDry => ExecDry
         case ExecOut(w1, comp) =>
           if !comp.Normal? || s2 == Nop then ExecOut(w1, comp) else Exec(lib, s2, w1, fuel))
      case If(c, t, f) =>
        (match Eval(lib, c, w, fuel)
         case EvalDry => ExecDry
         case EvalOut(w1, cell) =>
           if Truth(cell) then Exec(lib, t, w1, fuel)
           else if f == Nop then ExecOut(w1, Normal(Fake))
           else Exec(lib, f, w1, fuel))
      case For(init, c, step, body) =>
        (match Eval(lib, init, w, fuel)
         case EvalDry => ExecDry
         case EvalOut(w1, _) => Loop(lib, c, step, body, w1, fuel))
      case While(c, body) => Loop(lib, c, Nothing, body, w, fuel)
      case Repeat(body, c) => Until(lib, body, c, w, fuel)
      case Foreach(x, a, body) =>
        (match Eval(lib, a, w.(st := Resolve(w.st, x)), fuel)
         case EvalDry => ExecDry
         case EvalOut(w1, cell) => Each(lib, x, Find(w.st, x), Elements(cell), body, w1, fuel))
      case Repeated(call, times) =>
        (match Eval(lib, times, w, fuel)
         case EvalDry => ExecDry
         case EvalOut(w1, cell) =>
           if lib.toInt(cell) <= 0 then ExecOut(w1, Normal(Null)) else Times(lib, call, lib.toInt(cell), w1, fuel))
      case FunDef(f, body) =>
        if FindFun(w.st, f).Some? || f in lib.names then ExecOut(w, Normal(Null))
        else ExecOut(w.(st := Define(w.st, f, body)), Normal(Fake))
      case Return(e) =>
        (match Eval(lib, e, w, fuel)
         case EvalDry => ExecDry
         case EvalOut(w1, cell) => ExecOut(w1, Returned(if cell == Null then Fake else cell)))
      case Break => ExecOut(w, Broke)
      case Continue => ExecOut(w, Continued)
  }

  function Plain(r: EvalOut): ExecOut {
    match r
    case EvalDry => ExecDry
    case EvalOut(w, c) => ExecOut(w, Normal(c))
  }

  function Elements(c: Cell): seq<Value> {
    match c
    case Val(Arr(a)) => a
    case _ => []
  }

  /** `for` and `while`: a break ends the loop normally, a return ends it abruptly. */
  function Loop(lib: Library, c: Expr, step: Expr, body: Stmt, w: World, fuel: nat): (r: ExecOut)
    requires w.st != []
    ensures r.ExecOut? ==> |r.w.st| == |w.st| && (r.comp.Normal? || r.comp.Returned?)
    ensures w.gone.Some? ==> r == ExecOut(w, Normal(w.gone.value))
    decreases fuel, body, 3
  {
    if w.gone.Some? then ExecOut(w, Normal(w.gone.value))
    else if fuel == 0 then ExecDry
    else
      match Eval(lib, c, w, fuel - 1)
      case EvalDry => ExecDry
      case EvalOut(w1, cell) =>
        if cell == Null then ExecOut(w1, Normal(Null))
        else if !Truth(cell) then ExecOut(w1, Normal(Fake))
        else
          match Exec(lib, body, w1, fuel - 1)
          case ExecDry => ExecDry
          case ExecOut(w2, comp) =>
            if comp.Broke? then ExecOut(w2, Normal(Fake))
            else if comp.Returned? then ExecOut(w2, comp)
            else
              match Eval(lib, step, w2, fuel - 1)
              case EvalDry => ExecDry
              case EvalOut(w3, _) => Loop(lib, c, step, body, w3, fuel - 1)
  }

  /** `repeat` ... `until`. */
  function Until(lib: Library, body: Stmt, c: Expr, w: World, fuel: nat): (r: ExecOut)
    requires w.st != []
    ensures r.ExecOut? ==> |r.w.st| == |w.st| && (r.comp.Normal? || r.comp.Returned?)
    ensures w.gone.Some? ==> r == ExecOut(w, Normal(w.gone.value))
    decreases fuel, body, 3
  {
    if w.gone.Some? then ExecOut(w, Normal(w.gone.value))
    else if fuel == 0 then ExecDry
    else
      match Exec(lib, body, w, fuel - 1)
      case ExecDry => ExecDry
      case ExecOut(w1, comp) =>
        if comp.Broke? then ExecOut(w1, Normal(Fake))
        else if comp.Returned? then ExecOut(w1, comp)
        else
          match Eval(lib, c, w1, fuel - 1)
          case EvalDry => ExecDry
          case EvalOut(w2, cell) =>
            if Truth(cell) then ExecOut(w2, Normal(Fake)) else Until(lib, body, c, w2, fuel - 1)
  }

  /** `foreach` over the elements the array had at the start. */
  function Each(lib: Library, x: string, i: nat, elems: seq<Value>, body: Stmt, w: World, fuel: nat): (r: ExecOut)
    requires i < |w.st|
    ensures r.ExecOut? ==> |r.w.st| == |w.st| && (r.comp.Normal? || r.comp.Returned?)
    ensures r.ExecOut? && w.gone.Some? ==> r.w.gone == w.gone
    decreases fuel, body, 3, |elems|
  {
    if elems == [] then ExecOut(w, Normal(Fake))
    else
      match Exec(lib, body, w.(st := Put(w.st, i, x, Val(elems[0]))), fuel)
      case ExecDry => ExecDry
      case ExecOut(w1, comp) =>
        if comp.Returned? then ExecOut(w1, comp)
        else if comp.Broke? || w1.gone.Some? then ExecOut(w1, Normal(Fake))
        else Each(lib, x, i, elems[1..], body, w1, fuel)
  }

  function Times(lib: Library, call: Expr, n: nat, w: World, fuel: nat): (r: ExecOut)
    requires w.st != []
    ensures r.ExecOut? ==> |r.w.st| == |w.st| && r.comp == Normal(Fake) && (w.gone.Some? ==> r.w == w)
    decreases fuel, call, 2, n
  {
    if n == 0 then ExecOut(w, Normal(Fake))
    else
      match Eval(lib, call, w, fuel)
      case EvalDry => ExecDry
      case EvalOut(w1, _) => Times(lib, call, n - 1, w1, fuel)
  }

  // ----- what still happens after an exit -----

  /** The call `exit(code)` or `exit()`. */
  function ExitCall(code: Option<Value>): Expr {
    Call(EXIT, if code.None? then NoArgs else Arg(None, Const(code.value), NoArgs))
  }

  function ExitCode(lib: Library, code: Option<Value>): Cell {
    Val(Int(if code.None? then 0 else lib.toInt(Val(code.value))))
  }

  lemma ExitYields(lib: Library, code: Option<Value>, w: World, fuel: nat)
    requires w.st != [] && w.gone.None? && EXIT in lib.names && FindFun(w.st, EXIT).None?
    ensures Eval(lib, ExitCall(code), w, fuel) == EvalOut(World(w.st, Some(ExitCode(lib, code))), ExitCode(lib, code))
  {
    var sc0 := FreshScope(lib);
    if code.None? {
      assert EvalArgs(lib, NoArgs, sc0, w, fuel) == ArgsOut(w, Some(sc0));
    } else {
      var sc := sc0.(nums := [] + [Val(code.value)]);
      assert Atom(lib, Const(code.value), w, fuel) == EvalOut(w, Val(code.value));
      assert Bind(sc0, None, Val(code.value)) == Some(sc);
      assert EvalArgs(lib, NoArgs, sc, w, fuel) == ArgsOut(w, Some(sc));
      assert EvalArgs(lib, Arg(None, Const(code.value), NoArgs), sc0, w, fuel) == ArgsOut(w, Some(sc));
    }
  }

  /** A constant operand after an operand that exits keeps its value. */
  lemma ConstantAfterExit(lib: Library, op: nat, code: Option<Value>, v: Value, w: World, fuel: nat)
    requires w.st != [] && w.gone.None? && EXIT in lib.names && FindFun(w.st, EXIT).None?
    ensures Eval(lib, Prim(op, ExitCall(code), Const(v)), w, fuel)
         == EvalOut(World(w.st, Some(ExitCode(lib, code))), lib.prim(op, ExitCode(lib, code), Val(v)))
  {
    hide FindFun, ExitCode;
    ExitYields(lib, code, w, fuel);
  }

  lemma {:induction false} SameFuns(st: seq<Scope>, st': seq<Scope>, f: string)
    requires |st| == |st'| && forall k | 0 <= k < |st| :: st[k].funs == st'[k].funs
    ensures FindFun(st, f) == FindFun(st', f)
  {
    if st != [] { SameFuns(st[..|st| - 1], st'[..|st| - 1], f); }
  }

  /** An assignment whose right-hand side exits is still made. */
  lemma AssignedAfterExit(lib: Library, x: string, code: Option<Value>, w: World, fuel: nat)
    requires w.st != [] && w.gone.None? && EXIT in lib.names && FindFun(w.st, EXIT).None?
    ensures Exec(lib, Do(Assign(x, ExitCall(code))), w, fuel)
            == ExecOut(World(Put(Resolve(w.st, x), Find(w.st, x), x, ExitCode(lib, code)), Some(ExitCode(lib, code))),
                       Normal(ExitCode(lib, code)))
  {
    hide FindFun, Resolve, Find, Put, ExitCall, ExitCode;
    var w1 := w.(st := Resolve(w.st, x));
    SameFuns(w.st, w1.st, EXIT);
    ExitYields(lib, code, w1, fuel);
  }

  /** A function called with an argument that exits still runs: with the one-line body
      `x = 1` it leaves 1 in the caller's variable. */
  lemma CalleeRunsAfterExit(lib: Library, f: string, x: string, fuel: nat)
    requires EXIT in lib.names && f != EXIT && x !in lib.predefined && fuel > 0
    ensures var body := Do(Assign(x, Const(Int(1))));
            var st := [Scope(false, map[x := Null], [], map[f := body])];
            var out := Exec(lib, Do(Call(f, Arg(None, ExitCall(None), NoArgs))), World(st, None), fuel);
            && out.ExecOut? && out.w.gone == Some(Val(Int(0)))
            && out.w.st[0].vars == map[x := Val(Int(1))]
  {
    var body := Do(Assign(x, Const(Int(1))));
    var st := [Scope(false, map[x := Null], [], map[f := body])];
    var w, code, sc0 := World(st, None), Val(Int(0)), FreshScope(lib);
    var args := Arg(None, ExitCall(None), NoArgs);
    var sc := sc0.(nums := [] + [code]);
    assert FindFun(st[..0], EXIT).None?;
    ExitYields(lib, None, w, fuel);
    assert Bind(sc0, None, code) == Some(sc);
    assert EvalArgs(lib, NoArgs, sc, World(st, Some(code)), fuel) == ArgsOut(World(st, Some(code)), Some(sc));
    assert EvalArgs(lib, args, sc0, w, fuel) == ArgsOut(World(st, Some(code)), Some(sc));
    CalleeAssigns(lib, f, x, sc, fuel - 1);
    assert FindFun(st, f) == Some(body);
  }

  lemma CalleeAssigns(lib: Library, f: string, x: string, sc: Scope, fuel: nat)
    requires x !in sc.vars
    ensures var body := Do(Assign(x, Const(Int(1))));
            var top := Scope(false, map[x := Null], [], map[f := body]);
            Exec(lib, body, World([top] + [sc], None), fuel)
            == ExecOut(World([top.(vars := map[x := Val(Int(1))])] + [sc], None), Normal(Val(Int(1))))
  {
    var body := Do(Assign(x, Const(Int(1))));
    var top := Scope(false, map[x := Null], [], map[f := body]);
    var st := [top] + [sc];
    assert st[..1] == [top] && x in st[0].vars;
    assert Find([top], x) == 0 && Find(st, x) == 0;
    assert Resolve(st, x) == st;
    var c := Val(Int(1));
    assert Eval(lib, Const(Int(1)), World(st, None), fuel) == EvalOut(World(st, None), c);
    assert map[x := Null][x := c] == map[x := c];
    assert Put(st, 0, x, c) == [top.(vars := map[x := c])] + [sc];
  }
}
