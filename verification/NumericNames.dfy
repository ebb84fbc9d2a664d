/** The static check on `%` in strategy code (`engine_adapter/sandbox_worker.py`): which names only ever hold numbers,
    and that an accepted `%` is therefore never string formatting. */
module NumericNames {
  import opened Wrappers

  datatype Op = Add | Sub | Mult | FloorDiv | Mod | Div

  datatype Expr =
    | IntLit(n: int)
    | StrLit(s: string)
    | BoolLit(b: bool)
    | Name(id: string)
    | Plus(arg: Expr)
    | Minus(arg: Expr)
    | Not(arg: Expr)
    | Call(func: string, arg: Expr)
    | Bin(op: Op, left: Expr, right: Expr)
    | Walrus(id: string, value: Expr)
    | ListOf(head: Option<Expr>)             // [] or [e]

  datatype Stmt =
    | Pass
    | Seq(first: Stmt, second: Stmt)
    | Assign(targets: seq<string>, value: Expr)
    | AnnAssign(target: string, annotated: Option<Expr>)
    | Do(expr: Expr)
    | If(test: Expr, yes: Stmt, no: Stmt)
    | While(test: Expr, body: Stmt)
    | For(target: string, iter: Expr, body: Stmt)
    | AugAssign(target: string, op: Op, value: Expr)

  // ---------- the analysis ----------

  /** `_is_numeric_expr`. */
  predicate IsNumeric(e: Expr, names: set<string>) {
    match e
    case IntLit(_) => true
    case Name(id) => id in names
    case Plus(arg) => IsNumeric(arg, names)
    case Minus(arg) => IsNumeric(arg, names)
    case Call(func, _) => func in {"int", "Decimal"}
    case Bin(op, left, right) => op in {Add, Sub, Mult, FloorDiv} && IsNumeric(left, names) && IsNumeric(right, names)
    case _ => false
  }

  type Assignments = map<string, seq<Expr>>

  predicate AllNumeric(values: seq<Expr>, names: set<string>) {
    forall i :: 0 <= i < |values| ==> IsNumeric(values[i], names)
  }

  /** Every value assigned to the name is numeric, and there is one. */
  predicate Supports(a: Assignments, name: string, names: set<string>) {
    name in a && a[name] != [] && AllNumeric(a[name], names)
  }

  ghost predicate Closed(a: Assignments, names: set<string>) {
    forall name :: name in a && Supports(a, name, names) ==> name in names
  }

  /** The least set of names closed under "all its values are numeric". */
  ghost predicate Least(a: Assignments, names: set<string>) {
    Closed(a, names) && forall other: set<string> :: Closed(a, other) ==> names <= other
  }

  lemma {:induction false} IsNumericGrows(e: Expr, names: set<string>, more: set<string>)
    requires IsNumeric(e, names) && names <= more
    ensures IsNumeric(e, more)
  {
    match e {
      case Plus(arg) => IsNumericGrows(arg, names, more);
      case Minus(arg) => IsNumericGrows(arg, names, more);
      case Bin(_, left, right) => IsNumericGrows(left, names, more); IsNumericGrows(right, names, more);
      case _ =>
    }
  }

  lemma {:induction false} SupportsGrows(a: Assignments, name: string, names: set<string>, more: set<string>)
    requires Supports(a, name, names) && names <= more
    ensures Supports(a, name, more)
  {
    forall i | 0 <= i < |a[name]| ensures IsNumeric(a[name][i], more) { IsNumericGrows(a[name][i], names, more); }
  }

  /** There is one least set, so the order of the dictionary cannot matter. */
  lemma {:induction false} LeastUnique(a: Assignments, names: set<string>, other: set<string>)
    requires Least(a, names) && Least(a, other)
    ensures names == other
  {
  }

  /** Every name of the least set has only numeric values. */
  lemma {:induction false} LeastSupported(a: Assignments, names: set<string>, name: string)
    requires Least(a, names) && name in names
    ensures Supports(a, name, names)
  {
    if !Supports(a, name, names) {
      var fewer := names - {name};
      forall x | x in a && Supports(a, x, fewer) ensures x in fewer {
        SupportsGrows(a, x, fewer, names);
      }
      assert Closed(a, fewer) && !(names <= fewer);
    }
  }

  /** The `while changed` loop of `_numeric_assignment_names`, over the names in any order. */
  method NumericAssignmentNames(a: Assignments, order: seq<string>) returns (names: set<string>)
    requires forall name :: name in a <==> name in order
    ensures Least(a, names)
  {
    names := {};
    var changed := true;
    while changed
      invariant names <= a.Keys
      invariant forall other :: Closed(a, other) ==> names <= other
      invariant !changed ==> Closed(a, names)
      decreases |a.Keys - names|, if changed then 1 else 0
    {
      changed := false;
      ghost var before := names;
      for i := 0 to |order|
        invariant before <= names <= a.Keys
        invariant forall other :: Closed(a, other) ==> names <= other
        invariant !changed ==> names == before
        invariant changed ==> |a.Keys - names| < |a.Keys - before|
        invariant !changed ==> forall j :: 0 <= j < i ==> Supports(a, order[j], names) ==> order[j] in names
      {
        var name := order[i];
        if name !in names && a[name] != [] && AllNumeric(a[name], names) {
          forall other | Closed(a, other) ensures name in other { SupportsGrows(a, name, names, other); }
          FewerLeft(a.Keys, names, name);
          if changed { assert |a.Keys - names| < |a.Keys - before|; }
          names := names + {name};
          changed := true;
        }
      }
    }
  }

  lemma {:induction false} FewerLeft(all: set<string>, names: set<string>, name: string)
    requires name in all && name !in names
    ensures |all - (names + {name})| < |all - names|
  {
    assert all - names == (all - (names + {name})) + {name};
  }

  // ---------- what the walk over the tree finds ----------

  type Pairs = seq<(string, Expr)>

  function WalrusesOf(e: Expr): Pairs {
    match e
    case Plus(arg) => WalrusesOf(arg)
    case Minus(arg) => WalrusesOf(arg)
    case Not(arg) => WalrusesOf(arg)
    case Call(_, arg) => WalrusesOf(arg)
    case Bin(_, left, right) => WalrusesOf(left) + WalrusesOf(right)
    case Walrus(id, value) => [(id, value)] + WalrusesOf(value)
    case ListOf(Some(head)) => WalrusesOf(head)
    case _ => []
  }

  function Each(targets: seq<string>, value: Expr): Pairs {
    seq(|targets|, i requires 0 <= i < |targets| => (targets[i], value))
  }

  /** Assignments, annotated assignments and walruses; loop targets and augmented assignments are not collected. */
  function Collected(s: Stmt): Pairs {
    match s
    case Pass => []
    case Seq(first, second) => Collected(first) + Collected(second)
    case Assign(targets, value) => Each(targets, value) + WalrusesOf(value)
    case AnnAssign(target, Some(value)) => [(target, value)] + WalrusesOf(value)
    case AnnAssign(_, None) => []
    case Do(expr) => WalrusesOf(expr)
    case If(test, yes, no) => WalrusesOf(test) + Collected(yes) + Collected(no)
    case While(test, body) => WalrusesOf(test) + Collected(body)
    case For(_, iter, body) => WalrusesOf(iter) + Collected(body)
    case AugAssign(_, _, value) => WalrusesOf(value)
  }

  /** The dictionary from names to the values assigned to them. */
  function Grouped(pairs: Pairs): Assignments {
    if pairs == [] then map[]
    else
      var rest, (name, value) := Grouped(pairs[..|pairs| - 1]), pairs[|pairs| - 1];
      rest[name := (if name in rest then rest[name] else []) + [value]]
  }

  method CollectAssignments(pairs: Pairs) returns (assignments: Assignments)
    ensures assignments == Grouped(pairs)
  {
    assignments := map[];
    for i := 0 to |pairs|
      invariant assignments == Grouped(pairs[..i])
    {
      assert pairs[..i + 1][..i] == pairs[..i];
      var (name, value) := pairs[i];
      assignments := assignments[name := (if name in assignments then assignments[name] else []) + [value]];
    }
    assert pairs[..|pairs|] == pairs;
  }

  lemma {:induction false} GroupedHasAll(pairs: Pairs)
    ensures forall p :: p in pairs ==> p.0 in Grouped(pairs) && p.1 in Grouped(pairs)[p.0]
  {
    if pairs != [] {
      GroupedHasAll(pairs[..|pairs| - 1]);
      assert pairs == pairs[..|pairs| - 1] + [pairs[|pairs| - 1]];
    }
  }

  /** Names bound by the forms that are not collected. */
  function Uncollected(s: Stmt): set<string> {
    match s
    case Seq(first, second) => Uncollected(first) + Uncollected(second)
    case If(_, yes, no) => Uncollected(yes) + Uncollected(no)
    case While(_, body) => Uncollected(body)
    case For(target, _, body) => {target} + Uncollected(body)
    case AugAssign(target, _, _) => {target}
    case _ => {}
  }

  /** Every `%` has numeric operands: what the scan lets through. */
  predicate AcceptedExpr(e: Expr, names: set<string>) {
    match e
    case Plus(arg) => AcceptedExpr(arg, names)
    case Minus(arg) => AcceptedExpr(arg, names)
    case Not(arg) => AcceptedExpr(arg, names)
    case Call(_, arg) => AcceptedExpr(arg, names)
    case Bin(op, left, right) =>
      && AcceptedExpr(left, names) && AcceptedExpr(right, names)
      && (op == Mod ==> IsNumeric(left, names) && IsNumeric(right, names))
    case Walrus(_, value) => AcceptedExpr(value, names)
    case ListOf(Some(head)) => AcceptedExpr(head, names)
    case _ => true
  }

  /** An augmented `%=` is no BinOp, so the scan does not look at it. */
  predicate AcceptedStmt(s: Stmt, names: set<string>) {
    match s
    case Pass => true
    case Seq(first, second) => AcceptedStmt(first, names) && AcceptedStmt(second, names)
    case Assign(_, value) => AcceptedExpr(value, names)
    case AnnAssign(_, Some(value)) => AcceptedExpr(value, names)
    case AnnAssign(_, None) => true
    case Do(expr) => AcceptedExpr(expr, names)
    case If(test, yes, no) => AcceptedExpr(test, names) && AcceptedStmt(yes, names) && AcceptedStmt(no, names)
    case While(test, body) => AcceptedExpr(test, names) && AcceptedStmt(body, names)
    case For(_, iter, body) => AcceptedExpr(iter, names) && AcceptedStmt(body, names)
    case AugAssign(_, _, value) => AcceptedExpr(value, names)
  }

  // ---------- the same, node by node ----------

  /** What a sum, difference, product or floor division is made of, below its signs. */
  function Operands(e: Expr): set<Expr> {
    match e
    case Plus(arg) => Operands(arg)
    case Minus(arg) => Operands(arg)
    case Bin(op, left, right) =>
      if op == Add || op == Sub || op == Mult || op == FloorDiv then Operands(left) + Operands(right) else {e}
    case _ => {e}
  }

  predicate CountsAsNumber(e: Expr, names: set<string>) {
    e.IntLit? || (e.Name? && e.id in names) || (e.Call? && (e.func == "int" || e.func == "Decimal"))
  }

  /** An expression is taken for a number exactly when all its operands are. */
  lemma {:induction false} IsNumericExactly(e: Expr, names: set<string>)
    ensures IsNumeric(e, names) <==> forall x :: x in Operands(e) ==> CountsAsNumber(x, names)
  {
    match e {
      case Plus(arg) => IsNumericExactly(arg, names);
      case Minus(arg) => IsNumericExactly(arg, names);
      case Bin(op, left, right) =>
        IsNumericExactly(left, names);
        IsNumericExactly(right, names);
        NumericBin(op, left, right, names);
      case _ => NumericLeaf(e, names);
    }
  }

  lemma {:induction false} NumericBin(op: Op, left: Expr, right: Expr, names: set<string>)
    ensures op in {Add, Sub, Mult, FloorDiv} ==>
      && Operands(Bin(op, left, right)) == Operands(left) + Operands(right)
      && (IsNumeric(Bin(op, left, right), names) <==> IsNumeric(left, names) && IsNumeric(right, names))
    ensures op in {Mod, Div} ==>
      Bin(op, left, right) in Operands(Bin(op, left, right)) && !IsNumeric(Bin(op, left, right), names)
  {
  }

  lemma {:induction false} NumericLeaf(e: Expr, names: set<string>)
    requires !e.Plus? && !e.Minus? && !e.Bin?
    ensures Operands(e) == {e} && (IsNumeric(e, names) <==> CountsAsNumber(e, names))
  {
  }

  /** The expression and everything inside it. */
  function Nodes(e: Expr): set<Expr> {
    {e} + match e
          case Plus(arg) => Nodes(arg)
          case Minus(arg) => Nodes(arg)
          case Not(arg) => Nodes(arg)
          case Call(_, arg) => Nodes(arg)
          case Bin(_, left, right) => Nodes(left) + Nodes(right)
          case Walrus(_, value) => Nodes(value)
          case ListOf(Some(head)) => Nodes(head)
          case _ => {}
  }

  function Statements(s: Stmt): set<Stmt> {
    {s} + match s
          case Seq(first, second) => Statements(first) + Statements(second)
          case If(_, yes, no) => Statements(yes) + Statements(no)
          case While(_, body) => Statements(body)
          case For(_, _, body) => Statements(body)
          case _ => {}
  }

  /** The expression a statement holds itself. */
  function Own(s: Stmt): Option<Expr> {
    match s
    case Assign(_, value) => Some(value)
    case AnnAssign(_, annotated) => annotated
    case Do(expr) => Some(expr)
    case If(test, _, _) => Some(test)
    case While(test, _) => Some(test)
    case For(_, iter, _) => Some(iter)
    case AugAssign(_, _, value) => Some(value)
    case _ => None
  }

  /** The walk over the whole program reaches this expression. */
  ghost predicate Reached(s: Stmt, e: Expr) {
    exists t :: t in Statements(s) && Own(t).Some? && e in Nodes(Own(t).value)
  }

  ghost predicate ReachedBelow(s: Stmt, e: Expr) {
    match s
    case Seq(first, second) => Reached(first, e) || Reached(second, e)
    case If(_, yes, no) => Reached(yes, e) || Reached(no, e)
    case While(_, body) => Reached(body, e)
    case For(_, _, body) => Reached(body, e)
    case _ => false
  }

  lemma {:induction false} ReachedInside(s: Stmt, e: Expr)
    ensures Reached(s, e) <==> (Own(s).Some? && e in Nodes(Own(s).value)) || ReachedBelow(s, e)
  {
    hide Nodes;
    assert s in Statements(s);
  }

  lemma {:induction false} AcceptedNodes(e: Expr, names: set<string>)
    ensures AcceptedExpr(e, names) <==>
      forall l, r :: Bin(Mod, l, r) in Nodes(e) ==> IsNumeric(l, names) && IsNumeric(r, names)
  {
    hide IsNumeric;
    match e {
      case Plus(arg) => AcceptedNodes(arg, names);
      case Minus(arg) => AcceptedNodes(arg, names);
      case Not(arg) => AcceptedNodes(arg, names);
      case Call(_, arg) => AcceptedNodes(arg, names);
      case Bin(op, left, right) =>
        AcceptedNodes(left, names);
        AcceptedNodes(right, names);
        assert e in Nodes(e);
      case Walrus(_, value) => AcceptedNodes(value, names);
      case ListOf(Some(head)) => AcceptedNodes(head, names);
      case _ =>
    }
  }

  /** A program is accepted exactly when both sides of every `%` in it are taken for numbers. */
  lemma {:induction false} AcceptedExactly(s: Stmt, names: set<string>)
    ensures AcceptedStmt(s, names) <==>
      forall l, r :: Reached(s, Bin(Mod, l, r)) ==> IsNumeric(l, names) && IsNumeric(r, names)
  {
    hide IsNumeric, AcceptedExpr, Reached, Nodes;
    forall e ensures Reached(s, e) <==> (Own(s).Some? && e in Nodes(Own(s).value)) || ReachedBelow(s, e) {
      ReachedInside(s, e);
    }
    if Own(s).Some? { AcceptedNodes(Own(s).value, names); }
    match s {
      case Seq(first, second) => AcceptedExactly(first, names); AcceptedExactly(second, names);
      case If(_, yes, no) => AcceptedExactly(yes, names); AcceptedExactly(no, names);
      case While(_, body) => AcceptedExactly(body, names);
      case For(_, _, body) => AcceptedExactly(body, names);
      case _ =>
    }
  }

  lemma {:induction false} WalrusNodes(e: Expr, id: string, value: Expr)
    ensures (id, value) in WalrusesOf(e) <==> Walrus(id, value) in Nodes(e)
  {
    match e {
      case Plus(arg) => WalrusNodes(arg, id, value);
      case Minus(arg) => WalrusNodes(arg, id, value);
      case Not(arg) => WalrusNodes(arg, id, value);
      case Call(_, arg) => WalrusNodes(arg, id, value);
      case Bin(_, left, right) => WalrusNodes(left, id, value); WalrusNodes(right, id, value);
      case Walrus(_, v) => WalrusNodes(v, id, value);
      case ListOf(Some(head)) => WalrusNodes(head, id, value);
      case _ =>
    }
  }

  /** A statement that assigns the value to the name. */
  predicate Assigns(s: Stmt, id: string, value: Expr) {
    (s.Assign? && id in s.targets && s.value == value) || s == AnnAssign(id, Some(value))
  }

  lemma {:induction false} EachMembers(targets: seq<string>, v: Expr, id: string, value: Expr)
    ensures (id, value) in Each(targets, v) <==> id in targets && v == value
  {
    var pairs := Each(targets, v);
    if id in targets && v == value {
      var i :| 0 <= i < |targets| && targets[i] == id;
      assert pairs[i] == (id, value);
    }
  }

  ghost predicate Assigned(s: Stmt, id: string, value: Expr) {
    exists t :: t in Statements(s) && Assigns(t, id, value)
  }

  ghost predicate AssignedBelow(s: Stmt, id: string, value: Expr) {
    match s
    case Seq(first, second) => Assigned(first, id, value) || Assigned(second, id, value)
    case If(_, yes, no) => Assigned(yes, id, value) || Assigned(no, id, value)
    case While(_, body) => Assigned(body, id, value)
    case For(_, _, body) => Assigned(body, id, value)
    case _ => false
  }

  lemma {:induction false} AssignedInside(s: Stmt, id: string, value: Expr)
    ensures Assigned(s, id, value) <==> Assigns(s, id, value) || AssignedBelow(s, id, value)
  {
    hide Assigns;
    assert s in Statements(s);
  }

  /** A value is collected for a name exactly when a statement assigns it or a walrus binds it. */
  lemma {:induction false} CollectedExactly(s: Stmt, id: string, value: Expr)
    ensures (id, value) in Collected(s) <==> Assigned(s, id, value) || Reached(s, Walrus(id, value))
  {
    hide Reached, Nodes, WalrusesOf, Each, Assigned;
    ReachedInside(s, Walrus(id, value));
    AssignedInside(s, id, value);
    if Own(s).Some? { WalrusNodes(Own(s).value, id, value); }
    if s.Assign? { EachMembers(s.targets, s.value, id, value); }
    match s {
      case Seq(first, second) => CollectedExactly(first, id, value); CollectedExactly(second, id, value);
      case If(_, yes, no) => CollectedExactly(yes, id, value); CollectedExactly(no, id, value);
      case While(_, body) => CollectedExactly(body, id, value);
      case For(_, _, body) => CollectedExactly(body, id, value);
      case _ =>
    }
  }

  /** A name is in the dictionary when something is collected for it, with exactly what is collected. */
  lemma {:induction false} GroupedExactly(pairs: Pairs, name: string, value: Expr)
    ensures name in Grouped(pairs) <==> exists v :: (name, v) in pairs
    ensures name in Grouped(pairs) ==> (value in Grouped(pairs)[name] <==> (name, value) in pairs)
  {
    if pairs != [] {
      var front, last := pairs[..|pairs| - 1], pairs[|pairs| - 1];
      assert pairs == front + [last];
      GroupedExactly(front, name, value);
      assert last in pairs && last == (last.0, last.1);
    }
  }

  // ---------- what a program does ----------

  datatype Value = Num(n: real) | Bool(b: bool) | Str(s: string) | List(items: seq<Value>) | Builtin(name: string)

  type Env = map<string, Value>

  /** `Formats` is the event the check is there to rule out: `%` with a text on its left. */
  datatype Outcome = Got(value: Value, env: Env) | Raises | Formats

  datatype Effect = Goes(env: Env) | Stops | FormatsText | OutOfTime

  /** The names a program finds without binding them, `int` and `Decimal` among them: those two give a number or
      raise; what the other functions give is left open. */
  datatype Builtins = Builtins(known: string -> bool, parse: (string, Value) -> Option<real>,
                               other: (string, Value) -> Option<Value>)

  const CONVERSIONS: set<string> := {"int", "Decimal"}

  function Arith(op: Op, x: real, y: real): Option<real> {
    match op
    case Add => Some(x + y)
    case Sub => Some(x - y)
    case Mult => Some(x * y)
    case FloorDiv => if y == 0.0 then None else Some((x / y).Floor as real)
    case Mod => if y == 0.0 then None else Some(x - y * (x / y).Floor as real)
    case Div => if y == 0.0 then None else Some(x / y)
  }

  datatype Applied = Is(value: Value) | TypeError | Formatted

  function AsNumber(v: Value): Option<real> {
    match v
    case Num(n) => Some(n)
    case Bool(b) => Some(if b then 1.0 else 0.0)
    case _ => None
  }

  /** Repeating a text or a list keeps what it is; how often is not tracked. */
  predicate Repeats(v: Value, times: Value) {
    (v.Str? || v.List?) && AsNumber(times).Some?
  }

  function Apply(op: Op, l: Value, r: Value): Applied {
    if op == Mod && l.Str? then Formatted
    else if AsNumber(l).Some? && AsNumber(r).Some? then
      var result := Arith(op, AsNumber(l).value, AsNumber(r).value);
      if result.None? then TypeError else Is(Num(result.value))
    else if op == Add && l.Str? && r.Str? then Is(Str(l.s + r.s))
    else if op == Add && l.List? && r.List? then Is(List(l.items + r.items))
    else if op == Mult && Repeats(l, r) then Is(l)
    else if op == Mult && Repeats(r, l) then Is(r)
    else TypeError
  }

  predicate Truth(v: Value) {
    match v
    case Num(n) => n != 0.0
    case Bool(b) => b
    case Str(s) => s != ""
    case List(items) => items != []
    case Builtin(_) => true
  }

  /** A name that the program has bound, or else a builtin. */
  function Lookup(id: string, env: Env, b: Builtins): Option<Value> {
    if id in env then Some(env[id]) else if b.known(id) then Some(Builtin(id)) else None
  }

  /** Calling a value: only builtins can be called, under whatever name they go. */
  function CallValue(f: Value, arg: Value, b: Builtins): Option<Value> {
    if !f.Builtin? then None
    else if f.name in CONVERSIONS then
      var n := b.parse(f.name, arg);
      if n.None? then None else Some(Num(n.value))
    else b.other(f.name, arg)
  }

  function Eval(e: Expr, env: Env, b: Builtins): Outcome {
    match e
    case IntLit(n) => Got(Num(n as real), env)
    case StrLit(s) => Got(Str(s), env)
    case BoolLit(v) => Got(Bool(v), env)
    case Name(id) => if Lookup(id, env, b).Some? then Got(Lookup(id, env, b).value, env) else Raises
    case Plus(arg) => Sign(Eval(arg, env, b), 1.0)
    case Minus(arg) => Sign(Eval(arg, env, b), -1.0)
    case Not(arg) =>
      var out := Eval(arg, env, b);
      if out.Got? then Got(Bool(!Truth(out.value)), out.env) else out
    case Call(func, arg) =>
      var f := Lookup(func, env, b);
      if f.None? then Raises
      else
        var out := Eval(arg, env, b);
        if !out.Got? then out
        else
          var v := CallValue(f.value, out.value, b);
          if v.None? then Raises else Got(v.value, out.env)
    case Bin(op, left, right) =>
      var l := Eval(left, env, b);
      if !l.Got? then l
      else
        var r := Eval(right, l.env, b);
        if !r.Got? then r else Outcomes(Apply(op, l.value, r.value), r.env)
    case Walrus(id, value) =>
      var out := Eval(value, env, b);
      if out.Got? then Got(out.value, out.env[id := out.value]) else out
    case ListOf(None) => Got(List([]), env)
    case ListOf(Some(head)) =>
      var out := Eval(head, env, b);
      if out.Got? then Got(List([out.value]), out.env) else out
  }

  function Outcomes(applied: Applied, env: Env): Outcome {
    match applied
    case Is(v) => Got(v, env)
    case TypeError => Raises
    case Formatted => Formats
  }

  function Sign(out: Outcome, factor: real): Outcome {
    if !out.Got? then out
    else if AsNumber(out.value).None? then Raises
    else Got(Num(factor * AsNumber(out.value).value), out.env)
  }

  function BindAll(env: Env, targets: seq<string>, v: Value): Env
    decreases |targets|
  {
    if targets == [] then env else BindAll(env[targets[0] := v], targets[1..], v)
  }

  function Items(v: Value): Option<seq<Value>> {
    match v
    case List(items) => Some(items)
    case Str(s) => Some(seq(|s|, i requires 0 <= i < |s| => Str([s[i]])))
    case _ => None
  }

  function After(out: Outcome): Effect {
    match out
    case Got(_, env) => Goes(env)
    case Raises => Stops
    case Formats => FormatsText
  }

  function Exec(s: Stmt, env: Env, b: Builtins, fuel: nat): Effect
    decreases fuel, s, 0
  {
    match s
    case Pass => Goes(env)
    case Seq(first, second) =>
      var mid := Exec(first, env, b, fuel);
      if mid.Goes? then Exec(second, mid.env, b, fuel) else mid
    case Assign(targets, value) =>
      var out := Eval(value, env, b);
      if out.Got? then Goes(BindAll(out.env, targets, out.value)) else After(out)
    case AnnAssign(target, Some(value)) =>
      var out := Eval(value, env, b);
      if out.Got? then Goes(out.env[target := out.value]) else After(out)
    case AnnAssign(_, None) => Goes(env)
    case Do(expr) => After(Eval(expr, env, b))
    case If(test, yes, no) =>
      var out := Eval(test, env, b);
      if !out.Got? then After(out)
      else if Truth(out.value) then Exec(yes, out.env, b, fuel) else Exec(no, out.env, b, fuel)
    case While(test, body) =>
      if fuel == 0 then OutOfTime
      else
        var out := Eval(test, env, b);
        if !out.Got? then After(out)
        else if !Truth(out.value) then Goes(out.env)
        else
          var mid := Exec(body, out.env, b, fuel - 1);
          if mid.Goes? then Exec(s, mid.env, b, fuel - 1) else mid
    case For(target, iter, body) =>
      var out := Eval(iter, env, b);
      if !out.Got? then After(out)
      else if Items(out.value).None? then Stops
      else ExecEach(target, Items(out.value).value, body, out.env, b, fuel)
    case AugAssign(target, op, value) =>
      var former := Lookup(target, env, b);
      if former.None? then Stops
      else
        var out := Eval(value, env, b);
        if !out.Got? then After(out)
        else
          var result := Outcomes(Apply(op, former.value, out.value), out.env);
          if result.Got? then Goes(result.env[target := result.value]) else After(result)
  }

  function ExecEach(target: string, items: seq<Value>, body: Stmt, env: Env, b: Builtins, fuel: nat): Effect
    decreases fuel, body, 1 + |items|
  {
    if items == [] then Goes(env)
    else
      var mid := Exec(body, env[target := items[0]], b, fuel);
      if mid.Goes? then ExecEach(target, items[1..], body, mid.env, b, fuel) else mid
  }

  // ---------- soundness ----------

  /** A number, or a builtin that was named and not called: neither is a text. */
  predicate Harmless(v: Value) {
    v.Num? || v.Builtin?
  }

  /** Every name of the set that is bound holds no text, and the conversions still mean what they say. */
  ghost predicate Numbers(env: Env, names: set<string>) {
    && (forall id :: id in names && id in env ==> Harmless(env[id]))
    && (forall id :: id in CONVERSIONS ==> id !in env)
  }

  /** The pairs only give numeric values to names of the set, and bind no conversion. */
  ghost predicate Respects(pairs: Pairs, names: set<string>) {
    forall p :: p in pairs ==> p.0 !in CONVERSIONS && (p.0 in names ==> IsNumeric(p.1, names))
  }

  lemma {:induction false} RespectsParts(a: Pairs, b: Pairs, names: set<string>)
    ensures Respects(a + b, names) <==> Respects(a, names) && Respects(b, names)
  {
  }

  /** An accepted expression never formats, keeps the names harmless, and is no text when it was judged numeric. */
  lemma {:induction false} ExprSound(e: Expr, env: Env, b: Builtins, names: set<string>)
    requires AcceptedExpr(e, names) && Respects(WalrusesOf(e), names) && Numbers(env, names)
    ensures var out := Eval(e, env, b);
      && out != Formats
      && (out.Got? ==> Numbers(out.env, names) && (IsNumeric(e, names) ==> Harmless(out.value)))
  {
    match e {
      case Plus(arg) => ExprSound(arg, env, b, names);
      case Minus(arg) => ExprSound(arg, env, b, names);
      case Not(arg) => ExprSound(arg, env, b, names);
      case Call(_, arg) => ExprSound(arg, env, b, names);
      case Bin(_, left, right) =>
        RespectsParts(WalrusesOf(left), WalrusesOf(right), names);
        ExprSound(left, env, b, names);
        var l := Eval(left, env, b);
        if l.Got? { ExprSound(right, l.env, b, names); }
      case Walrus(id, value) =>
        RespectsParts([(id, value)], WalrusesOf(value), names);
        assert (id, value) in [(id, value)];
        ExprSound(value, env, b, names);
      case ListOf(Some(head)) => ExprSound(head, env, b, names);
      case _ =>
    }
  }

  lemma {:induction false} BindAllNumbers(env: Env, targets: seq<string>, v: Value, names: set<string>)
    requires Numbers(env, names) && ((exists t :: t in targets && t in names) ==> Harmless(v))
    requires forall t :: t in targets ==> t !in CONVERSIONS
    ensures Numbers(BindAll(env, targets, v), names)
    decreases |targets|
  {
    if targets != [] {
      assert targets[0] in targets && forall t :: t in targets[1..] ==> t in targets;
      BindAllNumbers(env[targets[0] := v], targets[1..], v, names);
    }
  }

  ghost predicate Sound(effect: Effect, names: set<string>) {
    effect != FormatsText && (effect.Goes? ==> Numbers(effect.env, names))
  }

  predicate NoModAssign(s: Stmt) {
    match s
    case Seq(first, second) => NoModAssign(first) && NoModAssign(second)
    case If(_, yes, no) => NoModAssign(yes) && NoModAssign(no)
    case While(_, body) => NoModAssign(body)
    case For(_, _, body) => NoModAssign(body)
    case AugAssign(_, op, _) => op != Mod
    case _ => true
  }

  lemma {:induction false} AfterSound(e: Expr, env: Env, b: Builtins, names: set<string>)
    requires AcceptedExpr(e, names) && Respects(WalrusesOf(e), names) && Numbers(env, names)
    ensures Sound(After(Eval(e, env, b)), names)
  {
    ExprSound(e, env, b, names);
  }

  lemma {:induction false} AssignSound(targets: seq<string>, value: Expr, env: Env, b: Builtins, names: set<string>)
    requires AcceptedExpr(value, names) && Numbers(env, names)
    requires Respects(Each(targets, value) + WalrusesOf(value), names)
    ensures var out := Eval(value, env, b);
      out != Formats && (out.Got? ==> Numbers(BindAll(out.env, targets, out.value), names))
  {
    RespectsParts(Each(targets, value), WalrusesOf(value), names);
    ExprSound(value, env, b, names);
    var out := Eval(value, env, b);
    forall t | t in targets ensures t !in CONVERSIONS && (t in names ==> IsNumeric(value, names)) {
      var i :| 0 <= i < |targets| && targets[i] == t;
      assert Each(targets, value)[i] == (t, value);
    }
    if out.Got? { BindAllNumbers(out.env, targets, out.value, names); }
  }

  lemma {:induction false} AugSound(s: Stmt, env: Env, b: Builtins, names: set<string>)
    requires s.AugAssign? && s.op != Mod && s.target !in names + CONVERSIONS
    requires AcceptedExpr(s.value, names) && Respects(WalrusesOf(s.value), names) && Numbers(env, names)
    ensures Sound(Exec(s, env, b, 0), names)
    ensures forall fuel :: Exec(s, env, b, fuel) == Exec(s, env, b, 0)
  {
    ExprSound(s.value, env, b, names);
  }

  lemma {:induction false} OneTarget(env: Env, target: string, v: Value)
    ensures BindAll(env, [target], v) == env[target := v]
  {
  }

  lemma {:induction false} EachOne(target: string, value: Expr)
    ensures Each([target], value) == [(target, value)]
  {
  }

  lemma {:induction false} OutsideNumbers(env: Env, id: string, v: Value, names: set<string>)
    requires Numbers(env, names) && id !in names + CONVERSIONS
    ensures Numbers(env[id := v], names)
  {
  }

  /** An accepted statement never formats a text, as long as the names bound in other ways stay outside the set
      and no `%=` is used. */
  lemma {:induction false} StmtSound(s: Stmt, env: Env, b: Builtins, fuel: nat, names: set<string>)
    requires AcceptedStmt(s, names) && Respects(Collected(s), names) && Numbers(env, names)
    requires Uncollected(s) !! names + CONVERSIONS && NoModAssign(s)
    ensures Sound(Exec(s, env, b, fuel), names)
    decreases fuel, s, 0
  {
    hide Numbers, Respects, Eval, Truth, Items, BindAll, WalrusesOf, Each, AcceptedExpr;
    match s {
      case Pass =>
      case Seq(first, second) =>
        RespectsParts(Collected(first), Collected(second), names);
        StmtSound(first, env, b, fuel, names);
        var mid := Exec(first, env, b, fuel);
        if mid.Goes? { StmtSound(second, mid.env, b, fuel, names); }
      case Assign(targets, value) => AssignSound(targets, value, env, b, names);
      case AnnAssign(target, Some(value)) =>
        EachOne(target, value);
        AssignSound([target], value, env, b, names);
        var out := Eval(value, env, b);
        if out.Got? { OneTarget(out.env, target, out.value); }
      case AnnAssign(_, None) =>
      case Do(expr) => AfterSound(expr, env, b, names);
      case If(test, yes, no) =>
        RespectsParts(WalrusesOf(test) + Collected(yes), Collected(no), names);
        RespectsParts(WalrusesOf(test), Collected(yes), names);
        AfterSound(test, env, b, names);
        var out := Eval(test, env, b);
        if out.Got? {
          StmtSound(yes, out.env, b, fuel, names);
          StmtSound(no, out.env, b, fuel, names);
        }
      case While(test, body) =>
        RespectsParts(WalrusesOf(test), Collected(body), names);
        AfterSound(test, env, b, names);
        var out := Eval(test, env, b);
        if fuel > 0 && out.Got? {
          StmtSound(body, out.env, b, fuel - 1, names);
          var mid := Exec(body, out.env, b, fuel - 1);
          if mid.Goes? { StmtSound(s, mid.env, b, fuel - 1, names); }
        }
      case For(target, iter, body) =>
        RespectsParts(WalrusesOf(iter), Collected(body), names);
        AfterSound(iter, env, b, names);
        var out := Eval(iter, env, b);
        if out.Got? && Items(out.value).Some? {
          EachSound(target, Items(out.value).value, body, out.env, b, fuel, names);
        }
      case AugAssign(_, _, _) => AugSound(s, env, b, names);
    }
  }

  lemma {:induction false} EachSound(target: string, items: seq<Value>, body: Stmt, env: Env, b: Builtins, fuel: nat,
                                     names: set<string>)
    requires AcceptedStmt(body, names) && Respects(Collected(body), names) && Numbers(env, names)
    requires Uncollected(body) !! names + CONVERSIONS && NoModAssign(body) && target !in names + CONVERSIONS
    ensures Sound(ExecEach(target, items, body, env, b, fuel), names)
    decreases fuel, body, 1 + |items|
  {
    hide Numbers, Respects, Exec;
    if items != [] {
      OutsideNumbers(env, target, items[0], names);
      StmtSound(body, env[target := items[0]], b, fuel, names);
      var mid := Exec(body, env[target := items[0]], b, fuel);
      if mid.Goes? { EachSound(target, items[1..], body, mid.env, b, fuel, names); }
    }
  }

  /** The program binds neither `int` nor `Decimal`, in whatever form. */
  predicate KeepsConversions(s: Stmt) {
    (forall p :: p in Collected(s) ==> p.0 !in CONVERSIONS) && Uncollected(s) !! CONVERSIONS
  }

  lemma {:induction false} LeastRespects(pairs: Pairs, names: set<string>)
    requires Least(Grouped(pairs), names) && forall p :: p in pairs ==> p.0 !in CONVERSIONS
    ensures Respects(pairs, names)
  {
    GroupedHasAll(pairs);
    forall p | p in pairs && p.0 in names ensures IsNumeric(p.1, names) {
      LeastSupported(Grouped(pairs), names, p.0);
      var i :| 0 <= i < |Grouped(pairs)[p.0]| && Grouped(pairs)[p.0][i] == p.1;
    }
  }

  /** Every run of an accepted program from an empty namespace: `%` is only ever arithmetic - whatever the builtins
      return, however long it runs - as long as no numeric name is also bound in a way the analysis does not
      collect, `int` and `Decimal` are not bound at all, and `%=` is not used. */
  lemma {:induction false} AcceptedNeverFormats(s: Stmt, names: set<string>, b: Builtins, fuel: nat)
    requires Least(Grouped(Collected(s)), names) && AcceptedStmt(s, names)
    requires Uncollected(s) !! names && KeepsConversions(s) && NoModAssign(s)
    ensures Exec(s, map[], b, fuel) != FormatsText
  {
    LeastRespects(Collected(s), names);
    StmtSound(s, map[], b, fuel, names);
  }

  /** The condition on names is needed: a loop variable shadows the numeric name. */
  function Shadowed(): Stmt {
    Seq(Assign(["x"], IntLit(1)), For("x", ListOf(Some(StrLit("text"))), Do(Bin(Mod, Name("x"), IntLit(2)))))
  }

  lemma {:induction false} ShadowedAccepted()
    ensures Least(Grouped(Collected(Shadowed())), {"x"}) && AcceptedStmt(Shadowed(), {"x"})
  {
    hide Least, Grouped;
    assert Collected(Shadowed()) == [("x", IntLit(1))];
    OneNumeric();
  }

  lemma {:induction false} OneNumeric()
    ensures Least(Grouped([("x", IntLit(1))]), {"x"})
  {
    var pairs := [("x", IntLit(1))];
    assert pairs[..0] == [];
    assert Grouped([]) == map[] && [] + [IntLit(1)] == [IntLit(1)];
    var a := Grouped(pairs);
    assert a == map["x" := [IntLit(1)]];
    forall other | Closed(a, other) ensures {"x"} <= other { assert Supports(a, "x", other); }
    assert Closed(a, {"x"});
  }

  lemma {:induction false} InnerFormats(env: Env, b: Builtins, fuel: nat)
    ensures Exec(Do(Bin(Mod, Name("x"), IntLit(2))), env["x" := Str("text")], b, fuel) == FormatsText
  {
    var inner := env["x" := Str("text")];
    assert Eval(Name("x"), inner, b) == Got(Str("text"), inner) && Eval(IntLit(2), inner, b) == Got(Num(2.0), inner);
    assert Eval(Bin(Mod, Name("x"), IntLit(2)), inner, b) == Formats;
  }

  lemma {:induction false} LoopFormats(env: Env, b: Builtins, fuel: nat)
    ensures Exec(For("x", ListOf(Some(StrLit("text"))), Do(Bin(Mod, Name("x"), IntLit(2)))), env, b, fuel) ==
      FormatsText
  {
    var items, body := [Str("text")], Do(Bin(Mod, Name("x"), IntLit(2)));
    assert Eval(StrLit("text"), env, b) == Got(items[0], env);
    assert Eval(ListOf(Some(StrLit("text"))), env, b) == Got(List(items), env);
    hide Eval;
    InnerFormats(env, b, fuel);
    assert ExecEach("x", items, body, env, b, fuel) == FormatsText;
  }

  lemma {:induction false} ShadowedFormats(b: Builtins, fuel: nat)
    ensures Exec(Shadowed(), map[], b, fuel) == FormatsText
  {
    var env: Env := map["x" := Num(1.0)];
    assert Exec(Assign(["x"], IntLit(1)), map[], b, fuel) == Goes(env) by { OneTarget(map[], "x", Num(1.0)); }
    LoopFormats(env, b, fuel);
  }

  /** So is the one on the conversions: once `int` is another builtin, calling it is no conversion. */
  function Aliased(): Stmt {
    Seq(Assign(["int"], Name("max")), Do(Bin(Mod, Call("int", ListOf(Some(StrLit("%s items")))), IntLit(3))))
  }

  lemma {:induction false} AliasedAccepted()
    ensures Least(Grouped(Collected(Aliased())), {}) && AcceptedStmt(Aliased(), {}) && Uncollected(Aliased()) == {} &&
      NoModAssign(Aliased())
  {
    hide Least, Grouped;
    assert Collected(Aliased()) == [("int", Name("max"))];
    NothingNumeric();
  }

  lemma {:induction false} NothingNumeric()
    ensures Least(Grouped([("int", Name("max"))]), {})
  {
    var pairs := [("int", Name("max"))];
    assert pairs[..0] == [];
    assert Grouped([]) == map[] && [] + [Name("max")] == [Name("max")];
    assert Grouped(pairs) == map["int" := [Name("max")]];
    assert !IsNumeric(Grouped(pairs)["int"][0], {});
  }

  /** With the `max` of Python, which gives back the one item of a list. */
  lemma {:induction false} AliasedFormats(b: Builtins, fuel: nat)
    requires b.known("max") && forall text :: b.other("max", List([Str(text)])) == Some(Str(text))
    ensures Exec(Aliased(), map[], b, fuel) == FormatsText
  {
    var env: Env := map["int" := Builtin("max")];
    assert Exec(Assign(["int"], Name("max")), map[], b, fuel) == Goes(env) by {
      OneTarget(map[], "int", Builtin("max"));
    }
    var list := ListOf(Some(StrLit("%s items")));
    assert Eval(StrLit("%s items"), env, b) == Got(Str("%s items"), env);
    assert Eval(list, env, b) == Got(List([Str("%s items")]), env);
    assert Eval(Call("int", list), env, b) == Got(Str("%s items"), env);
    assert Eval(IntLit(3), env, b) == Got(Num(3.0), env);
    assert Eval(Bin(Mod, Call("int", list), IntLit(3)), env, b) == Formats;
  }

  /** And so is the one on `%=`. */
  lemma {:induction false} ModAssignFormats(b: Builtins, fuel: nat)
    ensures var s := Seq(Assign(["x"], StrLit("text")), AugAssign("x", Mod, IntLit(2)));
      AcceptedStmt(s, {}) && Exec(s, map[], b, fuel) == FormatsText
  {
  }
}
