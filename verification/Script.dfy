/**
 The control flow of EvalScript (src/script.cpp): one flat loop with a stack of flags runs scripts the
 way a recursive evaluator runs the nested IF/ELSE/ENDIF tree.
 */
module Script {
  import opened Numbers
  import opened Multisig
  import opened ScriptOps

  const MAX_SCRIPT_SIZE := 10000

  // ----- what every instruction costs ---------------------------------------------------------------------

  function CountsAsOp(op: Op): bool { !op.Push? && !op.PushNumber? && !op.Reserved? }

  /** Reading an instruction, executed or not: its own size, the operation count, disabled codes. */
  function Enter(op: Op, st: State): Result {
    if op.Truncated? then Fail
    else if op.Push? && |op.v| > MAX_ELEMENT_SIZE then Fail
    else if CountsAsOp(op) && st.nOpCount + 1 > MAX_OP_COUNT then Fail
    else if op.Disabled? then Fail
    else Ok(st.(pc := st.pc + 1, nOpCount := st.nOpCount + if CountsAsOp(op) then 1 else 0))
  }

  /** The check after every instruction, executed or not. */
  function Leave(st: State): Result {
    if |st.stack| + |st.altstack| > MAX_STACK_SIZE then Fail else Ok(st)
  }

  /** What an instruction other than the conditionals does when it is executed. */
  function Act(E: Env, op: Op, st: State): Result {
    match op
    case Push(v) => Ok(st.(stack := st.stack + [v]))
    case PushNumber(n) => Ok(st.(stack := st.stack + [Getvch(n)]))
    case Do(c) => Exec(E, c, st)
    case _ => Fail
  }

  /** IF and NOTIF take their condition off the stack. */
  function Condition(st: State): (bool, Result) {
    if st.stack == [] then (false, Fail)
    else (CastToBool(Top(st.stack)), Ok(st.(stack := st.stack[..|st.stack|-1])))
  }

  // ----- the flat machine -----------------------------------------------------------------------------------

  predicate AllTrue(vf: seq<bool>) { forall i :: 0 <= i < |vf| ==> vf[i] }

  datatype Flat = Stop | Go(st: State, vf: seq<bool>)

  function Then(r: Result, vf: seq<bool>): Flat {
    match r
    case Fail => Stop
    case Ok(st) => (match Leave(st) case Fail => Stop case Ok(st') => Go(st', vf))
  }

  /** One turn of the loop. */
  function Step(E: Env, op: Op, st: State, vf: seq<bool>): Flat {
    match Enter(op, st)
    case Fail => Stop
    case Ok(st1) =>
      match op
      case If(fNot) =>
        if AllTrue(vf) then
          var (f, r) := Condition(st1);
          Then(r, vf + [f != fNot])
        else Then(Ok(st1), vf + [false])
      case Else => if vf == [] then Stop else Then(Ok(st1), vf[..|vf|-1] + [!vf[|vf|-1]])
      case EndIf => if vf == [] then Stop else Then(Ok(st1), vf[..|vf|-1])
      case VerIf => Stop
      case _ => Then(if AllTrue(vf) then Act(E, op, st1) else Ok(st1), vf)
  }

  function Run(E: Env, ops: seq<Op>, st: State, vf: seq<bool>): Flat {
    if ops == [] then Go(st, vf)
    else
      match Step(E, ops[0], st, vf)
      case Stop => Stop
      case Go(st', vf') => Run(E, ops[1..], st', vf')
  }

  // ----- the tree ---------------------------------------------------------------------------------------------

  /** A script as a tree: a conditional has one or more arms, separated by ELSE. */
  datatype Items = Nil | Plain(op: Op, rest: Items) | Cond(fNot: bool, arms: Arms, rest: Items)

  datatype Arms = Last(body: Items) | More(body: Items, others: Arms)

  predicate IsPlain(op: Op) { !op.If? && !op.Else? && !op.EndIf? }

  predicate WellFormed(t: Items) {
    match t
    case Nil => true
    case Plain(op, rest) => IsPlain(op) && WellFormed(rest)
    case Cond(_, arms, rest) => WellFormedArms(arms) && WellFormed(rest)
  }

  predicate WellFormedArms(a: Arms) {
    match a
    case Last(body) => WellFormed(body)
    case More(body, others) => WellFormed(body) && WellFormedArms(others)
  }

  function Flatten(t: Items): seq<Op> {
    match t
    case Nil => []
    case Plain(op, rest) => [op] + Flatten(rest)
    case Cond(fNot, arms, rest) => [If(fNot)] + FlattenArms(arms) + Flatten(rest)
  }

  function FlattenArms(a: Arms): seq<Op> {
    match a
    case Last(body) => Flatten(body) + [EndIf]
    case More(body, others) => Flatten(body) + [Else] + FlattenArms(others)
  }

  function Pass(op: Op, st: State): Result {
    match Enter(op, st)
    case Fail => Fail
    case Ok(st1) => Leave(st1)
  }

  /** The nested reading: `f` says whether this part of the script is executed. */
  function Eval(E: Env, t: Items, st: State, f: bool): Result {
    match t
    case Nil => Ok(st)
    case Plain(op, rest) =>
      (match EvalPlain(E, op, st, f)
       case Fail => Fail
       case Ok(st') => Eval(E, rest, st', f))
    case Cond(fNot, arms, rest) =>
      match EvalIf(fNot, st, f)
      case NoChoice => Fail
      case Choice(v, st1) =>
        match EvalArms(E, arms, st1, f, v)
        case Fail => Fail
        case Ok(st') => Eval(E, rest, st', f)
  }

  /** The arms in turn: every other one is executed, starting with the first if `v`. */
  function EvalArms(E: Env, a: Arms, st: State, f: bool, v: bool): Result {
    match Eval(E, a.body, st, f && v)
    case Fail => Fail
    case Ok(st1) =>
      match a
      case Last(_) => Pass(EndIf, st1)
      case More(_, others) =>
        match Pass(Else, st1)
        case Fail => Fail
        case Ok(st2) => EvalArms(E, others, st2, f, !v)
  }

  function EvalPlain(E: Env, op: Op, st: State, f: bool): Result {
    match Enter(op, st)
    case Fail => Fail
    case Ok(st1) =>
      if op.VerIf? then Fail
      else if !f then Leave(st1)
      else match Act(E, op, st1) case Fail => Fail case Ok(st2) => Leave(st2)
  }

  datatype Choosing = NoChoice | Choice(v: bool, st: State)

  /** The head of a conditional: in an executed part the condition is popped and chooses the arms. */
  function EvalIf(fNot: bool, st: State, f: bool): Choosing {
    match Enter(If(fNot), st)
    case Fail => NoChoice
    case Ok(st1) =>
      if f then
        var (v, r) := Condition(st1);
        match r
        case Fail => NoChoice
        case Ok(st2) => (match Leave(st2) case Fail => NoChoice case Ok(st3) => Choice(v != fNot, st3))
      else match Leave(st1) case Fail => NoChoice case Ok(st3) => Choice(false, st3)
  }

  // ----- flat and nested agree on trees -----------------------------------------------------------------------

  /** The flat run continues after the nested one. */
  function Continue(E: Env, r: Result, rest: seq<Op>, vf: seq<bool>): Flat {
    match r
    case Fail => Stop
    case Ok(st) => Run(E, rest, st, vf)
  }

  lemma RunCons(E: Env, op: Op, rest: seq<Op>, st: State, vf: seq<bool>)
    ensures Run(E, [op] + rest, st, vf) ==
      match Step(E, op, st, vf) { case Stop => Stop case Go(st', vf') => Run(E, rest, st', vf') }
  {
    assert ([op] + rest)[1..] == rest;
  }

  lemma AllTruePush(vf: seq<bool>, v: bool)
    ensures AllTrue(vf + [v]) <==> AllTrue(vf) && v
    ensures (vf + [v])[..|vf|] == vf
  {
    if AllTrue(vf + [v]) {
      assert (vf + [v])[|vf|] == v;
      forall i | 0 <= i < |vf| ensures vf[i] { assert (vf + [v])[i] == vf[i]; }
    }
  }

  lemma {:induction false} FlatIsNested(E: Env, t: Items, st: State, vf: seq<bool>, rest: seq<Op>)
    requires WellFormed(t)
    ensures Run(E, Flatten(t) + rest, st, vf) == Continue(E, Eval(E, t, st, AllTrue(vf)), rest, vf)
    decreases t
  {
    hide Exec, AllTrue, Act, Enter, Leave, Run;
    match t
    case Nil =>
      assert [] + rest == rest;
    case Plain(op, t') =>
      assert Flatten(t) + rest == [op] + (Flatten(t') + rest);
      RunCons(E, op, Flatten(t') + rest, st, vf);
      var r := EvalPlain(E, op, st, AllTrue(vf));
      if r.Ok? { FlatIsNested(E, t', r.st, vf, rest); }
    case Cond(fNot, arms, t') =>
      assert Flatten(t) + rest == [If(fNot)] + (FlattenArms(arms) + (Flatten(t') + rest));
      RunCons(E, If(fNot), FlattenArms(arms) + (Flatten(t') + rest), st, vf);
      var c := EvalIf(fNot, st, AllTrue(vf));
      if c.Choice? {
        FlatIsNestedArms(E, arms, c.st, vf, c.v, Flatten(t') + rest);
        var r := EvalArms(E, arms, c.st, AllTrue(vf), c.v);
        if r.Ok? { FlatIsNested(E, t', r.st, vf, rest); }
      }
  }

  lemma {:induction false} FlatIsNestedArms(E: Env, a: Arms, st: State, vf: seq<bool>, v: bool, rest: seq<Op>)
    requires WellFormedArms(a)
    ensures Run(E, FlattenArms(a) + rest, st, vf + [v]) == Continue(E, EvalArms(E, a, st, AllTrue(vf), v), rest, vf)
    decreases a
  {
    hide Exec, AllTrue, Act, Enter, Leave, Run;
    AllTruePush(vf, v);
    var r := Eval(E, a.body, st, AllTrue(vf) && v);
    match a
    case Last(body) =>
      assert FlattenArms(a) + rest == Flatten(body) + ([EndIf] + rest);
      FlatIsNested(E, body, st, vf + [v], [EndIf] + rest);
      if r.Ok? { RunCons(E, EndIf, rest, r.st, vf + [v]); }
    case More(body, others) =>
      assert FlattenArms(a) + rest == Flatten(body) + ([Else] + (FlattenArms(others) + rest));
      FlatIsNested(E, body, st, vf + [v], [Else] + (FlattenArms(others) + rest));
      if r.Ok? {
        RunCons(E, Else, FlattenArms(others) + rest, r.st, vf + [v]);
        var r2 := Pass(Else, r.st);
        if r2.Ok? { FlatIsNestedArms(E, others, r2.st, vf, !v, rest); }
      }
  }

  // ----- which scripts are trees ------------------------------------------------------------------------------

  datatype Parsed = NoTree | Tree(t: Items, rest: seq<Op>)

  datatype ParsedArms = NoArms | ArmsOf(a: Arms, rest: seq<Op>)

  /** The longest tree a script starts with; no tree if a conditional in it never ends. */
  function Parse(ops: seq<Op>): (r: Parsed)
    ensures r.Tree? ==> |r.rest| <= |ops| && WellFormed(r.t)
    ensures r.Tree? && r.rest != [] ==> r.rest[0].Else? || r.rest[0].EndIf?
    decreases |ops|, 1
  {
    if ops == [] || ops[0].Else? || ops[0].EndIf? then Tree(Nil, ops)
    else if ops[0].If? then
      match ParseArms(ops[1..])
      case NoArms => NoTree
      case ArmsOf(arms, rest) =>
        (match Parse(rest)
         case NoTree => NoTree
         case Tree(t, rest') => Tree(Cond(ops[0].fNot, arms, t), rest'))
    else
      match Parse(ops[1..])
      case NoTree => NoTree
      case Tree(t, rest) => Tree(Plain(ops[0], t), rest)
  }

  function ParseArms(ops: seq<Op>): (r: ParsedArms)
    ensures r.ArmsOf? ==> |r.rest| <= |ops| && WellFormedArms(r.a)
    decreases |ops|, 2
  {
    match Parse(ops)
    case NoTree => NoArms
    case Tree(body, rest) =>
      if rest == [] then NoArms
      else if rest[0].EndIf? then ArmsOf(Last(body), rest[1..])
      else
        match ParseArms(rest[1..])
        case NoArms => NoArms
        case ArmsOf(others, rest') => ArmsOf(More(body, others), rest')
  }

  lemma Joined(x: Op, a: seq<Op>, b: seq<Op>, c: seq<Op>)
    ensures [x] + (a + (b + c)) == [x] + a + b + c
    ensures a + ([x] + (b + c)) == a + [x] + b + c
    ensures a + ([x] + c) == a + [x] + c && [x] + (a + c) == [x] + a + c
  {
  }

  lemma {:induction false} ParseIsFlatten(ops: seq<Op>)
    requires Parse(ops).Tree?
    ensures ops == Flatten(Parse(ops).t) + Parse(ops).rest
    decreases |ops|, 1
  {
    var p := Parse(ops);
    if ops == [] || ops[0].Else? || ops[0].EndIf? {
      assert Flatten(p.t) == [];
    } else if ops[0].If? {
      var arms := ParseArms(ops[1..]);
      ParseArmsIsFlatten(ops[1..]);
      ParseIsFlatten(arms.rest);
      Joined(ops[0], FlattenArms(arms.a), Flatten(Parse(arms.rest).t), p.rest);
      assert ops == [ops[0]] + ops[1..];
      assert Flatten(p.t) == [ops[0]] + FlattenArms(arms.a) + Flatten(Parse(arms.rest).t);
    } else {
      ParseIsFlatten(ops[1..]);
      Joined(ops[0], Flatten(Parse(ops[1..]).t), [], p.rest);
      assert ops == [ops[0]] + ops[1..];
    }
  }

  lemma {:induction false} ParseArmsIsFlatten(ops: seq<Op>)
    requires ParseArms(ops).ArmsOf?
    ensures ops == FlattenArms(ParseArms(ops).a) + ParseArms(ops).rest
    decreases |ops|, 2
  {
    ParseIsFlatten(ops);
    var p, r := Parse(ops), ParseArms(ops);
    assert p.rest == [p.rest[0]] + p.rest[1..];
    if p.rest[0].EndIf? {
      Joined(EndIf, Flatten(p.t), [], r.rest);
    } else {
      ParseArmsIsFlatten(p.rest[1..]);
      Joined(Else, Flatten(p.t), FlattenArms(ParseArms(p.rest[1..]).a), r.rest);
    }
  }

  /** A tree is found again in its own flat form. */
  lemma {:induction false} ParseFinds(t: Items, rest: seq<Op>)
    requires WellFormed(t) && (rest == [] || rest[0].Else? || rest[0].EndIf?)
    ensures Parse(Flatten(t) + rest) == Tree(t, rest)
    decreases t
  {
    match t
    case Nil =>
      assert [] + rest == rest;
    case Plain(op, t') =>
      assert (Flatten(t) + rest)[1..] == Flatten(t') + rest;
      ParseFinds(t', rest);
    case Cond(fNot, arms, t') =>
      assert (Flatten(t) + rest)[1..] == FlattenArms(arms) + (Flatten(t') + rest);
      ParseFindsArms(arms, Flatten(t') + rest);
      ParseFinds(t', rest);
  }

  lemma {:induction false} ParseFindsArms(a: Arms, rest: seq<Op>)
    requires WellFormedArms(a)
    ensures ParseArms(FlattenArms(a) + rest) == ArmsOf(a, rest)
    decreases a
  {
    match a
    case Last(body) =>
      assert FlattenArms(a) + rest == Flatten(body) + ([EndIf] + rest);
      ParseFinds(body, [EndIf] + rest);
      assert ([EndIf] + rest)[1..] == rest;
    case More(body, others) =>
      var tail := [Else] + (FlattenArms(others) + rest);
      assert FlattenArms(a) + rest == Flatten(body) + tail;
      ParseFinds(body, tail);
      assert tail[1..] == FlattenArms(others) + rest;
      ParseFindsArms(others, rest);
  }

  /** What a whole script means: its tree, evaluated; a script that is no tree fails. */
  function Meaning(E: Env, st: State): Result {
    match Parse(E.script)
    case NoTree => Fail
    case Tree(t, rest) => if rest == [] then Eval(E, t, st, true) else Fail
  }

  // ----- scripts that are not trees ---------------------------------------------------------------------------

  /** An unfinished conditional leaves at least its own flag behind. */
  lemma {:induction false} UnfinishedStaysOpen(E: Env, ops: seq<Op>, st: State, vf: seq<bool>)
    requires Parse(ops).NoTree?
    ensures var r := Run(E, ops, st, vf); r.Go? ==> |r.vf| > |vf|
    decreases |ops|, 1
  {
    hide Exec, AllTrue, Act, Enter, Leave;
    assert ops == [ops[0]] + ops[1..];
    RunCons(E, ops[0], ops[1..], st, vf);
    var s := Step(E, ops[0], st, vf);
    if s.Go? {
      if ops[0].If? {
        assert s.vf == s.vf[..|vf|] + [s.vf[|vf|]];
        if ParseArms(ops[1..]).NoArms? {
          UnfinishedArms(E, ops[1..], s.st, s.vf);
        } else {
          var arms := ParseArms(ops[1..]);
          ParseArmsIsFlatten(ops[1..]);
          FlatIsNestedArms(E, arms.a, s.st, s.vf[..|vf|], s.vf[|vf|], arms.rest);
          var r := EvalArms(E, arms.a, s.st, AllTrue(s.vf[..|vf|]), s.vf[|vf|]);
          if r.Ok? { UnfinishedStaysOpen(E, arms.rest, r.st, s.vf[..|vf|]); }
        }
      } else {
        UnfinishedStaysOpen(E, ops[1..], s.st, s.vf);
      }
    }
  }

  lemma {:induction false} UnfinishedArms(E: Env, ops: seq<Op>, st: State, vf: seq<bool>)
    requires ParseArms(ops).NoArms? && vf != []
    ensures var r := Run(E, ops, st, vf); r.Go? ==> |r.vf| >= |vf|
    decreases |ops|, 2
  {
    hide Exec, AllTrue, Act, Enter, Leave;
    var p := Parse(ops);
    if p.NoTree? {
      UnfinishedStaysOpen(E, ops, st, vf);
    } else {
      ParseIsFlatten(ops);
      FlatIsNested(E, p.t, st, vf, p.rest);
      var r := Eval(E, p.t, st, AllTrue(vf));
      if r.Ok? && p.rest != [] {
        assert p.rest == [p.rest[0]] + p.rest[1..];
        RunCons(E, p.rest[0], p.rest[1..], r.st, vf);
        var s := Step(E, p.rest[0], r.st, vf);
        if s.Go? { UnfinishedArms(E, p.rest[1..], s.st, s.vf); }
      }
    }
  }

  /** The flat machine, started with no flags, accepts exactly what the tree reading accepts and leaves
      the same stacks; a script that is not a tree is never accepted. */
  lemma FlatMeans(E: Env, st: State)
    ensures var r, m := Run(E, E.script, st, []), Meaning(E, st);
      && (r.Go? && r.vf == [] <==> m.Ok?)
      && (m.Ok? ==> r.st == m.st)
  {
    hide Exec, Act, Enter, Leave;
    var p := Parse(E.script);
    if p.NoTree? {
      UnfinishedStaysOpen(E, E.script, st, []);
    } else {
      ParseIsFlatten(E.script);
      FlatIsNested(E, p.t, st, [], p.rest);
      if p.rest != [] {
        var r := Eval(E, p.t, st, AllTrue([]));
        if r.Ok? {
          assert p.rest == [p.rest[0]] + p.rest[1..];
          RunCons(E, p.rest[0], p.rest[1..], r.st, []);
        }
      }
    }
  }

  // ----- the limits -------------------------------------------------------------------------------------------

  /** Instructions the byte format can hold: pushed numbers are -1 and 1 to 16. */
  predicate Encodable(op: Op) { op.PushNumber? ==> op.n == -1 || 1 <= op.n <= 16 }

  predicate Bounded(st: State) { WithinLimits(st) && st.nOpCount <= MAX_OP_COUNT }

  lemma StepBounded(E: Env, op: Op, st: State, vf: seq<bool>)
    requires Bounded(st) && Encodable(op)
    ensures var r := Step(E, op, st, vf); r.Go? ==> Bounded(r.st) && r.st.pc == st.pc + 1
  {
    hide Exec, CastToBool, Getvch, Pow256;
    var e := Enter(op, st);
    if e.Ok? {
      match op
      case PushNumber(n) =>
        Pow256Values();
        SmallNumber(n);
      case Do(c) =>
        ExecSmall(E, c, e.st);
        ExecCounts(E, c, e.st);
      case _ =>
    }
  }

  lemma ExecCounts(E: Env, c: Code, st: State)
    requires st.nOpCount <= MAX_OP_COUNT
    ensures var r := Exec(E, c, st); r.Ok? ==> r.st.nOpCount <= MAX_OP_COUNT && r.st.pc == st.pc
  {
    hide RunArrange, RunNumeric, CastToBool, CastToBigNum, Greedy, Stripped;
  }

  /** Through a whole run the stacks and the count stay within their limits. */
  lemma {:induction false} RunBounded(E: Env, ops: seq<Op>, st: State, vf: seq<bool>)
    requires Bounded(st) && forall i :: 0 <= i < |ops| ==> Encodable(ops[i])
    ensures var r := Run(E, ops, st, vf); r.Go? ==> Bounded(r.st)
    decreases |ops|
  {
    hide Step, Bounded, Encodable;
    if ops != [] {
      StepBounded(E, ops[0], st, vf);
      var s := Step(E, ops[0], st, vf);
      if s.Go? { RunBounded(E, ops[1..], s.st, s.vf); }
    }
  }

  // ----- the loop ---------------------------------------------------------------------------------------------

  /** EvalScript: run the script on a stack. */
  method EvalScript(E: Env, stack0: seq<valtype>) returns (ok: bool, stack: seq<valtype>)
    ensures var m := Meaning(E, State(stack0, [], 0, 0, 0));
      && (ok <==> |E.bytes(E.script)| <= MAX_SCRIPT_SIZE && m.Ok?)
      && (ok ==> stack == m.st.stack)
  {
    hide Exec, CastToBool, Getvch, AllTrue, Meaning;
    stack := stack0;
    if |E.bytes(E.script)| > MAX_SCRIPT_SIZE { return false, stack; }
    var st := State(stack0, [], 0, 0, 0);
    var vfExec := [];
    FlatMeans(E, st);
    assert E.script[0..] == E.script;
    while st.pc < |E.script|
      invariant st.pc <= |E.script|
      invariant Run(E, E.script, State(stack0, [], 0, 0, 0), []) == Run(E, E.script[st.pc..], st, vfExec)
      decreases |E.script| - st.pc
    {
      var op := E.script[st.pc];
      assert E.script[st.pc..][1..] == E.script[st.pc + 1..];
      var fGo;
      fGo, st, vfExec := OneInstruction(E, op, st, vfExec);
      if !fGo { return false, stack; }
    }
    stack := st.stack;
    ok := vfExec == [];
  }

  /** The body of the loop, in the order of the source: limits, then the operation, then the stack size. */
  method OneInstruction(E: Env, op: Op, st0: State, vf0: seq<bool>) returns (fGo: bool, st: State, vfExec: seq<bool>)
    ensures fGo == Step(E, op, st0, vf0).Go?
    ensures fGo ==> Step(E, op, st0, vf0) == Go(st, vfExec) && st.pc == st0.pc + 1
  {
    hide Exec, CastToBool, Getvch;
    ExecKeepsPc(E, op, st0);
    st, vfExec := st0, vf0;
    var fExec := AllTrue(vfExec);
    if op.Truncated? { return false, st, vfExec; }
    st := st.(pc := st.pc + 1);
    if op.Push? && |op.v| > MAX_ELEMENT_SIZE { return false, st, vfExec; }
    if CountsAsOp(op) {
      st := st.(nOpCount := st.nOpCount + 1);
      if st.nOpCount > MAX_OP_COUNT { return false, st, vfExec; }
    }
    if op.Disabled? { return false, st, vfExec; }
    if fExec && op.Push? {
      st := st.(stack := st.stack + [op.v]);
    } else if fExec || op.If? || op.Else? || op.EndIf? || op.VerIf? {
      match op {
        case PushNumber(n) => st := st.(stack := st.stack + [Getvch(n)]);
        case If(fNot) =>
          var fValue := false;
          if fExec {
            if st.stack == [] { return false, st, vfExec; }
            fValue := CastToBool(Top(st.stack));
            if fNot { fValue := !fValue; }
            st := st.(stack := st.stack[..|st.stack|-1]);
          }
          vfExec := vfExec + [fValue];
        case Else =>
          if vfExec == [] { return false, st, vfExec; }
          vfExec := vfExec[..|vfExec|-1] + [!vfExec[|vfExec|-1]];
        case EndIf =>
          if vfExec == [] { return false, st, vfExec; }
          vfExec := vfExec[..|vfExec|-1];
        case Do(c) =>
          var r := Exec(E, c, st);
          if r.Fail? { return false, st, vfExec; }
          st := r.st;
        case _ => return false, st, vfExec;
      }
    }
    if |st.stack| + |st.altstack| > MAX_STACK_SIZE { return false, st, vfExec; }
    fGo := true;
  }

  lemma ExecKeepsPc(E: Env, op: Op, st: State)
    ensures forall c, s :: op == Do(c) && Exec(E, c, s).Ok? ==> Exec(E, c, s).st.pc == s.pc
  {
    hide RunArrange, RunNumeric, CastToBool, CastToBigNum, Greedy, Stripped;
  }
}
