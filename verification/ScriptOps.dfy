/**
 The operations of the script machine (the cases of EvalScript in src/script.cpp other than IF, NOTIF,
 ELSE and ENDIF), each a partial function of the two stacks.
 */
module ScriptOps {
  import opened Numbers
  import opened Multisig

  const MAX_ELEMENT_SIZE := 520
  const MAX_OP_COUNT := 201
  const MAX_STACK_SIZE := 1000

  /** Operations on the main stack that only arrange, copy, measure or compare elements. */
  datatype StackCode =
    | TwoDrop | TwoDup | ThreeDup | TwoOver | TwoRot | TwoSwap | IfDup | Depth | Drop | Dup | Nip
    | Over | Pick | Roll | Rot | Swap | Tuck | Size

  datatype UnaryCode = OneAdd | OneSub | Negate | AbsOf | Not | ZeroNotEqual

  datatype BinaryCode =
    | Add | Sub | BoolAnd | BoolOr | NumEqual | NumNotEqual | LessThan | GreaterThan
    | LessThanOrEqual | GreaterThanOrEqual | MinOf | MaxOf

  datatype HashCode = Ripemd160 | Sha1 | Sha256 | Hash160 | Hash256

  datatype Code =
    | Nop | Verify | Return | ToAltStack | FromAltStack | CodeSeparator
    | Arrange(s: StackCode) | Equal(fVerify: bool)
    | Unary(u: UnaryCode) | Binary(b: BinaryCode) | NumEqualVerify | Within
    | Hash(h: HashCode) | CheckSig(fVerify: bool) | CheckMultiSig(fVerify: bool)
    | Unknown

  /** A decoded instruction. Reserved is OP_RESERVED, which is not counted; Truncated is a push whose
      data runs past the end; VerIf stands for OP_VERIF and OP_VERNOTIF. */
  datatype Op =
    | Push(v: valtype) | PushNumber(n: int) | Reserved | Truncated | Disabled
    | If(fNot: bool) | Else | EndIf | VerIf | Do(code: Code)

  /** The surroundings of a run: signature checks, the script, its bytes and the hash functions. */
  datatype Env = Env(S: Signing, script: seq<Op>, bytes: seq<Op> -> valtype, hash: (HashCode, valtype) -> valtype)

  /** `pc` counts the instructions read; `begin` is where the script to be signed starts. */
  datatype State = State(stack: seq<valtype>, altstack: seq<valtype>, nOpCount: nat, begin: nat, pc: nat)

  datatype Result = Fail | Ok(st: State)

  datatype Stack = NoStack | Some(s: seq<valtype>)

  predicate CastToBool(v: valtype) {
    exists i :: 0 <= i < |v| && v[i] != 0 && !(i == |v| - 1 && v[i] == 0x80)
  }

  // ----- single operations ------------------------------------------------------------------------------

  function Top(s: seq<valtype>): valtype
    requires s != []
  {
    s[|s|-1]
  }

  function RunArrange(c: StackCode, s: seq<valtype>): Stack {
    var n := |s|;
    match c
    case TwoDrop => if n < 2 then NoStack else Some(s[..n-2])
    case TwoDup => if n < 2 then NoStack else Some(s + s[n-2..])
    case ThreeDup => if n < 3 then NoStack else Some(s + s[n-3..])
    case TwoOver => if n < 4 then NoStack else Some(s + s[n-4..n-2])
    case TwoRot => if n < 6 then NoStack else Some(s[..n-6] + s[n-4..] + s[n-6..n-4])
    case TwoSwap => if n < 4 then NoStack else Some(s[..n-4] + s[n-2..] + s[n-4..n-2])
    case IfDup => if n < 1 then NoStack else if CastToBool(Top(s)) then Some(s + [Top(s)]) else Some(s)
    case Depth => Some(s + [Getvch(n)])
    case Drop => if n < 1 then NoStack else Some(s[..n-1])
    case Dup => if n < 1 then NoStack else Some(s + [Top(s)])
    case Nip => if n < 2 then NoStack else Some(s[..n-2] + [Top(s)])
    case Over => if n < 2 then NoStack else Some(s + [s[n-2]])
    case Pick => Reach(s, false)
    case Roll => Reach(s, true)
    case Rot => if n < 3 then NoStack else Some(s[..n-3] + [s[n-2], s[n-1], s[n-3]])
    case Swap => if n < 2 then NoStack else Some(s[..n-2] + [s[n-1], s[n-2]])
    case Tuck => if n < 2 then NoStack else Some(s[..n-2] + [s[n-1], s[n-2], s[n-1]])
    case Size => if n < 1 then NoStack else Some(s + [Getvch(|Top(s)|)])
  }

  /** PICK copies the element so many below the top, ROLL moves it. */
  function Reach(s: seq<valtype>, fRoll: bool): Stack {
    if |s| < 2 then NoStack
    else
      var k := CastToBigNum(Top(s));
      var t := s[..|s|-1];
      if k.NotANumber? || k.value < 0 || k.value >= |t| then NoStack
      else
        var at := |t| - 1 - k.value;
        Some((if fRoll then t[..at] + t[at+1..] else t) + [t[at]])
  }

  function FromBool(f: bool): int { if f then 1 else 0 }

  function RunUnary(u: UnaryCode, a: int): int {
    match u
    case OneAdd => a + 1
    case OneSub => a - 1
    case Negate => -a
    case AbsOf => if a < 0 then -a else a
    case Not => FromBool(a == 0)
    case ZeroNotEqual => FromBool(a != 0)
  }

  function RunBinary(b: BinaryCode, x: int, y: int): int {
    match b
    case Add => x + y
    case Sub => x - y
    case BoolAnd => FromBool(x != 0 && y != 0)
    case BoolOr => FromBool(x != 0 || y != 0)
    case NumEqual => FromBool(x == y)
    case NumNotEqual => FromBool(x != y)
    case LessThan => FromBool(x < y)
    case GreaterThan => FromBool(x > y)
    case LessThanOrEqual => FromBool(x <= y)
    case GreaterThanOrEqual => FromBool(x >= y)
    case MinOf => if x < y then x else y
    case MaxOf => if x > y then x else y
  }

  predicate AllNumbers(args: seq<valtype>) { forall i :: 0 <= i < |args| ==> CastToBigNum(args[i]).Int? }

  /** Arithmetic on the top elements, all of which must be numbers. */
  function RunNumeric(c: Code, s: seq<valtype>): Stack
    requires c.Unary? || c.Binary? || c.NumEqualVerify? || c.Within?
  {
    var k := if c.Unary? then 1 else if c.Within? then 3 else 2;
    if |s| < k then NoStack
    else
      var args := s[|s|-k..];
      var rest := s[..|s|-k];
      if !AllNumbers(args) then NoStack
      else
        match c
        case Unary(u) => Some(rest + [Getvch(RunUnary(u, CastToBigNum(args[0]).value))])
        case Binary(b) => Some(rest + [Getvch(RunBinary(b, CastToBigNum(args[0]).value, CastToBigNum(args[1]).value))])
        case NumEqualVerify => Answer(rest, CastToBigNum(args[0]).value == CastToBigNum(args[1]).value, true)
        case Within =>
          var x := CastToBigNum(args[0]).value;
          Answer(rest, CastToBigNum(args[1]).value <= x < CastToBigNum(args[2]).value, false)
  }

  /** A truth value pushed; the VERIFY form demands true and pops it again. */
  function Answer(s: seq<valtype>, f: bool, fVerify: bool): Stack {
    if !fVerify then Some(s + [if f then vchTrue else vchFalse]) else if f then Some(s) else NoStack
  }

  /** The first `n` bytes, filled up with zeros. */
  function Sized(v: valtype, n: nat): valtype { seq(n, i requires 0 <= i < n => if i < |v| then v[i] else 0) }

  function HashSize(h: HashCode): nat { if h.Sha256? || h.Hash256? then 32 else 20 }

  function RunCheckSig(E: Env, s: seq<valtype>, begin: nat, fVerify: bool): Stack {
    if |s| < 2 || begin > |E.script| then NoStack
    else
      var vchSig, vchPubKey := s[|s|-2], s[|s|-1];
      var scriptCode := E.S.findAndDelete(E.bytes(E.script[begin..]), vchSig);
      Answer(s[..|s|-2], E.S.checkSig(vchSig, vchPubKey, scriptCode), fVerify)
  }

  /** CHECKMULTISIG: the keys count as operations. */
  function RunCheckMultiSig(E: Env, st: State, fVerify: bool): Result {
    var s := st.stack;
    if s == [] || CastToBigNum(Top(s)).NotANumber? || st.begin > |E.script| then Fail
    else
      var n := CastToBigNum(Top(s)).value;
      if n < 0 || n > 20 || st.nOpCount + n > MAX_OP_COUNT || |s| < 2 + n || CastToBigNum(s[|s|-2-n]).NotANumber? then Fail
      else
        var m := CastToBigNum(s[|s|-2-n]).value;
        if m < 0 || m > n || |s| < 3 + n + m then Fail
        else
          var code := Stripped(E.S, E.bytes(E.script[st.begin..]), Sigs(s, n, m));
          match Answer(s[..|s|-3-n-m], Greedy(E.S, code, Sigs(s, n, m), Keys(s, n)), fVerify)
          case NoStack => Fail
          case Some(t) => Ok(st.(stack := t, nOpCount := st.nOpCount + n))
  }

  function OnStack(st: State, r: Stack): Result {
    match r
    case NoStack => Fail
    case Some(t) => Ok(st.(stack := t))
  }

  /** One executed operation. */
  function Exec(E: Env, c: Code, st: State): Result {
    var s := st.stack;
    match c
    case Nop => Ok(st)
    case Verify => if s != [] && CastToBool(Top(s)) then Ok(st.(stack := s[..|s|-1])) else Fail
    case Return => Fail
    case ToAltStack => if s == [] then Fail else Ok(st.(stack := s[..|s|-1], altstack := st.altstack + [Top(s)]))
    case FromAltStack =>
      if st.altstack == [] then Fail
      else Ok(st.(stack := s + [Top(st.altstack)], altstack := st.altstack[..|st.altstack|-1]))
    case CodeSeparator => Ok(st.(begin := st.pc))
    case Arrange(a) => OnStack(st, RunArrange(a, s))
    case Equal(fVerify) => if |s| < 2 then Fail else OnStack(st, Answer(s[..|s|-2], s[|s|-2] == s[|s|-1], fVerify))
    case Unary(_) => OnStack(st, RunNumeric(c, s))
    case Binary(_) => OnStack(st, RunNumeric(c, s))
    case NumEqualVerify => OnStack(st, RunNumeric(c, s))
    case Within => OnStack(st, RunNumeric(c, s))
    case Hash(h) => if s == [] then Fail else Ok(st.(stack := s[..|s|-1] + [Sized(E.hash(h, Top(s)), HashSize(h))]))
    case CheckSig(fVerify) => OnStack(st, RunCheckSig(E, s, st.begin, fVerify))
    case CheckMultiSig(fVerify) => RunCheckMultiSig(E, st, fVerify)
    case Unknown => Fail
  }

  // ----- the element limit ------------------------------------------------------------------------------

  predicate SmallElements(s: seq<valtype>) { forall i :: 0 <= i < |s| ==> |s[i]| <= MAX_ELEMENT_SIZE }

  /** Both stacks together hold at most 1000 elements of at most 520 bytes. */
  predicate WithinLimits(st: State) {
    && SmallElements(st.stack) && SmallElements(st.altstack)
    && |st.stack| + |st.altstack| <= MAX_STACK_SIZE
  }

  lemma SmallNumber(n: int)
    requires Abs(n) < Pow256(5)
    ensures |Getvch(n)| <= MAX_ELEMENT_SIZE
  {
    VchSize(n, 5);
  }

  lemma Pow256Values()
    ensures Pow256(1) == 256 && Pow256(4) == 0x1_0000_0000 && Pow256(5) == 0x100_0000_0000
  {
  }

  lemma SmallParts(s: seq<valtype>, i: nat, j: nat)
    requires SmallElements(s) && i <= j <= |s|
    ensures SmallElements(s[i..j])
  {
  }

  lemma SmallJoin(a: seq<valtype>, b: seq<valtype>)
    requires SmallElements(a) && SmallElements(b)
    ensures SmallElements(a + b)
  {
  }

  lemma SmallEach(s: seq<valtype>)
    requires forall i :: 0 <= i < |s| ==> |s[i]| <= MAX_ELEMENT_SIZE
    ensures SmallElements(s)
  {
  }

  lemma RunArrangeSmall(c: StackCode, s: seq<valtype>)
    requires SmallElements(s) && |s| <= MAX_STACK_SIZE
    ensures RunArrange(c, s).Some? ==> SmallElements(RunArrange(c, s).s)
  {
    var n := |s|;
    SmallNew(s);
    assert forall i :: 0 <= i < n ==> |s[i]| <= MAX_ELEMENT_SIZE;
    hide Getvch, CastToBool, CastToBigNum, Pow256, Reach, SmallElements;
    match c
    case TwoDrop => if n >= 2 { SmallParts(s, 0, n - 2); }
    case TwoDup => if n >= 2 { SmallParts(s, n - 2, n); SmallJoin(s, s[n-2..]); }
    case ThreeDup => if n >= 3 { SmallParts(s, n - 3, n); SmallJoin(s, s[n-3..]); }
    case TwoOver => if n >= 4 { SmallParts(s, n - 4, n - 2); SmallJoin(s, s[n-4..n-2]); }
    case TwoRot =>
      if n >= 6 {
        SmallParts(s, 0, n - 6);
        SmallParts(s, n - 4, n);
        SmallParts(s, n - 6, n - 4);
        SmallJoin(s[..n-6], s[n-4..]);
        SmallJoin(s[..n-6] + s[n-4..], s[n-6..n-4]);
      }
    case TwoSwap =>
      if n >= 4 {
        SmallParts(s, 0, n - 4);
        SmallParts(s, n - 2, n);
        SmallParts(s, n - 4, n - 2);
        SmallJoin(s[..n-4], s[n-2..]);
        SmallJoin(s[..n-4] + s[n-2..], s[n-4..n-2]);
      }
    case IfDup => if n >= 1 { SmallEach([Top(s)]); SmallJoin(s, [Top(s)]); }
    case Depth =>
    case Drop => if n >= 1 { SmallParts(s, 0, n - 1); }
    case Dup => if n >= 1 { SmallEach([Top(s)]); SmallJoin(s, [Top(s)]); }
    case Nip => if n >= 2 { SmallParts(s, 0, n - 2); SmallEach([Top(s)]); SmallJoin(s[..n-2], [Top(s)]); }
    case Over => if n >= 2 { SmallEach([s[n-2]]); SmallJoin(s, [s[n-2]]); }
    case Pick => ReachSmall(s, false);
    case Roll => ReachSmall(s, true);
    case Rot =>
      if n >= 3 {
        SmallParts(s, 0, n - 3);
        SmallEach([s[n-2], s[n-1], s[n-3]]);
        SmallJoin(s[..n-3], [s[n-2], s[n-1], s[n-3]]);
      }
    case Swap => if n >= 2 { SmallParts(s, 0, n - 2); SmallEach([s[n-1], s[n-2]]); SmallJoin(s[..n-2], [s[n-1], s[n-2]]); }
    case Tuck =>
      if n >= 2 {
        SmallParts(s, 0, n - 2);
        SmallEach([s[n-1], s[n-2], s[n-1]]);
        SmallJoin(s[..n-2], [s[n-1], s[n-2], s[n-1]]);
      }
    case Size =>
  }

  /** The numbers DEPTH and SIZE push. */
  lemma SmallNew(s: seq<valtype>)
    requires SmallElements(s) && |s| <= MAX_STACK_SIZE
    ensures SmallElements(s + [Getvch(|s|)])
    ensures s != [] ==> SmallElements(s + [Getvch(|Top(s)|)])
  {
    hide Getvch, Pow256;
    Pow256Values();
    SmallNumber(|s|);
    if s != [] { SmallNumber(|Top(s)|); }
  }

  lemma ReachSmall(s: seq<valtype>, fRoll: bool)
    requires SmallElements(s)
    ensures Reach(s, fRoll).Some? ==> SmallElements(Reach(s, fRoll).s)
  {
    hide CastToBigNum;
  }

  lemma RunNumericSmall(c: Code, s: seq<valtype>)
    requires c.Unary? || c.Binary? || c.NumEqualVerify? || c.Within?
    requires SmallElements(s)
    ensures RunNumeric(c, s).Some? ==> SmallElements(RunNumeric(c, s).s)
  {
    hide Getvch, CastToBigNum, Pow256;
    Pow256Values();
    var k := if c.Unary? then 1 else if c.Within? then 3 else 2;
    if |s| >= k {
      var args, rest := s[|s|-k..], s[..|s|-k];
      assert SmallElements(rest);
      if AllNumbers(args) {
        var x := CastToBigNum(args[0]).value;
        match c
        case Unary(u) => SmallNumber(RunUnary(u, x));
        case Binary(b) => SmallNumber(RunBinary(b, x, CastToBigNum(args[1]).value));
        case NumEqualVerify =>
        case Within => AnswerSmall(rest, CastToBigNum(args[1]).value <= x < CastToBigNum(args[2]).value);
      }
    }
  }

  lemma AnswerSmall(s: seq<valtype>, f: bool)
    requires SmallElements(s)
    ensures SmallElements(s + [if f then vchTrue else vchFalse])
  {
  }

  /** No operation makes an element of more than 520 bytes out of smaller ones. */
  lemma ExecSmall(E: Env, c: Code, st: State)
    requires WithinLimits(st)
    ensures var r := Exec(E, c, st); r.Ok? ==> SmallElements(r.st.stack) && SmallElements(r.st.altstack)
  {
    hide RunArrange, RunNumeric, CastToBool, CastToBigNum, Greedy, Stripped;
    match c
    case Arrange(a) => RunArrangeSmall(a, st.stack);
    case Unary(_) => RunNumericSmall(c, st.stack);
    case Binary(_) => RunNumericSmall(c, st.stack);
    case NumEqualVerify => RunNumericSmall(c, st.stack);
    case Within => RunNumericSmall(c, st.stack);
    case _ =>
  }

  /** CHECKMULTISIG in terms of matches: it succeeds, when the stack is laid out for it, with the answer
      whether the signatures match the keys in order. */
  lemma CheckMultiSigMeaning(E: Env, st: State, fVerify: bool, n: nat, m: nat)
    requires Laid(st.stack, n, m) && st.nOpCount + n <= MAX_OP_COUNT && st.begin <= |E.script|
    ensures var f := Satisfied(E.S, st.stack, n, m, E.bytes(E.script[st.begin..]));
      RunCheckMultiSig(E, st, fVerify) ==
        if fVerify && !f then Fail
        else Ok(st.(
          stack := st.stack[..|st.stack|-3-n-m] + (if fVerify then [] else if f then [vchTrue] else [vchFalse]),
          nOpCount := st.nOpCount + n))
  {
    hide CastToBigNum, Greedy, Stripped, Matches;
    var s := st.stack;
    GreedyIsMatch(E.S, Stripped(E.S, E.bytes(E.script[st.begin..]), Sigs(s, n, m)), Sigs(s, n, m), Keys(s, n));
  }
}
