/**
 Laws of the script machine that no single operation states: what the operations do to one another,
 what a standard output demands, and which arm of a conditional is taken.
 */
module ScriptLaws {
  import opened Numbers
  import opened Multisig
  import opened ScriptOps
  import opened Script

  // ----- truth ------------------------------------------------------------------------------------------

  lemma {:induction false} NonzeroMagnitude(m: seq<byte>)
    ensures FromMagnitude(m) != 0 <==> exists i :: 0 <= i < |m| && m[i] != 0
    decreases |m|
  {
    if m != [] {
      NonzeroMagnitude(m[1..]);
      assert forall i :: 1 <= i < |m| ==> m[i] == m[1..][i - 1];
      if i :| 0 <= i < |m[1..]| && m[1..][i] != 0 { assert m[i + 1] != 0; }
    }
  }

  /** A stack element is true exactly when it is not zero, read as a number of any length. */
  lemma TrueIsNonzero(v: valtype)
    ensures CastToBool(v) <==> Setvch(v) != 0
  {
    hide FromMagnitude;
    if v != [] {
      var top := v[|v|-1];
      var m: seq<byte> := v[..|v|-1] + [top % 0x80];
      NonzeroMagnitude(m);
      assert forall i :: 0 <= i < |v| - 1 ==> m[i] == v[i];
      assert top % 0x80 != 0 <==> top != 0 && top != 0x80;
      if CastToBool(v) {
        var i :| 0 <= i < |v| && v[i] != 0 && !(i == |v| - 1 && v[i] == 0x80);
        assert m[i] != 0;
      }
      if i :| 0 <= i < |m| && m[i] != 0 { assert v[i] != 0 && !(i == |v| - 1 && v[i] == 0x80); }
    }
  }

  // ----- operations in a row ------------------------------------------------------------------------------

  /** One operation after others that went well. */
  function Next(E: Env, r: Result, c: Code): Result {
    match r
    case Fail => Fail
    case Ok(st) => Exec(E, c, st)
  }

  function Number(r: Result, n: int): Result {
    match r
    case Fail => Fail
    case Ok(st) => Ok(st.(stack := st.stack + [Getvch(n)]))
  }

  function PickAt(E: Env, r: Result, k: nat): Result { Next(E, Number(r, k), Arrange(Pick)) }

  function RollAt(E: Env, r: Result, k: nat): Result { Next(E, Number(r, k), Arrange(Roll)) }

  /** PICK copies, and ROLL moves, the element with `k` elements above it. */
  lemma Reaches(E: Env, st: State, below: seq<valtype>, v: valtype, above: seq<valtype>)
    requires st.stack == below + [v] + above && |above| < 0x8000_0000
    ensures PickAt(E, Ok(st), |above|) == Ok(st.(stack := below + [v] + above + [v]))
    ensures RollAt(E, Ok(st), |above|) == Ok(st.(stack := below + above + [v]))
  {
    NumberBack(|above|);
    hide Getvch, CastToBigNum, CastToBool;
    var s, k := st.stack, |above|;
    var t := s + [Getvch(k)];
    assert t[..|t|-1] == s && Top(t) == Getvch(k);
    assert s[|below|] == v && s[..|below|] == below && s[|below| + 1..] == above;
  }

  lemma OutOfReach(E: Env, st: State, k: nat)
    requires |st.stack| <= k < 0x8000_0000
    ensures PickAt(E, Ok(st), k) == Fail && RollAt(E, Ok(st), k) == Fail
  {
    NumberBack(k);
    hide Getvch, CastToBigNum, CastToBool;
    var t := st.stack + [Getvch(k)];
    assert t[..|t|-1] == st.stack && Top(t) == Getvch(k);
  }

  // ----- the stack operations in terms of PICK, ROLL and DROP ------------------------------------------------

  function Dropped(E: Env, r: Result): Result { Next(E, r, Arrange(Drop)) }

  /** The operations that only move and copy elements, by PICK, ROLL and DROP. */
  function Spelled(E: Env, c: StackCode, r: Result): Result
    requires c !in {IfDup, Depth, Size, Pick, Roll, Drop}
  {
    match c
    case TwoDrop => Dropped(E, Dropped(E, r))
    case TwoDup => PickAt(E, PickAt(E, r, 1), 1)
    case ThreeDup => PickAt(E, PickAt(E, PickAt(E, r, 2), 2), 2)
    case TwoOver => PickAt(E, PickAt(E, r, 3), 3)
    case TwoRot => RollAt(E, RollAt(E, r, 5), 5)
    case TwoSwap => RollAt(E, RollAt(E, r, 3), 3)
    case Dup => PickAt(E, r, 0)
    case Nip => Dropped(E, RollAt(E, r, 1))
    case Over => PickAt(E, r, 1)
    case Rot => RollAt(E, r, 2)
    case Swap => RollAt(E, r, 1)
    case Tuck => PickAt(E, RollAt(E, r, 1), 1)
    case _ => r
  }

  /** What PICK and ROLL leave, on any stack. */
  lemma ReachOn(E: Env, st: State, k: nat)
    requires k < 0x8000_0000
    ensures var s := st.stack;
      if k >= |s| then PickAt(E, Ok(st), k) == Fail && RollAt(E, Ok(st), k) == Fail
      else
        var at := |s| - 1 - k;
        && PickAt(E, Ok(st), k) == Ok(st.(stack := s + [s[at]]))
        && RollAt(E, Ok(st), k) == Ok(st.(stack := s[..at] + s[at + 1..] + [s[at]]))
  {
    hide PickAt, RollAt;
    var s := st.stack;
    if k >= |s| {
      OutOfReach(E, st, k);
    } else {
      var at := |s| - 1 - k;
      assert s == s[..at] + [s[at]] + s[at + 1..];
      Reaches(E, st, s[..at], s[at], s[at + 1..]);
    }
  }

  /** Two in a row. */
  lemma ReachTwice(E: Env, st: State, k: nat)
    requires 0 < k < 0x7fff_ffff
    ensures var s := st.stack;
      if k >= |s| then PickAt(E, PickAt(E, Ok(st), k), k) == Fail && RollAt(E, RollAt(E, Ok(st), k), k) == Fail
      else
        var at := |s| - 1 - k;
        && PickAt(E, PickAt(E, Ok(st), k), k) == Ok(st.(stack := s + [s[at], s[at + 1]]))
        && (k > 1 ==> RollAt(E, RollAt(E, Ok(st), k), k) == Ok(st.(stack := s[..at] + s[at + 2..] + [s[at], s[at + 1]])))
  {
    hide PickAt, RollAt;
    var s := st.stack;
    ReachOn(E, st, k);
    if k >= |s| {
      NothingAfterFail(E, k);
    } else {
      var at := |s| - 1 - k;
      ReachOn(E, st.(stack := s + [s[at]]), k);
      assert s + [s[at]] + [s[at + 1]] == s + [s[at], s[at + 1]];
      if k > 1 {
        var t := s[..at] + s[at + 1..] + [s[at]];
        ReachOn(E, st.(stack := t), k);
        assert t[..at] == s[..at] && t[at] == s[at + 1] && t[at + 1..] == s[at + 2..] + [s[at]];
        assert t[..at] + t[at + 1..] + [t[at]] == s[..at] + s[at + 2..] + [s[at], s[at + 1]];
      }
    }
  }

  lemma NothingAfterFail(E: Env, k: nat)
    ensures PickAt(E, Fail, k) == Fail && RollAt(E, Fail, k) == Fail && Dropped(E, Fail) == Fail
  {
  }

  lemma TwoLess<T>(s: seq<T>)
    requires |s| >= 2
    ensures s[..|s|-1][..|s|-2] == s[..|s|-2]
  {
  }

  lemma TwoFrom<T>(s: seq<T>, i: nat)
    requires i + 2 <= |s|
    ensures s[i..i+2] == [s[i], s[i+1]] && (i + 2 == |s| ==> s[i..] == [s[i], s[i+1]])
  {
  }

  lemma Rotated<T>(s: seq<T>)
    requires |s| >= 3
    ensures var n := |s|; s[..n-3] + s[n-2..] + [s[n-3]] == s[..n-3] + [s[n-2], s[n-1], s[n-3]]
  {
  }

  lemma TwoDropSpelled(E: Env, st: State)
    ensures Exec(E, Arrange(TwoDrop), st) == Spelled(E, TwoDrop, Ok(st))
  {
    hide PickAt, RollAt, Getvch, CastToBool, CastToBigNum;
    if |st.stack| >= 2 { TwoLess(st.stack); }
  }

  lemma TwoDupSpelled(E: Env, st: State)
    ensures Exec(E, Arrange(TwoDup), st) == Spelled(E, TwoDup, Ok(st))
  {
    hide PickAt, RollAt, Getvch, CastToBool, CastToBigNum;
    ReachTwice(E, st, 1);
    if |st.stack| >= 2 { TwoFrom(st.stack, |st.stack| - 2); }
  }

  lemma TwoOverSpelled(E: Env, st: State)
    ensures Exec(E, Arrange(TwoOver), st) == Spelled(E, TwoOver, Ok(st))
  {
    hide PickAt, RollAt, Getvch, CastToBool, CastToBigNum;
    ReachTwice(E, st, 3);
    if |st.stack| >= 4 { TwoFrom(st.stack, |st.stack| - 4); }
  }

  lemma TwoRotSpelled(E: Env, st: State)
    ensures Exec(E, Arrange(TwoRot), st) == Spelled(E, TwoRot, Ok(st))
  {
    hide PickAt, RollAt, Getvch, CastToBool, CastToBigNum;
    ReachTwice(E, st, 5);
    if |st.stack| >= 6 { TwoFrom(st.stack, |st.stack| - 6); }
  }

  lemma TwoSwapSpelled(E: Env, st: State)
    ensures Exec(E, Arrange(TwoSwap), st) == Spelled(E, TwoSwap, Ok(st))
  {
    hide PickAt, RollAt, Getvch, CastToBool, CastToBigNum;
    ReachTwice(E, st, 3);
    if |st.stack| >= 4 { TwoFrom(st.stack, |st.stack| - 4); }
  }

  lemma DupSpelled(E: Env, st: State)
    ensures Exec(E, Arrange(Dup), st) == Spelled(E, Dup, Ok(st))
  {
    hide PickAt, RollAt, Getvch, CastToBool, CastToBigNum;
    ReachOn(E, st, 0);
  }

  lemma OverSpelled(E: Env, st: State)
    ensures Exec(E, Arrange(Over), st) == Spelled(E, Over, Ok(st))
  {
    hide PickAt, RollAt, Getvch, CastToBool, CastToBigNum;
    ReachOn(E, st, 1);
  }

  lemma RotSpelled(E: Env, st: State)
    ensures Exec(E, Arrange(Rot), st) == Spelled(E, Rot, Ok(st))
  {
    hide PickAt, RollAt, Getvch, CastToBool, CastToBigNum;
    ReachOn(E, st, 2);
    if |st.stack| >= 3 { Rotated(st.stack); }
  }

  lemma SwapSpelled(E: Env, st: State)
    ensures Exec(E, Arrange(Swap), st) == Spelled(E, Swap, Ok(st))
  {
    hide PickAt, RollAt, Getvch, CastToBool, CastToBigNum;
    ReachOn(E, st, 1);
    if |st.stack| >= 2 { SwappedTop(st.stack); }
  }

  lemma LastThree<T>(s: seq<T>)
    requires |s| >= 3
    ensures var n := |s|; var t := s + [s[n-3], s[n-2]];
      |t| == n + 2 && t[n-1] == s[n-1] && t + [s[n-1]] == s + s[n-3..]
  {
  }

  lemma SwappedTop<T>(s: seq<T>)
    requires |s| >= 2
    ensures var n := |s|; var t := s[..n-2] + s[n-1..] + [s[n-2]];
      && |t| == n && t[n-2] == s[n-1] && t[n-1] == s[n-2]
      && t[..n-1] == s[..n-2] + [s[n-1]] && t == s[..n-2] + [s[n-1], s[n-2]]
      && t + [s[n-1]] == s[..n-2] + [s[n-1], s[n-2], s[n-1]]
  {
  }

  lemma ThreeAndTuck(E: Env, st: State)
    ensures var s, n := st.stack, |st.stack|;
      && Exec(E, Arrange(ThreeDup), st) == (if n < 3 then Fail else Ok(st.(stack := s + s[n-3..])))
      && Exec(E, Arrange(Tuck), st) == (if n < 2 then Fail else Ok(st.(stack := s[..n-2] + [s[n-1], s[n-2], s[n-1]])))
  {
    hide Getvch, CastToBool, CastToBigNum;
  }

  lemma ThreeSpelled(E: Env, st: State)
    ensures Exec(E, Arrange(ThreeDup), st) == Spelled(E, ThreeDup, Ok(st))
  {
    hide PickAt, RollAt, Exec;
    var s, n := st.stack, |st.stack|;
    ThreeAndTuck(E, st);
    ReachTwice(E, st, 2);
    NothingAfterFail(E, 2);
    if n >= 3 {
      LastThree(s);
      ReachOn(E, st.(stack := s + [s[n-3], s[n-2]]), 2);
    }
  }

  lemma NipSpelled(E: Env, st: State)
    ensures Exec(E, Arrange(Nip), st) == Spelled(E, Nip, Ok(st))
  {
    hide PickAt, RollAt, Getvch, CastToBool, CastToBigNum;
    ReachOn(E, st, 1);
    if |st.stack| >= 2 { SwappedTop(st.stack); }
  }

  lemma TuckSpelled(E: Env, st: State)
    ensures Exec(E, Arrange(Tuck), st) == Spelled(E, Tuck, Ok(st))
  {
    hide PickAt, RollAt, Exec;
    var s, n := st.stack, |st.stack|;
    ThreeAndTuck(E, st);
    ReachOn(E, st, 1);
    NothingAfterFail(E, 1);
    if n >= 2 {
      SwappedTop(s);
      ReachOn(E, st.(stack := s[..n-2] + s[n-1..] + [s[n-2]]), 1);
    }
  }

  /** Each moves and copies exactly what its spelling does, and fails when that fails. */
  lemma SpelledOut(E: Env, c: StackCode, st: State)
    requires c !in {IfDup, Depth, Size, Pick, Roll, Drop}
    ensures Exec(E, Arrange(c), st) == Spelled(E, c, Ok(st))
  {
    hide Exec, Spelled;
    match c
    case TwoDrop => TwoDropSpelled(E, st);
    case TwoDup => TwoDupSpelled(E, st);
    case ThreeDup => ThreeSpelled(E, st);
    case TwoOver => TwoOverSpelled(E, st);
    case TwoRot => TwoRotSpelled(E, st);
    case TwoSwap => TwoSwapSpelled(E, st);
    case Dup => DupSpelled(E, st);
    case Nip => NipSpelled(E, st);
    case Over => OverSpelled(E, st);
    case Rot => RotSpelled(E, st);
    case Swap => SwapSpelled(E, st);
    case Tuck => TuckSpelled(E, st);
    case _ =>
  }

  /** Three ROT put everything back. */
  lemma ThreeRots(E: Env, st: State)
    requires |st.stack| >= 3
    ensures Next(E, Next(E, Exec(E, Arrange(Rot), st), Arrange(Rot)), Arrange(Rot)) == Ok(st)
  {
    hide Getvch, CastToBool, CastToBigNum;
    var s, n := st.stack, |st.stack|;
    var (low, a, b, c) := (s[..n-3], s[n-3], s[n-2], s[n-1]);
    RotOn(E, st, low, a, b, c);
    RotOn(E, st.(stack := low + [b, c, a]), low, b, c, a);
    RotOn(E, st.(stack := low + [c, a, b]), low, c, a, b);
  }

  lemma RotOn(E: Env, st: State, low: seq<valtype>, a: valtype, b: valtype, c: valtype)
    requires st.stack == low + [a, b, c]
    ensures Exec(E, Arrange(Rot), st) == Ok(st.(stack := low + [b, c, a]))
  {
    hide Getvch, CastToBool, CastToBigNum;
    assert st.stack[..|st.stack|-3] == low;
  }

  // ----- arithmetic ----------------------------------------------------------------------------------------

  lemma BinaryOn(E: Env, st: State, low: seq<valtype>, a: valtype, b: valtype, op: BinaryCode)
    requires st.stack == low + [a, b]
    ensures Exec(E, Binary(op), st) ==
      if CastToBigNum(a).Int? && CastToBigNum(b).Int? then Ok(st.(stack := low + [Getvch(RunBinary(op, CastToBigNum(a).value, CastToBigNum(b).value))])) else Fail
  {
    hide Getvch, CastToBigNum, RunBinary;
    var s := st.stack;
    assert s[|s|-2..] == [a, b] && s[..|s|-2] == low;
    assert AllNumbers([a, b]) <==> CastToBigNum(a).Int? && CastToBigNum(b).Int? by {
      if AllNumbers([a, b]) { assert CastToBigNum([a, b][0]).Int? && CastToBigNum([a, b][1]).Int?; }
    }
  }

  lemma UnaryOn(E: Env, st: State, low: seq<valtype>, a: valtype, op: UnaryCode)
    requires st.stack == low + [a]
    ensures Exec(E, Unary(op), st) ==
      if CastToBigNum(a).Int? then Ok(st.(stack := low + [Getvch(RunUnary(op, CastToBigNum(a).value))])) else Fail
  {
    hide Getvch, CastToBigNum, RunUnary;
    var s := st.stack;
    assert s[|s|-1..] == [a] && s[..|s|-1] == low;
    assert AllNumbers([a]) <==> CastToBigNum(a).Int? by {
      if AllNumbers([a]) { assert CastToBigNum([a][0]).Int?; }
    }
  }

  lemma SwapOn(E: Env, st: State, low: seq<valtype>, a: valtype, b: valtype)
    requires st.stack == low + [a, b]
    ensures Exec(E, Arrange(Swap), st) == Ok(st.(stack := low + [b, a]))
  {
    hide Getvch, CastToBigNum, CastToBool;
    assert st.stack[..|st.stack|-2] == low;
  }

  /** LESSTHAN is GREATERTHAN the other way round, and the other comparisons negate one another. */
  lemma Comparisons(E: Env, st: State, low: seq<valtype>, a: valtype, b: valtype)
    requires st.stack == low + [a, b]
    ensures Exec(E, Binary(LessThan), st) == Next(E, Exec(E, Arrange(Swap), st), Binary(GreaterThan))
    ensures Exec(E, Binary(LessThanOrEqual), st) == Next(E, Exec(E, Binary(GreaterThan), st), Unary(Not))
    ensures Exec(E, Binary(GreaterThanOrEqual), st) == Next(E, Exec(E, Binary(LessThan), st), Unary(Not))
    ensures Exec(E, Binary(NumNotEqual), st) == Next(E, Exec(E, Binary(NumEqual), st), Unary(Not))
  {
    hide Getvch, CastToBigNum, Exec;
    SwapOn(E, st, low, a, b);
    BinaryOn(E, st.(stack := low + [b, a]), low, b, a, GreaterThan);
    BinaryOn(E, st, low, a, b, LessThan);
    BinaryOn(E, st, low, a, b, GreaterThan);
    BinaryOn(E, st, low, a, b, NumEqual);
    BinaryOn(E, st, low, a, b, LessThanOrEqual);
    BinaryOn(E, st, low, a, b, GreaterThanOrEqual);
    BinaryOn(E, st, low, a, b, NumNotEqual);
    NotOn(E, st, low, false);
    NotOn(E, st, low, true);
  }

  lemma NotOn(E: Env, st: State, low: seq<valtype>, f: bool)
    ensures Exec(E, Unary(Not), st.(stack := low + [Getvch(FromBool(f))])) == Ok(st.(stack := low + [Getvch(FromBool(!f))]))
  {
    hide Getvch, CastToBigNum, Exec;
    NumberBack(FromBool(f));
    UnaryOn(E, st.(stack := low + [Getvch(FromBool(f))]), low, Getvch(FromBool(f)), Not);
  }

  lemma NumberedBool(f: bool)
    ensures CastToBigNum(Getvch(FromBool(f))) == Int(FromBool(f))
  {
    NumberBack(FromBool(f));
  }

  /** 0NOTEQUAL is NOT twice; the other unary operations are the binary ones with a constant. */
  lemma UnarySpelled(E: Env, st: State, low: seq<valtype>, a: valtype)
    requires st.stack == low + [a]
    ensures Exec(E, Unary(ZeroNotEqual), st) == Next(E, Exec(E, Unary(Not), st), Unary(Not))
    ensures Exec(E, Unary(OneAdd), st) == Next(E, Number(Ok(st), 1), Binary(Add))
    ensures Exec(E, Unary(OneSub), st) == Next(E, Number(Ok(st), 1), Binary(Sub))
    ensures Exec(E, Unary(Negate), st) == Next(E, Next(E, Number(Ok(st), 0), Arrange(Swap)), Binary(Sub))
    ensures Exec(E, Unary(AbsOf), st) == Next(E, Next(E, Exec(E, Arrange(Dup), st), Unary(Negate)), Binary(MaxOf))
  {
    hide Getvch, CastToBigNum, Exec;
    var (zero, one) := (Getvch(0), Getvch(1));
    NumberBack(0);
    NumberBack(1);
    UnaryOn(E, st, low, a, ZeroNotEqual);
    UnaryOn(E, st, low, a, OneAdd);
    UnaryOn(E, st, low, a, OneSub);
    UnaryOn(E, st, low, a, Negate);
    UnaryOn(E, st, low, a, AbsOf);
    UnaryOn(E, st, low, a, Not);
    NotOn(E, st, low, true);
    NotOn(E, st, low, false);
    assert low + [a] + [one] == low + [a, one] && low + [a] + [zero] == low + [a, zero];
    BinaryOn(E, st.(stack := low + [a, one]), low, a, one, Add);
    BinaryOn(E, st.(stack := low + [a, one]), low, a, one, Sub);
    SwapOn(E, st.(stack := low + [a, zero]), low, a, zero);
    BinaryOn(E, st.(stack := low + [zero, a]), low, zero, a, Sub);
    DupOn(E, st, low, a);
    if CastToBigNum(a).Int? { DupNegate(E, st, low, a); } else { UnaryOn(E, st.(stack := low + [a, a]), low + [a], a, Negate); assert low + [a] + [a] == low + [a, a]; }
  }

  lemma DupOn(E: Env, st: State, low: seq<valtype>, a: valtype)
    requires st.stack == low + [a]
    ensures Exec(E, Arrange(Dup), st) == Ok(st.(stack := low + [a, a]))
  {
    hide Getvch, CastToBigNum, CastToBool;
    assert low + [a] + [a] == low + [a, a];
  }

  /** The negative of a number is one too. */
  lemma DupNegate(E: Env, st: State, low: seq<valtype>, a: valtype)
    requires CastToBigNum(a).Int?
    ensures Next(E, Exec(E, Unary(Negate), st.(stack := low + [a, a])), Binary(MaxOf)) ==
      Ok(st.(stack := low + [Getvch(Abs(CastToBigNum(a).value))]))
  {
    hide Getvch, CastToBigNum, Exec;
    var x := CastToBigNum(a).value;
    Shortened(a);
    NumberBack(-x);
    assert low + [a] + [a] == low + [a, a] && low + [a] + [Getvch(-x)] == low + [a, Getvch(-x)];
    UnaryOn(E, st.(stack := low + [a, a]), low + [a], a, Negate);
    BinaryOn(E, st.(stack := low + [a, Getvch(-x)]), low, a, Getvch(-x), MaxOf);
  }

  /** A script number is below 2^31 in magnitude: its top bit is the sign. */
  lemma Shortened(a: valtype)
    requires CastToBigNum(a).Int?
    ensures Abs(CastToBigNum(a).value) < 0x8000_0000
  {
    hide FromMagnitude, Pow256;
    if a != [] {
      var m: seq<byte> := a[..|a|-1] + [a[|a|-1] % 0x80];
      TopDigit(m);
      PowValues();
      if |a| < 4 { FromMagnitudeBound(m); Pow256Grows(|a|, 3); }
    }
  }

  lemma OverOn(E: Env, st: State, low: seq<valtype>, a: valtype, b: valtype)
    requires st.stack == low + [a, b]
    ensures Exec(E, Arrange(Tuck), st) == Ok(st.(stack := low + [b, a, b]))
    ensures Exec(E, Arrange(TwoDup), st) == Ok(st.(stack := low + [a, b, a, b]))
  {
    hide Getvch, CastToBigNum, CastToBool;
    assert st.stack[..|st.stack|-2] == low && st.stack[|st.stack|-2..] == [a, b];
    assert low + [a, b] + [a, b] == low + [a, b, a, b];
  }

  /** Subtracting a number and adding it again gives the first number back, if the difference is a
      number; addition does not care for the order. */
  lemma SubThenAdd(E: Env, st: State, low: seq<valtype>, a: valtype, b: valtype)
    requires st.stack == low + [a, b] && CastToBigNum(a).Int? && CastToBigNum(b).Int?
    ensures Abs(CastToBigNum(a).value - CastToBigNum(b).value) < 0x8000_0000 ==>
      Next(E, Next(E, Exec(E, Arrange(Tuck), st), Binary(Sub)), Binary(Add)) == Ok(st.(stack := low + [Getvch(CastToBigNum(a).value)]))
    ensures Exec(E, Binary(Add), st) == Next(E, Exec(E, Arrange(Swap), st), Binary(Add))
  {
    hide Getvch, CastToBigNum, Exec;
    var (x, y) := (CastToBigNum(a).value, CastToBigNum(b).value);
    NumberBack(x - y);
    OverOn(E, st, low, a, b);
    assert low + [b] + [a, b] == low + [b, a, b] && low + [b] + [Getvch(x - y)] == low + [b, Getvch(x - y)];
    BinaryOn(E, st.(stack := low + [b, a, b]), low + [b], a, b, Sub);
    BinaryOn(E, st.(stack := low + [b, Getvch(x - y)]), low, b, Getvch(x - y), Add);
    SwapOn(E, st, low, a, b);
    BinaryOn(E, st, low, a, b, Add);
    BinaryOn(E, st.(stack := low + [b, a]), low, b, a, Add);
  }

  /** BOOLAND and BOOLOR: one is the other with everything negated. */
  lemma DeMorgan(E: Env, st: State, low: seq<valtype>, a: valtype, b: valtype)
    requires st.stack == low + [a, b]
    ensures Exec(E, Binary(BoolOr), st) ==
      Next(E, Next(E, Next(E, Next(E, Exec(E, Unary(Not), st), Arrange(Swap)), Unary(Not)), Binary(BoolAnd)), Unary(Not))
  {
    hide Getvch, CastToBigNum, Exec;
    BinaryOn(E, st, low, a, b, BoolOr);
    assert low + [a] + [b] == low + [a, b];
    UnaryOn(E, st, low + [a], b, Not);
    if CastToBigNum(b).Int? {
      var nb := Getvch(FromBool(CastToBigNum(b).value == 0));
      assert low + [a] + [nb] == low + [a, nb] && low + [nb] + [a] == low + [nb, a];
      SwapOn(E, st.(stack := low + [a, nb]), low, a, nb);
      UnaryOn(E, st.(stack := low + [nb, a]), low + [nb], a, Not);
      if CastToBigNum(a).Int? {
        var na := Getvch(FromBool(CastToBigNum(a).value == 0));
        assert low + [nb] + [na] == low + [nb, na];
        NumberedBool(CastToBigNum(a).value == 0);
        NumberedBool(CastToBigNum(b).value == 0);
        BinaryOn(E, st.(stack := low + [nb, na]), low, nb, na, BoolAnd);
        NotOn(E, st, low, CastToBigNum(a).value == 0 && CastToBigNum(b).value == 0);
      }
    }
  }

  /** MIN and MAX share out the two numbers: one of them each, and MAX is never the smaller. */
  lemma MinAndMax(E: Env, st: State, low: seq<valtype>, a: valtype, b: valtype)
    requires st.stack == low + [a, b] && CastToBigNum(a).Int? && CastToBigNum(b).Int?
    ensures var x, y := CastToBigNum(a).value, CastToBigNum(b).value;
      exists lo: int, hi: int {:trigger Getvch(lo), Getvch(hi)} :: lo <= hi && multiset{lo, hi} == multiset{x, y}
        && Exec(E, Binary(MinOf), st) == Ok(st.(stack := low + [Getvch(lo)]))
        && Exec(E, Binary(MaxOf), st) == Ok(st.(stack := low + [Getvch(hi)]))
  {
    hide Getvch, CastToBigNum, Exec;
    var x, y := CastToBigNum(a).value, CastToBigNum(b).value;
    BinaryOn(E, st, low, a, b, MinOf);
    BinaryOn(E, st, low, a, b, MaxOf);
    var (lo, hi) := if x < y then (x, y) else (y, x);
    assert Getvch(lo) == Getvch(RunBinary(MinOf, x, y)) && Getvch(hi) == Getvch(RunBinary(MaxOf, x, y));
  }

  /** WITHIN, with its bounds put into the two comparisons it stands for. */
  lemma WithinSpelled(E: Env, st: State, low: seq<valtype>, x: valtype, lo: valtype, hi: valtype)
    requires st.stack == low + [x, lo, hi]
    requires CastToBigNum(x).Int? && CastToBigNum(lo).Int? && CastToBigNum(hi).Int?
    ensures var (below, notUnder) := (Exec(E, Binary(LessThan), st.(stack := low + [x, hi])), Exec(E, Binary(LessThanOrEqual), st.(stack := low + [lo, x])));
      && below.Ok? && notUnder.Ok? && below.st.stack != [] && notUnder.st.stack != []
      && Exec(E, ScriptOps.Within, st) ==
           Exec(E, Binary(BoolAnd), st.(stack := low + [Top(below.st.stack), Top(notUnder.st.stack)]))
  {
    hide Getvch, CastToBigNum, Exec;
    var (vx, vlo, vhi) := (CastToBigNum(x).value, CastToBigNum(lo).value, CastToBigNum(hi).value);
    BinaryOn(E, st.(stack := low + [x, hi]), low, x, hi, LessThan);
    BinaryOn(E, st.(stack := low + [lo, x]), low, lo, x, LessThanOrEqual);
    var (f, g) := (vx < vhi, vlo <= vx);
    NumberedBool(f);
    NumberedBool(g);
    BinaryOn(E, st.(stack := low + [Getvch(FromBool(f)), Getvch(FromBool(g))]), low, Getvch(FromBool(f)), Getvch(FromBool(g)), BoolAnd);
    WithinOn(E, st, low, x, lo, hi);
    Truths();
  }

  lemma Truths()
    ensures Getvch(1) == vchTrue && Getvch(0) == vchFalse && CastToBool(vchTrue) && !CastToBool(vchFalse)
  {
    OneByte(1);
    TrueIsNonzero(vchTrue);
    VchRoundTrip(1);
  }

  lemma WithinOn(E: Env, st: State, low: seq<valtype>, x: valtype, lo: valtype, hi: valtype)
    requires st.stack == low + [x, lo, hi]
    requires CastToBigNum(x).Int? && CastToBigNum(lo).Int? && CastToBigNum(hi).Int?
    ensures Exec(E, ScriptOps.Within, st) ==
      Ok(st.(stack := low + [if CastToBigNum(lo).value <= CastToBigNum(x).value < CastToBigNum(hi).value then vchTrue else vchFalse]))
  {
    hide Getvch, CastToBigNum;
    var s := st.stack;
    assert s[|s|-3..] == [x, lo, hi] && s[..|s|-3] == low;
    assert AllNumbers([x, lo, hi]);
  }

  // ----- the other stack operations --------------------------------------------------------------------------

  lemma DepthIs(E: Env, st: State)
    ensures Exec(E, Arrange(Depth), st) == Ok(st.(stack := st.stack + [Getvch(|st.stack|)]))
  {
    hide Getvch, CastToBigNum, CastToBool;
  }

  lemma NothingBelow<T>(v: T, above: seq<T>)
    ensures [] + above + [v] == above + [v] && [] + [v] + above == [v] + above
  {
  }

  /** DEPTH is the number of elements: one less of it rolls the bottom element up. */
  lemma DepthReaches(E: Env, st: State, v: valtype, above: seq<valtype>)
    requires st.stack == [v] + above && |above| < 0x7fff_ffff
    ensures Next(E, Next(E, Exec(E, Arrange(Depth), st), Unary(OneSub)), Arrange(Roll)) == Ok(st.(stack := above + [v]))
  {
    hide Getvch, CastToBigNum, Exec;
    var n := |st.stack|;
    NumberBack(n);
    DepthIs(E, st);
    UnaryOn(E, st.(stack := st.stack + [Getvch(n)]), st.stack, Getvch(n), OneSub);
    NothingBelow(v, above);
    Reaches(E, st, [], v, above);
  }

  /** SIZE leaves the element, and the number of its bytes. */
  lemma SizeCounts(E: Env, st: State, low: seq<valtype>, v: valtype)
    requires st.stack == low + [v] && |v| < 0x8000_0000
    ensures var r := Exec(E, Arrange(Size), st);
      r.Ok? && |r.st.stack| == |st.stack| + 1 && r.st.stack[..|st.stack|] == st.stack && CastToBigNum(Top(r.st.stack)) == Int(|v|)
  {
    hide Getvch, CastToBigNum, CastToBool;
    NumberBack(|v|);
  }

  /** IFDUP is DUP on what is not zero, and nothing on zero. */
  lemma IfDupOn(E: Env, st: State)
    requires st.stack != []
    ensures Exec(E, Arrange(IfDup), st) == if Setvch(Top(st.stack)) != 0 then Exec(E, Arrange(Dup), st) else Ok(st)
  {
    hide Getvch, CastToBigNum, CastToBool, Setvch;
    TrueIsNonzero(Top(st.stack));
  }

  /** EQUAL answers whether the two top elements are the same bytes. */
  lemma EqualOn(E: Env, st: State, low: seq<valtype>, a: valtype, b: valtype)
    requires st.stack == low + [a, b]
    ensures Exec(E, Equal(false), st) == Ok(st.(stack := low + [if a == b then vchTrue else vchFalse]))
  {
    hide Getvch, CastToBigNum, CastToBool;
    assert st.stack[..|st.stack|-2] == low;
  }

  /** What goes to the other stack comes back from it. */
  lemma AltBack(E: Env, st: State)
    requires st.stack != []
    ensures Next(E, Exec(E, ToAltStack, st), FromAltStack) == Ok(st)
  {
    hide Getvch, CastToBigNum, CastToBool;
    var r := Exec(E, ToAltStack, st).st;
    assert r.altstack[..|st.altstack|] == st.altstack && Top(r.altstack) == Top(st.stack);
    assert st.stack[..|st.stack|-1] + [Top(st.stack)] == st.stack;
  }

  /** VERIFY takes what is not zero off the stack, and the VERIFY forms are the plain ones followed by it. */
  lemma VerifyForms(E: Env, st: State)
    ensures Exec(E, Verify, st) ==
      if st.stack == [] || Setvch(Top(st.stack)) == 0 then Fail else Exec(E, Arrange(Drop), st)
    ensures Exec(E, Equal(true), st) == Next(E, Exec(E, Equal(false), st), Verify)
    ensures Exec(E, NumEqualVerify, st) == Next(E, Exec(E, Binary(NumEqual), st), Verify)
    ensures Exec(E, CheckSig(true), st) == Next(E, Exec(E, CheckSig(false), st), Verify)
    ensures Exec(E, CheckMultiSig(true), st) == Next(E, Exec(E, CheckMultiSig(false), st), Verify)
  {
    NumEqualVerifies(E, st);
    if st.stack != [] { TrueIsNonzero(Top(st.stack)); }
    EqualVerifies(E, st);
    CheckSigVerifies(E, st);
    CheckMultiSigVerifies(E, st);
    hide Getvch, CastToBigNum, CastToBool, Setvch, RunCheckSig, RunCheckMultiSig, Next;
  }

  lemma Answered(E: Env, st: State, low: seq<valtype>, f: bool)
    ensures OnStack(st, Answer(low, f, true)) == Next(E, OnStack(st, Answer(low, f, false)), Verify)
  {
    hide Getvch, CastToBigNum, CastToBool;
    Truths();
    var t := low + [if f then vchTrue else vchFalse];
    assert t[..|t|-1] == low;
  }

  lemma NumEqualVerifies(E: Env, st: State)
    ensures Exec(E, NumEqualVerify, st) == Next(E, Exec(E, Binary(NumEqual), st), Verify)
  {
    hide Getvch, CastToBigNum, CastToBool, Exec;
    var s, n := st.stack, |st.stack|;
    if n >= 2 {
      assert s == s[..n-2] + [s[n-2], s[n-1]];
      BinaryOn(E, st, s[..n-2], s[n-2], s[n-1], NumEqual);
      NumEqualVerifyOn(E, st, s[..n-2], s[n-2], s[n-1]);
      VerifyOn(E, st, s[..n-2], false);
      VerifyOn(E, st, s[..n-2], true);
    } else {
      TooShort(E, st);
    }
  }

  lemma TooShort(E: Env, st: State)
    requires |st.stack| < 2
    ensures Exec(E, NumEqualVerify, st) == Fail && Exec(E, Binary(NumEqual), st) == Fail
  {
    hide Getvch, CastToBigNum, CastToBool;
  }

  lemma NumEqualVerifyOn(E: Env, st: State, low: seq<valtype>, a: valtype, b: valtype)
    requires st.stack == low + [a, b]
    ensures Exec(E, NumEqualVerify, st) ==
      if CastToBigNum(a).Int? && CastToBigNum(b).Int? && CastToBigNum(a).value == CastToBigNum(b).value then Ok(st.(stack := low)) else Fail
  {
    hide Getvch, CastToBigNum, CastToBool;
    var s := st.stack;
    assert s[|s|-2..] == [a, b] && s[..|s|-2] == low;
    assert AllNumbers([a, b]) <==> CastToBigNum(a).Int? && CastToBigNum(b).Int? by {
      if AllNumbers([a, b]) { assert CastToBigNum([a, b][0]).Int? && CastToBigNum([a, b][1]).Int?; }
    }
  }

  lemma VerifyOn(E: Env, st: State, low: seq<valtype>, f: bool)
    ensures Exec(E, Verify, st.(stack := low + [Getvch(FromBool(f))])) == if f then Ok(st.(stack := low)) else Fail
  {
    hide Getvch, CastToBigNum, CastToBool;
    Truths();
    var s := low + [Getvch(FromBool(f))];
    assert s[..|s|-1] == low && Top(s) == Getvch(FromBool(f));
  }

  lemma EqualVerifies(E: Env, st: State)
    ensures Exec(E, Equal(true), st) == Next(E, Exec(E, Equal(false), st), Verify)
  {
    hide Getvch, CastToBigNum, CastToBool;
    var s := st.stack;
    if |s| >= 2 { Answered(E, st, s[..|s|-2], s[|s|-2] == s[|s|-1]); }
  }

  lemma CheckSigVerifies(E: Env, st: State)
    ensures Exec(E, CheckSig(true), st) == Next(E, Exec(E, CheckSig(false), st), Verify)
  {
    hide Getvch, CastToBigNum, CastToBool, Answer;
    var s := st.stack;
    if |s| >= 2 && st.begin <= |E.script| {
      Answered(E, st, s[..|s|-2], E.S.checkSig(s[|s|-2], s[|s|-1], E.S.findAndDelete(E.bytes(E.script[st.begin..]), s[|s|-2])));
    }
  }

  lemma CheckMultiSigVerifies(E: Env, st: State)
    ensures Exec(E, CheckMultiSig(true), st) == Next(E, Exec(E, CheckMultiSig(false), st), Verify)
  {
    hide Getvch, CastToBigNum, CastToBool, Greedy, Stripped;
    Truths();
    var (plain, verify) := (RunCheckMultiSig(E, st, false), RunCheckMultiSig(E, st, true));
    if plain.Ok? {
      var t := plain.st.stack;
      assert t == t[..|t|-1] + [Top(t)];
    }
  }

  // ----- signatures --------------------------------------------------------------------------------------------

  /** CHECKSIG is CHECKMULTISIG with one signature and one key. */
  lemma OneOfOne(E: Env, st: State, low: seq<valtype>, dummy: valtype, vchSig: valtype, vchPubKey: valtype, fVerify: bool)
    requires st.begin <= |E.script| && st.nOpCount + 1 <= MAX_OP_COUNT
    ensures var one := Getvch(1);
      var single := Exec(E, CheckSig(fVerify), st.(stack := low + [vchSig, vchPubKey]));
      var multi := Exec(E, CheckMultiSig(fVerify), st.(stack := low + [dummy, vchSig, one, vchPubKey, one]));
      if single.Ok? then multi == Ok(single.st.(nOpCount := st.nOpCount + 1)) else multi == Fail
    ensures Exec(E, CheckSig(false), st.(stack := low + [vchSig, vchPubKey])) == Ok(st.(stack :=
      low + [if Matches(E.S, E.S.findAndDelete(E.bytes(E.script[st.begin..]), vchSig), [vchSig], [vchPubKey]) then vchTrue else vchFalse]))
  {
    hide Getvch, CastToBigNum, Greedy, Stripped, Matches;
    NumberBack(1);
    SplitOne(low, dummy, vchSig, vchPubKey, Getvch(1));
    OneGreedy(E.S, E.bytes(E.script[st.begin..]), vchSig, vchPubKey);
  }

  lemma SplitOne(low: seq<valtype>, dummy: valtype, vchSig: valtype, vchPubKey: valtype, one: valtype)
    ensures var (s, t) := (low + [vchSig, vchPubKey], low + [dummy, vchSig, one, vchPubKey, one]);
      && s[..|s|-2] == low && t[..|t|-5] == low && Sigs(t, 1, 1) == [vchSig] && Keys(t, 1) == [vchPubKey]
  {
  }

  /** CHECKMULTISIG fails on a stack that is not laid out for it, or when its keys exceed the limit. */
  lemma OnlyLaidOut(E: Env, st: State, fVerify: bool) returns (n: nat, m: nat)
    requires Exec(E, CheckMultiSig(fVerify), st).Ok?
    ensures Laid(st.stack, n, m) && st.nOpCount + n <= 201
  {
    hide CastToBigNum, Greedy, Stripped;
    var s := st.stack;
    n := CastToBigNum(Top(s)).value;
    m := CastToBigNum(s[|s|-2-n]).value;
  }

  lemma OneGreedy(S: Signing, code: valtype, vchSig: valtype, vchPubKey: valtype)
    ensures var stripped := S.findAndDelete(code, vchSig);
      && Stripped(S, code, [vchSig]) == stripped
      && Greedy(S, stripped, [vchSig], [vchPubKey]) == S.checkSig(vchSig, vchPubKey, stripped)
      && (Matches(S, stripped, [vchSig], [vchPubKey]) <==> S.checkSig(vchSig, vchPubKey, stripped))
  {
    var stripped := S.findAndDelete(code, vchSig);
    assert [vchSig][..0] == [] && [vchPubKey][..0] == [];
    GreedyIsMatch(S, stripped, [vchSig], [vchPubKey]);
  }

  /** The script of an ordinary output. */
  function PayToKeyHash(h: valtype): seq<Op> {
    [Do(Arrange(Dup)), Do(Hash(Hash160)), Push(h), Do(Equal(true)), Do(CheckSig(false))]
  }

  /** One instruction that goes well and leaves the stack within its limit. */
  lemma Goes(E: Env, op: Op, rest: seq<Op>, st: State, st': State)
    requires IsPlain(op) && !op.VerIf? && Enter(op, st).Ok? && Act(E, op, Enter(op, st).st) == Ok(st')
    requires |st'.stack| + |st'.altstack| <= MAX_STACK_SIZE
    ensures Run(E, [op] + rest, st, []) == Run(E, rest, st', [])
  {
    hide Act, Enter, Run, Exec;
    RunCons(E, op, rest, st, []);
  }

  lemma Stops(E: Env, op: Op, rest: seq<Op>, st: State)
    requires IsPlain(op) && Enter(op, st).Ok? && Act(E, op, Enter(op, st).st) == Fail
    ensures Run(E, [op] + rest, st, []) == Stop
  {
    hide Act, Enter, Run, Exec;
    RunCons(E, op, rest, st, []);
  }

  lemma DupRuns(E: Env, rest: seq<Op>, low: seq<valtype>, a: valtype)
    requires |low| + 2 <= MAX_STACK_SIZE
    ensures Run(E, [Do(Arrange(Dup))] + rest, State(low + [a], [], 0, 0, 0), []) == Run(E, rest, State(low + [a, a], [], 1, 0, 1), [])
  {
    hide Getvch, CastToBigNum, CastToBool, Run;
    DupOn(E, State(low + [a], [], 1, 0, 1), low, a);
    Goes(E, Do(Arrange(Dup)), rest, State(low + [a], [], 0, 0, 0), State(low + [a, a], [], 1, 0, 1));
  }

  lemma HashRuns(E: Env, rest: seq<Op>, low: seq<valtype>, a: valtype)
    requires |low| + 1 <= MAX_STACK_SIZE
    ensures Run(E, [Do(Hash(Hash160))] + rest, State(low + [a], [], 1, 0, 1), []) ==
      Run(E, rest, State(low + [Sized(E.hash(Hash160, a), 20)], [], 2, 0, 2), [])
  {
    hide Getvch, CastToBigNum, CastToBool, Run, Sized;
    var s := low + [a];
    assert s[..|s|-1] == low;
    Goes(E, Do(Hash(Hash160)), rest, State(s, [], 1, 0, 1), State(low + [Sized(E.hash(Hash160, a), 20)], [], 2, 0, 2));
  }

  lemma PushRuns(E: Env, rest: seq<Op>, s: seq<valtype>, v: valtype)
    requires |s| + 1 <= MAX_STACK_SIZE && |v| <= MAX_ELEMENT_SIZE
    ensures Run(E, [Push(v)] + rest, State(s, [], 2, 0, 2), []) == Run(E, rest, State(s + [v], [], 2, 0, 3), [])
  {
    hide Getvch, CastToBigNum, CastToBool, Run;
    Goes(E, Push(v), rest, State(s, [], 2, 0, 2), State(s + [v], [], 2, 0, 3));
  }

  /** DUP HASH160 and the push: the key, its hash and the hash wanted stand on the stack. */
  lemma HashesCompared(E: Env, h: valtype, low: seq<valtype>, vchSig: valtype, vchPubKey: valtype)
    requires E.script == PayToKeyHash(h) && |h| <= MAX_ELEMENT_SIZE && |low| + 4 <= MAX_STACK_SIZE
    ensures var hk := Sized(E.hash(Hash160, vchPubKey), 20);
      Run(E, E.script, State(low + [vchSig, vchPubKey], [], 0, 0, 0), []) ==
      Run(E, [Do(Equal(true))] + [Do(CheckSig(false))], State(low + [vchSig, vchPubKey, hk, h], [], 2, 0, 3), [])
  {
    hide Run, Sized;
    var hk := Sized(E.hash(Hash160, vchPubKey), 20);
    var end: seq<Op> := [Do(Equal(true))] + [Do(CheckSig(false))];
    assert E.script == [Do(Arrange(Dup))] + ([Do(Hash(Hash160))] + ([Push(h)] + end));
    var (l1, l2) := (low + [vchSig], low + [vchSig, vchPubKey]);
    assert l1 + [vchPubKey] == l2 && l1 + [vchPubKey, vchPubKey] == l2 + [vchPubKey];
    assert l2 + [hk] + [h] == low + [vchSig, vchPubKey, hk, h];
    DupRuns(E, [Do(Hash(Hash160))] + ([Push(h)] + end), l1, vchPubKey);
    HashRuns(E, [Push(h)] + end, l2, vchPubKey);
    PushRuns(E, end, l2 + [hk], h);
  }

  /** EQUALVERIFY and CHECKSIG. */
  lemma SignatureAnswered(E: Env, low: seq<valtype>, vchSig: valtype, vchPubKey: valtype, hk: valtype, h: valtype)
    requires |low| + 4 <= MAX_STACK_SIZE
    ensures var f := E.S.checkSig(vchSig, vchPubKey, E.S.findAndDelete(E.bytes(E.script), vchSig));
      Run(E, [Do(Equal(true))] + [Do(CheckSig(false))], State(low + [vchSig, vchPubKey, hk, h], [], 2, 0, 3), []) ==
      if hk == h then Go(State(low + [if f then vchTrue else vchFalse], [], 4, 0, 5), []) else Stop
  {
    hide Getvch, CastToBigNum, CastToBool, Run;
    var (s0, s3) := (low + [vchSig, vchPubKey], low + [vchSig, vchPubKey, hk, h]);
    assert s3[..|s3|-2] == s0 && s0[..|s0|-2] == low && E.script[0..] == E.script;
    if hk == h {
      Goes(E, Do(Equal(true)), [Do(CheckSig(false))], State(s3, [], 2, 0, 3), State(s0, [], 3, 0, 4));
      var f := E.S.checkSig(vchSig, vchPubKey, E.S.findAndDelete(E.bytes(E.script), vchSig));
      var s4 := low + [if f then vchTrue else vchFalse];
      assert [Do(CheckSig(false))] == [Do(CheckSig(false))] + [];
      Goes(E, Do(CheckSig(false)), [], State(s0, [], 3, 0, 4), State(s4, [], 4, 0, 5));
      Ended(E, State(s4, [], 4, 0, 5));
    } else {
      Stops(E, Do(Equal(true)), [Do(CheckSig(false))], State(s3, [], 2, 0, 3));
    }
  }

  /** An ordinary output, run on a signature and a key: it fails unless the key has the hash of the
      output, and else answers whether the signature is one of that key. */
  lemma PaysToKeyHash(E: Env, h: valtype, low: seq<valtype>, vchSig: valtype, vchPubKey: valtype)
    requires E.script == PayToKeyHash(h) && |h| <= MAX_ELEMENT_SIZE && |low| + 4 <= MAX_STACK_SIZE
    ensures var m := Meaning(E, State(low + [vchSig, vchPubKey], [], 0, 0, 0));
      var f := E.S.checkSig(vchSig, vchPubKey, E.S.findAndDelete(E.bytes(E.script), vchSig));
      && (m.Ok? <==> Sized(E.hash(Hash160, vchPubKey), 20) == h)
      && (m.Ok? ==> m.st.stack == low + [if f then vchTrue else vchFalse])
  {
    hide Run, Meaning, Sized, PayToKeyHash;
    FlatMeans(E, State(low + [vchSig, vchPubKey], [], 0, 0, 0));
    HashesCompared(E, h, low, vchSig, vchPubKey);
    SignatureAnswered(E, low, vchSig, vchPubKey, Sized(E.hash(Hash160, vchPubKey), 20), h);
  }

  lemma Ended(E: Env, st: State)
    ensures Run(E, [], st, []) == Go(st, [])
  {
  }

  // ----- the arm that is taken -----------------------------------------------------------------------------------

  /** A part that is not executed leaves the stacks alone. */
  lemma {:induction false} Skipped(E: Env, t: Items, st: State)
    ensures var r := Eval(E, t, st, false);
      r.Ok? ==> r.st == st.(pc := r.st.pc, nOpCount := r.st.nOpCount)
    decreases t
  {
    hide Act, CastToBool;
    match t
    case Nil =>
    case Plain(op, rest) =>
      var r := EvalPlain(E, op, st, false);
      if r.Ok? { Skipped(E, rest, r.st); }
    case Cond(fNot, arms, rest) =>
      var c := EvalIf(fNot, st, false);
      if c.Choice? {
        SkippedArms(E, arms, c.st, c.v);
        var r := EvalArms(E, arms, c.st, false, c.v);
        if r.Ok? { Skipped(E, rest, r.st); }
      }
  }

  lemma {:induction false} SkippedArms(E: Env, a: Arms, st: State, v: bool)
    ensures var r := EvalArms(E, a, st, false, v);
      r.Ok? ==> r.st == st.(pc := r.st.pc, nOpCount := r.st.nOpCount)
    decreases a
  {
    hide Act, CastToBool;
    Skipped(E, a.body, st);
    var r := Eval(E, a.body, st, false);
    if a.More? && r.Ok? {
      var r2 := Pass(Else, r.st);
      if r2.Ok? { SkippedArms(E, a.others, r2.st, !v); }
    }
  }

  /** `<v> IF a ELSE b ENDIF` does to the stacks what `a` does if v is not zero, and what `b` does if it
      is; with NOTIF the other way round. It succeeds exactly when the arm taken does and the other one
      can be read. */
  lemma ArmTaken(E: Env, v: valtype, fNot: bool, a: Items, b: Items, st: State)
    requires |v| <= MAX_ELEMENT_SIZE && |st.stack| + |st.altstack| < MAX_STACK_SIZE && st.nOpCount < MAX_OP_COUNT
    ensures var whole := Eval(E, Plain(Push(v), Cond(fNot, More(a, Last(b)), Nil)), st, true);
      var inside := st.(pc := st.pc + 2, nOpCount := st.nOpCount + 1);
      if (Setvch(v) != 0) != fNot then
        var ra := Eval(E, a, inside, true);
        && (whole.Ok? ==> ra.Ok? && whole.st == ra.st.(pc := whole.st.pc, nOpCount := whole.st.nOpCount))
        && (whole.Ok? <==> ra.Ok? && Passed(E, b, ra.st))
      else
        var skipped := Eval(E, a, inside, false);
        && (whole.Ok? ==> skipped.Ok? && skipped.st == inside.(pc := skipped.st.pc, nOpCount := skipped.st.nOpCount))
        && (skipped.Ok? && Pass(Else, skipped.st).Ok? ==>
              var rb := Eval(E, b, Pass(Else, skipped.st).st, true);
              && (whole.Ok? <==> rb.Ok? && Pass(EndIf, rb.st).Ok?)
              && (whole.Ok? ==> whole.st == rb.st.(pc := whole.st.pc, nOpCount := whole.st.nOpCount)))
        && (whole.Ok? ==> Pass(Else, skipped.st).Ok?)
  {
    hide Act, Exec, CastToBool, Setvch, Eval, Enter, Leave;
    TrueIsNonzero(v);
    Chosen(E, v, fNot, More(a, Last(b)), st);
    var inside := st.(pc := st.pc + 2, nOpCount := st.nOpCount + 1);
    var taken := (Setvch(v) != 0) != fNot;
    ArmsInTurn(E, a, b, inside, taken);
    if !taken { Skipped(E, a, inside); }
    if taken {
      var ra := Eval(E, a, inside, true);
      if ra.Ok? && Pass(Else, ra.st).Ok? { Skipped(E, b, Pass(Else, ra.st).st); }
    }
    Passes(Else);
    Passes(EndIf);
  }

  lemma Passes(op: Op)
    ensures forall st :: Pass(op, st).Ok? ==> Pass(op, st).st == st.(pc := Pass(op, st).st.pc, nOpCount := Pass(op, st).st.nOpCount)
  {
  }

  /** ELSE, the part `b` unexecuted, and ENDIF can be read. */
  predicate Passed(E: Env, b: Items, st: State) {
    && Pass(Else, st).Ok? && Eval(E, b, Pass(Else, st).st, false).Ok?
    && Pass(EndIf, Eval(E, b, Pass(Else, st).st, false).st).Ok?
  }

  lemma Chosen(E: Env, v: valtype, fNot: bool, arms: Arms, st: State)
    requires |v| <= MAX_ELEMENT_SIZE && |st.stack| + |st.altstack| < MAX_STACK_SIZE && st.nOpCount < MAX_OP_COUNT
    ensures Eval(E, Plain(Push(v), Cond(fNot, arms, Nil)), st, true) ==
      EvalArms(E, arms, st.(pc := st.pc + 2, nOpCount := st.nOpCount + 1), true, CastToBool(v) != fNot)
  {
    hide Enter, Leave, Act, CastToBool, EvalArms, Condition;
    Pushed(E, v, fNot, st);
    var r := EvalArms(E, arms, st.(pc := st.pc + 2, nOpCount := st.nOpCount + 1), true, CastToBool(v) != fNot);
    if r.Ok? { assert Eval(E, Nil, r.st, true) == r; }
    assert Eval(E, Cond(fNot, arms, Nil), st.(stack := st.stack + [v], pc := st.pc + 1), true) == r;
  }

  lemma Pushed(E: Env, v: valtype, fNot: bool, st: State)
    requires |v| <= MAX_ELEMENT_SIZE && |st.stack| + |st.altstack| < MAX_STACK_SIZE && st.nOpCount < MAX_OP_COUNT
    ensures var pushed := st.(stack := st.stack + [v], pc := st.pc + 1);
      && EvalPlain(E, Push(v), st, true) == Ok(pushed)
      && EvalIf(fNot, pushed, true) == Choice(CastToBool(v) != fNot, st.(pc := st.pc + 2, nOpCount := st.nOpCount + 1))
  {
    hide Exec, CastToBool;
    var s := st.stack + [v];
    assert s[..|s|-1] == st.stack && Top(s) == v;
  }

  lemma ArmsInTurn(E: Env, a: Items, b: Items, st: State, v: bool)
    ensures var whole := EvalArms(E, More(a, Last(b)), st, true, v);
      var first := Eval(E, a, st, v);
      if !first.Ok? || !Pass(Else, first.st).Ok? then whole == Fail
      else
        var second := Eval(E, b, Pass(Else, first.st).st, !v);
        whole == if second.Ok? then Pass(EndIf, second.st) else Fail
  {
    hide Eval, Enter, Leave;
    assert (true && v) == v;
  }

  /** The hash operations leave twenty bytes, SHA256 and HASH256 thirty-two, in place of the element hashed. */
  lemma HashesLeft(E: Env, h: HashCode, st: State, low: seq<valtype>, v: valtype)
    requires st.stack == low + [v] && |E.hash(h, v)| == if h == Sha256 || h == Hash256 then 32 else 20
    ensures Exec(E, Hash(h), st) == Ok(st.(stack := low + [E.hash(h, v)]))
  {
    hide Getvch, CastToBigNum, CastToBool;
    assert st.stack[..|st.stack|-1] == low;
    assert Sized(E.hash(h, v), |E.hash(h, v)|) == E.hash(h, v);
  }

  /** After CODESEPARATOR only what follows it is signed. */
  lemma SignsWhatFollows(E: Env, st: State, low: seq<valtype>, vchSig: valtype, vchPubKey: valtype)
    requires st.stack == low + [vchSig, vchPubKey] && st.pc <= |E.script|
    ensures Next(E, Exec(E, CodeSeparator, st), CheckSig(true)).Ok? <==>
      E.S.checkSig(vchSig, vchPubKey, E.S.findAndDelete(E.bytes(E.script[st.pc..]), vchSig))
  {
    hide Getvch, CastToBigNum, CastToBool;
  }
}
