/**
 Multi-signature checking (the CHECKMULTISIG cases of EvalScript) and the merging of partial
 multi-signatures (CombineMultisig), both in src/script.cpp.
 */
module Multisig {

  import opened Numbers

  type valtype = seq<byte>

  /** What the loop is built on: signature checks against a script, and the removal of a signature
      from a script. */
  datatype Signing = Signing(
    checkSig: (valtype, valtype, valtype) -> bool,
    findAndDelete: (valtype, valtype) -> valtype)

  const vchFalse: valtype := []
  const vchTrue: valtype := [1]

  /** The script without the given signatures, the last one deleted first. */
  function Stripped(S: Signing, scriptCode: valtype, sigs: seq<valtype>): valtype
    decreases |sigs|
  {
    if sigs == [] then scriptCode
    else Stripped(S, S.findAndDelete(scriptCode, sigs[|sigs|-1]), sigs[..|sigs|-1])
  }

  /** `at` sends every signature to a key it verifies with, in order and without using a key twice. */
  predicate IsMatch(S: Signing, code: valtype, sigs: seq<valtype>, keys: seq<valtype>, at: seq<nat>) {
    && |at| == |sigs|
    && (forall i :: 0 <= i < |at| ==> at[i] < |keys| && S.checkSig(sigs[i], keys[at[i]], code))
    && (forall i, j :: 0 <= i < j < |at| ==> at[i] < at[j])
  }

  ghost predicate Matches(S: Signing, code: valtype, sigs: seq<valtype>, keys: seq<valtype>) {
    exists at :: IsMatch(S, code, sigs, keys, at)
  }

  lemma NoSigs(S: Signing, code: valtype, keys: seq<valtype>)
    ensures Matches(S, code, [], keys)
  {
    assert IsMatch(S, code, [], keys, []);
  }

  lemma {:induction false} TooFewKeys(S: Signing, code: valtype, sigs: seq<valtype>, keys: seq<valtype>, at: seq<nat>)
    requires IsMatch(S, code, sigs, keys, at)
    ensures |sigs| <= |keys|
    decreases |at|
  {
    if at != [] { PlacesGrow(at, |at| - 1); }
  }

  lemma {:induction false} PlacesGrow(at: seq<nat>, i: nat)
    requires i < |at| && forall j, k :: 0 <= j < k < |at| ==> at[j] < at[k]
    ensures at[i] >= i
  {
    if i > 0 { PlacesGrow(at, i - 1); }
  }

  /** One step of the greedy loop, from the last signature and the last key down: a signature that
      verifies may take the key, a key that does not verify is of no use. */
  lemma GreedyStep(S: Signing, code: valtype, sigs: seq<valtype>, keys: seq<valtype>)
    requires sigs != [] && keys != []
    ensures var s, k := |sigs| - 1, |keys| - 1;
      Matches(S, code, sigs, keys) <==>
        if S.checkSig(sigs[s], keys[k], code) then Matches(S, code, sigs[..s], keys[..k]) else Matches(S, code, sigs, keys[..k])
  {
    var s, k := |sigs| - 1, |keys| - 1;
    if Matches(S, code, sigs, keys) {
      var at :| IsMatch(S, code, sigs, keys, at);
      if S.checkSig(sigs[s], keys[k], code) {
        assert IsMatch(S, code, sigs[..s], keys[..k], at[..s]);
      } else {
        assert IsMatch(S, code, sigs, keys[..k], at);
      }
    }
    if S.checkSig(sigs[s], keys[k], code) && Matches(S, code, sigs[..s], keys[..k]) {
      var at :| IsMatch(S, code, sigs[..s], keys[..k], at);
      assert IsMatch(S, code, sigs, keys, at + [k]);
    }
    if !S.checkSig(sigs[s], keys[k], code) && Matches(S, code, sigs, keys[..k]) {
      var at :| IsMatch(S, code, sigs, keys[..k], at);
      assert IsMatch(S, code, sigs, keys, at);
    }
  }

  /** The greedy answer. */
  predicate Greedy(S: Signing, code: valtype, sigs: seq<valtype>, keys: seq<valtype>)
    decreases |keys|
  {
    if sigs == [] then true
    else if |sigs| > |keys| then false
    else
      var s, k := |sigs| - 1, |keys| - 1;
      Greedy(S, code, if S.checkSig(sigs[s], keys[k], code) then sigs[..s] else sigs, keys[..k])
  }

  /** Being greedy finds a match exactly when there is one. */
  lemma {:induction false} GreedyIsMatch(S: Signing, code: valtype, sigs: seq<valtype>, keys: seq<valtype>)
    ensures Greedy(S, code, sigs, keys) <==> Matches(S, code, sigs, keys)
    decreases |keys|
  {
    hide Matches;
    MatchBounds(S, code, sigs, keys);
    if sigs != [] && |sigs| <= |keys| {
      var s, k := |sigs| - 1, |keys| - 1;
      GreedyStep(S, code, sigs, keys);
      GreedyIsMatch(S, code, if S.checkSig(sigs[s], keys[k], code) then sigs[..s] else sigs, keys[..k]);
    }
  }

  // ----- the operation on the stack -----------------------------------------------------------------------

  /** The stack ends in a dummy, `m` signatures, the number m, `n` keys and the number n. */
  predicate Laid(stack: seq<valtype>, n: nat, m: nat) {
    && m <= n <= 20 && |stack| >= 3 + n + m
    && CastToBigNum(stack[|stack| - 1]) == Int(n) && CastToBigNum(stack[|stack| - 2 - n]) == Int(m)
  }

  function Keys(stack: seq<valtype>, n: nat): seq<valtype>
    requires |stack| >= 1 + n
  {
    stack[|stack| - 1 - n..|stack| - 1]
  }

  function Sigs(stack: seq<valtype>, n: nat, m: nat): seq<valtype>
    requires |stack| >= 2 + n + m
  {
    stack[|stack| - 2 - n - m..|stack| - 2 - n]
  }

  /** Whether the signatures on the stack satisfy the keys on it. */
  ghost predicate Satisfied(S: Signing, stack: seq<valtype>, n: nat, m: nat, code: valtype)
    requires Laid(stack, n, m)
  {
    Matches(S, Stripped(S, code, Sigs(stack, n, m)), Sigs(stack, n, m), Keys(stack, n))
  }

  lemma LaidOnce(stack: seq<valtype>, n: nat, m: nat, n': nat, m': nat)
    requires Laid(stack, n, m) && Laid(stack, n', m')
    ensures n == n' && m == m'
  {
  }

  /** Read the two counts, checking at every step that the stack is deep enough. */
  method ReadCounts(stack: seq<valtype>, nOpCount: nat) returns (ok: bool, nKeysCount: nat, nSigsCount: nat)
    ensures ok ==> Laid(stack, nKeysCount, nSigsCount) && nOpCount + nKeysCount <= 201
    ensures !ok ==> forall n, m :: Laid(stack, n, m) ==> nOpCount + n > 201
  {
    hide CastToBigNum, Pow256;
    ok, nKeysCount, nSigsCount := false, 0, 0;
    var i := 1;
    if |stack| < i { return; }
    var num := CastToBigNum(stack[|stack| - i]);
    if num.NotANumber? { return; }
    if num.value < 0 || num.value > 20 { return; }
    nKeysCount := num.value;
    if nOpCount + nKeysCount > 201 { return; }
    i := i + 1 + nKeysCount;
    if |stack| < i { return; }
    num := CastToBigNum(stack[|stack| - i]);
    if num.NotANumber? { return; }
    if num.value < 0 || num.value > nKeysCount { return; }
    nSigsCount := num.value;
    i := i + 1 + nSigsCount;
    if |stack| < i { return; }
    ok := true;
  }

  /** OP_CHECKMULTISIG and OP_CHECKMULTISIGVERIFY. The stack is given bottom first. */
  method OpCheckMultisig(S: Signing, stack: seq<valtype>, nOpCount: nat, code: valtype, fVerify: bool)
    returns (ok: bool, stack': seq<valtype>, nOpCount': nat, n: nat, m: nat)
    ensures ok <==> Laid(stack, n, m) && nOpCount + n <= 201 && (fVerify ==> Satisfied(S, stack, n, m, code))
    ensures !ok ==> forall n', m' ::
      Laid(stack, n', m') && nOpCount + n' <= 201 ==> fVerify && !Satisfied(S, stack, n', m', code)
    ensures ok ==>
      && nOpCount' == nOpCount + n
      && stack' == stack[..|stack| - 3 - n - m]
        + (if fVerify then [] else if Satisfied(S, stack, n, m, code) then [vchTrue] else [vchFalse])
  {
    hide Matches, Stripped, CastToBigNum, Pow256;
    stack', nOpCount' := stack, nOpCount;
    ok, n, m := ReadCounts(stack, nOpCount);
    if !ok { return; }
    nOpCount' := nOpCount + n;
    var ikey, isig := 2, 3 + n;
    var scriptCode := DropSignatures(S, code, stack, isig, m);
    var fSuccess := TryKeys(S, scriptCode, stack, isig, m, ikey, n);
    stack' := stack[..|stack| - 3 - n - m];
    stack' := stack' + [if fSuccess then vchTrue else vchFalse];
    if fVerify {
      if !fSuccess {
        forall n', m' | Laid(stack, n', m') ensures n' == n && m' == m { LaidOnce(stack, n, m, n', m'); }
        ok := false;
        return;
      }
      stack' := stack'[..|stack'| - 1];
    }
  }

  /** Delete the signatures from the script, from the top of the stack down. */
  method DropSignatures(S: Signing, code: valtype, stack: seq<valtype>, isig: nat, nSigsCount: nat) returns (scriptCode: valtype)
    requires isig >= 1 && isig - 1 + nSigsCount <= |stack|
    ensures scriptCode == Stripped(S, code, stack[|stack| - (isig - 1) - nSigsCount..|stack| - (isig - 1)])
  {
    scriptCode := code;
    ghost var sigs := stack[|stack| - (isig - 1) - nSigsCount..|stack| - (isig - 1)];
    assert sigs[..nSigsCount] == sigs;
    for k := 0 to nSigsCount
      invariant Stripped(S, code, sigs) == Stripped(S, scriptCode, sigs[..nSigsCount - k])
    {
      var vchSig := stack[|stack| - isig - k];
      assert sigs[nSigsCount - k - 1] == vchSig;
      assert sigs[..nSigsCount - k][..nSigsCount - k - 1] == sigs[..nSigsCount - k - 1];
      scriptCode := S.findAndDelete(scriptCode, vchSig);
    }
  }

  /** The greedy loop finds a match exactly when there is one. */
  method TryKeys(S: Signing, scriptCode: valtype, stack: seq<valtype>, isig0: nat, nSigs: nat, ikey0: nat, nKeys: nat)
    returns (fSuccess: bool)
    requires isig0 >= 1 && ikey0 >= 1 && isig0 - 1 + nSigs <= |stack| && ikey0 - 1 + nKeys <= |stack| && nSigs <= nKeys
    ensures fSuccess <==> Matches(S, scriptCode,
      stack[|stack| - (isig0 - 1) - nSigs..|stack| - (isig0 - 1)], stack[|stack| - (ikey0 - 1) - nKeys..|stack| - (ikey0 - 1)])
  {
    hide Matches;
    ghost var sigs := stack[|stack| - (isig0 - 1) - nSigs..|stack| - (isig0 - 1)];
    ghost var keys := stack[|stack| - (ikey0 - 1) - nKeys..|stack| - (ikey0 - 1)];
    var isig, nSigsCount, ikey, nKeysCount := isig0, nSigs, ikey0, nKeys;
    fSuccess := true;
    assert sigs[..nSigs] == sigs && keys[..nKeys] == keys;
    while fSuccess && nSigsCount > 0
      invariant 0 <= nSigsCount <= nSigs && 0 <= nKeysCount <= nKeys
      invariant isig == isig0 + nSigs - nSigsCount && ikey == ikey0 + nKeys - nKeysCount
      invariant fSuccess <==> nSigsCount <= nKeysCount
      invariant Matches(S, scriptCode, sigs, keys) <==> Matches(S, scriptCode, sigs[..nSigsCount], keys[..nKeysCount])
      decreases nKeysCount
    {
      var vchSig := stack[|stack| - isig];
      var vchPubKey := stack[|stack| - ikey];
      GreedyStep(S, scriptCode, sigs[..nSigsCount], keys[..nKeysCount]);
      assert vchSig == sigs[nSigsCount - 1] && vchPubKey == keys[nKeysCount - 1];
      assert sigs[..nSigsCount][..nSigsCount - 1] == sigs[..nSigsCount - 1];
      assert keys[..nKeysCount][..nKeysCount - 1] == keys[..nKeysCount - 1];
      if S.checkSig(vchSig, vchPubKey, scriptCode) {
        isig := isig + 1;
        nSigsCount := nSigsCount - 1;
      }
      ikey := ikey + 1;
      nKeysCount := nKeysCount - 1;
      if nSigsCount > nKeysCount { fSuccess := false; }
    }
    MatchBounds(S, scriptCode, sigs[..nSigsCount], keys[..nKeysCount]);
  }

  lemma MatchBounds(S: Signing, code: valtype, sigs: seq<valtype>, keys: seq<valtype>)
    ensures sigs == [] ==> Matches(S, code, sigs, keys)
    ensures |sigs| > |keys| ==> !Matches(S, code, sigs, keys)
  {
    if sigs == [] { NoSigs(S, code, keys); }
    if Matches(S, code, sigs, keys) {
      var at :| IsMatch(S, code, sigs, keys, at);
      TooFewKeys(S, code, sigs, keys, at);
    }
  }

  // ----- merging partial signatures -----------------------------------------------------------------------

  /** How many of the keys have a signature. */
  function Matched(keys: seq<valtype>, sigs: map<valtype, valtype>): nat {
    if keys == [] then 0 else (if keys[0] in sigs then 1 else 0) + Matched(keys[1..], sigs)
  }

  /** Signatures of the first keys that have one, at most `m`. */
  function Chosen(keys: seq<valtype>, sigs: map<valtype, valtype>, m: nat): (c: seq<valtype>)
    ensures |c| == if Matched(keys, sigs) < m then Matched(keys, sigs) else m
  {
    if keys == [] || m == 0 then []
    else if keys[0] in sigs then [sigs[keys[0]]] + Chosen(keys[1..], sigs, m - 1)
    else Chosen(keys[1..], sigs, m)
  }

  function Repeated(v: valtype, k: nat): seq<valtype> { seq(k, i => v) }

  /** No two different keys are satisfied by one signature. */
  ghost predicate OneKeyPerSig(S: Signing, code: valtype, keys: seq<valtype>) {
    forall sig, j, k :: 0 <= j < |keys| && 0 <= k < |keys| && S.checkSig(sig, keys[j], code) && S.checkSig(sig, keys[k], code) ==>
      keys[j] == keys[k]
  }

  /** The signature stands for a key, or every key it verifies with has one already. */
  ghost predicate Placed(S: Signing, code: valtype, keys: seq<valtype>, sigs: map<valtype, valtype>, sig: valtype) {
    (exists k :: k in sigs && sigs[k] == sig)
    || forall i :: 0 <= i < |keys| && S.checkSig(sig, keys[i], code) ==> keys[i] in sigs
  }

  /** Match every signature to the first key it verifies with that has none yet. */
  method MatchSigs(S: Signing, code: valtype, keys: seq<valtype>, allsigs: set<valtype>) returns (sigs: map<valtype, valtype>)
    ensures forall k :: k in sigs ==> k in keys && sigs[k] in allsigs && S.checkSig(sigs[k], k, code)
    ensures forall sig :: sig in allsigs ==> Placed(S, code, keys, sigs, sig)
    ensures OneKeyPerSig(S, code, keys) ==>
      forall i :: 0 <= i < |keys| ==> (keys[i] in sigs <==> exists sig :: sig in allsigs && S.checkSig(sig, keys[i], code))
  {
    sigs := map[];
    var todo := allsigs;
    while todo != {}
      invariant todo <= allsigs
      invariant forall k :: k in sigs ==> k in keys && sigs[k] in allsigs && S.checkSig(sigs[k], k, code)
      invariant forall sig :: sig in allsigs - todo ==> Placed(S, code, keys, sigs, sig)
      invariant OneKeyPerSig(S, code, keys) ==>
        forall i, sig :: 0 <= i < |keys| && sig in allsigs && sig !in todo && S.checkSig(sig, keys[i], code) ==> keys[i] in sigs
      decreases todo
    {
      var sig :| sig in todo;
      ghost var before := sigs;
      sigs := MatchSig(S, code, keys, sig, sigs);
      forall x | x in allsigs - (todo - {sig}) ensures Placed(S, code, keys, sigs, x) {
        if x != sig { StillPlaced(S, code, keys, before, sigs, x); }
      }
      todo := todo - {sig};
    }
  }

  lemma StillPlaced(S: Signing, code: valtype, keys: seq<valtype>, sigs: map<valtype, valtype>, sigs': map<valtype, valtype>, sig: valtype)
    requires Placed(S, code, keys, sigs, sig) && forall k :: k in sigs ==> k in sigs' && sigs'[k] == sigs[k]
    ensures Placed(S, code, keys, sigs', sig)
  {
  }

  /** The first key without a signature that this one verifies with. */
  predicate FirstFree(S: Signing, code: valtype, keys: seq<valtype>, sigs: map<valtype, valtype>, sig: valtype, i: nat)
    requires i < |keys|
  {
    && keys[i] !in sigs && S.checkSig(sig, keys[i], code)
    && forall j :: 0 <= j < i && S.checkSig(sig, keys[j], code) ==> keys[j] in sigs
  }

  method MatchSig(S: Signing, code: valtype, keys: seq<valtype>, sig: valtype, sigs0: map<valtype, valtype>)
    returns (sigs: map<valtype, valtype>)
    ensures sigs == sigs0 || exists i :: 0 <= i < |keys| && FirstFree(S, code, keys, sigs0, sig, i) && sigs == sigs0[keys[i] := sig]
    ensures Placed(S, code, keys, sigs, sig)
    ensures forall k :: k in sigs0 ==> k in sigs && sigs[k] == sigs0[k]
    ensures OneKeyPerSig(S, code, keys) ==> forall i :: 0 <= i < |keys| && S.checkSig(sig, keys[i], code) ==> keys[i] in sigs
  {
    sigs := sigs0;
    for i := 0 to |keys|
      invariant sigs == sigs0
      invariant forall j :: 0 <= j < i && S.checkSig(sig, keys[j], code) ==> keys[j] in sigs
    {
      var pubkey := keys[i];
      if pubkey !in sigs {
        if S.checkSig(sig, pubkey, code) {
          assert FirstFree(S, code, keys, sigs0, sig, i);
          if OneKeyPerSig(S, code, keys) {
            forall j | 0 <= j < |keys| && S.checkSig(sig, keys[j], code) ensures keys[j] == keys[i] { }
          }
          sigs := sigs[pubkey := sig];
          assert sigs[pubkey] == sig;
          return;
        }
      }
    }
  }

  /** The pushes of the merged script, first one first, and which signature stands for which key. */
  method CombineMultisig(S: Signing, code: valtype, nSigsRequired: nat, keys: seq<valtype>, sigs1: seq<valtype>, sigs2: seq<valtype>)
    returns (result: seq<valtype>, sigs: map<valtype, valtype>)
    ensures result == [vchFalse] + Merged(keys, sigs, nSigsRequired)
    ensures forall k :: k in sigs ==> k in keys && (sigs[k] in sigs1 || sigs[k] in sigs2) && S.checkSig(sigs[k], k, code)
    ensures forall sig :: (sig in sigs1 || sig in sigs2) && sig != [] ==> Placed(S, code, keys, sigs, sig)
    ensures OneKeyPerSig(S, code, keys) ==>
      forall i :: 0 <= i < |keys| ==> (keys[i] in sigs <==>
        exists sig :: (sig in sigs1 || sig in sigs2) && sig != [] && S.checkSig(sig, keys[i], code))
  {
    var allsigs: set<valtype> := {};
    for i := 0 to |sigs1|
      invariant allsigs == set v | v in sigs1[..i] && v != []
    {
      assert sigs1[..i + 1] == sigs1[..i] + [sigs1[i]];
      if sigs1[i] != [] { allsigs := allsigs + {sigs1[i]}; }
    }
    assert sigs1[..|sigs1|] == sigs1;
    for i := 0 to |sigs2|
      invariant allsigs == (set v | v in sigs1 && v != []) + (set v | v in sigs2[..i] && v != [])
    {
      assert sigs2[..i + 1] == sigs2[..i] + [sigs2[i]];
      if sigs2[i] != [] { allsigs := allsigs + {sigs2[i]}; }
    }
    assert sigs2[..|sigs2|] == sigs2;
    sigs := MatchSigs(S, code, keys, allsigs);
    result := BuildMerged(nSigsRequired, keys, sigs);
  }

  function Merged(keys: seq<valtype>, sigs: map<valtype, valtype>, m: nat): seq<valtype> {
    var chosen := Chosen(keys, sigs, m);
    chosen + Repeated(vchFalse, m - |chosen|)
  }

  method BuildMerged(nSigsRequired: nat, keys: seq<valtype>, sigs: map<valtype, valtype>) returns (result: seq<valtype>)
    ensures result == [vchFalse] + Merged(keys, sigs, nSigsRequired)
  {
    var nSigsHave := 0;
    result := [vchFalse];
    var i := 0;
    while i < |keys| && nSigsHave < nSigsRequired
      invariant 0 <= i <= |keys| && nSigsHave <= nSigsRequired && |result| == 1 + nSigsHave
      invariant [vchFalse] + Chosen(keys, sigs, nSigsRequired) == result + Chosen(keys[i..], sigs, nSigsRequired - nSigsHave)
    {
      assert keys[i..][1..] == keys[i + 1..];
      if keys[i] in sigs {
        result := result + [sigs[keys[i]]];
        nSigsHave := nSigsHave + 1;
      }
      i := i + 1;
    }
    assert Chosen(keys[i..], sigs, nSigsRequired - nSigsHave) == [];
    assert result == [vchFalse] + Chosen(keys, sigs, nSigsRequired);
    for k := nSigsHave to nSigsRequired
      invariant result == [vchFalse] + Chosen(keys, sigs, nSigsRequired) + Repeated(vchFalse, k - nSigsHave)
    {
      result := result + [vchFalse];
    }
  }

  // ----- what the merged script is worth --------------------------------------------------------------------

  /** The chosen signatures match the keys, in order. */
  lemma {:induction false} ChosenMatch(S: Signing, code: valtype, keys: seq<valtype>, sigs: map<valtype, valtype>, m: nat)
    requires forall k :: k in sigs ==> S.checkSig(sigs[k], k, code)
    ensures Matches(S, code, Chosen(keys, sigs, m), keys)
    decreases |keys|
  {
    hide Matches;
    if keys == [] || m == 0 {
      NoSigs(S, code, keys);
    } else if keys[0] in sigs {
      ChosenMatch(S, code, keys[1..], sigs, m - 1);
      OneKeyMore(S, code, Chosen(keys[1..], sigs, m - 1), keys);
      OneMatchMore(S, code, sigs[keys[0]], Chosen(keys[1..], sigs, m - 1), keys);
    } else {
      ChosenMatch(S, code, keys[1..], sigs, m);
      OneKeyMore(S, code, Chosen(keys[1..], sigs, m), keys);
    }
  }

  function Shifted(at: seq<nat>): seq<nat> { seq(|at|, i requires 0 <= i < |at| => at[i] + 1) }

  lemma OneKeyMore(S: Signing, code: valtype, sigs: seq<valtype>, keys: seq<valtype>)
    requires keys != [] && Matches(S, code, sigs, keys[1..])
    ensures Matches(S, code, sigs, keys)
  {
    var at :| IsMatch(S, code, sigs, keys[1..], at);
    assert IsMatch(S, code, sigs, keys, Shifted(at));
  }

  lemma OneMatchMore(S: Signing, code: valtype, sig: valtype, sigs: seq<valtype>, keys: seq<valtype>)
    requires keys != [] && Matches(S, code, sigs, keys[1..]) && S.checkSig(sig, keys[0], code)
    ensures Matches(S, code, [sig] + sigs, keys)
  {
    var at :| IsMatch(S, code, sigs, keys[1..], at);
    var at' := [0] + Shifted(at);
    forall i | 0 <= i < |at'| ensures at'[i] < |keys| && S.checkSig(([sig] + sigs)[i], keys[at'[i]], code) {
      if i > 0 { assert keys[at'[i]] == keys[1..][at[i - 1]]; }
    }
    assert IsMatch(S, code, [sig] + sigs, keys, at');
  }

  /** A script merged for `m` of the keys passes the check exactly when `m` keys were matched. */
  lemma MergedAccepted(S: Signing, code: valtype, keys: seq<valtype>, sigs: map<valtype, valtype>, m: nat)
    requires forall k :: k in sigs ==> S.checkSig(sigs[k], k, code)
    requires forall k :: k in keys ==> !S.checkSig(vchFalse, k, code)
    ensures Matches(S, code, Merged(keys, sigs, m), keys) <==> Matched(keys, sigs) >= m
  {
    ChosenMatch(S, code, keys, sigs, m);
    var chosen := Chosen(keys, sigs, m);
    if Matched(keys, sigs) >= m {
      assert Merged(keys, sigs, m) == chosen;
    } else {
      EmptyNeverMatches(S, code, Merged(keys, sigs, m), keys, |chosen|);
    }
  }

  lemma EmptyNeverMatches(S: Signing, code: valtype, sigs: seq<valtype>, keys: seq<valtype>, i: nat)
    requires i < |sigs| && sigs[i] == vchFalse
    requires forall k :: k in keys ==> !S.checkSig(vchFalse, k, code)
    ensures !Matches(S, code, sigs, keys)
  {
    forall at ensures !IsMatch(S, code, sigs, keys, at) {
      if |at| == |sigs| && at[i] < |keys| { assert keys[at[i]] in keys; }
    }
  }

  /** The stack the merged script and the script "m keys n CHECKMULTISIG" leave for the check. */
  function SpendStack(below: seq<valtype>, merged: seq<valtype>, m: valtype, keys: seq<valtype>, n: valtype): seq<valtype> {
    below + [vchFalse] + merged + [m] + keys + [n]
  }

  /** Merging and then spending: with `m` of at most 20 keys, the operation finds the merged signatures
      good exactly when at least `m` keys were matched; the signatures do not occur in the script. */
  lemma MergedSpends(S: Signing, code: valtype, keys: seq<valtype>, sigs: map<valtype, valtype>, m: valtype, n: valtype, below: seq<valtype>)
    requires CastToBigNum(n) == Int(|keys|) && |keys| <= 20
    requires CastToBigNum(m).Int? && 0 <= CastToBigNum(m).value <= |keys|
    requires forall k :: k in sigs ==> S.checkSig(sigs[k], k, code)
    requires forall k :: k in keys ==> !S.checkSig(vchFalse, k, code)
    requires Stripped(S, code, Merged(keys, sigs, CastToBigNum(m).value)) == code
    ensures var req := CastToBigNum(m).value; var stack := SpendStack(below, Merged(keys, sigs, req), m, keys, n);
      && Laid(stack, |keys|, req)
      && (Satisfied(S, stack, |keys|, req, code) <==> Matched(keys, sigs) >= req)
  {
    hide Matches, Matched, Stripped, Merged, CastToBigNum, Pow256;
    var req := CastToBigNum(m).value;
    var merged := Merged(keys, sigs, req);
    MergedSize(keys, sigs, req);
    var stack := SpendStack(below, merged, m, keys, n);
    assert stack[|stack| - 1] == n && stack[|stack| - 2 - |keys|] == m;
    assert Keys(stack, |keys|) == keys && Sigs(stack, |keys|, req) == merged;
    MergedAccepted(S, code, keys, sigs, req);
  }

  lemma MergedSize(keys: seq<valtype>, sigs: map<valtype, valtype>, m: nat)
    ensures |Merged(keys, sigs, m)| == m
  {
  }
}
