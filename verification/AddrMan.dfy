/**
 The stochastic address manager (src/addrman.cpp): every operation keeps the five tables and the
 two counters consistent, so none of the code's assertions can fire.
 */
module AddrMan {
  import opened AddrTables

  class CAddrMan {
    /** The bucket hashes under the manager's own key. */
    var P: Hashing
    var nIdCount: nat
    var mapInfo: Infos
    var mapAddr: map<CNetAddr, nat>
    var vRandom: seq<nat>
    var nTried: int
    var vvTried: seq<seq<nat>>
    var nNew: int
    var vvNew: seq<set<nat>>

    constructor (P: Hashing)
      ensures this.P == P && Valid() && mapInfo == map[]
    {
      this.P := P;
      nIdCount, mapInfo, mapAddr, vRandom, nTried, nNew := 0, map[], map[], [], 0, 0;
      vvTried := seq(TRIED_BUCKET_COUNT, i => []);
      vvNew := seq(NEW_BUCKET_COUNT, i => {});
      new;
      assert NewIds(mapInfo) == {} && TriedIds(mapInfo) == {};
    }

    /** The consistency the code's own check spells out; ids in `pend` are about to gain a reference. */
    ghost predicate Linked(pend: set<nat>)
      reads this
    {
      && RandomOk(mapInfo, vRandom) && AddrOk(mapInfo, mapAddr)
      && NewOk(mapInfo, vvNew, pend) && TriedOk(P, mapInfo, vvTried)
      && CountsOk(mapInfo, nNew, nTried)
      && (forall id :: id in mapInfo ==> id < nIdCount)
    }

    ghost predicate Tables(pend: set<nat>)
      reads this
    {
      Linked(pend) && StatsOk(mapInfo)
    }

    /** What the consistency check looks at: the tables agree, and the statistics are possible ones. */
    ghost predicate Valid()
      reads this
    {
      Tables({})
    }

    static method GetRandInt(nMax: int) returns (r: int)
      requires nMax > 0
      ensures 0 <= r < nMax
    {
      r :| 0 <= r < nMax;
    }

    method Find(net: CNetAddr) returns (found: bool, nId: nat)
      requires AddrOk(mapInfo, mapAddr)
      ensures found == (net in mapAddr)
      ensures found ==> nId in mapInfo && nId == mapAddr[net] && mapInfo[nId].Net() == net
      ensures !found ==> forall id :: id in mapInfo ==> mapInfo[id].Net() != net
    {
      if net !in mapAddr { return false, 0; }
      return true, mapAddr[net];
    }

    method SwapRandom(nRndPos1: nat, nRndPos2: nat)
      requires nRndPos1 < |vRandom| && nRndPos2 < |vRandom| && RandomOk(mapInfo, vRandom)
      modifies this`mapInfo, this`vRandom
      ensures vRandom == Swapped(old(vRandom), nRndPos1, nRndPos2)
      ensures mapInfo == SwappedInfos(old(mapInfo), old(vRandom), nRndPos1, nRndPos2)
      ensures RandomOk(mapInfo, vRandom)
      ensures SameButRandom(old(mapInfo), mapInfo) && SameStructure(old(mapInfo), mapInfo)
    {
      SwapKeepsRandom(mapInfo, vRandom, nRndPos1, nRndPos2);
      if nRndPos1 == nRndPos2 { return; }
      var nId1, nId2 := vRandom[nRndPos1], vRandom[nRndPos2];
      assert nId1 in mapInfo && nId2 in mapInfo;
      mapInfo := mapInfo[nId1 := mapInfo[nId1].(nRandomPos := nRndPos2)];
      mapInfo := mapInfo[nId2 := mapInfo[nId2].(nRandomPos := nRndPos1)];
      vRandom := vRandom[nRndPos1 := nId2];
      vRandom := vRandom[nRndPos2 := nId1];
    }

    /** The removal sequence the code repeats in four places: out of vRandom, mapAddr and mapInfo. */
    method EraseEntry(nId: nat)
      requires nId in mapInfo && RandomOk(mapInfo, vRandom) && AddrOk(mapInfo, mapAddr)
      modifies this`mapInfo, this`vRandom, this`mapAddr
      ensures RandomOk(mapInfo, vRandom) && AddrOk(mapInfo, mapAddr)
      ensures SameButRandom(old(mapInfo) - {nId}, mapInfo) && SameStructure(old(mapInfo) - {nId}, mapInfo)
      ensures mapInfo.Keys == old(mapInfo).Keys - {nId}
    {
      hide RandomOk, AddrOk, SameButRandom, SameStructure, SwappedInfos, NewOk, TriedOk;
      var info := mapInfo[nId];
      ghost var m0 := mapInfo;
      PlaceOf(mapInfo, vRandom, nId);
      SwapRandom(info.nRandomPos, |vRandom| - 1);
      SameTables(P, m0, mapInfo, mapAddr, [], [], {});
      SameNet(m0, mapInfo, nId);
      EraseSame(m0, mapInfo, nId);
      PopKeepsRandom(mapInfo, vRandom);
      EraseKeepsAddr(mapInfo, mapAddr, nId);
      vRandom := vRandom[..|vRandom| - 1];
      mapAddr := mapAddr - {info.Net()};
      mapInfo := mapInfo - {nId};
    }

    static lemma SameNet(m: Infos, m': Infos, id: nat)
      requires SameStructure(m, m') && id in m
      ensures id in m' && m'[id].Net() == m[id].Net() && (m' - {id}).Keys == m.Keys - {id}
    {
      assert id in m'.Keys;
    }

    /** What the caller of a removal needs to know about the tables the removal did not touch. */
    lemma Erased(m0: Infos, nId: nat, vvTried0: seq<seq<nat>>, vvNew0: seq<set<nat>>, pend: set<nat>)
      requires SameButRandom(m0 - {nId}, mapInfo) && SameStructure(m0 - {nId}, mapInfo)
      ensures NewOk(m0 - {nId}, vvNew0, pend) ==> NewOk(mapInfo, vvNew0, pend)
      ensures TriedOk(P, m0 - {nId}, vvTried0) ==> TriedOk(P, mapInfo, vvTried0)
      ensures NewIds(mapInfo) == NewIds(m0 - {nId}) && TriedIds(mapInfo) == TriedIds(m0 - {nId})
      ensures StatsOk(m0) ==> StatsOk(mapInfo)
    {
      SameTables(P, m0 - {nId}, mapInfo, map[], vvNew0, vvTried0, pend);
      forall id | id in mapInfo && StatsOk(m0)
        ensures mapInfo[id].addr.nLastTry >= 0 && mapInfo[id].nLastSuccess >= 0 && (mapInfo[id].fInTried ==> mapInfo[id].nLastSuccess != 0)
      {
        assert id in m0 - {nId};
      }
    }

    static lemma KnownNew(m: Infos, vv: seq<set<nat>>, pend: set<nat>, b: nat, id: nat)
      requires NewOk(m, vv, pend) && b < |vv| && id in vv[b]
      ensures id in m && !m[id].fInTried && |vv| == NEW_BUCKET_COUNT
    {
    }

    static lemma SameLess(m: Infos, id: nat, info: CAddrInfo)
      ensures m - {id} == m[id := info] - {id}
    {
    }

    /** Take an id out of a new bucket; an entry no bucket refers to any more is removed. */
    method DropFromBucket(nUBucket: nat, nId: nat, ghost pend: set<nat>)
      requires Tables(pend) && nUBucket < |vvNew| && nId in vvNew[nUBucket] && nId !in pend
      modifies this`mapInfo, this`vRandom, this`mapAddr, this`nNew, this`vvNew
      ensures Tables(pend)
      ensures vvNew == old(vvNew)[nUBucket := old(vvNew)[nUBucket] - {nId}]
      ensures if old(mapInfo)[nId].nRefCount == 1 then SameButRandom(old(mapInfo) - {nId}, mapInfo)
        else mapInfo == old(mapInfo)[nId := old(mapInfo)[nId].(nRefCount := old(mapInfo)[nId].nRefCount - 1)]
    {
      hide RandomOk, AddrOk, NewOk, TriedOk, StatsOk, SameButRandom, SameStructure, Refs, NewIds, TriedIds;
      KnownNew(mapInfo, vvNew, pend, nUBucket, nId);
      ghost var m0, vv0 := mapInfo, vvNew;
      var n := mapInfo[nId].nRefCount - 1;
      DropRef(m0, vv0, pend, nUBucket, nId);
      RefChange(P, m0, nId, n, vRandom, mapAddr, vvTried);
      mapInfo := mapInfo[nId := mapInfo[nId].(nRefCount := n)];
      ghost var m1 := mapInfo;
      if n == 0 {
        EraseCounts(m1, nId);
        EraseKeepsTried(P, m1, vvTried, nId);
        EraseEntry(nId);
        Erased(m1, nId, vvTried, vvNew[nUBucket := vvNew[nUBucket] - {nId}], pend);
        SameLess(m0, nId, m1[nId]);
        nNew := nNew - 1;
      }
      vvNew := vvNew[nUBucket := vvNew[nUBucket] - {nId}];
    }

    /** Four random places in a bucket of `n`, with repetition. */
    static method DrawFour(n: int) returns (draws: seq<nat>)
      requires n > 0
      ensures |draws| == 4 && forall i :: 0 <= i < 4 ==> draws[i] < n
    {
      var a, b, c, d;
      a := GetRandInt(n);
      b := GetRandInt(n);
      c := GetRandInt(n);
      d := GetRandInt(n);
      draws := [a, b, c, d];
    }

    /** The place of an id in a bucket, which is kept in ascending order. */
    static function PlaceIn(s: set<nat>, id: nat): nat { |Under(s, id)| }

    static function Under(s: set<nat>, id: nat): (u: set<nat>)
      ensures forall x :: x in u <==> x in s && x < id
    {
      set x | x in s && x < id
    }

    /** Of the entries at some places of a bucket the one seen longest ago, the first of them among equals. */
    static ghost predicate IsLeastRecent(m: Infos, s: set<nat>, draws: seq<nat>, id: nat)
      requires forall x :: x in s ==> x in m
    {
      && id in s && PlaceIn(s, id) in draws
      && forall x :: x in s && PlaceIn(s, x) in draws ==>
           m[id].addr.nTime < m[x].addr.nTime || (m[id].addr.nTime == m[x].addr.nTime && id <= x)
    }

    /** What the walk knows after the entries of `done`. */
    static ghost predicate Walked(m: Infos, s: set<nat>, done: set<nat>, draws: seq<nat>, oldest: int)
      requires forall x :: x in s ==> x in m
    {
      && done <= s && (forall x, y :: x in done && y in s - done ==> x < y)
      && if oldest == -1 then forall x :: x in done ==> PlaceIn(s, x) !in draws
         else
           && oldest >= 0 && oldest in done && PlaceIn(s, oldest) in draws
           && forall x :: x in done && PlaceIn(s, x) in draws ==>
                m[oldest].addr.nTime < m[x].addr.nTime || (m[oldest].addr.nTime == m[x].addr.nTime && oldest <= x)
    }

    static lemma WalkOn(m: Infos, s: set<nat>, done: set<nat>, draws: seq<nat>, oldest: int, id: nat)
      requires (forall x :: x in s ==> x in m) && Walked(m, s, done, draws, oldest)
      requires id in s - done && forall y :: y in s - done ==> id <= y
      ensures PlaceIn(s, id) == |done|
      ensures Walked(m, s, done + {id}, draws,
                     if |done| in draws && (oldest == -1 || m[id].addr.nTime < m[oldest].addr.nTime) then id else oldest)
    {
      hide PlaceIn, CAddrInfo.IsTerrible;
      NextPlace(s, done, id);
      forall x, y | x in done + {id} && y in s - (done + {id}) ensures x < y {
        assert y in s - done;
        if x != id { assert x in done; }
      }
      var next := if |done| in draws && (oldest == -1 || m[id].addr.nTime < m[oldest].addr.nTime) then id else oldest;
      if next != -1 {
        forall x | x in done + {id} && PlaceIn(s, x) in draws
          ensures m[next].addr.nTime < m[x].addr.nTime || (m[next].addr.nTime == m[x].addr.nTime && next <= x)
        {
          if x != id { assert x in done; }
        }
      }
    }

    static lemma NextPlace(s: set<nat>, done: set<nat>, id: nat)
      requires done <= s && id in s - done && (forall y :: y in s - done ==> id <= y) && forall x :: x in done ==> x < id
      ensures PlaceIn(s, id) == |done|
    {
      forall x | x in Under(s, id) ensures x in done {
        assert x in done || x in s - done;
      }
      assert Under(s, id) == done;
    }

    /** Walk through the bucket and keep the least recent of the entries at the drawn places. */
    method LeastRecent(vNew: set<nat>, draws: seq<nat>) returns (nOldest: nat)
      requires vNew != {} && draws != [] && forall i :: 0 <= i < |draws| ==> draws[i] < |vNew|
      requires forall id :: id in vNew ==> id in mapInfo
      ensures nOldest in vNew && IsLeastRecent(mapInfo, vNew, draws, nOldest)
    {
      hide PlaceIn, Walked, CAddrInfo.IsTerrible;
      var oldest: int := -1;
      var nI, todo := 0, vNew;
      NotWalked(mapInfo, vNew, draws);
      while todo != {}
        invariant todo <= vNew && nI == |vNew - todo| && Walked(mapInfo, vNew, vNew - todo, draws, oldest)
        invariant oldest != -1 ==> oldest >= 0 && oldest in vNew
        decreases todo
      {
        var id := Least(todo);
        WalkOn(mapInfo, vNew, vNew - todo, draws, oldest, id);
        if nI in draws {
          if oldest == -1 || mapInfo[id].addr.nTime < mapInfo[oldest].addr.nTime { oldest := id; }
        }
        assert vNew - (todo - {id}) == (vNew - todo) + {id};
        todo := todo - {id};
        nI := nI + 1;
      }
      assert vNew - todo == vNew;
      WalkedAll(mapInfo, vNew, draws, oldest);
      nOldest := oldest;
    }

    static lemma NotWalked(m: Infos, s: set<nat>, draws: seq<nat>)
      requires forall x :: x in s ==> x in m
      ensures Walked(m, s, s - s, draws, -1) && |s - s| == 0
    {
    }

    static lemma WalkedAll(m: Infos, s: set<nat>, draws: seq<nat>, oldest: int)
      requires draws != [] && draws[0] < |s| && (forall x :: x in s ==> x in m) && Walked(m, s, s, draws, oldest)
      ensures oldest >= 0 && IsLeastRecent(m, s, draws, oldest)
    {
      EveryPlace(s, draws[0]);
    }

    /** Every place of a bucket is taken. */
    static lemma {:induction false} EveryPlace(s: set<nat>, k: nat)
      requires k < |s|
      ensures exists id :: id in s && PlaceIn(s, id) == k
      decreases |s|
    {
      var top := Greatest(s);
      var rest := s - {top};
      assert Under(s, top) == rest;
      if k < |rest| {
        EveryPlace(rest, k);
        var id :| id in rest && PlaceIn(rest, id) == k;
        assert Under(s, id) == Under(rest, id);
        assert id in s && PlaceIn(s, id) == k;
      } else {
        assert top in s && PlaceIn(s, top) == k;
      }
    }

    static ghost function Greatest(s: set<nat>): (g: nat)
      requires s != {}
      ensures g in s && forall x :: x in s ==> x <= g
      decreases |s|
    {
      var x :| x in s;
      if s == {x} then x
      else
        var g := Greatest(s - {x});
        assert forall y :: y in s ==> y == x || y in s - {x};
        if x > g then x else g
    }

    /** Make room in a new bucket: drop its first terrible entry, or else the least recent of those at the
        four places drawn. */
    method ShrinkNew(nUBucket: nat, nNow: int, draws: seq<nat>, ghost pend: set<nat>) returns (r: int, ghost victim: nat)
      requires Tables(pend) && nUBucket < |vvNew| && vvNew[nUBucket] != {} && pend !! vvNew[nUBucket]
      requires |draws| == 4 && forall i :: 0 <= i < 4 ==> draws[i] < |vvNew[nUBucket]|
      modifies this`mapInfo, this`vRandom, this`mapAddr, this`nNew, this`vvNew
      ensures Tables(pend)
      ensures victim in old(vvNew)[nUBucket] && vvNew == old(vvNew)[nUBucket := old(vvNew)[nUBucket] - {victim}]
      ensures victim in old(mapInfo) && mapInfo.Keys <= old(mapInfo).Keys
      ensures old(mapInfo).Keys - {victim} <= mapInfo.Keys
      ensures forall id :: id in mapInfo && id != victim ==> mapInfo[id] == old(mapInfo)[id].(nRandomPos := mapInfo[id].nRandomPos)
      ensures forall id :: id in old(vvNew)[nUBucket] ==> id in old(mapInfo)
      ensures r == 0 <==> exists id :: id in old(vvNew)[nUBucket] && old(mapInfo)[id].IsTerrible(nNow)
      ensures r == 0 ==> (
        && old(mapInfo)[victim].IsTerrible(nNow)
        && forall id :: id in old(vvNew)[nUBucket] && id < victim ==> !old(mapInfo)[id].IsTerrible(nNow))
      ensures r != 0 ==> IsLeastRecent(old(mapInfo), old(vvNew)[nUBucket], draws, victim)
    {
      hide RandomOk, AddrOk, TriedOk, CountsOk, StatsOk, IsLeastRecent;
      var vNew := vvNew[nUBucket];
      assert forall id :: id in vNew ==> id in mapInfo;
      var terrible := set id | id in vNew && mapInfo[id].IsTerrible(nNow);
      var nId;
      if terrible != {} {
        nId := Least(terrible);
        r := 0;
        assert nId in vNew && mapInfo[nId].IsTerrible(nNow);
        forall id | id in vNew && id < nId ensures !mapInfo[id].IsTerrible(nNow) { assert id !in terrible; }
      } else {
        forall id | id in vNew ensures !mapInfo[id].IsTerrible(nNow) { assert id !in terrible; }
        nId := LeastRecent(vNew, draws);
        r := 1;
      }
      victim := nId;
      ghost var m0 := mapInfo;
      DropFromBucket(nUBucket, nId, pend);
      assert (m0 - {nId}).Keys == m0.Keys - {nId};
      forall id | id in mapInfo && id != nId ensures mapInfo[id] == m0[id].(nRandomPos := mapInfo[id].nRandomPos) {
        if m0[nId].nRefCount == 1 { assert id in m0 - {nId}; }
      }
    }

    /** The places drawn by a partial shuffle: turn `k` draws one of the places from `k` on. */
    static predicate Draws(s: seq<nat>, draws: seq<nat>) {
      |draws| <= |s| && forall k :: 0 <= k < |draws| ==> k + draws[k] < |s|
    }

    /** The list after the turns of the shuffle. */
    static function Shuffled(s: seq<nat>, draws: seq<nat>): (t: seq<nat>)
      requires Draws(s, draws)
      ensures |t| == |s|
      decreases |draws|
    {
      if draws == [] then s
      else
        var i := |draws| - 1;
        Swapped(Shuffled(s, draws[..i]), i + draws[i], i)
    }

    /** The first of the front `n` entries that no other of them is older than. */
    static ghost predicate IsOldest(m: Infos, s: seq<nat>, n: nat, k: nat) {
      && k < n <= |s| && (forall j :: 0 <= j < n ==> s[j] in m)
      && (forall j :: 0 <= j < n ==> m[s[k]].nLastSuccess <= m[s[j]].nLastSuccess)
      && (forall j :: 0 <= j < k ==> m[s[k]].nLastSuccess < m[s[j]].nLastSuccess)
    }

    /** Shuffle the front of a full tried bucket and pick the place to reuse. The bucket is shuffled by
        the draws; the oldest of the inspected entries was found in turn `k` and stands at `k`, but the
        place returned is the one it was drawn from: it holds that entry exactly when the two agree. */
    method SelectTried(nKBucket: nat) returns (nPos: int, ghost draws: seq<nat>, ghost k: nat)
      requires nKBucket < |vvTried| && vvTried[nKBucket] != []
      requires forall i :: 0 <= i < |vvTried[nKBucket]| ==> vvTried[nKBucket][i] in mapInfo
      modifies this`vvTried
      ensures Draws(old(vvTried)[nKBucket], draws)
      ensures |draws| == Min(TRIED_ENTRIES_INSPECT_ON_EVICT, |old(vvTried)[nKBucket]|)
      ensures vvTried == old(vvTried)[nKBucket := Shuffled(old(vvTried)[nKBucket], draws)]
      ensures IsOldest(mapInfo, vvTried[nKBucket], |draws|, k) && nPos == k + draws[k]
      ensures Distinct(old(vvTried)[nKBucket]) ==> (vvTried[nKBucket][nPos] == vvTried[nKBucket][k] <==> draws[k] == 0)
      ensures multiset(vvTried[nKBucket]) == multiset(old(vvTried)[nKBucket])
      ensures Distinct(old(vvTried)[nKBucket]) ==> Distinct(vvTried[nKBucket])
    {
      hide Distinct, Shuffled, Draws, Swapped, IsOldest;
      ghost var bucket := vvTried[nKBucket];
      var nOldest: int := -1;
      nPos, draws, k := -1, [], 0;
      NotShuffled(bucket);
      var i := 0;
      while i < TRIED_ENTRIES_INSPECT_ON_EVICT && i < |vvTried[nKBucket]|
        invariant 0 <= i <= Min(TRIED_ENTRIES_INSPECT_ON_EVICT, |bucket|) && i == |draws|
        invariant Draws(bucket, draws) && vvTried == old(vvTried)[nKBucket := Shuffled(bucket, draws)]
        invariant multiset(vvTried[nKBucket]) == multiset(bucket)
        invariant Distinct(bucket) ==> Distinct(vvTried[nKBucket])
        invariant forall j :: 0 <= j < |bucket| ==> vvTried[nKBucket][j] in mapInfo
        invariant if i == 0 then nOldest == -1
          else k < i && IsOldest(mapInfo, vvTried[nKBucket], i, k) && nOldest == vvTried[nKBucket][k] && nPos == k + draws[k]
      {
        var nRnd := GetRandInt(|vvTried[nKBucket]| - i);
        var p := nRnd + i;
        var nTemp := vvTried[nKBucket][p];
        var vTried := vvTried[nKBucket];
        ghost var before := vTried;
        ShuffleKeeps(vTried, p, i);
        NextShuffled(bucket, draws, nRnd);
        draws := draws + [nRnd];
        vTried := vTried[p := vTried[i]];
        vTried := vTried[i := nTemp];
        vvTried := vvTried[nKBucket := vTried];
        SwappedTurn(before, p, i);
        NextOldest(mapInfo, before, vTried, i, k);
        if nOldest == -1 || mapInfo[nTemp].nLastSuccess < mapInfo[nOldest].nLastSuccess {
          nOldest := nTemp;
          nPos := p;
          k := i;
        }
        i := i + 1;
      }
      OldestPlace(mapInfo, vvTried[nKBucket], bucket, draws, k);
    }

    static lemma NotShuffled(s: seq<nat>)
      ensures Draws(s, []) && Shuffled(s, []) == s
    {
    }

    static lemma SwappedTurn(s: seq<nat>, p: nat, i: nat)
      requires i <= p < |s|
      ensures Swapped(s, p, i) == s[p := s[i]][i := s[p]] && |Swapped(s, p, i)| == |s|
      ensures Swapped(s, p, i)[..i] == s[..i] && Swapped(s, p, i)[i] == s[p]
    {
    }

    /** One more inspected entry. */
    static lemma NextOldest(m: Infos, s: seq<nat>, t: seq<nat>, i: nat, k: nat)
      requires i < |s| == |t| && t[..i] == s[..i] && t[i] in m && (i > 0 ==> IsOldest(m, s, i, k))
      ensures i > 0 ==> k < i && s[k] in m && t[k] == s[k]
      ensures i == 0 || m[t[i]].nLastSuccess < m[s[k]].nLastSuccess ==> IsOldest(m, t, i + 1, i)
      ensures i > 0 && m[t[i]].nLastSuccess >= m[s[k]].nLastSuccess ==> IsOldest(m, t, i + 1, k)
    {
      forall j | 0 <= j < i ensures t[j] == s[j] { assert t[..i][j] == s[..i][j]; }
    }

    static lemma OldestPlace(m: Infos, t: seq<nat>, s: seq<nat>, draws: seq<nat>, k: nat)
      requires IsOldest(m, t, |draws|, k) && Draws(s, draws) && |t| == |s|
      ensures k + draws[k] < |t|
      ensures Distinct(t) ==> (t[k + draws[k]] == t[k] <==> draws[k] == 0)
    {
    }

    static lemma {:induction false} NextShuffled(s: seq<nat>, draws: seq<nat>, nRnd: nat)
      requires Draws(s, draws) && |draws| + nRnd < |s|
      ensures Draws(s, draws + [nRnd])
      ensures Shuffled(s, draws + [nRnd]) == Swapped(Shuffled(s, draws), |draws| + nRnd, |draws|)
    {
      hide Swapped;
      assert (draws + [nRnd])[..|draws|] == draws;
    }

    /** A bucket of one entry returns it. */
    static lemma OneEntry(s: seq<nat>, draws: seq<nat>)
      requires |s| == 1 && |draws| == 1 && Draws(s, draws)
      ensures draws[0] == 0 && Shuffled(s, draws) == s
    {
      assert draws[..0] == [];
    }

    /** With two, drawing the older one first from the second place returns the place of the other. */
    static lemma OtherReturned(m: Infos, a: nat, b: nat)
      requires a in m && b in m && a != b && m[b].nLastSuccess < m[a].nLastSuccess
      ensures Draws([a, b], [1, 0]) && Distinct([a, b])
      ensures var s := Shuffled([a, b], [1, 0]);
        && IsOldest(m, s, 2, 0) && s[0] == b
        && s[0 + [1, 0][0]] == a && a != s[0]
    {
      var d: seq<nat> := [1, 0];
      assert d[..1] == [1] && d[..1][..0] == [];
      assert Shuffled([a, b], d[..1][..0]) == [a, b];
      assert Shuffled([a, b], d[..1]) == [b, a];
      assert Shuffled([a, b], d) == [b, a];
    }

    static lemma ShuffleKeeps(s: seq<nat>, i: nat, j: nat)
      requires i < |s| && j < |s|
      ensures multiset(s[i := s[j]][j := s[i]]) == multiset(s)
      ensures Distinct(s) ==> Distinct(s[i := s[j]][j := s[i]])
      ensures var t := s[i := s[j]][j := s[i]]; forall k :: 0 <= k < |s| ==> t[k] in s
    {
      ShuffleBag(s, i, j);
      var t := s[i := s[j]][j := s[i]];
      assert forall k :: 0 <= k < |s| ==> t[k] == s[if k == i then j else if k == j then i else k];
    }

    static lemma ShuffleBag(s: seq<nat>, i: nat, j: nat)
      requires i < |s| && j < |s|
      ensures multiset(s[i := s[j]][j := s[i]]) == multiset(s)
    {
      var t := s[i := s[j]];
      assert multiset(t) == multiset(s) - multiset{s[i]} + multiset{s[j]};
      assert multiset(t[j := s[i]]) == multiset(t) - multiset{t[j]} + multiset{s[i]};
    }

    static lemma CountedRefs(m: Infos, vv: seq<set<nat>>, id: nat)
      requires NewOk(m, vv, {}) && id in m && !m[id].fInTried
      ensures m[id].nRefCount == Refs(vv, id)
    {
    }

    /** Take an id out of every new bucket, counting its references down. */
    method LeaveNewBuckets(nId: nat)
      requires Linked({}) && nId in mapInfo && !mapInfo[nId].fInTried
      modifies this`mapInfo, this`vvNew
      ensures vvNew == Removed(old(vvNew), nId)
      ensures mapInfo == old(mapInfo)[nId := old(mapInfo)[nId].(nRefCount := 0)]
    {
      hide RandomOk, AddrOk, NewOk, TriedOk, CountsOk, StatsOk;
      ghost var m0, vv0 := mapInfo, vvNew;
      CountedRefs(m0, vv0, nId);
      assert vv0[..0] == [];
      for b := 0 to |vvNew|
        invariant |vvNew| == |vv0|
        invariant forall c :: 0 <= c < b ==> vvNew[c] == vv0[c] - {nId}
        invariant forall c :: b <= c < |vv0| ==> vvNew[c] == vv0[c]
        invariant mapInfo == m0[nId := m0[nId].(nRefCount := m0[nId].nRefCount - Refs(vv0[..b], nId))]
      {
        assert vv0[..b + 1][..b] == vv0[..b];
        if nId in vvNew[b] {
          vvNew := vvNew[b := vvNew[b] - {nId}];
          mapInfo := mapInfo[nId := mapInfo[nId].(nRefCount := mapInfo[nId].nRefCount - 1)];
        }
      }
      assert vv0[..|vv0|] == vv0;
      assert mapInfo[nId].nRefCount == 0;
    }

    /** Move an entry from the new tables to its tried bucket; a full bucket gives one entry back
        to the new tables. No entry is lost. */
    method MakeTried(nId: nat, nOrigin: nat) returns (ghost evicted: set<nat>)
      requires Linked({}) && nId in mapInfo && !mapInfo[nId].fInTried
      requires nOrigin < |vvNew| && nId in vvNew[nOrigin]
      modifies this`mapInfo, this`vvNew, this`vvTried, this`nNew, this`nTried
      ensures Linked({}) && mapInfo.Keys == old(mapInfo).Keys
      ensures mapInfo[nId] == AsTried(old(mapInfo)[nId])
      ensures |evicted| <= 1 && evicted <= old(mapInfo).Keys && nId !in evicted
      ensures evicted != {} <==> |old(vvTried)[TriedBucket(P, old(mapInfo)[nId])]| == TRIED_BUCKET_SIZE
      ensures forall id :: id in evicted ==>
        && old(mapInfo)[id].fInTried && TriedBucket(P, old(mapInfo)[id]) == TriedBucket(P, old(mapInfo)[nId])
        && mapInfo[id] == AsEvicted(old(mapInfo)[id])
      ensures forall id :: id in mapInfo && id != nId && id !in evicted ==> mapInfo[id] == old(mapInfo)[id]
      ensures var vv := Removed(old(vvNew), nId);
        && (evicted == {} ==> vvNew == vv)
        && (forall id :: id in evicted ==>
              var b := ReturnBucket(vv, old(mapInfo)[id], nOrigin);
              b < |vv| && vvNew == vv[b := vv[b] + {id}])
    {
      hide RandomOk, AddrOk, NewOk, TriedOk, Refs, NewIds, TriedIds, Removed, ReturnBucket, SameBuckets;
      ghost var m0, vv0 := mapInfo, vvNew;
      LeaveNew(m0, vv0, nId);
      LeaveNewBuckets(nId);
      nNew := nNew - 1;
      OriginRoom(m0, vv0, nId, nOrigin);
      var nKBucket := TriedBucket(P, mapInfo[nId]);
      TriedShape(m0, vvTried, nKBucket);
      evicted := {};
      if |vvTried[nKBucket]| < TRIED_BUCKET_SIZE {
        JoinTried(nId, m0);
      } else {
        var nOld := EvictFor(nId, nOrigin, m0);
        evicted := {nOld};
      }
    }

    /** The first half of MakeTried's end: there is room in the tried bucket. The entry has left the
        new buckets but is not marked as tried yet; `m0` is the state before. */
    method JoinTried(nId: nat, ghost m0: Infos)
      requires nId in m0 && !m0[nId].fInTried
      requires mapInfo == m0[nId := m0[nId].(nRefCount := 0)]
      requires RandomOk(m0, vRandom) && AddrOk(m0, mapAddr) && TriedOk(P, m0, vvTried)
      requires NewOk(m0[nId := AsTried(m0[nId])], vvNew, {})
      requires nNew == |NewIds(m0)| - 1 && nTried == |TriedIds(m0)|
      requires |vvTried[TriedBucket(P, m0[nId])]| < TRIED_BUCKET_SIZE
      requires forall id :: id in mapInfo ==> id < nIdCount
      modifies this`mapInfo, this`vvTried, this`nTried
      ensures Linked({}) && mapInfo == m0[nId := AsTried(m0[nId])]
    {
      hide RandomOk, AddrOk, NewOk, TriedOk, StatsOk, NewIds, TriedIds;
      var nKBucket := TriedBucket(P, mapInfo[nId]);
      TriedShape(m0, vvTried, nKBucket);
      EnterTried(P, m0, vvTried, nId);
      ToTriedCounts(m0, nId);
      vvTried := vvTried[nKBucket := vvTried[nKBucket] + [nId]];
      nTried := nTried + 1;
      mapInfo := mapInfo[nId := mapInfo[nId].(fInTried := true)];
      assert mapInfo == m0[nId := AsTried(m0[nId])];
      Restructured(m0, mapInfo);
    }

    static lemma SameBucketsSelf(vv: seq<set<nat>>, but: set<nat>)
      ensures SameBuckets(vv, vv, but)
    {
    }

    /** Only the entry made tried and the one that made way for it change buckets. */
    lemma ElsewhereSame(vv0: seq<set<nat>>, vv': seq<set<nat>>, nId: nat, evicted: set<nat>, m0: Infos, nOrigin: nat)
      requires |evicted| <= 1 && evicted <= m0.Keys
      requires evicted == {} ==> vv' == Removed(vv0, nId)
      requires forall id :: id in evicted ==>
        var b := ReturnBucket(Removed(vv0, nId), m0[id], nOrigin);
        b < |Removed(vv0, nId)| && vv' == Removed(vv0, nId)[b := Removed(vv0, nId)[b] + {id}]
      ensures SameBuckets(vv0, vv', evicted + {nId})
    {
      hide ReturnBucket;
      if evicted != {} {
        var id :| id in evicted;
        var b := ReturnBucket(Removed(vv0, nId), m0[id], nOrigin);
        assert vv'[b] == Removed(vv0, nId)[b] + {id};
      }
    }

    /** SelectTried, seen from the tried table: it only reorders a bucket. */
    method PickVictim(nKBucket: nat, ghost m0: Infos) returns (nPos: int)
      requires nKBucket < TRIED_BUCKET_COUNT && TriedOk(P, m0, vvTried) && m0.Keys == mapInfo.Keys
      requires |vvTried[nKBucket]| == TRIED_BUCKET_SIZE
      modifies this`vvTried
      ensures TriedOk(P, m0, vvTried) && |vvTried| == TRIED_BUCKET_COUNT
      ensures 0 <= nPos < |vvTried[nKBucket]|
      ensures var id := vvTried[nKBucket][nPos]; id in m0 && m0[id].fInTried && TriedBucket(P, m0[id]) == nKBucket
    {
      ghost var vvT0 := vvTried;
      TriedShape(m0, vvTried, nKBucket);
      hide TriedOk, Distinct, TriedBucket;
      forall i | 0 <= i < |vvTried[nKBucket]| ensures vvTried[nKBucket][i] in mapInfo {
        assert vvTried[nKBucket][i] in m0.Keys;
      }
      ghost var draws, k;
      nPos, draws, k := SelectTried(nKBucket);
      assert vvTried == vvT0[nKBucket := vvTried[nKBucket]];
      TriedPermuted(P, m0, vvT0, nKBucket, vvTried[nKBucket]);
      TriedShape(m0, vvTried, nKBucket);
    }

    /** Where an evicted entry goes: to the bucket its source selects, or if that is full to the
        bucket the promoted entry came from. */
    function ReturnBucket(vv: seq<set<nat>>, info: CAddrInfo, nOrigin: nat): nat
      reads this`P
    {
      var b := NewBucket(P, info, info.source);
      if b < |vv| && |vv[b]| < NEW_BUCKET_SIZE then b else nOrigin
    }

    /** The second half of MakeTried: the tried bucket is full, one of its entries makes way. The
        entry has left the new buckets but is not marked as tried yet; `m0` is the state before. */
    method EvictFor(nId: nat, nOrigin: nat, ghost m0: Infos) returns (nOld: nat)
      requires nId in m0 && !m0[nId].fInTried
      requires mapInfo == m0[nId := m0[nId].(nRefCount := 0)]
      requires RandomOk(m0, vRandom) && AddrOk(m0, mapAddr) && TriedOk(P, m0, vvTried)
      requires NewOk(m0[nId := AsTried(m0[nId])], vvNew, {})
      requires nOrigin < |vvNew| && |vvNew[nOrigin]| < NEW_BUCKET_SIZE
      requires nNew == |NewIds(m0)| - 1 && nTried == |TriedIds(m0)|
      requires |vvTried[TriedBucket(P, m0[nId])]| == TRIED_BUCKET_SIZE
      requires forall id :: id in mapInfo ==> id < nIdCount
      modifies this`mapInfo, this`vvNew, this`vvTried, this`nNew
      ensures Linked({}) && mapInfo.Keys == m0.Keys
      ensures mapInfo[nId] == AsTried(m0[nId])
      ensures nOld in m0 && nOld != nId && m0[nOld].fInTried && mapInfo[nOld] == AsEvicted(m0[nOld])
      ensures TriedBucket(P, m0[nOld]) == TriedBucket(P, m0[nId])
      ensures forall id :: id in mapInfo && id != nId && id != nOld ==> mapInfo[id] == m0[id]
      ensures var b := ReturnBucket(old(vvNew), m0[nOld], nOrigin);
        b < |old(vvNew)| && vvNew == old(vvNew)[b := old(vvNew)[b] + {nOld}]
    {
      hide RandomOk, AddrOk, NewOk, TriedOk, StatsOk, Refs, NewIds, TriedIds, Distinct, SetAt;
      ghost var m1, vv1 := m0[nId := AsTried(m0[nId])], vvNew;
      var nKBucket := TriedBucket(P, mapInfo[nId]);
      var nPos := PickVictim(nKBucket, m0);
      nOld := vvTried[nKBucket][nPos];
      ReplaceTried(P, m0, vvTried, nId, nPos);
      var nUBucket := NewBucket(P, mapInfo[nOld], mapInfo[nOld].source);
      NewShape(m1, vv1, {});
      mapInfo := mapInfo[nOld := mapInfo[nOld].(fInTried := false)];
      mapInfo := mapInfo[nOld := mapInfo[nOld].(nRefCount := 1)];
      var nTarget := if |vvNew[nUBucket]| < NEW_BUCKET_SIZE then nUBucket else nOrigin;
      EnterNew(m1, vv1, nOld, nTarget);
      vvNew := vvNew[nTarget := vvNew[nTarget] + {nOld}];
      nNew := nNew + 1;
      vvTried := vvTried[nKBucket := SetAt(vvTried[nKBucket], nPos, nId)];
      mapInfo := mapInfo[nId := mapInfo[nId].(fInTried := true)];
      EvictResult(m0, mapInfo, nId, nOld);
    }

    // ----- the public operations ------------------------------------------------------------------

    /** What an entry looks like after a connection succeeded at `nTime`. */
    static function Succeeded(info: CAddrInfo, nTime: int): CAddrInfo {
      info.(nLastSuccess := nTime, nAttempts := 0, addr := info.addr.(nLastTry := nTime, nTime := nTime))
    }

    method Touch(nId: nat, info: CAddrInfo)
      requires Linked({}) && nId in mapInfo && SameKeys(mapInfo[nId], info)
      modifies this`mapInfo
      ensures Linked({}) && (old(StatsOk(mapInfo)) && GoodStats(info) ==> Valid())
      ensures mapInfo == old(mapInfo)[nId := info] && mapInfo.Keys == old(mapInfo).Keys
    {
      hide RandomOk, AddrOk, NewOk, TriedOk, StatsOk, NewIds, TriedIds, SameKeys, GoodStats;
      Touched(P, mapInfo, nId, info, vRandom, mapAddr, vvNew, vvTried);
      mapInfo := mapInfo[nId := info];
    }

    /** A random new bucket holding the id; there always is one. */
    method FindBucket(nId: nat) returns (nUBucket: nat)
      requires NewOk(mapInfo, vvNew, {}) && nId in mapInfo && !mapInfo[nId].fInTried
      ensures nUBucket < |vvNew| && nId in vvNew[nUBucket]
    {
      assert exists b :: 0 <= b < |vvNew| && nId in vvNew[b] by { RefsZero(vvNew, nId); }
      ghost var b :| 0 <= b < |vvNew| && nId in vvNew[b];
      hide NewOk;
      var nRnd := GetRandInt(|vvNew|);
      ghost var k := if b >= nRnd then b - nRnd else b - nRnd + |vvNew|;
      assert (k + nRnd) % |vvNew| == b;
      var bucket: int := -1;
      var n := 0;
      while n < |vvNew|
        invariant 0 <= n <= k && bucket == -1
      {
        var nB := (n + nRnd) % |vvNew|;
        if nId in vvNew[nB] {
          bucket := nB;
          break;
        }
        n := n + 1;
      }
      nUBucket := bucket;
    }

    /** A connection to `addr` succeeded: the entry, if known under that very port, is in the tried
        table afterwards. Nothing is forgotten; at most one entry returns to the new tables. */
    method Good_(addr: CService, nTime: int) returns (ghost evicted: set<nat>)
      requires Valid()
      modifies this`mapInfo, this`vvNew, this`vvTried, this`nNew, this`nTried
      ensures Linked({}) && mapInfo.Keys == old(mapInfo).Keys
      ensures Valid() <==> (nTime > 0
        || !(addr.net in mapAddr && old(mapInfo)[mapAddr[addr.net]].addr.service == addr))
      ensures var known := addr.net in mapAddr && old(mapInfo)[mapAddr[addr.net]].addr.service == addr;
        if !known then mapInfo == old(mapInfo) && vvTried == old(vvTried) && vvNew == old(vvNew)
        else
          && mapInfo[mapAddr[addr.net]] == AsTried(Succeeded(old(mapInfo)[mapAddr[addr.net]], nTime))
          && SameBuckets(old(vvNew), vvNew, evicted + {mapAddr[addr.net]})
      ensures |evicted| <= 1 && evicted <= old(mapInfo).Keys
      ensures forall id :: id in evicted ==> old(mapInfo)[id].fInTried && mapInfo[id] == AsEvicted(old(mapInfo)[id])
      ensures forall id :: id in mapInfo && id !in evicted && (addr.net in mapAddr ==> id != mapAddr[addr.net]) ==>
        mapInfo[id] == old(mapInfo)[id]
    {
      hide RandomOk, AddrOk, NewOk, TriedOk, CountsOk, StatsOk, Removed, ReturnBucket, SameBuckets;
      evicted := {};
      var found, nId := Find(addr.net);
      if !found { return; }
      KnownAddr(addr.net);
      var info := mapInfo[nId];
      if info.addr.service != addr { return; }
      if info.fInTried { TriedUncounted(mapInfo, nId); }
      SameBucketsSelf(vvNew, {} + {nId});
      Touch(nId, Succeeded(info, nTime));
      if mapInfo[nId].fInTried {
        StatsAfter(old(mapInfo), mapInfo, nId, {}, nTime);
        return;
      }
      var nUBucket := FindBucket(nId);
      ghost var m0, vv0 := mapInfo, vvNew;
      evicted := MakeTried(nId, nUBucket);
      ElsewhereSame(vv0, vvNew, nId, evicted, m0, nUBucket);
      StatsAfter(old(mapInfo), mapInfo, nId, evicted, nTime);
    }

    /** The statistics after a success: possible ones exactly for a time after the epoch. */
    static lemma StatsAfter(m0: Infos, m: Infos, nId: nat, evicted: set<nat>, nTime: int)
      requires StatsOk(m0) && nId in m0 && m.Keys == m0.Keys && nId !in evicted
      requires m[nId] == AsTried(Succeeded(m0[nId], nTime))
      requires forall id :: id in evicted ==> id in m0 && m[id] == AsEvicted(m0[id])
      requires forall id :: id in m && id != nId && id !in evicted ==> m[id] == m0[id]
      ensures StatsOk(m) <==> nTime > 0
    {
      assert m[nId].fInTried && m[nId].nLastSuccess == nTime;
    }

    lemma KnownAddr(net: CNetAddr)
      requires AddrOk(mapInfo, mapAddr) && net in mapAddr
      ensures mapAddr[net] in mapInfo && mapInfo[mapAddr[net]].Net() == net
    {
    }

    lemma TriedUncounted(m: Infos, id: nat)
      requires TriedOk(P, m, vvTried) && id in m && m[id].fInTried
      ensures m[id].nRefCount == 0
    {
    }

    /** Put an untried entry into a new bucket it is not in; a full bucket gives up one id first. */
    method EnterBucket(nId: nat, nUBucket: nat, nNow: int) returns (ghost dropped: set<nat>)
      requires nId in mapInfo && !mapInfo[nId].fInTried && nUBucket < |vvNew| && nId !in vvNew[nUBucket]
      requires NewOk(mapInfo[nId := Counted(mapInfo[nId])], vvNew, {nId})
      requires RandomOk(mapInfo, vRandom) && AddrOk(mapInfo, mapAddr) && TriedOk(P, mapInfo, vvTried)
      requires CountsOk(mapInfo, nNew, nTried) && StatsOk(mapInfo) && forall id :: id in mapInfo ==> id < nIdCount
      modifies this`mapInfo, this`vRandom, this`mapAddr, this`nNew, this`vvNew
      ensures Valid()
      ensures vvNew == old(vvNew)[nUBucket := old(vvNew)[nUBucket] - dropped + {nId}]
      ensures dropped <= old(vvNew)[nUBucket] && |dropped| <= 1
      ensures dropped != {} <==> |old(vvNew)[nUBucket]| == NEW_BUCKET_SIZE
      ensures old(mapInfo).Keys - dropped <= mapInfo.Keys <= old(mapInfo).Keys
      ensures nId in mapInfo && mapInfo[nId] == Counted(old(mapInfo)[nId]).(nRandomPos := mapInfo[nId].nRandomPos)
      ensures forall id :: id in mapInfo && id != nId && id !in dropped ==>
        mapInfo[id] == old(mapInfo)[id].(nRandomPos := mapInfo[id].nRandomPos)
    {
      hide RandomOk, AddrOk, NewOk, TriedOk, StatsOk, NewIds, TriedIds, IsLeastRecent, CAddrInfo.IsTerrible;
      ghost var m0, vv0 := mapInfo, vvNew;
      ghost var m1 := m0[nId := Counted(m0[nId])];
      RefChange(P, m0, nId, m0[nId].nRefCount + 1, vRandom, mapAddr, vvTried);
      NewShape(m1, vvNew, {nId});
      mapInfo := mapInfo[nId := Counted(mapInfo[nId])];
      dropped := {};
      if |vvNew[nUBucket]| == NEW_BUCKET_SIZE {
        ghost var victim;
        var r;
        BucketKnown(m1, vvNew, {nId}, nUBucket);
        var draws := DrawFour(|vvNew[nUBucket]|);
        r, victim := ShrinkNew(nUBucket, nNow, draws, {nId});
        dropped := {victim};
      }
      assert vvNew[nUBucket] == vv0[nUBucket] - dropped;
      StillUntried(m1, mapInfo, nId);
      AddRef(mapInfo, vvNew, nUBucket, nId);
      vvNew := vvNew[nUBucket := vvNew[nUBucket] + {nId}];
    }

    lemma StillUntried(m1: Infos, m: Infos, id: nat)
      requires id in m1 && !m1[id].fInTried && id in m && m[id] == m1[id].(nRandomPos := m[id].nRandomPos)
      ensures !m[id].fInTried
    {
    }

    lemma BucketKnown(m: Infos, vv: seq<set<nat>>, pend: set<nat>, b: nat)
      requires NewOk(m, vv, pend) && b < |vv|
      ensures forall id :: id in vv[b] ==> id in m && !m[id].fInTried
    {
    }

    lemma NewShape(m: Infos, vv: seq<set<nat>>, pend: set<nat>)
      requires NewOk(m, vv, pend)
      ensures |vv| == NEW_BUCKET_COUNT && forall b :: 0 <= b < |vv| ==> |vv[b]| <= NEW_BUCKET_SIZE
    {
    }

    /** A new entry for an unknown address; it is in no bucket yet. */
    method Create(addr: CAddress, source: CNetAddr, nTimePenalty: int) returns (nId: nat)
      requires Valid() && addr.service.net !in mapAddr
      modifies this`mapInfo, this`mapAddr, this`vRandom, this`nIdCount, this`nNew
      ensures nId == old(nIdCount) && nId !in old(mapInfo)
      ensures RandomOk(mapInfo, vRandom) && AddrOk(mapInfo, mapAddr) && TriedOk(P, mapInfo, vvTried)
      ensures CountsOk(mapInfo, nNew, nTried) && StatsOk(mapInfo) && forall id :: id in mapInfo ==> id < nIdCount
      ensures mapInfo == old(mapInfo)[nId := Introduced(addr, source, nTimePenalty, |old(vRandom)|)]
      ensures NewOk(mapInfo[nId := Counted(mapInfo[nId])], vvNew, {nId})
      ensures forall b :: 0 <= b < |vvNew| ==> nId !in vvNew[b]
    {
      hide RandomOk, AddrOk, NewOk, TriedOk, NewIds, TriedIds;
      nId := nIdCount;
      assert nId !in mapInfo;
      var info := Introduced(addr, source, nTimePenalty, |vRandom|);
      CountFresh(mapInfo, vvNew, nId, info);
      CreatedRandom(mapInfo, nId, info, vRandom);
      CreatedAddr(mapInfo, nId, info, mapAddr);
      CreatedCounts(mapInfo, nId, info);
      TriedSkips(P, mapInfo, nId, info, vvTried);
      assert mapInfo[nId := info][nId := Counted(info)] == mapInfo[nId := Counted(info)];
      nIdCount := nIdCount + 1;
      mapInfo := mapInfo[nId := info];
      mapAddr := mapAddr[addr.service.net := nId];
      vRandom := vRandom + [nId];
      nNew := nNew + 1;
    }

    static function Introduced(addr: CAddress, source: CNetAddr, nTimePenalty: int, nPos: nat): (r: CAddrInfo)
      ensures r.addr.nTime == Lessened(addr.nTime, nTimePenalty)
    {
      CAddrInfo(addr.(nLastTry := 0, nTime := Max(0, addr.nTime - nTimePenalty)), source, 0, 0, 0, false, nPos)
    }

    static function Max(a: int, b: int): int { if a < b then b else a }

    /** A stored time is out of date: it is none, or more than a day plus the penalty behind the time
        told, or of an address seen within the last day more than an hour plus the penalty. */
    static predicate Behind(stored: int, told: int, nTimePenalty: int, nNow: int) {
      && told != 0
      && (stored == 0 || told - stored > 86400 + nTimePenalty || (told > nNow - 86400 && told - stored > 3600 + nTimePenalty))
    }

    static function Lessened(told: int, nTimePenalty: int): int { if told < nTimePenalty then 0 else told - nTimePenalty }

    /** An entry told again by a peer: when its time and services are refreshed. */
    static function Retold(info: CAddrInfo, addr: CAddress, nTimePenalty: int, nNow: int): (r: CAddrInfo)
      ensures r == info.(addr := info.addr.(nTime := r.addr.nTime, nServices := info.addr.nServices + addr.nServices))
      ensures r.addr.nTime == if Behind(info.addr.nTime, addr.nTime, nTimePenalty, nNow) then Lessened(addr.nTime, nTimePenalty) else info.addr.nTime
      ensures r.addr.nTime >= info.addr.nTime
    {
      var fCurrentlyOnline := nNow - addr.nTime < 24 * 60 * 60;
      var nUpdateInterval := if fCurrentlyOnline then 60 * 60 else 24 * 60 * 60;
      var nTime :=
        if addr.nTime != 0 && (info.addr.nTime == 0 || info.addr.nTime < addr.nTime - nUpdateInterval - nTimePenalty)
        then Max(0, addr.nTime - nTimePenalty) else info.addr.nTime;
      info.(addr := info.addr.(nTime := nTime, nServices := info.addr.nServices + addr.nServices))
    }

    /** Refresh a known entry and decide whether it may get one more reference. */
    method Retell(nId: nat, addr: CAddress, nTimePenalty: int, nNow: int) returns (fMore: bool)
      requires Valid() && nId in mapInfo
      modifies this`mapInfo
      ensures Valid() && mapInfo == old(mapInfo)[nId := Retold(old(mapInfo)[nId], addr, nTimePenalty, nNow)]
      ensures mapInfo.Keys == old(mapInfo).Keys
      ensures fMore ==> !mapInfo[nId].fInTried && mapInfo[nId].nRefCount < NEW_BUCKETS_PER_ADDRESS
      ensures fMore ==> addr.nTime != 0 && (mapInfo[nId].addr.nTime == 0 || addr.nTime > mapInfo[nId].addr.nTime)
    {
      hide RandomOk, AddrOk, NewOk, TriedOk, NewIds, TriedIds, CountsOk;
      Touch(nId, Retold(mapInfo[nId], addr, nTimePenalty, nNow));
      var info := mapInfo[nId];
      if addr.nTime == 0 || (info.addr.nTime != 0 && addr.nTime <= info.addr.nTime) { return false; }
      if info.fInTried { return false; }
      if info.nRefCount == NEW_BUCKETS_PER_ADDRESS { return false; }
      CountBounds(mapInfo, nId);
      var nFactor := 1;
      for n := 0 to info.nRefCount
        invariant nFactor >= 1
      {
        nFactor := nFactor * 2;
      }
      if nFactor > 1 {
        var nRnd := GetRandInt(nFactor);
        if nRnd != 0 { return false; }
      }
      return true;
    }

    lemma CountBounds(m: Infos, id: nat)
      requires NewOk(m, vvNew, {}) && id in m && !m[id].fInTried
      ensures 1 <= m[id].nRefCount <= NEW_BUCKETS_PER_ADDRESS
    {
    }

    /** The last part of Add_: a reference from the bucket the source selects. */
    method Place(nId: nat, source: CNetAddr, nNow: int) returns (ghost dropped: set<nat>)
      requires nId in mapInfo && !mapInfo[nId].fInTried
      requires Valid() || forall b :: 0 <= b < |vvNew| ==> nId !in vvNew[b]
      requires NewOk(mapInfo[nId := Counted(mapInfo[nId])], vvNew, {nId})
      requires RandomOk(mapInfo, vRandom) && AddrOk(mapInfo, mapAddr) && TriedOk(P, mapInfo, vvTried)
      requires CountsOk(mapInfo, nNew, nTried) && StatsOk(mapInfo) && forall id :: id in mapInfo ==> id < nIdCount
      modifies this`mapInfo, this`vRandom, this`mapAddr, this`nNew, this`vvNew
      ensures Valid()
      ensures |dropped| <= 1 && nId !in dropped && dropped <= old(mapInfo).Keys
      ensures forall id :: id in dropped ==> !old(mapInfo)[id].fInTried
      ensures var b := NewBucket(P, old(mapInfo)[nId], source);
        && b < |vvNew| == |old(vvNew)| && nId in vvNew[b]
        && (dropped != {} ==> dropped <= old(vvNew)[b] && |old(vvNew)[b]| == NEW_BUCKET_SIZE)
        && vvNew == old(vvNew)[b := old(vvNew)[b] - dropped + {nId}]
      ensures old(mapInfo).Keys - dropped <= mapInfo.Keys <= old(mapInfo).Keys
      ensures nId in mapInfo && (
        || mapInfo[nId] == old(mapInfo)[nId]
        || mapInfo[nId] == Counted(old(mapInfo)[nId]).(nRandomPos := mapInfo[nId].nRandomPos))
      ensures (forall b :: 0 <= b < |old(vvNew)| ==> nId !in old(vvNew)[b]) ==>
        mapInfo[nId] == Counted(old(mapInfo)[nId]).(nRandomPos := mapInfo[nId].nRandomPos)
      ensures forall id :: id in mapInfo && id != nId && id !in dropped ==>
        mapInfo[id] == old(mapInfo)[id].(nRandomPos := mapInfo[id].nRandomPos)
    {
      hide RandomOk, AddrOk, NewOk, TriedOk, CountsOk, StatsOk;
      dropped := {};
      var nUBucket := NewBucket(P, mapInfo[nId], source);
      ghost var m1 := mapInfo[nId := Counted(mapInfo[nId])];
      NewShape(m1, vvNew, {nId});
      BucketKnown(m1, vvNew, {nId}, nUBucket);
      if nId !in vvNew[nUBucket] {
        dropped := EnterBucket(nId, nUBucket, nNow);
      } else {
        assert vvNew[nUBucket] - {} + {nId} == vvNew[nUBucket];
      }
    }

    /** The bucket depends on the address and who tells of it only. */
    lemma SameNewBucket(info: CAddrInfo, info': CAddrInfo, source: CNetAddr)
      requires info'.Net() == info.Net()
      ensures NewBucket(P, info', source) == NewBucket(P, info, source)
    {
    }

    lemma IdOf(id: nat)
      requires AddrOk(mapInfo, mapAddr) && id in mapInfo
      ensures mapInfo[id].Net() in mapAddr && mapAddr[mapInfo[id].Net()] == id
    {
    }

    /** A peer at `source` tells of `addr`. The answer is whether the address was new. Afterwards a
        routable address is known; at most one other entry is forgotten, an untried one from a
        bucket that was full, and no other entry changes but for its place in vRandom. */
    method Add_(addr: CAddress, source: CNetAddr, nTimePenalty: int, nNow: int)
      returns (fNew: bool, ghost nId: nat, ghost dropped: set<nat>)
      requires Valid()
      modifies this`mapInfo, this`mapAddr, this`vRandom, this`nIdCount, this`nNew, this`vvNew
      ensures Valid()
      ensures fNew <==> P.routable(addr.service.net) && addr.service.net !in old(mapAddr)
      ensures !P.routable(addr.service.net) ==> mapInfo == old(mapInfo) && vvNew == old(vvNew) && dropped == {}
      ensures P.routable(addr.service.net) ==>
        && addr.service.net in mapAddr && mapAddr[addr.service.net] == nId && nId !in dropped
        && (if fNew then nId == old(nIdCount) && nId !in old(mapInfo) else nId in old(mapInfo) && nId == old(mapAddr)[addr.service.net])
      ensures |dropped| <= 1 && dropped <= old(mapInfo).Keys && forall id :: id in dropped ==> !old(mapInfo)[id].fInTried
      ensures dropped != {} ==>
        exists b :: 0 <= b < |old(vvNew)| && dropped <= old(vvNew)[b] && |old(vvNew)[b]| == NEW_BUCKET_SIZE
      ensures P.routable(addr.service.net) ==> (
        nId in mapInfo &&
        var b := NewBucket(P, mapInfo[nId], source);
        && (vvNew == old(vvNew) || (b < |old(vvNew)| && vvNew == old(vvNew)[b := old(vvNew)[b] - dropped + {nId}]))
        && (fNew ==> b < |vvNew| && nId in vvNew[b]))
      ensures old(mapInfo).Keys - dropped <= mapInfo.Keys <= old(mapInfo).Keys + (if fNew then {nId} else {})
      ensures fNew ==> (
        nId in mapInfo &&
        var info := mapInfo[nId];
        && info.addr == CAddress(addr.service, addr.nServices, Lessened(addr.nTime, nTimePenalty), 0) && info.source == source
        && info.nLastSuccess == 0 && info.nAttempts == 0 && info.nRefCount == 1 && !info.fInTried)
      ensures P.routable(addr.service.net) && !fNew ==> (
        nId in mapInfo && nId in old(mapInfo) &&
        var was, info := old(mapInfo)[nId], mapInfo[nId];
        && info.addr.nTime >= was.addr.nTime && info.addr.nServices == was.addr.nServices + addr.nServices
        && info.addr.nTime == (if Behind(was.addr.nTime, addr.nTime, nTimePenalty, nNow) then Lessened(addr.nTime, nTimePenalty) else was.addr.nTime)
        && info.addr == was.addr.(nTime := info.addr.nTime, nServices := info.addr.nServices)
        && (info.nRefCount == was.nRefCount || (info.nRefCount == was.nRefCount + 1 && addr.nTime != 0 && (info.addr.nTime == 0 || addr.nTime > info.addr.nTime)))
        && info == was.(addr := info.addr, nRefCount := info.nRefCount, nRandomPos := info.nRandomPos))
      ensures forall id :: id in mapInfo && id in old(mapInfo) && id !in dropped && id != nId ==>
        mapInfo[id] == old(mapInfo)[id].(nRandomPos := mapInfo[id].nRandomPos)
    {
      hide RandomOk, AddrOk, NewOk, TriedOk, CountsOk, StatsOk, Retold, NewBucket, TriedBucket, Max, Behind, Lessened;
      fNew, nId, dropped := false, 0, {};
      if !P.routable(addr.service.net) { return; }
      var found, known := Find(addr.service.net);
      nId := known;
      if found {
        var fMore := Retell(known, addr, nTimePenalty, nNow);
        if !fMore { return; }
        CountKnown(mapInfo, vvNew, known);
        ghost var info := mapInfo[known];
        dropped := Place(known, source, nNow);
        SameNewBucket(info, mapInfo[known], source);
      } else {
        var created := Create(addr, source, nTimePenalty);
        nId, fNew := created, true;
        ghost var info := mapInfo[created];
        dropped := Place(created, source, nNow);
        SameNewBucket(info, mapInfo[created], source);
      }
      IdOf(nId);
    }

    method Attempt_(addr: CService, nTime: int)
      requires Valid()
      modifies this`mapInfo
      ensures Linked({})
      ensures Valid() <==> (nTime >= 0
        || !(addr.net in mapAddr && old(mapInfo)[mapAddr[addr.net]].addr.service == addr))
      ensures var known := addr.net in mapAddr && old(mapInfo)[mapAddr[addr.net]].addr.service == addr;
        if !known then mapInfo == old(mapInfo)
        else var info := old(mapInfo)[mapAddr[addr.net]];
          mapInfo == old(mapInfo)[mapAddr[addr.net] :=
            info.(addr := info.addr.(nLastTry := nTime), nAttempts := info.nAttempts + 1)]
    {
      hide RandomOk, AddrOk, NewOk, TriedOk, CountsOk;
      var found, nId := Find(addr.net);
      if !found { return; }
      KnownAddr(addr.net);
      var info := mapInfo[nId];
      if info.addr.service != addr { return; }
      Touch(nId, info.(addr := info.addr.(nLastTry := nTime), nAttempts := info.nAttempts + 1));
    }

    method Connected_(addr: CService, nTime: int)
      requires Valid()
      modifies this`mapInfo
      ensures Valid()
      ensures var known := addr.net in mapAddr && old(mapInfo)[mapAddr[addr.net]].addr.service == addr;
        if known && nTime - old(mapInfo)[mapAddr[addr.net]].addr.nTime > 20 * 60 then
          var info := old(mapInfo)[mapAddr[addr.net]];
          mapInfo == old(mapInfo)[mapAddr[addr.net] := info.(addr := info.addr.(nTime := nTime))]
        else mapInfo == old(mapInfo)
    {
      hide RandomOk, AddrOk, NewOk, TriedOk, CountsOk;
      var found, nId := Find(addr.net);
      if !found { return; }
      KnownAddr(addr.net);
      var info := mapInfo[nId];
      if info.addr.service != addr { return; }
      if nTime - info.addr.nTime > 20 * 60 {
        Touch(nId, info.(addr := info.addr.(nTime := nTime)));
      }
    }

    /** A random sample of the addresses: as many as asked for, all different, all known. */
    method GetAddr_() returns (vAddr: seq<CAddress>)
      requires Valid()
      modifies this`mapInfo, this`vRandom
      ensures Valid() && SameButRandom(old(mapInfo), mapInfo)
      ensures |vAddr| == Min(GETADDR_MAX, GETADDR_MAX_PCT * |old(vRandom)| / 100)
      ensures forall i :: 0 <= i < |vAddr| ==>
        && vAddr[i].service.net in mapAddr && mapAddr[vAddr[i].service.net] in mapInfo
        && mapInfo[mapAddr[vAddr[i].service.net]].addr == vAddr[i]
      ensures forall i, j :: 0 <= i < j < |vAddr| ==> vAddr[i].service.net != vAddr[j].service.net
    {
      hide RandomOk, AddrOk, NewOk, TriedOk, CountsOk, StatsOk, SameButRandom;
      var nNodes := GETADDR_MAX_PCT * |vRandom| / 100;
      if nNodes > GETADDR_MAX { nNodes := GETADDR_MAX; }
      vAddr := [];
      AlikeSelf(mapInfo);
      for n := 0 to nNodes
        invariant Valid() && mapAddr == old(mapAddr) && |vRandom| == |old(vRandom)|
        invariant SameButRandom(old(mapInfo), mapInfo)
        invariant |vAddr| == n && forall i :: 0 <= i < n ==> vRandom[i] in old(mapInfo)
        invariant forall i :: 0 <= i < n ==> vAddr[i] == old(mapInfo)[vRandom[i]].addr
      {
        var addr := Draw(n);
        vAddr := vAddr + [addr];
        AlikeStep(old(mapInfo), mapInfo, vRandom[n]);
      }
      Sampled(old(mapInfo), vAddr);
    }

    static lemma AlikeSelf(m: Infos)
      ensures SameButRandom(m, m)
    {
    }

    static lemma AlikeStep(m: Infos, m': Infos, id: nat)
      requires SameButRandom(m, m') && id in m'
      ensures id in m && m'[id].addr == m[id].addr
    {
      assert id in m'.Keys;
    }

    /** One step of the shuffle: place `n` gets a random one of the remaining ids. */
    method Draw(n: nat) returns (addr: CAddress)
      requires Valid() && n < |vRandom|
      modifies this`mapInfo, this`vRandom
      ensures Valid() && |vRandom| == |old(vRandom)| && vRandom[..n] == old(vRandom)[..n]
      ensures forall m :: SameButRandom(m, old(mapInfo)) ==> SameButRandom(m, mapInfo)
      ensures vRandom[n] in mapInfo && addr == mapInfo[vRandom[n]].addr
    {
      hide AddrOk, NewOk, TriedOk, CountsOk, StatsOk, SwappedInfos, SameStructure;
      var nRnd := GetRandInt(|vRandom| - n);
      var nRndPos := nRnd + n;
      ghost var m0 := mapInfo;
      SwapRandom(n, nRndPos);
      OnlyMoved(m0);
      addr := mapInfo[vRandom[n]].addr;
    }

    lemma Sampled(m0: Infos, vAddr: seq<CAddress>)
      requires RandomOk(mapInfo, vRandom) && AddrOk(mapInfo, mapAddr) && SameButRandom(m0, mapInfo) && |vAddr| <= |vRandom|
      requires forall i :: 0 <= i < |vAddr| ==> vRandom[i] in m0 && vAddr[i] == m0[vRandom[i]].addr
      ensures forall i :: 0 <= i < |vAddr| ==>
        vAddr[i].service.net in mapAddr && mapAddr[vAddr[i].service.net] in mapInfo
        && mapInfo[mapAddr[vAddr[i].service.net]].addr == vAddr[i]
      ensures forall i, j :: 0 <= i < j < |vAddr| ==> vAddr[i].service.net != vAddr[j].service.net
    {
      hide AddrOk;
      forall i | 0 <= i < |vAddr|
        ensures vAddr[i].service.net in mapAddr && mapAddr[vAddr[i].service.net] == vRandom[i]
        ensures vRandom[i] in mapInfo && mapInfo[vRandom[i]].addr == vAddr[i]
      {
        assert vRandom[i] in mapInfo;
        IdOf(vRandom[i]);
      }
      forall i, j | 0 <= i < j < |vAddr| ensures vAddr[i].service.net != vAddr[j].service.net {
        assert vRandom[i] != vRandom[j];
      }
    }

    static function Min(a: int, b: int): int { if a < b then a else b }

    /** Moving entries about in vRandom disturbs no other table. */
    lemma OnlyMoved(m0: Infos)
      requires SameButRandom(m0, mapInfo) && SameStructure(m0, mapInfo)
      ensures AddrOk(m0, mapAddr) ==> AddrOk(mapInfo, mapAddr)
      ensures NewOk(m0, vvNew, {}) ==> NewOk(mapInfo, vvNew, {})
      ensures TriedOk(P, m0, vvTried) ==> TriedOk(P, mapInfo, vvTried)
      ensures CountsOk(m0, nNew, nTried) ==> CountsOk(mapInfo, nNew, nTried)
      ensures StatsOk(m0) ==> StatsOk(mapInfo)
      ensures (forall id :: id in m0 ==> id < nIdCount) ==> forall id :: id in mapInfo ==> id < nIdCount
    {
      hide AddrOk, NewOk, TriedOk;
      SameTables(P, m0, mapInfo, mapAddr, vvNew, vvTried, {});
      forall id | id in mapInfo && StatsOk(m0)
        ensures mapInfo[id].addr.nLastTry >= 0 && mapInfo[id].nLastSuccess >= 0 && (mapInfo[id].fInTried ==> mapInfo[id].nLastSuccess != 0)
      {
        assert id in m0.Keys;
      }
    }

    /** Forget a tried entry. */
    method DeleteTried_(nId: nat)
      requires Valid() && nId in mapInfo && mapInfo[nId].fInTried
      modifies this`mapInfo, this`mapAddr, this`vRandom, this`vvTried, this`nTried
      ensures Valid() && mapInfo.Keys == old(mapInfo).Keys - {nId} && SameButRandom(old(mapInfo) - {nId}, mapInfo)
    {
      hide RandomOk, AddrOk, NewOk, TriedOk, StatsOk, SameButRandom, SameStructure, NewIds, TriedIds, Distinct;
      ghost var m0, vv0 := mapInfo, vvTried;
      var nKBucket := TriedBucket(P, mapInfo[nId]);
      TriedShape(m0, vvTried, nKBucket);
      InOwnBucket(m0, vvTried, nId);
      var vTried := vvTried[nKBucket];
      ghost var at :| 0 <= at < |vTried| && vTried[at] == nId;
      var it := 0;
      while it < |vTried| && vTried[it] != nId
        invariant 0 <= it <= at
      {
        it := it + 1;
      }
      EraseFromTried(P, m0, vv0, nId, it);
      EraseTriedKeepsNew(m0, vvNew, nId);
      EraseCounts(m0, nId);
      vvTried := vvTried[nKBucket := Without(vTried, it)];
      nTried := nTried - 1;
      EraseEntry(nId);
      Erased(m0, nId, vvTried, vvNew, {});
    }

    lemma InOwnBucket(m: Infos, vv: seq<seq<nat>>, id: nat)
      requires TriedOk(P, m, vv) && id in m && m[id].fInTried
      ensures id in vv[TriedBucket(P, m[id])]
    {
    }

    /** Forget an untried entry and every reference to it. */
    method DeleteNew_(nId: nat)
      requires Valid() && nId in mapInfo && !mapInfo[nId].fInTried
      modifies this`mapInfo, this`mapAddr, this`vRandom, this`vvNew, this`nNew
      ensures Valid() && mapInfo.Keys == old(mapInfo).Keys - {nId} && SameButRandom(old(mapInfo) - {nId}, mapInfo)
      ensures vvNew == Removed(old(vvNew), nId)
    {
      hide RandomOk, AddrOk, NewOk, TriedOk, StatsOk, SameButRandom, SameStructure, NewIds, TriedIds, Removed;
      ghost var m0, vv0 := mapInfo, vvNew;
      LeaveNew(m0, vv0, nId);
      EraseTriedKeepsNew(m0[nId := AsTried(m0[nId])], Removed(vv0, nId), nId);
      SameLess(m0, nId, AsTried(m0[nId]));
      EraseKeepsTried(P, m0, vvTried, nId);
      EraseCounts(m0, nId);
      LeaveNewBuckets(nId);
      ghost var m1 := mapInfo;
      RefChange(P, m0, nId, 0, vRandom, mapAddr, vvTried);
      SameLess(m0, nId, m1[nId]);
      EraseEntry(nId);
      Erased(m1, nId, vvTried, vvNew, {});
      nNew := nNew - 1;
    }

    /** Delete the listed entries, tried or not. */
    method RemoveAll(vToRemove: set<nat>) returns (nRemoved: nat)
      requires Valid() && vToRemove <= mapInfo.Keys
      modifies this
      ensures P == old(P) && Valid() && nRemoved == |vToRemove|
      ensures mapInfo.Keys == old(mapInfo).Keys - vToRemove && SameButRandom(old(mapInfo) - vToRemove, mapInfo)
      ensures SameBuckets(old(vvNew), vvNew, vToRemove)
    {
      hide RandomOk, AddrOk, NewOk, TriedOk, StatsOk, CountsOk;
      nRemoved := 0;
      ghost var m0 := mapInfo;
      var todo := vToRemove;
      assert m0 - {} == m0;
      while todo != {}
        invariant P == old(P) && Valid() && todo <= vToRemove && nRemoved == |vToRemove| - |todo|
        invariant mapInfo.Keys == m0.Keys - (vToRemove - todo) && SameButRandom(m0 - (vToRemove - todo), mapInfo)
        invariant SameBuckets(old(vvNew), vvNew, vToRemove)
        decreases todo
      {
        var nId := Least(todo);
        if mapInfo[nId].fInTried {
          DeleteTried_(nId);
        } else {
          DeleteNew_(nId);
        }
        todo := todo - {nId};
        nRemoved := nRemoved + 1;
      }
    }

    /** Exactly the entries of unsupported networks go. */
    method CleanupUnsupported(fIsUnsupported: CNetAddr -> bool) returns (nRemoved: nat)
      requires Valid()
      modifies this
      ensures P == old(P) && Valid()
      ensures forall id :: id in mapInfo <==> id in old(mapInfo) && !fIsUnsupported(old(mapInfo)[id].Net())
      ensures nRemoved == |old(mapInfo)| - |mapInfo|
      ensures forall id :: id in mapInfo ==> mapInfo[id] == old(mapInfo)[id].(nRandomPos := mapInfo[id].nRandomPos)
      ensures SameBuckets(old(vvNew), vvNew, old(mapInfo).Keys - mapInfo.Keys)
    {
      hide RandomOk, AddrOk, NewOk, TriedOk, StatsOk, CountsOk, SameBuckets;
      ghost var m0 := mapInfo;
      var vToRemove := set id | id in mapInfo && fIsUnsupported(mapInfo[id].Net());
      nRemoved := RemoveAll(vToRemove);
      Removals(m0, vToRemove);
      assert m0.Keys - mapInfo.Keys == vToRemove;
    }

    /** Exactly the terrible entries go. */
    method PruneTerrible(nNow: int) returns (nRemoved: nat)
      requires Valid()
      modifies this
      ensures P == old(P) && Valid()
      ensures forall id :: id in mapInfo <==> id in old(mapInfo) && !old(mapInfo)[id].IsTerrible(nNow)
      ensures nRemoved == |old(mapInfo)| - |mapInfo|
      ensures forall id :: id in mapInfo ==> mapInfo[id] == old(mapInfo)[id].(nRandomPos := mapInfo[id].nRandomPos)
      ensures SameBuckets(old(vvNew), vvNew, old(mapInfo).Keys - mapInfo.Keys)
    {
      hide RandomOk, AddrOk, NewOk, TriedOk, StatsOk, CountsOk, SameBuckets;
      ghost var m0 := mapInfo;
      var vToRemove := set id | id in mapInfo && mapInfo[id].IsTerrible(nNow);
      nRemoved := RemoveAll(vToRemove);
      Removals(m0, vToRemove);
      assert m0.Keys - mapInfo.Keys == vToRemove;
    }

    lemma Removals(m0: Infos, gone: set<nat>)
      requires gone <= m0.Keys && mapInfo.Keys == m0.Keys - gone && SameButRandom(m0 - gone, mapInfo)
      ensures |gone| == |m0| - |mapInfo|
      ensures forall id :: id in mapInfo <==> id in m0 && id !in gone
      ensures forall id :: id in mapInfo ==> mapInfo[id] == m0[id].(nRandomPos := mapInfo[id].nRandomPos)
    {
      assert |m0| == |m0.Keys| && |mapInfo| == |mapInfo.Keys|;
      forall id ensures id in mapInfo <==> id in m0 && id !in gone {
        assert id in mapInfo <==> id in mapInfo.Keys;
      }
    }

    lemma EvictResult(m0: Infos, m: Infos, id: nat, old_: nat)
      requires id in m0 && old_ in m0 && id != old_ && !m0[id].fInTried && m0[old_].fInTried
      requires m == EvictSteps(m0, id, old_)
      ensures m == m0[old_ := AsEvicted(m0[old_])][id := AsTried(m0[id])]
      ensures m == m0[id := AsTried(m0[id])][old_ := AsEvicted(m0[old_])]
      ensures m.Keys == m0.Keys && m[id] == AsTried(m0[id]) && m[old_] == AsEvicted(m0[old_])
      ensures forall x :: x in m && x != id && x != old_ ==> m[x] == m0[x]
      ensures |NewIds(m)| == |NewIds(m0)| && |TriedIds(m)| == |TriedIds(m0)|
      ensures RandomOk(m0, vRandom) ==> RandomOk(m, vRandom)
      ensures AddrOk(m0, mapAddr) ==> AddrOk(m, mapAddr)
    {
      hide RandomOk, AddrOk, NewIds, TriedIds;
      Exchange(m0, id, old_);
      assert m == m0[old_ := AsEvicted(m0[old_])][id := AsTried(m0[id])];
      Restructured(m0, m);
    }

    /** The four assignments of an eviction, in the code's order. */
    static function EvictSteps(m0: Infos, id: nat, old_: nat): Infos
      requires id in m0 && old_ in m0 && id != old_
    {
      var m1 := m0[id := m0[id].(nRefCount := 0)];
      var m2 := m1[old_ := m1[old_].(fInTried := false)];
      var m3 := m2[old_ := m2[old_].(nRefCount := 1)];
      m3[id := m3[id].(fInTried := true)]
    }

    lemma TriedShape(m: Infos, vv: seq<seq<nat>>, k: nat)
      requires TriedOk(P, m, vv) && k < TRIED_BUCKET_COUNT
      ensures |vv| == TRIED_BUCKET_COUNT && |vv[k]| <= TRIED_BUCKET_SIZE && Distinct(vv[k])
      ensures forall i :: 0 <= i < |vv[k]| ==> vv[k][i] in m && m[vv[k][i]].fInTried && TriedBucket(P, m[vv[k][i]]) == k
    {
    }

    /** The bucket the entry came from has room once the entry has left. */
    lemma OriginRoom(m: Infos, vv: seq<set<nat>>, id: nat, b: nat)
      requires NewOk(m, vv, {}) && b < |vv| && id in vv[b]
      ensures |Removed(vv, id)| == |vv| && |Removed(vv, id)[b]| < NEW_BUCKET_SIZE
    {
      assert |vv[b]| <= NEW_BUCKET_SIZE;
    }

    /** vRandom and mapAddr do not depend on which table an entry is in. */
    lemma Restructured(m: Infos, m': Infos)
      requires m.Keys == m'.Keys
      requires forall id :: id in m ==> m'[id] == m[id] || m'[id] == AsEvicted(m[id]) || m'[id] == AsTried(m[id])
      ensures RandomOk(m, vRandom) ==> RandomOk(m', vRandom)
      ensures AddrOk(m, mapAddr) ==> AddrOk(m', mapAddr)
    {
      if RandomOk(m, vRandom) { SameRandom(m, m', vRandom); }
      if AddrOk(m, mapAddr) { AddrSame(m, m', mapAddr); }
    }

    lemma Exchange(m: Infos, id: nat, old_: nat)
      requires id in m && old_ in m && id != old_ && !m[id].fInTried && m[old_].fInTried
      ensures var m' := m[old_ := AsEvicted(m[old_])][id := AsTried(m[id])];
        && m' == m[id := AsTried(m[id])][old_ := AsEvicted(m[old_])]
        && |NewIds(m')| == |NewIds(m)| && |TriedIds(m')| == |TriedIds(m)|
    {
      ToNewCounts(m, old_);
      ToTriedCounts(m[old_ := AsEvicted(m[old_])], id);
    }
  }
}
