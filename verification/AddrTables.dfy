/**
 The tables of the stochastic address manager (src/addrman.h CAddrInfo, CAddrMan) as values, the
 invariant its consistency check spells out, and what each elementary change does to it.
 */
module AddrTables {

  const TRIED_BUCKET_COUNT := 64
  const TRIED_BUCKET_SIZE := 64
  const NEW_BUCKET_COUNT := 256
  const NEW_BUCKET_SIZE := 64
  const NEW_BUCKETS_PER_ADDRESS := 4
  const TRIED_ENTRIES_INSPECT_ON_EVICT := 4
  const HORIZON_DAYS := 30
  const RETRIES := 3
  const MAX_FAILURES := 10
  const MIN_FAIL_DAYS := 7
  const GETADDR_MAX_PCT := 23
  const GETADDR_MAX := 2500

  type CNetAddr = nat

  datatype CService = CService(net: CNetAddr, port: nat)

  /** nServices is the set of the service bits that are on. */
  datatype CAddress = CAddress(service: CService, nServices: set<nat>, nTime: int, nLastTry: int)

  /** nRefCount, fInTried and nRandomPos exist in memory only. */
  datatype CAddrInfo = CAddrInfo(
    addr: CAddress, source: CNetAddr, nLastSuccess: int, nAttempts: int,
    nRefCount: int, fInTried: bool, nRandomPos: int)
  {
    function Net(): CNetAddr { addr.service.net }

    predicate IsTerrible(nNow: int) {
      if addr.nLastTry != 0 && addr.nLastTry >= nNow - 60 then false
      else
        || addr.nTime > nNow + 10 * 60
        || addr.nTime == 0 || nNow - addr.nTime > HORIZON_DAYS * 86400
        || (nLastSuccess == 0 && nAttempts >= RETRIES)
        || (nNow - nLastSuccess > MIN_FAIL_DAYS * 86400 && nAttempts >= MAX_FAILURES)
    }
  }

  /** An entry tried within the last minute is never terrible. One of which nothing was heard within 30 days,
      or that claims to be from the future, is; of the others those that never answered are from the
      third attempt on, and those that answered from the tenth on, once that is a week ago. */
  lemma TerribleCases(info: CAddrInfo, nNow: int)
    ensures info.addr.nLastTry != 0 && info.addr.nLastTry + 60 >= nNow ==> !info.IsTerrible(nNow)
    ensures info.addr.nLastTry == 0 || info.addr.nLastTry + 60 < nNow ==> (
      var known := info.addr.nTime != 0 && info.addr.nTime - 600 <= nNow <= info.addr.nTime + 2_592_000;
      && (!known ==> info.IsTerrible(nNow))
      && (known && info.nLastSuccess == 0 ==> (info.IsTerrible(nNow) <==> info.nAttempts >= 3))
      && (known && info.nLastSuccess != 0 ==> (info.IsTerrible(nNow) <==> info.nAttempts >= 10 && nNow > info.nLastSuccess + 604_800)))
  {
  }

  type Key = nat

  /** The secret key, the bucket hashes it enters, and the routability test. */
  datatype Hashing = Hashing(nKey: Key, tried: (Key, CService) -> nat, untried: (Key, CNetAddr, CNetAddr) -> nat,
    routable: CNetAddr -> bool)

  function TriedBucket(P: Hashing, info: CAddrInfo): (k: nat)
    ensures k < TRIED_BUCKET_COUNT
  {
    P.tried(P.nKey, info.addr.service) % TRIED_BUCKET_COUNT
  }

  function NewBucket(P: Hashing, info: CAddrInfo, source: CNetAddr): (b: nat)
    ensures b < NEW_BUCKET_COUNT
  {
    P.untried(P.nKey, info.Net(), source) % NEW_BUCKET_COUNT
  }

  type Infos = map<nat, CAddrInfo>

  /** In how many new buckets an id occurs. */
  function Refs(vvNew: seq<set<nat>>, id: nat): nat {
    if vvNew == [] then 0
    else Refs(vvNew[..|vvNew|-1], id) + if id in vvNew[|vvNew|-1] then 1 else 0
  }

  lemma {:induction false} RefsUpdate(vv: seq<set<nat>>, b: nat, s: set<nat>, id: nat)
    requires b < |vv|
    ensures Refs(vv[b := s], id) == Refs(vv, id) - (if id in vv[b] then 1 else 0) + (if id in s then 1 else 0)
    decreases |vv|
  {
    var m := |vv| - 1;
    if b < m {
      assert vv[b := s][..m] == vv[..m][b := s];
      RefsUpdate(vv[..m], b, s, id);
    } else {
      assert vv[b := s][..m] == vv[..m];
    }
  }

  lemma {:induction false} RefsZero(vv: seq<set<nat>>, id: nat)
    ensures Refs(vv, id) == 0 <==> forall b :: 0 <= b < |vv| ==> id !in vv[b]
    decreases |vv|
  {
    if vv != [] {
      var m := |vv| - 1;
      RefsZero(vv[..m], id);
      if forall b :: 0 <= b < m ==> id !in vv[..m][b] {
        assert forall b :: 0 <= b < m ==> id !in vv[b];
      } else {
        var b :| 0 <= b < m && id in vv[..m][b];
        assert id in vv[b];
      }
    }
  }

  // ----- the invariant, one table at a time -------------------------------------------------------

  /** vRandom lists every id once, and every entry knows its place in it. */
  predicate RandomOk(m: Infos, v: seq<nat>) {
    && |v| == |m|
    && (forall i :: 0 <= i < |v| ==> v[i] in m && m[v[i]].nRandomPos == i)
    && (forall id :: id in m ==> 0 <= m[id].nRandomPos < |v| && v[m[id].nRandomPos] == id)
  }

  /** mapAddr is the inverse of "the address of". */
  predicate AddrOk(m: Infos, a: map<CNetAddr, nat>) {
    && (forall id :: id in m ==> m[id].Net() in a && a[m[id].Net()] == id)
    && (forall n :: n in a ==> a[n] in m && m[a[n]].Net() == n)
  }

  /** New buckets hold untried entries; each is counted as often as it occurs, one to four times.
      An id in `pend` is counted once more than it occurs. */
  predicate NewOk(m: Infos, vv: seq<set<nat>>, pend: set<nat>) {
    && |vv| == NEW_BUCKET_COUNT
    && (forall b :: 0 <= b < |vv| ==> |vv[b]| <= NEW_BUCKET_SIZE)
    && (forall b, id :: 0 <= b < |vv| && id in vv[b] ==> id in m && !m[id].fInTried)
    && (forall id :: id in m && !m[id].fInTried ==>
          && m[id].nRefCount == Refs(vv, id) + (if id in pend then 1 else 0)
          && 1 <= m[id].nRefCount <= NEW_BUCKETS_PER_ADDRESS)
  }

  /** Each tried entry is in its own tried bucket, once, and in no new bucket. */
  predicate TriedOk(P: Hashing, m: Infos, vv: seq<seq<nat>>) {
    && |vv| == TRIED_BUCKET_COUNT
    && (forall k :: 0 <= k < |vv| ==> |vv[k]| <= TRIED_BUCKET_SIZE)
    && (forall k, i :: 0 <= k < |vv| && 0 <= i < |vv[k]| ==>
          vv[k][i] in m && m[vv[k][i]].fInTried && TriedBucket(P, m[vv[k][i]]) == k)
    && (forall k, i, j :: 0 <= k < |vv| && 0 <= i < j < |vv[k]| ==> vv[k][i] != vv[k][j])
    && (forall id :: id in m && m[id].fInTried ==> m[id].nRefCount == 0 && id in vv[TriedBucket(P, m[id])])
  }

  function TriedIds(m: Infos): set<nat> { set id | id in m && m[id].fInTried }

  function NewIds(m: Infos): set<nat> { set id | id in m && !m[id].fInTried }

  predicate CountsOk(m: Infos, nNew: int, nTried: int) { nNew == |NewIds(m)| && nTried == |TriedIds(m)| }

  /** The statistics the check looks at. */
  predicate StatsOk(m: Infos) {
    forall id :: id in m ==>
      && m[id].addr.nLastTry >= 0 && m[id].nLastSuccess >= 0
      && (m[id].fInTried ==> m[id].nLastSuccess != 0)
  }

  // ----- entries that differ in what the tables do not look at -----------------------------------------

  predicate Alike(x: CAddrInfo, y: CAddrInfo) {
    x.addr.service == y.addr.service && x.nRefCount == y.nRefCount && x.fInTried == y.fInTried
  }

  predicate SameStructure(m: Infos, m': Infos) {
    m.Keys == m'.Keys && forall id :: id in m ==> Alike(m[id], m'[id])
  }

  /** Same entries up to their place in vRandom. */
  predicate SameButRandom(m: Infos, m': Infos) {
    m.Keys == m'.Keys && forall id :: id in m ==> m'[id] == m[id].(nRandomPos := m'[id].nRandomPos)
  }

  /** The tables, except for vRandom, cannot tell such entries apart. */
  lemma SameTables(P: Hashing, m: Infos, m': Infos, a: map<CNetAddr, nat>, vvNew: seq<set<nat>>, vvTried: seq<seq<nat>>, pend: set<nat>)
    requires SameStructure(m, m')
    ensures AddrOk(m, a) ==> AddrOk(m', a)
    ensures NewOk(m, vvNew, pend) ==> NewOk(m', vvNew, pend)
    ensures TriedOk(P, m, vvTried) ==> TriedOk(P, m', vvTried)
    ensures NewIds(m) == NewIds(m') && TriedIds(m) == TriedIds(m')
  {
    forall id
      ensures id in m <==> id in m'
      ensures id in m ==> Alike(m[id], m'[id]) && TriedBucket(P, m[id]) == TriedBucket(P, m'[id])
    {
      assert id in m <==> id in m.Keys;
    }
    if TriedOk(P, m, vvTried) {
      forall k, i | 0 <= k < |vvTried| && 0 <= i < |vvTried[k]|
        ensures vvTried[k][i] in m' && m'[vvTried[k][i]].fInTried && TriedBucket(P, m'[vvTried[k][i]]) == k
      {
        assert vvTried[k][i] in m;
      }
    }
    assert forall id :: id in NewIds(m) <==> id in NewIds(m');
    assert forall id :: id in TriedIds(m) <==> id in TriedIds(m');
  }

  lemma SameRandom(m: Infos, m': Infos, v: seq<nat>)
    requires m.Keys == m'.Keys && forall id :: id in m ==> m'[id].nRandomPos == m[id].nRandomPos
    requires RandomOk(m, v)
    ensures RandomOk(m', v)
  {
    assert |m| == |m.Keys| == |m'.Keys| == |m'|;
    forall i | 0 <= i < |v| ensures v[i] in m' && m'[v[i]].nRandomPos == i {
      var id := v[i];
      assert id in m && m[id].nRandomPos == i;
      assert id in m'.Keys;
    }
  }

  // ----- elementary changes -------------------------------------------------------------------------

  /** SwapRandom on values. */
  function Swapped(v: seq<nat>, i: nat, j: nat): seq<nat>
    requires i < |v| && j < |v|
  {
    v[i := v[j]][j := v[i]]
  }

  function SwappedInfos(m: Infos, v: seq<nat>, i: nat, j: nat): Infos
    requires i < |v| && j < |v| && v[i] in m && v[j] in m
  {
    if i == j then m
    else
      var m1 := m[v[i] := m[v[i]].(nRandomPos := j)];
      m1[v[j] := m1[v[j]].(nRandomPos := i)]
  }

  lemma SwapKeepsRandom(m: Infos, v: seq<nat>, i: nat, j: nat)
    requires RandomOk(m, v) && i < |v| && j < |v|
    ensures RandomOk(SwappedInfos(m, v, i, j), Swapped(v, i, j))
    ensures SameButRandom(m, SwappedInfos(m, v, i, j)) && SameStructure(m, SwappedInfos(m, v, i, j))
  {
    var m' := SwappedInfos(m, v, i, j);
    if i != j { assert v[i] != v[j]; }
    assert m'.Keys == m.Keys;
    assert |m'| == |m'.Keys| == |m.Keys| == |m|;
  }

  lemma PlaceOf(m: Infos, v: seq<nat>, id: nat)
    requires RandomOk(m, v) && id in m
    ensures 0 <= m[id].nRandomPos < |v| && v[m[id].nRandomPos] == id
    ensures Swapped(v, m[id].nRandomPos, |v| - 1)[|v| - 1] == id
  {
  }

  /** Dropping the last place of vRandom together with its entry. */
  lemma PopKeepsRandom(m: Infos, v: seq<nat>)
    requires RandomOk(m, v) && |v| > 0
    ensures RandomOk(m - {v[|v|-1]}, v[..|v|-1])
  {
    var last := v[|v|-1];
    assert (m - {last}).Keys == m.Keys - {last};
    assert |m - {last}| == |(m - {last}).Keys| == |m| - 1;
    forall i | 0 <= i < |v| - 1 ensures v[i] != last { assert m[v[i]].nRandomPos == i; }
  }

  lemma EraseKeepsAddr(m: Infos, a: map<CNetAddr, nat>, id: nat)
    requires AddrOk(m, a) && id in m
    ensures AddrOk(m - {id}, a - {m[id].Net()})
  {
  }

  lemma EraseSame(m: Infos, m': Infos, id: nat)
    requires SameButRandom(m, m') && SameStructure(m, m')
    ensures SameButRandom(m - {id}, m' - {id}) && SameStructure(m - {id}, m' - {id})
  {
    assert (m - {id}).Keys == m.Keys - {id} && (m' - {id}).Keys == m'.Keys - {id};
  }

  /** An entry that is in no new bucket any more. */
  lemma EraseKeepsNew(m: Infos, vv: seq<set<nat>>, pend: set<nat>, id: nat)
    requires id in m && id !in pend && |vv| == NEW_BUCKET_COUNT
    requires forall b :: 0 <= b < |vv| ==> id !in vv[b] && |vv[b]| <= NEW_BUCKET_SIZE
    requires forall b, x :: 0 <= b < |vv| && x in vv[b] ==> x in m && !m[x].fInTried
    requires forall x :: x in m && x != id && !m[x].fInTried ==>
      m[x].nRefCount == Refs(vv, x) + (if x in pend then 1 else 0) && 1 <= m[x].nRefCount <= NEW_BUCKETS_PER_ADDRESS
    ensures NewOk(m - {id}, vv, pend)
  {
  }

  lemma EraseKeepsTried(P: Hashing, m: Infos, vv: seq<seq<nat>>, id: nat)
    requires TriedOk(P, m, vv) && id in m && !m[id].fInTried
    ensures TriedOk(P, m - {id}, vv)
  {
  }

  lemma EraseCounts(m: Infos, id: nat)
    requires id in m
    ensures |NewIds(m - {id})| == |NewIds(m)| - (if m[id].fInTried then 0 else 1)
    ensures |TriedIds(m - {id})| == |TriedIds(m)| - (if m[id].fInTried then 1 else 0)
  {
    assert NewIds(m - {id}) == NewIds(m) - {id};
    assert TriedIds(m - {id}) == TriedIds(m) - {id};
  }

  /** One reference less: the id leaves bucket `b`. */
  lemma DropRef(m: Infos, vv: seq<set<nat>>, pend: set<nat>, b: nat, id: nat)
    requires NewOk(m, vv, pend) && b < |vv| && id in vv[b] && id !in pend
    ensures var m', vv' := m[id := m[id].(nRefCount := m[id].nRefCount - 1)], vv[b := vv[b] - {id}];
      && (m'[id].nRefCount > 0 ==> NewOk(m', vv', pend))
      && (m'[id].nRefCount == 0 ==> NewOk(m' - {id}, vv', pend))
      && Refs(vv', id) == m'[id].nRefCount
  {
    var m', vv' := m[id := m[id].(nRefCount := m[id].nRefCount - 1)], vv[b := vv[b] - {id}];
    forall x ensures Refs(vv', x) == Refs(vv, x) - (if x == id then 1 else 0) {
      RefsUpdate(vv, b, vv[b] - {id}, x);
    }
    RefsZero(vv', id);
    forall c | 0 <= c < |vv'| ensures |vv'[c]| <= NEW_BUCKET_SIZE {}
    if m'[id].nRefCount == 0 { EraseKeepsNew(m', vv', pend, id); }
  }

  /** The pending reference is filled in. */
  lemma AddRef(m: Infos, vv: seq<set<nat>>, b: nat, id: nat)
    requires NewOk(m, vv, {id}) && b < |vv| && id in m && !m[id].fInTried && id !in vv[b] && |vv[b]| < NEW_BUCKET_SIZE
    ensures NewOk(m, vv[b := vv[b] + {id}], {})
  {
    forall x ensures Refs(vv[b := vv[b] + {id}], x) == Refs(vv, x) + (if x == id then 1 else 0) {
      RefsUpdate(vv, b, vv[b] + {id}, x);
    }
  }

  /** The tried table does not look at untried entries. */
  lemma TriedSkips(P: Hashing, m: Infos, id: nat, info: CAddrInfo, vvTried: seq<seq<nat>>)
    requires TriedOk(P, m, vvTried) && (id in m ==> !m[id].fInTried) && !info.fInTried
    ensures TriedOk(P, m[id := info], vvTried)
  {
    hide TriedBucket;
    forall k, i | 0 <= k < |vvTried| && 0 <= i < |vvTried[k]|
      ensures vvTried[k][i] in m && vvTried[k][i] != id && m[vvTried[k][i]].fInTried && TriedBucket(P, m[vvTried[k][i]]) == k
    {
      var x := vvTried[k][i];
      assert x in m && m[x].fInTried;
    }
  }

  /** Changing the reference count of an untried entry touches no table but the new one. */
  lemma RefChange(P: Hashing, m: Infos, id: nat, n: int, v: seq<nat>, a: map<CNetAddr, nat>, vvTried: seq<seq<nat>>)
    requires id in m && !m[id].fInTried
    ensures var m' := m[id := m[id].(nRefCount := n)];
      && (RandomOk(m, v) ==> RandomOk(m', v)) && (AddrOk(m, a) ==> AddrOk(m', a))
      && (TriedOk(P, m, vvTried) ==> TriedOk(P, m', vvTried)) && (StatsOk(m) ==> StatsOk(m'))
      && NewIds(m') == NewIds(m) && TriedIds(m') == TriedIds(m) && m'.Keys == m.Keys
  {
    hide RandomOk, AddrOk, TriedOk;
    var m' := m[id := m[id].(nRefCount := n)];
    assert m'.Keys == m.Keys;
    if RandomOk(m, v) { SameRandom(m, m', v); }
    if AddrOk(m, a) { AddrSame(m, m', a); }
    if TriedOk(P, m, vvTried) { TriedSkips(P, m, id, m'[id], vvTried); }
    assert forall x :: x in NewIds(m) <==> x in NewIds(m');
    assert forall x :: x in TriedIds(m) <==> x in TriedIds(m');
  }

  /** Entries that differ in statistics only. */
  predicate SameKeys(x: CAddrInfo, y: CAddrInfo) { Alike(x, y) && x.nRandomPos == y.nRandomPos }

  predicate GoodStats(info: CAddrInfo) {
    info.addr.nLastTry >= 0 && info.nLastSuccess >= 0 && (info.fInTried ==> info.nLastSuccess != 0)
  }

  /** Rewriting the statistics of an entry touches no table. */
  lemma Touched(P: Hashing, m: Infos, id: nat, info: CAddrInfo, v: seq<nat>, a: map<CNetAddr, nat>,
                vvNew: seq<set<nat>>, vvTried: seq<seq<nat>>)
    requires id in m && SameKeys(m[id], info)
    ensures var m' := m[id := info];
      && (RandomOk(m, v) ==> RandomOk(m', v)) && (AddrOk(m, a) ==> AddrOk(m', a))
      && (NewOk(m, vvNew, {}) ==> NewOk(m', vvNew, {})) && (TriedOk(P, m, vvTried) ==> TriedOk(P, m', vvTried))
      && (StatsOk(m) && GoodStats(info) ==> StatsOk(m'))
      && NewIds(m') == NewIds(m) && TriedIds(m') == TriedIds(m) && m'.Keys == m.Keys
  {
    hide RandomOk, AddrOk, NewOk, TriedOk, NewIds, TriedIds;
    var m' := m[id := info];
    assert m'.Keys == m.Keys;
    if RandomOk(m, v) { SameRandom(m, m', v); }
    SameTables(P, m, m', a, vvNew, vvTried, {});
  }

  /** One reference more, not filled in yet. */
  function Counted(info: CAddrInfo): CAddrInfo { info.(nRefCount := info.nRefCount + 1) }

  lemma CountKnown(m: Infos, vv: seq<set<nat>>, id: nat)
    requires NewOk(m, vv, {}) && id in m && !m[id].fInTried && m[id].nRefCount < NEW_BUCKETS_PER_ADDRESS
    ensures NewOk(m[id := Counted(m[id])], vv, {id})
  {
  }

  /** A new entry: no bucket holds its id yet. */
  lemma CountFresh(m: Infos, vv: seq<set<nat>>, id: nat, info: CAddrInfo)
    requires NewOk(m, vv, {}) && id !in m && !info.fInTried && info.nRefCount == 0
    ensures NewOk(m[id := Counted(info)], vv, {id})
    ensures forall b :: 0 <= b < |vv| ==> id !in vv[b]
  {
    RefsZero(vv, id);
    assert forall b :: 0 <= b < |vv| ==> id !in vv[b];
  }

  lemma CreatedCounts(m: Infos, id: nat, info: CAddrInfo)
    requires id !in m && !info.fInTried
    ensures |NewIds(m[id := info])| == |NewIds(m)| + 1 && TriedIds(m[id := info]) == TriedIds(m)
  {
    assert NewIds(m[id := info]) == NewIds(m) + {id};
  }

  lemma CreatedAddr(m: Infos, id: nat, info: CAddrInfo, a: map<CNetAddr, nat>)
    requires AddrOk(m, a) && id !in m && info.Net() !in a
    ensures AddrOk(m[id := info], a[info.Net() := id])
  {
  }

  lemma CreatedRandom(m: Infos, id: nat, info: CAddrInfo, v: seq<nat>)
    requires RandomOk(m, v) && id !in m && info.nRandomPos == |v|
    ensures RandomOk(m[id := info], v + [id])
  {
    var m', v' := m[id := info], v + [id];
    assert m'.Keys == m.Keys + {id};
    assert |m'| == |m'.Keys| == |m.Keys| + 1;
    forall i | 0 <= i < |v'| ensures v'[i] in m' && m'[v'[i]].nRandomPos == i {
      if i < |v| { assert v'[i] == v[i]; }
    }
    forall x | x in m' ensures 0 <= m'[x].nRandomPos < |v'| && v'[m'[x].nRandomPos] == x {
      if x != id { assert x in m; }
    }
  }

  // ----- moving between the new and the tried tables ------------------------------------------------

  lemma AddrSame(m: Infos, m': Infos, a: map<CNetAddr, nat>)
    requires m.Keys == m'.Keys && forall id :: id in m ==> m'[id].Net() == m[id].Net()
    requires AddrOk(m, a)
    ensures AddrOk(m', a)
  {
    forall n | n in a ensures a[n] in m' && m'[a[n]].Net() == n {
      var id := a[n];
      assert id in m && id in m'.Keys;
    }
  }

  function Removed(vv: seq<set<nat>>, id: nat): seq<set<nat>> {
    seq(|vv|, b requires 0 <= b < |vv| => vv[b] - {id})
  }

  /** The buckets hold the same ids, apart from those in `but`. */
  ghost predicate SameBuckets(vv: seq<set<nat>>, vv': seq<set<nat>>, but: set<nat>) {
    |vv'| == |vv| && forall b :: 0 <= b < |vv| ==> vv'[b] - but == vv[b] - but
  }

  lemma {:induction false} RefsRemoved(vv: seq<set<nat>>, id: nat, x: nat)
    ensures Refs(Removed(vv, id), x) == if x == id then 0 else Refs(vv, x)
    decreases |vv|
  {
    if vv != [] {
      var m := |vv| - 1;
      assert Removed(vv, id)[..m] == Removed(vv[..m], id);
      RefsRemoved(vv[..m], id, x);
    }
  }

  /** As a tried entry: no references, marked. */
  function AsTried(info: CAddrInfo): CAddrInfo { info.(nRefCount := 0, fInTried := true) }

  /** As an evicted entry: one reference, unmarked. */
  function AsEvicted(info: CAddrInfo): CAddrInfo { info.(nRefCount := 1, fInTried := false) }

  lemma LeaveNew(m: Infos, vv: seq<set<nat>>, id: nat)
    requires NewOk(m, vv, {}) && id in m && !m[id].fInTried
    ensures NewOk(m[id := AsTried(m[id])], Removed(vv, id), {})
  {
    var m', vv' := m[id := AsTried(m[id])], Removed(vv, id);
    forall x | x in m' && !m'[x].fInTried
      ensures m'[x].nRefCount == Refs(vv', x) && 1 <= m'[x].nRefCount <= NEW_BUCKETS_PER_ADDRESS
    {
      RefsRemoved(vv, id, x);
    }
    forall b, x | 0 <= b < |vv'| && x in vv'[b] ensures x in m' && !m'[x].fInTried {
      assert x in vv[b];
    }
    forall b | 0 <= b < |vv'| ensures |vv'[b]| <= NEW_BUCKET_SIZE {
      assert |vv[b]| <= NEW_BUCKET_SIZE;
    }
  }

  lemma EnterNew(m: Infos, vv: seq<set<nat>>, id: nat, b: nat)
    requires NewOk(m, vv, {}) && id in m && m[id].fInTried && b < |vv| && |vv[b]| < NEW_BUCKET_SIZE
    ensures NewOk(m[id := AsEvicted(m[id])], vv[b := vv[b] + {id}], {})
  {
    var m', vv' := m[id := AsEvicted(m[id])], vv[b := vv[b] + {id}];
    RefsZero(vv, id);
    assert id !in vv[b];
    forall x | x in m' && !m'[x].fInTried
      ensures m'[x].nRefCount == Refs(vv', x) && 1 <= m'[x].nRefCount <= NEW_BUCKETS_PER_ADDRESS
    {
      RefsUpdate(vv, b, vv[b] + {id}, x);
    }
    forall c, x | 0 <= c < |vv'| && x in vv'[c] ensures x in m' && !m'[x].fInTried {
      assert x == id || x in vv[c];
    }
  }

  predicate Distinct(s: seq<nat>) { forall i, j :: 0 <= i < j < |s| ==> s[i] != s[j] }

  lemma EnterTried(P: Hashing, m: Infos, vv: seq<seq<nat>>, id: nat)
    requires TriedOk(P, m, vv) && id in m && !m[id].fInTried
    requires var k := TriedBucket(P, m[id]); |vv[k]| < TRIED_BUCKET_SIZE
    ensures var k := TriedBucket(P, m[id]); TriedOk(P, m[id := AsTried(m[id])], vv[k := vv[k] + [id]])
  {
    var k := TriedBucket(P, m[id]);
    var m', vv' := m[id := AsTried(m[id])], vv[k := vv[k] + [id]];
    forall c, i | 0 <= c < |vv'| && 0 <= i < |vv'[c]|
      ensures vv'[c][i] in m' && m'[vv'[c][i]].fInTried && TriedBucket(P, m'[vv'[c][i]]) == c
      ensures c == k && i < |vv[c]| ==> vv'[c][i] != id
    {
      if i < |vv[c]| { assert vv'[c][i] == vv[c][i]; }
    }
    assert id in vv'[k] by { assert vv'[k][|vv[k]|] == id; }
    forall x | x in m' && m'[x].fInTried && x != id ensures x in vv'[TriedBucket(P, m'[x])] {
      assert x in vv[TriedBucket(P, m[x])];
    }
  }

  /** A bucket in another order. */
  lemma TriedPermuted(P: Hashing, m: Infos, vv: seq<seq<nat>>, k: nat, t: seq<nat>)
    requires TriedOk(P, m, vv) && k < |vv| && multiset(t) == multiset(vv[k]) && Distinct(t) && |t| == |vv[k]|
    ensures TriedOk(P, m, vv[k := t])
  {
    var vv' := vv[k := t];
    forall x ensures x in t <==> x in vv[k] {
      assert x in multiset(t) <==> x in multiset(vv[k]);
    }
    forall c, i | 0 <= c < |vv'| && 0 <= i < |vv'[c]|
      ensures vv'[c][i] in m && m[vv'[c][i]].fInTried && TriedBucket(P, m[vv'[c][i]]) == c
    {
      assert vv'[c][i] in vv[c];
    }
  }

  function SetAt(s: seq<nat>, i: nat, x: nat): seq<nat>
    requires i < |s|
  {
    s[i := x]
  }

  /** One entry of a tried bucket is replaced by another of the same bucket. */
  lemma ReplaceTried(P: Hashing, m: Infos, vv: seq<seq<nat>>, id: nat, pos: nat)
    requires TriedOk(P, m, vv) && id in m && !m[id].fInTried
    requires pos < |vv[TriedBucket(P, m[id])]|
    ensures var k := TriedBucket(P, m[id]); var old_ := vv[k][pos];
      old_ in m && old_ != id
      && TriedOk(P, m[old_ := AsEvicted(m[old_])][id := AsTried(m[id])], vv[k := SetAt(vv[k], pos, id)])
  {
    var k := TriedBucket(P, m[id]);
    var old_ := vv[k][pos];
    var m', vv' := m[old_ := AsEvicted(m[old_])][id := AsTried(m[id])], vv[k := SetAt(vv[k], pos, id)];
    forall c, i | 0 <= c < |vv'| && 0 <= i < |vv'[c]|
      ensures vv'[c][i] in m' && m'[vv'[c][i]].fInTried && TriedBucket(P, m'[vv'[c][i]]) == c
      ensures !(c == k && i == pos) ==> vv'[c][i] != id && vv'[c][i] != old_
    {
      if !(c == k && i == pos) { assert vv'[c][i] == vv[c][i]; }
    }
    assert id in vv'[k] by { assert vv'[k][pos] == id; }
    forall x | x in m' && m'[x].fInTried && x != id ensures x in vv'[TriedBucket(P, m'[x])] {
      var c := TriedBucket(P, m[x]);
      var i :| 0 <= i < |vv[c]| && vv[c][i] == x;
      assert vv'[c][i] == x;
    }
  }

  lemma ToTriedCounts(m: Infos, id: nat)
    requires id in m && !m[id].fInTried
    ensures |NewIds(m[id := AsTried(m[id])])| == |NewIds(m)| - 1
    ensures |TriedIds(m[id := AsTried(m[id])])| == |TriedIds(m)| + 1
  {
    assert NewIds(m[id := AsTried(m[id])]) == NewIds(m) - {id};
    assert TriedIds(m[id := AsTried(m[id])]) == TriedIds(m) + {id};
  }

  lemma ToNewCounts(m: Infos, id: nat)
    requires id in m && m[id].fInTried
    ensures |NewIds(m[id := AsEvicted(m[id])])| == |NewIds(m)| + 1
    ensures |TriedIds(m[id := AsEvicted(m[id])])| == |TriedIds(m)| - 1
  {
    assert NewIds(m[id := AsEvicted(m[id])]) == NewIds(m) + {id};
    assert TriedIds(m[id := AsEvicted(m[id])]) == TriedIds(m) - {id};
  }

  /** A tried entry goes: the new tables never held it. */
  lemma EraseTriedKeepsNew(m: Infos, vv: seq<set<nat>>, id: nat)
    requires NewOk(m, vv, {}) && id in m && m[id].fInTried
    ensures NewOk(m - {id}, vv, {})
  {
    forall b, x | 0 <= b < |vv| && x in vv[b] ensures x in m - {id} && !(m - {id})[x].fInTried {
      assert x in m && !m[x].fInTried;
    }
  }

  function Without(s: seq<nat>, i: nat): seq<nat>
    requires i < |s|
  {
    s[..i] + s[i + 1..]
  }

  lemma EraseFromTried(P: Hashing, m: Infos, vv: seq<seq<nat>>, id: nat, pos: nat)
    requires TriedOk(P, m, vv) && id in m && m[id].fInTried
    requires var k := TriedBucket(P, m[id]); pos < |vv[k]| && vv[k][pos] == id
    ensures var k := TriedBucket(P, m[id]); TriedOk(P, m - {id}, vv[k := Without(vv[k], pos)])
  {
    var k := TriedBucket(P, m[id]);
    var m', vv' := m - {id}, vv[k := Without(vv[k], pos)];
    forall c, i | 0 <= c < |vv'| && 0 <= i < |vv'[c]|
      ensures vv'[c][i] in m' && m'[vv'[c][i]].fInTried && TriedBucket(P, m'[vv'[c][i]]) == c
    {
      var j := if c == k && i >= pos then i + 1 else i;
      assert vv'[c][i] == vv[c][j];
    }
    forall x | x in m' && m'[x].fInTried ensures x in vv'[TriedBucket(P, m'[x])] {
      var c := TriedBucket(P, m[x]);
      var j :| 0 <= j < |vv[c]| && vv[c][j] == x;
      assert vv'[c][if c == k && j > pos then j - 1 else j] == x;
    }
  }

  /** The next id in iteration order. */
  method Least(s: set<nat>) returns (x: nat)
    requires s != {}
    ensures x in s && forall y :: y in s ==> x <= y
  {
    x :| x in s;
    var todo := s - {x};
    while todo != {}
      invariant x in s && todo <= s
      invariant forall y :: y in s && y !in todo ==> x <= y
      decreases todo
    {
      var y :| y in todo;
      if y < x { x := y; }
      todo := todo - {y};
    }
  }
}
