/**
 Writing the address manager to disk and reading it back (the serialise block of src/addrman.h).
 Ids are not stored: the file lists the untried entries, then the tried ones, then the new buckets as
 positions in the first list. Reading numbers the entries in file order.
 */
module AddrPeers {
  import opened AddrTables
  import opened AddrMan

  /** What is stored of an entry. */
  datatype DiskInfo = DiskInfo(service: CService, nServices: set<nat>, nTime: int,
                               source: CNetAddr, nLastSuccess: int, nAttempts: int)

  function ToDisk(info: CAddrInfo): DiskInfo {
    DiskInfo(info.addr.service, info.addr.nServices, info.addr.nTime, info.source, info.nLastSuccess, info.nAttempts)
  }

  /** The entry a stored record turns into, before it is put into any table. */
  function FromDisk(d: DiskInfo, nRandomPos: int): CAddrInfo {
    CAddrInfo(CAddress(d.service, d.nServices, d.nTime, 0), d.source, d.nLastSuccess, d.nAttempts, 0, false, nRandomPos)
  }

  function BucketOf(P: Hashing, d: DiskInfo): nat { P.tried(P.nKey, d.service) % TRIED_BUCKET_COUNT }

  datatype Token = Number(n: int) | Info(d: DiskInfo)

  /** The content of a file. */
  datatype Peers = Peers(nKey: Key, news: seq<DiskInfo>, trieds: seq<DiskInfo>, buckets: seq<seq<nat>>)

  function InfoTokens(ds: seq<DiskInfo>): seq<Token> {
    if ds == [] then [] else [Info(ds[0])] + InfoTokens(ds[1..])
  }

  function NumberTokens(ns: seq<nat>): seq<Token> {
    if ns == [] then [] else [Number(ns[0])] + NumberTokens(ns[1..])
  }

  function BucketTokens(bs: seq<seq<nat>>): seq<Token> {
    if bs == [] then [] else [Number(|bs[0]|)] + NumberTokens(bs[0]) + BucketTokens(bs[1..])
  }

  function Encode(p: Peers): seq<Token> {
    [Number(0), Number(p.nKey), Number(|p.news|), Number(|p.trieds|), Number(|p.buckets|)]
    + (InfoTokens(p.news) + (InfoTokens(p.trieds) + BucketTokens(p.buckets)))
  }

  lemma {:induction false} InfoSnoc(ds: seq<DiskInfo>, d: DiskInfo)
    ensures InfoTokens(ds + [d]) == InfoTokens(ds) + [Info(d)]
  {
    if ds == [] {
      assert ds + [d] == [d];
    } else {
      assert (ds + [d])[1..] == ds[1..] + [d];
      InfoSnoc(ds[1..], d);
    }
  }

  lemma {:induction false} NumberSnoc(ns: seq<nat>, n: nat)
    ensures NumberTokens(ns + [n]) == NumberTokens(ns) + [Number(n)]
  {
    if ns == [] {
      assert ns + [n] == [n];
    } else {
      assert (ns + [n])[1..] == ns[1..] + [n];
      NumberSnoc(ns[1..], n);
    }
  }

  lemma {:induction false} BucketSnoc(bs: seq<seq<nat>>, b: seq<nat>)
    ensures BucketTokens(bs + [b]) == BucketTokens(bs) + ([Number(|b|)] + NumberTokens(b))
  {
    if bs == [] {
      assert bs + [b] == [b];
      assert BucketTokens([b]) == [Number(|b|)] + NumberTokens(b) + BucketTokens([]);
    } else {
      assert (bs + [b])[1..] == bs[1..] + [b];
      BucketSnoc(bs[1..], b);
    }
  }

  // ----- which contents make a consistent manager ---------------------------------------------------

  function Elements(s: seq<nat>): set<nat> { set x | x in s }

  function Buckets(bs: seq<seq<nat>>): seq<set<nat>> { seq(|bs|, b requires 0 <= b < |bs| => Elements(bs[b])) }

  /** How many of the records belong in tried bucket `k`. */
  function InBucket(P: Hashing, ds: seq<DiskInfo>, k: nat): nat {
    if ds == [] then 0 else InBucket(P, ds[..|ds|-1], k) + if BucketOf(P, ds[|ds|-1]) == k then 1 else 0
  }

  predicate NetsDistinct(ds: seq<DiskInfo>) {
    forall i, j :: 0 <= i < j < |ds| ==> ds[i].service.net != ds[j].service.net
  }

  /** Every position points into the list of untried entries. */
  predicate WellFormed(p: Peers) {
    forall b, i :: 0 <= b < |p.buckets| && 0 <= i < |p.buckets[b]| ==> p.buckets[b][i] < |p.news|
  }

  /** The records can all be placed in the tried table. */
  predicate TriedFit(P: Hashing, ds: seq<DiskInfo>) {
    forall k :: 0 <= k < TRIED_BUCKET_COUNT ==> InBucket(P, ds, k) <= TRIED_BUCKET_SIZE
  }

  /** In order as far as the new buckets of the file do not matter. */
  predicate Proper(P: Hashing, p: Peers) {
    && WellFormed(p) && NetsDistinct(p.news + p.trieds) && TriedFit(P, p.trieds)
    && (forall i :: 0 <= i < |p.news| ==> p.news[i].nLastSuccess >= 0)
    && (forall i :: 0 <= i < |p.trieds| ==> p.trieds[i].nLastSuccess > 0)
  }

  /** The new buckets of the file are in order. */
  predicate BucketsFit(p: Peers) {
    && (forall b :: 0 <= b < |p.buckets| ==> Distinct(p.buckets[b]) && |p.buckets[b]| <= NEW_BUCKET_SIZE)
    && (forall i :: 0 <= i < |p.news| ==> 1 <= Refs(Buckets(p.buckets), i) <= NEW_BUCKETS_PER_ADDRESS)
  }

  predicate Sound(P: Hashing, p: Peers) { Proper(P, p) && |p.buckets| == NEW_BUCKET_COUNT && BucketsFit(p) }

  /** The tried records that find room: a record whose bucket is full already is lost. */
  function Kept(P: Hashing, ds: seq<DiskInfo>): (kept: seq<DiskInfo>)
    ensures |kept| <= |ds|
  {
    if ds == [] then []
    else
      var kept := Kept(P, ds[..|ds|-1]);
      if InBucket(P, kept, BucketOf(P, ds[|ds|-1])) < TRIED_BUCKET_SIZE then kept + [ds[|ds|-1]] else kept
  }

  function Count(s: seq<nat>, id: nat): nat {
    if s == [] then 0 else Count(s[..|s|-1], id) + if s[|s|-1] == id then 1 else 0
  }

  /** How often an entry is named in some buckets. */
  function Uses(bs: seq<seq<nat>>, id: nat): nat {
    if bs == [] then 0 else Uses(bs[..|bs|-1], id) + Count(bs[|bs|-1], id)
  }

  /** A bucket without the names of entries that were named four times before, in it or in `before`. */
  function Within(before: seq<seq<nat>>, bucket: seq<nat>): seq<nat> {
    if bucket == [] then []
    else
      var w, id := Within(before, bucket[..|bucket|-1]), bucket[|bucket|-1];
      if Uses(before, id) + Count(w, id) < NEW_BUCKETS_PER_ADDRESS then w + [id] else w
  }

  function FirstFour(bs: seq<seq<nat>>): (r: seq<seq<nat>>)
    ensures |r| == |bs|
  {
    if bs == [] then []
    else
      var r := FirstFour(bs[..|bs|-1]);
      r + [Within(r, bs[|bs|-1])]
  }

  /** The part of a file that reading does not pass over. */
  function Trimmed(P: Hashing, p: Peers): Peers { Peers(p.nKey, p.news, Kept(P, p.trieds), FirstFour(p.buckets)) }

  /** The new bucket a stored record belongs in by its own source. */
  function NewBucketOf(P: Hashing, d: DiskInfo): nat { P.untried(P.nKey, d.service.net, d.source) % NEW_BUCKET_COUNT }

  /** The new buckets reading makes up when the file has another number of them. */
  function Rehashed(P: Hashing, news: seq<DiskInfo>): seq<set<nat>> {
    seq(NEW_BUCKET_COUNT, b => set i | 0 <= i < |news| && NewBucketOf(P, news[i]) == b)
  }

  predicate Fit(vvNew: seq<set<nat>>) {
    forall b :: 0 <= b < |vvNew| ==> |vvNew[b]| <= NEW_BUCKET_SIZE
  }

  lemma RehashedNext(P: Hashing, news: seq<DiskInfo>, n: nat)
    requires n < |news|
    ensures var b := NewBucketOf(P, news[n]); var vv := Rehashed(P, news[..n]);
      b < |vv| == NEW_BUCKET_COUNT && Rehashed(P, news[..n + 1]) == vv[b := vv[b] + {n}]
  {
    var b, vv, vv' := NewBucketOf(P, news[n]), Rehashed(P, news[..n]), Rehashed(P, news[..n + 1]);
    forall c | 0 <= c < NEW_BUCKET_COUNT ensures vv'[c] == if c == b then vv[b] + {n} else vv[c] {
      forall i: nat ensures i in vv'[c] <==> i in vv[c] || (c == b && i == n) {
        if i < n { assert news[..n + 1][i] == news[..n][i]; }
      }
    }
  }

  lemma {:induction false} RefsSingle(vv: seq<set<nat>>, b: nat, id: nat)
    requires b < |vv| && forall c :: 0 <= c < |vv| ==> (id in vv[c] <==> c == b)
    ensures Refs(vv, id) == 1
    decreases |vv|
  {
    var front := vv[..|vv|-1];
    if b == |vv| - 1 { RefsZero(front, id); } else { RefsSingle(front, b, id); }
  }

  // ----- reading ------------------------------------------------------------------------------------

  /** An entry as read, whatever table it went to. */
  predicate ReadAs(info: CAddrInfo, d: DiskInfo, tried: bool) {
    ToDisk(info) == d && info.fInTried == tried && info.addr.nLastTry == 0
  }

  /** Ids count the records in file order; the first `nNew` are untried. */
  predicate Numbered(m: Infos, ds: seq<DiskInfo>, nNew: nat) {
    && (forall i :: i in m ==> i < |ds|)
    && (forall i: nat :: i < |ds| ==> i in m && ReadAs(m[i], ds[i], i >= nNew))
  }

  lemma NumberedNext(m: Infos, ds: seq<DiskInfo>, nNew: nat, n: nat, info: CAddrInfo)
    requires n < |ds| && Numbered(m, ds[..n], nNew) && ReadAs(info, ds[n], n >= nNew)
    ensures n !in m && Numbered(m[n := info], ds[..n + 1], nNew)
  {
    hide ReadAs;
    var m', ds' := m[n := info], ds[..n + 1];
    forall i: nat | i < |ds'| ensures i in m' && ReadAs(m'[i], ds'[i], i >= nNew) {
      if i < n { assert ds[..n][i] == ds'[i] && i in m; }
    }
  }

  /** A record with a net of its own is not in the address index yet. */
  lemma FreshNet(m: Infos, a: map<CNetAddr, nat>, ds: seq<DiskInfo>, nNew: nat, n: nat)
    requires n < |ds| && Numbered(m, ds[..n], nNew) && AddrOk(m, a) && NetsDistinct(ds)
    ensures ds[n].service.net !in a
  {
    forall i | 0 <= i < n ensures i in m && m[i].Net() != ds[n].service.net {
      assert ds[..n][i] == ds[i] && ReadAs(m[i], ds[i], i >= nNew);
    }
  }

  /** Adding the next record to mapInfo, mapAddr and vRandom. */
  lemma NextRecord(m: Infos, a: map<CNetAddr, nat>, v: seq<nat>, ds: seq<DiskInfo>, nNew: nat, n: nat, info: CAddrInfo)
    requires n < |ds| && Numbered(m, ds[..n], nNew) && RandomOk(m, v)
    requires ReadAs(info, ds[n], n >= nNew) && info.nRandomPos == |v|
    ensures n !in m && Numbered(m[n := info], ds[..n + 1], nNew) && RandomOk(m[n := info], v + [n])
    ensures NetsDistinct(ds) && AddrOk(m, a) ==> AddrOk(m[n := info], a[info.Net() := n])
  {
    hide Numbered, RandomOk, AddrOk, NetsDistinct;
    NumberedNext(m, ds, nNew, n, info);
    CreatedRandom(m, n, info, v);
    if NetsDistinct(ds) && AddrOk(m, a) {
      FreshNet(m, a, ds, nNew, n);
      CreatedAddr(m, n, info, a);
    }
  }

  /** Counting references of an entry changes nothing the reading has established. */
  lemma CountedRecord(m: Infos, a: map<CNetAddr, nat>, v: seq<nat>, ds: seq<DiskInfo>, nNew: nat, id: nat)
    requires id in m
    ensures var m' := m[id := Counted(m[id])];
      && (Numbered(m, ds, nNew) ==> Numbered(m', ds, nNew)) && (RandomOk(m, v) ==> RandomOk(m', v))
      && (AddrOk(m, a) ==> AddrOk(m', a))
  {
    hide RandomOk, AddrOk;
    var m' := m[id := Counted(m[id])];
    assert m'.Keys == m.Keys;
    if RandomOk(m, v) { SameRandom(m, m', v); }
    if AddrOk(m, a) { AddrSame(m, m', a); }
  }

  method ReadNew(am: CAddrMan, s: seq<Token>, nUBuckets: int, ghost news: seq<DiskInfo>, ghost tail: seq<Token>)
    returns (rest: seq<Token>)
    requires s == InfoTokens(news) + tail && am.nNew == |news|
    requires am.mapInfo == map[] && am.mapAddr == map[] && am.vRandom == []
    requires |am.vvNew| == NEW_BUCKET_COUNT && forall b :: 0 <= b < |am.vvNew| ==> am.vvNew[b] == {}
    modifies am`mapInfo, am`mapAddr, am`vRandom, am`vvNew
    ensures rest == tail && |am.vvNew| == NEW_BUCKET_COUNT
    ensures Numbered(am.mapInfo, news, |news|) && RandomOk(am.mapInfo, am.vRandom)
    ensures NetsDistinct(news) ==> AddrOk(am.mapInfo, am.mapAddr)
    ensures nUBuckets == NEW_BUCKET_COUNT ==> am.vvNew == old(am.vvNew)
    ensures nUBuckets == NEW_BUCKET_COUNT ==> forall i :: i in am.mapInfo ==> am.mapInfo[i].nRefCount == 0
    ensures nUBuckets != NEW_BUCKET_COUNT ==> am.vvNew == Rehashed(am.P, news)
    ensures nUBuckets != NEW_BUCKET_COUNT ==> forall i :: i in am.mapInfo ==> am.mapInfo[i].nRefCount == 1
  {
    hide NewRead, NewBucketOf;
    rest := s;
    assert news[0..] == news;
    NoneRead(am.P, am.vvNew, news, nUBuckets);
    for n := 0 to am.nNew
      invariant rest == InfoTokens(news[n..]) + tail && |am.vvNew| == NEW_BUCKET_COUNT
      invariant nUBuckets == NEW_BUCKET_COUNT ==> am.vvNew == old(am.vvNew)
      invariant NewRead(am.P, am.mapInfo, am.mapAddr, am.vRandom, am.vvNew, news, n, nUBuckets)
    {
      assert news[n..][1..] == news[n + 1..];
      OneRead(am.P, am.mapInfo, am.mapAddr, am.vRandom, am.vvNew, news, n, nUBuckets);
      PlaceNew(am, n, rest[0].d, nUBuckets);
      rest := rest[1..];
    }
    AllRead(am.P, am.mapInfo, am.mapAddr, am.vRandom, am.vvNew, news, nUBuckets);
  }

  /** The tables after `n` untried records. */
  ghost predicate NewRead(P: Hashing, m: Infos, a: map<CNetAddr, nat>, v: seq<nat>, vv: seq<set<nat>>, news: seq<DiskInfo>, n: nat, nUBuckets: int)
    requires n <= |news|
  {
    && Numbered(m, news[..n], |news|) && RandomOk(m, v) && (NetsDistinct(news) ==> AddrOk(m, a))
    && (forall i :: i in m ==> m[i].nRefCount == if nUBuckets == NEW_BUCKET_COUNT then 0 else 1)
    && (nUBuckets != NEW_BUCKET_COUNT ==> vv == Rehashed(P, news[..n]))
  }

  lemma NoneRead(P: Hashing, vv: seq<set<nat>>, news: seq<DiskInfo>, nUBuckets: int)
    requires |vv| == NEW_BUCKET_COUNT && forall b :: 0 <= b < |vv| ==> vv[b] == {}
    ensures NewRead(P, map[], map[], [], vv, news, 0, nUBuckets)
  {
    hide Numbered, RandomOk, AddrOk, NetsDistinct, Rehashed;
    EmptyTables(|news|);
    NothingRehashed(P, vv);
  }

  /** One more record, entered as PlaceNew does. */
  lemma OneRead(P: Hashing, m: Infos, a: map<CNetAddr, nat>, v: seq<nat>, vv: seq<set<nat>>, news: seq<DiskInfo>, n: nat, nUBuckets: int)
    requires n < |news| && |vv| == NEW_BUCKET_COUNT && NewRead(P, m, a, v, vv, news, n, nUBuckets)
    ensures var info, b := FromDisk(news[n], |v|), NewBucketOf(P, news[n]);
      && b < |vv|
      && NewRead(P, if nUBuckets == NEW_BUCKET_COUNT then m[n := info] else m[n := info][n := Counted(info)],
                 a[news[n].service.net := n], v + [n],
                 if nUBuckets == NEW_BUCKET_COUNT then vv else vv[b := vv[b] + {n}], news, n + 1, nUBuckets)
  {
    hide Numbered, RandomOk, AddrOk, NetsDistinct, Rehashed;
    var info := FromDisk(news[n], |v|);
    NextRecord(m, a, v, news, |news|, n, info);
    CountedRecord(m[n := info], a[info.Net() := n], v + [n], news[..n + 1], |news|, n);
    RehashedNext(P, news, n);
  }

  lemma AllRead(P: Hashing, m: Infos, a: map<CNetAddr, nat>, v: seq<nat>, vv: seq<set<nat>>, news: seq<DiskInfo>, nUBuckets: int)
    requires NewRead(P, m, a, v, vv, news, |news|, nUBuckets)
    ensures Numbered(m, news, |news|) && RandomOk(m, v) && (NetsDistinct(news) ==> AddrOk(m, a))
    ensures forall i :: i in m ==> m[i].nRefCount == if nUBuckets == NEW_BUCKET_COUNT then 0 else 1
    ensures nUBuckets != NEW_BUCKET_COUNT ==> vv == Rehashed(P, news)
  {
    hide Numbered, RandomOk, AddrOk, NetsDistinct, Rehashed;
    assert news[..|news|] == news;
  }

  /** Enter an untried record, and choose its bucket if the file has another number of them. */
  method PlaceNew(am: CAddrMan, n: nat, d: DiskInfo, nUBuckets: int)
    requires |am.vvNew| == NEW_BUCKET_COUNT
    modifies am`mapInfo, am`mapAddr, am`vRandom, am`vvNew
    ensures var info, b := FromDisk(d, |old(am.vRandom)|), NewBucketOf(am.P, d);
      && am.mapAddr == old(am.mapAddr)[d.service.net := n] && am.vRandom == old(am.vRandom) + [n]
      && am.mapInfo == (if nUBuckets == NEW_BUCKET_COUNT then old(am.mapInfo)[n := info]
                        else old(am.mapInfo)[n := info][n := Counted(info)])
      && am.vvNew == if nUBuckets == NEW_BUCKET_COUNT then old(am.vvNew) else old(am.vvNew)[b := old(am.vvNew)[b] + {n}]
  {
    var info := FromDisk(d, |am.vRandom|);
    am.mapInfo := am.mapInfo[n := info];
    am.mapAddr := am.mapAddr[info.Net() := n];
    am.vRandom := am.vRandom + [n];
    if nUBuckets != NEW_BUCKET_COUNT {
      var b := NewBucket(am.P, info, info.source);
      am.vvNew := am.vvNew[b := am.vvNew[b] + {n}];
      am.mapInfo := am.mapInfo[n := Counted(am.mapInfo[n])];
    }
  }

  lemma NothingRehashed(P: Hashing, vv: seq<set<nat>>)
    requires |vv| == NEW_BUCKET_COUNT && forall b :: 0 <= b < |vv| ==> vv[b] == {}
    ensures vv == Rehashed(P, [])
  {
    forall b | 0 <= b < |vv| ensures vv[b] == Rehashed(P, [])[b] { }
  }

  lemma EmptyTables(nNew: nat)
    ensures Numbered(map[], [], nNew) && RandomOk(map[], []) && AddrOk(map[], map[])
  {
  }

  /** A tried entry not seen before. */
  lemma AppendTried(P: Hashing, m: Infos, vv: seq<seq<nat>>, id: nat, info: CAddrInfo)
    requires TriedOk(P, m, vv) && id !in m && info.fInTried && info.nRefCount == 0
    requires |vv[TriedBucket(P, info)]| < TRIED_BUCKET_SIZE
    ensures var k := TriedBucket(P, info); TriedOk(P, m[id := info], vv[k := vv[k] + [id]])
  {
    hide TriedOk;
    var info0 := info.(fInTried := false);
    TriedSkips(P, m, id, info0, vv);
    EnterTried(P, m[id := info0], vv, id);
    assert m[id := info0][id := AsTried(info0)] == m[id := info];
  }

  /** The tables when the records `kept` have been entered after the untried ones. */
  ghost predicate TriedRead(P: Hashing, m: Infos, a: map<CNetAddr, nat>, v: seq<nat>, vv: seq<seq<nat>>, news: seq<DiskInfo>, kept: seq<DiskInfo>) {
    && Numbered(m, news + kept, |news|) && RandomOk(m, v) && (NetsDistinct(news + kept) ==> AddrOk(m, a))
    && TriedOk(P, m, vv) && forall k :: 0 <= k < |vv| ==> |vv[k]| == InBucket(P, kept, k)
  }

  lemma NothingTried(P: Hashing, m: Infos, a: map<CNetAddr, nat>, v: seq<nat>, vv: seq<seq<nat>>, news: seq<DiskInfo>)
    requires Numbered(m, news, |news|) && RandomOk(m, v) && (NetsDistinct(news) ==> AddrOk(m, a))
    requires |vv| == TRIED_BUCKET_COUNT && forall k :: 0 <= k < |vv| ==> vv[k] == []
    ensures TriedRead(P, m, a, v, vv, news, [])
  {
    hide RandomOk, AddrOk, NetsDistinct;
    assert news + [] == news;
  }

  lemma FewerNets(ds: seq<DiskInfo>, d: DiskInfo)
    requires NetsDistinct(ds + [d])
    ensures NetsDistinct(ds)
  {
    forall i, j | 0 <= i < j < |ds| ensures ds[i].service.net != ds[j].service.net {
      assert (ds + [d])[i] == ds[i] && (ds + [d])[j] == ds[j];
    }
  }

  lemma InBucketSnoc(P: Hashing, ds: seq<DiskInfo>, d: DiskInfo, k: nat)
    ensures InBucket(P, ds + [d], k) == InBucket(P, ds, k) + if BucketOf(P, d) == k then 1 else 0
  {
    assert (ds + [d])[..|ds|] == ds;
  }

  /** One more tried record for which there is room, table by table. */
  lemma OneTried(P: Hashing, m: Infos, a: map<CNetAddr, nat>, v: seq<nat>, vv: seq<seq<nat>>, news: seq<DiskInfo>, kept: seq<DiskInfo>, d: DiskInfo)
    requires TriedRead(P, m, a, v, vv, news, kept) && InBucket(P, kept, BucketOf(P, d)) < TRIED_BUCKET_SIZE
    ensures BucketOf(P, d) < |vv|
    ensures var k, id, info := BucketOf(P, d), |news + kept|, TriedRecord(d, |v|);
      TriedRead(P, m[id := info], a[d.service.net := id], v + [id], vv[k := vv[k] + [id]], news, kept + [d])
  {
    hide Numbered, RandomOk, AddrOk, NetsDistinct, TriedOk, InBucket;
    var k, id, info := BucketOf(P, d), |news + kept|, TriedRecord(d, |v|);
    var all := news + (kept + [d]);
    TriedBuckets(P, m, vv);
    assert all == (news + kept) + [d] && all[..id] == news + kept;
    if NetsDistinct(all) { FewerNets(news + kept, d); }
    NextRecord(m, a, v, all, |news|, id, info);
    assert all[..id + 1] == all;
    AppendTried(P, m, vv, id, info);
    forall c | 0 <= c < |vv| ensures |vv[k := vv[k] + [id]][c]| == InBucket(P, kept + [d], c) { InBucketSnoc(P, kept, d, c); }
  }

  lemma TriedBuckets(P: Hashing, m: Infos, vv: seq<seq<nat>>)
    requires TriedOk(P, m, vv)
    ensures |vv| == TRIED_BUCKET_COUNT
  {
  }

  function TriedRecord(d: DiskInfo, nRandomPos: nat): CAddrInfo { FromDisk(d, nRandomPos).(fInTried := true) }

  /** Number a tried record and put it into its bucket; a full bucket loses it. */
  method PlaceTried(am: CAddrMan, d: DiskInfo) returns (lost: nat)
    requires |am.vvTried| == TRIED_BUCKET_COUNT
    modifies am`mapInfo, am`mapAddr, am`vRandom, am`vvTried, am`nIdCount
    ensures var k := BucketOf(am.P, d); var id := old(am.nIdCount);
      if |old(am.vvTried)[k]| < TRIED_BUCKET_SIZE then
        && lost == 0 && am.nIdCount == id + 1
        && am.mapInfo == old(am.mapInfo)[id := TriedRecord(d, |old(am.vRandom)|)]
        && am.mapAddr == old(am.mapAddr)[d.service.net := id] && am.vRandom == old(am.vRandom) + [id]
        && am.vvTried == old(am.vvTried)[k := old(am.vvTried)[k] + [id]]
      else
        && lost == 1 && am.nIdCount == id && am.mapInfo == old(am.mapInfo) && am.mapAddr == old(am.mapAddr)
        && am.vRandom == old(am.vRandom) && am.vvTried == old(am.vvTried)
  {
    var info := FromDisk(d, -1);
    var nKBucket := TriedBucket(am.P, info);
    if |am.vvTried[nKBucket]| < TRIED_BUCKET_SIZE {
      info := info.(nRandomPos := |am.vRandom|, fInTried := true);
      am.vRandom := am.vRandom + [am.nIdCount];
      am.mapInfo := am.mapInfo[am.nIdCount := info];
      am.mapAddr := am.mapAddr[info.Net() := am.nIdCount];
      am.vvTried := am.vvTried[nKBucket := am.vvTried[nKBucket] + [am.nIdCount]];
      am.nIdCount := am.nIdCount + 1;
      return 0;
    }
    return 1;
  }

  method ReadTried(am: CAddrMan, s: seq<Token>, ghost news: seq<DiskInfo>, ghost trieds: seq<DiskInfo>, ghost tail: seq<Token>)
    returns (rest: seq<Token>, nLost: int)
    requires s == InfoTokens(trieds) + tail && am.nTried == |trieds| && am.nIdCount == |news|
    requires Numbered(am.mapInfo, news, |news|) && TriedRead(am.P, am.mapInfo, am.mapAddr, am.vRandom, am.vvTried, news, [])
    modifies am`mapInfo, am`mapAddr, am`vRandom, am`vvTried, am`nIdCount
    ensures rest == tail
    ensures forall id :: id in old(am.mapInfo) ==> id in am.mapInfo && am.mapInfo[id] == old(am.mapInfo)[id]
    ensures var kept := Kept(am.P, trieds);
      && nLost == |trieds| - |kept| && am.nIdCount == |news + kept|
      && TriedRead(am.P, am.mapInfo, am.mapAddr, am.vRandom, am.vvTried, news, kept)
  {
    hide TriedRead, Numbered, InBucket, BucketOf, FromDisk;
    ghost var m0 := am.mapInfo;
    ghost var kept: seq<DiskInfo> := [];
    rest, nLost := s, 0;
    assert trieds[..0] == [] && trieds[0..] == trieds;
    for n := 0 to am.nTried
      invariant rest == InfoTokens(trieds[n..]) + tail
      invariant forall id :: id in m0 ==> id in am.mapInfo && am.mapInfo[id] == m0[id]
      invariant kept == Kept(am.P, trieds[..n]) && nLost == n - |kept| && am.nIdCount == |news + kept|
      invariant TriedRead(am.P, am.mapInfo, am.mapAddr, am.vRandom, am.vvTried, news, kept)
    {
      assert trieds[n..][1..] == trieds[n + 1..] && trieds[..n + 1][..n] == trieds[..n];
      var d := rest[0].d;
      rest := rest[1..];
      BeyondNew(m0, news, am.nIdCount);
      RoomIs(am.P, am.mapInfo, am.mapAddr, am.vRandom, am.vvTried, news, kept, d);
      if InBucket(am.P, kept, BucketOf(am.P, d)) < TRIED_BUCKET_SIZE {
        OneTried(am.P, am.mapInfo, am.mapAddr, am.vRandom, am.vvTried, news, kept, d);
      }
      var lost := PlaceTried(am, d);
      if lost == 0 { kept := kept + [d]; }
      nLost := nLost + lost;
    }
    assert trieds[..|trieds|] == trieds;
  }

  lemma RoomIs(P: Hashing, m: Infos, a: map<CNetAddr, nat>, v: seq<nat>, vv: seq<seq<nat>>, news: seq<DiskInfo>, kept: seq<DiskInfo>, d: DiskInfo)
    requires TriedRead(P, m, a, v, vv, news, kept)
    ensures |vv| == TRIED_BUCKET_COUNT && BucketOf(P, d) < |vv| && |vv[BucketOf(P, d)]| == InBucket(P, kept, BucketOf(P, d))
  {
    hide Numbered, RandomOk, AddrOk, InBucket;
  }

  lemma BeyondNew(m: Infos, news: seq<DiskInfo>, id: nat)
    requires Numbered(m, news, |news|) && id >= |news|
    ensures id !in m
  {
  }

  // ----- the new buckets ----------------------------------------------------------------------------

  lemma {:induction false} ElementsSize(s: seq<nat>)
    ensures |Elements(s)| <= |s|
    ensures Distinct(s) ==> |Elements(s)| == |s|
    decreases |s|
  {
    if s == [] {
      assert Elements(s) == {};
    } else {
      var front, last := s[..|s|-1], s[|s|-1];
      ElementsSize(front);
      assert Elements(s) == Elements(front) + {last};
      if Distinct(s) { assert last !in front; }
    }
  }

  /** Every untried entry counts how often it is named. */
  predicate Tallied(m: Infos, bs: seq<seq<nat>>, nNew: nat) {
    forall i :: 0 <= i < nNew ==> i in m && m[i].nRefCount == Uses(bs, i)
  }

  lemma UsesSnoc(bs: seq<seq<nat>>, w: seq<nat>, id: nat)
    ensures Uses(bs + [w], id) == Uses(bs, id) + Count(w, id)
  {
    assert (bs + [w])[..|bs|] == bs;
  }

  lemma CountSnoc(w: seq<nat>, x: nat, id: nat)
    ensures Count(w + [x], id) == Count(w, id) + if x == id then 1 else 0
  {
    assert (w + [x])[..|w|] == w;
  }

  /** One more name in a bucket: it is entered and counted, or passed over. */
  lemma OneName(m: Infos, before: seq<seq<nat>>, bucket: seq<nat>, n: nat, nNew: nat)
    requires n < |bucket| && bucket[n] < nNew && Tallied(m, before + [Within(before, bucket[..n])], nNew)
    ensures var w, w', id := Within(before, bucket[..n]), Within(before, bucket[..n + 1]), bucket[n];
      && id in m
      && (if m[id].nRefCount < NEW_BUCKETS_PER_ADDRESS then
            Elements(w') == Elements(w) + {id} && Tallied(m[id := Counted(m[id])], before + [w'], nNew)
          else w' == w)
  {
    hide Uses, Count;
    var w, w', id := Within(before, bucket[..n]), Within(before, bucket[..n + 1]), bucket[n];
    assert bucket[..n + 1][..n] == bucket[..n];
    UsesSnoc(before, w, id);
    if m[id].nRefCount < NEW_BUCKETS_PER_ADDRESS {
      assert w' == w + [id];
      forall i | 0 <= i < nNew ensures Uses(before + [w'], i) == Uses(before + [w], i) + if i == id then 1 else 0 {
        UsesSnoc(before, w, i);
        UsesSnoc(before, w', i);
        CountSnoc(w, id, i);
      }
    }
  }

  /** Counting names leaves the rest of the tables as it is. */
  lemma CountSettled(P: Hashing, m: Infos, a: map<CNetAddr, nat>, v: seq<nat>, vv: seq<seq<nat>>, news: seq<DiskInfo>, kept: seq<DiskInfo>, id: nat)
    requires TriedRead(P, m, a, v, vv, news, kept) && id < |news|
    ensures id in m && TriedRead(P, m[id := Counted(m[id])], a, v, vv, news, kept)
  {
    hide RandomOk, AddrOk, TriedOk, InBucket, NetsDistinct;
    assert ReadAs(m[id], (news + kept)[id], id >= |news|);
    CountedRecord(m, a, v, news + kept, |news|, id);
    TriedSkips(P, m, id, Counted(m[id]), vv);
  }

  method ReadBucket(am: CAddrMan, s: seq<Token>, nUBuckets: int, b: nat, ghost news: seq<DiskInfo>, ghost kept: seq<DiskInfo>,
                    ghost before: seq<seq<nat>>, ghost bucket: seq<nat>, ghost tail: seq<Token>)
    returns (rest: seq<Token>)
    requires s == [Number(|bucket|)] + NumberTokens(bucket) + tail && forall i :: 0 <= i < |bucket| ==> bucket[i] < |news|
    requires TriedRead(am.P, am.mapInfo, am.mapAddr, am.vRandom, am.vvTried, news, kept) && |am.vvNew| == NEW_BUCKET_COUNT
    requires nUBuckets == NEW_BUCKET_COUNT ==> b < NEW_BUCKET_COUNT && am.vvNew[b] == {} && Tallied(am.mapInfo, before, |news|)
    modifies am`mapInfo, am`vvNew
    ensures rest == tail && TriedRead(am.P, am.mapInfo, am.mapAddr, am.vRandom, am.vvTried, news, kept)
    ensures |am.vvNew| == NEW_BUCKET_COUNT
    ensures nUBuckets == NEW_BUCKET_COUNT ==>
      var w := Within(before, bucket);
      Tallied(am.mapInfo, before + [w], |news|) && am.vvNew == old(am.vvNew)[b := Elements(w)]
    ensures nUBuckets != NEW_BUCKET_COUNT ==> am.mapInfo == old(am.mapInfo) && am.vvNew == old(am.vvNew)
  {
    hide TriedRead, Tallied, Within, Elements;
    ghost var vv0 := am.vvNew;
    var nSize := s[0].n;
    rest := s[1..];
    assert bucket[0..] == bucket;
    if nUBuckets == NEW_BUCKET_COUNT { NoNames(am.mapInfo, before, bucket, |news|); }
    for n := 0 to nSize
      invariant rest == NumberTokens(bucket[n..]) + tail && |am.vvNew| == NEW_BUCKET_COUNT
      invariant TriedRead(am.P, am.mapInfo, am.mapAddr, am.vRandom, am.vvTried, news, kept)
      invariant nUBuckets == NEW_BUCKET_COUNT ==>
        var w := Within(before, bucket[..n]);
        Tallied(am.mapInfo, before + [w], |news|) && am.vvNew == vv0[b := Elements(w)]
      invariant nUBuckets != NEW_BUCKET_COUNT ==> am.mapInfo == old(am.mapInfo) && am.vvNew == old(am.vvNew)
    {
      assert bucket[n..][1..] == bucket[n + 1..];
      var nIndex: nat := rest[0].n;
      rest := rest[1..];
      CountSettled(am.P, am.mapInfo, am.mapAddr, am.vRandom, am.vvTried, news, kept, nIndex);
      if nUBuckets == NEW_BUCKET_COUNT { OneName(am.mapInfo, before, bucket, n, |news|); }
      var info := am.mapInfo[nIndex];
      if nUBuckets == NEW_BUCKET_COUNT && info.nRefCount < NEW_BUCKETS_PER_ADDRESS {
        am.mapInfo := am.mapInfo[nIndex := Counted(info)];
        am.vvNew := am.vvNew[b := am.vvNew[b] + {nIndex}];
      }
    }
    assert bucket[..|bucket|] == bucket;
  }

  lemma NoNames(m: Infos, before: seq<seq<nat>>, bucket: seq<nat>, nNew: nat)
    requires Tallied(m, before, nNew)
    ensures Elements(Within(before, bucket[..0])) == {} && Tallied(m, before + [Within(before, bucket[..0])], nNew)
  {
    hide Uses;
    forall i | 0 <= i < nNew ensures Uses(before + [[]], i) == Uses(before, i) { UsesSnoc(before, [], i); }
  }

  method ReadBuckets(am: CAddrMan, s: seq<Token>, nUBuckets: int, ghost p: Peers, ghost kept: seq<DiskInfo>) returns (rest: seq<Token>)
    requires WellFormed(p) && nUBuckets == |p.buckets| && s == BucketTokens(p.buckets)
    requires TriedRead(am.P, am.mapInfo, am.mapAddr, am.vRandom, am.vvTried, p.news, kept) && |am.vvNew| == NEW_BUCKET_COUNT
    requires nUBuckets == NEW_BUCKET_COUNT ==> Tallied(am.mapInfo, [], |p.news|) && forall b :: 0 <= b < |am.vvNew| ==> am.vvNew[b] == {}
    modifies am`mapInfo, am`vvNew
    ensures rest == [] && TriedRead(am.P, am.mapInfo, am.mapAddr, am.vRandom, am.vvTried, p.news, kept)
    ensures nUBuckets == NEW_BUCKET_COUNT ==>
      Tallied(am.mapInfo, FirstFour(p.buckets), |p.news|) && am.vvNew == Buckets(FirstFour(p.buckets))
    ensures nUBuckets != NEW_BUCKET_COUNT ==> am.mapInfo == old(am.mapInfo) && am.vvNew == old(am.vvNew)
  {
    hide TriedRead, Tallied, Within, Elements;
    ghost var bs := p.buckets;
    ghost var t: seq<seq<nat>> := [];
    rest := s;
    assert bs[0..] == bs && bs[..0] == [];
    for b := 0 to nUBuckets
      invariant rest == BucketTokens(bs[b..]) && |am.vvNew| == NEW_BUCKET_COUNT && t == FirstFour(bs[..b])
      invariant TriedRead(am.P, am.mapInfo, am.mapAddr, am.vRandom, am.vvTried, p.news, kept)
      invariant nUBuckets == NEW_BUCKET_COUNT ==> Tallied(am.mapInfo, t, |p.news|)
      invariant nUBuckets == NEW_BUCKET_COUNT ==>
        forall c :: 0 <= c < NEW_BUCKET_COUNT ==> am.vvNew[c] == if c < b then Elements(t[c]) else {}
      invariant nUBuckets != NEW_BUCKET_COUNT ==> am.mapInfo == old(am.mapInfo) && am.vvNew == old(am.vvNew)
    {
      assert bs[b..][1..] == bs[b + 1..] && bs[b..][0] == bs[b] && bs[..b + 1][..b] == bs[..b];
      rest := ReadBucket(am, rest, nUBuckets, b, p.news, kept, t, bs[b], BucketTokens(bs[b + 1..]));
      t := t + [Within(t, bs[b])];
    }
    assert bs[..|bs|] == bs;
  }

  /** The ids from `lo` up to `hi`. */
  function Span(lo: nat, hi: nat): (s: set<nat>)
    requires lo <= hi
    ensures |s| == hi - lo && forall i: nat :: i in s <==> lo <= i < hi
    decreases hi - lo
  {
    if lo == hi then {} else {lo} + Span(lo + 1, hi)
  }

  lemma NumberedCounts(m: Infos, ds: seq<DiskInfo>, nNew: nat)
    requires Numbered(m, ds, nNew) && nNew <= |ds|
    ensures CountsOk(m, nNew, |ds| - nNew)
  {
    assert NewIds(m) == Span(0, nNew);
    assert TriedIds(m) == Span(nNew, |ds|);
  }

  // ----- when the result is consistent ----------------------------------------------------------------

  lemma {:induction false} CountIn(s: seq<nat>, id: nat)
    ensures Count(s, id) >= 1 <==> id in s
    ensures Distinct(s) ==> Count(s, id) <= 1
    decreases |s|
  {
    if s != [] {
      var front := s[..|s|-1];
      CountIn(front, id);
      assert s == front + [s[|s|-1]];
    }
  }

  lemma {:induction false} CountTwice(s: seq<nat>, i: nat, j: nat)
    requires i < j < |s| && s[i] == s[j]
    ensures Count(s, s[i]) >= 2
    decreases |s|
  {
    var front := s[..|s|-1];
    if j < |front| {
      CountTwice(front, i, j);
    } else {
      assert front[i] in front;
      CountIn(front, s[i]);
    }
  }

  /** An entry is in at most as many buckets as name it, and in as many if none names it twice. */
  lemma {:induction false} UsesRefs(bs: seq<seq<nat>>, id: nat)
    ensures Refs(Buckets(bs), id) <= Uses(bs, id)
    ensures (forall b :: 0 <= b < |bs| ==> Count(bs[b], id) <= 1) ==> Refs(Buckets(bs), id) == Uses(bs, id)
    ensures (exists b :: 0 <= b < |bs| && Count(bs[b], id) > 1) ==> Refs(Buckets(bs), id) < Uses(bs, id)
    decreases |bs|
  {
    if bs != [] {
      var m := |bs| - 1;
      UsesRefs(bs[..m], id);
      assert Buckets(bs)[..m] == Buckets(bs[..m]);
      CountIn(bs[m], id);
      if b :| 0 <= b < |bs| && Count(bs[b], id) > 1 {
        if b < m { assert Count(bs[..m][b], id) > 1; }
      }
    }
  }

  function Smaller(a: int, b: int): int { if a < b then a else b }

  /** Of the records of a bucket the first sixty-four are kept. */
  lemma {:induction false} KeptIn(P: Hashing, ds: seq<DiskInfo>, k: nat)
    ensures InBucket(P, Kept(P, ds), k) == Smaller(InBucket(P, ds, k), TRIED_BUCKET_SIZE)
    decreases |ds|
  {
    if ds != [] {
      var front, d := ds[..|ds|-1], ds[|ds|-1];
      KeptIn(P, front, k);
      InBucketSnoc(P, Kept(P, front), d, k);
    }
  }

  lemma {:induction false} WithinUses(before: seq<seq<nat>>, bucket: seq<nat>, id: nat)
    requires Uses(before, id) <= NEW_BUCKETS_PER_ADDRESS
    ensures Uses(before, id) + Count(Within(before, bucket), id) == Smaller(Uses(before, id) + Count(bucket, id), NEW_BUCKETS_PER_ADDRESS)
    decreases |bucket|
  {
    hide Uses, Count;
    if bucket == [] {
      NoneCounted(id);
    } else {
      var front, x := bucket[..|bucket|-1], bucket[|bucket|-1];
      WithinUses(before, front, id);
      assert bucket == front + [x];
      CountSnoc(front, x, id);
      CountSnoc(Within(before, front), x, id);
    }
  }

  lemma NoneCounted(id: nat)
    ensures Count([], id) == 0
  {
  }

  /** Of the names of an entry the first four are taken. */
  lemma {:induction false} FirstFourUses(bs: seq<seq<nat>>, id: nat)
    ensures Uses(FirstFour(bs), id) == Smaller(Uses(bs, id), NEW_BUCKETS_PER_ADDRESS)
    decreases |bs|
  {
    if bs != [] {
      var r := FirstFour(bs[..|bs|-1]);
      FirstFourUses(bs[..|bs|-1], id);
      WithinUses(r, bs[|bs|-1], id);
      UsesSnoc(r, Within(r, bs[|bs|-1]), id);
    }
  }

  lemma {:induction false} KeptAll(P: Hashing, ds: seq<DiskInfo>)
    requires TriedFit(P, ds)
    ensures Kept(P, ds) == ds
    decreases |ds|
  {
    if ds != [] {
      var front := ds[..|ds|-1];
      forall k | 0 <= k < TRIED_BUCKET_COUNT ensures InBucket(P, front, k) <= TRIED_BUCKET_SIZE {
        assert InBucket(P, ds, k) <= TRIED_BUCKET_SIZE;
      }
      KeptAll(P, front);
      assert InBucket(P, ds, BucketOf(P, ds[|ds|-1])) <= TRIED_BUCKET_SIZE;
    }
  }

  lemma {:induction false} WithinSome(before: seq<seq<nat>>, bucket: seq<nat>, n: nat)
    requires forall i :: 0 <= i < |bucket| ==> bucket[i] < n
    ensures forall i :: 0 <= i < |Within(before, bucket)| ==> Within(before, bucket)[i] < n
    decreases |bucket|
  {
    if bucket != [] { WithinSome(before, bucket[..|bucket|-1], n); }
  }

  lemma {:induction false} FirstFourFormed(bs: seq<seq<nat>>, n: nat)
    requires forall b, i :: 0 <= b < |bs| && 0 <= i < |bs[b]| ==> bs[b][i] < n
    ensures forall b, i :: 0 <= b < |bs| && 0 <= i < |FirstFour(bs)[b]| ==> FirstFour(bs)[b][i] < n
    decreases |bs|
  {
    if bs != [] {
      var front := bs[..|bs|-1];
      assert forall b :: 0 <= b < |front| ==> front[b] == bs[b];
      FirstFourFormed(front, n);
      WithinSome(FirstFour(front), bs[|bs|-1], n);
    }
  }

  lemma {:induction false} WithinAll(before: seq<seq<nat>>, bucket: seq<nat>)
    requires forall id :: Uses(before, id) + Count(bucket, id) <= NEW_BUCKETS_PER_ADDRESS
    ensures Within(before, bucket) == bucket
    decreases |bucket|
  {
    if bucket != [] {
      var front := bucket[..|bucket|-1];
      forall id ensures Uses(before, id) + Count(front, id) <= NEW_BUCKETS_PER_ADDRESS {
        assert Uses(before, id) + Count(bucket, id) <= NEW_BUCKETS_PER_ADDRESS;
      }
      WithinAll(before, front);
      var id := bucket[|bucket|-1];
      assert Uses(before, id) + Count(bucket, id) <= NEW_BUCKETS_PER_ADDRESS;
    }
  }

  lemma {:induction false} FirstFourAll(bs: seq<seq<nat>>)
    requires forall id :: Uses(bs, id) <= NEW_BUCKETS_PER_ADDRESS
    ensures FirstFour(bs) == bs
    decreases |bs|
  {
    hide Count, Within;
    if bs != [] {
      var front, last := bs[..|bs|-1], bs[|bs|-1];
      forall id ensures Uses(front, id) <= NEW_BUCKETS_PER_ADDRESS { assert Uses(bs, id) <= NEW_BUCKETS_PER_ADDRESS; }
      FirstFourAll(front);
      forall id ensures Uses(front, id) + Count(last, id) <= NEW_BUCKETS_PER_ADDRESS {
        assert Uses(bs, id) <= NEW_BUCKETS_PER_ADDRESS;
      }
      WithinAll(front, last);
    }
  }

  lemma TrimmedFormed(P: Hashing, p: Peers)
    requires WellFormed(p)
    ensures WellFormed(Trimmed(P, p)) && TriedFit(P, Trimmed(P, p).trieds)
  {
    forall k | 0 <= k < TRIED_BUCKET_COUNT ensures InBucket(P, Kept(P, p.trieds), k) <= TRIED_BUCKET_SIZE { KeptIn(P, p.trieds, k); }
    FirstFourFormed(p.buckets, |p.news|);
  }

  /** Nothing of a sound file is passed over. */
  lemma SoundUntrimmed(P: Hashing, p: Peers)
    requires Sound(P, p)
    ensures WellFormed(p) && Trimmed(P, p) == p && |p.buckets| == NEW_BUCKET_COUNT
  {
    hide NetsDistinct, TriedFit, Refs;
    KeptAll(P, p.trieds);
    forall id: nat ensures Uses(p.buckets, id) <= NEW_BUCKETS_PER_ADDRESS {
      forall b | 0 <= b < |p.buckets| ensures Count(p.buckets[b], id) <= 1 { CountIn(p.buckets[b], id); }
      UsesRefs(p.buckets, id);
      if id >= |p.news| { RefsZero(Buckets(p.buckets), id); }
    }
    FirstFourAll(p.buckets);
  }

  lemma NumberedAt(m: Infos, ds: seq<DiskInfo>, nNew: nat, id: nat)
    requires Numbered(m, ds, nNew)
    ensures id in m <==> id < |ds|
    ensures id in m ==> m[id].fInTried == (id >= nNew) && m[id].nLastSuccess == ds[id].nLastSuccess && m[id].addr.nLastTry == 0
    ensures id in m ==> m[id].Net() == ds[id].service.net
  {
    if id < |ds| { assert ReadAs(m[id], ds[id], id >= nNew); }
  }

  /** The untried entries count their buckets, one to four of them, exactly when the buckets of the
      file name nothing twice, are not overfull, and leave no entry out. */
  lemma NewOkIff(m: Infos, q: Peers)
    requires WellFormed(q) && |q.buckets| == NEW_BUCKET_COUNT
    requires Numbered(m, q.news + q.trieds, |q.news|) && Tallied(m, q.buckets, |q.news|)
    ensures NewOk(m, Buckets(q.buckets), {}) <==> BucketsFit(q)
  {
    if BucketsFit(q) { FitNewOk(m, q); }
    if NewOk(m, Buckets(q.buckets), {}) { NewOkFit(m, q); }
  }

  lemma FitNewOk(m: Infos, q: Peers)
    requires WellFormed(q) && |q.buckets| == NEW_BUCKET_COUNT && BucketsFit(q)
    requires Numbered(m, q.news + q.trieds, |q.news|) && Tallied(m, q.buckets, |q.news|)
    ensures NewOk(m, Buckets(q.buckets), {})
  {
    hide Numbered, Refs, Uses, Count;
    var vv := Buckets(q.buckets);
    forall id: nat ensures id in m && !m[id].fInTried <==> id < |q.news| { NumberedAt(m, q.news + q.trieds, |q.news|, id); }
    forall b | 0 <= b < |vv| ensures |vv[b]| <= NEW_BUCKET_SIZE { ElementsSize(q.buckets[b]); }
    forall b, id | 0 <= b < |vv| && id in vv[b] ensures id < |q.news| { assert id in q.buckets[b]; }
    forall id | 0 <= id < |q.news| ensures m[id].nRefCount == Refs(vv, id) {
      forall b | 0 <= b < |q.buckets| ensures Count(q.buckets[b], id) <= 1 { CountIn(q.buckets[b], id); }
      UsesRefs(q.buckets, id);
    }
  }

  lemma NewOkFit(m: Infos, q: Peers)
    requires WellFormed(q) && |q.buckets| == NEW_BUCKET_COUNT && NewOk(m, Buckets(q.buckets), {})
    requires Numbered(m, q.news + q.trieds, |q.news|) && Tallied(m, q.buckets, |q.news|)
    ensures BucketsFit(q)
  {
    hide Numbered, Refs, Uses, Count;
    var vv := Buckets(q.buckets);
    forall id | 0 <= id < |q.news|
      ensures m[id].nRefCount == Refs(vv, id) && 1 <= Refs(vv, id) <= NEW_BUCKETS_PER_ADDRESS && Refs(vv, id) == Uses(q.buckets, id)
    {
      NumberedAt(m, q.news + q.trieds, |q.news|, id);
    }
    forall b | 0 <= b < |q.buckets| ensures Distinct(q.buckets[b]) && |q.buckets[b]| <= NEW_BUCKET_SIZE {
      forall i, j | 0 <= i < j < |q.buckets[b]| ensures q.buckets[b][i] != q.buckets[b][j] {
        if q.buckets[b][i] == q.buckets[b][j] {
          CountTwice(q.buckets[b], i, j);
          UsesRefs(q.buckets, q.buckets[b][i]);
        }
      }
      ElementsSize(q.buckets[b]);
      assert |vv[b]| <= NEW_BUCKET_SIZE;
    }
  }

  lemma StatsIff(m: Infos, q: Peers)
    requires Numbered(m, q.news + q.trieds, |q.news|)
    ensures StatsOk(m) <==>
      && (forall i :: 0 <= i < |q.news| ==> q.news[i].nLastSuccess >= 0)
      && (forall i :: 0 <= i < |q.trieds| ==> q.trieds[i].nLastSuccess > 0)
  {
    hide Numbered;
    var all := q.news + q.trieds;
    forall id: nat ensures id in m <==> id < |all| { NumberedAt(m, all, |q.news|, id); }
    forall id | id in m
      ensures m[id].fInTried == (id >= |q.news|) && m[id].addr.nLastTry == 0
      ensures m[id].nLastSuccess == if id < |q.news| then q.news[id].nLastSuccess else q.trieds[id - |q.news|].nLastSuccess
    {
      NumberedAt(m, all, |q.news|, id);
    }
    if StatsOk(m) {
      forall i | 0 <= i < |q.trieds| ensures q.trieds[i].nLastSuccess > 0 { assert m[|q.news| + i].fInTried; }
    }
  }

  lemma NetsIff(m: Infos, a: map<CNetAddr, nat>, ds: seq<DiskInfo>, nNew: nat)
    requires Numbered(m, ds, nNew) && AddrOk(m, a)
    ensures NetsDistinct(ds)
  {
    hide Numbered;
    forall i, j | 0 <= i < j < |ds| ensures ds[i].service.net != ds[j].service.net {
      NumberedAt(m, ds, nNew, i);
      NumberedAt(m, ds, nNew, j);
    }
  }

  /** Everything a file decides but its new buckets. */
  lemma ProperIff(am: CAddrMan, q: Peers)
    requires WellFormed(q) && TriedFit(am.P, q.trieds)
    requires TriedRead(am.P, am.mapInfo, am.mapAddr, am.vRandom, am.vvTried, q.news, q.trieds)
    requires am.nNew == |q.news| && am.nTried == |q.trieds| && am.nIdCount == |q.news + q.trieds|
    ensures am.Valid() <==> Proper(am.P, q) && NewOk(am.mapInfo, am.vvNew, {})
  {
    hide RandomOk, AddrOk, Numbered, NetsDistinct, TriedOk, Refs, NewOk, StatsOk, CountsOk, WellFormed, TriedFit;
    NumberedCounts(am.mapInfo, q.news + q.trieds, |q.news|);
    StatsIff(am.mapInfo, q);
    forall id | id in am.mapInfo ensures id < am.nIdCount { NumberedAt(am.mapInfo, q.news + q.trieds, |q.news|, id); }
    if AddrOk(am.mapInfo, am.mapAddr) { NetsIff(am.mapInfo, am.mapAddr, q.news + q.trieds, |q.news|); }
  }

  lemma FreshIff(am: CAddrMan, q: Peers, m1: Infos)
    requires TriedRead(am.P, am.mapInfo, am.mapAddr, am.vRandom, am.vvTried, q.news, q.trieds)
    requires Numbered(m1, q.news, |q.news|)
    requires forall id :: id in m1 ==> id in am.mapInfo && am.mapInfo[id] == m1[id] && m1[id].nRefCount == 1
    ensures NewOk(am.mapInfo, Rehashed(am.P, q.news), {}) <==> Fit(Rehashed(am.P, q.news))
  {
    hide RandomOk, AddrOk, NetsDistinct, TriedOk, Numbered, NewOk, Rehashed, Fit;
    RehashedOk(am.P, am.mapInfo, m1, q);
  }

  /** Read a file into a manager, whatever it held. Of the tried records those are lost, and counted, that
      come when their bucket is full, and of an entry only the first four names in new buckets are taken;
      all else is in the manager. It is consistent exactly when what is left of the file is sound, or, of
      a file with another number of new buckets, when what is left is in order otherwise and none of
      the buckets made up afresh is overfull. */
  method Read(am: CAddrMan, s: seq<Token>, ghost p: Peers) returns (nLost: int)
    requires WellFormed(p) && s == Encode(p)
    modifies am
    ensures am.P == old(am.P).(nKey := p.nKey)
    ensures var q := Trimmed(am.P, p);
      && nLost == |p.trieds| - |q.trieds| && am.nNew == |p.news| && am.nTried == |q.trieds|
      && Numbered(am.mapInfo, q.news + q.trieds, |q.news|) && TriedOk(am.P, am.mapInfo, am.vvTried)
      && am.vvNew == (if |p.buckets| == NEW_BUCKET_COUNT then Buckets(q.buckets) else Rehashed(am.P, p.news))
      && (am.Valid() <==>
            if |p.buckets| == NEW_BUCKET_COUNT then Sound(am.P, q) else Proper(am.P, q) && Fit(Rehashed(am.P, p.news)))
  {
    hide TriedRead, Numbered, NetsDistinct, TriedFit, Tallied, RandomOk, AddrOk, TriedOk, NewOk, Proper, BucketsFit,
      Rehashed, Fit, Encode, Buckets, WellFormed, Kept, FirstFour, CAddrMan.Valid;
    EncodeHead(p);
    TrimmedFormed(am.P.(nKey := p.nKey), p);
    var nVersion := s[0].n;
    am.P := am.P.(nKey := s[1].n);
    am.nNew := s[2].n;
    am.nTried := s[3].n;
    var nUBuckets := s[4].n;
    var rest := s[5..];
    ghost var q := Trimmed(am.P, p);
    Clear(am);
    rest := ReadNew(am, rest, nUBuckets, p.news, InfoTokens(p.trieds) + BucketTokens(p.buckets));
    am.nIdCount := am.nNew;
    ghost var m1 := am.mapInfo;
    NothingTried(am.P, m1, am.mapAddr, am.vRandom, am.vvTried, p.news);
    rest, nLost := ReadTried(am, rest, p.news, p.trieds, BucketTokens(p.buckets));
    am.nTried := am.nTried - nLost;
    if nUBuckets == NEW_BUCKET_COUNT { NothingTallied(m1, am.mapInfo, p.news); }
    rest := ReadBuckets(am, rest, nUBuckets, p, q.trieds);
    TablesRead(am.P, am.mapInfo, am.mapAddr, am.vRandom, am.vvTried, q);
    ProperIff(am, q);
    if nUBuckets == NEW_BUCKET_COUNT { NewOkIff(am.mapInfo, q); } else { FreshIff(am, q, m1); }
  }

  lemma TablesRead(P: Hashing, m: Infos, a: map<CNetAddr, nat>, v: seq<nat>, vv: seq<seq<nat>>, q: Peers)
    requires TriedRead(P, m, a, v, vv, q.news, q.trieds)
    ensures Numbered(m, q.news + q.trieds, |q.news|) && TriedOk(P, m, vv)
  {
  }

  method Clear(am: CAddrMan)
    modifies am`nIdCount, am`mapInfo, am`mapAddr, am`vRandom, am`vvTried, am`vvNew
    ensures am.nIdCount == 0 && am.mapInfo == map[] && am.mapAddr == map[] && am.vRandom == []
    ensures |am.vvTried| == TRIED_BUCKET_COUNT && forall k :: 0 <= k < |am.vvTried| ==> am.vvTried[k] == []
    ensures |am.vvNew| == NEW_BUCKET_COUNT && forall b :: 0 <= b < |am.vvNew| ==> am.vvNew[b] == {}
  {
    am.nIdCount, am.mapInfo, am.mapAddr, am.vRandom := 0, map[], map[], [];
    am.vvTried := seq(TRIED_BUCKET_COUNT, i => []);
    am.vvNew := seq(NEW_BUCKET_COUNT, i => {});
  }

  lemma EncodeHead(p: Peers)
    ensures var s := Encode(p);
      && |s| >= 5 && s[0] == Number(0) && s[1] == Number(p.nKey) && s[2] == Number(|p.news|) && s[3] == Number(|p.trieds|)
      && s[4] == Number(|p.buckets|) && s[5..] == InfoTokens(p.news) + (InfoTokens(p.trieds) + BucketTokens(p.buckets))
  {
  }

  /** Entries put into buckets afresh: each is in one bucket, and counts one reference. */
  lemma RehashedOk(P: Hashing, m: Infos, m1: Infos, p: Peers)
    requires Numbered(m, p.news + p.trieds, |p.news|) && Numbered(m1, p.news, |p.news|)
    requires forall id :: id in m1 ==> id in m && m[id] == m1[id] && m[id].nRefCount == 1
    ensures NewOk(m, Rehashed(P, p.news), {}) <==> Fit(Rehashed(P, p.news))
  {
    var vv, all := Rehashed(P, p.news), p.news + p.trieds;
    if Fit(vv) {
      forall b, id | 0 <= b < |vv| && id in vv[b] ensures id in m && !m[id].fInTried {
        assert ReadAs(m[id], all[id], id >= |p.news|);
      }
      forall id | id in m && !m[id].fInTried
        ensures m[id].nRefCount == Refs(vv, id) && 1 <= m[id].nRefCount <= NEW_BUCKETS_PER_ADDRESS
      {
        assert ReadAs(m[id], all[id], id >= |p.news|);
        assert id in m1;
        RefsSingle(vv, NewBucketOf(P, p.news[id]), id);
      }
    }
  }

  /** Every address has the same bucket. */
  const ONE_BUCKET := Hashing(0, (k: Key, s: CService) => 0, (k: Key, n: CNetAddr, o: CNetAddr) => 0, (n: CNetAddr) => true)

  /** Sixty-five addresses, in a file with a single bucket. */
  function Crowd(): Peers {
    Peers(0, seq(NEW_BUCKET_SIZE + 1, (i: nat) => DiskInfo(CService(i, 0), {}, 0, 0, 0, 0)), [], [[]])
  }

  lemma CrowdOverfills()
    ensures var P, p := ONE_BUCKET, Crowd(); Proper(P, p) && |p.buckets| != NEW_BUCKET_COUNT && !Fit(Rehashed(P, p.news))
  {
    var P, p := ONE_BUCKET, Crowd();
    var first := Rehashed(P, p.news)[0];
    assert first == Span(0, NEW_BUCKET_SIZE + 1) by {
      forall i: nat ensures i in first <==> i < NEW_BUCKET_SIZE + 1 {
        if i < NEW_BUCKET_SIZE + 1 { assert NewBucketOf(P, p.news[i]) == 0; }
      }
    }
    CrowdIsProper();
  }

  lemma CrowdIsProper()
    ensures Proper(ONE_BUCKET, Crowd())
  {
    var p := Crowd();
    assert p.news + p.trieds == p.news;
    forall k | 0 <= k < TRIED_BUCKET_COUNT ensures InBucket(ONE_BUCKET, p.trieds, k) <= TRIED_BUCKET_SIZE { }
  }

  lemma NothingTallied(m1: Infos, m: Infos, news: seq<DiskInfo>)
    requires Numbered(m1, news, |news|) && forall id :: id in m1 ==> m1[id].nRefCount == 0
    requires forall id :: id in m1 ==> id in m && m[id] == m1[id]
    ensures Tallied(m, [], |news|)
  {
  }

  // ----- writing ------------------------------------------------------------------------------------

  /** The records written for the entries of one kind that are not still to do. */
  predicate Written(m: Infos, keys: seq<nat>, ds: seq<DiskInfo>, todo: set<nat>, tried: bool) {
    && Distinct(keys) && |ds| == |keys|
    && (forall i :: 0 <= i < |keys| ==> keys[i] in m && m[keys[i]].fInTried == tried && keys[i] !in todo && ds[i] == ToDisk(m[keys[i]]))
    && (forall id :: id in m && m[id].fInTried == tried && id !in todo ==> id in keys)
  }

  lemma WriteStart(m: Infos, todo: set<nat>, tried: bool)
    requires m.Keys <= todo
    ensures InfoTokens([]) == [] && Written(m, [], [], todo, tried)
  {
  }

  lemma WriteNext(m: Infos, keys: seq<nat>, ds: seq<DiskInfo>, todo: set<nat>, tried: bool, id: nat)
    requires Written(m, keys, ds, todo, tried) && id in todo && id in m
    ensures m[id].fInTried == tried ==>
      && Written(m, keys + [id], ds + [ToDisk(m[id])], todo - {id}, tried)
      && InfoTokens(ds + [ToDisk(m[id])]) == InfoTokens(ds) + [Info(ToDisk(m[id]))]
    ensures m[id].fInTried != tried ==> Written(m, keys, ds, todo - {id}, tried)
  {
    InfoSnoc(ds, ToDisk(m[id]));
    var keys' := keys + [id];
    assert forall x :: x in keys ==> x in keys';
    assert keys'[|keys|] == id;
  }

  function IdsOf(m: Infos, tried: bool): set<nat> { if tried then TriedIds(m) else NewIds(m) }

  lemma SubsetSize(a: set<nat>, b: set<nat>)
    requires a <= b
    ensures |a| <= |b| && (|a| == |b| ==> a == b)
  {
    assert b == a + (b - a);
  }

  /** Having written as many records as there are entries of the kind, all are written. */
  lemma WriteDone(m: Infos, keys: seq<nat>, ds: seq<DiskInfo>, todo: set<nat>, tried: bool)
    requires Written(m, keys, ds, todo, tried) && (todo == {} || |keys| == |IdsOf(m, tried)|)
    ensures Written(m, keys, ds, {}, tried) && |keys| == |IdsOf(m, tried)|
  {
    ElementsSize(keys);
    assert Elements(keys) <= IdsOf(m, tried);
    if todo == {} {
      forall id | id in IdsOf(m, tried) ensures id in Elements(keys) {
        assert id in keys;
      }
    } else {
      SubsetSize(Elements(keys), IdsOf(m, tried));
    }
    assert Elements(keys) == IdsOf(m, tried);
    forall id | id in m && m[id].fInTried == tried ensures id in keys {
      assert id in IdsOf(m, tried);
      assert id in Elements(keys);
    }
  }

  lemma UntriedCounted(m: Infos, vvNew: seq<set<nat>>, P: Hashing, vvTried: seq<seq<nat>>, id: nat)
    requires NewOk(m, vvNew, {}) && TriedOk(P, m, vvTried) && id in m
    ensures m[id].nRefCount != 0 <==> !m[id].fInTried
  {
  }

  method WriteNew(am: CAddrMan)
    returns (s: seq<Token>, mapUnkIds: map<nat, nat>, ghost keys: seq<nat>, ghost ds: seq<DiskInfo>)
    requires am.Valid()
    ensures s == InfoTokens(ds) && Written(am.mapInfo, keys, ds, {}, false) && |keys| == am.nNew
    ensures forall i :: 0 <= i < |keys| ==> keys[i] in mapUnkIds && mapUnkIds[keys[i]] == i
  {
    hide RandomOk, AddrOk, NewOk, TriedOk, StatsOk, NewIds, TriedIds, InfoTokens, ToDisk;
    var m := am.mapInfo;
    var todo := m.Keys;
    var nIds := 0;
    s, mapUnkIds, keys, ds := [], map[], [], [];
    WriteStart(m, todo, false);
    while todo != {}
      invariant todo <= m.Keys && nIds == |keys|
      invariant s == InfoTokens(ds) && Written(m, keys, ds, todo, false)
      invariant forall i :: 0 <= i < |keys| ==> keys[i] in mapUnkIds && mapUnkIds[keys[i]] == i
      decreases todo
    {
      var id := Least(todo);
      if nIds == am.nNew { break; }
      assert forall i :: 0 <= i < |keys| ==> keys[i] != id;
      mapUnkIds := mapUnkIds[id := nIds];
      UntriedCounted(m, am.vvNew, am.P, am.vvTried, id);
      WriteNext(m, keys, ds, todo, false, id);
      hide Written;
      if m[id].nRefCount != 0 {
        s := s + [Info(ToDisk(m[id]))];
        nIds := nIds + 1;
        keys, ds := keys + [id], ds + [ToDisk(m[id])];
      }
      todo := todo - {id};
    }
    WriteDone(m, keys, ds, todo, false);
  }

  method WriteTried(am: CAddrMan) returns (s: seq<Token>, ghost keys: seq<nat>, ghost ds: seq<DiskInfo>)
    requires am.Valid()
    ensures s == InfoTokens(ds) && Written(am.mapInfo, keys, ds, {}, true) && |keys| == am.nTried
  {
    hide RandomOk, AddrOk, NewOk, TriedOk, StatsOk, NewIds, TriedIds, InfoTokens, ToDisk, Written;
    var m := am.mapInfo;
    var todo := m.Keys;
    var nIds := 0;
    s, keys, ds := [], [], [];
    WriteStart(m, todo, true);
    while todo != {}
      invariant todo <= m.Keys && nIds == |keys|
      invariant s == InfoTokens(ds) && Written(m, keys, ds, todo, true)
      decreases todo
    {
      var id := Least(todo);
      if nIds == am.nTried { break; }
      WriteNext(m, keys, ds, todo, true, id);
      if m[id].fInTried {
        s := s + [Info(ToDisk(m[id]))];
        nIds := nIds + 1;
        keys, ds := keys + [id], ds + [ToDisk(m[id])];
      }
      todo := todo - {id};
    }
    WriteDone(m, keys, ds, todo, true);
  }

  /** A new bucket as positions: position `i` occurs, once, exactly when the `i`th id is in the bucket. */
  predicate Positions(keys: seq<nat>, ids: set<nat>, bucket: seq<nat>) {
    && Distinct(bucket) && |bucket| == |ids|
    && (forall j :: 0 <= j < |bucket| ==> bucket[j] < |keys| && keys[bucket[j]] in ids)
    && (forall i :: 0 <= i < |keys| && keys[i] in ids ==> i in bucket)
  }

  lemma NextPosition(keys: seq<nat>, ids: set<nat>, bucket: seq<nat>, pos: nat)
    requires Distinct(keys) && Positions(keys, ids, bucket) && pos < |keys| && keys[pos] !in ids
    ensures Positions(keys, ids + {keys[pos]}, bucket + [pos])
  {
    var bucket' := bucket + [pos];
    assert bucket'[|bucket|] == pos;
    assert forall x :: x in bucket ==> x in bucket';
  }

  method WriteBucket(vNew: set<nat>, mapUnkIds: map<nat, nat>, ghost keys: seq<nat>)
    returns (s: seq<Token>, ghost bucket: seq<nat>)
    requires Distinct(keys) && forall i :: 0 <= i < |keys| ==> keys[i] in mapUnkIds && mapUnkIds[keys[i]] == i
    requires forall id :: id in vNew ==> id in keys
    ensures s == [Number(|bucket|)] + NumberTokens(bucket) && Positions(keys, vNew, bucket)
  {
    hide Positions, Distinct, NumberTokens;
    var todo := vNew;
    var out: seq<Token> := [];
    bucket := [];
    NoPosition(keys);
    assert vNew - todo == {};
    while todo != {}
      invariant todo <= vNew && out == NumberTokens(bucket) && Positions(keys, vNew - todo, bucket)
      decreases todo
    {
      var id := Least(todo);
      assert id in keys;
      var nIndex := mapUnkIds[id];
      NumberSnoc(bucket, nIndex);
      NextPosition(keys, vNew - todo, bucket, nIndex);
      assert vNew - todo + {id} == vNew - (todo - {id});
      out := out + [Number(nIndex)];
      bucket := bucket + [nIndex];
      todo := todo - {id};
    }
    assert vNew - todo == vNew;
    s := [Number(|vNew|)] + out;
    AllPositions(keys, vNew, bucket);
  }

  lemma NoPosition(keys: seq<nat>)
    ensures Positions(keys, {}, []) && NumberTokens([]) == []
  {
  }

  lemma AllPositions(keys: seq<nat>, ids: set<nat>, bucket: seq<nat>)
    requires Positions(keys, ids, bucket)
    ensures |bucket| == |ids|
  {
  }

  method WriteBuckets(vvNew: seq<set<nat>>, mapUnkIds: map<nat, nat>, ghost keys: seq<nat>)
    returns (s: seq<Token>, ghost buckets: seq<seq<nat>>)
    requires Distinct(keys) && forall i :: 0 <= i < |keys| ==> keys[i] in mapUnkIds && mapUnkIds[keys[i]] == i
    requires forall b, id :: 0 <= b < |vvNew| && id in vvNew[b] ==> id in keys
    ensures s == BucketTokens(buckets) && |buckets| == |vvNew|
    ensures forall b :: 0 <= b < |vvNew| ==> Positions(keys, vvNew[b], buckets[b])
  {
    hide Positions, Distinct, NumberTokens;
    s, buckets := [], [];
    for b := 0 to |vvNew|
      invariant s == BucketTokens(buckets) && |buckets| == b
      invariant forall c :: 0 <= c < b ==> Positions(keys, vvNew[c], buckets[c])
    {
      assert forall id :: id in vvNew[b] ==> id in keys;
      ghost var bucket;
      var part;
      part, bucket := WriteBucket(vvNew[b], mapUnkIds, keys);
      BucketSnoc(buckets, bucket);
      hide BucketTokens;
      s := s + part;
      buckets := buckets + [bucket];
    }
  }

  /** The file describes the tables: its untried records are those of `news`, its tried ones those of
      `trieds`, its buckets the new buckets. */
  predicate Describes(m: Infos, vvNew: seq<set<nat>>, news: seq<nat>, trieds: seq<nat>, p: Peers) {
    && Written(m, news, p.news, {}, false) && Written(m, trieds, p.trieds, {}, true)
    && |p.buckets| == |vvNew|
    && (forall b :: 0 <= b < |vvNew| ==> Positions(news, vvNew[b], p.buckets[b]))
  }

  /** The file is `p` written out, and `p` describes the manager under these keys. */
  ghost predicate Saved(am: CAddrMan, s: seq<Token>, p: Peers, news: seq<nat>, trieds: seq<nat>)
    reads am
  {
    s == Encode(p) && Describes(am.mapInfo, am.vvNew, news, trieds, p)
  }

  /** Write a manager out: the file describes it, and is sound. */
  method Write(am: CAddrMan) returns (s: seq<Token>, ghost p: Peers, ghost news: seq<nat>, ghost trieds: seq<nat>)
    requires am.Valid()
    ensures exists q, keysNew, keysTried :: Saved(am, s, q, keysNew, keysTried)
    ensures s == Encode(p) && Describes(am.mapInfo, am.vvNew, news, trieds, p) && Sound(am.P, p)
    ensures p.nKey == am.P.nKey && |p.news| == am.nNew && |p.trieds| == am.nTried
  {
    hide RandomOk, AddrOk, NewOk, TriedOk, StatsOk, Positions, Sound, Distinct;
    ghost var dsNew, dsTried, buckets;
    var sNew, mapUnkIds, sTried, sBuckets;
    sNew, mapUnkIds, news, dsNew := WriteNew(am);
    sTried, trieds, dsTried := WriteTried(am);
    BucketsKnown(am.mapInfo, am.vvNew, news, dsNew);
    sBuckets, buckets := WriteBuckets(am.vvNew, mapUnkIds, news);
    s := [Number(0), Number(am.P.nKey), Number(am.nNew), Number(am.nTried), Number(NEW_BUCKET_COUNT)] + (sNew + (sTried + sBuckets));
    p := Peers(am.P.nKey, dsNew, dsTried, buckets);
    DescribedIsSound(am.P, am.mapInfo, am.mapAddr, am.vvNew, am.vvTried, news, trieds, p);
    assert Saved(am, s, p, news, trieds);
  }

  lemma BucketsKnown(m: Infos, vvNew: seq<set<nat>>, news: seq<nat>, ds: seq<DiskInfo>)
    requires NewOk(m, vvNew, {}) && Written(m, news, ds, {}, false)
    ensures |vvNew| == NEW_BUCKET_COUNT && forall b, id :: 0 <= b < |vvNew| && id in vvNew[b] ==> id in news
  {
  }

  lemma DescribedIsSound(P: Hashing, m: Infos, a: map<CNetAddr, nat>, vvNew: seq<set<nat>>, vvTried: seq<seq<nat>>,
                         news: seq<nat>, trieds: seq<nat>, p: Peers)
    requires AddrOk(m, a) && NewOk(m, vvNew, {}) && TriedOk(P, m, vvTried) && StatsOk(m)
    requires Describes(m, vvNew, news, trieds, p)
    ensures Sound(P, p)
  {
    hide AddrOk, NewOk, TriedOk, Positions, NetsDistinct, Written, Refs, StatsOk;
    RecordStats(m, news, p.news, false);
    RecordStats(m, trieds, p.trieds, true);
    NetsOf(m, a, news, trieds, p);
    BucketShapes(m, vvNew, news, p);
    forall i | 0 <= i < |p.news| ensures 1 <= Refs(Buckets(p.buckets), i) <= NEW_BUCKETS_PER_ADDRESS {
      RefsOfRecord(m, vvNew, news, p, i);
    }
    forall k | 0 <= k < TRIED_BUCKET_COUNT ensures InBucket(P, p.trieds, k) <= TRIED_BUCKET_SIZE {
      TriedRecords(P, m, vvTried, trieds, p.trieds, k);
    }
  }

  lemma RecordStats(m: Infos, keys: seq<nat>, ds: seq<DiskInfo>, tried: bool)
    requires StatsOk(m) && Written(m, keys, ds, {}, tried)
    ensures |ds| == |keys|
    ensures forall i :: 0 <= i < |ds| ==> ds[i].nLastSuccess >= 0 && (tried ==> ds[i].nLastSuccess > 0)
  {
  }

  lemma NetsOf(m: Infos, a: map<CNetAddr, nat>, news: seq<nat>, trieds: seq<nat>, p: Peers)
    requires AddrOk(m, a) && Written(m, news, p.news, {}, false) && Written(m, trieds, p.trieds, {}, true)
    ensures NetsDistinct(p.news + p.trieds)
  {
    var keys, all := news + trieds, p.news + p.trieds;
    forall i | 0 <= i < |keys| ensures keys[i] in m && all[i] == ToDisk(m[keys[i]]) {
    }
    forall i, j | 0 <= i < j < |all| ensures all[i].service.net != all[j].service.net {
      assert keys[i] != keys[j];
    }
  }

  lemma BucketShapes(m: Infos, vvNew: seq<set<nat>>, news: seq<nat>, p: Peers)
    requires NewOk(m, vvNew, {}) && |p.buckets| == |vvNew| && |news| == |p.news|
    requires forall b :: 0 <= b < |vvNew| ==> Positions(news, vvNew[b], p.buckets[b])
    ensures WellFormed(p) && |p.buckets| == NEW_BUCKET_COUNT
    ensures forall b :: 0 <= b < |p.buckets| ==> Distinct(p.buckets[b]) && |p.buckets[b]| <= NEW_BUCKET_SIZE
  {
    forall b | 0 <= b < |p.buckets| ensures Distinct(p.buckets[b]) && |p.buckets[b]| <= NEW_BUCKET_SIZE {
      assert Positions(news, vvNew[b], p.buckets[b]);
    }
    forall b, i | 0 <= b < |p.buckets| && 0 <= i < |p.buckets[b]| ensures p.buckets[b][i] < |p.news| {
      assert Positions(news, vvNew[b], p.buckets[b]);
    }
  }

  lemma {:induction false} RefsMatch(vv: seq<set<nat>>, vv': seq<set<nat>>, id: nat, id': nat)
    requires |vv| == |vv'| && forall b :: 0 <= b < |vv| ==> (id in vv[b] <==> id' in vv'[b])
    ensures Refs(vv, id) == Refs(vv', id')
    decreases |vv|
  {
    if vv != [] {
      var n := |vv| - 1;
      forall b | 0 <= b < n ensures id in vv[..n][b] <==> id' in vv'[..n][b] { assert id in vv[b] <==> id' in vv'[b]; }
      RefsMatch(vv[..n], vv'[..n], id, id');
    }
  }

  lemma RefsOfRecord(m: Infos, vvNew: seq<set<nat>>, news: seq<nat>, p: Peers, i: nat)
    requires NewOk(m, vvNew, {})
    requires Written(m, news, p.news, {}, false) && |p.buckets| == |vvNew| && i < |p.news|
    requires forall b :: 0 <= b < |vvNew| ==> Positions(news, vvNew[b], p.buckets[b])
    ensures 1 <= Refs(Buckets(p.buckets), i) <= NEW_BUCKETS_PER_ADDRESS
    ensures news[i] in m && Refs(Buckets(p.buckets), i) == m[news[i]].nRefCount
  {
    forall b | 0 <= b < |vvNew| ensures news[i] in vvNew[b] <==> i in Buckets(p.buckets)[b] {
      assert Positions(news, vvNew[b], p.buckets[b]);
      AtPosition(news, vvNew[b], p.buckets[b], i);
    }
    RefsMatch(vvNew, Buckets(p.buckets), news[i], i);
  }

  lemma AtPosition(keys: seq<nat>, ids: set<nat>, bucket: seq<nat>, i: nat)
    requires Positions(keys, ids, bucket) && i < |keys|
    ensures i in Elements(bucket) <==> keys[i] in ids
  {
  }

  /** Tried records of one bucket come from the entries of that bucket. */
  lemma TriedRecords(P: Hashing, m: Infos, vvTried: seq<seq<nat>>, keys: seq<nat>, ds: seq<DiskInfo>, k: nat)
    requires TriedOk(P, m, vvTried) && Written(m, keys, ds, {}, true) && k < TRIED_BUCKET_COUNT
    ensures InBucket(P, ds, k) <= TRIED_BUCKET_SIZE
  {
    var inK := InBucketIds(P, m, vvTried, keys, ds, k, |ds|);
    assert ds[..|ds|] == ds;
    ElementsSize(vvTried[k]);
    SubsetSize(inK, Elements(vvTried[k]));
  }

  lemma RecordInBucket(P: Hashing, m: Infos, vvTried: seq<seq<nat>>, keys: seq<nat>, ds: seq<DiskInfo>, i: nat)
    requires TriedOk(P, m, vvTried) && Written(m, keys, ds, {}, true) && i < |ds|
    ensures |keys| == |ds| && Distinct(keys) && BucketOf(P, ds[i]) < |vvTried| && keys[i] in Elements(vvTried[BucketOf(P, ds[i])])
  {
  }

  lemma {:induction false} InBucketIds(P: Hashing, m: Infos, vvTried: seq<seq<nat>>, keys: seq<nat>, ds: seq<DiskInfo>, k: nat, n: nat)
    returns (ids: set<nat>)
    requires TriedOk(P, m, vvTried) && Written(m, keys, ds, {}, true) && k < TRIED_BUCKET_COUNT && n <= |ds|
    ensures |ids| == InBucket(P, ds[..n], k) && ids <= Elements(vvTried[k])
    ensures forall id :: id in ids ==> id in keys[..n]
  {
    hide TriedOk, Written;
    if n == 0 {
      ids := {};
    } else {
      ids := InBucketIds(P, m, vvTried, keys, ds, k, n - 1);
      assert ds[..n][..n - 1] == ds[..n - 1];
      RecordInBucket(P, m, vvTried, keys, ds, n - 1);
      assert keys[..n] == keys[..n - 1] + [keys[n - 1]];
      if BucketOf(P, ds[n - 1]) == k {
        assert keys[n - 1] !in keys[..n - 1];
        ids := ids + {keys[n - 1]};
      }
    }
  }

  // ----- the round trip -----------------------------------------------------------------------------

  /** Two managers with the same content: the second calls `i` what the first calls `keys[i]`. */
  ghost predicate Renumbered(am: CAddrMan, am': CAddrMan, keys: seq<nat>)
    reads am, am'
  {
    && Distinct(keys) && |am.vvNew| == |am'.vvNew| && |am.vvTried| == |am'.vvTried|
    && (forall id :: id in am.mapInfo <==> id in keys) && (forall i: nat :: i in am'.mapInfo <==> i < |keys|)
    && (forall i :: 0 <= i < |keys| ==> SameEntry(am.mapInfo[keys[i]], am'.mapInfo[i]))
    && (forall b, i :: 0 <= b < |am.vvNew| && 0 <= i < |keys| ==> (i in am'.vvNew[b] <==> keys[i] in am.vvNew[b]))
    && (forall k, i :: 0 <= k < |am.vvTried| && 0 <= i < |keys| ==> (i in am'.vvTried[k] <==> keys[i] in am.vvTried[k]))
  }

  /** Equal but for the id, the place in vRandom and the time of the last attempt, which is not stored. */
  predicate SameEntry(x: CAddrInfo, y: CAddrInfo) {
    y == x.(nRandomPos := y.nRandomPos, addr := x.addr.(nLastTry := 0))
  }

  lemma InTriedBucket(P: Hashing, m: Infos, vv: seq<seq<nat>>, id: nat, k: nat)
    requires TriedOk(P, m, vv) && k < TRIED_BUCKET_COUNT && id in m
    ensures |vv| == TRIED_BUCKET_COUNT && (id in vv[k] <==> m[id].fInTried && TriedBucket(P, m[id]) == k)
  {
    if id in vv[k] {
      var i :| 0 <= i < |vv[k]| && vv[k][i] == id;
    }
  }

  /** What was read for the `i`th key is what was written for it. */
  lemma EntryReadBack(am: CAddrMan, am': CAddrMan, news: seq<nat>, trieds: seq<nat>, p: Peers, i: nat)
    requires am.P == am'.P && am.Valid() && am'.Valid() && Describes(am.mapInfo, am.vvNew, news, trieds, p)
    requires Numbered(am'.mapInfo, p.news + p.trieds, |p.news|) && am'.vvNew == Buckets(p.buckets)
    requires i < |news + trieds|
    ensures (news + trieds)[i] in am.mapInfo && i in am'.mapInfo
    ensures SameEntry(am.mapInfo[(news + trieds)[i]], am'.mapInfo[i])
    ensures TriedBucket(am.P, am.mapInfo[(news + trieds)[i]]) == TriedBucket(am.P, am'.mapInfo[i])
  {
    hide RandomOk, AddrOk, StatsOk, CountsOk, NewOk, TriedOk, Positions, Refs;
    var keys := news + trieds;
    var all := p.news + p.trieds;
    assert ReadAs(am'.mapInfo[i], all[i], i >= |p.news|);
    if i < |news| {
      assert keys[i] == news[i] && all[i] == p.news[i];
      RefsOfRecord(am.mapInfo, am.vvNew, news, p, i);
      Uncounted(am'.P, am'.mapInfo, am'.vvNew, am'.vvTried, i);
    } else {
      assert keys[i] == trieds[i - |news|] && all[i] == p.trieds[i - |p.news|];
      Uncounted(am.P, am.mapInfo, am.vvNew, am.vvTried, keys[i]);
      Uncounted(am'.P, am'.mapInfo, am'.vvNew, am'.vvTried, i);
    }
  }

  lemma Uncounted(P: Hashing, m: Infos, vvNew: seq<set<nat>>, vvTried: seq<seq<nat>>, id: nat)
    requires NewOk(m, vvNew, {}) && TriedOk(P, m, vvTried) && id in m
    ensures m[id].nRefCount == if m[id].fInTried then 0 else Refs(vvNew, id)
  {
  }

  lemma KeysListed(m: Infos, news: seq<nat>, trieds: seq<nat>, dsNew: seq<DiskInfo>, dsTried: seq<DiskInfo>)
    requires Written(m, news, dsNew, {}, false) && Written(m, trieds, dsTried, {}, true)
    ensures Distinct(news + trieds) && forall id :: id in m <==> id in news + trieds
    ensures |dsNew| == |news| && |dsTried| == |trieds|
  {
    forall id ensures id in m <==> id in news + trieds {
      if id in m { assert if m[id].fInTried then id in trieds else id in news; }
    }
  }

  lemma BucketReadBack(m: Infos, vvNew: seq<set<nat>>, news: seq<nat>, trieds: seq<nat>, p: Peers, b: nat, i: nat)
    requires NewOk(m, vvNew, {}) && Describes(m, vvNew, news, trieds, p) && b < |vvNew| && i < |news + trieds|
    ensures i in Buckets(p.buckets)[b] <==> (news + trieds)[i] in vvNew[b]
  {
    var keys := news + trieds;
    assert Positions(news, vvNew[b], p.buckets[b]);
    if i < |news| {
      assert keys[i] == news[i];
      AtPosition(news, vvNew[b], p.buckets[b], i);
    } else {
      assert keys[i] == trieds[i - |news|];
      assert forall j :: 0 <= j < |p.buckets[b]| ==> p.buckets[b][j] < |news|;
      assert i !in p.buckets[b];
    }
  }

  lemma RenumberedByReading(am: CAddrMan, am': CAddrMan, news: seq<nat>, trieds: seq<nat>, p: Peers)
    requires am.P == am'.P && am.Valid() && am'.Valid() && Describes(am.mapInfo, am.vvNew, news, trieds, p)
    requires Numbered(am'.mapInfo, p.news + p.trieds, |p.news|) && am'.vvNew == Buckets(p.buckets)
    ensures Renumbered(am, am', news + trieds)
  {
    hide RandomOk, AddrOk, StatsOk, CountsOk, NewOk, TriedOk, Positions, Refs, Written, Distinct;
    var keys := news + trieds;
    KeysListed(am.mapInfo, news, trieds, p.news, p.trieds);
    TriedCounts(am.P, am.mapInfo, am.vvTried);
    TriedCounts(am'.P, am'.mapInfo, am'.vvTried);
    forall i | 0 <= i < |keys| ensures SameEntry(am.mapInfo[keys[i]], am'.mapInfo[i]) {
      EntryReadBack(am, am', news, trieds, p, i);
    }
    forall b, i | 0 <= b < |am.vvNew| && 0 <= i < |keys| ensures i in am'.vvNew[b] <==> keys[i] in am.vvNew[b] {
      BucketReadBack(am.mapInfo, am.vvNew, news, trieds, p, b, i);
    }
    forall k, i | 0 <= k < |am.vvTried| && 0 <= i < |keys| ensures i in am'.vvTried[k] <==> keys[i] in am.vvTried[k] {
      EntryReadBack(am, am', news, trieds, p, i);
      InTriedBucket(am.P, am.mapInfo, am.vvTried, keys[i], k);
      InTriedBucket(am.P, am'.mapInfo, am'.vvTried, i, k);
    }
  }

  lemma TriedCounts(P: Hashing, m: Infos, vv: seq<seq<nat>>)
    requires TriedOk(P, m, vv)
    ensures |vv| == TRIED_BUCKET_COUNT
  {
  }

  /** Writing a manager and reading the file into another, which had a key of its own, loses nothing: the copy is consistent, no
      entry is lost, and the two differ by a renumbering of the ids only. */
  method RoundTrip(am: CAddrMan, am': CAddrMan) returns (nLost: int, ghost keys: seq<nat>)
    requires am.Valid() && am != am' && am'.P.(nKey := am.P.nKey) == am.P
    modifies am'
    ensures am'.P == am.P && am'.Valid() && nLost == 0 && Renumbered(am, am', keys)
    ensures am'.nNew == am.nNew && am'.nTried == am.nTried
  {
    hide RandomOk, AddrOk, StatsOk, CountsOk, NewOk, TriedOk, Positions, Refs, Written, Distinct, Sound, Numbered, Describes, Renumbered, Encode;
    var s;
    ghost var p, news, trieds;
    s, p, news, trieds := Write(am);
    SoundUntrimmed(am.P, p);
    nLost := Read(am', s, p);
    RenumberedByReading(am, am', news, trieds, p);
    keys := news + trieds;
  }
}
