/**
 The wire format: a 24-byte header (start bytes, command, size, checksum) before every payload. The
 writer patches size and checksum into the send buffer (src/net.h), the reader finds the messages again
 in whatever pieces the bytes arrive in (ProcessMessages in src/main.cpp, src/protocol.cpp).
 */
module Framing {
  import opened Numbers

  const MAX_SIZE := 0x0200_0000
  const HEADER_SIZE := 24
  const COMMAND_SIZE := 12
  const MESSAGE_SIZE_OFFSET := 16
  const CHECKSUM_OFFSET := 20

  type Bytes = seq<byte>

  type Four = s: Bytes | |s| == 4 witness [0, 0, 0, 0]

  /** The start bytes of the network and the first four bytes of the payload hash. */
  datatype Net = Net(start: Four, checksum: Bytes -> Four)

  datatype Message = Message(command: Bytes, payload: Bytes)

  function Le32(n: nat): Four
    requires n < 0x1_0000_0000
  {
    [n % 256, n / 256 % 256, n / 65536 % 256, n / 16777216]
  }

  function FromLe32(b: Four): nat {
    var (b0: nat, b1: nat, b2: nat, b3: nat) := (b[0], b[1], b[2], b[3]);
    b0 + 256 * b1 + 65536 * b2 + 16777216 * b3
  }

  lemma Le32RoundTrip(n: nat)
    requires n < 0x1_0000_0000
    ensures FromLe32(Le32(n)) == n
  {
  }

  // ----- the header -----------------------------------------------------------------------------------------

  function Min(a: int, b: int): int { if a < b then a else b }

  /** strncpy of at most eleven characters, and a final zero. */
  function CommandField(command: Bytes): (c: Bytes)
    ensures |c| == COMMAND_SIZE
  {
    var n := Min(|command|, COMMAND_SIZE - 1);
    command[..n] + seq(COMMAND_SIZE - n, i => 0)
  }

  function Header(N: Net, command: Bytes, size: Four, checksum: Four): (h: Bytes)
    ensures |h| == HEADER_SIZE
  {
    N.start + CommandField(command) + size + checksum
  }

  function Frame(N: Net, m: Message): Bytes
    requires |m.payload| < 0x1_0000_0000
  {
    Header(N, m.command, Le32(|m.payload|), N.checksum(m.payload)) + m.payload
  }

  predicate Printable(b: byte) { 0x20 <= b <= 0x7E }

  /** Zeros only at the end, printable characters before. */
  predicate ValidCommand(c: Bytes) {
    forall i :: 0 <= i < |c| ==> (if c[i] == 0 then forall j :: i <= j < |c| ==> c[j] == 0 else Printable(c[i]))
  }

  /** The place of the first zero, or the length. */
  function StrLen(c: Bytes): (n: nat)
    ensures n <= |c| && (n < |c| ==> c[n] == 0) && forall i :: 0 <= i < n ==> c[i] != 0
  {
    if c == [] || c[0] == 0 then 0 else 1 + StrLen(c[1..])
  }

  /** The command without its padding; a field that does not end in a zero is taken whole. */
  function CommandOf(c: Bytes): Bytes
    requires |c| == COMMAND_SIZE
  {
    if c[COMMAND_SIZE - 1] == 0 then c[..StrLen(c)] else c
  }

  function Zeros(n: nat): (z: Bytes)
    ensures |z| == n && forall i :: 0 <= i < n ==> z[i] == 0
  {
    seq(n, i => 0)
  }

  /** The commands that fit into the field with their closing zero. */
  predicate AcceptedCommand(command: Bytes) {
    |command| < 12 && forall i :: 0 <= i < |command| ==> 0x20 <= command[i] <= 0x7E
  }

  /** What the command is of a valid field. */
  lemma Padding(c: Bytes)
    requires |c| == COMMAND_SIZE && ValidCommand(c)
    ensures forall b :: b in CommandOf(c) ==> Printable(b)
    ensures c == CommandOf(c) + Zeros(COMMAND_SIZE - |CommandOf(c)|)
  {
    var n := StrLen(c);
    if c[COMMAND_SIZE - 1] == 0 {
      assert c[n] == 0;
      assert c == c[..n] + c[n..];
      assert c[n..] == Zeros(COMMAND_SIZE - n);
    }
  }

  /** The front of a field without zeros, ended by one, is the command. */
  lemma CommandIs(c: Bytes, s: Bytes)
    requires |c| == COMMAND_SIZE && s <= c
    requires if c[COMMAND_SIZE - 1] == 0 then 0 !in s && |s| < COMMAND_SIZE && c[|s|] == 0 else s == c
    ensures s == CommandOf(c)
  {
    if c[COMMAND_SIZE - 1] == 0 {
      forall i | 0 <= i < |s| ensures c[i] != 0 { assert s[i] == c[i] && s[i] in s; }
      FirstZero(c, |s|);
    }
  }

  class CMessageHeader {
    const N: Net
    var pchMessageStart: Bytes
    var pchCommand: Bytes
    var nMessageSize: nat
    var nChecksum: Bytes

    /** A header read from the first 24 bytes. */
    constructor Read(N: Net, b: Bytes)
      requires |b| >= HEADER_SIZE
      ensures this.N == N && pchMessageStart == b[..4] && pchCommand == b[4..16]
      ensures nMessageSize == FromLe32(b[16..20]) && nChecksum == b[20..24]
    {
      this.N := N;
      pchMessageStart, pchCommand := b[..4], b[4..16];
      nMessageSize, nChecksum := FromLe32(b[16..20]), b[20..24];
    }

    /** The front of the field, up to its first zero if the last byte is one; of a valid field nothing
        but padding is cut off, and of a field a sender filled in exactly his command is left. */
    method GetCommand() returns (s: Bytes)
      requires |pchCommand| == COMMAND_SIZE
      ensures s <= pchCommand
      ensures pchCommand[COMMAND_SIZE - 1] == 0 ==> 0 !in s && |s| < COMMAND_SIZE && pchCommand[|s|] == 0
      ensures pchCommand[COMMAND_SIZE - 1] != 0 ==> s == pchCommand
      ensures ValidCommand(pchCommand) ==>
        (forall b :: b in s ==> 0x20 <= b <= 0x7E) && pchCommand == s + Zeros(COMMAND_SIZE - |s|)
      ensures forall command: Bytes :: AcceptedCommand(command) && pchCommand == CommandField(command) ==> s == command
    {
      forall command: Bytes | AcceptedCommand(command) && pchCommand == CommandField(command)
        ensures CommandOf(pchCommand) == command
      {
        CommandBack(command);
      }
      if ValidCommand(pchCommand) { Padding(pchCommand); }
      if pchCommand[COMMAND_SIZE - 1] == 0 { return pchCommand[..StrLen(pchCommand)]; }
      return pchCommand;
    }

    method IsValid() returns (ok: bool)
      ensures ok <==> pchMessageStart == N.start && ValidCommand(pchCommand) && nMessageSize <= MAX_SIZE
    {
      if pchMessageStart != N.start { return false; }
      var p1 := 0;
      while p1 < |pchCommand|
        invariant 0 <= p1 <= |pchCommand| + 1
        invariant forall i :: 0 <= i < p1 && i < |pchCommand| ==>
          (if pchCommand[i] == 0 then forall j :: i <= j < |pchCommand| ==> pchCommand[j] == 0 else Printable(pchCommand[i]))
      {
        if pchCommand[p1] == 0 {
          ghost var first := p1;
          while p1 < |pchCommand|
            invariant first <= p1 <= |pchCommand| && forall j :: first <= j < p1 ==> pchCommand[j] == 0
          {
            if pchCommand[p1] != 0 { return false; }
            p1 := p1 + 1;
          }
        } else if !Printable(pchCommand[p1]) {
          return false;
        }
        p1 := p1 + 1;
      }
      if nMessageSize > MAX_SIZE { return false; }
      return true;
    }
  }

  // ----- what a reader makes of a buffer ----------------------------------------------------------------------

  predicate StartsAt(start: Four, s: Bytes, i: nat) {
    i + 4 <= |s| && s[i] == start[0] && s[i + 1] == start[1] && s[i + 2] == start[2] && s[i + 3] == start[3]
  }

  /** The first place where the start bytes stand, or the length. */
  function Find(start: Four, s: Bytes): (p: nat)
    ensures p <= |s| && (p < |s| ==> StartsAt(start, s, p))
    ensures forall i :: 0 <= i < p ==> !StartsAt(start, s, i)
  {
    FindFrom(start, s, 0)
  }

  function FindFrom(start: Four, s: Bytes, k: nat): (p: nat)
    requires k <= |s|
    ensures k <= p <= |s| && (p < |s| ==> StartsAt(start, s, p))
    ensures forall i :: k <= i < p ==> !StartsAt(start, s, i)
    decreases |s| - k
  {
    if k == |s| || StartsAt(start, s, k) then k else FindFrom(start, s, k + 1)
  }

  /** What is left of a buffer in which no complete header stands: at most the last 24 bytes. */
  function Tail(b: Bytes): Bytes { if |b| > HEADER_SIZE then b[|b| - HEADER_SIZE..] else b }

  datatype Turn = Wait(rest: Bytes) | Skip(rest: Bytes) | Deliver(m: Message, rest: Bytes)

  /** One turn of the reading loop: wait for more bytes, drop a bad header, or take a message. */
  function OneTurn(N: Net, b: Bytes): (t: Turn)
    ensures !t.Wait? ==> |t.rest| < |b|
  {
    var p := Find(N.start, b);
    if |b| - p < HEADER_SIZE then Wait(Tail(b))
    else
      var body := b[p + HEADER_SIZE..];
      var command, size, sum := b[p + 4..p + 16], FromLe32(b[p + 16..p + 20]), b[p + 20..p + 24];
      if !ValidCommand(command) || size > MAX_SIZE then Skip(body)
      else if size > |body| then Wait(b[p..])
      else if N.checksum(body[..size]) != sum then Skip(body)
      else Deliver(Message(CommandOf(command), body[..size]), body[size..])
  }

  datatype Scanned = Scanned(delivered: seq<Message>, rest: Bytes)

  /** `limit` is how many turns of the loop the send buffer has room for. */
  function Scan(N: Net, b: Bytes, limit: nat): Scanned
  {
    if limit == 0 then Scanned([], b)
    else
      match OneTurn(N, b)
      case Wait(rest) => Scanned([], rest)
      case Skip(rest) => Scan(N, rest, limit - 1)
      case Deliver(m, rest) =>
        var r := Scan(N, rest, limit - 1);
        Scanned([m] + r.delivered, r.rest)
  }

  // ----- the node ---------------------------------------------------------------------------------------------

  class CNode {
    const N: Net
    var vSend: Bytes
    var nHeaderStart: int
    var nMessageStart: int
    var vRecv: Bytes
    var delivered: seq<Message>

    constructor (N: Net)
      ensures this.N == N && Valid() && nHeaderStart == -1 && vSend == [] && vRecv == [] && delivered == []
    {
      this.N := N;
      vSend, nHeaderStart, nMessageStart, vRecv, delivered := [], -1, -1, [], [];
    }

    /** Either no message is open, or its header stands complete in the send buffer. */
    predicate Valid()
      reads this
    {
      || (nHeaderStart == -1 && nMessageStart == -1)
      || (0 <= nHeaderStart && nMessageStart == nHeaderStart + HEADER_SIZE <= |vSend|)
    }

    method AbortMessage()
      requires Valid()
      modifies this`vSend, this`nHeaderStart, this`nMessageStart
      ensures Valid() && nHeaderStart == -1
      ensures vSend == if old(nHeaderStart) < 0 then old(vSend) else old(vSend)[..old(nHeaderStart)]
    {
      if nHeaderStart < 0 { return; }
      vSend := vSend[..nHeaderStart];
      nHeaderStart := -1;
      nMessageStart := -1;
    }

    method BeginMessage(pszCommand: Bytes)
      requires Valid()
      modifies this`vSend, this`nHeaderStart, this`nMessageStart
      ensures Valid() && nHeaderStart == if old(nHeaderStart) < 0 then |old(vSend)| else old(nHeaderStart)
      ensures nMessageStart == |vSend|
      ensures vSend == old(vSend)[..nHeaderStart] + Header(N, pszCommand, [0, 0, 0, 0], [0, 0, 0, 0])
    {
      if nHeaderStart != -1 { AbortMessage(); }
      nHeaderStart := |vSend|;
      assert vSend[..nHeaderStart] == vSend;
      vSend := vSend + Header(N, pszCommand, [0, 0, 0, 0], [0, 0, 0, 0]);
      nMessageStart := |vSend|;
    }

    /** Patch size and checksum of the payload into the header of the open message. */
    method EndMessage()
      requires Valid() && (nHeaderStart >= 0 ==> |vSend| - nMessageStart < 0x1_0000_0000)
      modifies this`vSend, this`nHeaderStart, this`nMessageStart
      ensures Valid() && nHeaderStart == -1
      ensures old(nHeaderStart) < 0 ==> vSend == old(vSend)
      ensures old(nHeaderStart) >= 0 ==> (
        var payload := old(vSend)[old(nMessageStart)..];
        vSend == old(vSend)[..old(nHeaderStart) + MESSAGE_SIZE_OFFSET] + Le32(|payload|) + N.checksum(payload) + payload)
    {
      if nHeaderStart < 0 { return; }
      ghost var v := vSend;
      var nSize := |vSend| - nMessageStart;
      var at := nHeaderStart + MESSAGE_SIZE_OFFSET;
      vSend := vSend[..at] + Le32(nSize) + vSend[at + 4..];
      var hash := N.checksum(vSend[nMessageStart..]);
      assert vSend[nMessageStart..] == v[nMessageStart..];
      at := nHeaderStart + CHECKSUM_OFFSET;
      vSend := vSend[..at] + hash + vSend[at + 4..];
      nHeaderStart := -1;
      nMessageStart := -1;
    }

    /** BeginMessage, the payload, EndMessage: one frame more in the send buffer. */
    method PushMessage(m: Message)
      requires Valid() && nHeaderStart == -1 && |m.payload| < 0x1_0000_0000
      modifies this`vSend, this`nHeaderStart, this`nMessageStart
      ensures Valid() && nHeaderStart == -1
      ensures vSend == old(vSend) + Frame(N, m)
    {
      BeginMessage(m.command);
      ghost var h := nHeaderStart;
      vSend := vSend + m.payload;
      assert vSend[nMessageStart..] == m.payload;
      EndMessage();
      assert old(vSend)[..h] == old(vSend);
      var head := Header(N, m.command, [0, 0, 0, 0], [0, 0, 0, 0]);
      assert (old(vSend) + head + m.payload)[..h + MESSAGE_SIZE_OFFSET] == old(vSend) + (N.start + CommandField(m.command));
    }

    /** One turn of the loop below: false when it has to wait for more bytes. */
    method TakeOne() returns (fGo: bool)
      modifies this`vRecv, this`delivered
      ensures var t := OneTurn(N, old(vRecv));
        && vRecv == t.rest && fGo == !t.Wait?
        && delivered == old(delivered) + if t.Deliver? then [t.m] else []
    {
      hide ValidCommand, FromLe32, CommandOf, Find, StartsAt;
      ghost var b := vRecv;
      var pstart := Find(N.start, vRecv);
      if |vRecv| - pstart < HEADER_SIZE {
        if |vRecv| > HEADER_SIZE { vRecv := vRecv[|vRecv| - HEADER_SIZE..]; }
        return false;
      }
      vRecv := vRecv[pstart..];
      FieldsAt(b, pstart);
      AtStart(N.start, b, pstart);
      var vHeaderSave := vRecv[..HEADER_SIZE];
      var hdr := new CMessageHeader.Read(N, vRecv);
      vRecv := vRecv[HEADER_SIZE..];
      var valid := hdr.IsValid();
      if !valid { return true; }
      var strCommand := hdr.GetCommand();
      CommandIs(hdr.pchCommand, strCommand);
      if hdr.nMessageSize > |vRecv| {
        vRecv := vHeaderSave + vRecv;
        return false;
      }
      if N.checksum(vRecv[..hdr.nMessageSize]) != hdr.nChecksum { return true; }
      var vMsg := vRecv[..hdr.nMessageSize];
      vRecv := vRecv[hdr.nMessageSize..];
      delivered := delivered + [Message(strCommand, vMsg)];
      return true;
    }

    /** Take messages out of the receive buffer while the send buffer has room. */
    method ProcessMessages(limit: nat)
      modifies this`vRecv, this`delivered
      ensures var r := Scan(N, old(vRecv), limit); delivered == old(delivered) + r.delivered && vRecv == r.rest
    {
      hide OneTurn;
      if vRecv == [] {
        NothingToScan(N, limit);
        return;
      }
      var turns := limit;
      ghost var target := Scan(N, vRecv, limit);
      while turns > 0
        invariant old(delivered) + target.delivered == delivered + Scan(N, vRecv, turns).delivered
        invariant target.rest == Scan(N, vRecv, turns).rest
      {
        var fGo := TakeOne();
        if !fGo { return; }
        turns := turns - 1;
      }
    }
  }

  lemma FieldsAt(b: Bytes, p: nat)
    requires p + HEADER_SIZE <= |b|
    ensures var r := b[p..];
      && r[4..16] == b[p + 4..p + 16] && r[16..20] == b[p + 16..p + 20] && r[20..24] == b[p + 20..p + 24]
      && r[HEADER_SIZE..] == b[p + HEADER_SIZE..] && r[..HEADER_SIZE] + r[HEADER_SIZE..] == r
  {
  }

  lemma AtStart(start: Four, b: Bytes, p: nat)
    requires p < |b| && p == Find(start, b)
    ensures p + 4 <= |b| && b[p..][..4] == start
  {
  }

  lemma NothingToScan(N: Net, limit: nat)
    ensures Scan(N, [], limit) == Scanned([], [])
  {
  }

  // ----- messages survive any splitting of the stream ---------------------------------------------------------

  /** Commands of up to eleven printable characters and payloads up to the size limit. */
  predicate Sendable(m: Message) {
    AcceptedCommand(m.command) && |m.payload| <= MAX_SIZE
  }

  predicate AllSendable(msgs: seq<Message>) { forall i :: 0 <= i < |msgs| ==> Sendable(msgs[i]) }

  lemma SmallPayload(m: Message)
    requires Sendable(m)
    ensures |m.payload| < 0x1_0000_0000
  {
  }

  function Stream(N: Net, msgs: seq<Message>): Bytes
    requires AllSendable(msgs)
  {
    if msgs == [] then [] else Frame(N, msgs[0]) + Stream(N, msgs[1..])
  }

  /** The start bytes do not appear before the stream begins. */
  ghost predicate NoStart(N: Net, g: Bytes, rest: Bytes) { forall i: nat :: i < |g| ==> !StartsAt(N.start, g + rest, i) }

  lemma CommandBack(command: Bytes)
    requires AcceptedCommand(command)
    ensures ValidCommand(CommandField(command)) && CommandOf(CommandField(command)) == command
  {
    var c := CommandField(command);
    assert forall i :: 0 <= i < |command| ==> c[i] == command[i];
    assert forall i :: |command| <= i < |c| ==> c[i] == 0;
    assert c[|command|] == 0 && forall i :: 0 <= i < |command| ==> c[i] != 0;
    assert c[COMMAND_SIZE - 1] == 0;
    FirstZero(c, |command|);
  }

  lemma FirstZero(c: Bytes, n: nat)
    requires n < |c| && c[n] == 0 && forall i :: 0 <= i < n ==> c[i] != 0
    ensures StrLen(c) == n
  {
    var k := StrLen(c);
    assert k >= n && k <= n;
  }

  /** The fields of a frame, as the reader cuts them out. */
  lemma FrameFields(N: Net, m: Message)
    requires Sendable(m)
    ensures var f := Frame(N, m);
      && |f| == HEADER_SIZE + |m.payload| && StartsAt(N.start, f, 0)
      && f[4..16] == CommandField(m.command) && f[16..20] == Le32(|m.payload|)
      && f[20..24] == N.checksum(m.payload) && f[24..] == m.payload
  {
    hide Le32;
    var f := Frame(N, m);
    var h := Header(N, m.command, Le32(|m.payload|), N.checksum(m.payload));
    assert f[..HEADER_SIZE] == h;
    assert f[0] == N.start[0] && f[1] == N.start[1] && f[2] == N.start[2] && f[3] == N.start[3];
  }

  /** A frame byte by byte: start bytes, the command filled up with zeros, the size with its least byte
      first, the checksum, and the payload. */
  lemma FrameLayout(N: Net, m: Message)
    requires Sendable(m)
    ensures var f := Frame(N, m);
      && |f| == 24 + |m.payload| && f[..4] == N.start
      && f[4..4 + |m.command|] == m.command && (forall i :: 4 + |m.command| <= i < 16 ==> f[i] == 0)
      && (f[16] as int) + 256 * (f[17] as int) + 65536 * (f[18] as int) + 16777216 * (f[19] as int) == |m.payload|
      && f[20..24] == N.checksum(m.payload) && f[24..] == m.payload
  {
    hide Frame;
    FrameFields(N, m);
    StartAndCommand(N, m);
    var f := Frame(N, m);
    assert f[16..20] == Le32(|m.payload|);
    assert f[16] == f[16..20][0] && f[17] == f[16..20][1] && f[18] == f[16..20][2] && f[19] == f[16..20][3];
  }

  lemma StartAndCommand(N: Net, m: Message)
    requires Sendable(m)
    ensures var f := Frame(N, m);
      |f| >= 24 && f[..4] == N.start && f[4..4 + |m.command|] == m.command && forall i :: 4 + |m.command| <= i < 16 ==> f[i] == 0
  {
    hide Le32;
    var f := Frame(N, m);
    assert f[..4] == N.start;
    assert f[4..16] == CommandField(m.command);
    assert f[4..4 + |m.command|] == f[4..16][..|m.command|];
    forall i | 4 + |m.command| <= i < 16 ensures f[i] == 0 { assert f[i] == f[4..16][i - 4]; }
  }

  lemma FindIs(start: Four, s: Bytes, p: nat)
    requires p <= |s| && (p < |s| ==> StartsAt(start, s, p)) && forall i: nat :: i < p ==> !StartsAt(start, s, i)
    ensures Find(start, s) == p
  {
    var q := Find(start, s);
    assert q >= p;
  }

  /** The start bytes are found where the stream begins, once they have arrived. */
  lemma FindStream(N: Net, g: Bytes, rem: seq<Message>, n: nat)
    requires AllSendable(rem) && NoStart(N, g, Stream(N, rem)) && n <= |g + Stream(N, rem)|
    ensures var b := (g + Stream(N, rem))[..n];
      Find(N.start, b) == if rem != [] && n >= |g| + 4 then |g| else n
  {
    hide Frame;
    var t := g + Stream(N, rem);
    var b := t[..n];
    var p := if rem != [] && n >= |g| + 4 then |g| else n;
    forall i: nat | i < p ensures !StartsAt(N.start, b, i) {
      assert StartsAt(N.start, b, i) ==> StartsAt(N.start, t, i);
    }
    if rem != [] {
      FrameFields(N, rem[0]);
      var f := Frame(N, rem[0]);
      assert forall j :: 0 <= j < 4 ==> f[j] == t[|g| + j];
    }
    FindIs(N.start, b, p);
  }

  /** One turn on what has arrived of garbage and messages: the first message if it is complete, else
      the reader waits, and keeps everything from the start of the stream on. */
  lemma TurnOnStream(N: Net, g: Bytes, rem: seq<Message>, n: nat)
    requires AllSendable(rem) && NoStart(N, g, Stream(N, rem)) && n <= |g + Stream(N, rem)|
    ensures var b, t := (g + Stream(N, rem))[..n], OneTurn(N, (g + Stream(N, rem))[..n]);
      if rem != [] && n >= |g| + |Frame(N, rem[0])| then
        t == Deliver(rem[0], Stream(N, rem[1..])[..n - |g| - |Frame(N, rem[0])|])
      else t.Wait? && |b| - |t.rest| <= |g| && |t.rest| <= |b| && t.rest == b[|b| - |t.rest|..]
  {
    hide Frame, ValidCommand, CommandOf, CommandField, Le32, FromLe32, Find, OneTurn, StartsAt;
    var total := g + Stream(N, rem);
    var b := total[..n];
    FindStream(N, g, rem, n);
    if rem != [] { FrameFields(N, rem[0]); }
    if rem != [] && n >= |g| + HEADER_SIZE {
      var f := Frame(N, rem[0]);
      assert total == g + f + Stream(N, rem[1..]);
      InFrame(g, f, Stream(N, rem[1..]), n);
      TurnOnFrame(N, b, |g|, rem[0]);
    } else {
      TurnTooEarly(N, b);
    }
  }

  lemma TurnTooEarly(N: Net, b: Bytes)
    requires |b| - Find(N.start, b) < HEADER_SIZE
    ensures OneTurn(N, b) == Wait(Tail(b))
  {
  }

  /** A turn on a buffer in which the header of a message stands at `p`. */
  lemma TurnOnFrame(N: Net, b: Bytes, p: nat, m: Message)
    requires Sendable(m) && p == Find(N.start, b) && p + HEADER_SIZE <= |b|
    requires b[p + 4..p + 16] == CommandField(m.command) && b[p + 16..p + 20] == Le32(|m.payload|)
    requires b[p + 20..p + 24] == N.checksum(m.payload)
    requires |b| >= p + HEADER_SIZE + |m.payload| ==> b[p + HEADER_SIZE..][..|m.payload|] == m.payload
    ensures OneTurn(N, b) ==
      if |b| < p + HEADER_SIZE + |m.payload| then Wait(b[p..]) else Deliver(m, b[p + HEADER_SIZE..][|m.payload|..])
  {
    hide ValidCommand, CommandOf, CommandField, Le32, FromLe32, Find;
    CommandBack(m.command);
    Le32RoundTrip(|m.payload|);
  }

  /** Slices of a prefix that lie in the frame. */
  lemma InFrame(g: Bytes, f: Bytes, rest: Bytes, n: nat)
    requires |f| >= HEADER_SIZE && |g| + HEADER_SIZE <= n <= |g + f + rest|
    ensures var b := (g + f + rest)[..n];
      && b[|g| + 4..|g| + 16] == f[4..16] && b[|g| + 16..|g| + 20] == f[16..20] && b[|g| + 20..|g| + 24] == f[20..24]
      && (n >= |g| + |f| ==>
        b[|g| + 24..][..|f| - 24] == f[24..] && b[|g| + 24..][|f| - 24..] == rest[..n - |g| - |f|])
  {
  }

  lemma {:induction false} StreamSplit(N: Net, msgs: seq<Message>, k: nat)
    requires AllSendable(msgs) && k <= |msgs|
    ensures Stream(N, msgs) == Stream(N, msgs[..k]) + Stream(N, msgs[k..])
    decreases k
  {
    hide Frame, Sendable;
    if k == 0 {
      assert msgs[..0] == [] && msgs[0..] == msgs;
    } else {
      StreamSplit(N, msgs[1..], k - 1);
      assert msgs[1..][..k - 1] == msgs[..k][1..] && msgs[1..][k - 1..] == msgs[k..];
    }
  }

  /** What a scan leaves of the stream: `k` messages are out, the buffer starts `at` bytes further on. */
  ghost predicate Progress(N: Net, g: Bytes, rem: seq<Message>, n: nat, r: Scanned, k: nat, at: nat)
    requires AllSendable(rem) && n <= |g + Stream(N, rem)|
  {
    && k <= |rem| && at <= n
    && (if k == 0 then at <= |g| else at == |g| + |Stream(N, rem[..k])|)
    && r == Scanned(rem[..k], (g + Stream(N, rem))[at..n])
  }

  lemma {:induction false} ScanStream(N: Net, g: Bytes, rem: seq<Message>, n: nat, limit: nat) returns (k: nat, at: nat)
    requires AllSendable(rem) && NoStart(N, g, Stream(N, rem)) && n <= |g + Stream(N, rem)|
    ensures Progress(N, g, rem, n, Scan(N, (g + Stream(N, rem))[..n], limit), k, at)
    ensures limit > |rem| ==> k == |rem| || n < |g| + |Stream(N, rem[..k + 1])|
    decreases limit
  {
    hide OneTurn, Frame, NoStart;
    var total := g + Stream(N, rem);
    var b := total[..n];
    if limit == 0 {
      k, at := 0, 0;
      return;
    }
    TurnOnStream(N, g, rem, n);
    if rem != [] && n >= |g| + |Frame(N, rem[0])| {
      var f, next := Frame(N, rem[0]), rem[1..];
      var n' := n - |g| - |f|;
      NoGarbage(N, Stream(N, next));
      assert [] + Stream(N, next) == Stream(N, next);
      var k', at' := ScanStream(N, [], next, n', limit - 1);
      k, at := k' + 1, |g| + |f| + at';
      var r' := Scan(N, Stream(N, next)[..n'], limit - 1);
      assert Scan(N, b, limit) == Scanned([rem[0]] + r'.delivered, r'.rest);
      OneMore(N, g, rem, n, r', k', at');
    } else {
      var t := OneTurn(N, b);
      k, at := 0, |b| - |t.rest|;
      if rem != [] { OneFrame(N, rem[0]); assert rem[..1] == [rem[0]]; }
    }
  }

  lemma StreamFront(N: Net, rem: seq<Message>, k: nat)
    requires AllSendable(rem) && k < |rem|
    ensures rem[..k + 1] == [rem[0]] + rem[1..][..k]
    ensures Stream(N, rem[..k + 1]) == Frame(N, rem[0]) + Stream(N, rem[1..][..k])
  {
    hide Frame;
    assert rem[..k + 1][1..] == rem[1..][..k];
  }

  /** Progress after one more message in front. */
  lemma OneMore(N: Net, g: Bytes, rem: seq<Message>, n: nat, r: Scanned, k: nat, at: nat)
    requires AllSendable(rem) && rem != [] && n <= |g + Stream(N, rem)| && n >= |g| + |Frame(N, rem[0])|
    requires Progress(N, [], rem[1..], n - |g| - |Frame(N, rem[0])|, r, k, at)
    ensures Progress(N, g, rem, n, Scanned([rem[0]] + r.delivered, r.rest), k + 1, |g| + |Frame(N, rem[0])| + at)
    ensures k + 1 < |rem| ==> |Stream(N, rem[..k + 2])| == |Frame(N, rem[0])| + |Stream(N, rem[1..][..k + 1])|
  {
    hide Frame, Stream, Sendable;
    var next := rem[1..];
    SmallPayload(rem[0]);
    StreamFront(N, rem, k);
    if k < |next| { StreamFront(N, rem, k + 1); }
    WholeStream(N, rem);
    NoMessages(N, next);
    Regroup(g, Frame(N, rem[0]), Stream(N, next), at, n);
  }

  lemma WholeStream(N: Net, rem: seq<Message>)
    requires AllSendable(rem) && rem != []
    ensures Stream(N, rem) == Frame(N, rem[0]) + Stream(N, rem[1..])
  {
    hide Frame, Sendable;
  }

  lemma NoMessages(N: Net, msgs: seq<Message>)
    requires AllSendable(msgs)
    ensures Stream(N, msgs[..0]) == [] && [] + Stream(N, msgs) == Stream(N, msgs)
  {
    assert msgs[..0] == [];
  }

  lemma Regroup(a: Bytes, b: Bytes, c: Bytes, at: nat, n: nat)
    requires |a| + |b| + at <= n <= |a| + |b| + |c|
    ensures |a + (b + c)| == |a| + |b| + |c|
    ensures (a + (b + c))[|a| + |b| + at..n] == c[at..n - |a| - |b|]
  {
  }

  lemma OneFrame(N: Net, m: Message)
    requires Sendable(m)
    ensures Stream(N, [m]) == Frame(N, m)
  {
    assert [m][1..] == [];
  }

  lemma NoGarbage(N: Net, rest: Bytes)
    ensures NoStart(N, [], rest)
  {
  }

  function Concat(chunks: seq<Bytes>): Bytes { if chunks == [] then [] else chunks[0] + Concat(chunks[1..]) }

  /** Receive the chunks one after another and process after each. */
  function Feed(N: Net, b: Bytes, chunks: seq<Bytes>, limits: seq<nat>): Scanned
    requires |chunks| == |limits|
    decreases |chunks|
  {
    if chunks == [] then Scanned([], b)
    else
      var r := Scan(N, b + chunks[0], limits[0]);
      var later := Feed(N, r.rest, chunks[1..], limits[1..]);
      Scanned(r.delivered + later.delivered, later.rest)
  }

  lemma {:induction false} FeedStream(N: Net, g: Bytes, rem: seq<Message>, b: Bytes, chunks: seq<Bytes>, limits: seq<nat>) returns (k: nat)
    requires AllSendable(rem) && NoStart(N, g, Stream(N, rem)) && |chunks| == |limits|
    requires b + Concat(chunks) <= g + Stream(N, rem)
    ensures k <= |rem| && Feed(N, b, chunks, limits).delivered == rem[..k]
    ensures chunks != [] && limits[|limits| - 1] > |rem| && b + Concat(chunks) == g + Stream(N, rem) ==>
      k == |rem| && (rem != [] || g == [] ==> Feed(N, b, chunks, limits).rest == [])
    decreases |chunks|
  {
    hide Scan, Frame, Sendable, NoStart;
    if chunks == [] {
      k := 0;
      return;
    }
    var total := g + Stream(N, rem);
    var b1 := b + chunks[0];
    var n := |b1|;
    assert b + Concat(chunks) == b1 + Concat(chunks[1..]);
    assert b1 == total[..n];
    var k1, at := ScanStream(N, g, rem, n, limits[0]);
    var r := Scan(N, b1, limits[0]);
    var g2, rem2 := Remaining(N, g, rem, n, r, k1, at);
    assert r.rest + Concat(chunks[1..]) == (b + Concat(chunks))[at..];
    var k2 := FeedStream(N, g2, rem2, r.rest, chunks[1..], limits[1..]);
    k := k1 + k2;
    Further(rem, k1, k2);
    if |chunks| == 1 && limits[0] > |rem| && b + Concat(chunks) == total {
      assert chunks[1..] == [];
      AllScanned(N, g, rem, n, r, k1, at);
    }
  }

  lemma Further(rem: seq<Message>, k1: nat, k2: nat)
    requires k1 + k2 <= |rem|
    ensures rem[..k1 + k2] == rem[..k1] + rem[k1..][..k2]
  {
  }

  /** After a scan what is still to come is again garbage, now possibly none, followed by messages. */
  lemma Remaining(N: Net, g: Bytes, rem: seq<Message>, n: nat, r: Scanned, k: nat, at: nat) returns (g2: Bytes, rem2: seq<Message>)
    requires AllSendable(rem) && NoStart(N, g, Stream(N, rem)) && n <= |g + Stream(N, rem)| && Progress(N, g, rem, n, r, k, at)
    ensures rem2 == rem[k..] && AllSendable(rem2) && NoStart(N, g2, Stream(N, rem2))
    ensures g2 + Stream(N, rem2) == (g + Stream(N, rem))[at..] && (k > 0 || g == [] ==> g2 == [])
  {
    hide Frame, Sendable, StartsAt;
    rem2 := rem[k..];
    if k == 0 {
      g2 := g[at..];
      assert rem[0..] == rem;
      assert g2 + Stream(N, rem) == (g + Stream(N, rem))[at..];
      forall i: nat | i < |g2| ensures !StartsAt(N.start, g2 + Stream(N, rem), i) {
        Shifted(N.start, g + Stream(N, rem), at, i);
        assert !StartsAt(N.start, g + Stream(N, rem), at + i);
      }
    } else {
      g2 := [];
      StreamSplit(N, rem, k);
    }
  }

  lemma Shifted(start: Four, s: Bytes, at: nat, i: nat)
    requires at <= |s|
    ensures StartsAt(start, s[at..], i) <==> StartsAt(start, s, at + i)
  {
  }

  /** Once everything has arrived and there is room for all, everything is delivered. */
  lemma AllScanned(N: Net, g: Bytes, rem: seq<Message>, n: nat, r: Scanned, k: nat, at: nat)
    requires AllSendable(rem) && n == |g + Stream(N, rem)| && Progress(N, g, rem, n, r, k, at)
    requires k == |rem| || n < |g| + |Stream(N, rem[..k + 1])|
    ensures k == |rem| && (rem != [] || g == [] ==> r.rest == [])
  {
    hide Frame, Sendable;
    if k < |rem| {
      StreamSplit(N, rem, k + 1);
    } else {
      assert rem[..k] == rem;
    }
  }

  /** However the bytes of some garbage and the messages after it are split, and however often the reader
      is held up by a full send buffer, it delivers the messages in order, nothing else, and all of them
      once all bytes are there and the last call has room. */
  lemma AnySplitDelivers(N: Net, g: Bytes, msgs: seq<Message>, chunks: seq<Bytes>, limits: seq<nat>)
    requires AllSendable(msgs) && NoStart(N, g, Stream(N, msgs)) && |chunks| == |limits|
    requires Concat(chunks) <= g + Stream(N, msgs)
    ensures Feed(N, [], chunks, limits).delivered <= msgs
    ensures chunks != [] && limits[|limits| - 1] > |msgs| && Concat(chunks) == g + Stream(N, msgs) ==>
      Feed(N, [], chunks, limits).delivered == msgs && (msgs != [] ==> Feed(N, [], chunks, limits).rest == [])
  {
    assert [] + Concat(chunks) == Concat(chunks);
    var k := FeedStream(N, g, msgs, [], chunks, limits);
  }

  /** The send buffer of a writer that has sent `msgs`, after one message more. */
  lemma StreamSnoc(N: Net, msgs: seq<Message>, m: Message)
    requires AllSendable(msgs) && Sendable(m)
    ensures AllSendable(msgs + [m]) && Stream(N, msgs + [m]) == Stream(N, msgs) + Frame(N, m)
  {
    hide Frame;
    var all := msgs + [m];
    assert AllSendable(all);
    StreamSplit(N, all, |msgs|);
    assert all[..|msgs|] == msgs && all[|msgs|..] == [m];
    OneFrame(N, m);
  }

  /** Messages pushed one after another make the send buffer grow by their stream. */
  method SendAll(node: CNode, msgs: seq<Message>)
    requires node.Valid() && node.nHeaderStart == -1 && AllSendable(msgs)
    modifies node`vSend, node`nHeaderStart, node`nMessageStart
    ensures node.Valid() && node.nHeaderStart == -1
    ensures node.vSend == old(node.vSend) + Stream(node.N, msgs)
  {
    hide Frame, Sendable, Stream;
    NoMessages(node.N, msgs);
    for i := 0 to |msgs|
      invariant node.Valid() && node.nHeaderStart == -1
      invariant node.vSend == old(node.vSend) + Stream(node.N, msgs[..i])
    {
      SmallPayload(msgs[i]);
      node.PushMessage(msgs[i]);
      StreamSnoc(node.N, msgs[..i], msgs[i]);
      assert msgs[..i + 1] == msgs[..i] + [msgs[i]];
    }
    assert msgs[..|msgs|] == msgs;
  }

  /** A node that receives chunk after chunk computes Feed. */
  method ReceiveAll(node: CNode, chunks: seq<Bytes>, limits: seq<nat>)
    requires |chunks| == |limits|
    modifies node`vRecv, node`delivered
    ensures var r := Feed(node.N, old(node.vRecv), chunks, limits);
      node.delivered == old(node.delivered) + r.delivered && node.vRecv == r.rest
  {
    hide Scan;
    ghost var target := Feed(node.N, node.vRecv, chunks, limits);
    assert chunks[0..] == chunks && limits[0..] == limits;
    for i := 0 to |chunks|
      invariant var r := Feed(node.N, node.vRecv, chunks[i..], limits[i..]);
        old(node.delivered) + target.delivered == node.delivered + r.delivered && target.rest == r.rest
    {
      assert chunks[i..][1..] == chunks[i + 1..] && limits[i..][1..] == limits[i + 1..];
      node.vRecv := node.vRecv + chunks[i];
      node.ProcessMessages(limits[i]);
    }
  }

  /** What single sends of at most `cuts[i]` bytes take off the front of a buffer. */
  function Pieces(b: Bytes, cuts: seq<nat>): (chunks: seq<Bytes>)
    ensures |chunks| == |cuts|
  {
    if cuts == [] then []
    else
      var n := Min(cuts[0], |b|);
      [b[..n]] + Pieces(b[n..], cuts[1..])
  }

  function Unsent(b: Bytes, cuts: seq<nat>): Bytes {
    if cuts == [] then b else Unsent(b[Min(cuts[0], |b|)..], cuts[1..])
  }

  lemma {:induction false} NothingLost(b: Bytes, cuts: seq<nat>)
    ensures Concat(Pieces(b, cuts)) + Unsent(b, cuts) == b
  {
    if cuts != [] {
      var n := Min(cuts[0], |b|);
      NothingLost(b[n..], cuts[1..]);
      assert Pieces(b, cuts)[1..] == Pieces(b[n..], cuts[1..]);
      assert b == b[..n] + b[n..];
    }
  }

  /** What a reader makes of the pieces of a stream. */
  lemma {:induction false} PiecesDeliver(N: Net, msgs: seq<Message>, cuts: seq<nat>, limits: seq<nat>)
    requires AllSendable(msgs) && |cuts| == |limits|
    ensures var r := Feed(N, [], Pieces(Stream(N, msgs), cuts), limits);
      && r.delivered <= msgs
      && (cuts != [] && limits[|limits| - 1] > |msgs| && Unsent(Stream(N, msgs), cuts) == [] ==>
            r.delivered == msgs && (msgs != [] ==> r.rest == []))
  {
    hide Scan, Frame, Sendable, NoStart, Stream, Feed, Pieces, Unsent, Concat;
    var sent := Stream(N, msgs);
    var chunks := Pieces(sent, cuts);
    NoGarbage(N, sent);
    NothingLost(sent, cuts);
    assert [] + sent == sent && Concat(chunks) <= sent;
    if Unsent(sent, cuts) == [] { assert Concat(chunks) == sent; }
    AnySplitDelivers(N, [], msgs, chunks, limits);
  }

  /** One send takes the first piece. */
  lemma OnePiece(b: Bytes, cuts: seq<nat>)
    requires cuts != []
    ensures var n := Min(cuts[0], |b|);
      0 <= n <= |b| && Pieces(b, cuts) == [b[..n]] + Pieces(b[n..], cuts[1..]) && Unsent(b, cuts) == Unsent(b[n..], cuts[1..])
  {
  }

  /** One node sends a list of messages, the other processes after each piece the connection carries. It
      takes the messages in order and nothing else, and all of them once everything is sent and the last
      call has room. */
  method Converse(from: CNode, to: CNode, msgs: seq<Message>, cuts: seq<nat>, limits: seq<nat>)
    requires from != to && from.N == to.N && from.Valid() && from.nHeaderStart == -1
    requires AllSendable(msgs) && |cuts| == |limits| && from.vSend == [] && to.vRecv == []
    modifies from`vSend, from`nHeaderStart, from`nMessageStart, to`vRecv, to`delivered
    ensures exists k: nat :: k <= |msgs| && to.delivered == old(to.delivered) + msgs[..k]
    ensures cuts != [] && limits[|limits| - 1] > |msgs| && from.vSend == [] ==>
      to.delivered == old(to.delivered) + msgs && (msgs != [] ==> to.vRecv == [])
  {
    hide Scan, Frame, Sendable, Stream, Pieces, Unsent;
    SendAll(from, msgs);
    ghost var sent := from.vSend;
    ghost var target := Feed(to.N, [], Pieces(sent, cuts), limits);
    assert sent == Stream(to.N, msgs);
    PiecesDeliver(to.N, msgs, cuts, limits);
    assert cuts[0..] == cuts && limits[0..] == limits;
    for i := 0 to |cuts|
      invariant Unsent(from.vSend, cuts[i..]) == Unsent(sent, cuts)
      invariant var r := Feed(to.N, to.vRecv, Pieces(from.vSend, cuts[i..]), limits[i..]);
        old(to.delivered) + target.delivered == to.delivered + r.delivered && target.rest == r.rest
    {
      assert cuts[i..][1..] == cuts[i + 1..] && limits[i..][1..] == limits[i + 1..];
      OnePiece(from.vSend, cuts[i..]);
      var n := Min(cuts[i], |from.vSend|);
      assert Pieces(from.vSend, cuts[i..])[1..] == Pieces(from.vSend[n..], cuts[i + 1..]);
      to.vRecv := to.vRecv + from.vSend[..n];
      from.vSend := from.vSend[n..];
      to.ProcessMessages(limits[i]);
    }
    NoPiece(from.vSend);
    assert to.delivered == old(to.delivered) + target.delivered;
    assert target.delivered == msgs[..|target.delivered|];
  }

  lemma NoPiece(b: Bytes)
    ensures Pieces(b, []) == [] && Unsent(b, []) == b
  {
  }
}
