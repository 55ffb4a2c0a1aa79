/** The byte accounts of a socket streambuf: what was written against what reached the socket, and what came from
    the socket against what was read. */
module StreambufSpec {
  import opened Sequences

  const BUFFER_SIZE: nat := 512
  const PUTBACK_MAX: nat := 8

  /** One round of the send loop. Accept(n) sends n bytes, but at least one and at most the rest; Again is a would-block
      followed by a successful poll; the others end the call with eof. A plan that is used up times out. */
  datatype SendStep = SendExpired | Accept(n: nat) | SendFails | SendAgain | PollWriteFails

  datatype Flushed = Flushed(sent: seq<char>, ok: bool)

  function Taken(n: nat, size: nat): (k: nat)
    requires size > 0
    ensures 1 <= k <= size
  {
    if n == 0 then 1 else if n <= size then n else size
  }

  function Flush(data: seq<char>, plan: seq<SendStep>): Flushed
    decreases |plan|
  {
    if data == [] then Flushed([], true)
    else if plan == [] then Flushed([], false)
    else
      match plan[0]
      case SendAgain => Flush(data, plan[1..])
      case Accept(n) =>
        var k := Taken(n, |data|);
        var rest := Flush(data[k..], plan[1..]);
        Flushed(data[..k] + rest.sent, rest.ok)
      case _ => Flushed([], false)
  }

  /** Bytes leave in order, and the loop succeeds exactly when all have left. */
  lemma {:induction false} FlushIsPrefix(data: seq<char>, plan: seq<SendStep>)
    ensures Flush(data, plan).sent <= data
    ensures Flush(data, plan).ok <==> Flush(data, plan).sent == data
    decreases |plan|
  {
    if data != [] && plan != [] {
      match plan[0] {
        case SendAgain => FlushIsPrefix(data, plan[1..]);
        case Accept(n) =>
          var k := Taken(n, |data|);
          FlushIsPrefix(data[k..], plan[1..]);
          assert data == data[..k] + data[k..];
        case _ =>
      }
    }
  }

  /** What the socket is ready to take before the plan first fails or runs out. */
  function Willing(plan: seq<SendStep>): nat {
    if plan == [] then 0
    else
      match plan[0]
      case Accept(n) => (if n == 0 then 1 else n) + Willing(plan[1..])
      case SendAgain => Willing(plan[1..])
      case SendExpired => 0
      case SendFails => 0
      case PollWriteFails => 0
  }

  /** The send loop sends everything the socket is ready to take, going on behind partial sends and would-blocks, and
      succeeds exactly when that is enough. */
  lemma {:induction false} FlushSends(data: seq<char>, plan: seq<SendStep>)
    ensures Flush(data, plan).sent == data[..if Willing(plan) < |data| then Willing(plan) else |data|]
    ensures Flush(data, plan).ok <==> |data| <= Willing(plan)
    decreases |plan|
  {
    if data != [] && plan != [] {
      match plan[0] {
        case SendAgain => FlushSends(data, plan[1..]);
        case Accept(n) =>
          var k := Taken(n, |data|);
          FlushSends(data[k..], plan[1..]);
          var more := Flush(data[k..], plan[1..]).sent;
          assert data[..k] + more == data[..k + |more|];
        case _ =>
      }
    }
  }

  /** A would-block is retried and changes nothing. */
  lemma {:induction false} AgainIsRetried(before: seq<SendStep>, after: seq<SendStep>)
    ensures Willing(before + [SendAgain] + after) == Willing(before + after)
  {
    if before == [] {
      assert before + [SendAgain] + after == [SendAgain] + after && before + after == after;
    } else {
      AgainIsRetried(before[1..], after);
      assert (before + [SendAgain] + after)[1..] == before[1..] + [SendAgain] + after;
      assert (before + after)[1..] == before[1..] + after;
    }
  }

  /** pending is [pbase, pptr) and capacity the size of the put buffer, 0 when unbuffered. accepted collects the
      characters of writes that reported success; resent counts bytes a failed overflow had already sent. */
  datatype Put = Put(sent: seq<char>, pending: seq<char>, capacity: nat, accepted: seq<char>, resent: nat)

  const FRESH := Put([], [], BUFFER_SIZE, [], 0)

  datatype PutOp = Write(c: char, plan: seq<SendStep>) | Sync(plan: seq<SendStep>) | SetBuf(off: bool)

  function AsSeq(c: Option<char>): seq<char> {
    if c.Some? then [c.value] else []
  }

  /** overflow(c), with None for eof. */
  function Overflow(p: Put, c: Option<char>, plan: seq<SendStep>): Put {
    if p.capacity == 0 then
      var f := Flush(AsSeq(c), plan);
      p.(sent := p.sent + f.sent, accepted := p.accepted + if f.ok then AsSeq(c) else [])
    else
      var f := Flush(p.pending, plan);
      if f.ok then p.(sent := p.sent + f.sent, pending := AsSeq(c), accepted := p.accepted + AsSeq(c))
      else p.(sent := p.sent + f.sent, resent := p.resent + |f.sent|)
  }

  function OverflowOk(p: Put, c: Option<char>, plan: seq<SendStep>): bool {
    Flush(if p.capacity == 0 then AsSeq(c) else p.pending, plan).ok
  }

  /** sputc */
  function WriteChar(p: Put, c: char, plan: seq<SendStep>): Put {
    if |p.pending| < p.capacity then p.(pending := p.pending + [c], accepted := p.accepted + [c])
    else Overflow(p, Some(c), plan)
  }

  function PutStep(p: Put, op: PutOp): Put {
    match op
    case Write(c, plan) => WriteChar(p, c, plan)
    case Sync(plan) => Overflow(p, None, plan)
    case SetBuf(off) => if off && p.pending == [] then p.(capacity := 0) else p
  }

  function PutRun(p: Put, ops: seq<PutOp>): Put
    decreases |ops|
  {
    if ops == [] then p else PutRun(PutStep(p, ops[0]), ops[1..])
  }

  /** The pending bytes fit, and every byte is accounted for: the surplus on the wire is exactly what failed
      overflows had sent before failing, and without any such byte the order is right as well. */
  ghost predicate PutInv(p: Put) {
    && p.capacity <= BUFFER_SIZE && |p.pending| <= p.capacity
    && |p.sent| + |p.pending| == |p.accepted| + p.resent
    && (p.resent == 0 ==> p.sent + p.pending == p.accepted)
  }

  lemma OverflowKeeps(p: Put, c: Option<char>, plan: seq<SendStep>)
    requires PutInv(p)
    ensures PutInv(Overflow(p, c, plan))
  {
    if p.capacity == 0 {
      FlushIsPrefix(AsSeq(c), plan);
      var f := Flush(AsSeq(c), plan);
      assert !f.ok ==> f.sent == [];
      assert p.sent + p.pending == p.sent;
      assert p.sent + f.sent + [] == p.sent + f.sent;
    } else {
      FlushIsPrefix(p.pending, plan);
      var f := Flush(p.pending, plan);
      if !f.ok && f.sent == [] {
        assert p.sent + f.sent == p.sent;
      }
    }
  }

  lemma PutStepKeeps(p: Put, op: PutOp)
    requires PutInv(p)
    ensures PutInv(PutStep(p, op))
  {
    match op {
      case Write(c, plan) =>
        if |p.pending| < p.capacity {
          assert p.sent + (p.pending + [c]) == p.sent + p.pending + [c];
        } else {
          OverflowKeeps(p, Some(c), plan);
        }
      case Sync(plan) => OverflowKeeps(p, None, plan);
      case SetBuf(_) =>
    }
  }

  lemma {:induction false} PutRunKeeps(p: Put, ops: seq<PutOp>)
    requires PutInv(p)
    ensures PutInv(PutRun(p, ops))
    decreases |ops|
  {
    if ops != [] {
      PutStepKeeps(p, ops[0]);
      PutRunKeeps(PutStep(p, ops[0]), ops[1..]);
    }
  }

  /** The bytes an operation tries to send. */
  function ToSend(p: Put, op: PutOp): seq<char> {
    match op
    case Write(c, _) => if p.capacity == 0 then [c] else if |p.pending| < p.capacity then [] else p.pending
    case Sync(_) => p.pending
    case SetBuf(_) => []
  }

  /** The operation's flush fails after having sent something. */
  predicate FailsPartway(p: Put, op: PutOp) {
    !op.SetBuf? && var f := Flush(ToSend(p, op), op.plan); !f.ok && f.sent != []
  }

  predicate NeverPartway(p: Put, ops: seq<PutOp>)
    decreases |ops|
  {
    ops == [] || (!FailsPartway(p, ops[0]) && NeverPartway(PutStep(p, ops[0]), ops[1..]))
  }

  lemma StepResent(p: Put, op: PutOp)
    requires PutInv(p)
    ensures PutStep(p, op).resent >= p.resent
    ensures PutStep(p, op).resent == p.resent <==> !FailsPartway(p, op)
  {
    if !op.SetBuf? {
      FlushIsPrefix(ToSend(p, op), op.plan);
    }
  }

  lemma {:induction false} RunResent(p: Put, ops: seq<PutOp>)
    requires PutInv(p)
    ensures PutRun(p, ops).resent >= p.resent
    ensures PutRun(p, ops).resent == p.resent <==> NeverPartway(p, ops)
    decreases |ops|
  {
    if ops != [] {
      StepResent(p, ops[0]);
      PutStepKeeps(p, ops[0]);
      RunResent(PutStep(p, ops[0]), ops[1..]);
    }
  }

  /** Every operation puts on the wire exactly what it has to send and the socket is ready to take. */
  lemma StepSends(p: Put, op: PutOp)
    requires PutInv(p)
    ensures var data, sent := ToSend(p, op), PutStep(p, op).sent;
            sent == p.sent + if op.SetBuf? then [] else data[..if Willing(op.plan) < |data| then Willing(op.plan) else |data|]
  {
    assert p.sent + [] == p.sent;
    if !op.SetBuf? {
      FlushSends(ToSend(p, op), op.plan);
    }
  }

  /** When overflow reports success: when the socket takes the whole put area, or without a buffer the character. */
  lemma OverflowOkIff(p: Put, c: Option<char>, plan: seq<SendStep>)
    ensures OverflowOk(p, c, plan) <==>
            (if p.capacity > 0 then |p.pending| else if c.Some? then 1 else 0) <= Willing(plan)
  {
    FlushSends(if p.capacity == 0 then AsSeq(c) else p.pending, plan);
  }

  /** Over every run of writes, syncs and switches to unbuffered mode, with any partial sends, would-blocks and
      failures: the sent bytes followed by the pending ones are the accepted characters in order, exactly when no
      operation's flush failed after having sent some bytes. */
  lemma PutConservation(ops: seq<PutOp>)
    ensures var p := PutRun(FRESH, ops);
            && (p.sent + p.pending == p.accepted <==> p.resent == 0)
            && (p.sent + p.pending == p.accepted <==> NeverPartway(FRESH, ops))
            && |p.pending| <= p.capacity <= BUFFER_SIZE
  {
    PutRunKeeps(FRESH, ops);
    RunResent(FRESH, ops);
    var p := PutRun(FRESH, ops);
    assert |p.sent + p.pending| == |p.sent| + |p.pending|;
  }

  /** Every sync that fails after a partial send leaves the put area as it was, so the next sync that succeeds puts
      the bytes already sent on the wire a second time. */
  lemma PartialFailureDuplicates(p: Put, failing: seq<SendStep>, working: seq<SendStep>)
    requires PutInv(p) && FailsPartway(p, Sync(failing)) && Flush(p.pending, working).ok
    ensures var first := Flush(p.pending, failing).sent;
            && first != [] && first < p.pending
            && PutRun(p, [Sync(failing), Sync(working)]).sent == p.sent + first + p.pending
            && PutRun(p, [Sync(failing), Sync(working)]).pending == []
  {
    FlushIsPrefix(p.pending, failing);
    FlushIsPrefix(p.pending, working);
    var a, b := Sync(failing), Sync(working);
    assert [a, b][1..] == [b] && [b][1..] == [];
    var mid := PutStep(p, a);
    assert p.capacity > 0 && mid.pending == p.pending;
    assert PutRun(p, [a, b]) == PutRun(mid, [b]);
    assert PutRun(mid, [b]) == PutStep(mid, b);
  }

  /** Such syncs exist: one of two pending bytes goes out before the failure. */
  lemma PartialFailureOccurs(a: char, b: char)
    ensures var p := PutRun(FRESH, [Write(a, []), Write(b, [])]);
            && p.pending == [a, b] && FailsPartway(p, Sync([Accept(0), SendFails])) && Flush(p.pending, [Accept(2)]).ok
  {
    var s, t := Write(a, []), Write(b, []);
    assert [s, t][1..] == [t] && [t][1..] == [];
    var p1 := PutStep(FRESH, s);
    var p2 := PutStep(p1, t);
    assert PutRun(p1, [t]) == p2;
    assert [] + [a] == [a] && [a] + [b] == [a, b];
    var failing := [Accept(0), SendFails];
    assert failing[1..] == [SendFails] && [a, b][1..] == [b] && [a, b][..1] == [a];
    assert Flush([b], [SendFails]) == Flushed([], false);
    assert Flush([a, b], failing) == Flushed([a], false);
    assert [Accept(2)][1..] == [] && [a, b][2..] == [] && [a, b][..2] == [a, b];
    assert Flush([a, b], [Accept(2)]).ok;
  }

  // ---- The get side ----

  /** One round of the receive loop. Deliver is what the socket has to offer; at most the free part of the buffer
      is taken, and an empty offer is the end of the stream. */
  datatype RecvStep = RecvExpired | Deliver(data: seq<char>) | RecvFails | RecvAgain | PollReadFails

  const ROOM: nat := BUFFER_SIZE - PUTBACK_MAX

  /** What a refill brings; empty when underflow returns eof. */
  function Refill(plan: seq<RecvStep>): (data: seq<char>)
    ensures |data| <= ROOM
    decreases |plan|
  {
    if plan == [] then []
    else
      match plan[0]
      case RecvAgain => Refill(plan[1..])
      case Deliver(data) => if |data| <= ROOM then data else data[..ROOM]
      case _ => []
  }

  /** unread is [gptr, egptr). */
  datatype Get = Get(received: seq<char>, unread: seq<char>, delivered: seq<char>)

  const EMPTY_GET := Get([], [], [])

  datatype GetOp = Peek(plan: seq<RecvStep>) | Read(plan: seq<RecvStep>)

  /** underflow; called with unread characters it returns eof and changes nothing. */
  function Underflow(g: Get, plan: seq<RecvStep>): Get {
    if g.unread != [] then g
    else Get(g.received + Refill(plan), Refill(plan), g.delivered)
  }

  /** The number of rounds that would block and are polled. */
  function Waits(plan: seq<RecvStep>): (n: nat)
    ensures n <= |plan|
    ensures forall i :: 0 <= i < n ==> plan[i] == RecvAgain
    ensures n < |plan| ==> plan[n] != RecvAgain
  {
    if plan == [] || plan[0] != RecvAgain then 0 else
      var n := Waits(plan[1..]);
      assert forall i :: 1 <= i < n + 1 ==> plan[i] == plan[1..][i - 1];
      n + 1
  }

  /** The bytes an underflow with this plan finds in the socket: the first 504 of those offered by the first round
      that does not block. */
  function Offered(plan: seq<RecvStep>): seq<char> {
    var n := Waits(plan);
    if n < |plan| && plan[n].Deliver? then
      var data := plan[n].data;
      if |data| < 504 then data else data[..504]
    else []
  }

  lemma {:induction false} RefillIsOffered(plan: seq<RecvStep>)
    ensures Refill(plan) == Offered(plan)
    decreases |plan|
  {
    if plan != [] {
      if plan[0] == RecvAgain {
        RefillIsOffered(plan[1..]);
        assert Waits(plan) == Waits(plan[1..]) + 1;
      } else if plan[0].Deliver? && |plan[0].data| == 504 {
        assert plan[0].data[..504] == plan[0].data;
      }
    }
  }

  /** Behind any number of would-blocks, an underflow on an empty get area makes the bytes that arrive available in
      order, up to the free part of the buffer; every other outcome leaves the area empty. */
  lemma UnderflowFills(g: Get, plan: seq<RecvStep>, n: nat)
    requires g.unread == [] && n <= |plan| && (forall i :: 0 <= i < n ==> plan[i] == RecvAgain)
    requires n < |plan| ==> plan[n] != RecvAgain
    ensures var r := Underflow(g, plan);
            && r.delivered == g.delivered && r.received == g.received + r.unread
            && (n < |plan| && plan[n].Deliver? ==>
                  var data := plan[n].data; r.unread == data[..if |data| < 504 then |data| else 504])
            && (n == |plan| || !plan[n].Deliver? ==> r.unread == [])
  {
    RefillIsOffered(plan);
    var k := Waits(plan);
    assert k == n by {
      assert k < |plan| ==> plan[k] != RecvAgain;
    }
    if n < |plan| && plan[n].Deliver? && |plan[n].data| < 504 {
      assert plan[n].data[..|plan[n].data|] == plan[n].data;
    }
  }

  /** sgetc and sbumpc */
  function GetStep(g: Get, op: GetOp): Get {
    var filled := if g.unread == [] then Underflow(g, op.plan) else g;
    if op.Peek? || filled.unread == [] then filled
    else filled.(unread := filled.unread[1..], delivered := filled.delivered + [filled.unread[0]])
  }

  function GetRun(g: Get, ops: seq<GetOp>): Get
    decreases |ops|
  {
    if ops == [] then g else GetRun(GetStep(g, ops[0]), ops[1..])
  }

  ghost predicate GetInv(g: Get) {
    g.delivered + g.unread == g.received && |g.unread| <= ROOM
  }

  lemma GetStepKeeps(g: Get, op: GetOp)
    requires GetInv(g)
    ensures GetInv(GetStep(g, op))
  {
    var filled := if g.unread == [] then Underflow(g, op.plan) else g;
    if g.unread == [] {
      assert g.delivered + [] == g.delivered;
    }
    if filled.unread != [] {
      assert filled.unread == [filled.unread[0]] + filled.unread[1..];
      assert filled.delivered + filled.unread == (filled.delivered + [filled.unread[0]]) + filled.unread[1..];
    }
  }

  /** A read takes the first character of what is unread, or of what a refill brings; a peek takes nothing. */
  lemma StepTakes(g: Get, op: GetOp)
    ensures var avail, r := if g.unread == [] then Offered(op.plan) else g.unread, GetStep(g, op);
            && r.received == g.received + (if g.unread == [] then Offered(op.plan) else [])
            && (op.Peek? || avail == [] ==> r.unread == avail && r.delivered == g.delivered)
            && (op.Read? && avail != [] ==> r.unread == avail[1..] && r.delivered == g.delivered + [avail[0]])
  {
    RefillIsOffered(op.plan);
    assert g.received + [] == g.received;
  }

  /** What the socket brought over a run: the offers of the operations that found the get area empty. */
  function Offers(g: Get, ops: seq<GetOp>): seq<char>
    decreases |ops|
  {
    if ops == [] then [] else
      (if g.unread == [] then Offered(ops[0].plan) else []) + Offers(GetStep(g, ops[0]), ops[1..])
  }

  lemma {:induction false} ReceivedIsOffered(g: Get, ops: seq<GetOp>)
    ensures GetRun(g, ops).received == g.received + Offers(g, ops)
    decreases |ops|
  {
    if ops == [] {
      assert g.received + [] == g.received;
    } else {
      StepTakes(g, ops[0]);
      ReceivedIsOffered(GetStep(g, ops[0]), ops[1..]);
    }
  }

  /** Over every run of reads and peeks: the delivered characters followed by the unread ones are the received
      bytes in order. */
  lemma {:induction false} GetConservation(g: Get, ops: seq<GetOp>)
    requires GetInv(g)
    ensures var r := GetRun(g, ops); r.delivered + r.unread == r.received && |r.unread| <= ROOM
    ensures var r := GetRun(g, ops); r.delivered + r.unread == g.delivered + g.unread + Offers(g, ops)
    decreases |ops|
  {
    if ops != [] {
      GetStepKeeps(g, ops[0]);
      GetConservation(GetStep(g, ops[0]), ops[1..]);
    }
    ReceivedIsOffered(g, ops);
  }

  /** Over a channel that offers a prefix of what was sent, a reader only ever sees a prefix of what the writer had
      accepted. */
  lemma EndToEnd(puts: seq<PutOp>, gets: seq<GetOp>)
    requires NeverPartway(FRESH, puts)
    requires Offers(EMPTY_GET, gets) <= PutRun(FRESH, puts).sent
    ensures GetRun(EMPTY_GET, gets).delivered <= PutRun(FRESH, puts).accepted
  {
    PutConservation(puts);
    GetConservation(EMPTY_GET, gets);
    var p, g := PutRun(FRESH, puts), GetRun(EMPTY_GET, gets);
    ReceivedIsOffered(EMPTY_GET, gets);
    assert g.received == Offers(EMPTY_GET, gets);
    assert g.delivered <= g.received && p.sent <= p.accepted;
  }
}
