/** basic_socket_streambuf over its two fixed buffers and six area pointers. */
module Streambuf {
  import opened Sequences
  import opened StreambufSpec

  class SocketStreambuf {
    const getBuffer: array<char>
    var putBuffer: array<char>

    // Area pointers, as offsets into the buffers.
    var eback: nat
    var gptr: nat
    var egptr: nat
    var pbase: nat
    var pptr: nat
    var epptr: nat

    // What the socket has seen, and the accounts of the callers.
    var sent: seq<char>
    var received: seq<char>
    ghost var accepted: seq<char>
    ghost var resent: nat
    ghost var delivered: seq<char>

    /** The get pointers stay inside the buffer behind the putback area, the put pointers inside the put buffer,
        which is empty in unbuffered mode. */
    ghost predicate Valid()
      reads this
    {
      && getBuffer.Length == BUFFER_SIZE && getBuffer != putBuffer
      && eback == 0 && PUTBACK_MAX <= gptr <= egptr <= BUFFER_SIZE
      && (putBuffer.Length == BUFFER_SIZE || putBuffer.Length == 0)
      && pbase == 0 && pptr <= epptr == putBuffer.Length
    }

    ghost function PutAbs(): Put
      requires Valid()
      reads this, putBuffer
    {
      Put(sent, putBuffer[pbase..pptr], putBuffer.Length, accepted, resent)
    }

    ghost function GetAbs(): Get
      requires Valid()
      reads this, getBuffer
    {
      Get(received, getBuffer[gptr..egptr], delivered)
    }

    constructor ()
      ensures Valid() && fresh(getBuffer) && fresh(putBuffer)
      ensures PutAbs() == FRESH && GetAbs() == EMPTY_GET
    {
      getBuffer := new char[BUFFER_SIZE](_ => '\0');
      putBuffer := new char[BUFFER_SIZE](_ => '\0');
      eback, gptr, egptr := 0, PUTBACK_MAX, PUTBACK_MAX;
      pbase, pptr, epptr := 0, 0, BUFFER_SIZE;
      sent, received, accepted, resent, delivered := [], [], [], 0, [];
    }

    /** The send loop; left is what the original holds in output_buffer. */
    method SendAll(output: seq<char>, plan: seq<SendStep>) returns (ok: bool)
      modifies this`sent
      ensures var f := Flush(output, plan); ok == f.ok && sent == old(sent) + f.sent
      ensures ok <==> |output| <= Willing(plan)
      ensures sent == old(sent) + output[..if Willing(plan) < |output| then Willing(plan) else |output|]
    {
      FlushSends(output, plan);
      var left := output;
      var k := 0;
      while |left| > 0
        invariant k <= |plan|
        invariant sent + Flush(left, plan[k..]).sent == old(sent) + Flush(output, plan).sent
        invariant Flush(left, plan[k..]).ok == Flush(output, plan).ok
        decreases |plan| - k
      {
        if k == |plan| {
          return false;
        }
        var step := plan[k];
        assert plan[k..][1..] == plan[k + 1..];
        k := k + 1;
        match step {
          case SendExpired => return false;
          case Accept(n) =>
            var bytes := Taken(n, |left|);
            sent := sent + left[..bytes];
            left := left[bytes..];
          case SendFails => return false;
          case SendAgain =>
          case PollWriteFails => return false;
        }
      }
      return true;
    }

    /** overflow; None is eof and a false result is the eof the original returns. */
    method DoOverflow(c: Option<char>, plan: seq<SendStep>) returns (ok: bool)
      requires Valid()
      modifies this`sent, this`pptr, this`accepted, this`resent, putBuffer
      ensures Valid()
      ensures ok == OverflowOk(old(PutAbs()), c, plan)
      ensures PutAbs() == Overflow(old(PutAbs()), c, plan)
    {
      ghost var before := PutAbs();
      var output: seq<char>;
      if putBuffer.Length == 0 {
        if c.None? {
          assert sent + [] == sent && accepted + [] == accepted;
          return true;
        }
        output := [c.value];
      } else {
        output := putBuffer[pbase..pptr];
      }
      ok := SendAll(output, plan);
      ghost var f := Flush(output, plan);
      if !ok {
        if putBuffer.Length == 0 {
          assert accepted + [] == accepted;
        } else {
          resent := resent + |f.sent|;
        }
        return;
      }
      accepted := accepted + AsSeq(c);
      if putBuffer.Length != 0 {
        pptr := 0;
        if c.None? {
          return;
        }
        putBuffer[pptr] := c.value;
        pptr := pptr + 1;
      }
    }

    /** sputc */
    method PutChar(c: char, plan: seq<SendStep>) returns (ok: bool)
      requires Valid()
      modifies this`sent, this`pptr, this`accepted, this`resent, putBuffer
      ensures Valid() && PutAbs() == WriteChar(old(PutAbs()), c, plan)
      ensures ok == (|old(PutAbs()).pending| < putBuffer.Length || OverflowOk(old(PutAbs()), Some(c), plan))
      ensures ok <==> || |old(PutAbs()).pending| < putBuffer.Length
                      || (if putBuffer.Length == 0 then 1 else |old(PutAbs()).pending|) <= Willing(plan)
      ensures accepted == old(accepted) + if ok then [c] else []
    {
      OverflowOkIff(PutAbs(), Some(c), plan);
      if pptr < epptr {
        ghost var pending := putBuffer[pbase..pptr];
        putBuffer[pptr] := c;
        pptr := pptr + 1;
        accepted := accepted + [c];
        assert putBuffer[pbase..pptr] == pending + [c];
        return true;
      }
      ok := DoOverflow(Some(c), plan);
    }

    method DoSync(plan: seq<SendStep>) returns (ok: bool)
      requires Valid()
      modifies this`sent, this`pptr, this`accepted, this`resent, putBuffer
      ensures Valid() && PutAbs() == PutStep(old(PutAbs()), Sync(plan))
      ensures ok == OverflowOk(old(PutAbs()), None, plan) && accepted == old(accepted)
      ensures ok <==> |old(PutAbs()).pending| <= Willing(plan)
    {
      OverflowOkIff(PutAbs(), None, plan);
      ok := DoOverflow(None, plan);
    }

    /** setbuf; off stands for a null pointer and size zero, the only request that is granted. */
    method DoSetBuf(off: bool) returns (ok: bool)
      requires Valid()
      modifies this
      ensures Valid() && PutAbs() == PutStep(old(PutAbs()), SetBuf(off))
      ensures ok == (off && old(PutAbs()).pending == []) && accepted == old(accepted)
      ensures ok ==> putBuffer.Length == 0
      ensures GetAbs() == old(GetAbs())
    {
      if pptr == pbase && off {
        assert putBuffer[pbase..pptr] == [];
        putBuffer := new char[0];
        pbase, pptr, epptr := 0, 0, 0;
        ok := DoSync([]);
        return true;
      }
      assert off ==> putBuffer[pbase..pptr] != [];
      return false;
    }

    /** recv into the free part of the get buffer, then setg. */
    method Receive(bytes: seq<char>)
      requires Valid() && 0 < |bytes| <= ROOM
      modifies this`gptr, this`egptr, this`received, getBuffer
      ensures Valid() && received == old(received) + bytes && getBuffer[gptr..egptr] == bytes
    {
      forall i | 0 <= i < |bytes| {
        getBuffer[PUTBACK_MAX + i] := bytes[i];
      }
      gptr, egptr := PUTBACK_MAX, PUTBACK_MAX + |bytes|;
      received := received + bytes;
      assert forall i :: 0 <= i < |bytes| ==> getBuffer[gptr + i] == bytes[i];
    }

    /** underflow; got is false when the original returns eof. */
    method DoUnderflow(plan: seq<RecvStep>) returns (got: bool)
      requires Valid()
      modifies this`gptr, this`egptr, this`received, getBuffer
      ensures Valid() && GetAbs() == Underflow(old(GetAbs()), plan)
      ensures got == (old(GetAbs().unread) == [] && GetAbs().unread != [])
      ensures GetAbs().unread == if old(GetAbs().unread) == [] then Offered(plan) else old(GetAbs().unread)
      ensures old(GetAbs().unread) != [] ==> getBuffer[..] == old(getBuffer[..]) && gptr == old(gptr)
    {
      RefillIsOffered(plan);
      if gptr != egptr {
        return false;
      }
      var k := 0;
      while true
        invariant k <= |plan| && gptr == egptr == old(gptr) && received == old(received)
        invariant Refill(plan[k..]) == Refill(plan)
        decreases |plan| - k
      {
        assert received + [] == received;
        if k == |plan| {
          return false;
        }
        assert plan[k..][1..] == plan[k + 1..];
        match plan[k] {
          case RecvExpired => return false;
          case Deliver(data) =>
            var bytes := if |data| <= ROOM then data else data[..ROOM];
            if |bytes| > 0 {
              Receive(bytes);
              return true;
            }
            return false;
          case RecvFails => return false;
          case RecvAgain =>
          case PollReadFails => return false;
        }
        k := k + 1;
      }
    }

    /** sgetc */
    method PeekChar(plan: seq<RecvStep>) returns (c: Option<char>)
      requires Valid()
      modifies this`gptr, this`egptr, this`received, getBuffer
      ensures Valid() && GetAbs() == GetStep(old(GetAbs()), Peek(plan))
      ensures c == if GetAbs().unread == [] then None else Some(GetAbs().unread[0])
    {
      if gptr == egptr {
        var got := DoUnderflow(plan);
        if !got {
          return None;
        }
      }
      return Some(getBuffer[gptr]);
    }

    /** sbumpc */
    method GetChar(plan: seq<RecvStep>) returns (c: Option<char>)
      requires Valid()
      modifies this`gptr, this`egptr, this`received, this`delivered, getBuffer
      ensures Valid() && GetAbs() == GetStep(old(GetAbs()), Read(plan))
      ensures delivered == old(delivered) + AsSeq(c)
    {
      c := PeekChar(plan);
      if c.Some? {
        delivered := delivered + [c.value];
        gptr := gptr + 1;
      } else {
        assert delivered + [] == delivered;
      }
    }

    /** The destructor's last flush. */
    method Close(plan: seq<SendStep>)
      requires Valid()
      modifies this`sent, this`pptr, this`accepted, this`resent, putBuffer
      ensures Valid()
      ensures PutAbs() == if old(PutAbs()).pending == [] then old(PutAbs()) else PutStep(old(PutAbs()), Sync(plan))
    {
      if pptr != pbase {
        assert putBuffer[pbase..pptr] != [];
        var _ := DoOverflow(None, plan);
      }
    }
  }
}
