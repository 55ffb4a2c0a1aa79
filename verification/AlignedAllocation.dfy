/** any_completion_handler_impl::allocate and deallocate: over-aligned regions cut out of a larger block, with the
    distance to the block's base hidden behind the user region. */
module AlignedAllocation {
  import opened Sequences

  const SIZE_LIMIT: nat := 0x1_0000_0000_0000_0000
  const OFFSET_SIZE: nat := 8

  function AlignUp(address: nat, align: nat): nat
    requires align > 0
  {
    (address + align - 1) / align * align
  }

  /** std::align: the aligned address if an object of this size fits behind it. */
  function StdAlign(align: nat, size: nat, address: nat, space: nat): Option<nat>
    requires align > 0
  {
    var p := AlignUp(address, align);
    if p - address + size <= space then Some(p) else None
  }

  /** The std::size_t sums of allocate. */
  function Space(size: nat, align: nat): nat
    requires align > 0
  {
    (size + align - 1) % SIZE_LIMIT
  }

  function Request(size: nat, align: nat): nat
    requires align > 0
  {
    (Space(size, align) + OFFSET_SIZE) % SIZE_LIMIT
  }

  predicate Fits(size: nat, align: nat) {
    align > 0 && size + align - 1 + OFFSET_SIZE < SIZE_LIMIT
  }

  lemma AlignUpBounds(address: nat, align: nat)
    requires align > 0
    ensures AlignUp(address, align) % align == 0
    ensures address <= AlignUp(address, align) < address + align
  {
    var n := address + align - 1;
    var q := n / align;
    assert n == q * align + n % align;
    assert AlignUp(address, align) == q * align;
    MultipleMod(q, align);
  }

  lemma MultipleMod(q: nat, a: nat)
    requires a > 0
    ensures q * a % a == 0
  {
    assert q * a == a * q + 0;
    DivModUnique(q * a, a, q, 0);
  }

  lemma ScaleBounds(a: int, d: int)
    requires a > 0
    ensures d >= 1 ==> a * d >= a
    ensures d <= 0 ==> a * d <= 0
    ensures d <= -1 ==> a * d <= -a
  {
    if d >= 1 {
      assert a * d == a + a * (d - 1) && a * (d - 1) >= 0;
    } else if d <= -1 {
      assert a * d == -a + a * (d + 1) && a * (-(d + 1)) >= 0;
    }
  }

  lemma DivModUnique(n: nat, a: nat, q: nat, r: nat)
    requires a > 0 && n == a * q + r && r < a
    ensures n / a == q && n % a == r
  {
    var d: int := n / a - q;
    assert n == a * (n / a) + n % a;
    assert a * d == r - n % a;
    ScaleBounds(a, d);
  }

  /** The aligned address is the least one at or behind the base. */
  lemma AlignUpLeast(address: nat, align: nat, p: nat)
    requires align > 0 && address <= p && p % align == 0
    ensures AlignUp(address, align) <= p
  {
    AlignUpBounds(address, align);
    var a := AlignUp(address, align);
    if p < a {
      Distance(a, p, align);
    }
  }

  /** Two multiples less than one step apart coincide. */
  lemma Distance(a: nat, b: nat, step: nat)
    requires step > 0 && a % step == 0 && b % step == 0 && b < a
    ensures a - b >= step
  {
    var q, r := a / step, b / step;
    assert a == step * q && b == step * r;
    assert step * (q - r) == a - b;
    ScaleBounds(step, q - r);
  }

  /** For every size and alignment and whatever block the allocator returns: the aligned address exists exactly when
      the sum of the two did not wrap; then it is aligned, and region and trailer lie in the block, one behind the
      other, exactly when adding the trailer does not wrap either. */
  lemma Layout(size: nat, align: nat, base: nat)
    requires 0 < align < SIZE_LIMIT && size < SIZE_LIMIT
    ensures StdAlign(align, size, base, Space(size, align)).Some? <==> size + align - 1 < SIZE_LIMIT
    ensures Fits(size, align) ==>
              var p := AlignUp(base, align);
              && StdAlign(align, size, base, Space(size, align)) == Some(p)
              && p % align == 0 && base <= p && p - base < align
              && p + size + OFFSET_SIZE <= base + Request(size, align)
              && Request(size, align) == size + align - 1 + OFFSET_SIZE
    ensures size + align - 1 < SIZE_LIMIT ==>
              (AlignUp(base, align) + size + OFFSET_SIZE <= base + Request(size, align) <==> Fits(size, align))
  {
    AlignUpBounds(base, align);
    Sums(size, align);
    hide AlignUp, Space, Request;
  }

  lemma Sums(size: nat, align: nat)
    requires 0 < align < SIZE_LIMIT && size < SIZE_LIMIT
    ensures Space(size, align) == if size + align - 1 < SIZE_LIMIT then size + align - 1 else size + align - 1 - SIZE_LIMIT
    ensures Fits(size, align) ==> Request(size, align) == size + align - 1 + OFFSET_SIZE
    ensures size + align - 1 < SIZE_LIMIT && !Fits(size, align) ==> Request(size, align) < OFFSET_SIZE
  {
    if size + align - 1 < SIZE_LIMIT {
      SmallMod(size + align - 1, SIZE_LIMIT);
      var sum := size + align - 1 + OFFSET_SIZE;
      if Fits(size, align) {
        SmallMod(sum, SIZE_LIMIT);
      } else {
        DivModUnique(sum, SIZE_LIMIT, 1, sum - SIZE_LIMIT);
      }
    } else {
      DivModUnique(size + align - 1, SIZE_LIMIT, 1, size + align - 1 - SIZE_LIMIT);
    }
  }

  lemma SmallMod(n: nat, m: nat)
    requires n < m
    ensures n % m == n
  {
  }

  // ---- The trailer bytes ----

  function Encode(n: nat, k: nat): (s: seq<nat>)
    ensures |s| == k
  {
    if k == 0 then [] else [n % 256] + Encode(n / 256, k - 1)
  }

  function Decode(s: seq<nat>): nat {
    if s == [] then 0 else s[0] + 256 * Decode(s[1..])
  }

  function Pow256(k: nat): nat {
    if k == 0 then 1 else 256 * Pow256(k - 1)
  }

  lemma {:induction false} DecodeEncode(n: nat, k: nat)
    requires n < Pow256(k)
    ensures Decode(Encode(n, k)) == n
  {
    if k > 0 {
      DecodeEncode(n / 256, k - 1);
    }
  }

  lemma OffsetRoundTrip(n: nat)
    requires n < SIZE_LIMIT
    ensures Decode(Encode(n, OFFSET_SIZE)) == n
  {
    assert Pow256(4) == 0x1_0000_0000;
    assert Pow256(8) == SIZE_LIMIT;
    DecodeEncode(n, 8);
  }

  // ---- Memory shared by many allocations ----

  /** What the caller of allocate holds on to, under the address it got. */
  datatype Ticket = Ticket(base: nat, size: nat, align: nat)

  /** blocks are the live blocks of the underlying allocator with their lengths, those of other users included. */
  datatype Memory = Memory(cells: map<nat, nat>, blocks: map<nat, nat>, tickets: map<nat, Ticket>)

  datatype Op =
    | Allocate(size: nat, align: nat, base: nat)  // base is the allocator's choice
    | Deallocate(p: nat)
    | WriteUser(p: nat, at: nat, value: nat)      // a write into a user region
    | OtherAllocate(base: nat, len: nat)          // the same allocator used directly
    | OtherFree(base: nat)
    | WriteOther(base: nat, at: nat, value: nat)

  ghost predicate Apart(b: nat, m: nat, c: nat, n: nat) {
    b + m <= c || c + n <= b
  }

  /** The allocator returns memory that is not in use. */
  ghost predicate Free(m: Memory, base: nat, len: nat) {
    base > 0 && len > 0 && forall b :: b in m.blocks ==> Apart(base, len, b, m.blocks[b])
  }

  ghost predicate Foreign(m: Memory, base: nat) {
    base in m.blocks && forall p :: p in m.tickets ==> m.tickets[p].base != base
  }

  ghost predicate Allowed(m: Memory, op: Op) {
    match op
    case Allocate(size, align, base) => Fits(size, align) && Free(m, base, Request(size, align))
    case Deallocate(p) => p in m.tickets
    case WriteUser(p, at, _) => p in m.tickets && p <= at < p + m.tickets[p].size
    case OtherAllocate(base, len) => Free(m, base, len)
    case OtherFree(base) => Foreign(m, base)
    case WriteOther(base, at, _) => Foreign(m, base) && base <= at < base + m.blocks[base]
  }

  function WriteBytes(cells: map<nat, nat>, at: nat, s: seq<nat>): (r: map<nat, nat>)
    ensures forall i :: at <= i < at + |s| ==> i in r && r[i] == s[i - at]
    ensures forall i :: !(at <= i < at + |s|) ==> (i in r <==> i in cells) && (i in cells ==> r[i] == cells[i])
    decreases |s|
  {
    if s == [] then cells else
      var rest := WriteBytes(cells[at := s[0]], at + 1, s[1..]);
      assert rest[at] == s[0];
      rest
  }

  function ReadBytes(cells: map<nat, nat>, at: nat, k: nat): seq<nat> {
    seq(k, i requires 0 <= i < k => if at + i in cells then cells[at + i] else 0)
  }

  /** What deallocate(p, size, align) hands back to the allocator. */
  function Returned(cells: map<nat, nat>, p: nat, size: nat, align: nat): (int, nat)
    requires align > 0
  {
    (p - Decode(ReadBytes(cells, p + size, OFFSET_SIZE)), Request(size, align))
  }

  /** The trailer is all that allocate writes. */
  function Allocated(m: Memory, size: nat, align: nat, base: nat): Memory
    requires align > 0
  {
    AlignUpBounds(base, align);
    var p := AlignUp(base, align);
    Memory(WriteBytes(m.cells, p + size, Encode((p - base) % SIZE_LIMIT, OFFSET_SIZE)),
           m.blocks[base := Request(size, align)],
           m.tickets[p := Ticket(base, size, align)])
  }

  function Deallocated(m: Memory, p: nat): Memory
    requires p in m.tickets
  {
    m.(blocks := m.blocks - {m.tickets[p].base}, tickets := m.tickets - {p})
  }

  ghost function Step(m: Memory, op: Op): Memory
  {
    if !Allowed(m, op) then m else
      match op
      case Allocate(size, align, base) => Allocated(m, size, align, base)
      case Deallocate(p) => Deallocated(m, p)
      case WriteUser(_, at, value) => m.(cells := m.cells[at := value])
      case OtherAllocate(base, len) => m.(blocks := m.blocks[base := len])
      case OtherFree(base) => m.(blocks := m.blocks - {base})
      case WriteOther(_, at, value) => m.(cells := m.cells[at := value])
  }

  ghost function Run(m: Memory, ops: seq<Op>): Memory
    decreases |ops|
  {
    if ops == [] then m else Run(Step(m, ops[0]), ops[1..])
  }

  /** Ticket p is backed by its block, and the trailer still holds the offset. */
  ghost predicate Backed(m: Memory, p: nat)
    requires p in m.tickets
  {
    var t := m.tickets[p];
    && Fits(t.size, t.align) && t.base in m.blocks && m.blocks[t.base] == Request(t.size, t.align)
    && p % t.align == 0 && t.base <= p
    && p + t.size + OFFSET_SIZE <= t.base + m.blocks[t.base]
    && Decode(ReadBytes(m.cells, p + t.size, OFFSET_SIZE)) == p - t.base
  }

  ghost predicate DisjointBlocks(m: Memory) {
    forall b, c :: b in m.blocks && c in m.blocks && b != c ==> Apart(b, m.blocks[b], c, m.blocks[c])
  }

  ghost predicate AllBacked(m: Memory) {
    forall p :: p in m.tickets ==> Backed(m, p)
  }

  ghost predicate OneTicketPerBlock(m: Memory) {
    forall p, q :: p in m.tickets && q in m.tickets && p != q ==> m.tickets[p].base != m.tickets[q].base
  }

  ghost predicate Inv(m: Memory) {
    DisjointBlocks(m) && AllBacked(m) && OneTicketPerBlock(m)
  }

  /** A ticket survives whatever leaves its block and its trailer alone. */
  lemma BackedStays(m: Memory, m': Memory, p: nat)
    requires p in m.tickets && Backed(m, p)
    requires p in m'.tickets && m'.tickets[p] == m.tickets[p]
    requires var t := m.tickets[p];
             && t.base in m'.blocks && m'.blocks[t.base] == m.blocks[t.base]
             && forall i :: p + t.size <= i < p + t.size + OFFSET_SIZE ==>
                  (i in m.cells <==> i in m'.cells) && (i in m.cells ==> m.cells[i] == m'.cells[i])
    ensures Backed(m', p)
  {
    var t := m.tickets[p];
    assert ReadBytes(m'.cells, p + t.size, OFFSET_SIZE) == ReadBytes(m.cells, p + t.size, OFFSET_SIZE);
  }

  lemma MakeBacked(m: Memory, p: nat, size: nat, align: nat, base: nat)
    requires p in m.tickets && m.tickets[p] == Ticket(base, size, align) && Fits(size, align)
    requires base in m.blocks && m.blocks[base] == Request(size, align) && p == AlignUp(base, align)
    requires Decode(ReadBytes(m.cells, p + size, OFFSET_SIZE)) == p - base
    ensures Backed(m, p)
  {
    Layout(size, align, base);
  }

  lemma OffsetSmall(size: nat, align: nat, base: nat)
    requires Fits(size, align)
    ensures var p := AlignUp(base, align);
            base <= p && p - base < SIZE_LIMIT && (p - base) % SIZE_LIMIT == p - base
  {
    AlignUpBounds(base, align);
    SmallMod(AlignUp(base, align) - base, SIZE_LIMIT);
  }

  lemma NewTrailer(m: Memory, size: nat, align: nat, base: nat, p: nat)
    requires Fits(size, align) && p == AlignUp(base, align)
    ensures base <= p && Decode(ReadBytes(Allocated(m, size, align, base).cells, p + size, OFFSET_SIZE)) == p - base
  {
    hide Request, AlignUp, WriteBytes, ReadBytes, Encode, Decode;
    OffsetSmall(size, align, base);
    var off := p - base;
    assert Allocated(m, size, align, base).cells == WriteBytes(m.cells, p + size, Encode(off, OFFSET_SIZE));
    hide Allocated;
    TrailerHolds(m.cells, p + size, off);
  }

  lemma NewTicketBacked(m: Memory, size: nat, align: nat, base: nat)
    requires Fits(size, align)
    ensures var m', p := Allocated(m, size, align, base), AlignUp(base, align);
            p in m'.tickets && Backed(m', p)
  {
    var m', p := Allocated(m, size, align, base), AlignUp(base, align);
    hide Request, AlignUp, WriteBytes, ReadBytes, Encode, Decode, Backed;
    NewTrailer(m, size, align, base, p);
    MakeBacked(m', p, size, align, base);
  }

  lemma TrailerHolds(cells: map<nat, nat>, at: nat, off: nat)
    requires off < SIZE_LIMIT
    ensures Decode(ReadBytes(WriteBytes(cells, at, Encode(off, OFFSET_SIZE)), at, OFFSET_SIZE)) == off
  {
    OffsetRoundTrip(off);
    hide WriteBytes, Encode, Decode;
    ReadWritten(cells, at, Encode(off, OFFSET_SIZE));
  }

  lemma ReadWritten(cells: map<nat, nat>, at: nat, s: seq<nat>)
    ensures ReadBytes(WriteBytes(cells, at, s), at, |s|) == s
  {
  }

  lemma OtherTicketBacked(m: Memory, size: nat, align: nat, base: nat, q: nat)
    requires Inv(m) && Fits(size, align) && Free(m, base, Request(size, align)) && q in m.tickets
    ensures var m' := Allocated(m, size, align, base);
            && q != AlignUp(base, align) && m.tickets[q].base != base
            && q in m'.tickets && m'.tickets[q] == m.tickets[q] && Backed(m', q)
  {
    var m', t := Allocated(m, size, align, base), m.tickets[q];
    assert Backed(m, q) && Apart(base, Request(size, align), t.base, m.blocks[t.base]);
    Layout(size, align, base);
    BackedStays(m, m', q);
  }

  lemma NewBlockDisjoint(m: Memory, m': Memory, base: nat, len: nat)
    requires DisjointBlocks(m) && Free(m, base, len) && m'.blocks == m.blocks[base := len]
    ensures DisjointBlocks(m')
  {
  }

  lemma AllocateKeeps(m: Memory, size: nat, align: nat, base: nat)
    requires Inv(m) && Fits(size, align) && Free(m, base, Request(size, align))
    ensures Inv(Allocated(m, size, align, base))
  {
    var m', p := Allocated(m, size, align, base), AlignUp(base, align);
    assert m'.blocks == m.blocks[base := Request(size, align)];
    assert m'.tickets == m.tickets[p := Ticket(base, size, align)];
    hide Allocated, Free, Backed, Request, AlignUp, DisjointBlocks;
    NewTicketBacked(m, size, align, base);
    NewBlockDisjoint(m, m', base, Request(size, align));
    forall q | q in m.tickets
      ensures q != p && m.tickets[q].base != base && m'.tickets[q] == m.tickets[q] && Backed(m', q)
    {
      OtherTicketBacked(m, size, align, base, q);
    }
  }

  /** A write into one block outside its trailer. */
  lemma WriteKeeps(m: Memory, base: nat, at: nat, value: nat)
    requires Inv(m) && base in m.blocks && base <= at < base + m.blocks[base]
    requires forall p :: p in m.tickets && m.tickets[p].base == base ==> at < p + m.tickets[p].size
    ensures Inv(m.(cells := m.cells[at := value]))
  {
    var m' := m.(cells := m.cells[at := value]);
    forall q | q in m.tickets ensures Backed(m', q) {
      var t := m.tickets[q];
      assert Backed(m, q);
      assert t.base != base ==> Apart(base, m.blocks[base], t.base, m.blocks[t.base]);
      BackedStays(m, m', q);
    }
  }

  /** Releasing a block that backs no remaining ticket. */
  lemma ReleaseKeeps(m: Memory, m': Memory, base: nat)
    requires Inv(m) && m'.cells == m.cells && m'.blocks == m.blocks - {base}
    requires forall q :: q in m'.tickets ==> q in m.tickets && m'.tickets[q] == m.tickets[q] && m.tickets[q].base != base
    ensures Inv(m')
  {
    forall q | q in m'.tickets ensures Backed(m', q) {
      assert Backed(m, q);
      BackedStays(m, m', q);
    }
  }

  lemma OtherAllocateKeeps(m: Memory, base: nat, len: nat)
    requires Inv(m) && Free(m, base, len)
    ensures Inv(m.(blocks := m.blocks[base := len]))
  {
    var m' := m.(blocks := m.blocks[base := len]);
    NewBlockDisjoint(m, m', base, len);
    forall q | q in m.tickets ensures Backed(m', q) {
      assert Backed(m, q);
      assert Apart(base, len, m.tickets[q].base, m.blocks[m.tickets[q].base]);
      BackedStays(m, m', q);
    }
  }

  lemma StepKeeps(m: Memory, op: Op)
    requires Inv(m)
    ensures Inv(Step(m, op))
  {
    if Allowed(m, op) {
      match op {
        case Allocate(size, align, base) => AllocateKeeps(m, size, align, base);
        case Deallocate(p) => ReleaseKeeps(m, Deallocated(m, p), m.tickets[p].base);
        case WriteUser(p, at, value) =>
          assert Backed(m, p);
          WriteKeeps(m, m.tickets[p].base, at, value);
        case OtherAllocate(base, len) => OtherAllocateKeeps(m, base, len);
        case OtherFree(base) => ReleaseKeeps(m, Step(m, op), base);
        case WriteOther(base, at, value) => WriteKeeps(m, base, at, value);
      }
    }
  }

  lemma {:induction false} RunKeeps(m: Memory, ops: seq<Op>)
    requires Inv(m)
    ensures Inv(Run(m, ops))
    decreases |ops|
  {
    if ops != [] {
      StepKeeps(m, ops[0]);
      RunKeeps(Step(m, ops[0]), ops[1..]);
    }
  }

  /** One deallocation in any memory that keeps the invariant. */
  lemma OneDeallocation(m: Memory, p: nat)
    requires Inv(m) && p in m.tickets
    ensures var t := m.tickets[p];
            && t.align > 0 && t.base in m.blocks
            && Returned(m.cells, p, t.size, t.align) == (t.base, m.blocks[t.base])
            && Inv(Deallocated(m, p))
  {
    hide Backed, DisjointBlocks;
    assert Backed(m, p);
    BackedReturns(m, p);
    ReleaseKeeps(m, Deallocated(m, p), m.tickets[p].base);
  }

  lemma BackedReturns(m: Memory, p: nat)
    requires p in m.tickets && Backed(m, p)
    ensures var t := m.tickets[p];
            && t.align > 0 && t.base in m.blocks
            && Returned(m.cells, p, t.size, t.align) == (t.base, m.blocks[t.base])
  {
    hide ReadBytes, Decode, Request;
  }

  /** After every interleaving of allocations, deallocations, writes into user regions and other uses of the
      allocator: each live region is aligned and lies in a block of its own, and deallocate hands back exactly the
      base and the length that allocate had asked for. */
  lemma DeallocateRecovers(ops: seq<Op>, p: nat)
    requires p in Run(Memory(map[], map[], map[]), ops).tickets
    ensures var m := Run(Memory(map[], map[], map[]), ops);
            var t := m.tickets[p];
            && t.align > 0 && p % t.align == 0
            && t.base in m.blocks && t.base <= p && p + t.size + OFFSET_SIZE <= t.base + m.blocks[t.base]
            && Returned(m.cells, p, t.size, t.align) == (t.base, m.blocks[t.base])
  {
    RunKeeps(Memory(map[], map[], map[]), ops);
    var m := Run(Memory(map[], map[], map[]), ops);
    OneDeallocation(m, p);
    assert Backed(m, p);
    hide Run, Returned, Request, ReadBytes, Decode;
  }

  // ---- The two member functions ----

  /** The memory as the member functions see it, with the accounts of what is allocated in it. */
  class Arena {
    var cells: map<nat, nat>
    ghost var blocks: map<nat, nat>
    ghost var tickets: map<nat, Ticket>

    ghost function Abs(): Memory
      reads this
    {
      Memory(cells, blocks, tickets)
    }

    constructor ()
      ensures Abs() == Memory(map[], map[], map[]) && Inv(Abs())
    {
      cells, blocks, tickets := map[], map[], map[];
    }

    /** base is the block the allocator returns for the request; None is std::bad_alloc. */
    method Allocate(size: nat, align: nat, base: nat) returns (request: nat, p: Option<nat>)
      requires 0 < align < SIZE_LIMIT && size < SIZE_LIMIT
      modifies this
      ensures request == Request(size, align)
      ensures p.Some? <==> size + align - 1 < SIZE_LIMIT
      ensures p.None? ==> Abs() == old(Abs())
      ensures p.Some? ==> p.value == AlignUp(base, align) && Abs() == Allocated(old(Abs()), size, align, base)
      ensures p.Some? && old(Inv(Abs())) && Fits(size, align) && old(Free(Abs(), base, Request(size, align))) ==> Inv(Abs())
    {
      hide Inv, Free, WriteBytes, Encode, AlignUp;
      ghost var m := Abs();
      if Inv(m) && Fits(size, align) && Free(m, base, Request(size, align)) {
        AllocateKeeps(m, size, align, base);
      }
      Layout(size, align, base);
      var space := (size + align - 1) % SIZE_LIMIT;
      request := (space + OFFSET_SIZE) % SIZE_LIMIT;
      p := StdAlign(align, size, base, space);
      hide Request, Space;
      if p.Some? {
        AlignUpBounds(base, align);
        var off := p.value - base;
        cells := WriteBytes(cells, p.value + size, Encode(off % SIZE_LIMIT, OFFSET_SIZE));
        blocks := blocks[base := request];
        tickets := tickets[p.value := Ticket(base, size, align)];
      }
    }

    /** None is the call with a null pointer, which does nothing. In a memory that any interleaving of operations has
        led to, the block handed back is exactly the one that the allocation of p had asked for. */
    method Deallocate(p: nat, size: nat, align: nat) returns (r: Option<(int, nat)>)
      requires align > 0
      modifies this`blocks, this`tickets
      ensures r == if p == 0 then None else Some(Returned(cells, p, size, align))
      ensures old(p in tickets && tickets[p].size == size && tickets[p].align == align) && p != 0 ==>
                Abs() == Deallocated(old(Abs()), p)
      ensures old(Inv(Abs()) && p in tickets && tickets[p].size == size && tickets[p].align == align) && p != 0 ==>
                r == Some((old(tickets)[p].base, old(blocks)[old(tickets)[p].base])) && Inv(Abs())
    {
      if p == 0 {
        return None;
      }
      ghost var m := Abs();
      if Inv(m) && p in tickets {
        OneDeallocation(m, p);
      }
      var off := Decode(ReadBytes(cells, p + size, OFFSET_SIZE));
      var base := p - off;
      r := Some((base, ((size + align - 1) % SIZE_LIMIT + OFFSET_SIZE) % SIZE_LIMIT));
      assert r == Some(Returned(cells, p, size, align));
      hide Decode, ReadBytes, Inv, Returned;
      if p in tickets && tickets[p].size == size && tickets[p].align == align {
        blocks, tickets := blocks - {tickets[p].base}, tickets - {p};
      }
    }
  }
}
