/**
 Emulated thread-local storage: object offsets, per-thread arrays that grow on
 demand, aligned allocations with a back pointer, and their destruction.
 malloc may be any function of the live blocks that returns null or room.
 */
module EmutlsStorage {
  import opened Arithmetic
  import opened Bits
  import opened Fifo
  import opened Wrappers

  type Thread = nat                    // also stands for the start-up context
  type ObjectId = nat
  type Address = nat
  type Entry = (Thread, nat)           // a thread and an array index
  type Byte = bv8

  const WORD_SIZE := 4                 // sizeof(void*)
  const SIZE_MAX := 0xFFFF_FFFF
  const SPACE := 0x1_0000_0000

  /** The compiler's description of a thread-local object. */
  datatype Template = Template(size: nat, alignment: nat, initializer: Option<seq<Byte>>)

  /** Where one object of one thread lives. */
  datatype Home = Home(base: Address, length: nat, address: Address, template: Template)

  // ----- Aligned addresses

  /** A power-of-two alignment, and a block that can be asked for. */
  ghost predicate TemplateOk(t: Template) {
    t.alignment > 0 && IsPowerOfTwo(t.alignment) && SizeOk(t)
  }

  predicate SizeOk(t: Template) {
    && t.alignment - 1 <= SIZE_MAX - WORD_SIZE && t.size <= SIZE_MAX - WORD_SIZE - (t.alignment - 1)
    && (t.initializer.Some? ==> |t.initializer.value| == t.size)
  }

  /** A template is accepted exactly if its alignment is a power of two, it fits 32 bits
      with a pointer and the padding, and its initialiser has its size. */
  lemma TemplatesAreAcceptedIff(t: Template)
    ensures TemplateOk(t) <==>
      && (exists k: nat :: t.alignment == Pow2(k))
      && t.size + 4 + t.alignment - 1 <= 0xFFFF_FFFF
      && (t.initializer.Some? ==> |t.initializer.value| == t.size)
  {
    if k: nat :| t.alignment == Pow2(k) {
      assert IsLog(k, t.alignment);
    }
    if IsPowerOfTwo(t.alignment) {
      var k: nat :| IsLog(k, t.alignment);
      assert t.alignment == Pow2(k);
    }
  }

  /** The bit test of the source. */
  method CheckTemplate(t: Template) returns (ok: bool)
    ensures ok <==> TemplateOk(t)
  {
    if t.alignment == 0 {
      return false;
    }
    PowerOfTwoTest(t.alignment);
    ok := And(t.alignment, t.alignment - 1) == 0 && SizeOk(t);
  }

  function BlockLength(t: Template): int { t.size + WORD_SIZE + t.alignment - 1 }

  /** (unaligned + alignment - 1) & ~(alignment - 1) in 32-bit arithmetic. */
  function AlignUp(unaligned: nat, alignment: nat): nat
    requires 0 < alignment <= SPACE
  {
    And(unaligned + alignment - 1, SPACE - alignment)
  }

  lemma Pow2Grows(k: nat, n: nat)
    requires k <= n
    ensures Pow2(k) <= Pow2(n)
  {
    if k < n {
      Pow2Grows(k, n - 1);
    }
  }

  lemma {:induction false} ExponentBound(k: nat, n: nat)
    requires Pow2(k) <= Pow2(n)
    ensures k <= n
  {
    if k > n {
      Pow2Grows(n, k - 1);
    }
  }

  /** The masked sum is the next multiple of the alignment. */
  lemma AlignUpIsAligned(unaligned: nat, alignment: nat)
    requires alignment > 0 && IsPowerOfTwo(alignment) && unaligned + alignment - 1 < SPACE
    ensures var a := AlignUp(unaligned, alignment); a % alignment == 0 && unaligned <= a <= unaligned + alignment - 1
  {
    var k: nat :| IsLog(k, alignment);
    MaskRoundsDown(unaligned + alignment - 1, k, alignment);
  }

  lemma MaskRoundsDown(x: nat, k: nat, alignment: nat)
    requires x < SPACE && alignment == Pow2(k) <= SPACE
    ensures And(x, SPACE - alignment) % alignment == 0 && x - alignment < And(x, SPACE - alignment) <= x
  {
    assert Pow2(32) == SPACE by { Pow2Values(); }
    ExponentBound(k, 32);
    AndHighMask(x, k, 32);
    RoundedDown(x, alignment);
  }

  lemma RoundedDown(x: nat, m: nat)
    requires m > 0
    ensures (x - x % m) % m == 0 && x - m < x - x % m <= x
  {
    DivMod(x, m);
    AddMultiple(0, x / m, m);
  }

  /** The object lies inside its block, behind room for a pointer. */
  predicate HomeOk(x: Home) {
    x.base > 0 && x.base + WORD_SIZE <= x.address && x.address + x.template.size <= x.base + x.length
  }

  predicate IsAligned(x: Home) { x.template.alignment > 0 && x.address % x.template.alignment == 0 }

  ghost predicate AlignmentsOk(homes: map<Entry, Home>) {
    forall e {:trigger IsAligned(homes[e])} :: e in homes ==> IsAligned(homes[e])
  }

  /** malloc's promise: a block that overlaps no live one and lies in the address
      space. */
  ghost predicate Mallocs(blocks: map<Address, nat>, base: Address, length: nat) {
    && base > 0 && base + length < SPACE
    && forall b :: b in blocks ==> base + length <= b || b + blocks[b] <= base
  }

  function HomeFor(base: Address, t: Template): Home
    requires 0 < t.alignment <= SPACE
  {
    Home(base, BlockLength(t), AlignUp(base + WORD_SIZE, t.alignment), t)
  }

  lemma HomeForIsOk(base: Address, t: Template)
    requires TemplateOk(t) && base > 0 && base + BlockLength(t) < SPACE
    ensures HomeOk(HomeFor(base, t)) && IsAligned(HomeFor(base, t))
  {
    AlignUpIsAligned(base + WORD_SIZE, t.alignment);
  }

  /** No smaller block would do: if malloc leaves the place behind the pointer just past
      a multiple of the alignment, the object ends where the block ends. */
  lemma BlockIsUsedUp(base: Address, t: Template)
    requires TemplateOk(t) && base > 0 && base + BlockLength(t) < SPACE
    requires (base + WORD_SIZE - 1) % t.alignment == 0
    ensures var x := HomeFor(base, t); x.address + t.size == x.base + x.length
  {
    var n, u := t.alignment, base + WORD_SIZE;
    AlignUpIsAligned(u, n);
    var a := AlignUp(u, n);
    MultiplesAreApart(u - 1, a, n);
  }

  /** The next multiple is a whole alignment away. */
  lemma MultiplesAreApart(x: nat, y: nat, n: nat)
    requires n > 0 && x % n == 0 && y % n == 0 && x < y
    ensures y >= x + n
  {
    DivMod(x, n);
    DivMod(y, n);
    if y / n <= x / n {
      MulMonotone(y / n, x / n, n);
    } else {
      MulMonotone(x / n + 1, y / n, n);
    }
  }

  function InitialContents(t: Template): (s: seq<Byte>)
    requires SizeOk(t)
    ensures |s| == t.size
  {
    if t.initializer.Some? then t.initializer.value else seq(t.size, _ => 0)
  }

  /** An object starts with the bytes of its initialiser, or with zeros. */
  lemma ObjectsStartAs(t: Template, k: nat)
    requires SizeOk(t) && k < t.size
    ensures t.initializer.Some? ==> InitialContents(t)[k] == t.initializer.value[k]
    ensures t.initializer.None? ==> InitialContents(t)[k] == 0
  {
  }

  // ----- Growing arrays

  function Zeros(n: nat): seq<Address> { seq(n, _ => 0) }

  function SetEntry(entries: seq<Address>, k: nat, a: Address): seq<Address>
    requires k < |entries|
  {
    entries[k := a]
  }

  const ARRAY_HEADER := 8              // the capacity word and one entry

  /** emutls_array_size does not overflow. */
  predicate ArrayFits(capacity: nat) {
    capacity > 0 && capacity - 1 <= (SIZE_MAX - ARRAY_HEADER) / WORD_SIZE
  }

  /** grow_emutls_array: doubled, or to the offset and some more; None stands for
      the fatal size overflow. */
  function GrownCapacity(capacity: nat, offset: nat): Option<nat> {
    var doubled := if capacity <= SIZE_MAX / 2 then capacity * 2 else offset;
    if doubled >= offset then Some(doubled)
    else if offset > SIZE_MAX - 32 then None
    else Some(offset + 32)
  }

  /** A first array has the offset and some more. */
  function FirstCapacity(offset: nat): Option<nat> {
    if offset > SIZE_MAX - 32 then None else Some(offset + 32)
  }

  /** Both make room for the offset, and succeed for every offset that a 32-bit
      address space can hold objects for. */
  lemma GrowthMakesRoom(capacity: nat, offset: nat)
    requires capacity < offset
    ensures var g := GrownCapacity(capacity, offset);
      && (g.Some? ==> capacity <= g.value && offset <= g.value)
      && (offset <= 0x1000_0000 ==> g.Some? && ArrayFits(g.value))
    ensures offset <= 0x1000_0000 ==> FirstCapacity(offset).Some? && ArrayFits(FirstCapacity(offset).value)
  {
  }

  /** An array doubles unless its size would not fit 32 bits, when it grows to the offset,
      or twice its size would not reach the offset, when it gets 32 entries to spare as a
      first array does; only that can overflow. */
  lemma CapacitiesAre(capacity: nat, offset: nat)
    requires capacity < offset <= 0xFFFF_FFFF
    ensures offset <= 2 * capacity <= 0xFFFF_FFFF ==> GrownCapacity(capacity, offset) == Some(2 * capacity)
    ensures 2 * capacity > 0xFFFF_FFFF ==> GrownCapacity(capacity, offset) == Some(offset)
    ensures 2 * capacity < offset ==> GrownCapacity(capacity, offset) == FirstCapacity(offset)
    ensures offset + 32 <= 0xFFFF_FFFF ==> FirstCapacity(offset) == Some(offset + 32)
    ensures offset + 32 > 0xFFFF_FFFF ==> FirstCapacity(offset) == None
  {
  }

  /** An array is a word for its capacity and one for each entry, and is accepted exactly
      if it has an entry and its size fits 32 bits. */
  lemma ArraysAreAcceptedIff(capacity: nat)
    ensures ArraySize(capacity) == 4 + 4 * capacity
    ensures ArrayFits(capacity) <==> capacity >= 1 && ArraySize(capacity) <= 0xFFFF_FFFF
  {
  }

  // ----- The heap

  /** Live blocks, the arrays of the threads with their addresses (0 entries are
      null), the word in front of each object, and, as history, the homes. */
  datatype Heap = Heap(
    blocks: map<Address, nat>, arrays: map<Thread, seq<Address>>, arrayAt: map<Thread, Address>,
    backPointers: map<Address, Address>, homes: map<Entry, Home>)

  const EMPTY_HEAP := Heap(map[], map[], map[], map[], map[])

  function ArraySize(capacity: nat): int { ARRAY_HEADER + (capacity - 1) * WORD_SIZE }

  /** The non-null entries of the arrays are exactly the recorded homes. */
  ghost predicate EntriesOk(h: Heap) {
    && (forall t, k :: (t, k) in h.homes ==>
      t in h.arrays && k < |h.arrays[t]| && h.arrays[t][k] == h.homes[(t, k)].address)
    && (forall t, k: nat :: t in h.arrays && k < |h.arrays[t]| && h.arrays[t][k] != 0 ==> (t, k) in h.homes)
  }

  /** Every home is a live block of its own, with its back pointer in place. */
  ghost predicate HomesOk(h: Heap) {
    && (forall e :: e in h.homes ==> InBlock(h.homes[e], h))
    && (forall e, f {:trigger OwnBlock(h.homes, e, f)} :: e in h.homes && f in h.homes ==> OwnBlock(h.homes, e, f))
  }

  /** Different homes have different blocks. */
  predicate OwnBlock(homes: map<Entry, Home>, e: Entry, f: Entry) {
    e in homes && f in homes && homes[e].base == homes[f].base ==> e == f
  }

  ghost predicate InBlock(x: Home, h: Heap) {
    && HomeOk(x) && x.base in h.blocks && h.blocks[x.base] == x.length
    && x.address - WORD_SIZE in h.backPointers && h.backPointers[x.address - WORD_SIZE] == x.base
  }

  ghost predicate BlocksOk(blocks: map<Address, nat>) {
    forall b, c {:trigger Ordered(blocks, b, c)} :: b in blocks && c in blocks ==> Ordered(blocks, b, c)
  }

  predicate Ordered(blocks: map<Address, nat>, b: Address, c: Address) {
    b in blocks && c in blocks && b < c ==> b + blocks[b] <= c
  }

  /** Every array is a live block of its own and no object's block. */
  ghost predicate ArraysOk(h: Heap) {
    && h.arrayAt.Keys == h.arrays.Keys
    && (forall t :: t in h.arrayAt ==> h.arrayAt[t] in h.blocks && h.blocks[h.arrayAt[t]] == ArraySize(|h.arrays[t]|))
    && (forall t, u {:trigger OwnArray(h.arrayAt, t, u)} :: t in h.arrayAt && u in h.arrayAt ==>
      OwnArray(h.arrayAt, t, u))
    && (forall t, e {:trigger NotTheArray(h, t, e)} :: t in h.arrayAt && e in h.homes ==> NotTheArray(h, t, e))
  }

  predicate OwnArray(arrayAt: map<Thread, Address>, t: Thread, u: Thread) {
    t in arrayAt && u in arrayAt && arrayAt[t] == arrayAt[u] ==> t == u
  }

  predicate NotTheArray(h: Heap, t: Thread, e: Entry) {
    t in h.arrayAt && e in h.homes ==> h.homes[e].base != h.arrayAt[t]
  }

  ghost predicate IsArray(h: Heap, b: Address) { exists t :: t in h.arrayAt && h.arrayAt[t] == b }

  ghost predicate IsObject(h: Heap, b: Address) { exists e :: e in h.homes && h.homes[e].base == b }

  /** Every live block is an array or an object. */
  ghost predicate NoLeaks(h: Heap) { forall b :: b in h.blocks ==> IsArray(h, b) || IsObject(h, b) }

  ghost predicate HeapOk(h: Heap) { EntriesOk(h) && HomesOk(h) && BlocksOk(h.blocks) && ArraysOk(h) && NoLeaks(h) }

  /** Homes in different blocks do not overlap, back pointers included. */
  lemma HomesAreDisjoint(x: Home, y: Home, h: Heap)
    requires BlocksOk(h.blocks) && InBlock(x, h) && InBlock(y, h) && x.base != y.base
    ensures x.address + x.template.size <= y.address - WORD_SIZE || y.address + y.template.size <= x.address - WORD_SIZE
  {
    assert Ordered(h.blocks, x.base, y.base) && Ordered(h.blocks, y.base, x.base);
  }

  /** An entry is null exactly when the thread has no such object yet. */
  lemma NullMeansAbsent(h: Heap, t: Thread, k: nat)
    requires EntriesOk(h) && HomesOk(h) && t in h.arrays && k < |h.arrays[t]|
    ensures h.arrays[t][k] == 0 <==> (t, k) !in h.homes
  {
    assert (t, k) in h.homes ==> InBlock(h.homes[(t, k)], h);
  }

  lemma BlockAdded(blocks: map<Address, nat>, base: Address, length: nat)
    requires BlocksOk(blocks) && Mallocs(blocks, base, length)
    ensures BlocksOk(blocks[base := length])
  {
    var blocks' := blocks[base := length];
    forall b, c | b in blocks' && c in blocks'
      ensures Ordered(blocks', b, c)
    {
      assert Ordered(blocks, b, c);
    }
  }

  lemma BlocksRemoved(blocks: map<Address, nat>, gone: set<Address>)
    requires BlocksOk(blocks)
    ensures BlocksOk(blocks - gone)
  {
    forall b, c | b in blocks - gone && c in blocks - gone
      ensures Ordered(blocks - gone, b, c)
    {
      assert Ordered(blocks, b, c);
    }
  }

  lemma MallocIsNew(blocks: map<Address, nat>, base: Address, length: nat, b: Address)
    requires Mallocs(blocks, base, length) && length > 0 && b in blocks && blocks[b] > 0
    ensures b != base
  {
  }

  // ----- A new or longer array

  function ArrayOf(h: Heap, t: Thread): seq<Address> { if t in h.arrays then h.arrays[t] else [] }

  /** The blocks once the old array of the thread has been given back. */
  function Released(h: Heap, t: Thread): map<Address, nat> {
    if t in h.arrayAt then h.blocks - {h.arrayAt[t]} else h.blocks
  }

  /** calloc or realloc of a thread's array. */
  function WithArray(h: Heap, t: Thread, capacity: nat, base: Address): Heap
    requires capacity >= |ArrayOf(h, t)| && ArrayFits(capacity)
  {
    h.(blocks := Released(h, t)[base := ArraySize(capacity)],
       arrays := h.arrays[t := ArrayOf(h, t) + Zeros(capacity - |ArrayOf(h, t)|)], arrayAt := h.arrayAt[t := base])
  }

  ghost predicate ArrayFitsIn(h: Heap, t: Thread, capacity: nat, base: Address) {
    capacity >= |ArrayOf(h, t)| && ArrayFits(capacity) && Mallocs(Released(h, t), base, ArraySize(capacity))
  }

  lemma NewArrayKeepsEntries(h: Heap, t: Thread, capacity: nat, base: Address)
    requires EntriesOk(h) && ArrayFitsIn(h, t, capacity, base)
    ensures EntriesOk(WithArray(h, t, capacity, base))
  {
  }

  lemma NewArrayKeepsHomes(h: Heap, t: Thread, capacity: nat, base: Address)
    requires HomesOk(h) && ArraysOk(h) && ArrayFitsIn(h, t, capacity, base)
    ensures HomesOk(WithArray(h, t, capacity, base))
    ensures forall e :: e in h.homes ==> h.homes[e].base != base
  {
    var h' := WithArray(h, t, capacity, base);
    forall e | e in h.homes
      ensures InBlock(h'.homes[e], h') && h.homes[e].base != base
    {
      assert InBlock(h.homes[e], h) && NotTheArray(h, t, e);
      assert h.homes[e].base in Released(h, t);
      MallocIsNew(Released(h, t), base, ArraySize(capacity), h.homes[e].base);
    }
    forall e, f | e in h.homes && f in h.homes
      ensures OwnBlock(h'.homes, e, f)
    {
      assert OwnBlock(h.homes, e, f);
    }
  }

  lemma NewArrayKeepsBlocks(h: Heap, t: Thread, capacity: nat, base: Address)
    requires BlocksOk(h.blocks) && ArrayFitsIn(h, t, capacity, base)
    ensures BlocksOk(WithArray(h, t, capacity, base).blocks)
  {
    if t in h.arrayAt {
      BlocksRemoved(h.blocks, {h.arrayAt[t]});
    }
    BlockAdded(Released(h, t), base, ArraySize(capacity));
  }

  lemma NewArrayKeepsArrays(h: Heap, t: Thread, capacity: nat, base: Address)
    requires ArraysOk(h) && ArrayFitsIn(h, t, capacity, base) && (forall u :: u in h.arrays ==> h.arrays[u] != [])
    requires forall e :: e in h.homes ==> h.homes[e].base != base
    ensures ArraysOk(WithArray(h, t, capacity, base))
  {
    var h' := WithArray(h, t, capacity, base);
    forall u | u in h.arrayAt && u != t
      ensures h.arrayAt[u] != base && h.arrayAt[u] in h'.blocks && h'.blocks[h.arrayAt[u]] == h.blocks[h.arrayAt[u]]
    {
      assert OwnArray(h.arrayAt, t, u);
      assert h.arrayAt[u] in Released(h, t);
      MallocIsNew(Released(h, t), base, ArraySize(capacity), h.arrayAt[u]);
    }
    forall u, v | u in h'.arrayAt && v in h'.arrayAt
      ensures OwnArray(h'.arrayAt, u, v)
    {
      assert OwnArray(h.arrayAt, u, v);
    }
    forall u, e | u in h'.arrayAt && e in h'.homes
      ensures NotTheArray(h', u, e)
    {
      assert NotTheArray(h, u, e);
    }
  }

  lemma NewArrayLeaksNothing(h: Heap, t: Thread, capacity: nat, base: Address)
    requires NoLeaks(h) && ArrayFitsIn(h, t, capacity, base)
    ensures NoLeaks(WithArray(h, t, capacity, base))
  {
    var h' := WithArray(h, t, capacity, base);
    forall b | b in h'.blocks
      ensures IsArray(h', b) || IsObject(h', b)
    {
      if b == base {
        assert t in h'.arrayAt && h'.arrayAt[t] == b;
      } else if IsArray(h, b) {
        var u :| u in h.arrayAt && h.arrayAt[u] == b;
        assert u in h'.arrayAt && h'.arrayAt[u] == b;
      } else {
        var e :| e in h.homes && h.homes[e].base == b;
        assert e in h'.homes && h'.homes[e].base == b;
      }
    }
  }

  lemma NewArrayIsOk(h: Heap, t: Thread, capacity: nat, base: Address)
    requires HeapOk(h) && ArrayFitsIn(h, t, capacity, base) && (forall u :: u in h.arrays ==> h.arrays[u] != [])
    ensures HeapOk(WithArray(h, t, capacity, base))
    ensures forall u :: u in WithArray(h, t, capacity, base).arrays ==> WithArray(h, t, capacity, base).arrays[u] != []
  {
    NewArrayKeepsEntries(h, t, capacity, base);
    NewArrayKeepsHomes(h, t, capacity, base);
    NewArrayKeepsBlocks(h, t, capacity, base);
    NewArrayKeepsArrays(h, t, capacity, base);
    NewArrayLeaksNothing(h, t, capacity, base);
  }

  // ----- A new object

  function WithHome(h: Heap, t: Thread, k: nat, x: Home): Heap
    requires t in h.arrays && k < |h.arrays[t]| && HomeOk(x)
  {
    Heap(h.blocks[x.base := x.length], h.arrays[t := SetEntry(h.arrays[t], k, x.address)], h.arrayAt,
         h.backPointers[x.address - WORD_SIZE := x.base], h.homes[(t, k) := x])
  }

  ghost predicate HomeFitsIn(h: Heap, t: Thread, k: nat, x: Home) {
    t in h.arrays && k < |h.arrays[t]| && (t, k) !in h.homes && HomeOk(x) && Mallocs(h.blocks, x.base, x.length)
  }

  lemma NewHomeKeepsEntries(h: Heap, t: Thread, k: nat, x: Home)
    requires EntriesOk(h) && HomeFitsIn(h, t, k, x)
    ensures EntriesOk(WithHome(h, t, k, x))
  {
  }

  lemma NewHomeKeepsHomes(h: Heap, t: Thread, k: nat, x: Home)
    requires HomesOk(h) && HomeFitsIn(h, t, k, x)
    ensures HomesOk(WithHome(h, t, k, x))
  {
    var h' := WithHome(h, t, k, x);
    forall f | f in h.homes
      ensures InBlock(h.homes[f], h') && h.homes[f].base != x.base
    {
      var y := h.homes[f];
      assert InBlock(y, h);
      assert x.base + x.length <= y.base || y.base + y.length <= x.base;
    }
    forall e, f | e in h'.homes && f in h'.homes
      ensures OwnBlock(h'.homes, e, f)
    {
      assert OwnBlock(h.homes, e, f);
    }
  }

  lemma NewHomeKeepsArrays(h: Heap, t: Thread, k: nat, x: Home)
    requires ArraysOk(h) && HomeFitsIn(h, t, k, x) && (forall u :: u in h.arrays ==> h.arrays[u] != [])
    ensures ArraysOk(WithHome(h, t, k, x))
  {
    var h' := WithHome(h, t, k, x);
    forall u | u in h.arrayAt
      ensures h.arrayAt[u] != x.base && |h'.arrays[u]| == |h.arrays[u]|
    {
      MallocIsNew(h.blocks, x.base, x.length, h.arrayAt[u]);
    }
    forall u, v | u in h.arrayAt && v in h.arrayAt
      ensures OwnArray(h'.arrayAt, u, v)
    {
      assert OwnArray(h.arrayAt, u, v);
    }
    forall u, e | u in h'.arrayAt && e in h'.homes
      ensures NotTheArray(h', u, e)
    {
      assert NotTheArray(h, u, e);
    }
  }

  lemma NewHomeLeaksNothing(h: Heap, t: Thread, k: nat, x: Home)
    requires NoLeaks(h) && HomeFitsIn(h, t, k, x)
    ensures NoLeaks(WithHome(h, t, k, x))
  {
    var h' := WithHome(h, t, k, x);
    forall b | b in h'.blocks
      ensures IsArray(h', b) || IsObject(h', b)
    {
      if b == x.base {
        assert (t, k) in h'.homes && h'.homes[(t, k)].base == b;
      } else if IsArray(h, b) {
        var u :| u in h.arrayAt && h.arrayAt[u] == b;
        assert u in h'.arrayAt && h'.arrayAt[u] == b;
      } else {
        var e :| e in h.homes && h.homes[e].base == b;
        assert e in h'.homes && h'.homes[e].base == b;
      }
    }
  }

  lemma NewHomeIsOk(h: Heap, t: Thread, k: nat, x: Home)
    requires HeapOk(h) && HomeFitsIn(h, t, k, x) && (forall u :: u in h.arrays ==> h.arrays[u] != [])
    ensures HeapOk(WithHome(h, t, k, x))
    ensures forall u :: u in WithHome(h, t, k, x).arrays ==> WithHome(h, t, k, x).arrays[u] != []
  {
    NewHomeKeepsEntries(h, t, k, x);
    NewHomeKeepsHomes(h, t, k, x);
    BlockAdded(h.blocks, x.base, x.length);
    NewHomeKeepsArrays(h, t, k, x);
    NewHomeLeaksNothing(h, t, k, x);
  }

  // ----- The end of a thread

  function Elements(s: seq<Address>): set<Address> { set b | b in s }

  function HomesOfOthers(homes: map<Entry, Home>, t: Thread): map<Entry, Home> {
    map e | e in homes && e.0 != t :: homes[e]
  }

  /** b is the block of one of the first n entries of thread t. */
  ghost predicate IsBaseBelow(homes: map<Entry, Home>, t: Thread, b: Address, n: nat) {
    exists k: nat :: k < n && (t, k) in homes && homes[(t, k)].base == b
  }

  ghost predicate IsBase(homes: map<Entry, Home>, t: Thread, b: Address) {
    exists k: nat :: (t, k) in homes && homes[(t, k)].base == b
  }

  /** The blocks that belong to a thread: its objects and its array. */
  ghost predicate Belongs(h: Heap, t: Thread, b: Address) {
    IsBase(h.homes, t, b) || (t in h.arrayAt && h.arrayAt[t] == b)
  }

  ghost function WithoutThread(h: Heap, t: Thread, gone: set<Address>): Heap {
    Heap(h.blocks - gone, h.arrays - {t}, h.arrayAt - {t}, h.backPointers, HomesOfOthers(h.homes, t))
  }

  lemma AllBases(h: Heap, t: Thread)
    requires EntriesOk(h) && t in h.arrays
    ensures forall b :: IsBase(h.homes, t, b) <==> IsBaseBelow(h.homes, t, b, |h.arrays[t]|)
  {
  }

  lemma BaseBelowStep(homes: map<Entry, Home>, t: Thread, n: nat)
    ensures forall b :: IsBaseBelow(homes, t, b, n + 1) <==>
      IsBaseBelow(homes, t, b, n) || ((t, n) in homes && homes[(t, n)].base == b)
  {
    forall b | IsBaseBelow(homes, t, b, n)
      ensures IsBaseBelow(homes, t, b, n + 1)
    {
      var k: nat :| k < n && (t, k) in homes && homes[(t, k)].base == b;
      assert k < n + 1;
    }
    if (t, n) in homes {
      assert n < n + 1 && IsBaseBelow(homes, t, homes[(t, n)].base, n + 1);
    }
  }

  lemma FreshBase(h: Heap, t: Thread, n: nat)
    requires HomesOk(h) && (t, n) in h.homes
    ensures !IsBaseBelow(h.homes, t, h.homes[(t, n)].base, n)
  {
    forall k: nat | k < n
      ensures (t, k) in h.homes ==> h.homes[(t, k)].base != h.homes[(t, n)].base
    {
      assert OwnBlock(h.homes, (t, k), (t, n));
    }
  }

  /** After the objects the array can be freed, and then everything has been. */
  lemma ArrayIsLast(h: Heap, t: Thread, freed: seq<Address>)
    requires ArraysOk(h) && t in h.arrays && Distinct(freed) && forall b :: b in freed <==> IsBase(h.homes, t, b)
    ensures var own := h.arrayAt[t];
      && own in h.blocks - Elements(freed) && Distinct(freed + [own])
      && h.blocks - Elements(freed) - {own} == h.blocks - Elements(freed + [own])
      && forall b :: b in Elements(freed + [own]) <==> Belongs(h, t, b)
  {
    var own := h.arrayAt[t];
    forall k: nat | (t, k) in h.homes
      ensures h.homes[(t, k)].base != own
    {
      assert NotTheArray(h, t, (t, k));
    }
    assert own !in freed;
    assert Elements(freed + [own]) == Elements(freed) + {own};
  }

  lemma NoHomes(h: Heap, t: Thread)
    requires EntriesOk(h) && ArraysOk(h) && t !in h.arrays
    ensures WithoutThread(h, t, {}) == h && forall b :: !Belongs(h, t, b)
  {
    forall e | e in h.homes
      ensures e.0 != t
    {
      assert e == (e.0, e.1);
    }
    assert HomesOfOthers(h.homes, t) == h.homes && h.arrays - {t} == h.arrays && h.arrayAt - {t} == h.arrayAt;
  }

  lemma OtherEntriesSurvive(h: Heap, t: Thread, gone: set<Address>)
    requires EntriesOk(h)
    ensures EntriesOk(WithoutThread(h, t, gone))
  {
  }

  lemma OtherHomesSurvive(h: Heap, t: Thread, gone: set<Address>)
    requires HomesOk(h) && ArraysOk(h) && (forall b :: b in gone ==> Belongs(h, t, b))
    ensures HomesOk(WithoutThread(h, t, gone))
  {
    var h' := WithoutThread(h, t, gone);
    forall e | e in h'.homes
      ensures InBlock(h'.homes[e], h')
    {
      assert InBlock(h.homes[e], h) && NotTheArray(h, t, e);
      forall k: nat | (t, k) in h.homes
        ensures h.homes[(t, k)].base != h.homes[e].base
      {
        assert OwnBlock(h.homes, e, (t, k));
      }
      assert !IsBase(h.homes, t, h.homes[e].base);
    }
    forall e, f | e in h'.homes && f in h'.homes
      ensures OwnBlock(h'.homes, e, f)
    {
      assert OwnBlock(h.homes, e, f);
    }
  }

  lemma OtherArraysSurvive(h: Heap, t: Thread, gone: set<Address>)
    requires ArraysOk(h) && (forall b :: b in gone ==> Belongs(h, t, b))
    ensures ArraysOk(WithoutThread(h, t, gone))
  {
    var h' := WithoutThread(h, t, gone);
    forall u | u in h'.arrayAt
      ensures h'.arrayAt[u] in h'.blocks && h'.blocks[h'.arrayAt[u]] == h.blocks[h.arrayAt[u]]
    {
      assert OwnArray(h.arrayAt, t, u);
      forall k: nat | (t, k) in h.homes
        ensures h.homes[(t, k)].base != h.arrayAt[u]
      {
        assert NotTheArray(h, u, (t, k));
      }
      assert !Belongs(h, t, h.arrayAt[u]);
    }
    forall u, v | u in h'.arrayAt && v in h'.arrayAt
      ensures OwnArray(h'.arrayAt, u, v)
    {
      assert OwnArray(h.arrayAt, u, v);
    }
    forall u, e | u in h'.arrayAt && e in h'.homes
      ensures NotTheArray(h', u, e)
    {
      assert NotTheArray(h, u, e);
    }
  }

  lemma ExitLeaksNothing(h: Heap, t: Thread, gone: set<Address>)
    requires NoLeaks(h) && (forall b :: b in gone <==> Belongs(h, t, b))
    ensures NoLeaks(WithoutThread(h, t, gone))
  {
    var h' := WithoutThread(h, t, gone);
    forall b | b in h'.blocks
      ensures IsArray(h', b) || IsObject(h', b)
    {
      assert b !in gone && !Belongs(h, t, b);
      if IsArray(h, b) {
        var u :| u in h.arrayAt && h.arrayAt[u] == b;
        assert u in h'.arrayAt && h'.arrayAt[u] == b;
      } else {
        var e :| e in h.homes && h.homes[e].base == b;
        assert e == (e.0, e.1);
        assert e in h'.homes && h'.homes[e].base == b;
      }
    }
  }

  lemma ExitIsOk(h: Heap, t: Thread, gone: set<Address>)
    requires HeapOk(h) && (forall b :: b in gone <==> Belongs(h, t, b))
    ensures HeapOk(WithoutThread(h, t, gone))
  {
    OtherEntriesSurvive(h, t, gone);
    OtherHomesSurvive(h, t, gone);
    OtherArraysSurvive(h, t, gone);
    BlocksRemoved(h.blocks, gone);
    ExitLeaksNothing(h, t, gone);
  }

  lemma HomesHaveArrays(h: Heap)
    requires EntriesOk(h)
    ensures forall e :: e in h.homes ==> e.0 in h.arrays
  {
    forall e | e in h.homes
      ensures e.0 in h.arrays
    {
      assert e == (e.0, e.1);
    }
  }

  /** When no thread has an array any more, every block has been freed. */
  lemma NothingIsLeft(h: Heap)
    requires HeapOk(h) && h.arrays == map[]
    ensures h.blocks == map[] && h.homes == map[]
  {
    HomesHaveArrays(h);
    assert h.homes.Keys == {};
    assert forall b :: b in h.blocks ==> IsArray(h, b) || IsObject(h, b);
    assert h.blocks.Keys == {};
  }

  // ----- Contents

  /** memcpy and memset into the heap. */
  function Store(bytes: map<Address, Byte>, at: Address, contents: seq<Byte>): map<Address, Byte>
    decreases |contents|
  {
    if contents == [] then bytes
    else
      var n := |contents| - 1;
      Store(bytes, at, contents[..n])[at + n := contents[n]]
  }

  lemma {:induction false} StoreHolds(bytes: map<Address, Byte>, at: Address, contents: seq<Byte>)
    ensures HoldsAt(Store(bytes, at, contents), at, contents)
    ensures forall a :: a in bytes && !(at <= a < at + |contents|) ==>
      a in Store(bytes, at, contents) && Store(bytes, at, contents)[a] == bytes[a]
    decreases |contents|
  {
    if contents != [] {
      var n := |contents| - 1;
      var inner := Store(bytes, at, contents[..n]);
      var outer := inner[at + n := contents[n]];
      assert Store(bytes, at, contents) == outer;
      StoreHolds(bytes, at, contents[..n]);
      forall a | at <= a < at + |contents|
        ensures a in outer && outer[a] == contents[a - at]
      {
        if a < at + n {
          assert a in inner && inner[a] == contents[..n][a - at];
        }
      }
    }
  }

  predicate HoldsAt(bytes: map<Address, Byte>, at: Address, contents: seq<Byte>) {
    forall a :: at <= a < at + |contents| ==> a in bytes && bytes[a] == contents[a - at]
  }

  /** The bytes of a home did not change. */
  ghost predicate SameBytes(before: map<Address, Byte>, after: map<Address, Byte>, x: Home) {
    forall a :: x.address <= a < x.address + x.template.size && a in before ==> a in after && after[a] == before[a]
  }

  ghost predicate HomesUntouched(homes: map<Entry, Home>, before: map<Address, Byte>, after: map<Address, Byte>) {
    forall e :: e in homes ==> SameBytes(before, after, homes[e])
  }

  lemma StoreIsLocal(h: Heap, bytes: map<Address, Byte>, x: Home, contents: seq<Byte>)
    requires HomesOk(h) && HomeOk(x) && Mallocs(h.blocks, x.base, x.length) && |contents| == x.template.size
    ensures HomesUntouched(h.homes, bytes, Store(bytes, x.address, contents))
  {
    StoreHolds(bytes, x.address, contents);
    forall e | e in h.homes
      ensures SameBytes(bytes, Store(bytes, x.address, contents), h.homes[e])
    {
      assert InBlock(h.homes[e], h);
      assert x.base + x.length <= h.homes[e].base || h.homes[e].base + h.homes[e].length <= x.base;
    }
  }

  /** An allocated object is at home in the heap, with its initial contents. */
  lemma NewObjectIsOk(h: Heap, bytes: map<Address, Byte>, t: Thread, k: nat, x: Home)
    requires HeapOk(h) && (forall u :: u in h.arrays ==> h.arrays[u] != [])
    requires t in h.arrays && k < |h.arrays[t]| && h.arrays[t][k] == 0
    requires SizeOk(x.template) && HomeOk(x) && Mallocs(h.blocks, x.base, x.length)
    ensures HomeFitsIn(h, t, k, x) && HeapOk(WithHome(h, t, k, x))
    ensures forall u :: u in WithHome(h, t, k, x).arrays ==> WithHome(h, t, k, x).arrays[u] != []
    ensures HoldsAt(Store(bytes, x.address, InitialContents(x.template)), x.address, InitialContents(x.template))
    ensures HomesUntouched(h.homes, bytes, Store(bytes, x.address, InitialContents(x.template)))
  {
    NullMeansAbsent(h, t, k);
    NewHomeIsOk(h, t, k, x);
    StoreHolds(bytes, x.address, InitialContents(x.template));
    StoreIsLocal(h, bytes, x, InitialContents(x.template));
  }

  lemma HomeForFits(blocks: map<Address, nat>, base: Address, t: Template)
    requires TemplateOk(t) && Mallocs(blocks, base, BlockLength(t))
    ensures HomeOk(HomeFor(base, t)) && IsAligned(HomeFor(base, t)) &&
      Mallocs(blocks, HomeFor(base, t).base, HomeFor(base, t).length)
  {
    HomeForIsOk(base, t);
  }

  // ----- The invariant of the heap

  ghost predicate AllOk(h: Heap) {
    HeapOk(h) && AlignmentsOk(h.homes) && forall u :: u in h.arrays ==> h.arrays[u] != []
  }

  /** AllOk, kept folded: its quantifiers come into play only where Unfold and Fold
      are called. */
  ghost predicate Intact(h: Heap) {
    forall g: Heap {:trigger Unfolded(g)} :: Unfolded(g) && g == h ==> AllOk(g)
  }

  lemma Unfold(h: Heap)
    requires Intact(h)
    ensures AllOk(h)
  {
    assert Unfolded(h);
  }

  lemma Fold(h: Heap)
    requires AllOk(h)
    ensures Intact(h)
  {
  }

  lemma ExitIsIntact(h: Heap, t: Thread, gone: set<Address>)
    requires Intact(h) && (forall b :: b in gone <==> Belongs(h, t, b))
    ensures Intact(WithoutThread(h, t, gone))
  {
    Unfold(h);
    ExitIsOk(h, t, gone);
    Fold(WithoutThread(h, t, gone));
  }

  // ----- Numbers

  ghost predicate OffsetsOk(offsets: map<ObjectId, nat>, count: nat) {
    && (forall o :: o in offsets ==> 1 <= offsets[o] <= count)
    && (forall o, p {:trigger OwnNumber(offsets, o, p)} :: o in offsets && p in offsets ==> OwnNumber(offsets, o, p))
  }

  predicate OwnNumber(offsets: map<ObjectId, nat>, o: ObjectId, p: ObjectId) {
    o in offsets && p in offsets && offsets[o] == offsets[p] ==> o == p
  }

  /** Only numbered objects have homes. */
  ghost predicate IndicesOk(homes: map<Entry, Home>, count: nat) {
    forall e :: e in homes ==> e.1 < count
  }

  ghost predicate SameNumbers(offsets: map<ObjectId, nat>, offsets': map<ObjectId, nat>) {
    forall o :: o in offsets ==> o in offsets' && offsets'[o] == offsets[o]
  }

  type Templates = ObjectId -> Template

  /** Thread t has an object o. */
  ghost predicate Has(offsets: map<ObjectId, nat>, homes: map<Entry, Home>, t: Thread, o: ObjectId) {
    o in offsets && offsets[o] >= 1 && (t, offsets[o] - 1) in homes
  }

  ghost function HomeOf(offsets: map<ObjectId, nat>, homes: map<Entry, Home>, t: Thread, o: ObjectId): Home
    requires Has(offsets, homes, t, o)
  {
    homes[(t, offsets[o] - 1)]
  }

  /** Every home was made for its object's template. */
  ghost predicate TemplatesOk(offsets: map<ObjectId, nat>, homes: map<Entry, Home>, templates: Templates) {
    forall t, o :: Has(offsets, homes, t, o) ==> HomeOf(offsets, homes, t, o).template == templates(o)
  }

  lemma HasIndex(offsets: map<ObjectId, nat>, homes: map<Entry, Home>, t: Thread, o: ObjectId, index: nat)
    requires o in offsets && offsets[o] == index + 1
    ensures Has(offsets, homes, t, o) <==> (t, index) in homes
  {
  }

  lemma HasEntry(offsets: map<ObjectId, nat>, h: Heap, t: Thread, o: ObjectId)
    requires EntriesOk(h)
    ensures Has(offsets, h.homes, t, o) ==> t in h.arrays && offsets[o] <= |h.arrays[t]|
  {
  }

  ghost predicate SameOwners(offsets: map<ObjectId, nat>, offsets': map<ObjectId, nat>, homes: map<Entry, Home>,
                             o: ObjectId) {
    forall t :: Has(offsets', homes, t, o) <==> Has(offsets, homes, t, o)
  }

  ghost predicate NobodyHas(offsets: map<ObjectId, nat>, homes: map<Entry, Home>, o: ObjectId) {
    forall t :: !Has(offsets, homes, t, o)
  }

  lemma NewNumber(offsets: map<ObjectId, nat>, count: nat, homes: map<Entry, Home>, templates: Templates, o: ObjectId)
    requires OffsetsOk(offsets, count) && IndicesOk(homes, count) && TemplatesOk(offsets, homes, templates) &&
      o !in offsets
    ensures OffsetsOk(offsets[o := count + 1], count + 1) && IndicesOk(homes, count + 1)
    ensures TemplatesOk(offsets[o := count + 1], homes, templates)
    ensures NobodyHas(offsets[o := count + 1], homes, o)
  {
    var offsets' := offsets[o := count + 1];
    forall p, q | p in offsets' && q in offsets'
      ensures OwnNumber(offsets', p, q)
    {
      assert OwnNumber(offsets, p, q);
    }
    forall t: Thread, p: ObjectId | Has(offsets', homes, t, p)
      ensures p != o && Has(offsets, homes, t, p)
    {
    }
  }

  lemma NewHomeForObject(offsets: map<ObjectId, nat>, count: nat, homes: map<Entry, Home>, templates: Templates,
                         t: Thread, o: ObjectId, x: Home)
    requires OffsetsOk(offsets, count) && IndicesOk(homes, count) && TemplatesOk(offsets, homes, templates)
    requires o in offsets && offsets[o] >= 1 && x.template == templates(o)
    ensures var homes' := homes[(t, offsets[o] - 1) := x];
      IndicesOk(homes', count) && TemplatesOk(offsets, homes', templates)
  {
    var homes' := homes[(t, offsets[o] - 1) := x];
    forall u: Thread, p: ObjectId | Has(offsets, homes', u, p)
      ensures HomeOf(offsets, homes', u, p).template == templates(p)
    {
      assert OwnNumber(offsets, o, p);
      assert (u == t && p == o) || Has(offsets, homes, u, p);
    }
  }

  /** The numbers fit the homes after a lookup, whether it added a home or not. */
  lemma NumbersFollow(offsets: map<ObjectId, nat>, count: nat, homes: map<Entry, Home>, homes': map<Entry, Home>,
                      templates: Templates, t: Thread, o: ObjectId, index: nat, c: Change)
    requires OffsetsOk(offsets, count) && IndicesOk(homes, count) && TemplatesOk(offsets, homes, templates)
    requires o in offsets && offsets[o] == index + 1 && HomesStep(homes, c, homes')
    requires c.Unchanged? || (c.NewHome? && c.entry == (t, index) && c.home.template == templates(o))
    ensures IndicesOk(homes', count) && TemplatesOk(offsets, homes', templates)
    ensures Has(offsets, homes', t, o) <==> (t, index) in homes'
  {
    HasIndex(offsets, homes', t, o, index);
    if c.NewHome? {
      NewHomeForObject(offsets, count, homes, templates, t, o, c.home);
    }
  }

  lemma OtherTemplatesSurvive(offsets: map<ObjectId, nat>, count: nat, homes: map<Entry, Home>, templates: Templates,
                              t: Thread)
    requires IndicesOk(homes, count) && TemplatesOk(offsets, homes, templates)
    ensures IndicesOk(HomesOfOthers(homes, t), count) && TemplatesOk(offsets, HomesOfOthers(homes, t), templates)
  {
    forall u: Thread, p: ObjectId | Has(offsets, HomesOfOthers(homes, t), u, p)
      ensures HomeOf(offsets, HomesOfOthers(homes, t), u, p).template == templates(p)
    {
      assert Has(offsets, homes, u, p);
    }
  }

  // ----- The allocator

  /** The n-th allocation of so many bytes beside the live blocks; 0 is null. */
  type Allocator = (nat, map<Address, nat>, nat) -> Address

  ghost predicate Sane(malloc: Allocator) {
    forall n, blocks, length {:trigger Mallocs(blocks, malloc(n, blocks, length), length)} ::
      malloc(n, blocks, length) != 0 ==> Mallocs(blocks, malloc(n, blocks, length), length)
  }

  function NextCapacity(h: Heap, t: Thread, offset: nat): Option<nat> {
    if t in h.arrays then GrownCapacity(|h.arrays[t]|, offset) else FirstCapacity(offset)
  }

  /** The n-th allocation, of the thread's array or of its object, returned null. */
  predicate ArrayRefused(malloc: Allocator, n: int, h: Heap, t: Thread, offset: nat) {
    && n >= 0 && NextCapacity(h, t, offset).Some? && ArrayFits(NextCapacity(h, t, offset).value)
    && malloc(n, Released(h, t), ArraySize(NextCapacity(h, t, offset).value)) == 0
  }

  ghost predicate ObjectRefused(malloc: Allocator, n: int, h: Heap, template: Template) {
    !TemplateOk(template) || (n >= 0 && malloc(n, h.blocks, BlockLength(template)) == 0)
  }

  const MANY := 0x1000_0000

  /** How a lookup ends: served, or fatally for want of a number, of an array, or of
      memory or a sensible template for the object. */
  datatype Ending = Answered | NoNumber | NoArray | NoObject

  /** The last allocation or the number of objects explains the ending. */
  ghost predicate Explained(x: Ending, malloc: Allocator, n: int, h: Heap, offset: nat, count: nat, template: Template,
                            t: Thread) {
    match x
    case Answered => true
    case NoNumber => count >= SIZE_MAX
    case NoArray => count >= MANY || ArrayRefused(malloc, n, h, t, offset)
    case NoObject => ObjectRefused(malloc, n, h, template)
  }

  // ----- The runtime state

  class Storage {
    const templates: Templates
    const malloc: Allocator
    var allocations: nat
    var objectCount: nat
    var offsets: map<ObjectId, nat>            // location.offset, absent while zero
    var heap: Heap
    var bytes: map<Address, Byte>

    ghost predicate Memory()
      reads this
    {
      Sane(malloc) && Intact(heap)
    }

    ghost predicate Numbers()
      reads this
    {
      OffsetsOk(offsets, objectCount) && IndicesOk(heap.homes, objectCount) &&
        TemplatesOk(offsets, heap.homes, templates)
    }

    ghost predicate Valid()
      reads this
    {
      Memory() && Numbers()
    }

    constructor (templates: Templates, malloc: Allocator)
      requires Sane(malloc)
      ensures Valid() && this.templates == templates && this.malloc == malloc
      ensures heap == EMPTY_HEAP && offsets == map[] && allocations == 0
    {
      this.templates, this.malloc := templates, malloc;
      allocations, objectCount, offsets, heap, bytes := 0, 0, map[], EMPTY_HEAP, map[];
      new;
      Fold(EMPTY_HEAP);
    }

    /** Why a lookup ended as it did. */
    ghost predicate Explains(x: Ending, t: Thread, o: ObjectId)
      reads this
    {
      Explained(x, malloc, allocations - 1, heap, if o in offsets then offsets[o] else 0, objectCount, templates(o), t)
    }

    /** emutls_offset: the first use of an object numbers it for good. */
    method OffsetOf(o: ObjectId) returns (fatal: bool, offset: nat)
      requires Numbers()
      modifies this`objectCount, this`offsets
      ensures Numbers() && SameNumbers(old(offsets), offsets) && old(objectCount) <= objectCount
      ensures !fatal ==> o in offsets && offset == offsets[o] && 1 <= offset <= objectCount
      ensures !fatal ==> SameOwners(old(offsets), offsets, heap.homes, o)
      ensures fatal <==> o !in old(offsets) && old(objectCount) == SIZE_MAX
    {
      if o in offsets {
        return false, offsets[o];
      }
      if objectCount == SIZE_MAX {
        return true, 0;
      }
      NewNumber(offsets, objectCount, heap.homes, templates, o);
      objectCount := objectCount + 1;
      offsets := offsets[o := objectCount];
      return false, objectCount;
    }

    /** malloc, calloc, or realloc of a block that is given back. */
    method Allocate(free: map<Address, nat>, length: nat) returns (base: Address)
      requires Sane(malloc)
      modifies this`allocations
      ensures allocations == old(allocations) + 1 && base == malloc(old(allocations), free, length)
      ensures base != 0 ==> Mallocs(free, base, length)
    {
      base := malloc(allocations, free, length);
      assert base != 0 ==> Mallocs(free, malloc(allocations, free, length), length);
      allocations := allocations + 1;
    }

    /** The thread's array, created or grown so that the offset has an entry. */
    method EnsureArray(t: Thread, offset: nat) returns (fatal: bool)
      requires Memory() && offset >= 1
      modifies this`heap, this`allocations
      ensures Memory() && heap.homes == old(heap).homes && heap.backPointers == old(heap).backPointers
      ensures heap.arrays.Keys <= old(heap).arrays.Keys + {t}
      ensures !fatal ==> offset <= |ArrayOf(heap, t)| && heap.arrays == old(heap).arrays[t := ArrayOf(heap, t)]
      ensures !fatal ==> ArrayOf(old(heap), t) <= ArrayOf(heap, t)
      ensures fatal ==> heap == old(heap)
      ensures fatal && offset <= MANY ==> ArrayRefused(malloc, allocations - 1, heap, t, offset)
      ensures offset <= |ArrayOf(old(heap), t)| ==> !fatal && heap == old(heap)
    {
      var present := ArrayOf(heap, t);
      if offset <= |present| {
        return false;
      }
      var capacity := NextCapacity(heap, t, offset);
      GrowthMakesRoom(|present|, offset);
      if capacity.None? || !ArrayFits(capacity.value) {
        return true;
      }
      var base := Allocate(Released(heap, t), ArraySize(capacity.value));
      if base == 0 {
        return true;
      }
      Unfold(heap);
      NewArrayIsOk(heap, t, capacity.value, base);
      heap := WithArray(heap, t, capacity.value, base);
      Fold(heap);
      fatal := false;
    }

    /** allocate_emutls_object, stored in the entry. */
    method AllocateObject(t: Thread, k: nat, template: Template) returns (fatal: bool, home: Home)
      requires Memory() && t in heap.arrays && k < |heap.arrays[t]| && heap.arrays[t][k] == 0
      modifies this`heap, this`bytes, this`allocations
      ensures Memory() && (fatal ==> heap == old(heap) && bytes == old(bytes))
      ensures fatal ==> ObjectRefused(malloc, allocations - 1, heap, template)
      ensures !fatal ==> TemplateOk(template) && home.template == template && HomeFitsIn(old(heap), t, k, home)
      ensures !fatal ==>
        heap == WithHome(old(heap), t, k, home) && HoldsAt(bytes, home.address, InitialContents(template))
      ensures HomesUntouched(old(heap).homes, old(bytes), bytes)
    {
      home := Home(0, 0, 0, template);
      var ok := CheckTemplate(template);
      if !ok {
        return true, home;
      }
      var base := Allocate(heap.blocks, BlockLength(template));
      if base == 0 {
        return true, home;
      }
      home := HomeFor(base, template);
      HomeForFits(heap.blocks, base, template);
      Settle(t, k, home);
      fatal := false;
    }

    /** The back pointer and the contents of a new object, and its entry. */
    method Settle(t: Thread, k: nat, home: Home)
      requires Memory() && SizeOk(home.template) && HomeOk(home) && IsAligned(home) &&
        Mallocs(heap.blocks, home.base, home.length)
      requires t in heap.arrays && k < |heap.arrays[t]| && heap.arrays[t][k] == 0
      modifies this`heap, this`bytes
      ensures Memory() && HomeFitsIn(old(heap), t, k, home) && heap == WithHome(old(heap), t, k, home)
      ensures HoldsAt(bytes, home.address, InitialContents(home.template)) &&
        HomesUntouched(old(heap).homes, old(bytes), bytes)
    {
      Unfold(heap);
      NewObjectIsOk(heap, bytes, t, k, home);
      bytes := Store(bytes, home.address, InitialContents(home.template));
      heap := WithHome(heap, t, k, home);
      Fold(heap);
    }

    /** The object behind an entry, allocated if the entry is null. */
    method Fetch(t: Thread, k: nat, template: Template) returns (fatal: bool, address: Address, ghost change: Change)
      requires Memory() && t in heap.arrays && k < |heap.arrays[t]|
      modifies this`heap, this`bytes, this`allocations
      ensures Memory() && HomesStep(old(heap).homes, change, heap.homes)
      ensures heap.arrays.Keys == old(heap).arrays.Keys
      ensures !fatal ==> (t, k) in heap.homes && address == heap.homes[(t, k)].address != 0
      ensures fatal || (t, k) in old(heap).homes ==> change == Unchanged && heap == old(heap) && bytes == old(bytes)
      ensures (t, k) in old(heap).homes ==> !fatal
      ensures fatal ==> ObjectRefused(malloc, allocations - 1, heap, template)
      ensures !fatal && (t, k) !in old(heap).homes ==>
        && TemplateOk(template) && change.NewHome? && change.entry == (t, k) && change.home.template == template
        && HoldsAt(bytes, address, InitialContents(template))
      ensures HomesUntouched(old(heap).homes, old(bytes), bytes)
    {
      fatal, address, change := false, 0, Unchanged;
      Unfold(heap);
      NullMeansAbsent(heap, t, k);
      if heap.arrays[t][k] == 0 {
        var home;
        fatal, home := AllocateObject(t, k, template);
        if fatal {
          return;
        }
        change := NewHome((t, k), home);
        Unfold(heap);
        NullMeansAbsent(heap, t, k);
      }
      address := heap.arrays[t][k];
    }

    /** The entry of an object in the thread's array, null or not. */
    method Locate(t: Thread, o: ObjectId) returns (ending: Ending, index: nat)
      requires Valid()
      modifies this`objectCount, this`offsets, this`heap, this`allocations
      ensures Valid() && SameNumbers(old(offsets), offsets)
      ensures heap.homes == old(heap).homes && heap.arrays.Keys <= old(heap).arrays.Keys + {t}
      ensures ending.Answered? ==>
        o in offsets && offsets[o] == index + 1 && t in heap.arrays && index < |heap.arrays[t]|
      ensures ending.Answered? ==> ((t, index) in heap.homes <==> old(Has(offsets, heap.homes, t, o)))
      ensures old(Has(offsets, heap.homes, t, o)) ==> ending.Answered?
      ensures Explains(ending, t, o)
    {
      var offset;
      index := 0;
      Unfold(heap);
      HasEntry(offsets, heap, t, o);
      var fatal;
      fatal, offset := OffsetOf(o);
      if fatal {
        return NoNumber, 0;
      }
      index := offset - 1;
      HasIndex(offsets, heap.homes, t, o, index);
      fatal := EnsureArray(t, offset);
      ending := if fatal then NoArray else Answered;
    }

    /** The object o behind its entry in the thread's array. */
    method FetchObject(t: Thread, o: ObjectId, index: nat)
      returns (ending: Ending, address: Address, ghost change: Change)
      requires Valid() && o in offsets && offsets[o] == index + 1 && t in heap.arrays && index < |heap.arrays[t]|
      modifies this`heap, this`bytes, this`allocations
      ensures Valid() && HomesStep(old(heap).homes, change, heap.homes) && !change.ThreadGone? &&
        heap.arrays.Keys == old(heap).arrays.Keys
      ensures (t, index) in old(heap).homes ==> ending.Answered?
      ensures ending.Answered? || (ending.NoObject? && ObjectRefused(malloc, allocations - 1, heap, templates(o)))
      ensures ending.Answered? ==>
        Has(offsets, heap.homes, t, o) && address == HomeOf(offsets, heap.homes, t, o).address != 0
      ensures ending.Answered? && (t, index) !in old(heap).homes ==>
        change.NewHome? && TemplateOk(templates(o)) && HoldsAt(bytes, address, InitialContents(templates(o)))
      ensures !ending.Answered? || (t, index) in old(heap).homes ==> change == Unchanged && bytes == old(bytes)
      ensures HomesUntouched(old(heap).homes, old(bytes), bytes)
    {
      ghost var homes := heap.homes;
      var fatal;
      fatal, address, change := Fetch(t, index, templates(o));
      ending := if fatal then NoObject else Answered;
      NumbersFollow(offsets, objectCount, homes, heap.homes, templates, t, o, index, change);
    }

    /** __emutls_get_address. */
    method GetAddress(t: Thread, o: ObjectId) returns (ending: Ending, address: Address, ghost change: Change)
      requires Valid()
      modifies this
      ensures Valid() && SameNumbers(old(offsets), offsets) && HomesStep(old(heap).homes, change, heap.homes) &&
        !change.ThreadGone?
      ensures heap.arrays.Keys <= old(heap).arrays.Keys + {t}
      // an existing object is found again; a new one is refused only for want of
      // memory, of numbers or of a sensible size and alignment
      ensures old(Has(offsets, heap.homes, t, o)) ==> ending.Answered?
      ensures Explains(ending, t, o)
      // the answer is the home of this thread's object
      ensures ending.Answered? ==>
        Has(offsets, heap.homes, t, o) && address == HomeOf(offsets, heap.homes, t, o).address != 0
      // a first answer adds one home with the initial contents
      ensures ending.Answered? && !old(Has(offsets, heap.homes, t, o)) ==>
        change.NewHome? && TemplateOk(templates(o)) && HoldsAt(bytes, address, InitialContents(templates(o)))
      // any other call leaves homes and memory alone, and none touches another home
      ensures !ending.Answered? || old(Has(offsets, heap.homes, t, o)) ==> change == Unchanged && bytes == old(bytes)
      ensures HomesUntouched(old(heap).homes, old(bytes), bytes)
    {
      var index;
      address, change := 0, Unchanged;
      ending, index := Locate(t, o);
      if !ending.Answered? {
        return;
      }
      ending, address, change := FetchObject(t, o, index);
    }

    method Free(base: Address)
      requires base in heap.blocks
      modifies this`heap
      ensures heap == old(heap).(blocks := old(heap).blocks - {base})
    {
      heap := heap.(blocks := heap.blocks - {base});
    }

    /** The loop of destroy_emutls: each object block of the thread is freed,
        through its back pointer, exactly once while it is live. */
    method FreeObjects(t: Thread) returns (freed: seq<Address>)
      requires EntriesOk(heap) && HomesOk(heap) && t in heap.arrays
      modifies this`heap
      ensures Distinct(freed) && forall b :: b in freed <==> IsBase(old(heap).homes, t, b)
      ensures heap == old(heap).(blocks := old(heap).blocks - Elements(freed))
    {
      freed := [];
      ghost var h := heap;
      var entries := heap.arrays[t];
      for index := 0 to |entries|
        invariant heap == h.(blocks := h.blocks - Elements(freed))
        invariant Distinct(freed) && forall b :: b in freed <==> IsBaseBelow(h.homes, t, b, index)
      {
        BaseBelowStep(h.homes, t, index);
        NullMeansAbsent(h, t, index);
        if entries[index] != 0 {
          assert InBlock(h.homes[(t, index)], h);
          var base := heap.backPointers[entries[index] - WORD_SIZE];
          FreshBase(h, t, index);
          Free(base);
          freed := freed + [base];
        }
      }
      AllBases(h, t);
    }

    /** destroy_emutls: every allocation of the thread, its array included, is freed
        exactly once, and nothing else changes. */
    method Destroy(t: Thread) returns (freed: seq<Address>)
      requires Valid()
      modifies this`heap
      ensures Valid() && HomesStep(old(heap).homes, ThreadGone(t), heap.homes)
      ensures heap == WithoutThread(old(heap), t, Elements(freed))
      ensures Distinct(freed) && forall b :: b in Elements(freed) <==> Belongs(old(heap), t, b)
    {
      if t in heap.arrays {
        freed := DestroyArray(t);
      } else {
        freed := [];
        Unfold(heap);
        NoHomes(heap, t);
        assert Elements(freed) == {};
      }
    }

    /** The object blocks, then the array itself. */
    method FreeAll(t: Thread) returns (freed: seq<Address>)
      requires Intact(heap) && t in heap.arrays
      modifies this`heap
      ensures heap == old(heap).(blocks := old(heap).blocks - Elements(freed))
      ensures Distinct(freed) && forall b :: b in Elements(freed) <==> Belongs(old(heap), t, b)
    {
      ghost var h := heap;
      Unfold(heap);
      freed := FreeObjects(t);
      var own := heap.arrayAt[t];
      ArrayIsLast(h, t, freed);
      Free(own);
      freed := freed + [own];
    }

    method DestroyArray(t: Thread) returns (freed: seq<Address>)
      requires Valid() && t in heap.arrays
      modifies this`heap
      ensures Valid() && heap == WithoutThread(old(heap), t, Elements(freed))
      ensures Distinct(freed) && forall b :: b in Elements(freed) <==> Belongs(old(heap), t, b)
    {
      ghost var h := heap;
      freed := FreeAll(t);
      ExitIsIntact(h, t, Elements(freed));
      OtherTemplatesSurvive(offsets, objectCount, h.homes, templates, t);
      heap := heap.(arrays := heap.arrays - {t}, arrayAt := heap.arrayAt - {t}, homes := HomesOfOthers(heap.homes, t));
      assert heap == WithoutThread(h, t, Elements(freed));
    }

    ghost function Snap(): Snapshot
      reads this
    {
      Snapshot(offsets, heap)
    }

    lemma SnapIsOk()
      requires Valid()
      ensures SnapshotOk(Snap(), templates)
    {
      Unfold(heap);
    }

    /** One request; a fatal error ends the program. */
    method Serve(r: Request) returns (ending: Ending, answer: Address, ghost change: Change)
      requires Valid()
      modifies this
      ensures Valid() && (ending.Answered? ==> Served(old(Snap()), change, Snap(), r, answer))
      ensures heap.arrays.Keys <= if r.Lookup? then old(heap).arrays.Keys + {r.t} else old(heap).arrays.Keys - {r.t}
      ensures if r.Lookup? then Explains(ending, r.t, r.o) else ending.Answered?
    {
      match r
      case Lookup(t, o) =>
        ending, answer, change := GetAddress(t, o);
      case Finish(t) =>
        var freed := Destroy(t);
        ending, answer, change := Answered, 0, ThreadGone(t);
    }
  }

  // ----- Histories

  /** What one call does to the homes: GetAddress is one of the first two, Destroy
      the third. */
  datatype Change = Unchanged | NewHome(entry: Entry, home: Home) | ThreadGone(thread: Thread)

  ghost predicate HomesStep(homes: map<Entry, Home>, c: Change, homes': map<Entry, Home>) {
    match c
    case Unchanged => homes' == homes
    case NewHome(e, x) => e !in homes && homes' == homes[e := x]
    case ThreadGone(t) => homes' == HomesOfOthers(homes, t)
  }

  datatype Snapshot = Snapshot(offsets: map<ObjectId, nat>, heap: Heap)

  ghost predicate SnapshotOk(s: Snapshot, templates: Templates) {
    && (forall o, p {:trigger OwnNumber(s.offsets, o, p)} :: o in s.offsets && p in s.offsets ==>
      OwnNumber(s.offsets, o, p))
    && HomesOk(s.heap) && BlocksOk(s.heap.blocks) && AlignmentsOk(s.heap.homes) &&
      TemplatesOk(s.offsets, s.heap.homes, templates)
  }

  datatype Request = Lookup(t: Thread, o: ObjectId) | Finish(t: Thread)

  /** What a request does and what it answers. */
  ghost predicate Served(s: Snapshot, c: Change, s': Snapshot, r: Request, answer: Address) {
    && SameNumbers(s.offsets, s'.offsets) && HomesStep(s.heap.homes, c, s'.heap.homes)
    && match r
       case Lookup(t, o) =>
         !c.ThreadGone? && Has(s'.offsets, s'.heap.homes, t, o) &&
           answer == HomeOf(s'.offsets, s'.heap.homes, t, o).address
       case Finish(t) => c == ThreadGone(t)
  }

  /** The states between the requests of a run that started with an empty heap. */
  ghost predicate History(states: seq<Snapshot>, changes: seq<Change>, requests: seq<Request>, answers: seq<Address>,
                          templates: Templates) {
    && |states| == |changes| + 1 && |changes| == |answers| <= |requests|
    && (forall i :: 0 <= i < |states| ==> SnapshotOk(states[i], templates))
    && (forall i :: 0 <= i < |changes| ==> Served(states[i], changes[i], states[i + 1], requests[i], answers[i]))
  }

  /** Thread t does not finish between two requests. */
  predicate Lives(requests: seq<Request>, t: Thread, i: nat, j: nat) {
    forall k :: i <= k < j && k < |requests| ==> requests[k] != Finish(t)
  }

  lemma HomeStaysOnce(s: Snapshot, c: Change, s': Snapshot, r: Request, answer: Address, t: Thread, o: ObjectId)
    requires Served(s, c, s', r, answer) && r != Finish(t) && Has(s.offsets, s.heap.homes, t, o)
    ensures Has(s'.offsets, s'.heap.homes, t, o)
    ensures HomeOf(s'.offsets, s'.heap.homes, t, o) == HomeOf(s.offsets, s.heap.homes, t, o)
  {
  }

  lemma {:induction false} HomeStays(states: seq<Snapshot>, changes: seq<Change>, requests: seq<Request>,
                                     answers: seq<Address>,
                                     templates: Templates, t: Thread, o: ObjectId, i: nat, j: nat)
    requires History(states, changes, requests, answers, templates) && i <= j < |states| && Lives(requests, t, i, j)
    requires Has(states[i].offsets, states[i].heap.homes, t, o)
    ensures Has(states[j].offsets, states[j].heap.homes, t, o)
    ensures HomeOf(states[j].offsets, states[j].heap.homes, t, o) ==
            HomeOf(states[i].offsets, states[i].heap.homes, t, o)
    decreases j
  {
    if i < j {
      HomeStays(states, changes, requests, answers, templates, t, o, i, j - 1);
      assert Served(states[j - 1], changes[j - 1], states[j - 1 + 1], requests[j - 1], answers[j - 1]);
      HomeStaysOnce(states[j - 1], changes[j - 1], states[j], requests[j - 1], answers[j - 1], t, o);
    }
  }

  /** The storage at an address, with the pointer in front of it. */
  predicate Apart(a: Address, sizeA: nat, b: Address, sizeB: nat) {
    a + sizeA <= b - WORD_SIZE || b + sizeB <= a - WORD_SIZE
  }

  /** Two answers agree: one object of one thread has one address, aligned as it
      asks, and everything else is elsewhere. */
  predicate Agree(requests: seq<Request>, answers: seq<Address>, templates: Templates, i: nat, j: nat)
    requires i <= j < |answers| <= |requests| && requests[i].Lookup? && requests[j].Lookup?
  {
    var x, y := templates(requests[i].o), templates(requests[j].o);
    && x.alignment > 0 && answers[i] % x.alignment == 0
    && if requests[i] == requests[j] then answers[i] == answers[j] else Apart(answers[i], x.size, answers[j], y.size)
  }

  /** In every history of lookups and thread ends, an object of a thread keeps its
      aligned address until that thread ends, and never overlaps another object or
      another thread's copy, nor their back pointers. */
  lemma AddressesAgree(states: seq<Snapshot>, changes: seq<Change>, requests: seq<Request>, answers: seq<Address>,
                       templates: Templates, i: nat, j: nat)
    requires History(states, changes, requests, answers, templates)
    requires i <= j < |answers| && requests[i].Lookup? && requests[j].Lookup? && Lives(requests, requests[i].t, i, j)
    ensures Agree(requests, answers, templates, i, j)
  {
    var s := states[j + 1];
    var t, o, u, p := requests[i].t, requests[i].o, requests[j].t, requests[j].o;
    assert Served(states[i], changes[i], states[i + 1], requests[i], answers[i]);
    assert Served(states[j], changes[j], states[j + 1], requests[j], answers[j]);
    assert requests[j] != Finish(t);
    HomeStays(states, changes, requests, answers, templates, t, o, i + 1, j + 1);
    HomesAgree(s, templates, t, o, u, p);
  }

  /** Within one state different objects are apart, and all are aligned. */
  lemma HomesAgree(s: Snapshot, templates: Templates, t: Thread, o: ObjectId, u: Thread, p: ObjectId)
    requires SnapshotOk(s, templates) && Has(s.offsets, s.heap.homes, t, o) && Has(s.offsets, s.heap.homes, u, p)
    ensures var x, y := HomeOf(s.offsets, s.heap.homes, t, o), HomeOf(s.offsets, s.heap.homes, u, p);
      && x.template == templates(o) && y.template == templates(p) && IsAligned(x)
      && ((t, o) != (u, p) ==> Apart(x.address, x.template.size, y.address, y.template.size))
  {
    var e, f := (t, s.offsets[o] - 1), (u, s.offsets[p] - 1);
    var x, y := s.heap.homes[e], s.heap.homes[f];
    assert InBlock(x, s.heap) && InBlock(y, s.heap) && IsAligned(s.heap.homes[e]);
    if (t, o) != (u, p) {
      assert OwnNumber(s.offsets, o, p) && OwnBlock(s.heap.homes, e, f);
      HomesAreDisjoint(x, y, s.heap);
    }
  }

  ghost predicate AllAgree(requests: seq<Request>, answers: seq<Address>, templates: Templates) {
    forall i: nat, j: nat ::
      i <= j < |answers| <= |requests| && requests[i].Lookup? && requests[j].Lookup? &&
        Lives(requests, requests[i].t, i, j) ==>
        Agree(requests, answers, templates, i, j)
  }

  lemma HistoryGrows(states: seq<Snapshot>, changes: seq<Change>, requests: seq<Request>, answers: seq<Address>,
                     templates: Templates, c: Change, s: Snapshot, answer: Address)
    requires History(states, changes, requests, answers, templates) && |answers| < |requests| &&
      SnapshotOk(s, templates)
    requires Served(states[|changes|], c, s, requests[|answers|], answer)
    ensures History(states + [s], changes + [c], requests, answers + [answer], templates)
  {
  }

  /** After n requests thread t has looked something up and not ended since. */
  ghost predicate Unfinished(requests: seq<Request>, n: nat, t: Thread) {
    exists i: nat :: i < n <= |requests| && requests[i].Lookup? && requests[i].t == t && Lives(requests, t, i, n)
  }

  ghost predicate AllFinished(requests: seq<Request>, n: nat) { forall t :: !Unfinished(requests, n, t) }

  /** Only unfinished threads have arrays. */
  ghost predicate OnlyUnfinished(threads: set<Thread>, requests: seq<Request>, n: nat) {
    forall t :: t in threads ==> Unfinished(requests, n, t)
  }

  lemma UnfinishedGoesOn(threads: set<Thread>, threads': set<Thread>, requests: seq<Request>, n: nat)
    requires n < |requests| && OnlyUnfinished(threads, requests, n)
    requires threads' <= if requests[n].Lookup? then threads + {requests[n].t} else threads - {requests[n].t}
    ensures OnlyUnfinished(threads', requests, n + 1)
  {
    forall t | t in threads'
      ensures Unfinished(requests, n + 1, t)
    {
      if requests[n].Lookup? && requests[n].t == t {
        assert Lives(requests, t, n, n + 1);
      } else {
        var i: nat :| i < n <= |requests| && requests[i].Lookup? && requests[i].t == t && Lives(requests, t, i, n);
        assert Lives(requests, t, i, n + 1);
      }
    }
  }

  lemma HistoryAgrees(states: seq<Snapshot>, changes: seq<Change>, requests: seq<Request>, answers: seq<Address>,
                      templates: Templates)
    requires History(states, changes, requests, answers, templates)
    ensures AllAgree(requests, answers, templates)
  {
    forall i: nat, j: nat | i <= j < |answers| && requests[i].Lookup? && requests[j].Lookup? &&
      Lives(requests, requests[i].t, i, j)
      ensures Agree(requests, answers, templates, i, j)
    {
      AddressesAgree(states, changes, requests, answers, templates, i, j);
    }
  }

  lemma FinishedMeansEmpty(h: Heap, requests: seq<Request>, n: nat)
    requires HeapOk(h) && OnlyUnfinished(h.arrays.Keys, requests, n) && AllFinished(requests, n)
    ensures h.blocks == map[]
  {
    assert h.arrays.Keys == {};
    NothingIsLeft(h);
  }

  /** A whole program: any lookups and thread ends, from an empty heap, with any
      allocator.  All answers agree; the program stops early only at a lookup that
      cannot be served; and when every thread has ended no memory is left. */
  method Session(templates: Templates, malloc: Allocator, requests: seq<Request>)
    returns (answers: seq<Address>, storage: Storage, ending: Ending)
    requires Sane(malloc)
    ensures storage.Valid() && storage.templates == templates && storage.malloc == malloc
    ensures |answers| <= |requests| && AllAgree(requests, answers, templates)
    ensures |answers| < |requests| ==>
      !ending.Answered? && requests[|answers|].Lookup? &&
        storage.Explains(ending, requests[|answers|].t, requests[|answers|].o)
    ensures |answers| == |requests| && AllFinished(requests, |requests|) ==> storage.heap.blocks == map[]
  {
    storage := new Storage(templates, malloc);
    ghost var states, changes := [storage.Snap()], [];
    answers, ending := [], Answered;
    storage.SnapIsOk();
    while |answers| < |requests|
      invariant storage.Valid() && storage.templates == templates && storage.malloc == malloc && fresh(storage)
      invariant OnlyUnfinished(storage.heap.arrays.Keys, requests, |answers|)
      invariant History(states, changes, requests, answers, templates) && states[|changes|] == storage.Snap()
      decreases |requests| - |answers|
    {
      ghost var change;
      var answer;
      ghost var threads := storage.heap.arrays.Keys;
      ending, answer, change := storage.Serve(requests[|answers|]);
      if !ending.Answered? {
        break;
      }
      storage.SnapIsOk();
      UnfinishedGoesOn(threads, storage.heap.arrays.Keys, requests, |answers|);
      HistoryGrows(states, changes, requests, answers, templates, change, storage.Snap(), answer);
      states, changes, answers := states + [storage.Snap()], changes + [change], answers + [answer];
    }
    HistoryAgrees(states, changes, requests, answers, templates);
    if |answers| == |requests| && AllFinished(requests, |requests|) {
      Unfold(storage.heap);
      FinishedMeansEmpty(storage.heap, requests, |requests|);
    }
  }
}
