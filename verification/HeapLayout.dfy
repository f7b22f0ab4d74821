/** The memory a program starts with, and how its heap grows. */
module HeapLayout {
  import opened Options
  import opened Rounding

  /** In octets: a page, a zone, the space for arguments, and the whole address space. */
  datatype Units = Units(page: nat, zone: nat, input: nat, space: nat) {
    predicate Valid() {
      page >= 1 && zone >= 1 && zone % page == 0 && input % zone == 0 && space % zone == 0
    }
  }

  /** The sizes that the node uses. */
  const STANDARD := Units(0x1000, 0x1_0000, 0x100_0000, 0x1_0000_0000)

  type Layout = u: Units | u.Valid() witness STANDARD

  /** The sizes a program declares, in octets except for the extra heap pages. */
  datatype Sizes = Sizes(rom: nat, heap: nat, pages: nat, stack: nat, arguments: nat)

  datatype Region = Region(start: int, size: nat) {
    function End(): int {
      start + size
    }
  }

  predicate Fits(l: Layout, s: Sizes) {
    5 * l.zone + RoundUp(s.rom, l.zone) + RoundUp(s.heap + s.pages * l.page, l.zone) + RoundUp(s.stack,
      l.zone) + l.input
    <= l.space
  }

  function Rom(l: Layout, s: Sizes): Region {
    Region(l.zone, RoundUp(s.rom, l.page))
  }

  function Heap(l: Layout, s: Sizes): Region {
    Region(2 * l.zone + RoundUp(s.rom, l.zone), RoundUp(s.heap, l.page) + s.pages * l.page)
  }

  function Stack(l: Layout, s: Sizes): Region {
    Region(l.space - 2 * l.zone - l.input - RoundUp(s.stack, l.page), RoundUp(s.stack, l.page))
  }

  function Arguments(l: Layout, s: Sizes): Region {
    Region(l.space - l.zone - l.input, RoundUp(s.arguments, l.page))
  }

  // ---------------------------------------------------------------- the regions

  lemma ZonesAreMultiples(l: Layout)
    ensures (l.space - 2 * l.zone - l.input) % l.zone == 0 && (l.space - 5 * l.zone - l.input) % l.zone == 0
    ensures l.input % l.page == 0
  {
    MultipleOf(1, l.zone);
    MultipleOf(2, l.zone);
    MultipleOf(5, l.zone);
    MultiplesAdd(l.space, 2 * l.zone, l.zone);
    MultiplesAdd(l.space, 5 * l.zone, l.zone);
    MultiplesAdd(l.space - 2 * l.zone, l.input, l.zone);
    MultiplesAdd(l.space - 5 * l.zone, l.input, l.zone);
    MultipleOfMultiple(l.input, l.page, l.zone);
  }

  lemma HeapSizeIs(l: Layout, s: Sizes)
    ensures Heap(l, s).size == RoundUp(s.heap + s.pages * l.page, l.page)
    ensures RoundUp(Heap(l, s).size, l.zone) == RoundUp(s.heap + s.pages * l.page, l.zone)
  {
    hide RoundUp;
    MultipleOf(s.pages, l.page);
    RoundUpPlus(s.heap, s.pages * l.page, l.page);
    RoundUpTwice(s.heap + s.pages * l.page, l.page, l.zone);
  }

  /** The regions lie in the address space one after the other, each a zone or more from the next. */
  lemma RegionsAreApart(l: Layout, s: Sizes)
    requires Fits(l, s) && s.arguments <= l.input
    ensures l.zone <= Rom(l, s).start && Rom(l, s).End() + l.zone <= Heap(l, s).start
    ensures Heap(l, s).End() + l.zone <= Stack(l, s).start
    ensures Stack(l, s).End() + l.zone == Arguments(l, s).start
    ensures Arguments(l, s).End() + l.zone <= l.space
  {
    hide RoundUp;
    ZonesAreMultiples(l);
    HeapSizeIs(l, s);
    RoundUpTwice(s.rom, l.page, l.zone);
    RoundUpTwice(s.stack, l.page, l.zone);
    RoundUpTwice(s.heap + s.pages * l.page, l.page, l.zone);
    RoundUpFits(s.arguments, l.page, l.input);
  }

  /** The size check is exactly that the heap ends a whole zone below the zones of the stack. */
  lemma FitsExactly(l: Layout, s: Sizes)
    ensures Fits(l, s) <==> Heap(l, s).End() + l.zone <= RoundDown(Stack(l, s).start, l.zone)
  {
    hide RoundUp, RoundDown;
    ZonesAreMultiples(l);
    HeapSizeIs(l, s);
    RoundUpTwice(s.stack, l.page, l.zone);
    RoundDownBelow(RoundUp(s.stack, l.page), l.zone, l.space - 2 * l.zone - l.input);
    RoundUpIs(s.rom, l.zone);
    RoundUpIs(s.stack, l.zone);
    var room := l.space - 5 * l.zone - l.input;
    MultiplesAdd(room, RoundUp(s.rom, l.zone), l.zone);
    MultiplesAdd(room - RoundUp(s.rom, l.zone), RoundUp(s.stack, l.zone), l.zone);
    RoundUpFits(Heap(l, s).size, l.zone, room - RoundUp(s.rom, l.zone) - RoundUp(s.stack, l.zone));
  }

  // ---------------------------------------------------------------- growing the heap

  /** Pages counted from the start of the address space; `writable` are those that can be written. */
  datatype Memory = Memory(heapBase: nat, stackBase: nat, writable: set<nat>, heapPointer: nat) {
    function FirstPage(l: Layout): nat {
      heapBase / l.page
    }

    /** The heap must end before this page, a zone below the stack's zones. */
    function LastPage(l: Layout): int {
      (RoundDown(stackBase, l.zone) - l.zone) / l.page
    }

    function HeapPages(l: Layout): set<nat> {
      set p | p in writable && FirstPage(l) <= p < LastPage(l)
    }

    /** The first page after the heap, found by counting. */
    function HeapEnd(l: Layout): nat {
      FirstPage(l) + |HeapPages(l)|
    }
  }

  const QUERY_COST := 275
  const PAGE_COST := 121

  datatype Grown = Grown(memory: Memory, gas: nat, answer: Option<nat>)

  function PagesFrom(first: nat, end: int): (pages: set<nat>)
    ensures forall p :: p in pages <==> first <= p < end
    ensures |pages| == if end < first then 0 else end - first
    decreases end - first
  {
    if end <= first then {} else PagesFrom(first, end - 1) + {end - 1}
  }

  /** A request for fewer pages than there are, or for too many, only asks where the heap ends. */
  function GrowHeap(l: Layout, m: Memory, requested: nat, gas: nat): Grown {
    var h := m.HeapEnd(l);
    var query := requested <= h || requested > m.LastPage(l);
    var end := if query then h else requested;
    var cost := QUERY_COST + (end - h) * PAGE_COST;
    if gas < cost then Grown(m, 0, None)
    else if query then Grown(m, gas - cost, Some(end))
    else
      var grown := m.(writable := m.writable + PagesFrom(m.FirstPage(l), end), heapPointer := end * l.page);
      Grown(grown, gas - cost, Some(end))
  }

  lemma BoundsAre(l: Layout, m: Memory)
    ensures m.FirstPage(l) == m.heapBase / l.page
    ensures m.LastPage(l) == (RoundDown(m.stackBase, l.zone) - l.zone) / l.page
  {
  }

  class ProgramMemory {
    const layout: Layout
    const heapBase: nat
    const stackBase: nat
    var writable: set<nat>
    var heapPointer: nat

    constructor (l: Layout, s: Sizes)
      requires Fits(l, s)
      ensures layout == l && Value() == Initial(l, s)
    {
      hide Fits, RoundUp, Heap, Stack, PagesFrom;
      RegionsStart(l, s);
      layout, heapBase, stackBase := l, Heap(l, s).start, Stack(l, s).start;
      heapPointer := Heap(l, s).End();
      writable := PagesFrom(Heap(l, s).start / l.page, Heap(l, s).End() / l.page)
                + PagesFrom(Stack(l, s).start / l.page, Stack(l, s).End() / l.page);
    }

    function Value(): Memory
      reads this
    {
      Memory(heapBase, stackBase, writable, heapPointer)
    }

    method Grow(requested: nat, gas: nat) returns (left: nat, answer: Option<nat>)
      modifies this
      ensures Grown(Value(), left, answer) == GrowHeap(layout, old(Value()), requested, gas)
    {
      hide RoundDown, PagesFrom, Memory.FirstPage, Memory.LastPage;
      var a := heapBase / layout.page;
      var b := (RoundDown(stackBase, layout.zone) - layout.zone) / layout.page;
      BoundsAre(layout, Value());
      var heapPages := set p | p in writable && a <= p < b;
      var h := a + |heapPages|;
      assert heapPages == Value().HeapPages(layout);
      var query := requested <= h || requested > b;
      var end := if query then h else requested;
      var cost := QUERY_COST + (end - h) * PAGE_COST;
      if gas < cost {
        return 0, None;
      }
      left, answer := gas - cost, Some(end);
      if !query {
        MakeWritable(a, end);
        heapPointer := end * layout.page;
      }
    }

    method MakeWritable(first: nat, end: nat)
      requires first <= end
      modifies this`writable
      ensures writable == old(writable) + PagesFrom(first, end)
    {
      hide PagesFrom;
      for page := first to end
        invariant writable == old(writable) + PagesFrom(first, page)
      {
        writable := writable + {page};
      }
    }
  }

  // ---------------------------------------------------------------- whole runs

  lemma RegionsStart(l: Layout, s: Sizes)
    requires Fits(l, s)
    ensures Heap(l, s).start >= 0 && Heap(l, s).End() >= 0 && Stack(l, s).start >= 0
    ensures Heap(l, s).start / l.page >= 0 && Stack(l, s).start / l.page >= 0
  {
    hide RoundUp;
    RoundUpIs(s.rom, l.zone);
    RoundUpIs(s.heap, l.page);
    RoundUpIs(s.heap + s.pages * l.page, l.zone);
    RoundUpIs(s.stack, l.page);
    RoundUpTwice(s.stack, l.page, l.zone);
  }

  /** The memory of a program as it starts: heap and stack can be written, the rest only read. */
  function Initial(l: Layout, s: Sizes): Memory
    requires Fits(l, s)
  {
    hide Fits, Heap, Stack, PagesFrom, RoundUp;
    RegionsStart(l, s);
    Memory(Heap(l, s).start, Stack(l, s).start,
           PagesFrom(Heap(l, s).start / l.page, Heap(l, s).End() / l.page)
           + PagesFrom(Stack(l, s).start / l.page, Stack(l, s).End() / l.page),
           Heap(l, s).End())
  }

  /** The heap is one run of pages up to its end, which lies a zone below the stack; the pointer agrees. */
  ghost predicate Contiguous(l: Layout, m: Memory) {
    && m.FirstPage(l) <= m.HeapEnd(l) <= m.LastPage(l)
    && m.HeapPages(l) == PagesFrom(m.FirstPage(l), m.HeapEnd(l))
    && m.heapPointer == m.HeapEnd(l) * l.page
  }

  lemma PagesInOrder(a: int, b: int, n: nat)
    requires n >= 1 && a <= b
    ensures a / n <= b / n
  {
    RoundDownIs(a, n);
    RoundDownIs(b, n);
    MultiplesApart(RoundDown(a, n), RoundDown(b, n), n);
    MultipleOf(a / n, n);
    MultipleOf(b / n, n);
    Grows(a / n - b / n, n);
    assert (a / n - b / n) * n == RoundDown(a, n) - RoundDown(b, n);
  }

  lemma HeapIsPaged(l: Layout, s: Sizes)
    ensures Heap(l, s).start % l.page == 0 && Heap(l, s).End() % l.page == 0
    ensures Heap(l, s).start <= Heap(l, s).End()
  {
    hide RoundUp;
    RoundUpIs(s.rom, l.zone);
    RoundUpIs(s.heap, l.page);
    MultipleOf(2, l.zone);
    MultiplesAdd(2 * l.zone, RoundUp(s.rom, l.zone), l.zone);
    MultipleOfMultiple(Heap(l, s).start, l.page, l.zone);
    MultipleOf(s.pages, l.page);
    MultiplesAdd(RoundUp(s.heap, l.page), s.pages * l.page, l.page);
    MultiplesAdd(Heap(l, s).start, Heap(l, s).size, l.page);
  }

  lemma InitialPages(l: Layout, s: Sizes)
    requires Fits(l, s)
    ensures var m, end := Initial(l, s), Heap(l, s).End() / l.page;
            && m.FirstPage(l) <= end <= m.LastPage(l) <= Stack(l, s).start / l.page
            && m.heapBase == Heap(l, s).start && m.heapPointer == end * l.page
            && m.writable == PagesFrom(m.FirstPage(l), end)
                             + PagesFrom(Stack(l, s).start / l.page, Stack(l, s).End() / l.page)
  {
    hide PagesFrom, Heap, Stack, Fits, RoundDown, RoundUp;
    FitsExactly(l, s);
    RegionsStart(l, s);
    HeapIsPaged(l, s);
    RoundDownIs(Stack(l, s).start, l.zone);
    MultipleIs(Heap(l, s).End(), l.page);
    var last := RoundDown(Stack(l, s).start, l.zone) - l.zone;
    PagesInOrder(Heap(l, s).start, Heap(l, s).End(), l.page);
    PagesInOrder(Heap(l, s).End(), last, l.page);
    PagesInOrder(last, Stack(l, s).start, l.page);
  }

  lemma InitialIsContiguous(l: Layout, s: Sizes)
    requires Fits(l, s)
    ensures Contiguous(l, Initial(l, s))
  {
    hide Fits, Heap, Stack, Contiguous, PagesFrom;
    InitialPages(l, s);
    OnlyTheHeap(l, Initial(l, s), Heap(l, s).End() / l.page, Stack(l, s).start / l.page, Stack(l, s).End() / l.page);
  }

  /** Pages from the stack on do not count as heap pages. */
  lemma OnlyTheHeap(l: Layout, m: Memory, end: nat, from: nat, to: int)
    requires m.FirstPage(l) <= end <= m.LastPage(l) <= from && m.heapPointer == end * l.page
    requires m.writable == PagesFrom(m.FirstPage(l), end) + PagesFrom(from, to)
    ensures Contiguous(l, m)
  {
    var first, last := m.FirstPage(l), m.LastPage(l);
    hide PagesFrom;
    assert m.HeapPages(l) == PagesFrom(first, end);
  }

  /** One call: the heap stays one run, never shrinks, and the gas is that of a query plus that of the new pages. */
  lemma GrowKeeps(l: Layout, m: Memory, requested: nat, gas: nat)
    requires Contiguous(l, m)
    ensures var g := GrowHeap(l, m, requested, gas);
            && Contiguous(l, g.memory) && m.HeapEnd(l) <= g.memory.HeapEnd(l)
            && g.memory.heapBase == m.heapBase && g.memory.stackBase == m.stackBase
            && (g.answer.Some? ==>
                  && g.answer == Some(g.memory.HeapEnd(l))
                  && gas - g.gas == QUERY_COST + PAGE_COST * (g.memory.HeapEnd(l) - m.HeapEnd(l)))
            && (g.answer.None? ==> g.memory == m && g.gas == 0)
  {
    hide Memory.FirstPage, Memory.LastPage, Memory.HeapPages, Memory.HeapEnd, PagesFrom;
    var g := GrowHeap(l, m, requested, gas).memory;
    SameBounds(l, m, g);
    if g != m {
      GrownPages(l, m, g, requested);
    }
  }

  lemma GrownPages(l: Layout, m: Memory, g: Memory, requested: nat)
    requires m.HeapPages(l) == PagesFrom(m.FirstPage(l), m.HeapEnd(l))
    requires m.FirstPage(l) <= m.HeapEnd(l) <= requested <= m.LastPage(l)
    requires g.FirstPage(l) == m.FirstPage(l) && g.LastPage(l) == m.LastPage(l)
    requires g.writable == m.writable + PagesFrom(m.FirstPage(l), requested)
    ensures g.HeapPages(l) == PagesFrom(g.FirstPage(l), requested) && g.HeapEnd(l) == requested
  {
    hide Memory.FirstPage, Memory.LastPage, PagesFrom;
    forall p
      ensures p in g.HeapPages(l) <==> p in PagesFrom(m.FirstPage(l), requested)
    {
      if p in m.writable && m.FirstPage(l) <= p < m.LastPage(l) {
        assert p in m.HeapPages(l);
      }
    }
    assert g.HeapPages(l) == PagesFrom(m.FirstPage(l), requested);
  }

  lemma SameBounds(l: Layout, m: Memory, g: Memory)
    requires g.heapBase == m.heapBase && g.stackBase == m.stackBase
    ensures g.FirstPage(l) == m.FirstPage(l) && g.LastPage(l) == m.LastPage(l)
  {
  }

  datatype Run = Run(memory: Memory, gas: nat)

  /** The calls one after another, while the gas lasts. */
  function GrowAll(l: Layout, m: Memory, requests: seq<nat>, gas: nat): Option<Run> {
    if requests == [] then Some(Run(m, gas))
    else
      match GrowAll(l, m, requests[..|requests| - 1], gas)
      case None => None
      case Some(r) =>
        var g := GrowHeap(l, r.memory, requests[|requests| - 1], r.gas);
        if g.answer.None? then None else Some(Run(g.memory, g.gas))
  }

  /**
   After any calls the heap is one run of pages that has not shrunk and ends a whole zone
   below the stack; and all calls together cost a query each and 121 for each page gained.
   */
  lemma {:induction false} HeapStaysBelowStack(l: Layout, s: Sizes, requests: seq<nat>, gas: nat)
    requires Fits(l, s) && GrowAll(l, Initial(l, s), requests, gas).Some?
    ensures var first, r := Initial(l, s), GrowAll(l, Initial(l, s), requests, gas).value;
            && Contiguous(l, r.memory)
            && first.HeapEnd(l) <= r.memory.HeapEnd(l)
            && r.memory.heapBase == first.heapBase && r.memory.stackBase == first.stackBase
            && r.memory.heapPointer + l.zone <= Stack(l, s).start
            && gas - r.gas == QUERY_COST * |requests| + PAGE_COST * (r.memory.HeapEnd(l) - first.HeapEnd(l))
  {
    hide GrowHeap, Contiguous, Fits;
    if requests == [] {
      InitialIsContiguous(l, s);
    } else {
      HeapStaysBelowStack(l, s, requests[..|requests| - 1], gas);
      var before := GrowAll(l, Initial(l, s), requests[..|requests| - 1], gas).value;
      GrowKeeps(l, before.memory, requests[|requests| - 1], before.gas);
    }
    BelowStack(l, GrowAll(l, Initial(l, s), requests, gas).value.memory);
  }

  lemma NoMoreThan(a: int, b: int, n: nat)
    requires a <= b
    ensures a * n <= b * n
  {
  }

  lemma BelowStack(l: Layout, m: Memory)
    requires Contiguous(l, m)
    ensures m.heapPointer + l.zone <= m.stackBase
  {
    var last := RoundDown(m.stackBase, l.zone) - l.zone;
    RoundDownIs(m.stackBase, l.zone);
    RoundDownIs(last, l.page);
    NoMoreThan(m.HeapEnd(l), m.LastPage(l), l.page);
    assert RoundDown(last, l.page) == m.LastPage(l) * l.page;
    hide *;
  }
}
