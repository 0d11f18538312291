/** Address spaces of processes and threads: the uvm functions of kernel/vm.c, and the
    page-table parts of kernel/proc.c.

    Each method says what it does to the flat map from pages to entries, which frames it
    takes or gives back, and what happens to data.  One map covers all address spaces, so
    what a method does not mention stays as it was for every process. */
module UserMemory {
  import opened PageTable

  const PTE_R := 2
  const PTE_W := 4
  const PTE_X := 8
  const PTE_U := 16

  /** Page number of the first page at or above `sz`. */
  function Ceil(sz: int): (n: int)
    requires 0 <= sz
    ensures n * PGSIZE - PGSIZE < sz <= n * PGSIZE
  {
    (sz + PGSIZE - 1) / PGSIZE
  }

  function RoundUp(sz: int): (r: int)
    requires 0 <= sz
    ensures r == Ceil(sz) * PGSIZE && r / PGSIZE == Ceil(sz) && r % PGSIZE == 0
  {
    Ceil(sz) * PGSIZE
  }

  predicate InRange(p: Place, root: int, lo: int, hi: int) {
    p.root == root && lo <= p.vpn < hi
  }

  // ----- one fresh page -----

  /** After kalloc() the frame is held while tables are taken, and then freed. */
  lemma HeldThenFreed(ram0: map<int, Page>, head: int, g0: Shape, ram1: map<int, Page>, ram2: map<int, Page>,
                      g2: Shape, part: Part, page: Page)
    requires Ok(ram0, head, g0, NO_KEY) && g0.free != [] && part.Tables?
    requires forall h :: h in ram0 && h != g0.free[0] ==> h in ram1 && ram1[h] == ram0[h]
    requires Took(ram1, Alloced(g0), ram2, g2, part)
    ensures Took(ram0, g0, ram2[g0.free[0] := page], Freed(g2, g0.free[0]), part)
  {
    var f, ram3, g3 := g0.free[0], ram2[g0.free[0] := page], Freed(g2, g0.free[0]);
    assert LinkOk(ram0, g0.use, g0.free, 0);
    forall h ensures TookAt(ram0, g0.use, ram3, g3.use, part, h) {
      assert TookAt(ram1, Alloced(g0).use, ram2, g2.use, part, h);
    }
  }

  lemma HeldThenOwned(ram0: map<int, Page>, head: int, g0: Shape, ram1: map<int, Page>, ram2: map<int, Page>,
                      g2: Shape, p: Place)
    requires Ok(ram0, head, g0, NO_KEY) && g0.free != []
    requires forall h :: h in ram0 && h != g0.free[0] ==> h in ram1 && ram1[h] == ram0[h]
    requires Took(ram1, Alloced(g0), ram2, g2, Tables(p.root))
    ensures Took(ram0, g0, ram2, WithUse(g2, g0.free[0], Owned(p)), Both(p.root, p.vpn, p.vpn + 1))
  {
    var f, g3, part := g0.free[0], WithUse(g2, g0.free[0], Owned(p)), Both(p.root, p.vpn, p.vpn + 1);
    assert LinkOk(ram0, g0.use, g0.free, 0);
    forall h ensures TookAt(ram0, g0.use, ram2, g3.use, part, h) {
      assert TookAt(ram1, Alloced(g0).use, ram2, g2.use, Tables(p.root), h);
    }
  }

  lemma StillHeld(ram1: map<int, Page>, g1: Shape, ram2: map<int, Page>, g2: Shape, part: Part, f: int)
    requires Took(ram1, g1, ram2, g2, part) && f in g1.use && g1.use[f] == Held
    ensures f in g2.use && g2.use[f] == Held && f in ram2 && f in ram1 && ram2[f] == ram1[f]
  {
    assert TookAt(ram1, g1.use, ram2, g2.use, part, f);
  }

  /** Page p is mapped with this permission to a frame of its own that holds `page`. */
  ghost predicate Fresh(ram: map<int, Page>, g: Shape, p: Place, perm: int, page: Page) {
    && p in g.leaf && OwnsFrame(g, p) && g.leaf[p] == Pte(FrameOf(g.leaf[p]), perm)
    && FrameOf(g.leaf[p]) in ram && ram[FrameOf(g.leaf[p])] == page
  }

  /** kalloc() takes one frame. */
  lemma CostFrame(g: Shape, g': Shape, root: int)
    requires g.free != [] && g'.nodes == g.nodes && |g'.free| == |g.free| - 1
    ensures Cost(g, g', root, 1, {})
  {
  }

  lemma ShortOfFrames(g: Shape, root: int, vpn: int)
    requires g.free == []
    ensures Short(g, root, 1, PathTo(vpn))
  {
  }

  lemma SameCost(g0: Shape, g: Shape, g': Shape, root: int, n: nat, tables: set<Spot>)
    requires Cost(g0, g, root, n, tables) && g'.nodes == g.nodes && g'.free == g.free
    ensures Cost(g0, g', root, n, tables)
  {
  }

  lemma NewPageCost(g0: Shape, g1: Shape, g2: Shape, g3: Shape, root: int, vpn: int)
    requires g0.free != [] && g1.nodes == g0.nodes && |g1.free| == |g0.free| - 1
    requires Cost(g1, g2, root, 0, PathTo(vpn)) && g3.nodes == g2.nodes && g3.free == g2.free
    ensures Cost(g0, g3, root, 1, PathTo(vpn))
  {
    CostFrame(g0, g1, root);
    CostTwice(g0, g1, g2, root, 1, {}, 0, PathTo(vpn));
    SameCost(g0, g2, g3, root, 1, PathTo(vpn));
    assert {} + PathTo(vpn) == PathTo(vpn);
  }

  lemma NewPageShort(g0: Shape, g1: Shape, root: int, vpn: int)
    requires g0.free != [] && g1.nodes == g0.nodes && |g1.free| == |g0.free| - 1
    requires Short(g1, root, 0, PathTo(vpn))
    ensures Short(g0, root, 1, PathTo(vpn))
  {
    CostFrame(g0, g1, root);
    CostThenShort(g0, g1, root, 1, {}, 0, PathTo(vpn));
    assert {} + PathTo(vpn) == PathTo(vpn);
  }

  /** The common turn of uvmalloc(), uvmcopy() and vmfault(): a new frame with this
      content for an unmapped page; when frames or tables run out nothing but tables is
      kept. */
  method NewPage(m: Memory, root: int, va: int, perm: int, page: Page) returns (ok: bool)
    requires m.Valid() && Key(root, 2, 0) in m.g.nodes && 0 <= va < MAXVA && 0 <= perm < 1024
    requires |page| == WORDS
    requires Place(root, va / PGSIZE) !in m.g.leaf
    modifies m
    ensures m.Valid() && Key(root, 2, 0) in m.g.nodes
    ensures !ok ==> m.g.leaf == old(m.g).leaf && Took(old(m.ram), old(m.g), m.ram, m.g, Tables(root))
    ensures ok ==> Took(old(m.ram), old(m.g), m.ram, m.g, Both(root, va / PGSIZE, va / PGSIZE + 1))
    ensures ok ==> Fresh(m.ram, m.g, Place(root, va / PGSIZE), perm, page)
    ensures ok ==>
              m.g.leaf == old(m.g).leaf[Place(root, va / PGSIZE) := m.g.leaf[Place(root, va / PGSIZE)]]
    ensures if ok then Cost(old(m.g), m.g, root, 1, PathTo(va / PGSIZE))
            else Short(old(m.g), root, 1, PathTo(va / PGSIZE))
  {
    hide Cost, Short, Took;
    ghost var p := Place(root, va / PGSIZE);
    var f := m.Kalloc();
    if f == 0 {
      TookNothing(m.ram, m.head, m.g, Tables(root));
      ShortOfFrames(m.g, root, va / PGSIZE);
      return false;
    }
    m.Fill(f, page);
    ghost var ram1, g1 := m.ram, m.g;
    ok := m.MapPage(root, va, f, perm);
    NodeKept(ram1, g1, m.ram, m.g, Tables(root), Key(root, 2, 0));
    StillHeld(ram1, g1, m.ram, m.g, Tables(root), f);
    ghost var ram2, g2 := m.ram, m.g;
    PteParts(f, perm);
    if ok {
      OwnStep(m.ram, m.head, m.g, NO_KEY, f, Owned(p));
      HeldThenOwned(old(m.ram), old(m.head), old(m.g), ram1, ram2, g2, p);
      m.g := WithUse(m.g, f, Owned(p));
      NewPageCost(old(m.g), g1, g2, m.g, root, va / PGSIZE);
    } else {
      HeldThenFreed(old(m.ram), old(m.head), old(m.g), ram1, ram2, g2, Tables(root), Filled(JUNK1)[0 := m.head]);
      m.Kfree(f, NO_KEY);
      NewPageShort(old(m.g), g1, root, va / PGSIZE);
    }
  }

  // ----- growing and shrinking -----

  ghost predicate GrewAt(g0: Shape, ram: map<int, Page>, g: Shape, root: int, lo: int, hi: int, perm: int,
                         p: Place) {
    && (p in g.leaf <==> p in g0.leaf || InRange(p, root, lo, hi))
    && (p in g.leaf ==> if InRange(p, root, lo, hi) then Fresh(ram, g, p, perm, Filled(0))
        else p in g0.leaf && g.leaf[p] == g0.leaf[p])
  }

  /** Pages lo .. hi - 1 are new, zeroed and mapped to frames of their own; no other
      page of any root changed. */
  ghost predicate Grew(g0: Shape, ram: map<int, Page>, g: Shape, root: int, lo: int, hi: int, perm: int) {
    forall p {:trigger GrewAt(g0, ram, g, root, lo, hi, perm, p)} :: GrewAt(g0, ram, g, root, lo, hi, perm, p)
  }

  lemma GrewNone(g: Shape, ram: map<int, Page>, root: int, lo: int, perm: int)
    ensures Grew(g, ram, g, root, lo, lo, perm)
  {
    forall p ensures GrewAt(g, ram, g, root, lo, lo, perm, p) {
    }
  }

  lemma FreshKept(ram: map<int, Page>, g: Shape, ram': map<int, Page>, g': Shape, part: Part, p: Place,
                  perm: int, page: Page)
    requires Fresh(ram, g, p, perm, page) && Took(ram, g, ram', g', part) && p in g'.leaf
    requires g'.leaf[p] == g.leaf[p]
    ensures Fresh(ram', g', p, perm, page)
  {
    assert TookAt(ram, g.use, ram', g'.use, part, FrameOf(g.leaf[p]));
  }

  lemma GrewMore(g0: Shape, ram1: map<int, Page>, g1: Shape, ram: map<int, Page>, g: Shape, root: int,
                 lo: int, hi: int, perm: int)
    requires Grew(g0, ram1, g1, root, lo, hi, perm) && lo <= hi
    requires Took(ram1, g1, ram, g, Both(root, hi, hi + 1))
    requires Fresh(ram, g, Place(root, hi), perm, Filled(0))
    requires g.leaf == g1.leaf[Place(root, hi) := g.leaf[Place(root, hi)]]
    ensures Grew(g0, ram, g, root, lo, hi + 1, perm)
  {
    var hi' := hi + 1;
    forall p ensures GrewAt(g0, ram, g, root, lo, hi', perm, p) {
      assert GrewAt(g0, ram1, g1, root, lo, hi, perm, p);
      if p != Place(root, hi) && p in g.leaf && InRange(p, root, lo, hi) {
        FreshKept(ram1, g1, ram, g, Both(root, hi, hi + 1), p, perm, Filled(0));
      }
    }
  }

  /** Unmapped pages own nothing. */
  lemma UnmappedBorrowed(g: Shape, root: int, lo: int, hi: int)
    requires NodesOk(g) && Unmapped(g.leaf, root, lo, hi)
    ensures Borrowed(g, root, lo, hi)
  {
    forall f | f in g.use ensures !In(Pages(root, lo, hi), g.use[f]) {
      assert UseOk(g.nodes, g.leaf, g.use, f);
      assert g.use[f].Owned? ==> g.use[f].place == Place(g.use[f].place.root, g.use[f].place.vpn);
    }
  }

  /** uvmdealloc(): unmaps and frees the pages from newsz up to oldsz. */
  method Uvmdealloc(m: Memory, root: int, oldsz: int, newsz: int) returns (r: int)
    requires m.Valid() && Key(root, 2, 0) in m.g.nodes && 0 <= oldsz && 0 <= newsz
    requires RoundUp(oldsz) <= MAXVA
    requires Private(m.g, root, Ceil(newsz), Ceil(oldsz))
    modifies m
    ensures m.Valid() && m.g.nodes == old(m.g).nodes
    ensures r == if newsz >= oldsz then oldsz else newsz
    ensures newsz >= oldsz ==> unchanged(m)
    ensures newsz <= oldsz ==>
              m.g.leaf == UnmapRange(old(m.g).leaf, root, Ceil(newsz), Ceil(oldsz) - Ceil(newsz))
    ensures newsz <= oldsz ==>
              Gave(old(m.ram), old(m.g), m.ram, m.g, Pages(root, Ceil(newsz), Ceil(oldsz)))
  {
    GaveNothing(m.ram, m.head, m.g, m.ram, m.g, Pages(root, 0, 0));
    if Ceil(newsz) == Ceil(oldsz) {
      GaveNothing(m.ram, m.head, m.g, m.ram, m.g, Pages(root, Ceil(newsz), Ceil(oldsz)));
    }
    if newsz >= oldsz {
      return oldsz;
    }
    if RoundUp(newsz) < RoundUp(oldsz) {
      var npages := (RoundUp(oldsz) - RoundUp(newsz)) / PGSIZE;
      m.Uvmunmap(root, RoundUp(newsz), npages, true);
    }
    r := newsz;
  }

  lemma GrewPrivate(g0: Shape, ram1: map<int, Page>, g1: Shape, ram2: map<int, Page>, g2: Shape, root: int,
                    lo: int, hi: int, perm: int)
    requires Grew(g0, ram1, g1, root, lo, hi, perm) && Took(ram1, g1, ram2, g2, Tables(root))
    requires g2.leaf == g1.leaf
    ensures Private(g2, root, lo, hi)
  {
    forall v | lo <= v < hi && Place(root, v) in g2.leaf ensures OwnsFrame(g2, Place(root, v)) {
      assert GrewAt(g0, ram1, g1, root, lo, hi, perm, Place(root, v));
      FreshKept(ram1, g1, ram2, g2, Tables(root), Place(root, v), perm, Filled(0));
    }
  }

  lemma RolledBack(ram0: map<int, Page>, g0: Shape, ram1: map<int, Page>, g1: Shape, ram2: map<int, Page>, g2: Shape,
                   ram3: map<int, Page>, g3: Shape,
                   root: int, lo: int, hi: int, perm: int)
    requires NodesOk(g0) && Unmapped(g0.leaf, root, lo, hi) && lo <= hi
    requires Grew(g0, ram1, g1, root, lo, hi, perm) && g2.leaf == g1.leaf
    requires g3.leaf == UnmapRange(g2.leaf, root, lo, hi - lo)
    requires Took(ram0, g0, ram2, g2, Both(root, lo, hi))
    requires Gave(ram2, g2, ram3, g3, Pages(root, lo, hi))
    ensures g3.leaf == g0.leaf && Took(ram0, g0, ram3, g3, Tables(root))
  {
    forall p ensures (p in g3.leaf <==> p in g0.leaf) && (p in g3.leaf ==> g3.leaf[p] == g0.leaf[p]) {
      assert GrewAt(g0, ram1, g1, root, lo, hi, perm, p);
      UnmapRangeAt(g2.leaf, root, lo, hi - lo, p);
      assert p.root == root ==> p == Place(root, p.vpn);
    }
    UnmappedBorrowed(g0, root, lo, hi);
    forall f | f in g0.use ensures !In(Pages(root, lo, hi), g0.use[f]) {
      assert !In(Pages(root, lo, hi), g0.use[f]);
    }
    TookThenGave(ram0, g0, ram2, g2, ram3, g3, root, lo, hi);
  }

  /** uvmalloc() has made n pages from page number lo on. */
  ghost predicate Growing(ram0: map<int, Page>, g0: Shape, ram: map<int, Page>, g: Shape, root: int, lo: int, n: nat,
                          perm: int) {
    && Grew(g0, ram, g, root, lo, lo + n, perm) && Took(ram0, g0, ram, g, Both(root, lo, lo + n))
    && Cost(g0, g, root, n, RangePaths(lo, n))
  }

  lemma GrowingNone(ram: map<int, Page>, head: int, g: Shape, root: int, lo: int, perm: int)
    requires Ok(ram, head, g, NO_KEY)
    ensures Growing(ram, g, ram, g, root, lo, 0, perm)
  {
    TookNothing(ram, head, g, Both(root, lo, lo));
    GrewNone(g, ram, root, lo, perm);
    CostNothing(g, g, root, {});
  }

  lemma GrowingMore(ram0: map<int, Page>, g0: Shape, ram1: map<int, Page>, g1: Shape, ram: map<int, Page>, g: Shape,
                    root: int, lo: int, n: nat, perm: int)
    requires Growing(ram0, g0, ram1, g1, root, lo, n, perm)
    requires Took(ram1, g1, ram, g, Both(root, lo + n, lo + n + 1)) && Cost(g1, g, root, 1, PathTo(lo + n))
    requires Fresh(ram, g, Place(root, lo + n), perm, Filled(0))
    requires g.leaf == g1.leaf[Place(root, lo + n) := g.leaf[Place(root, lo + n)]]
    ensures Growing(ram0, g0, ram, g, root, lo, n + 1, perm)
  {
    var hi := lo + n;
    GrewMore(g0, ram1, g1, ram, g, root, lo, hi, perm);
    TookTwice(ram0, g0, ram1, g1, ram, g, Both(root, lo, hi), Both(root, hi, hi + 1), Both(root, lo, hi + 1));
    CostTwice(g0, g1, g, root, n, RangePaths(lo, n), 1, PathTo(hi));
  }

  /** The error path of uvmalloc(): the pages go back. */
  method UndoGrow(m: Memory, root: int, a: int, start: int, ghost lo: int, ghost n: nat, ghost perm: int,
                  ghost ram0: map<int, Page>, ghost g0: Shape, ghost ram1: map<int, Page>, ghost g1: Shape)
    requires m.Valid() && Key(root, 2, 0) in m.g.nodes && 0 <= start == lo * PGSIZE && a == (lo + n) * PGSIZE <= MAXVA
    requires NodesOk(g0) && Unmapped(g0.leaf, root, lo, lo + n)
    requires Growing(ram0, g0, ram1, g1, root, lo, n, perm)
    requires Took(ram1, g1, m.ram, m.g, Tables(root)) && m.g.leaf == g1.leaf
    modifies m
    ensures m.Valid() && m.g.nodes == old(m.g).nodes
    ensures m.g.leaf == g0.leaf && Took(ram0, g0, m.ram, m.g, Tables(root))
  {
    ghost var ram2, g2 := m.ram, m.g;
    TookTwice(ram0, g0, ram1, g1, ram2, g2, Both(root, lo, lo + n), Tables(root), Both(root, lo, lo + n));
    GrewPrivate(g0, ram1, g1, ram2, g2, root, lo, lo + n, perm);
    assert Ceil(a) == lo + n && Ceil(start) == lo;
    var _ := Uvmdealloc(m, root, a, start);
    RolledBack(ram0, g0, ram1, g1, ram2, g2, m.ram, m.g, root, lo, lo + n, perm);
  }

  lemma NextFree(g0: Shape, ram: map<int, Page>, g: Shape, root: int, lo: int, n: nat, hi: int, perm: int)
    requires Grew(g0, ram, g, root, lo, lo + n, perm) && Unmapped(g0.leaf, root, lo, hi) && lo + n < hi
    ensures Place(root, lo + n) !in g.leaf
  {
    assert GrewAt(g0, ram, g, root, lo, lo + n, perm, Place(root, lo + n));
  }

  /** Address a is that of page n of `all` from page number lo on, which end at newsz. */
  ghost predicate PageAt(lo: int, all: nat, n: nat, newsz: int, a: int) {
    && 0 <= lo && n <= all && a == (lo + n) * PGSIZE
    && (lo + all) * PGSIZE - PGSIZE < newsz <= (lo + all) * PGSIZE <= MAXVA
  }

  lemma PageAtEnd(lo: int, all: nat, n: nat, newsz: int, a: int)
    requires PageAt(lo, all, n, newsz, a)
    ensures a < newsz <==> n < all
    ensures n < all ==> 0 <= a < MAXVA && a / PGSIZE == lo + n && PageAt(lo, all, n + 1, newsz, a + PGSIZE)
  {
  }

  /** One turn of uvmalloc(); when it fails the pages have gone back. */
  method GrowTurn(m: Memory, root: int, a: int, start: int, perm: int, ghost lo: int, ghost n: nat, ghost all: nat,
                  ghost newsz: int, ghost ram0: map<int, Page>, ghost g0: Shape) returns (got: bool)
    requires m.Valid() && Key(root, 2, 0) in m.g.nodes
    requires PageAt(lo, all, 0, newsz, start) && PageAt(lo, all, n, newsz, a)
    requires NodesOk(g0) && Unmapped(g0.leaf, root, lo, lo + all) && n < all && 0 <= perm < 1024
    requires Growing(ram0, g0, m.ram, m.g, root, lo, n, perm)
    modifies m
    ensures m.Valid() && Key(root, 2, 0) in m.g.nodes
    ensures got ==> Growing(ram0, g0, m.ram, m.g, root, lo, n + 1, perm)
    ensures !got ==> m.g.leaf == g0.leaf && Took(ram0, g0, m.ram, m.g, Tables(root))
    ensures !got ==> Short(g0, root, all, RangePaths(lo, all))
  {
    hide Cost, Short, Grew, Took, Gave;
    ghost var ram1, g1 := m.ram, m.g;
    PageAtEnd(lo, all, n, newsz, a);
    NextFree(g0, ram1, g1, root, lo, n, lo + all, perm);
    got := NewPage(m, root, a, perm, Filled(0));
    if got {
      GrowingMore(ram0, g0, ram1, g1, m.ram, m.g, root, lo, n, perm);
    } else {
      UndoGrow(m, root, a, start, lo, n, perm, ram0, g0, ram1, g1);
      RangeShort(g0, g1, root, lo, n, n, all, 1, all);
    }
  }

  lemma PagesBetween(oldsz: int, newsz: int)
    requires 0 <= oldsz <= newsz && RoundUp(newsz) <= MAXVA
    ensures Ceil(oldsz) <= Ceil(newsz)
    ensures PageAt(Ceil(oldsz), Ceil(newsz) - Ceil(oldsz), 0, newsz, RoundUp(oldsz))
  {
  }

  /** The loop of uvmalloc(). */
  method GrowLoop(m: Memory, root: int, start: int, newsz: int, perm: int, ghost lo: int, ghost all: nat)
    returns (got: bool)
    requires m.Valid() && Key(root, 2, 0) in m.g.nodes && PageAt(lo, all, 0, newsz, start)
    requires 0 <= perm < 1024 && Unmapped(m.g.leaf, root, lo, lo + all)
    modifies m
    ensures m.Valid() && Key(root, 2, 0) in m.g.nodes
    ensures got ==> Growing(old(m.ram), old(m.g), m.ram, m.g, root, lo, all, perm)
    ensures !got ==> m.g.leaf == old(m.g).leaf && Took(old(m.ram), old(m.g), m.ram, m.g, Tables(root))
    ensures !got ==> Short(old(m.g), root, all, RangePaths(lo, all))
  {
    hide Cost, Grew, Took, Short;
    var a := start;
    ghost var n := 0;
    GrowingNone(m.ram, m.head, m.g, root, lo, perm);
    PageAtEnd(lo, all, 0, newsz, a);
    while a < newsz
      invariant n <= all && PageAt(lo, all, n, newsz, a) && (a < newsz <==> n < all)
      invariant m.Valid() && Key(root, 2, 0) in m.g.nodes
      invariant Growing(old(m.ram), old(m.g), m.ram, m.g, root, lo, n, perm)
      decreases all - n
    {
      PageAtEnd(lo, all, n, newsz, a);
      got := GrowTurn(m, root, a, start, perm, lo, n, all, newsz, old(m.ram), old(m.g));
      if !got {
        return;
      }
      a := a + PGSIZE;
      n := n + 1;
      PageAtEnd(lo, all, n, newsz, a);
    }
    got := true;
  }

  /** uvmalloc(): all the pages up to newsz, or, exactly if the free frames are too few for
      them and for the tables that are missing, none and every frame given back. */
  method Uvmalloc(m: Memory, root: int, oldsz: int, newsz: int, xperm: int) returns (r: int, ghost ok: bool)
    requires m.Valid() && Key(root, 2, 0) in m.g.nodes && 0 <= oldsz && 0 <= newsz
    requires RoundUp(oldsz) <= MAXVA && RoundUp(newsz) <= MAXVA
    requires xperm in {0, PTE_W, PTE_X, PTE_W + PTE_X}
    requires Unmapped(m.g.leaf, root, Ceil(oldsz), Ceil(newsz))
    modifies m
    ensures m.Valid() && Key(root, 2, 0) in m.g.nodes
    ensures newsz < oldsz ==> ok && r == oldsz && unchanged(m)
    ensures newsz >= oldsz ==> r == if ok then newsz else 0
    ensures ok && newsz >= oldsz ==>
              Grew(old(m.g), m.ram, m.g, root, Ceil(oldsz), Ceil(newsz), PTE_R + PTE_U + xperm)
    ensures ok && newsz >= oldsz ==>
              Took(old(m.ram), old(m.g), m.ram, m.g, Both(root, Ceil(oldsz), Ceil(newsz)))
    ensures !ok ==> m.g.leaf == old(m.g).leaf && Took(old(m.ram), old(m.g), m.ram, m.g, Tables(root))
    ensures newsz >= oldsz ==>
              (ok <==> !Short(old(m.g), root, Ceil(newsz) - Ceil(oldsz),
                              RangePaths(Ceil(oldsz), Ceil(newsz) - Ceil(oldsz))))
  {
    if newsz < oldsz {
      return oldsz, true;
    }
    PagesBetween(oldsz, newsz);
    var got := GrowLoop(m, root, RoundUp(oldsz), newsz, PTE_R + PTE_U + xperm, Ceil(oldsz),
                        Ceil(newsz) - Ceil(oldsz));
    r, ok := if got then newsz else 0, got;
    if ok {
      CostIsEnough(old(m.g), m.g, root, Ceil(newsz) - Ceil(oldsz),
                   RangePaths(Ceil(oldsz), Ceil(newsz) - Ceil(oldsz)));
    }
  }

  // ----- fork -----

  ghost predicate CopiedAt(ram0: map<int, Page>, g0: Shape, ram: map<int, Page>, g: Shape, from: int, to: int,
                           n: int, p: Place) {
    if InRange(p, to, 0, n) then
      var q := Place(from, p.vpn);
      (p in g.leaf <==> q in g0.leaf)
      && (p in g.leaf && FrameOf(g0.leaf[q]) in ram0 ==>
            Fresh(ram, g, p, FlagsOf(g0.leaf[q]), ram0[FrameOf(g0.leaf[q])]))
    else (p in g.leaf <==> p in g0.leaf) && (p in g.leaf ==> g.leaf[p] == g0.leaf[p])
  }

  /** The first n pages of `to` are copies of those of `from`: mapped when those are,
      with the same permissions and contents, in frames of their own; no other page of
      any root changed. */
  ghost predicate Copied(ram0: map<int, Page>, g0: Shape, ram: map<int, Page>, g: Shape, from: int, to: int,
                         n: int) {
    forall p {:trigger CopiedAt(ram0, g0, ram, g, from, to, n, p)} :: CopiedAt(ram0, g0, ram, g, from, to, n, p)
  }

  /** The first n pages of a root, where mapped, lie in data frames. */
  ghost predicate InData(g: Shape, root: int, n: int) {
    forall v {:trigger Place(root, v)} :: 0 <= v < n && Place(root, v) in g.leaf ==>
      HasData(g.use, FrameOf(g.leaf[Place(root, v)]))
  }

  lemma CopiedNone(ram: map<int, Page>, g: Shape, from: int, to: int)
    ensures Copied(ram, g, ram, g, from, to, 0)
  {
    forall p ensures CopiedAt(ram, g, ram, g, from, to, 0, p) {
    }
  }

  /** A page that the parent lacks is skipped. */
  lemma CopiedSkip(ram0: map<int, Page>, g0: Shape, ram: map<int, Page>, g: Shape, from: int, to: int, n: int)
    requires Copied(ram0, g0, ram, g, from, to, n) && Unmapped(g0.leaf, to, n, n + 1)
    requires Place(from, n) !in g0.leaf
    ensures Copied(ram0, g0, ram, g, from, to, n + 1)
  {
    var n' := n + 1;
    forall p ensures CopiedAt(ram0, g0, ram, g, from, to, n', p) {
      assert CopiedAt(ram0, g0, ram, g, from, to, n, p);
      assert p.root == to ==> p == Place(to, p.vpn);
    }
  }

  lemma CopiedMore(ram0: map<int, Page>, g0: Shape, ram1: map<int, Page>, g1: Shape, ram: map<int, Page>,
                   g: Shape, from: int, to: int, n: int)
    requires Copied(ram0, g0, ram1, g1, from, to, n) && 0 <= n && Place(from, n) in g0.leaf
    requires FrameOf(g0.leaf[Place(from, n)]) in ram0
    requires Took(ram1, g1, ram, g, Both(to, n, n + 1))
    requires Fresh(ram, g, Place(to, n), FlagsOf(g0.leaf[Place(from, n)]), ram0[FrameOf(g0.leaf[Place(from, n)])])
    requires g.leaf == g1.leaf[Place(to, n) := g.leaf[Place(to, n)]]
    ensures Copied(ram0, g0, ram, g, from, to, n + 1)
  {
    var n' := n + 1;
    forall p ensures CopiedAt(ram0, g0, ram, g, from, to, n', p) {
      assert CopiedAt(ram0, g0, ram1, g1, from, to, n, p);
      var q := Place(from, p.vpn);
      if p != Place(to, n) && p in g.leaf && InRange(p, to, 0, n) && FrameOf(g0.leaf[q]) in ram0 {
        FreshKept(ram1, g1, ram, g, Both(to, n, n'), p, FlagsOf(g0.leaf[q]), ram0[FrameOf(g0.leaf[q])]);
      }
    }
  }

  ghost predicate KeptData(ram0: map<int, Page>, ram: map<int, Page>, g: Shape, f: int) {
    HasData(g.use, f) && f in ram && f in ram0 && ram[f] == ram0[f]
  }

  /** Where the parent's page is while the child is being filled. */
  lemma ParentKept(ram0: map<int, Page>, g0: Shape, ram: map<int, Page>, g: Shape, from: int, to: int, n: int,
                   m: int)
    requires Copied(ram0, g0, ram, g, from, to, n) && from != to
    requires Took(ram0, g0, ram, g, Both(to, 0, n)) && InData(g0, from, m) && 0 <= n < m
    ensures Place(from, n) in g.leaf <==> Place(from, n) in g0.leaf
    ensures Place(to, n) in g.leaf <==> Place(to, n) in g0.leaf
    ensures Place(from, n) in g.leaf ==>
              g.leaf[Place(from, n)] == g0.leaf[Place(from, n)]
                  && KeptData(ram0, ram, g, FrameOf(g0.leaf[Place(from, n)]))
  {
    assert CopiedAt(ram0, g0, ram, g, from, to, n, Place(from, n));
    assert CopiedAt(ram0, g0, ram, g, from, to, n, Place(to, n));
    if Place(from, n) in g.leaf {
      assert TookAt(ram0, g0.use, ram, g.use, Both(to, 0, n), FrameOf(g0.leaf[Place(from, n)]));
    }
  }

  lemma CopiedPrivate(ram0: map<int, Page>, g0: Shape, ram1: map<int, Page>, g1: Shape, ram2: map<int, Page>,
                      g2: Shape, from: int, to: int, n: int)
    requires Copied(ram0, g0, ram1, g1, from, to, n) && Took(ram1, g1, ram2, g2, Tables(to))
    requires g2.leaf == g1.leaf
    requires InData(g0, from, n) && Unmapped(g0.leaf, to, 0, n) && FramesOk(ram0, g0.use)
    ensures Private(g2, to, 0, n)
  {
    forall v | 0 <= v < n && Place(to, v) in g2.leaf ensures OwnsFrame(g2, Place(to, v)) {
      assert CopiedAt(ram0, g0, ram1, g1, from, to, n, Place(to, v));
      var q := Place(from, v);
      assert HasData(g0.use, FrameOf(g0.leaf[q]));
      FreshKept(ram1, g1, ram2, g2, Tables(to), Place(to, v), FlagsOf(g0.leaf[q]), ram0[FrameOf(g0.leaf[q])]);
    }
  }

  lemma CopyRolledBack(ram0: map<int, Page>, g0: Shape, ram1: map<int, Page>, g1: Shape, ram2: map<int, Page>,
                       g2: Shape, ram3: map<int, Page>, g3: Shape,
                       from: int, to: int, n: int)
    requires NodesOk(g0) && Unmapped(g0.leaf, to, 0, n) && 0 <= n
    requires Copied(ram0, g0, ram1, g1, from, to, n) && g2.leaf == g1.leaf
    requires g3.leaf == UnmapRange(g2.leaf, to, 0, n)
    requires Took(ram0, g0, ram2, g2, Both(to, 0, n)) && Gave(ram2, g2, ram3, g3, Pages(to, 0, n))
    ensures g3.leaf == g0.leaf && Took(ram0, g0, ram3, g3, Tables(to))
  {
    forall p ensures (p in g3.leaf <==> p in g0.leaf) && (p in g3.leaf ==> g3.leaf[p] == g0.leaf[p]) {
      assert CopiedAt(ram0, g0, ram1, g1, from, to, n, p);
      UnmapRangeAt(g2.leaf, to, 0, n, p);
      assert p.root == to ==> p == Place(to, p.vpn);
    }
    UnmappedBorrowed(g0, to, 0, n);
    forall f | f in g0.use ensures !In(Pages(to, 0, n), g0.use[f]) {
      assert !In(Pages(to, 0, n), g0.use[f]);
    }
    TookThenGave(ram0, g0, ram2, g2, ram3, g3, to, 0, n);
  }

  /** walk() for a lookup: the entry for va, valid exactly when the page is mapped. */
  method Lookup(m: Memory, root: int, va: int) returns (pte: int)
    requires m.Valid() && Key(root, 2, 0) in m.g.nodes && 0 <= va < MAXVA
    modifies m
    ensures unchanged(m)
    ensures IsValid(pte) <==> Place(root, va / PGSIZE) in m.g.leaf
    ensures IsValid(pte) ==> pte == m.g.leaf[Place(root, va / PGSIZE)]
  {
    var t, e := m.Walk(root, va, false);
    if t == 0 {
      LeafNeeds(m.g, root, va / PGSIZE, 0);
      assert Up(va / PGSIZE, 1) == Up(va / PGSIZE, 0) / WORDS;
      return 0;
    }
    EntryIsLeaf(m.ram, m.g, root, va / PGSIZE);
    pte := m.ram[t][e];
  }

  /** The error path of uvmcopy(). */
  method UndoCopy(m: Memory, ghost from: int, to: int, i: int, ghost n: int,
                  ghost ram0: map<int, Page>, ghost g0: Shape, ghost ram1: map<int, Page>, ghost g1: Shape)
    requires m.Valid() && Key(to, 2, 0) in m.g.nodes && i == n * PGSIZE && 0 <= n && i <= MAXVA
    requires FramesOk(ram0, g0.use) && NodesOk(g0) && InData(g0, from, n) && Unmapped(g0.leaf, to, 0, n)
    requires Copied(ram0, g0, ram1, g1, from, to, n) && Took(ram0, g0, ram1, g1, Both(to, 0, n))
    requires Took(ram1, g1, m.ram, m.g, Tables(to)) && m.g.leaf == g1.leaf
    modifies m
    ensures m.Valid() && m.g.nodes == old(m.g).nodes
    ensures m.g.leaf == g0.leaf && Took(ram0, g0, m.ram, m.g, Tables(to))
  {
    ghost var ram2, g2 := m.ram, m.g;
    TookTwice(ram0, g0, ram1, g1, ram2, g2, Both(to, 0, n), Tables(to), Both(to, 0, n));
    CopiedPrivate(ram0, g0, ram1, g1, ram2, g2, from, to, n);
    m.Uvmunmap(to, 0, i / PGSIZE, true);
    CopyRolledBack(ram0, g0, ram1, g1, ram2, g2, m.ram, m.g, from, to, n);
  }

  // ----- what fork and clone need -----

  /** How many of the first n pages of a root are mapped. */
  ghost function MappedCount(leaf: map<Place, int>, root: int, n: nat): nat {
    if n == 0 then 0 else MappedCount(leaf, root, n - 1) + if Place(root, n - 1) in leaf then 1 else 0
  }

  /** The tables that these need. */
  ghost function MappedPaths(leaf: map<Place, int>, root: int, n: nat): set<Spot> {
    if n == 0 then {}
    else MappedPaths(leaf, root, n - 1) + if Place(root, n - 1) in leaf then PathTo(n - 1) else {}
  }

  lemma {:induction false} MappedGrows(leaf: map<Place, int>, root: int, n: nat, m: nat)
    requires n <= m
    ensures MappedCount(leaf, root, n) <= MappedCount(leaf, root, m)
    ensures MappedPaths(leaf, root, n) <= MappedPaths(leaf, root, m)
  {
    if n < m {
      MappedGrows(leaf, root, n, m - 1);
    }
  }

  lemma UnionSize(a: set<Spot>, b: set<Spot>)
    ensures |a + b| <= |a| + |b|
  {
    assert a + b == a + (b - a);
    SubsetSize(b - a, b);
  }

  /** Each mapped page needs its frame and two tables at most. */
  lemma {:induction false} MappedBound(leaf: map<Place, int>, root: int, n: nat)
    ensures MappedCount(leaf, root, n) <= n && |MappedPaths(leaf, root, n)| <= 2 * n
    decreases n
  {
    if n > 0 {
      MappedBound(leaf, root, n - 1);
      var t: set<Spot> := if Place(root, n - 1) in leaf then PathTo(n - 1) else {};
      assert |t| <= 2;
      UnionSize(MappedPaths(leaf, root, n - 1), t);
    }
  }

  /** Some mapped page could not be had; `one` is 1 if each takes a frame of its own. */
  lemma MappedShort(g0: Shape, g1: Shape, leaf: map<Place, int>, from: int, to: int, n: nat, all: nat, one: bool)
    requires n < all && Place(from, n) in leaf
    requires Cost(g0, g1, to, if one then MappedCount(leaf, from, n) else 0, MappedPaths(leaf, from, n))
    requires Short(g1, to, if one then 1 else 0, PathTo(n))
    ensures Short(g0, to, if one then MappedCount(leaf, from, all) else 0, MappedPaths(leaf, from, all))
  {
    var spent := if one then MappedCount(leaf, from, n) else 0;
    var next := if one then 1 else 0;
    CostThenShort(g0, g1, to, spent, MappedPaths(leaf, from, n), next, PathTo(n));
    MappedGrows(leaf, from, n + 1, all);
    ShortMore(g0, to, spent + next, MappedPaths(leaf, from, n + 1),
              if one then MappedCount(leaf, from, all) else 0, MappedPaths(leaf, from, all));
  }

  lemma MappedNext(g0: Shape, g1: Shape, g: Shape, leaf: map<Place, int>, from: int, to: int, n: nat, one: bool)
    requires Cost(g0, g1, to, if one then MappedCount(leaf, from, n) else 0, MappedPaths(leaf, from, n))
    requires if Place(from, n) in leaf then Cost(g1, g, to, if one then 1 else 0, PathTo(n)) else g == g1
    ensures Cost(g0, g, to, if one then MappedCount(leaf, from, n + 1) else 0, MappedPaths(leaf, from, n + 1))
  {
    if Place(from, n) in leaf {
      CostTwice(g0, g1, g, to, if one then MappedCount(leaf, from, n) else 0, MappedPaths(leaf, from, n),
                if one then 1 else 0, PathTo(n));
    } else {
      assert MappedPaths(leaf, from, n + 1) == MappedPaths(leaf, from, n);
    }
  }

  /** uvmcopy() has come to page number n. */
  ghost predicate Copying(ram0: map<int, Page>, g0: Shape, ram: map<int, Page>, g: Shape, from: int, to: int, n: nat) {
    && Copied(ram0, g0, ram, g, from, to, n) && Took(ram0, g0, ram, g, Both(to, 0, n))
    && Cost(g0, g, to, MappedCount(g0.leaf, from, n), MappedPaths(g0.leaf, from, n))
  }

  lemma CopyingNone(ram: map<int, Page>, head: int, g: Shape, from: int, to: int)
    requires Ok(ram, head, g, NO_KEY)
    ensures Copying(ram, g, ram, g, from, to, 0)
  {
    TookNothing(ram, head, g, Both(to, 0, 0));
    CopiedNone(ram, g, from, to);
    CostNothing(g, g, to, {});
  }

  lemma CopyingSkip(ram0: map<int, Page>, g0: Shape, ram: map<int, Page>, head: int, g: Shape, from: int, to: int,
                    n: nat)
    requires Ok(ram, head, g, NO_KEY) && Copying(ram0, g0, ram, g, from, to, n) && Unmapped(g0.leaf, to, n, n + 1)
    requires Place(from, n) !in g0.leaf
    ensures Copying(ram0, g0, ram, g, from, to, n + 1)
  {
    CopiedSkip(ram0, g0, ram, g, from, to, n);
    TookNothing(ram, head, g, Both(to, 0, 0));
    TookTwice(ram0, g0, ram, g, ram, g, Both(to, 0, n), Both(to, 0, 0), Both(to, 0, n + 1));
    MappedNext(g0, g, g, g0.leaf, from, to, n, true);
  }

  lemma CopyingMore(ram0: map<int, Page>, g0: Shape, ram1: map<int, Page>, g1: Shape, ram: map<int, Page>, g: Shape,
                    from: int, to: int, n: nat)
    requires Copying(ram0, g0, ram1, g1, from, to, n) && Place(from, n) in g0.leaf
    requires FrameOf(g0.leaf[Place(from, n)]) in ram0
    requires Took(ram1, g1, ram, g, Both(to, n, n + 1)) && Cost(g1, g, to, 1, PathTo(n))
    requires Fresh(ram, g, Place(to, n), FlagsOf(g0.leaf[Place(from, n)]), ram0[FrameOf(g0.leaf[Place(from, n)])])
    requires g.leaf == g1.leaf[Place(to, n) := g.leaf[Place(to, n)]]
    ensures Copying(ram0, g0, ram, g, from, to, n + 1)
  {
    CopiedMore(ram0, g0, ram1, g1, ram, g, from, to, n);
    TookTwice(ram0, g0, ram1, g1, ram, g, Both(to, 0, n), Both(to, n, n + 1), Both(to, 0, n + 1));
    MappedNext(g0, g1, g, g0.leaf, from, to, n, true);
  }

  /** One turn of uvmcopy(); when it fails the copies have gone back. */
  method CopyTurn(m: Memory, from: int, to: int, i: int, ghost n: nat, ghost all: nat, ghost ram0: map<int, Page>,
                  ghost g0: Shape) returns (ok: bool)
    requires m.Valid() && Key(from, 2, 0) in m.g.nodes && Key(to, 2, 0) in m.g.nodes && from != to
    requires i == n * PGSIZE < MAXVA && n < all && FramesOk(ram0, g0.use) && NodesOk(g0)
    requires InData(g0, from, all) && Unmapped(g0.leaf, to, 0, all) && Copying(ram0, g0, m.ram, m.g, from, to, n)
    modifies m
    ensures m.Valid() && Key(to, 2, 0) in m.g.nodes
    ensures ok ==> Key(from, 2, 0) in m.g.nodes && Copying(ram0, g0, m.ram, m.g, from, to, n + 1)
    ensures !ok ==> m.g.leaf == g0.leaf && Took(ram0, g0, m.ram, m.g, Tables(to))
    ensures !ok ==> Short(g0, to, MappedCount(g0.leaf, from, all), MappedPaths(g0.leaf, from, all))
  {
    hide Cost, Short, Took;
    ghost var ram1, g1 := m.ram, m.g;
    ParentKept(ram0, g0, ram1, g1, from, to, n, all);
    var pte := Lookup(m, from, i);
    if !IsValid(pte) {
      CopyingSkip(ram0, g0, ram1, m.head, g1, from, to, n);
      return true;
    }
    assert 0 <= FlagsOf(pte) < 1024;
    var page := m.ram[FrameOf(pte)];
    assert |page| == WORDS;
    ok := NewPage(m, to, i, FlagsOf(pte), page);
    if ok {
      NodeKept(ram1, g1, m.ram, m.g, Both(to, n, n + 1), Key(from, 2, 0));
      CopyingMore(ram0, g0, ram1, g1, m.ram, m.g, from, to, n);
    } else {
      UndoCopy(m, from, to, i, n, ram0, g0, ram1, g1);
      MappedShort(g0, g1, g0.leaf, from, to, n, all, true);
    }
  }

  /** uvmcopy(): a copy of the first Ceil(sz) pages, or, exactly if the free frames are too
      few for the copies and the tables that are missing, every frame given back. */
  method Uvmcopy(m: Memory, from: int, to: int, sz: int) returns (ok: bool)
    requires m.Valid() && Key(from, 2, 0) in m.g.nodes && Key(to, 2, 0) in m.g.nodes && from != to
    requires 0 <= sz && RoundUp(sz) <= MAXVA
    requires InData(m.g, from, Ceil(sz)) && Unmapped(m.g.leaf, to, 0, Ceil(sz))
    modifies m
    ensures m.Valid() && Key(to, 2, 0) in m.g.nodes
    ensures ok ==> Copied(old(m.ram), old(m.g), m.ram, m.g, from, to, Ceil(sz))
    ensures ok ==> Took(old(m.ram), old(m.g), m.ram, m.g, Both(to, 0, Ceil(sz)))
    ensures !ok ==> m.g.leaf == old(m.g).leaf && Took(old(m.ram), old(m.g), m.ram, m.g, Tables(to))
    ensures ok <==>
            !Short(old(m.g), to, MappedCount(old(m.g).leaf, from, Ceil(sz)), MappedPaths(old(m.g).leaf, from, Ceil(sz)))
  {
    hide Cost, Short, Took;
    var i := 0;
    ghost var n := 0;
    CopyingNone(m.ram, m.head, m.g, from, to);
    while i < sz
      invariant i == n * PGSIZE && 0 <= n <= Ceil(sz) && m.Valid() && Key(to, 2, 0) in m.g.nodes
      invariant Key(from, 2, 0) in m.g.nodes && Copying(old(m.ram), old(m.g), m.ram, m.g, from, to, n)
      decreases sz - i
    {
      ok := CopyTurn(m, from, to, i, n, Ceil(sz), old(m.ram), old(m.g));
      if !ok {
        return;
      }
      i := i + PGSIZE;
      n := n + 1;
    }
    ok := true;
    CostIsEnough(old(m.g), m.g, to, MappedCount(old(m.g).leaf, from, n), MappedPaths(old(m.g).leaf, from, n));
  }

  // ----- threads -----

  ghost predicate SharedAt(g0: Shape, g: Shape, from: int, to: int, n: int, p: Place) {
    if InRange(p, to, 0, n) then
      (p in g.leaf <==> Place(from, p.vpn) in g0.leaf) && (p in g.leaf ==> g.leaf[p] == g0.leaf[Place(from, p.vpn)])
    else (p in g.leaf <==> p in g0.leaf) && (p in g.leaf ==> g.leaf[p] == g0.leaf[p])
  }

  /** The first n pages of `to` are those of `from`: the same frames and permissions; no
      other page of any root changed. */
  ghost predicate Shared(g0: Shape, g: Shape, from: int, to: int, n: int) {
    forall p {:trigger SharedAt(g0, g, from, to, n, p)} :: SharedAt(g0, g, from, to, n, p)
  }

  lemma SharedNone(g: Shape, from: int, to: int)
    ensures Shared(g, g, from, to, 0)
  {
    forall p ensures SharedAt(g, g, from, to, 0, p) {
    }
  }

  lemma SharedMore(g0: Shape, g1: Shape, g: Shape, from: int, to: int, n: int)
    requires Shared(g0, g1, from, to, n) && Unmapped(g0.leaf, to, n, n + 1) && 0 <= n
    requires g.leaf == if Place(from, n) in g0.leaf then g1.leaf[Place(to, n) := g0.leaf[Place(from, n)]]
               else g1.leaf
    ensures Shared(g0, g, from, to, n + 1)
  {
    var n' := n + 1;
    forall p ensures SharedAt(g0, g, from, to, n', p) {
      assert SharedAt(g0, g1, from, to, n, p);
      assert p.root == to ==> p == Place(to, p.vpn);
    }
  }

  lemma ShareRolledBack(g0: Shape, g1: Shape, g: Shape, from: int, to: int, n: int)
    requires Shared(g0, g1, from, to, n) && Unmapped(g0.leaf, to, 0, n) && 0 <= n
    requires g.leaf == UnmapRange(g1.leaf, to, 0, n)
    ensures g.leaf == g0.leaf
  {
    forall p ensures (p in g.leaf <==> p in g0.leaf) && (p in g.leaf ==> g.leaf[p] == g0.leaf[p]) {
      assert SharedAt(g0, g1, from, to, n, p);
      UnmapRangeAt(g1.leaf, to, 0, n, p);
      assert p.root == to ==> p == Place(to, p.vpn);
    }
  }

  lemma PteWhole(pte: int)
    requires IsValid(pte)
    ensures Pte(FrameOf(pte), FlagsOf(pte)) == pte
  {
    Low16(FrameOf(pte), FlagsOf(pte));
    Parity(pte);
    Parity(FlagsOf(pte));
  }

  lemma StillBorrowed(ram: map<int, Page>, g: Shape, ram': map<int, Page>, g': Shape, root: int, lo: int,
                      hi: int)
    requires Borrowed(g, root, lo, hi) && Took(ram, g, ram', g', Tables(root))
    ensures Borrowed(g', root, lo, hi)
  {
    forall f | f in g'.use ensures !In(Pages(root, lo, hi), g'.use[f]) {
      assert TookAt(ram, g.use, ram', g'.use, Tables(root), f);
    }
  }

  lemma BorrowedGaveNothing(ram0: map<int, Page>, g0: Shape, ram1: map<int, Page>, g1: Shape,
                            ram2: map<int, Page>, g2: Shape, root: int, lo: int, hi: int)
    requires Took(ram0, g0, ram1, g1, Tables(root)) && Gave(ram1, g1, ram2, g2, Pages(root, lo, hi))
    requires Borrowed(g0, root, lo, hi)
    ensures Took(ram0, g0, ram2, g2, Tables(root))
  {
    forall f ensures TookAt(ram0, g0.use, ram2, g2.use, Tables(root), f) {
      assert TookAt(ram0, g0.use, ram1, g1.use, Tables(root), f)
          && GaveAt(ram1, g1.use, ram2, g2.use, Pages(root, lo, hi), f);
    }
  }

  /** The error path of uvmshare(). */
  method UndoShare(m: Memory, ghost from: int, to: int, i: int, ghost n: int, ghost ram0: map<int, Page>,
                   ghost g0: Shape, ghost g1: Shape)
    requires m.Valid() && Key(to, 2, 0) in m.g.nodes && i == n * PGSIZE && 0 <= n && i <= MAXVA
    requires NodesOk(g0) && Unmapped(g0.leaf, to, 0, n) && Shared(g0, g1, from, to, n)
    requires m.g.leaf == g1.leaf
    requires Took(ram0, g0, m.ram, m.g, Tables(to))
    modifies m
    ensures m.Valid() && m.g.nodes == old(m.g).nodes
    ensures m.g.leaf == g0.leaf && Took(ram0, g0, m.ram, m.g, Tables(to))
  {
    UnmappedBorrowed(g0, to, 0, n);
    StillBorrowed(ram0, g0, m.ram, m.g, to, 0, n);
    m.Uvmunmap(to, 0, i / PGSIZE, false);
    ShareRolledBack(g0, g1, m.g, from, to, n);
    BorrowedGaveNothing(ram0, g0, old(m.ram), old(m.g), m.ram, m.g, to, 0, n);
  }

  /** uvmshare() has come to page number n. */
  ghost predicate Sharing(ram0: map<int, Page>, g0: Shape, ram: map<int, Page>, g: Shape, from: int, to: int, n: nat) {
    && Shared(g0, g, from, to, n) && Took(ram0, g0, ram, g, Tables(to))
    && Cost(g0, g, to, 0, MappedPaths(g0.leaf, from, n))
  }

  lemma SharingNone(ram: map<int, Page>, head: int, g: Shape, from: int, to: int)
    requires Ok(ram, head, g, NO_KEY)
    ensures Sharing(ram, g, ram, g, from, to, 0)
  {
    TookNothing(ram, head, g, Tables(to));
    SharedNone(g, from, to);
    CostNothing(g, g, to, {});
  }

  lemma SharingSkip(ram0: map<int, Page>, g0: Shape, ram: map<int, Page>, g: Shape, from: int, to: int, n: nat)
    requires Sharing(ram0, g0, ram, g, from, to, n) && Unmapped(g0.leaf, to, n, n + 1) && Place(from, n) !in g0.leaf
    ensures Sharing(ram0, g0, ram, g, from, to, n + 1)
  {
    SharedMore(g0, g, g, from, to, n);
    MappedNext(g0, g, g, g0.leaf, from, to, n, false);
  }

  lemma SharingMore(ram0: map<int, Page>, g0: Shape, ram1: map<int, Page>, g1: Shape, ram: map<int, Page>, g: Shape,
                    from: int, to: int, n: nat)
    requires Sharing(ram0, g0, ram1, g1, from, to, n) && Unmapped(g0.leaf, to, n, n + 1) && Place(from, n) in g0.leaf
    requires Took(ram1, g1, ram, g, Tables(to)) && Cost(g1, g, to, 0, PathTo(n))
    requires g.leaf == g1.leaf[Place(to, n) := g0.leaf[Place(from, n)]]
    ensures Sharing(ram0, g0, ram, g, from, to, n + 1)
  {
    SharedMore(g0, g1, g, from, to, n);
    TookTwice(ram0, g0, ram1, g1, ram, g, Tables(to), Tables(to), Tables(to));
    MappedNext(g0, g1, g, g0.leaf, from, to, n, false);
  }

  /** One turn of uvmshare(); when it fails nothing stays mapped. */
  method ShareTurn(m: Memory, from: int, to: int, i: int, ghost n: nat, ghost all: nat, ghost ram0: map<int, Page>,
                   ghost g0: Shape) returns (ok: bool)
    requires m.Valid() && Key(from, 2, 0) in m.g.nodes && Key(to, 2, 0) in m.g.nodes && from != to
    requires i == n * PGSIZE < MAXVA && n < all && NodesOk(g0) && Unmapped(g0.leaf, to, 0, all)
    requires Sharing(ram0, g0, m.ram, m.g, from, to, n)
    modifies m
    ensures m.Valid() && Key(to, 2, 0) in m.g.nodes
    ensures ok ==> Key(from, 2, 0) in m.g.nodes && Sharing(ram0, g0, m.ram, m.g, from, to, n + 1)
    ensures !ok ==> m.g.leaf == g0.leaf && Took(ram0, g0, m.ram, m.g, Tables(to))
    ensures !ok ==> Short(g0, to, 0, MappedPaths(g0.leaf, from, all))
  {
    ghost var ram1, g1 := m.ram, m.g;
    assert i / PGSIZE == n;
    assert SharedAt(g0, g1, from, to, n, Place(from, n)) && SharedAt(g0, g1, from, to, n, Place(to, n));
    var pte := Lookup(m, from, i);
    if !IsValid(pte) {
      SharingSkip(ram0, g0, ram1, g1, from, to, n);
      return true;
    }
    PteWhole(pte);
    ok := m.MapPage(to, i, FrameOf(pte), FlagsOf(pte));
    NodeKept(ram1, g1, m.ram, m.g, Tables(to), Key(to, 2, 0));
    NodeKept(ram1, g1, m.ram, m.g, Tables(to), Key(from, 2, 0));
    if ok {
      SharingMore(ram0, g0, ram1, g1, m.ram, m.g, from, to, n);
    } else {
      TookTwice(ram0, g0, ram1, g1, m.ram, m.g, Tables(to), Tables(to), Tables(to));
      UndoShare(m, from, to, i, n, ram0, g0, g1);
      MappedShort(g0, g1, g0.leaf, from, to, n, all, false);
    }
  }

  /** uvmshare(): the thread's first Ceil(sz) pages alias the parent's; no frame but
      tables is taken.  It fails exactly if there are too few frames for those, and then
      nothing stays mapped. */
  method Uvmshare(m: Memory, from: int, to: int, sz: int) returns (ok: bool)
    requires m.Valid() && Key(from, 2, 0) in m.g.nodes && Key(to, 2, 0) in m.g.nodes && from != to
    requires 0 <= sz && RoundUp(sz) <= MAXVA
    requires Unmapped(m.g.leaf, to, 0, Ceil(sz))
    modifies m
    ensures m.Valid() && Key(to, 2, 0) in m.g.nodes
    ensures ok ==> Shared(old(m.g), m.g, from, to, Ceil(sz))
    ensures !ok ==> m.g.leaf == old(m.g).leaf
    ensures Took(old(m.ram), old(m.g), m.ram, m.g, Tables(to))
    ensures ok <==> !Short(old(m.g), to, 0, MappedPaths(old(m.g).leaf, from, Ceil(sz)))
  {
    hide Cost, Short, Took;
    var i := 0;
    ghost var n := 0;
    SharingNone(m.ram, m.head, m.g, from, to);
    while i < sz
      invariant i == n * PGSIZE && 0 <= n <= Ceil(sz) && m.Valid() && Key(to, 2, 0) in m.g.nodes
      invariant Key(from, 2, 0) in m.g.nodes && Sharing(old(m.ram), old(m.g), m.ram, m.g, from, to, n)
      decreases sz - i
    {
      ok := ShareTurn(m, from, to, i, n, Ceil(sz), old(m.ram), old(m.g));
      if !ok {
        return;
      }
      i := i + PGSIZE;
      n := n + 1;
    }
    ok := true;
    CostIsEnough(old(m.g), m.g, to, 0, MappedPaths(old(m.g).leaf, from, n));
  }

  // ----- whole address spaces -----

  /** A frame that kalloc() just gave names no root yet. */
  lemma FreshRoot(ram: map<int, Page>, g: Shape, f: int)
    requires NodesOk(g) && f in g.use && !g.use[f].Node?
    ensures NoLeaves(g, f) && (forall k {:trigger k in g.nodes} :: k in g.nodes ==> k.root != f)
    ensures forall h {:trigger g.use[h]} :: h in g.use ==>
              !(g.use[h].Node? && g.use[h].key.root == f) && !(g.use[h].Owned? && g.use[h].place.root == f)
  {
    forall k | k in g.nodes ensures k.root != f {
      AllUnderRoot(g, k);
      UnderNeeds(g, k, Key(k.root, 2, 0));
      assert NodeOk(g.use, g.nodes, Key(k.root, 2, 0));
    }
    forall p | p in g.leaf ensures p.root != f {
      assert LeafOk(g.nodes, g.leaf, p);
    }
    forall h | h in g.use
      ensures !(g.use[h].Node? && g.use[h].key.root == f)
      ensures !(g.use[h].Owned? && g.use[h].place.root == f)
    {
      assert UseOk(g.nodes, g.leaf, g.use, h);
    }
  }

  /** Nothing belongs to this root. */
  ghost predicate NoUse(g: Shape, root: int) {
    forall f {:trigger g.use[f]} :: f in g.use ==>
      !(g.use[f].Node? && g.use[f].key.root == root) && !(g.use[f].Owned? && g.use[f].place.root == root)
  }

  lemma OneSpot(g: Shape, g': Shape, root: int)
    requires (forall k :: k in g.nodes ==> k.root != root) && g'.nodes == g.nodes[Key(root, 2, 0) := root]
    ensures Have(g', root) == {Spot(2, 0)}
  {
    assert Key(root, 2, 0) in g'.nodes;
  }

  /** uvmcreate(): an empty address space, or 0 when no page is free. */
  method Uvmcreate(m: Memory) returns (root: int)
    requires m.Valid()
    modifies m
    ensures m.Valid() && m.g.leaf == old(m.g).leaf
    ensures root == 0 <==> old(m.g).free == []
    ensures root == 0 ==> unchanged(m)
    ensures root != 0 ==> Have(m.g, root) == {Spot(2, 0)} && |m.g.free| == |old(m.g).free| - 1
    ensures root != 0 ==> Key(root, 2, 0) in m.g.nodes && NoLeaves(m.g, root) && NoUse(old(m.g), root)
    ensures Took(old(m.ram), old(m.g), m.ram, m.g, Tables(root))
  {
    root := m.Kalloc();
    if root == 0 {
      TookNothing(m.ram, m.head, m.g, Tables(root));
      return;
    }
    m.Fill(root, Filled(0));
    FreshRoot(old(m.ram), old(m.g), root);
    FreshRoot(m.ram, m.g, root);
    ghost var k := Key(root, 2, 0);
    NewTable(m.ram, m.head, m.g, k, root);
    NoHoleAtTop(m.ram, m.head, WithNode(m.g, k, root), k);
    forall f ensures TookAt(old(m.ram), old(m.g).use, m.ram, WithNode(m.g, k, root).use, Tables(root), f) {
      assert LinkOk(old(m.ram), old(m.g).use, old(m.g).free, 0);
    }
    m.g := WithNode(m.g, k, root);
    OneSpot(old(m.g), m.g, root);
  }

  /** The pages of a root are all among lo .. hi - 1. */
  ghost predicate OnlyLeaves(g: Shape, root: int, lo: int, hi: int) {
    forall p {:trigger p in g.leaf} :: p in g.leaf && p.root == root ==> lo <= p.vpn < hi
  }

  /** The flat map without one root. */
  ghost predicate WithoutRoot(g0: Shape, g: Shape, root: int) {
    forall p {:trigger p in g.leaf} {:trigger p in g0.leaf} ::
        (p in g.leaf <==> p in g0.leaf && p.root != root) && (p in g.leaf ==> g.leaf[p] == g0.leaf[p])
  }

  lemma UnmapAll(g0: Shape, g: Shape, root: int, n: nat)
    requires OnlyLeaves(g0, root, 0, n) && g.leaf == UnmapRange(g0.leaf, root, 0, n)
    ensures NoLeaves(g, root) && WithoutRoot(g0, g, root)
  {
    forall p
      ensures (p in g.leaf <==> p in g0.leaf && p.root != root)
      ensures (p in g.leaf ==> g.leaf[p] == g0.leaf[p])
    {
      UnmapRangeAt(g0.leaf, root, 0, n, p);
    }
  }

  /** Pages and then tables: everything of the root. */
  lemma GaveAll(ram0: map<int, Page>, g0: Shape, ram1: map<int, Page>, g1: Shape, ram2: map<int, Page>,
                g2: Shape, root: int, n: nat)
    requires NodesOk(g0) && Gave(ram0, g0, ram1, g1, Pages(root, 0, n))
    requires Gave(ram1, g1, ram2, g2, Subtree(Key(root, 2, 0)))
    ensures Gave(ram0, g0, ram2, g2, Both(root, 0, n))
  {
    forall f | f in g0.use
      ensures In(Both(root, 0, n), g0.use[f]) <==>
                In(Pages(root, 0, n), g0.use[f]) || In(Subtree(Key(root, 2, 0)), g0.use[f])
    {
      assert UseOk(g0.nodes, g0.leaf, g0.use, f);
      if g0.use[f].Node? {
        AllUnderRoot(g0, g0.use[f].key);
      }
    }
    GaveTwice(ram0, g0, ram1, g1, ram2, g2, Pages(root, 0, n), Subtree(Key(root, 2, 0)), Both(root, 0, n));
  }

  /** uvmfree(), or for threads the same without freeing frames: the pages below sz and
      all tables go; every other root keeps its translations and frames. */
  method Uvmfree(m: Memory, root: int, sz: int, release: bool)
    requires m.Valid() && Key(root, 2, 0) in m.g.nodes && 0 <= sz && RoundUp(sz) <= MAXVA
    requires OnlyLeaves(m.g, root, 0, Ceil(sz))
    requires if release then Private(m.g, root, 0, Ceil(sz)) else Borrowed(m.g, root, 0, Ceil(sz))
    modifies m
    ensures m.Valid() && WithoutRoot(old(m.g), m.g, root)
    ensures (forall k :: k in m.g.nodes ==> k.root != root)
    ensures Gave(old(m.ram), old(m.g), m.ram, m.g, Both(root, 0, Ceil(sz)))
  {
    ghost var n := Ceil(sz);
    if sz > 0 {
      m.Uvmunmap(root, 0, RoundUp(sz) / PGSIZE, release);
    } else {
      GaveNothing(m.ram, m.head, m.g, m.ram, m.g, Pages(root, 0, 0));
    }
    UnmapAll(old(m.g), m.g, root, n);
    ghost var ram1, g1 := m.ram, m.g;
    assert NodeOk(m.g.use, m.g.nodes, Key(root, 2, 0));
    m.Freewalk(root, Key(root, 2, 0));
    NoHoleAtTop(m.ram, m.head, m.g, Key(root, 2, 0));
    GaveAll(old(m.ram), old(m.g), ram1, g1, m.ram, m.g, root, n);
    forall k | k in m.g.nodes ensures k.root != root {
      AllUnderRoot(m.g, k);
    }
  }

  /** vmfault(): a lazily allocated page appears, zeroed, on its first use. */
  method Vmfault(m: Memory, root: int, sz: int, va: int) returns (mem: int)
    requires m.Valid() && Key(root, 2, 0) in m.g.nodes && 0 <= va && sz <= TRAPFRAME
    modifies m
    ensures m.Valid() && Key(root, 2, 0) in m.g.nodes
    ensures va >= sz || Place(root, va / PGSIZE) in old(m.g).leaf ==> mem == 0 && unchanged(m)
    ensures mem == 0 ==>
              m.g.leaf == old(m.g).leaf && Took(old(m.ram), old(m.g), m.ram, m.g, Tables(root))
    ensures mem != 0 ==> Took(old(m.ram), old(m.g), m.ram, m.g, Both(root, va / PGSIZE, va / PGSIZE + 1))
    ensures mem != 0 ==> Fresh(m.ram, m.g, Place(root, va / PGSIZE), PTE_W + PTE_U + PTE_R, Filled(0))
    ensures mem != 0 ==> mem == FrameOf(m.g.leaf[Place(root, va / PGSIZE)])
    ensures mem != 0 <==>
            va < sz && Place(root, va / PGSIZE) !in old(m.g).leaf && !Short(old(m.g), root, 1, PathTo(va / PGSIZE))
    ensures mem != 0 ==>
              m.g.leaf == old(m.g).leaf[Place(root, va / PGSIZE) := m.g.leaf[Place(root, va / PGSIZE)]]
  {
    TookNothing(m.ram, m.head, m.g, Tables(root));
    if va >= sz {
      return 0;
    }
    var page := va / PGSIZE * PGSIZE;
    assert page / PGSIZE == va / PGSIZE;
    var pte := Lookup(m, root, page);
    if IsValid(pte) {
      return 0;
    }
    var ok := NewPage(m, root, page, PTE_W + PTE_U + PTE_R, Filled(0));
    if !ok {
      return 0;
    }
    assert FramesOk(m.ram, m.g.use);
    CostIsEnough(old(m.g), m.g, root, 1, PathTo(va / PGSIZE));
    pte := Lookup(m, root, page);
    mem := FrameOf(pte);
  }

  lemma StillNoUse(ram0: map<int, Page>, g0: Shape, ram: map<int, Page>, g: Shape, root: int)
    requires NoUse(g0, root) && Took(ram0, g0, ram, g, Tables(root))
    ensures forall lo, hi {:trigger Borrowed(g, root, lo, hi)} :: Borrowed(g, root, lo, hi)
  {
    forall lo, hi ensures Borrowed(g, root, lo, hi) {
      forall f | f in g.use ensures !In(Pages(root, lo, hi), g.use[f]) {
        assert TookAt(ram0, g0.use, ram, g.use, Tables(root), f);
      }
    }
  }

  /** All data frames have the contents they had. */
  ghost predicate DataSame(ram0: map<int, Page>, g0: Shape, ram: map<int, Page>) {
    forall f {:trigger HasData(g0.use, f)} :: HasData(g0.use, f) ==>
      f in ram0 && f in ram && ram[f] == ram0[f]
  }

  /** What a root took and gave back, tables and pages, restores everything. */
  lemma WholeLife(ram0: map<int, Page>, g0: Shape, ram1: map<int, Page>, g1: Shape, ram2: map<int, Page>,
                  g2: Shape, root: int, n: int)
    requires Took(ram0, g0, ram1, g1, Tables(root)) || Took(ram0, g0, ram1, g1, Both(root, 0, n))
    requires Gave(ram1, g1, ram2, g2, Both(root, 0, n)) && NoUse(g0, root) && 0 <= n
    ensures g2.use == g0.use && DataSame(ram0, g0, ram2)
  {
    var part := if Took(ram0, g0, ram1, g1, Tables(root)) then Tables(root) else Both(root, 0, n);
    forall f ensures TookAt(ram0, g0.use, ram1, g1.use, Both(root, 0, n), f) {
      assert TookAt(ram0, g0.use, ram1, g1.use, part, f);
    }
    LifetimeConserves(ram0, g0, ram1, g1, ram2, g2, root, 0, n);
    forall f | HasData(g0.use, f) ensures f in ram0 && f in ram2 && ram2[f] == ram0[f] {
      assert TookAt(ram0, g0.use, ram1, g1.use, part, f) && GaveAt(ram1, g1.use, ram2, g2.use, Both(root, 0, n), f);
    }
  }

  /** The error paths of proc_pagetable(): the tables go back. */
  method DropTables(m: Memory, root: int, ghost ram0: map<int, Page>, ghost g0: Shape)
    requires m.Valid() && Key(root, 2, 0) in m.g.nodes && NoLeaves(m.g, root) && NoUse(g0, root)
    requires Took(ram0, g0, m.ram, m.g, Tables(root)) && m.g.leaf == g0.leaf
    modifies m
    ensures m.Valid() && m.g.leaf == g0.leaf && m.g.use == g0.use && DataSame(ram0, g0, m.ram)
  {
    ghost var ram1, g1 := m.ram, m.g;
    StillNoUse(ram0, g0, ram1, g1, root);
    Uvmfree(m, root, 0, false);
    assert m.g.leaf == g0.leaf;
    WholeLife(ram0, g0, ram1, g1, m.ram, m.g, root, 0);
  }

  const TRAMPOLINE_PAGE := TRAMPOLINE / PGSIZE
  const TRAPFRAME_PAGE := TRAPFRAME / PGSIZE

  /** The two pages every process has besides its memory. */
  function Special(leaf: map<Place, int>, root: int, code: int, tf: int): map<Place, int> {
    leaf[Place(root, TRAMPOLINE_PAGE) := Pte(code, PTE_R + PTE_X)][Place(root, TRAPFRAME_PAGE) := Pte(tf,
        PTE_R + PTE_W)]
  }

  /** The second half of proc_pagetable(). */
  method MapTrapframe(m: Memory, root: int, tf: int, ghost ram0: map<int, Page>, ghost g0: Shape)
    returns (ok: bool)
    requires m.Valid() && Key(root, 2, 0) in m.g.nodes && NoUse(g0, root) && NoLeaves(g0, root)
    requires Took(ram0, g0, m.ram, m.g, Tables(root)) && Place(root, TRAMPOLINE_PAGE) in m.g.leaf
    requires m.g.leaf == g0.leaf[Place(root, TRAMPOLINE_PAGE) := m.g.leaf[Place(root, TRAMPOLINE_PAGE)]]
    modifies m
    ensures m.Valid()
    ensures ok ==> Key(root, 2, 0) in m.g.nodes && Took(ram0, g0, m.ram, m.g, Tables(root))
    ensures ok ==> m.g.leaf == old(m.g).leaf[Place(root, TRAPFRAME_PAGE) := Pte(tf, PTE_R + PTE_W)]
    ensures !ok ==> m.g.leaf == g0.leaf && m.g.use == g0.use && DataSame(ram0, g0, m.ram)
    ensures if ok then Cost(old(m.g), m.g, root, 0, PathTo(TRAPFRAME_PAGE))
            else Short(old(m.g), root, 0, PathTo(TRAPFRAME_PAGE))
  {
    ok := m.MapPage(root, TRAPFRAME, tf, PTE_R + PTE_W);
    NodeKept(old(m.ram), old(m.g), m.ram, m.g, Tables(root), Key(root, 2, 0));
    TookTwice(ram0, g0, old(m.ram), old(m.g), m.ram, m.g, Tables(root), Tables(root), Tables(root));
    if !ok {
      ghost var ram1, g1 := m.ram, m.g;
      StillNoUse(ram0, g0, m.ram, m.g, root);
      assert Borrowed(m.g, root, TRAMPOLINE_PAGE, TRAMPOLINE_PAGE + 1);
      assert Borrowed(g0, root, TRAMPOLINE_PAGE, TRAMPOLINE_PAGE + 1);
      m.UnmapPage(root, TRAMPOLINE, false);
      assert m.g.leaf == g0.leaf;
      BorrowedGaveNothing(ram0, g0, ram1, g1, m.ram, m.g, root, TRAMPOLINE_PAGE, TRAMPOLINE_PAGE + 1);
      DropTables(m, root, ram0, g0);
    }
  }

  /** The tables of every process: its root, and those for the two special pages. */
  function TopPaths(): set<Spot> {
    {Spot(2, 0)} + PathTo(TRAMPOLINE_PAGE)
  }

  /** Both special pages are in the same tables, so three in all. */
  lemma TopThree()
    ensures PathTo(TRAPFRAME_PAGE) == PathTo(TRAMPOLINE_PAGE) && |TopPaths()| == 3
  {
    assert Up(TRAPFRAME_PAGE, 1) == TRAPFRAME_PAGE / WORDS && Up(TRAMPOLINE_PAGE, 1) == TRAMPOLINE_PAGE / WORDS;
    assert Up(TRAPFRAME_PAGE, 2) == TRAPFRAME_PAGE / WORDS / WORDS;
    assert Up(TRAMPOLINE_PAGE, 2) == TRAMPOLINE_PAGE / WORDS / WORDS;
    assert |TopPaths()| == 3;
  }

  lemma CostOfRoot(g0: Shape, g: Shape, root: int)
    requires Have(g0, root) == {} && Have(g, root) == {Spot(2, 0)} && |g.free| == |g0.free| - 1
    ensures Cost(g0, g, root, 0, {Spot(2, 0)})
  {
    assert {Spot(2, 0)} - {} == {Spot(2, 0)};
  }

  lemma HaveNone(g: Shape, root: int)
    requires NodesOk(g) && NoUse(g, root)
    ensures Have(g, root) == {}
  {
    forall k | k in g.nodes ensures k.root != root {
      assert NodeOk(g.use, g.nodes, k);
      var f := g.nodes[k];
      assert f in g.use && g.use[f] == Node(k);
    }
  }

  lemma FirstSpecial(g0: Shape, g1: Shape, g2: Shape, root: int, ok: bool)
    requires Cost(g0, g1, root, 0, {Spot(2, 0)}) && Have(g0, root) == {}
    requires if ok then Cost(g1, g2, root, 0, PathTo(TRAMPOLINE_PAGE)) else Short(g1, root, 0, PathTo(TRAMPOLINE_PAGE))
    ensures if ok then Cost(g0, g2, root, 0, TopPaths()) else |g0.free| < 3
  {
    TopThree();
    if ok {
      CostTwice(g0, g1, g2, root, 0, {Spot(2, 0)}, 0, PathTo(TRAMPOLINE_PAGE));
    } else {
      CostThenShort(g0, g1, root, 0, {Spot(2, 0)}, 0, PathTo(TRAMPOLINE_PAGE));
      assert TopPaths() - {} == TopPaths();
    }
  }

  /** The second special page needs no more tables. */
  lemma SecondFits(g0: Shape, g1: Shape, root: int)
    requires Cost(g0, g1, root, 0, TopPaths()) && Have(g0, root) == {}
    ensures !Short(g1, root, 0, PathTo(TRAPFRAME_PAGE)) && |g1.free| == |g0.free| - 3
    ensures forall g2: Shape :: Cost(g1, g2, root, 0, PathTo(TRAPFRAME_PAGE)) ==>
              Have(g2, root) == TopPaths() && |g2.free| == |g0.free| - 3
  {
    TopThree();
    assert Have(g1, root) == TopPaths() && TopPaths() - {} == TopPaths();
    assert PathTo(TRAPFRAME_PAGE) - Have(g1, root) == {};
    assert TopPaths() + PathTo(TRAPFRAME_PAGE) == TopPaths();
  }

  /** proc_pagetable(): an address space with the trampoline and the trapframe, neither open
      to user code, or, exactly with fewer than three free frames, 0 and every table given
      back. */
  method ProcPagetable(m: Memory, code: int, tf: int) returns (root: int)
    requires m.Valid()
    modifies m
    ensures m.Valid()
    ensures root != 0 <==> |old(m.g).free| >= 3
    ensures root == 0 ==>
              m.g.leaf == old(m.g).leaf && m.g.use == old(m.g).use && DataSame(old(m.ram), old(m.g), m.ram)
    ensures root != 0 ==>
              Key(root, 2, 0) in m.g.nodes && NoUse(old(m.g), root) && NoLeaves(old(m.g), root)
    ensures root != 0 ==> m.g.leaf == Special(old(m.g).leaf, root, code, tf)
    ensures root != 0 ==> Took(old(m.ram), old(m.g), m.ram, m.g, Tables(root))
    ensures root != 0 ==> Have(m.g, root) == TopPaths() && |m.g.free| == |old(m.g).free| - 3
  {
    root := Uvmcreate(m);
    if root == 0 {
      return;
    }
    HaveNone(old(m.g), root);
    ghost var ram1, g1 := m.ram, m.g;
    CostOfRoot(old(m.g), g1, root);
    var ok := m.MapPage(root, TRAMPOLINE, code, PTE_R + PTE_X);
    NodeKept(ram1, g1, m.ram, m.g, Tables(root), Key(root, 2, 0));
    TookTwice(old(m.ram), old(m.g), ram1, g1, m.ram, m.g, Tables(root), Tables(root), Tables(root));
    FirstSpecial(old(m.g), g1, m.g, root, ok);
    if !ok {
      DropTables(m, root, old(m.ram), old(m.g));
      return 0;
    }
    SecondFits(old(m.g), m.g, root);
    ok := MapTrapframe(m, root, tf, old(m.ram), old(m.g));
    if !ok {
      root := 0;
    }
  }

  /** What the two special pages are: only for the kernel, the one to execute and the other to
      write. */
  lemma SpecialPages(leaf: map<Place, int>, root: int, code: int, tf: int)
    ensures var l, p, q := Special(leaf, root, code, tf), Place(root, TRAMPOLINE_PAGE), Place(root, TRAPFRAME_PAGE);
            && p in l && FrameOf(l[p]) == code && FlagsOf(l[p]) == 1 + 2 + 8 && !IsUser(l[p])
            && q in l && FrameOf(l[q]) == tf && FlagsOf(l[q]) == 1 + 2 + 4 && !IsUser(l[q])
            && forall r :: r != p && r != q ==> (r in l <==> r in leaf) && (r in l ==> l[r] == leaf[r])
  {
    PteParts(code, PTE_R + PTE_X);
    PteParts(tf, PTE_R + PTE_W);
    assert PTE_R + PTE_X == 10 && PTE_R + PTE_W == 6;
  }

  /** The mapped pages of a process: its memory below sz and the two special pages. */
  ghost predicate ProcessLeaves(g: Shape, root: int, n: int) {
    forall p {:trigger p in g.leaf} :: p in g.leaf && p.root == root ==>
      0 <= p.vpn < n || p.vpn == TRAMPOLINE_PAGE || p.vpn == TRAPFRAME_PAGE
  }

  lemma SpecialGone(g0: Shape, g: Shape, root: int, n: int)
    requires ProcessLeaves(g0, root, n)
    requires g.leaf == g0.leaf - {Place(root, TRAMPOLINE_PAGE)} - {Place(root, TRAPFRAME_PAGE)}
    ensures OnlyLeaves(g, root, 0, n)
  {
    forall p | p in g.leaf && p.root == root ensures 0 <= p.vpn < n {
      assert p == Place(root, p.vpn);
    }
  }

  lemma StillOwned(ram0: map<int, Page>, g0: Shape, ram: map<int, Page>, g: Shape, root: int, n: int,
                   vpn: int, release: bool)
    requires Gave(ram0, g0, ram, g, Pages(root, vpn, vpn + 1)) && n <= vpn
    requires g.leaf == g0.leaf - {Place(root, vpn)}
    requires if release then Private(g0, root, 0, n) else Borrowed(g0, root, 0, n)
    ensures if release then Private(g, root, 0, n) else Borrowed(g, root, 0, n)
  {
    if release {
      forall v | 0 <= v < n && Place(root, v) in g.leaf ensures OwnsFrame(g, Place(root, v)) {
        assert OwnsFrame(g0, Place(root, v));
        assert GaveAt(ram0, g0.use, ram, g.use, Pages(root, vpn, vpn + 1), FrameOf(g.leaf[Place(root, v)]));
      }
    } else {
      forall f | f in g.use ensures !In(Pages(root, 0, n), g.use[f]) {
        assert GaveAt(ram0, g0.use, ram, g.use, Pages(root, vpn, vpn + 1), f);
        assert f in g0.use;
      }
    }
  }

  lemma NarrowBorrowed(g: Shape, root: int, lo: int, hi: int, lo': int, hi': int)
    requires Borrowed(g, root, lo, hi) && lo <= lo' && hi' <= hi
    ensures Borrowed(g, root, lo', hi')
  {
    forall f | f in g.use ensures !In(Pages(root, lo', hi'), g.use[f]) {
      assert !In(Pages(root, lo, hi), g.use[f]);
    }
  }

  /** proc_freepagetable(), and for threads its counterpart in freeproc(), which frees
      no user frame. */
  method FreePagetable(m: Memory, root: int, sz: int, thread: bool)
    requires m.Valid() && Key(root, 2, 0) in m.g.nodes && 0 <= sz && RoundUp(sz) <= TRAPFRAME
    requires ProcessLeaves(m.g, root, Ceil(sz)) && Borrowed(m.g, root, TRAPFRAME_PAGE, TRAMPOLINE_PAGE + 1)
    requires if thread then Borrowed(m.g, root, 0, Ceil(sz)) else Private(m.g, root, 0, Ceil(sz))
    modifies m
    ensures m.Valid() && WithoutRoot(old(m.g), m.g, root)
    ensures (forall k :: k in m.g.nodes ==> k.root != root)
    ensures Gave(old(m.ram), old(m.g), m.ram, m.g, Both(root, 0, Ceil(sz)))
  {
    ghost var n := Ceil(sz);
    NarrowBorrowed(m.g, root, TRAPFRAME_PAGE, TRAMPOLINE_PAGE + 1, TRAMPOLINE_PAGE, TRAMPOLINE_PAGE + 1);
    m.UnmapPage(root, TRAMPOLINE, false);
    ghost var ram1, g1 := m.ram, m.g;
    StillOwned(old(m.ram), old(m.g), ram1, g1, root, n, TRAMPOLINE_PAGE, !thread);
    forall f | f in g1.use ensures !In(Pages(root, TRAPFRAME_PAGE, TRAPFRAME_PAGE + 1), g1.use[f]) {
      assert GaveAt(old(m.ram), old(m.g).use, ram1, g1.use, Pages(root, TRAMPOLINE_PAGE, TRAMPOLINE_PAGE + 1), f);
      assert !In(Pages(root, TRAPFRAME_PAGE, TRAMPOLINE_PAGE + 1), old(m.g).use[f]);
    }
    m.UnmapPage(root, TRAPFRAME, false);
    ghost var ram2, g2 := m.ram, m.g;
    StillOwned(ram1, g1, ram2, g2, root, n, TRAPFRAME_PAGE, !thread);
    SpecialGone(old(m.g), m.g, root, n);
    GaveTwice(old(m.ram), old(m.g), ram1, g1, ram2, g2, Pages(root, TRAMPOLINE_PAGE, TRAMPOLINE_PAGE + 1),
              Pages(root, TRAPFRAME_PAGE, TRAPFRAME_PAGE + 1), Pages(root, TRAPFRAME_PAGE, TRAMPOLINE_PAGE + 1));
    Uvmfree(m, root, sz, !thread);
    GaveTwice(old(m.ram), old(m.g), ram2, g2, m.ram, m.g, Pages(root, TRAPFRAME_PAGE, TRAMPOLINE_PAGE + 1),
              Both(root, 0, n), Both(root, 0, n));
  }

  // ----- freeproc() and growproc() -----

  /** What freeproc() asks of a process: its two frames are held, its pages below sz are
      its own, or for a thread borrowed, and beyond them only the special pages are mapped. */
  ghost predicate Releasable(g: Shape, tf: int, sig: int, root: int, sz: int, thread: bool)
    requires 0 <= sz
  {
    && Key(root, 2, 0) in g.nodes && tf != sig
    && tf in g.use && g.use[tf] == Held && sig in g.use && g.use[sig] == Held
    && ProcessLeaves(g, root, Ceil(sz)) && Borrowed(g, root, TRAPFRAME_PAGE, TRAMPOLINE_PAGE + 1)
    && (if thread then Borrowed(g, root, 0, Ceil(sz)) else Private(g, root, 0, Ceil(sz)))
  }

  /** What freeproc() leaves: the two frames, the tables and the owned pages are free, and
      all other uses and data are the same. */
  ghost predicate FreedProcess(ram: map<int, Page>, g: Shape, ram': map<int, Page>, g': Shape, tf: int,
                               sig: int, root: int, n: int) {
    && (forall f {:trigger f in g'.use} :: f in g'.use <==> f in g.use)
    && (forall f {:trigger g'.use[f]} :: f in g.use ==>
         g'.use[f] == if f == tf || f == sig || In(Both(root, 0, n), g.use[f]) then Free else g.use[f])
    && (forall f {:trigger HasData(g.use, f)} :: HasData(g.use, f) && HasData(g'.use, f) ==>
         f in ram && f in ram' && ram'[f] == ram[f])
  }

  lemma FreedPair(g: Shape, g1: Shape, tf: int, sig: int, root: int, n: int, thread: bool)
    requires tf in g.use && g.use[tf] == Held && sig in g.use && g.use[sig] == Held && tf != sig
    requires Borrowed(g, root, TRAPFRAME_PAGE, TRAMPOLINE_PAGE + 1)
    requires if thread then Borrowed(g, root, 0, n) else Private(g, root, 0, n)
    requires g1 == Freed(Freed(g, tf), sig)
    ensures Borrowed(g1, root, TRAPFRAME_PAGE, TRAMPOLINE_PAGE + 1)
    ensures if thread then Borrowed(g1, root, 0, n) else Private(g1, root, 0, n)
  {
    forall f | f in g1.use
      ensures g1.use[f] == (if f == tf || f == sig then Free else g.use[f]) && f in g.use
    {
    }
    forall f | f in g1.use ensures !In(Pages(root, TRAPFRAME_PAGE, TRAMPOLINE_PAGE + 1), g1.use[f]) {
      assert !In(Pages(root, TRAPFRAME_PAGE, TRAMPOLINE_PAGE + 1), g.use[f]);
    }
    if thread {
      forall f | f in g1.use ensures !In(Pages(root, 0, n), g1.use[f]) {
        assert !In(Pages(root, 0, n), g.use[f]);
      }
    } else {
      forall v | 0 <= v < n && Place(root, v) in g1.leaf ensures OwnsFrame(g1, Place(root, v)) {
        assert OwnsFrame(g, Place(root, v));
      }
    }
  }

  /** The memory part of freeproc(): exactly the trapframe, the signal trapframe, the
      tables and, but for threads, the user frames. */
  method FreeprocMemory(m: Memory, tf: int, sig: int, root: int, sz: int, thread: bool)
    requires m.Valid() && 0 <= sz && RoundUp(sz) <= TRAPFRAME && Releasable(m.g, tf, sig, root, sz, thread)
    modifies m
    ensures m.Valid() && WithoutRoot(old(m.g), m.g, root)
    ensures FreedProcess(old(m.ram), old(m.g), m.ram, m.g, tf, sig, root, Ceil(sz))
  {
    assert FramesOk(m.ram, m.g.use);
    m.Kfree(tf, NO_KEY);
    m.Kfree(sig, NO_KEY);
    ghost var ram1, g1 := m.ram, m.g;
    assert g1 == Freed(Freed(old(m.g), tf), sig);
    FreedPair(old(m.g), g1, tf, sig, root, Ceil(sz), thread);
    FreePagetable(m, root, sz, thread);
    forall f ensures f in m.g.use <==> f in old(m.g).use {
      assert GaveAt(ram1, g1.use, m.ram, m.g.use, Both(root, 0, Ceil(sz)), f);
    }
    forall f | f in old(m.g).use
      ensures m.g.use[f] == if f == tf || f == sig || In(Both(root, 0, Ceil(sz)), old(m.g).use[f]) then Free
                else old(m.g).use[f]
    {
      assert GaveAt(ram1, g1.use, m.ram, m.g.use, Both(root, 0, Ceil(sz)), f);
    }
    forall f | HasData(old(m.g).use, f) && HasData(m.g.use, f)
      ensures f in old(m.ram) && f in m.ram && m.ram[f] == old(m.ram)[f]
    {
      assert GaveAt(ram1, g1.use, m.ram, m.g.use, Both(root, 0, Ceil(sz)), f);
    }
  }

  /** A process's memory: the pages below sz that are mapped are its own, and beyond them
      only the two special pages are mapped. */
  ghost predicate ProcessMemory(g: Shape, root: int, sz: int)
    requires 0 <= sz
  {
    ProcessLeaves(g, root, Ceil(sz)) && Private(g, root, 0, Ceil(sz))
  }

  lemma TookPrivate(ram0: map<int, Page>, g0: Shape, ram: map<int, Page>, g: Shape, root: int, n: int)
    requires Private(g0, root, 0, n) && Took(ram0, g0, ram, g, Tables(root)) && g.leaf == g0.leaf
    ensures Private(g, root, 0, n)
  {
    forall v | 0 <= v < n && Place(root, v) in g.leaf ensures OwnsFrame(g, Place(root, v)) {
      assert OwnsFrame(g0, Place(root, v));
      assert TookAt(ram0, g0.use, ram, g.use, Tables(root), FrameOf(g.leaf[Place(root, v)]));
    }
  }

  lemma GrewProcess(ram0: map<int, Page>, g0: Shape, ram: map<int, Page>, g: Shape, root: int, sz: int,
                    sz': int)
    requires 0 <= sz <= sz' && ProcessMemory(g0, root, sz)
    requires Grew(g0, ram, g, root, Ceil(sz), Ceil(sz'), PTE_R + PTE_U + PTE_W)
    requires Took(ram0, g0, ram, g, Both(root, Ceil(sz), Ceil(sz')))
    ensures ProcessMemory(g, root, sz')
  {
    forall p | p in g.leaf && p.root == root
      ensures 0 <= p.vpn < Ceil(sz') || p.vpn == TRAMPOLINE_PAGE || p.vpn == TRAPFRAME_PAGE
    {
      assert GrewAt(g0, ram, g, root, Ceil(sz), Ceil(sz'), PTE_R + PTE_U + PTE_W, p);
    }
    forall v | 0 <= v < Ceil(sz') && Place(root, v) in g.leaf ensures OwnsFrame(g, Place(root, v)) {
      assert GrewAt(g0, ram, g, root, Ceil(sz), Ceil(sz'), PTE_R + PTE_U + PTE_W, Place(root, v));
      if v < Ceil(sz) {
        assert OwnsFrame(g0, Place(root, v));
        assert TookAt(ram0, g0.use, ram, g.use, Both(root, Ceil(sz), Ceil(sz')), FrameOf(g.leaf[Place(root, v)]));
      }
    }
  }

  lemma TurnMono(sz: int, sz': int)
    requires 0 <= sz <= sz'
    ensures Ceil(sz) <= Ceil(sz')
  {
  }

  lemma BeyondUnmapped(g: Shape, root: int, sz: int, sz': int)
    requires 0 <= sz <= sz' <= TRAPFRAME && ProcessMemory(g, root, sz)
    ensures Unmapped(g.leaf, root, Ceil(sz), Ceil(sz')) && RoundUp(sz') <= MAXVA
  {
    assert Ceil(sz') <= TRAPFRAME_PAGE;
  }

  method GrowBy(m: Memory, root: int, sz: int, n: int) returns (ok: bool, sz': int)
    requires m.Valid() && Key(root, 2, 0) in m.g.nodes && 0 <= sz <= TRAPFRAME && n > 0
    requires ProcessMemory(m.g, root, sz)
    modifies m
    ensures m.Valid() && 0 <= sz' <= TRAPFRAME && ProcessMemory(m.g, root, sz')
    ensures ok ==>
              sz' == sz + n && Grew(old(m.g), m.ram, m.g, root, Ceil(sz), Ceil(sz + n), PTE_R + PTE_U + PTE_W)
    ensures ok ==> Took(old(m.ram), old(m.g), m.ram, m.g, Both(root, Ceil(sz), Ceil(sz + n)))
    ensures Key(root, 2, 0) in m.g.nodes
    ensures !ok ==>
              sz' == sz && m.g.leaf == old(m.g).leaf && Took(old(m.ram), old(m.g), m.ram, m.g, Tables(root))
    ensures ok <==>
            sz + n <= TRAPFRAME
            && !Short(old(m.g), root, Ceil(sz + n) - Ceil(sz), RangePaths(Ceil(sz), Ceil(sz + n) - Ceil(sz)))
  {
    hide Cost, Short, Grew, Took;
    TurnMono(sz, sz + n);
    if sz + n > TRAPFRAME {
      TookNothing(m.ram, m.head, m.g, Tables(root));
      return false, sz;
    }
    BeyondUnmapped(m.g, root, sz, sz + n);
    ghost var got;
    sz', got := Uvmalloc(m, root, sz, sz + n, PTE_W);
    if sz' == 0 {
      TookPrivate(old(m.ram), old(m.g), m.ram, m.g, root, Ceil(sz));
      return false, sz;
    }
    GrewProcess(old(m.ram), old(m.g), m.ram, m.g, root, sz, sz + n);
    ok := true;
  }

  lemma ShrankProcess(ram0: map<int, Page>, g0: Shape, ram: map<int, Page>, g: Shape, root: int, sz: int,
                      sz': int)
    requires 0 <= sz' <= sz && ProcessMemory(g0, root, sz)
    requires g.leaf == UnmapRange(g0.leaf, root, Ceil(sz'), Ceil(sz) - Ceil(sz'))
    requires Gave(ram0, g0, ram, g, Pages(root, Ceil(sz'), Ceil(sz)))
    ensures ProcessMemory(g, root, sz')
  {
    forall p | p in g.leaf && p.root == root
      ensures 0 <= p.vpn < Ceil(sz') || p.vpn == TRAMPOLINE_PAGE || p.vpn == TRAPFRAME_PAGE
    {
      UnmapRangeAt(g0.leaf, root, Ceil(sz'), Ceil(sz) - Ceil(sz'), p);
    }
    forall v | 0 <= v < Ceil(sz') && Place(root, v) in g.leaf ensures OwnsFrame(g, Place(root, v)) {
      UnmapRangeAt(g0.leaf, root, Ceil(sz'), Ceil(sz) - Ceil(sz'), Place(root, v));
      assert OwnsFrame(g0, Place(root, v));
      assert GaveAt(ram0, g0.use, ram, g.use, Pages(root, Ceil(sz'), Ceil(sz)), FrameOf(g.leaf[Place(root, v)]));
    }
  }

  method ShrinkBy(m: Memory, root: int, sz: int, n: int) returns (sz': int)
    requires m.Valid() && Key(root, 2, 0) in m.g.nodes && 0 <= sz <= TRAPFRAME && -0x8000_0000 <= n < 0
    requires ProcessMemory(m.g, root, sz)
    modifies m
    ensures sz' == if sz + n < 0 then sz else sz + n
    ensures m.Valid() && ProcessMemory(m.g, root, sz')
    ensures 0 <= sz + n ==> m.g.leaf == UnmapRange(old(m.g).leaf, root, Ceil(sz + n), Ceil(sz) - Ceil(sz + n))
    ensures 0 <= sz + n ==> Gave(old(m.ram), old(m.g), m.ram, m.g, Pages(root, Ceil(sz + n), Ceil(sz)))
    ensures sz + n < 0 ==> unchanged(m)
    ensures m.g.nodes == old(m.g).nodes
  {
    var wrapped := (sz + n) % 0x1_0000_0000_0000_0000;
    sz' := Uvmdealloc(m, root, sz, wrapped);
    if sz + n >= 0 {
      ShrankProcess(old(m.ram), old(m.g), m.ram, m.g, root, sz, sz + n);
    }
  }

  /** growproc(): moves the size by n, or fails and changes no translation, exactly if the
      new size or the free frames do not allow it; shrinking below zero leaves the size
      alone, since the sum wraps. */
  method Growproc(m: Memory, root: int, sz: int, n: int) returns (ok: bool, sz': int)
    requires m.Valid() && Key(root, 2, 0) in m.g.nodes && 0 <= sz <= TRAPFRAME
    requires -0x8000_0000 <= n < 0x8000_0000
    requires ProcessMemory(m.g, root, sz)
    modifies m
    ensures m.Valid() && 0 <= sz' <= TRAPFRAME && ProcessMemory(m.g, root, sz')
    ensures ok ==> sz' == if sz + n < 0 then sz else sz + n
    ensures !ok ==>
              n > 0 && sz' == sz && m.g.leaf == old(m.g).leaf && Took(old(m.ram), old(m.g), m.ram, m.g, Tables(root))
    ensures ok && n > 0 ==>
              Grew(old(m.g), m.ram, m.g, root, Ceil(sz), Ceil(sz + n), PTE_R + PTE_U + PTE_W)
    ensures ok && n > 0 ==> Took(old(m.ram), old(m.g), m.ram, m.g, Both(root, Ceil(sz), Ceil(sz + n)))
    ensures n < 0 <= sz + n ==> m.g.leaf == UnmapRange(old(m.g).leaf, root, Ceil(sz + n), Ceil(sz) - Ceil(sz + n))
    ensures n < 0 <= sz + n ==> Gave(old(m.ram), old(m.g), m.ram, m.g, Pages(root, Ceil(sz + n), Ceil(sz)))
    ensures n == 0 || sz + n < 0 ==> unchanged(m)
    ensures Key(root, 2, 0) in m.g.nodes
    ensures n > 0 ==>
              Ceil(sz) <= Ceil(sz + n)
              && (ok <==>
                    sz + n <= TRAPFRAME
                    && !Short(old(m.g), root, Ceil(sz + n) - Ceil(sz), RangePaths(Ceil(sz), Ceil(sz + n) - Ceil(sz))))
    ensures n <= 0 ==> ok
  {
    ok, sz' := true, sz;
    if n > 0 {
      ok, sz' := GrowBy(m, root, sz, n);
    } else if n < 0 {
      sz' := ShrinkBy(m, root, sz, n);
    }
  }

  // ----- life cycles -----

  /** Everything is as it was: uses of frames, all translations, all data. */
  ghost predicate Restored(ram0: map<int, Page>, g0: Shape, ram: map<int, Page>, g: Shape) {
    g.use == g0.use && g.leaf == g0.leaf && DataSame(ram0, g0, ram)
  }

  /** Translations of all other roots are the same. */
  ghost predicate OthersSame(g0: Shape, g1: Shape, root: int) {
    forall p: Place {:trigger p in g1.leaf} {:trigger p in g0.leaf} :: p.root != root ==>
      (p in g1.leaf <==> p in g0.leaf) && (p in g1.leaf ==> g1.leaf[p] == g0.leaf[p])
  }

  ghost predicate StartedAt(ram0: map<int, Page>, use0: map<int, Use>, ram: map<int, Page>, use: map<int, Use>,
                            tf: int, sig: int, part: Part, f: int) {
    && (f in use <==> f in use0)
    && (f in use0 && use0[f] == Free && f != tf && f != sig ==> use[f] == Free || In(part, use[f]))
    && (f in use0 && use0[f] != Free ==> use[f] == use0[f])
    && (HasData(use0, f) ==> f in ram0 && f in ram && ram[f] == ram0[f])
  }

  /** A process has taken the frames tf and sig, and others for `part`; no other use and
      no data changed. */
  ghost predicate Started(ram0: map<int, Page>, g0: Shape, ram: map<int, Page>, g: Shape, tf: int, sig: int,
                          part: Part) {
    && tf != sig && tf in g0.use && g0.use[tf] == Free && sig in g0.use && g0.use[sig] == Free
    && tf in g.use && g.use[tf] == Held && sig in g.use && g.use[sig] == Held
    && forall f {:trigger StartedAt(ram0, g0.use, ram, g.use, tf, sig, part, f)} ::
         StartedAt(ram0, g0.use, ram, g.use, tf, sig, part, f)
  }

  lemma StartedThenTook(ram0: map<int, Page>, g0: Shape, ram1: map<int, Page>, g1: Shape, ram2: map<int, Page>,
                        g2: Shape, tf: int, sig: int, p: Part, q: Part, r: Part)
    requires Started(ram0, g0, ram1, g1, tf, sig, p) && Took(ram1, g1, ram2, g2, q) && Within(p, r) && Within(q, r)
    ensures Started(ram0, g0, ram2, g2, tf, sig, r)
  {
    assert TookAt(ram1, g1.use, ram2, g2.use, q, tf) && TookAt(ram1, g1.use, ram2, g2.use, q, sig);
    forall f ensures StartedAt(ram0, g0.use, ram2, g2.use, tf, sig, r, f) {
      assert StartedAt(ram0, g0.use, ram1, g1.use, tf, sig, p, f) && TookAt(ram1, g1.use, ram2, g2.use, q, f);
    }
  }

  lemma StartedThenGave(ram0: map<int, Page>, g0: Shape, ram1: map<int, Page>, g1: Shape, ram2: map<int, Page>,
                        g2: Shape, tf: int, sig: int, root: int, n: int, n': int)
    requires Started(ram0, g0, ram1, g1, tf, sig, Both(root, 0, n)) && NoUse(g0, root) && 0 <= n' <= n
    requires Gave(ram1, g1, ram2, g2, Pages(root, n', n))
    ensures Started(ram0, g0, ram2, g2, tf, sig, Both(root, 0, n'))
  {
    var part, gone, left := Both(root, 0, n), Pages(root, n', n), Both(root, 0, n');
    assert GaveAt(ram1, g1.use, ram2, g2.use, gone, tf) && GaveAt(ram1, g1.use, ram2, g2.use, gone, sig);
    forall f ensures StartedAt(ram0, g0.use, ram2, g2.use, tf, sig, left, f) {
      assert StartedAt(ram0, g0.use, ram1, g1.use, tf, sig, part, f) && GaveAt(ram1, g1.use, ram2, g2.use, gone, f);
    }
  }

  /** Writing one's own trapframe changes nothing that was there before. */
  lemma StartedThenFilled(ram0: map<int, Page>, g0: Shape, ram: map<int, Page>, g: Shape, tf: int, sig: int,
                          part: Part, page: Page)
    requires Started(ram0, g0, ram, g, tf, sig, part)
    ensures Started(ram0, g0, ram[tf := page], g, tf, sig, part)
  {
    var ram' := ram[tf := page];
    forall f ensures StartedAt(ram0, g0.use, ram', g.use, tf, sig, part, f) {
      assert StartedAt(ram0, g0.use, ram, g.use, tf, sig, part, f);
    }
  }

  /** Conservation over a whole life: what a process took, freeproc() gives back. */
  lemma Ended(ram0: map<int, Page>, g0: Shape, ram1: map<int, Page>, g1: Shape, ram2: map<int, Page>, g2: Shape,
              tf: int, sig: int, root: int, n: int, part: Part)
    requires Started(ram0, g0, ram1, g1, tf, sig, part) && Within(part, Both(root, 0, n)) && 0 <= n
    requires NoUse(g0, root) && NoLeaves(g0, root)
    requires OthersSame(g0, g1, root) && WithoutRoot(g1, g2, root)
    requires FreedProcess(ram1, g1, ram2, g2, tf, sig, root, n)
    ensures Restored(ram0, g0, ram2, g2)
  {
    forall f ensures (f in g2.use <==> f in g0.use) && (f in g0.use ==> g2.use[f] == g0.use[f]) {
      assert StartedAt(ram0, g0.use, ram1, g1.use, tf, sig, part, f);
      assert f in g2.use <==> f in g1.use;
    }
    forall f | HasData(g0.use, f) ensures f in ram0 && f in ram2 && ram2[f] == ram0[f] {
      assert StartedAt(ram0, g0.use, ram1, g1.use, tf, sig, part, f);
      assert HasData(g1.use, f) && HasData(g2.use, f);
      assert ram2[f] == ram1[f];
    }
    forall p ensures (p in g2.leaf <==> p in g0.leaf) && (p in g2.leaf ==> g2.leaf[p] == g0.leaf[p]) {
    }
  }

  /** Tables that stood before a process was made still stand. */
  lemma NodeStands(ram0: map<int, Page>, g0: Shape, ram: map<int, Page>, g: Shape, tf: int, sig: int, part: Part,
                   k: Key)
    requires NodesOk(g0) && NodesOk(g) && Started(ram0, g0, ram, g, tf, sig, part) && k in g0.nodes
    ensures k in g.nodes && g.nodes[k] == g0.nodes[k]
  {
    assert NodeOk(g0.use, g0.nodes, k);
    assert StartedAt(ram0, g0.use, ram, g.use, tf, sig, part, g0.nodes[k]);
    assert UseOk(g.nodes, g.leaf, g.use, g0.nodes[k]);
  }

  lemma NotAParent(g: Shape, root: int, parent: int)
    requires NodesOk(g) && NoUse(g, root) && Key(parent, 2, 0) in g.nodes
    ensures root != parent
  {
    assert NodeOk(g.use, g.nodes, Key(parent, 2, 0));
  }

  /** Pages that a new process did not take it does not own. */
  lemma StartedBorrowed(ram0: map<int, Page>, g0: Shape, ram: map<int, Page>, g: Shape, tf: int, sig: int,
                        root: int, n: int, part: Part, lo: int, hi: int)
    requires Started(ram0, g0, ram, g, tf, sig, part) && NoUse(g0, root)
    requires part == Tables(root) || (part == Both(root, 0, n) && n <= lo)
    ensures Borrowed(g, root, lo, hi)
  {
    forall f | f in g.use ensures !In(Pages(root, lo, hi), g.use[f]) {
      assert StartedAt(ram0, g0.use, ram, g.use, tf, sig, part, f);
    }
  }

  /** Taking two frames and nothing else, for any part. */
  lemma FramesTaken(ram: map<int, Page>, head: int, g: Shape, ram': map<int, Page>, use: map<int, Use>, tf: int,
                    sig: int)
    requires Ok(ram, head, g, NO_KEY) && tf != sig && use == g.use[tf := Held][sig := Held]
    requires tf in g.use && g.use[tf] == Free && sig in g.use && g.use[sig] == Free
    requires forall f :: f in ram && f != tf && f != sig ==> f in ram' && ram'[f] == ram[f]
    ensures forall part, f {:trigger StartedAt(ram, g.use, ram', use, tf, sig, part, f)} ::
              StartedAt(ram, g.use, ram', use, tf, sig, part, f)
  {
    assert FramesOk(ram, g.use);
  }

  /** The kalloc() calls of allocproc(): the trapframe and the signal trapframe, or none. */
  method TakeFrames(m: Memory) returns (tf: int, sig: int)
    requires m.Valid()
    modifies m
    ensures m.Valid() && m.g.leaf == old(m.g).leaf
    ensures sig != 0 <==> |old(m.g).free| >= 2
    ensures sig != 0 ==> |m.g.free| == |old(m.g).free| - 2
    ensures sig == 0 ==> Restored(old(m.ram), old(m.g), m.ram, m.g)
    ensures sig != 0 ==> m.g.use == old(m.g).use[tf := Held][sig := Held]
    ensures sig != 0 ==> Started(old(m.ram), old(m.g), m.ram, m.g, tf, sig, Tables(0))
  {
    assert FramesOk(m.ram, m.g.use);
    sig := 0;
    tf := m.Kalloc();
    if tf == 0 {
      return;
    }
    sig := m.Kalloc();
    if sig == 0 {
      m.Kfree(tf, NO_KEY);
      assert m.g.use == old(m.g).use;
    } else {
      FramesTaken(old(m.ram), old(m.head), old(m.g), m.ram, m.g.use, tf, sig);
    }
  }

  lemma StartedAny(ram0: map<int, Page>, g0: Shape, ram: map<int, Page>, g: Shape, tf: int, sig: int, part: Part)
    requires Started(ram0, g0, ram, g, tf, sig, Tables(0)) && g.use == g0.use[tf := Held][sig := Held]
    ensures Started(ram0, g0, ram, g, tf, sig, part)
  {
    forall f ensures StartedAt(ram0, g0.use, ram, g.use, tf, sig, part, f) {
      assert StartedAt(ram0, g0.use, ram, g.use, tf, sig, Tables(0), f);
    }
  }

  lemma UndoFrames(ram0: map<int, Page>, g0: Shape, ram1: map<int, Page>, g1: Shape, ram2: map<int, Page>, g2: Shape,
                   tf: int, sig: int)
    requires Started(ram0, g0, ram1, g1, tf, sig, Tables(0)) && g1.use == g0.use[tf := Held][sig := Held]
    requires g2.use == g1.use[tf := Free][sig := Free] && g2.leaf == g0.leaf
    requires forall f {:trigger HasData(g1.use, f)} :: HasData(g1.use, f) && f != tf && f != sig ==>
               f in ram1 && f in ram2 && ram2[f] == ram1[f]
    ensures Restored(ram0, g0, ram2, g2)
  {
    forall f | HasData(g0.use, f) ensures f in ram0 && f in ram2 && ram2[f] == ram0[f] {
      assert StartedAt(ram0, g0.use, ram1, g1.use, tf, sig, Tables(0), f);
      assert HasData(g1.use, f);
    }
  }

  lemma NewRoot(ram0: map<int, Page>, g0: Shape, ram1: map<int, Page>, g1: Shape, tf: int, sig: int, root: int)
    requires Started(ram0, g0, ram1, g1, tf, sig, Tables(root)) && NoUse(g1, root)
    ensures NoUse(g0, root)
  {
    forall f | f in g0.use
      ensures !(g0.use[f].Node? && g0.use[f].key.root == root)
      ensures !(g0.use[f].Owned? && g0.use[f].place.root == root)
    {
      assert StartedAt(ram0, g0.use, ram1, g1.use, tf, sig, Tables(root), f);
    }
  }

  /** The memory part of allocproc(): a trapframe, a signal trapframe and an empty address
      space, or, exactly with fewer than five free frames, everything as it was. */
  method Allocproc(m: Memory, code: int) returns (tf: int, sig: int, root: int)
    requires m.Valid()
    modifies m
    ensures m.Valid()
    ensures root != 0 <==> |old(m.g).free| >= 5
    ensures root != 0 ==> Have(m.g, root) == TopPaths() && |m.g.free| == |old(m.g).free| - 5
    ensures root == 0 ==> Restored(old(m.ram), old(m.g), m.ram, m.g)
    ensures root != 0 ==> Started(old(m.ram), old(m.g), m.ram, m.g, tf, sig, Tables(root))
    ensures root != 0 ==> NoUse(old(m.g), root) && NoLeaves(old(m.g), root)
    ensures root != 0 ==>
              m.g.leaf == Special(old(m.g).leaf, root, code, tf) && Releasable(m.g, tf, sig, root, 0, false)
  {
    root := 0;
    tf, sig := TakeFrames(m);
    if sig == 0 {
      return;
    }
    ghost var ram1, g1 := m.ram, m.g;
    root := ProcPagetable(m, code, tf);
    if root == 0 {
      m.Kfree(tf, NO_KEY);
      m.Kfree(sig, NO_KEY);
      UndoFrames(old(m.ram), old(m.g), ram1, g1, m.ram, m.g, tf, sig);
      return;
    }
    StartedAny(old(m.ram), old(m.g), ram1, g1, tf, sig, Tables(root));
    StartedThenTook(old(m.ram), old(m.g), ram1, g1, m.ram, m.g, tf, sig, Tables(root), Tables(root), Tables(root));
    NewRoot(old(m.ram), old(m.g), ram1, g1, tf, sig, root);
    StartedBorrowed(old(m.ram), old(m.g), m.ram, m.g, tf, sig, root, 0, Tables(root), TRAPFRAME_PAGE,
                    TRAMPOLINE_PAGE + 1);
  }

  /** The map with the two special pages of a new process. */
  function WithSpecial(g: Shape, root: int, code: int, tf: int): Shape {
    g.(leaf := Special(g.leaf, root, code, tf))
  }

  lemma StillData(ram0: map<int, Page>, g0: Shape, ram1: map<int, Page>, g1: Shape, tf: int, sig: int, parent: int,
                  root: int, n: int)
    requires InData(g0, parent, n) && Started(ram0, g0, ram1, g1, tf, sig, Tables(root)) && parent != root
    requires OthersSame(g0, g1, root)
    ensures InData(g1, parent, n)
  {
    forall v | 0 <= v < n && Place(parent, v) in g1.leaf
      ensures HasData(g1.use, FrameOf(g1.leaf[Place(parent, v)]))
    {
      assert HasData(g0.use, FrameOf(g0.leaf[Place(parent, v)]));
      assert StartedAt(ram0, g0.use, ram1, g1.use, tf, sig, Tables(root), FrameOf(g1.leaf[Place(parent, v)]));
    }
  }

  lemma CopyLeaves(g0: Shape, ram1: map<int, Page>, g1: Shape, ram2: map<int, Page>, g2: Shape, parent: int,
                   root: int, n: int, code: int, tf: int, ok: bool)
    requires NoLeaves(g0, root) && g1.leaf == Special(g0.leaf, root, code, tf) && n <= TRAPFRAME_PAGE
    requires FramesOk(ram1, g1.use) && InData(g1, parent, n)
    requires if ok then Copied(ram1, g1, ram2, g2, parent, root, n) else g2.leaf == g1.leaf
    ensures ProcessLeaves(g2, root, if ok then n else 0) && Private(g2, root, 0, if ok then n else 0)
    ensures OthersSame(g0, g2, root)
  {
    forall p: Place
      ensures p.root != root ==>
                (p in g2.leaf <==> p in g0.leaf) && (p in g2.leaf ==> g2.leaf[p] == g0.leaf[p])
    {
      assert ok ==> CopiedAt(ram1, g1, ram2, g2, parent, root, n, p);
    }
    forall p | p in g2.leaf && p.root == root
      ensures 0 <= p.vpn < (if ok then n else 0) || p.vpn == TRAMPOLINE_PAGE || p.vpn == TRAPFRAME_PAGE
    {
      assert ok ==> CopiedAt(ram1, g1, ram2, g2, parent, root, n, p);
    }
    var n' := if ok then n else 0;
    forall v | 0 <= v < n' && Place(root, v) in g2.leaf ensures OwnsFrame(g2, Place(root, v)) {
      assert CopiedAt(ram1, g1, ram2, g2, parent, root, n, Place(root, v));
      assert HasData(g1.use, FrameOf(g1.leaf[Place(parent, v)]));
    }
  }

  /** The copies are of what the parent held before the call, whatever the child's
      trapframe holds. */
  lemma CopiedFromOld(ram0: map<int, Page>, g0: Shape, ram1: map<int, Page>, g1: Shape, ram2: map<int, Page>, g2: Shape,
                      tf: int, sig: int, parent: int, root: int, n: int, code: int, regs: Page)
    requires Started(ram0, g0, ram1, g1, tf, sig, Tables(root)) && g1.leaf == Special(g0.leaf, root, code, tf)
    requires parent != root && InData(g0, parent, n) && FramesOk(ram1, g1.use)
    requires Copied(ram1, g1, ram2, g2, parent, root, n) && tf in g2.use && g2.use[tf] == Held && 0 <= n
    ensures Copied(ram0, WithSpecial(g0, root, code, tf), ram2[tf := regs], g2, parent, root, n)
  {
    var gs, ram3 := WithSpecial(g0, root, code, tf), ram2[tf := regs];
    forall p ensures CopiedAt(ram0, gs, ram3, g2, parent, root, n, p) {
      assert CopiedAt(ram1, g1, ram2, g2, parent, root, n, p);
      var q := Place(parent, p.vpn);
      if InRange(p, root, 0, n) && q in g0.leaf {
        assert HasData(g0.use, FrameOf(g0.leaf[q]));
        assert StartedAt(ram0, g0.use, ram1, g1.use, tf, sig, Tables(root), FrameOf(g0.leaf[q]));
      }
    }
  }

  lemma RegistersKept(ram0: map<int, Page>, g0: Shape, ram: map<int, Page>, g: Shape, tf: int, sig: int, part: Part,
                      ptf: int)
    requires Started(ram0, g0, ram, g, tf, sig, part) && ptf in g0.use && g0.use[ptf] == Held
    requires FramesOk(ram0, g0.use)
    ensures ptf in ram0 && ptf in ram && ram[ptf] == ram0[ptf] && |ram[ptf]| == WORDS
  {
    assert StartedAt(ram0, g0.use, ram, g.use, tf, sig, part, ptf);
  }

  /** Words of a trapframe. */
  const EPC := 3
  const SP := 6
  const A0 := 14

  /** The parent's pages are those that it had before the child's were made. */
  lemma {:induction false} SameMapped(leaf: map<Place, int>, leaf': map<Place, int>, root: int, n: nat)
    requires forall v {:trigger Place(root, v)} :: 0 <= v < n ==> (Place(root, v) in leaf <==> Place(root, v) in leaf')
    ensures MappedCount(leaf, root, n) == MappedCount(leaf', root, n)
    ensures MappedPaths(leaf, root, n) == MappedPaths(leaf', root, n)
  {
    if n > 0 {
      SameMapped(leaf, leaf', root, n - 1);
      assert Place(root, n - 1) in leaf <==> Place(root, n - 1) in leaf';
    }
  }

  lemma SpecialMapped(leaf: map<Place, int>, parent: int, root: int, code: int, tf: int, n: nat)
    requires parent != root
    ensures MappedCount(Special(leaf, root, code, tf), parent, n) == MappedCount(leaf, parent, n)
    ensures MappedPaths(Special(leaf, root, code, tf), parent, n) == MappedPaths(leaf, parent, n)
  {
    SameMapped(Special(leaf, root, code, tf), leaf, parent, n);
  }

  /** A new process and so many pages of its own, with their tables, fit exactly in this many
      free frames. */
  lemma NewProcessNeeds(g0: Shape, g1: Shape, root: int, count: nat, paths: set<Spot>)
    requires Have(g1, root) == TopPaths() && |g1.free| == |g0.free| - 5
    ensures !Short(g1, root, count, paths) <==> |g0.free| >= 5 + count + |paths - TopPaths()|
  {
  }

  /** Three frames to a page are always enough. */
  lemma EnoughFrames(leaf: map<Place, int>, parent: int, n: nat)
    ensures MappedCount(leaf, parent, n) + |MappedPaths(leaf, parent, n) - TopPaths()| <= 3 * n
    ensures |MappedPaths(leaf, parent, n) - TopPaths()| <= 2 * n
  {
    MappedBound(leaf, parent, n);
    SubsetSize(MappedPaths(leaf, parent, n) - TopPaths(), MappedPaths(leaf, parent, n));
  }

  /** The memory part of kfork(): a child whose first pages are private copies of the
      parent's, with the parent's registers but for a0; or, exactly if the free frames are
      too few for the child's five, its copies and their tables, everything as it was. */
  method Kfork(m: Memory, parent: int, ptf: int, sz: int, code: int)
    returns (ok: bool, tf: int, sig: int, root: int)
    requires m.Valid() && Key(parent, 2, 0) in m.g.nodes && 0 <= sz && RoundUp(sz) <= TRAPFRAME
    requires InData(m.g, parent, Ceil(sz)) && ptf in m.g.use && m.g.use[ptf] == Held
    modifies m
    ensures m.Valid()
    ensures !ok ==> Restored(old(m.ram), old(m.g), m.ram, m.g)
    ensures ok ==> Started(old(m.ram), old(m.g), m.ram, m.g, tf, sig, Both(root, 0, Ceil(sz)))
    ensures ok ==> NoUse(old(m.g), root) && NoLeaves(old(m.g), root) && OthersSame(old(m.g), m.g, root)
    ensures ok ==> Releasable(m.g, tf, sig, root, sz, false) && ptf in old(m.ram) && |old(m.ram)[ptf]| == WORDS
    ensures ok ==> tf in m.ram && m.ram[tf] == old(m.ram)[ptf][A0 := 0]
    ensures ok <==>
            |old(m.g).free| >= 5 + MappedCount(old(m.g).leaf, parent, Ceil(sz))
                               + |MappedPaths(old(m.g).leaf, parent, Ceil(sz)) - TopPaths()|
    ensures |old(m.g).free| >= 5 + 3 * Ceil(sz) ==> ok
    ensures ok ==>
              Copied(old(m.ram), WithSpecial(old(m.g), root, code, tf), m.ram, m.g, parent, root, Ceil(sz))
  {
    hide Cost, Short, Started, Took, Copied, OthersSame, NoUse, Restored, WithoutRoot;
    EnoughFrames(m.g.leaf, parent, Ceil(sz));
    tf, sig, root := Allocproc(m, code);
    if root == 0 {
      ok := false;
      return;
    }
    ghost var ram1, g1, n := m.ram, m.g, Ceil(sz);
    NotAParent(old(m.g), root, parent);
    SpecialMapped(old(m.g).leaf, parent, root, code, tf, n);
    NewProcessNeeds(old(m.g), g1, root, MappedCount(g1.leaf, parent, n), MappedPaths(g1.leaf, parent, n));
    NodeStands(old(m.ram), old(m.g), ram1, g1, tf, sig, Tables(root), Key(parent, 2, 0));
    StillData(old(m.ram), old(m.g), ram1, g1, tf, sig, parent, root, n);
    ok := Uvmcopy(m, parent, root, sz);
    ghost var ram2, g2 := m.ram, m.g;
    ghost var part := if ok then Both(root, 0, n) else Tables(root);
    StartedThenTook(old(m.ram), old(m.g), ram1, g1, ram2, g2, tf, sig, Tables(root), part, part);
    CopyLeaves(old(m.g), ram1, g1, ram2, g2, parent, root, n, code, tf, ok);
    StartedBorrowed(old(m.ram), old(m.g), ram2, g2, tf, sig, root, n, part, TRAPFRAME_PAGE, TRAMPOLINE_PAGE + 1);
    if ok {
      RegistersKept(old(m.ram), old(m.g), m.ram, m.g, tf, sig, part, ptf);
      var regs := m.ram[ptf][A0 := 0];
      m.Fill(tf, regs);
      StartedThenFilled(old(m.ram), old(m.g), ram2, g2, tf, sig, part, regs);
      CopiedFromOld(old(m.ram), old(m.g), ram1, g1, ram2, g2, tf, sig, parent, root, n, code, regs);
    } else {
      FreeprocMemory(m, tf, sig, root, 0, false);
      Ended(old(m.ram), old(m.g), ram2, g2, m.ram, m.g, tf, sig, root, 0, Tables(root));
    }
  }

  lemma SharedFromOld(g0: Shape, g1: Shape, g2: Shape, parent: int, root: int, n: int, code: int, tf: int)
    requires Shared(g1, g2, parent, root, n) && g1.leaf == Special(g0.leaf, root, code, tf)
    ensures Shared(WithSpecial(g0, root, code, tf), g2, parent, root, n)
  {
    var gs := WithSpecial(g0, root, code, tf);
    forall p ensures SharedAt(gs, g2, parent, root, n, p) {
      assert SharedAt(g1, g2, parent, root, n, p);
    }
  }

  lemma ShareLeaves(g0: Shape, g1: Shape, g2: Shape, parent: int, root: int, n: int, code: int, tf: int,
                    ok: bool)
    requires NoLeaves(g0, root) && g1.leaf == Special(g0.leaf, root, code, tf)
    requires if ok then Shared(g1, g2, parent, root, n) else g2.leaf == g1.leaf
    ensures ProcessLeaves(g2, root, if ok then n else 0)
    ensures OthersSame(g0, g2, root)
  {
    forall p: Place
      ensures p.root != root ==>
                (p in g2.leaf <==> p in g0.leaf) && (p in g2.leaf ==> g2.leaf[p] == g0.leaf[p])
    {
      assert ok ==> SharedAt(g1, g2, parent, root, n, p);
    }
    forall p | p in g2.leaf && p.root == root
      ensures 0 <= p.vpn < (if ok then n else 0) || p.vpn == TRAMPOLINE_PAGE || p.vpn == TRAPFRAME_PAGE
    {
      assert ok ==> SharedAt(g1, g2, parent, root, n, p);
    }
  }

  lemma ThreadReady(ram0: map<int, Page>, g0: Shape, ram: map<int, Page>, g: Shape, tf: int, sig: int, root: int,
                    sz: int, ok: bool)
    requires Started(ram0, g0, ram, g, tf, sig, Tables(root)) && NoUse(g0, root) && Key(root, 2, 0) in g.nodes
    requires 0 <= sz && ProcessLeaves(g, root, if ok then Ceil(sz) else 0)
    ensures Releasable(g, tf, sig, root, if ok then sz else 0, ok)
  {
    StartedBorrowed(ram0, g0, ram, g, tf, sig, root, 0, Tables(root), TRAPFRAME_PAGE, TRAMPOLINE_PAGE + 1);
    StartedBorrowed(ram0, g0, ram, g, tf, sig, root, 0, Tables(root), 0, Ceil(sz));
  }

  /** The memory part of kclone(): a thread whose pages are the parent's very pages, with the
      parent's registers but for where it starts, its stack and its argument; or, exactly if
      the free frames are too few for its five and its tables, everything as it was. */
  method Kclone(m: Memory, parent: int, ptf: int, sz: int, code: int, fcn: int, stack: int, arg: int)
    returns (ok: bool, tf: int, sig: int, root: int)
    requires m.Valid() && Key(parent, 2, 0) in m.g.nodes && 0 <= sz && RoundUp(sz) <= TRAPFRAME
    requires ptf in m.g.use && m.g.use[ptf] == Held
    modifies m
    ensures m.Valid()
    ensures !ok ==> Restored(old(m.ram), old(m.g), m.ram, m.g)
    ensures ok ==> Started(old(m.ram), old(m.g), m.ram, m.g, tf, sig, Tables(root))
    ensures ok ==> NoUse(old(m.g), root) && NoLeaves(old(m.g), root) && OthersSame(old(m.g), m.g, root)
    ensures ok ==> Releasable(m.g, tf, sig, root, sz, true) && ptf in old(m.ram) && |old(m.ram)[ptf]| == WORDS
    ensures ok ==>
              tf in m.ram
              && m.ram[tf] == old(m.ram)[ptf][EPC := fcn][SP := (stack + PGSIZE) % 0x1_0000_0000_0000_0000][A0 := arg]
    ensures ok <==> |old(m.g).free| >= 5 + |MappedPaths(old(m.g).leaf, parent, Ceil(sz)) - TopPaths()|
    ensures |old(m.g).free| >= 5 + 2 * Ceil(sz) ==> ok
    ensures ok ==> Shared(WithSpecial(old(m.g), root, code, tf), m.g, parent, root, Ceil(sz))
  {
    hide Cost, Short, Started, Took, Shared, OthersSame, NoUse, NoLeaves, Restored, WithoutRoot, Releasable;
    EnoughFrames(m.g.leaf, parent, Ceil(sz));
    tf, sig, root := Allocproc(m, code);
    if root == 0 {
      ok := false;
      return;
    }
    ghost var ram1, g1, n := m.ram, m.g, Ceil(sz);
    NotAParent(old(m.g), root, parent);
    SpecialMapped(old(m.g).leaf, parent, root, code, tf, n);
    NewProcessNeeds(old(m.g), g1, root, 0, MappedPaths(g1.leaf, parent, n));
    NodeStands(old(m.ram), old(m.g), ram1, g1, tf, sig, Tables(root), Key(parent, 2, 0));
    ok := Uvmshare(m, parent, root, sz);
    ghost var ram2, g2, part := m.ram, m.g, Tables(root);
    StartedThenTook(old(m.ram), old(m.g), ram1, g1, ram2, g2, tf, sig, part, part, part);
    ShareLeaves(old(m.g), g1, g2, parent, root, n, code, tf, ok);
    ThreadReady(old(m.ram), old(m.g), ram2, g2, tf, sig, root, sz, ok);
    if ok {
      RegistersKept(old(m.ram), old(m.g), m.ram, m.g, tf, sig, part, ptf);
      var regs := m.ram[ptf][EPC := fcn][SP := (stack + PGSIZE) % 0x1_0000_0000_0000_0000][A0 := arg];
      m.Fill(tf, regs);
      StartedThenFilled(old(m.ram), old(m.g), ram2, g2, tf, sig, part, regs);
      SharedFromOld(old(m.g), g1, g2, parent, root, n, code, tf);
    } else {
      FreeprocMemory(m, tf, sig, root, 0, false);
      Ended(old(m.ram), old(m.g), ram2, g2, m.ram, m.g, tf, sig, root, 0, part);
    }
  }

  /** kclone() and the thread's freeproc(): whatever fails on the way, the parent and
      everything else are as they were. */
  method ThreadLifetime(m: Memory, parent: int, ptf: int, sz: int, code: int, fcn: int, stack: int, arg: int)
    requires m.Valid() && Key(parent, 2, 0) in m.g.nodes && 0 <= sz && RoundUp(sz) <= TRAPFRAME
    requires ptf in m.g.use && m.g.use[ptf] == Held
    modifies m
    ensures m.Valid() && Restored(old(m.ram), old(m.g), m.ram, m.g)
  {
    var ok, tf, sig, root := Kclone(m, parent, ptf, sz, code, fcn, stack, arg);
    if ok {
      ghost var ram1, g1 := m.ram, m.g;
      FreeprocMemory(m, tf, sig, root, sz, true);
      Ended(old(m.ram), old(m.g), ram1, g1, m.ram, m.g, tf, sig, root, Ceil(sz), Tables(root));
    }
  }

  /** kfork() and the child's freeproc(): likewise, and the copies' frames come back too. */
  method ForkLifetime(m: Memory, parent: int, ptf: int, sz: int, code: int)
    requires m.Valid() && Key(parent, 2, 0) in m.g.nodes && 0 <= sz && RoundUp(sz) <= TRAPFRAME
    requires InData(m.g, parent, Ceil(sz)) && ptf in m.g.use && m.g.use[ptf] == Held
    modifies m
    ensures m.Valid() && Restored(old(m.ram), old(m.g), m.ram, m.g)
  {
    var ok, tf, sig, root := Kfork(m, parent, ptf, sz, code);
    if ok {
      ghost var ram1, g1 := m.ram, m.g;
      FreeprocMemory(m, tf, sig, root, sz, false);
      Ended(old(m.ram), old(m.g), ram1, g1, m.ram, m.g, tf, sig, root, Ceil(sz), Both(root, 0, Ceil(sz)));
    }
  }

  // ----- a process that moves its size and faults -----

  /** What a running process does to its memory. */
  datatype MemoryCall = Sbrk(n: int, eager: bool) | Touch(va: int)

  predicate CallOk(c: MemoryCall) {
    match c
    case Sbrk(n, _) => -0x8000_0000 <= n < 0x8000_0000
    case Touch(va) => 0 <= va
  }

  /** A process between two calls, seen from before it was made. */
  ghost predicate Living(ram0: map<int, Page>, g0: Shape, ram: map<int, Page>, g: Shape, tf: int, sig: int,
                         root: int, sz: int)
    requires 0 <= sz
  {
    && Started(ram0, g0, ram, g, tf, sig, Both(root, 0, Ceil(sz))) && NoUse(g0, root) && NoLeaves(g0, root)
    && OthersSame(g0, g, root) && Releasable(g, tf, sig, root, sz, false)
  }

  lemma LivingAfterTook(ram0: map<int, Page>, g0: Shape, ram1: map<int, Page>, g1: Shape, ram2: map<int, Page>,
                        g2: Shape, tf: int, sig: int, root: int, sz: int, sz': int, part: Part)
    requires 0 <= sz <= sz' && Ceil(sz') <= TRAPFRAME_PAGE && Living(ram0, g0, ram1, g1, tf, sig, root, sz)
    requires Took(ram1, g1, ram2, g2, part) && Within(part, Both(root, 0, Ceil(sz')))
    requires Key(root, 2, 0) in g2.nodes && OthersSame(g1, g2, root) && ProcessMemory(g2, root, sz')
    ensures Living(ram0, g0, ram2, g2, tf, sig, root, sz')
  {
    var p, r := Both(root, 0, Ceil(sz)), Both(root, 0, Ceil(sz'));
    StartedThenTook(ram0, g0, ram1, g1, ram2, g2, tf, sig, p, part, r);
    StartedBorrowed(ram0, g0, ram2, g2, tf, sig, root, Ceil(sz'), r, TRAPFRAME_PAGE, TRAMPOLINE_PAGE + 1);
  }

  lemma LivingAfterGave(ram0: map<int, Page>, g0: Shape, ram1: map<int, Page>, g1: Shape, ram2: map<int, Page>,
                        g2: Shape, tf: int, sig: int, root: int, sz: int, sz': int)
    requires 0 <= sz' <= sz && Ceil(sz) <= TRAPFRAME_PAGE && Living(ram0, g0, ram1, g1, tf, sig, root, sz)
    requires Gave(ram1, g1, ram2, g2, Pages(root, Ceil(sz'), Ceil(sz)))
    requires g2.leaf == UnmapRange(g1.leaf, root, Ceil(sz'), Ceil(sz) - Ceil(sz'))
    requires Key(root, 2, 0) in g2.nodes && ProcessMemory(g2, root, sz')
    ensures Living(ram0, g0, ram2, g2, tf, sig, root, sz')
  {
    var r := Both(root, 0, Ceil(sz'));
    StartedThenGave(ram0, g0, ram1, g1, ram2, g2, tf, sig, root, Ceil(sz), Ceil(sz'));
    StartedBorrowed(ram0, g0, ram2, g2, tf, sig, root, Ceil(sz'), r, TRAPFRAME_PAGE, TRAMPOLINE_PAGE + 1);
    forall p: Place
      ensures p.root != root ==>
                (p in g2.leaf <==> p in g0.leaf) && (p in g2.leaf ==> g2.leaf[p] == g0.leaf[p])
    {
      UnmapRangeAt(g1.leaf, root, Ceil(sz'), Ceil(sz) - Ceil(sz'), p);
    }
  }

  lemma GrewOthers(g0: Shape, ram: map<int, Page>, g: Shape, root: int, lo: int, hi: int, perm: int)
    requires Grew(g0, ram, g, root, lo, hi, perm)
    ensures OthersSame(g0, g, root)
  {
    forall p: Place
      ensures p.root != root ==>
                (p in g.leaf <==> p in g0.leaf) && (p in g.leaf ==> g.leaf[p] == g0.leaf[p])
    {
      assert GrewAt(g0, ram, g, root, lo, hi, perm, p);
    }
  }

  lemma LazilyLarger(g: Shape, root: int, sz: int, sz': int)
    requires 0 <= sz <= sz' <= TRAPFRAME && ProcessMemory(g, root, sz)
    ensures ProcessMemory(g, root, sz')
  {
    assert Ceil(sz) <= Ceil(sz') <= TRAPFRAME_PAGE;
    forall v | 0 <= v < Ceil(sz') && Place(root, v) in g.leaf ensures OwnsFrame(g, Place(root, v)) {
      assert Place(root, v).vpn < Ceil(sz);
    }
  }

  /** sys_sbrk(): the size moves at once, or lazily without taking memory. */
  method SysSbrk(m: Memory, root: int, sz: int, n: int, eager: bool,
                 ghost ram0: map<int, Page>, ghost g0: Shape, ghost tf: int, ghost sig: int)
    returns (ok: bool, sz': int)
    requires m.Valid() && 0 <= sz <= TRAPFRAME && CallOk(Sbrk(n, eager))
    requires Living(ram0, g0, m.ram, m.g, tf, sig, root, sz)
    modifies m
    ensures m.Valid() && 0 <= sz' <= TRAPFRAME && Living(ram0, g0, m.ram, m.g, tf, sig, root, sz')
    ensures sz' == if ok && sz + n >= 0 then sz + n else sz
    ensures n <= 0 ==> ok
    ensures n > 0 && !eager ==> unchanged(m) && (ok <==> sz + n <= TRAPFRAME)
    ensures n > 0 && eager && ok ==>
              Grew(old(m.g), m.ram, m.g, root, Ceil(sz), Ceil(sz + n), PTE_R + PTE_U + PTE_W)
    ensures !ok ==> m.g.leaf == old(m.g).leaf
    ensures n < 0 <= sz + n ==> m.g.leaf == UnmapRange(old(m.g).leaf, root, Ceil(sz + n), Ceil(sz) - Ceil(sz + n))
    ensures n < 0 <= sz + n ==> Gave(old(m.ram), old(m.g), m.ram, m.g, Pages(root, Ceil(sz + n), Ceil(sz)))
    ensures n == 0 || sz + n < 0 ==> unchanged(m)
    ensures n > 0 && eager ==>
              Ceil(sz) <= Ceil(sz + n)
              && (ok <==>
                    sz + n <= TRAPFRAME
                    && !Short(old(m.g), root, Ceil(sz + n) - Ceil(sz), RangePaths(Ceil(sz), Ceil(sz + n) - Ceil(sz))))
  {
    hide Cost, Short, Started, Took, Gave, Grew;
    ok, sz' := true, sz;
    ghost var ram1, g1 := m.ram, m.g;
    if eager || n < 0 {
      ok, sz' := Growproc(m, root, sz, n);
      if n > 0 && ok {
        GrewOthers(g1, m.ram, m.g, root, Ceil(sz), Ceil(sz + n), PTE_R + PTE_U + PTE_W);
        LivingAfterTook(ram0, g0, ram1, g1, m.ram, m.g, tf, sig, root, sz, sz', Both(root, Ceil(sz), Ceil(sz + n)));
      } else if n > 0 {
        LivingAfterTook(ram0, g0, ram1, g1, m.ram, m.g, tf, sig, root, sz, sz, Tables(root));
      } else if n < 0 <= sz + n {
        LivingAfterGave(ram0, g0, ram1, g1, m.ram, m.g, tf, sig, root, sz, sz');
      }
    } else if (sz + n) % 0x1_0000_0000_0000_0000 < sz || sz + n > TRAPFRAME {
      ok := false;
    } else {
      sz' := sz + n;
      LazilyLarger(m.g, root, sz, sz');
      TookNothing(m.ram, m.head, m.g, Tables(root));
      LivingAfterTook(ram0, g0, ram1, g1, m.ram, m.g, tf, sig, root, sz, sz', Tables(root));
    }
  }

  lemma FaultPrivate(ram0: map<int, Page>, g0: Shape, ram: map<int, Page>, g: Shape, root: int, sz: int, vpn: int)
    requires 0 <= sz && 0 <= vpn < Ceil(sz) && ProcessMemory(g0, root, sz)
    requires Took(ram0, g0, ram, g, Both(root, vpn, vpn + 1))
    requires Place(root, vpn) in g.leaf && OwnsFrame(g, Place(root, vpn))
    requires g.leaf == g0.leaf[Place(root, vpn) := g.leaf[Place(root, vpn)]]
    ensures ProcessMemory(g, root, sz) && OthersSame(g0, g, root)
  {
    forall v | 0 <= v < Ceil(sz) && Place(root, v) in g.leaf ensures OwnsFrame(g, Place(root, v)) {
      if v != vpn {
        assert OwnsFrame(g0, Place(root, v));
        assert TookAt(ram0, g0.use, ram, g.use, Both(root, vpn, vpn + 1), FrameOf(g.leaf[Place(root, v)]));
      }
    }
  }

  /** A page fault of the process itself. */
  method SysTouch(m: Memory, root: int, sz: int, va: int,
                  ghost ram0: map<int, Page>, ghost g0: Shape, ghost tf: int, ghost sig: int)
    requires m.Valid() && 0 <= sz <= TRAPFRAME && 0 <= va
    requires Living(ram0, g0, m.ram, m.g, tf, sig, root, sz)
    modifies m
    ensures m.Valid() && Living(ram0, g0, m.ram, m.g, tf, sig, root, sz)
    ensures va < sz && !Short(old(m.g), root, 1, PathTo(va / PGSIZE)) ==> Place(root, va / PGSIZE) in m.g.leaf
  {
    ghost var ram1, g1, vpn := m.ram, m.g, va / PGSIZE;
    var mem := Vmfault(m, root, sz, va);
    if mem == 0 {
      TookPrivate(ram1, g1, m.ram, m.g, root, Ceil(sz));
      LivingAfterTook(ram0, g0, ram1, g1, m.ram, m.g, tf, sig, root, sz, sz, Tables(root));
    } else {
      assert va < sz && vpn < Ceil(sz);
      FaultPrivate(ram1, g1, m.ram, m.g, root, sz, vpn);
      LivingAfterTook(ram0, g0, ram1, g1, m.ram, m.g, tf, sig, root, sz, sz, Both(root, vpn, vpn + 1));
    }
  }

  /** The life of a process that grows, shrinks and faults in any way it likes: freeproc()
      gives back exactly what it took. */
  method GrowLifetime(m: Memory, code: int, calls: seq<MemoryCall>)
    requires m.Valid() && forall i :: 0 <= i < |calls| ==> CallOk(calls[i])
    modifies m
    ensures m.Valid() && Restored(old(m.ram), old(m.g), m.ram, m.g)
  {
    var tf, sig, root := Allocproc(m, code);
    if root == 0 {
      return;
    }
    TookNothing(m.ram, m.head, m.g, Tables(root));
    StartedThenTook(old(m.ram), old(m.g), m.ram, m.g, m.ram, m.g, tf, sig, Tables(root), Tables(root),
                    Both(root, 0, 0));
    var sz := 0;
    for i := 0 to |calls|
      invariant m.Valid() && 0 <= sz <= TRAPFRAME
      invariant Living(old(m.ram), old(m.g), m.ram, m.g, tf, sig, root, sz)
    {
      match calls[i] {
        case Sbrk(n, eager) =>
          var _, sz' := SysSbrk(m, root, sz, n, eager, old(m.ram), old(m.g), tf, sig);
          sz := sz';
        case Touch(va) =>
          SysTouch(m, root, sz, va, old(m.ram), old(m.g), tf, sig);
      }
    }
    ghost var ram1, g1 := m.ram, m.g;
    FreeprocMemory(m, tf, sig, root, sz, false);
    Ended(old(m.ram), old(m.g), ram1, g1, m.ram, m.g, tf, sig, root, Ceil(sz), Both(root, 0, Ceil(sz)));
  }
}
