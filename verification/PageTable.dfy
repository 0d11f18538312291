/** Physical pages and three-level page tables: kernel/kalloc.c and kernel/vm.c.

    A page is named by its frame number; its address is 4096 times that.  Every page,
    whether table, user data or free, is 512 words of 64 bits. */
module PageTable {
  const PGSIZE := 4096
  const WORDS := 512
  /** One bit less than the three levels could address. */
  const MAXVA := 0x40_0000_0000
  const TRAMPOLINE := MAXVA - PGSIZE
  const TRAPFRAME := TRAMPOLINE - PGSIZE

  type Page = seq<int>

  function Filled(w: int): Page {
    seq(WORDS, i => w)
  }

  // ----- entries -----

  /** A page-table entry: frame number above ten flag bits, of which bit 0 says valid,
      bits 1-3 read, write and execute, bit 4 user. */
  function Pte(frame: int, perm: int): int {
    frame * 1024 + (if perm % 2 == 1 then perm else perm + 1)
  }

  predicate IsValid(pte: int) {
    pte % 2 == 1
  }

  /** Some of read, write and execute: entries without any point to a table. */
  predicate IsLeaf(pte: int) {
    (pte % 16) / 2 != 0
  }

  predicate IsUser(pte: int) {
    (pte / 16) % 2 == 1
  }

  function FrameOf(pte: int): int {
    pte / 1024
  }

  function FlagsOf(pte: int): int {
    pte % 1024
  }

  lemma Fields(frame: int, x: int)
    requires 0 <= x < 1024
    ensures (frame * 1024 + x) / 1024 == frame && (frame * 1024 + x) % 1024 == x
  {
  }

  lemma Low16(frame: int, x: int)
    ensures (frame * 1024 + x) % 16 == x % 16
    ensures ((frame * 1024 + x) / 16) % 2 == (x / 16) % 2
  {
    assert frame * 1024 + x == 16 * (64 * frame + x / 16) + x % 16;
    assert (frame * 1024 + x) / 16 == 64 * frame + x / 16;
  }

  lemma Parity(x: int)
    ensures x % 2 == (x % 16) % 2
  {
    assert x == 2 * (8 * (x / 16)) + x % 16;
  }

  /** Setting bit 0 changes no other bit. */
  lemma LowBit(perm: int)
    requires 0 <= perm < 1024 && perm % 2 == 0
    ensures (perm + 1) / 16 == perm / 16 && ((perm + 1) % 16) / 2 == (perm % 16) / 2
  {
    assert perm % 16 == 2 * ((perm % 16) / 2);
  }

  lemma PteParts(frame: int, perm: int)
    requires 0 <= perm < 1024
    ensures IsValid(Pte(frame, perm)) && FrameOf(Pte(frame, perm)) == frame
    ensures FlagsOf(Pte(frame, perm)) == if perm % 2 == 1 then perm else perm + 1
    ensures IsLeaf(Pte(frame, perm)) <==> IsLeaf(perm)
    ensures IsUser(Pte(frame, perm)) <==> IsUser(perm)
  {
    var x := if perm % 2 == 1 then perm else perm + 1;
    Fields(frame, x);
    Low16(frame, x);
    if perm % 2 == 0 {
      LowBit(perm);
    }
    Parity(Pte(frame, perm));
    Parity(x);
  }

  // ----- virtual addresses -----

  function PxShift(level: nat): (s: int)
    ensures s >= 4096
  {
    if level == 0 then 4096 else 512 * PxShift(level - 1)
  }

  /** The nine bits of `va` that index a table of this level. */
  function Px(level: nat, va: int): (i: int)
    ensures 0 <= i < WORDS
  {
    (va / PxShift(level)) % WORDS
  }

  /** Page number `vpn` without its lowest `level` indices: the table of level l that
      translates vpn is named by Up(vpn, l + 1). */
  function Up(vpn: int, level: nat): int {
    if level == 0 then vpn else Up(vpn, level - 1) / WORDS
  }

  lemma Split(b: int, q: int, c: int, r: int)
    requires q == 512 * c + r && 0 <= r < 512 && 0 < b
    ensures b * q == 512 * b * c + b * r && 0 <= b * r && b * r + b <= 512 * b
  {
    assert b * (r + 1) <= b * 512;
  }

  lemma DivUnique(a: int, d: int, c: int)
    requires 0 <= a && 0 < d && d * c <= a < d * c + d
    ensures a / d == c
  {
    var q := a / d;
    assert d * q <= a < d * q + d;
    assert q < c ==> d * (q + 1) <= d * c;
    assert c < q ==> d * (c + 1) <= d * q;
  }

  lemma DivDiv(a: int, b: int)
    requires 0 <= a && 0 < b
    ensures a / (512 * b) == (a / b) / 512
  {
    var q := a / b;
    var c, r := q / 512, q % 512;
    assert b * q <= a < b * q + b;
    Split(b, q, c, r);
    DivUnique(a, 512 * b, c);
  }

  lemma {:induction false} PxIsDigit(level: nat, va: int)
    requires 0 <= va
    ensures va / PxShift(level) == Up(va / PGSIZE, level)
    ensures Px(level, va) == Up(va / PGSIZE, level) % WORDS
  {
    if level > 0 {
      PxIsDigit(level - 1, va);
      DivDiv(va, PxShift(level - 1));
    }
  }

  lemma TopIsRoot(va: int)
    requires 0 <= va < MAXVA
    ensures Up(va / PGSIZE, 3) == 0
  {
    assert Up(va / PGSIZE, 1) == va / PGSIZE / 512;
    assert Up(va / PGSIZE, 2) == va / PGSIZE / 512 / 512;
  }

  // ----- what pages are used for -----

  /** A table: level 2 is the root, with prefix 0. */
  datatype Key = Key(root: int, level: int, prefix: int)

  datatype Place = Place(root: int, vpn: int)

  /** Free; taken by kalloc() for the caller; a table; or a page of user memory that
      belongs to one place. */
  datatype Use = Free | Held | Node(key: Key) | Owned(place: Place)

  /** The meaning of memory: the free list, the use of each frame, the tables, and the
      flat map from pages to entries that they implement, of every root at once. */
  datatype Shape = Shape(free: seq<int>, use: map<int, Use>, nodes: map<Key, int>, leaf: map<Place, int>)

  ghost predicate FramesOk(ram: map<int, Page>, use: map<int, Use>) {
    forall f {:trigger ram[f]} {:trigger use[f]} {:trigger f in ram} {:trigger f in use} ::
      (f in ram <==> f in use) && (f in ram ==> f > 0 && |ram[f]| == WORDS)
  }

  ghost predicate Listed(free: seq<int>, f: int) {
    exists i :: 0 <= i < |free| && free[i] == f
  }

  /** Position i of the free list: its first word leads to the next page. */
  ghost predicate LinkOk(ram: map<int, Page>, use: map<int, Use>, free: seq<int>, i: int)
    requires 0 <= i < |free|
  {
    && free[i] in use && use[free[i]] == Free && free[i] in ram && |ram[free[i]]| == WORDS
    && ram[free[i]][0] == (if i + 1 < |free| then free[i + 1] else 0)
  }

  ghost predicate FreeOk(ram: map<int, Page>, head: int, free: seq<int>, use: map<int, Use>) {
    && head == (if free == [] then 0 else free[0])
    && (forall i {:trigger LinkOk(ram, use, free, i)} :: 0 <= i < |free| ==> LinkOk(ram, use, free, i))
    && (forall i, j :: 0 <= i < j < |free| ==> free[i] != free[j])
    && (forall f {:trigger Listed(free, f)} :: f in use && use[f] == Free ==> Listed(free, f))
  }

  /** What entry number `q` of a level must hold: the flat map's entry at level 0, and
      a pointer to the next table above. */
  ghost function Entry(nodes: map<Key, int>, leaf: map<Place, int>, root: int, level: int, q: int): int {
    if level == 0 then (if Place(root, q) in leaf then leaf[Place(root, q)] else 0)
    else if Key(root, level - 1, q) in nodes then Pte(nodes[Key(root, level - 1, q)], 0)
    else 0
  }

  ghost predicate WordOk(ram: map<int, Page>, nodes: map<Key, int>, leaf: map<Place, int>, k: Key, e: int)
    requires k in nodes && 0 <= e < WORDS
  {
    && nodes[k] in ram && |ram[nodes[k]]| == WORDS
    && ram[nodes[k]][e] == Entry(nodes, leaf, k.root, k.level, k.prefix * WORDS + e)
  }

  function Above(k: Key): Key {
    Key(k.root, k.level + 1, k.prefix / WORDS)
  }

  ghost predicate NodeOk(use: map<int, Use>, nodes: map<Key, int>, k: Key)
    requires k in nodes
  {
    && 0 <= k.level <= 2 && k.prefix >= 0
    && (if k.level == 2 then k.prefix == 0 && nodes[k] == k.root else Above(k) in nodes)
    && nodes[k] in use && use[nodes[k]] == Node(k)
  }

  ghost predicate LeafOk(nodes: map<Key, int>, leaf: map<Place, int>, p: Place)
    requires p in leaf
  {
    p.vpn >= 0 && IsValid(leaf[p]) && Key(p.root, 0, p.vpn / WORDS) in nodes
  }

  ghost predicate UseOk(nodes: map<Key, int>, leaf: map<Place, int>, use: map<int, Use>, f: int)
    requires f in use
  {
    match use[f]
    case Node(k) => k in nodes && nodes[k] == f
    case Owned(p) => p in leaf && FrameOf(leaf[p]) == f
    case _ => true
  }

  /** The entry for table `hole` may be stale: freewalk() frees a table just before it
      clears the entry. */
  ghost predicate WordsOk(ram: map<int, Page>, g: Shape, hole: Key) {
    forall k, e {:trigger WordOk(ram, g.nodes, g.leaf, k, e)} ::
      k in g.nodes && 0 <= e < WORDS && Key(k.root, k.level - 1, k.prefix * WORDS + e) != hole ==>
          WordOk(ram, g.nodes, g.leaf, k, e)
  }

  ghost predicate NodesOk(g: Shape) {
    && (forall k {:trigger NodeOk(g.use, g.nodes, k)} :: k in g.nodes ==> NodeOk(g.use, g.nodes, k))
    && (forall p {:trigger LeafOk(g.nodes, g.leaf, p)} :: p in g.leaf ==> LeafOk(g.nodes, g.leaf, p))
    && (forall f {:trigger UseOk(g.nodes, g.leaf, g.use, f)} :: f in g.use ==>
         UseOk(g.nodes, g.leaf, g.use, f))
  }

  /** Not the key of any table. */
  const NO_KEY := Key(0, -2, 0)

  /** Memory is exactly the free list, the tables, owned pages and held pages, and the
      words of the tables say what the flat map says. */
  ghost predicate TreeOk(ram: map<int, Page>, g: Shape, hole: Key) {
    FramesOk(ram, g.use) && WordsOk(ram, g, hole) && NodesOk(g)
  }

  ghost predicate Ok(ram: map<int, Page>, head: int, g: Shape, hole: Key) {
    FreeOk(ram, head, g.free, g.use) && TreeOk(ram, g, hole)
  }

  // ----- what the hardware sees -----

  /** Translation as the processor does it, on memory alone: from table `frame` of this
      level, the level-0 entry for `va`, or 0. */
  function Translate(ram: map<int, Page>, frame: int, level: nat, va: int): int
    decreases level
  {
    if frame !in ram || |ram[frame]| != WORDS then 0
    else
      var pte := ram[frame][Px(level, va)];
      if level == 0 || !IsValid(pte) then (if IsValid(pte) then pte else 0)
      else Translate(ram, FrameOf(pte), level - 1, va)
  }

  /** A table has tables on every level above it. */
  lemma {:induction false} NodeNeeds(g: Shape, root: int, vpn: int, level: nat)
    requires NodesOk(g) && level <= 2
    ensures Key(root, 0, vpn / WORDS) in g.nodes ==> Key(root, level, Up(vpn, level + 1)) in g.nodes
  {
    if level == 0 {
      assert Up(vpn, 1) == Up(vpn, 0) / WORDS;
    } else {
      NodeNeeds(g, root, vpn, level - 1);
      if Key(root, level - 1, Up(vpn, level)) in g.nodes {
        assert NodeOk(g.use, g.nodes, Key(root, level - 1, Up(vpn, level)));
      }
    }
  }

  /** A mapped page has its table on every level. */
  lemma LeafNeeds(g: Shape, root: int, vpn: int, level: nat)
    requires NodesOk(g) && level <= 2
    ensures Place(root, vpn) in g.leaf ==> Key(root, level, Up(vpn, level + 1)) in g.nodes
  {
    NodeNeeds(g, root, vpn, level);
    if Place(root, vpn) in g.leaf {
      assert LeafOk(g.nodes, g.leaf, Place(root, vpn));
    }
  }

  lemma {:induction false} TranslateFrom(ram: map<int, Page>, g: Shape, root: int, level: nat, va: int)
    requires TreeOk(ram, g, NO_KEY) && 0 <= va < MAXVA
    requires level <= 2 && Key(root, level, Up(va / PGSIZE, level + 1)) in g.nodes
    ensures Translate(ram, g.nodes[Key(root, level, Up(va / PGSIZE, level + 1))], level, va)
            == if Place(root, va / PGSIZE) in g.leaf then g.leaf[Place(root, va / PGSIZE)] else 0
  {
    var vpn := va / PGSIZE;
    var k, e := Key(root, level, Up(vpn, level + 1)), Px(level, va);
    PxIsDigit(level, va);
    assert k.prefix * WORDS + e == Up(vpn, level);
    assert WordOk(ram, g.nodes, g.leaf, k, e);
    if Place(root, vpn) in g.leaf {
      assert LeafOk(g.nodes, g.leaf, Place(root, vpn));
    }
    if level > 0 {
      var c := Key(root, level - 1, Up(vpn, level));
      if c in g.nodes {
        PteParts(g.nodes[c], 0);
        TranslateFrom(ram, g, root, level - 1, va);
      } else {
        LeafNeeds(g, root, vpn, level - 1);
      }
    }
  }

  /** The tables of a root implement its part of the flat map. */
  lemma TranslateIsFlat(ram: map<int, Page>, g: Shape, root: int, va: int)
    requires TreeOk(ram, g, NO_KEY) && Key(root, 2, 0) in g.nodes && 0 <= va < MAXVA
    ensures Translate(ram, root, 2, va) == if Place(root, va / PGSIZE) in g.leaf then g.leaf[Place(root, va / PGSIZE)]
              else 0
  {
    TopIsRoot(va);
    assert NodeOk(g.use, g.nodes, Key(root, 2, 0));
    TranslateFrom(ram, g, root, 2, va);
  }

  // ----- single steps on memory -----

  /** Words of tables stay right when the tables and what they say are the same. */
  lemma WordsKept(ram: map<int, Page>, ram': map<int, Page>, g: Shape, g': Shape, hole: Key)
    requires WordsOk(ram, g, hole) && NodesOk(g) && g'.nodes == g.nodes && g'.leaf == g.leaf
    requires forall f {:trigger ram'[f]} {:trigger f in ram'} :: f in g.use && g.use[f].Node? && f in ram ==>
               f in ram' && ram'[f] == ram[f]
    ensures WordsOk(ram', g', hole)
  {
    forall k, e | k in g.nodes && 0 <= e < WORDS && Key(k.root, k.level - 1, k.prefix * WORDS + e) != hole
      ensures WordOk(ram', g.nodes, g.leaf, k, e)
    {
      assert NodeOk(g.use, g.nodes, k) && WordOk(ram, g.nodes, g.leaf, k, e);
      var f := g.nodes[k];
      assert f in g.use && g.use[f].Node? && f in ram;
      assert f in ram' && ram'[f] == ram[f];
    }
  }

  /** Frame f's page is overwritten; nothing that reads tables or the list sees it. */
  lemma StoreData(ram: map<int, Page>, head: int, g: Shape, hole: Key, f: int, page: Page)
    requires Ok(ram, head, g, hole) && f in g.use && (g.use[f] == Held || g.use[f].Owned?)
    requires |page| == WORDS
    ensures Ok(ram[f := page], head, g, hole)
  {
    var ram' := ram[f := page];
    forall i | 0 <= i < |g.free| ensures LinkOk(ram', g.use, g.free, i) {
      assert LinkOk(ram, g.use, g.free, i);
    }
    WordsKept(ram, ram', g, g, hole);
  }

  function WithUse(g: Shape, f: int, u: Use): Shape {
    g.(use := g.use[f := u])
  }

  /** Use of one frame changes, between free, held and owned by a place mapped to it. */
  lemma UseChanged(g: Shape, f: int, u: Use, free: seq<int>)
    requires NodesOk(g) && f in g.use && !g.use[f].Node?
    requires u == Free || u == Held || (u.Owned? && u.place in g.leaf && FrameOf(g.leaf[u.place]) == f)
    ensures NodesOk(WithUse(g, f, u).(free := free))
  {
    var g' := WithUse(g, f, u).(free := free);
    forall k | k in g.nodes ensures NodeOk(g'.use, g'.nodes, k) {
      assert NodeOk(g.use, g.nodes, k);
    }
    forall p | p in g.leaf ensures LeafOk(g'.nodes, g'.leaf, p) {
      assert LeafOk(g.nodes, g.leaf, p);
    }
    forall h | h in g'.use ensures UseOk(g'.nodes, g'.leaf, g'.use, h) {
      assert h != f ==> UseOk(g.nodes, g.leaf, g.use, h);
    }
  }

  /** What kalloc() leaves: the head of the list is held. */
  function Alloced(g: Shape): Shape
    requires g.free != []
  {
    WithUse(g, g.free[0], Held).(free := g.free[1..])
  }

  lemma KallocStep(ram: map<int, Page>, head: int, g: Shape, hole: Key, page: Page)
    requires Ok(ram, head, g, hole) && g.free != [] && |page| == WORDS
    ensures head == g.free[0] > 0 && head in ram && |ram[head]| == WORDS && head in g.use
    ensures g.use[head] == Free
    ensures Ok(ram[head := page], ram[head][0], Alloced(g), hole)
  {
    var g', f := Alloced(g), g.free[0];
    assert LinkOk(ram, g.use, g.free, 0);
    var ram' := ram[f := page];
    var rest := g.free[1..];
    forall i | 0 <= i < |rest| ensures LinkOk(ram', g'.use, rest, i) {
      assert LinkOk(ram, g.use, g.free, i + 1) && g.free[0] != g.free[i + 1];
    }
    forall h | h in g'.use && g'.use[h] == Free ensures Listed(rest, h) {
      assert Listed(g.free, h);
      var i :| 0 <= i < |g.free| && g.free[i] == h;
      assert rest[i - 1] == h;
    }
    UseChanged(g, f, Held, rest);
    WordsKept(ram, ram', g, g', hole);
  }

  /** What kfree() leaves. */
  function Freed(g: Shape, f: int): Shape {
    WithUse(g, f, Free).(free := [f] + g.free)
  }

  lemma PushFree(ram: map<int, Page>, head: int, free: seq<int>, use: map<int, Use>, f: int, page: Page)
    requires FreeOk(ram, head, free, use) && f in use && use[f] == Held && |page| == WORDS
    requires page[0] == head
    ensures FreeOk(ram[f := page], f, [f] + free, use[f := Free])
  {
    var more, use', ram' := [f] + free, use[f := Free], ram[f := page];
    forall i | 0 <= i < |free| ensures free[i] != f {
      assert LinkOk(ram, use, free, i);
    }
    forall i | 0 <= i < |more| ensures LinkOk(ram', use', more, i) {
      assert i > 0 ==> LinkOk(ram, use, free, i - 1);
    }
    forall h | h in use' && use'[h] == Free ensures Listed(more, h) {
      if h == f {
        assert more[0] == f;
      } else {
        assert Listed(free, h);
        var i :| 0 <= i < |free| && free[i] == h;
        assert more[i + 1] == h;
      }
    }
  }

  lemma KfreeStep(ram: map<int, Page>, head: int, g: Shape, hole: Key, f: int, page: Page)
    requires Ok(ram, head, g, hole) && f in g.use && g.use[f] == Held && |page| == WORDS
    requires page[0] == head
    ensures Ok(ram[f := page], f, Freed(g, f), hole)
  {
    var g' := Freed(g, f);
    assert f in ram;
    PushFree(ram, head, g.free, g.use, f, page);
    UseChanged(g, f, Free, g'.free);
    WordsKept(ram, ram[f := page], g, g', hole);
  }

  lemma FreeKept(ram: map<int, Page>, ram': map<int, Page>, head: int, g: Shape, g': Shape)
    requires FreeOk(ram, head, g.free, g.use) && g'.free == g.free
    requires forall f {:trigger g'.use[f]} {:trigger f in g'.use} ::
               (f in g.use <==> f in g'.use) && (f in g.use ==> (g.use[f] == Free <==> g'.use[f] == Free))
    requires forall f {:trigger ram'[f]} {:trigger f in ram'} :: f in ram && f in g.use && g.use[f] == Free ==>
               f in ram' && ram'[f] == ram[f]
    ensures FreeOk(ram', head, g'.free, g'.use)
  {
    forall i | 0 <= i < |g.free| ensures LinkOk(ram', g'.use, g.free, i) {
      assert LinkOk(ram, g.use, g.free, i);
    }
    forall f | f in g'.use && g'.use[f] == Free ensures Listed(g.free, f) {
      assert f in g.use && g.use[f] == Free;
    }
  }

  /** A page changes between held and owned by the place mapped to it. */
  lemma OwnStep(ram: map<int, Page>, head: int, g: Shape, hole: Key, f: int, u: Use)
    requires Ok(ram, head, g, hole) && f in g.use && (g.use[f] == Held || g.use[f].Owned?)
    requires u == Held || (u.Owned? && u.place in g.leaf && FrameOf(g.leaf[u.place]) == f)
    ensures Ok(ram, head, WithUse(g, f, u), hole)
  {
    UseChanged(g, f, u, g.free);
    FreeKept(ram, ram, head, g, WithUse(g, f, u));
    WordsKept(ram, ram, g, WithUse(g, f, u), hole);
  }

  /** One word of a table. */
  function Poke(ram: map<int, Page>, f: int, e: int, w: int): map<int, Page>
    requires f in ram && 0 <= e < |ram[f]|
  {
    ram[f := ram[f][e := w]]
  }

  lemma PokeFrames(ram: map<int, Page>, head: int, g: Shape, f: int, e: int, w: int)
    requires FramesOk(ram, g.use) && FreeOk(ram, head, g.free, g.use) && f in g.use && g.use[f] != Free
    requires 0 <= e < WORDS
    ensures FramesOk(Poke(ram, f, e, w), g.use) && FreeOk(Poke(ram, f, e, w), head, g.free, g.use)
  {
    FreeKept(ram, Poke(ram, f, e, w), head, g, g);
  }

  /** Distinct tables have distinct frames. */
  lemma NodesDistinct(g: Shape, j: Key, k: Key)
    requires NodesOk(g) && j in g.nodes && k in g.nodes && g.nodes[j] == g.nodes[k]
    ensures j == k
  {
    assert NodeOk(g.use, g.nodes, j) && NodeOk(g.use, g.nodes, k);
  }

  function WithLeaf(g: Shape, p: Place, pte: int): Shape {
    g.(leaf := g.leaf[p := pte])
  }

  /** Setting the entry of an unmapped page. */
  lemma SetLeafStep(ram: map<int, Page>, head: int, g: Shape, p: Place, pte: int)
    requires Ok(ram, head, g, NO_KEY) && p.vpn >= 0 && Key(p.root, 0, p.vpn / WORDS) in g.nodes
    requires IsValid(pte) && p !in g.leaf
    ensures var f := g.nodes[Key(p.root, 0, p.vpn / WORDS)];
            f in ram && |ram[f]| == WORDS && Ok(Poke(ram, f, p.vpn % WORDS, pte), head, WithLeaf(g, p, pte), NO_KEY)
  {
    var k := Key(p.root, 0, p.vpn / WORDS);
    var f, g' := g.nodes[k], WithLeaf(g, p, pte);
    assert NodeOk(g.use, g.nodes, k);
    var ram' := Poke(ram, f, p.vpn % WORDS, pte);
    PokeFrames(ram, head, g, f, p.vpn % WORDS, pte);
    forall j, e | j in g.nodes && 0 <= e < WORDS && Key(j.root, j.level - 1, j.prefix * WORDS + e) != NO_KEY
      ensures WordOk(ram', g'.nodes, g'.leaf, j, e)
    {
      assert WordOk(ram, g.nodes, g.leaf, j, e);
      if g.nodes[j] == f {
        NodesDistinct(g, j, k);
      }
    }
    forall q | q in g'.leaf ensures LeafOk(g'.nodes, g'.leaf, q) {
      assert q != p ==> LeafOk(g.nodes, g.leaf, q);
    }
    forall h | h in g'.use ensures UseOk(g'.nodes, g'.leaf, g'.use, h) {
      assert UseOk(g.nodes, g.leaf, g.use, h);
    }
    forall j | j in g'.nodes ensures NodeOk(g'.use, g'.nodes, j) {
      assert NodeOk(g.use, g.nodes, j);
    }
  }

  function WithoutLeaf(g: Shape, p: Place): Shape {
    g.(leaf := g.leaf - {p})
  }

  /** Clearing the entry of a page that owns no frame. */
  lemma ClearLeafStep(ram: map<int, Page>, head: int, g: Shape, p: Place)
    requires Ok(ram, head, g, NO_KEY) && p in g.leaf
    requires FrameOf(g.leaf[p]) in g.use ==> g.use[FrameOf(g.leaf[p])] != Owned(p)
    ensures p.vpn >= 0 && Key(p.root, 0, p.vpn / WORDS) in g.nodes
    ensures var f := g.nodes[Key(p.root, 0, p.vpn / WORDS)];
            f in ram && |ram[f]| == WORDS && Ok(Poke(ram, f, p.vpn % WORDS, 0), head, WithoutLeaf(g, p), NO_KEY)
  {
    var k := Key(p.root, 0, p.vpn / WORDS);
    assert LeafOk(g.nodes, g.leaf, p);
    var f, g' := g.nodes[k], WithoutLeaf(g, p);
    assert NodeOk(g.use, g.nodes, k);
    var ram' := Poke(ram, f, p.vpn % WORDS, 0);
    PokeFrames(ram, head, g, f, p.vpn % WORDS, 0);
    forall j, e | j in g.nodes && 0 <= e < WORDS && Key(j.root, j.level - 1, j.prefix * WORDS + e) != NO_KEY
      ensures WordOk(ram', g'.nodes, g'.leaf, j, e)
    {
      assert WordOk(ram, g.nodes, g.leaf, j, e);
      if g.nodes[j] == f {
        NodesDistinct(g, j, k);
      }
    }
    forall q | q in g'.leaf ensures LeafOk(g'.nodes, g'.leaf, q) {
      assert LeafOk(g.nodes, g.leaf, q);
    }
    forall h | h in g'.use ensures UseOk(g'.nodes, g'.leaf, g'.use, h) {
      assert UseOk(g.nodes, g.leaf, g.use, h);
    }
    forall j | j in g'.nodes ensures NodeOk(g'.use, g'.nodes, j) {
      assert NodeOk(g.use, g.nodes, j);
    }
  }

  function WithNode(g: Shape, k: Key, c: int): Shape {
    WithUse(g, c, Node(k)).(nodes := g.nodes[k := c])
  }

  /** Nothing is translated by a table that is not there. */
  ghost predicate NothingBelow(g: Shape, k: Key) {
    && (forall j {:trigger j in g.nodes} :: j in g.nodes ==> Above(j) != k)
    && (forall p {:trigger p in g.leaf} :: p in g.leaf && p.root == k.root && k.level == 0 ==>
         p.vpn / WORDS != k.prefix)
  }

  lemma AbsentIsEmpty(g: Shape, k: Key)
    requires NodesOk(g) && k !in g.nodes && k.level < 2
    ensures NothingBelow(g, k)
  {
    forall j | j in g.nodes ensures Above(j) != k {
      assert NodeOk(g.use, g.nodes, j);
    }
    forall p | p in g.leaf && p.root == k.root && k.level == 0 ensures p.vpn / WORDS != k.prefix {
      assert LeafOk(g.nodes, g.leaf, p);
    }
  }

  lemma NewTableNodes(g: Shape, k: Key, c: int)
    requires NodesOk(g) && k !in g.nodes && 0 <= k.level <= 2 && k.prefix >= 0 && c in g.use
    requires g.use[c] == Held
    requires if k.level == 2 then k.prefix == 0 && c == k.root else Above(k) in g.nodes
    ensures NodesOk(WithNode(g, k, c))
  {
    var g' := WithNode(g, k, c);
    forall j | j in g'.nodes ensures NodeOk(g'.use, g'.nodes, j) {
      assert j != k ==> NodeOk(g.use, g.nodes, j);
    }
    forall q | q in g'.leaf ensures LeafOk(g'.nodes, g'.leaf, q) {
      assert LeafOk(g.nodes, g.leaf, q);
    }
    forall h | h in g'.use ensures UseOk(g'.nodes, g'.leaf, g'.use, h) {
      assert UseOk(g.nodes, g.leaf, g.use, h);
    }
  }

  lemma EmptyEntries(g: Shape, k: Key, c: int, e: int)
    requires 0 <= e < WORDS && NothingBelow(g, k) && k.level >= 0
    ensures Entry(g.nodes[k := c], g.leaf, k.root, k.level, k.prefix * WORDS + e) == 0
  {
    var q := k.prefix * WORDS + e;
    assert q / WORDS == k.prefix;
    assert Above(Key(k.root, k.level - 1, q)) == k;
    assert Key(k.root, k.level - 1, q) !in g.nodes;
    if k.level == 0 {
      assert Place(k.root, q) !in g.leaf;
    }
  }

  lemma NewTableWords(ram: map<int, Page>, g: Shape, k: Key, c: int)
    requires WordsOk(ram, g, NO_KEY) && NodesOk(g) && k !in g.nodes && 0 <= k.level
    requires c in ram && ram[c] == Filled(0) && NothingBelow(g, k)
    ensures WordsOk(ram, WithNode(g, k, c), k)
  {
    var g' := WithNode(g, k, c);
    forall j, e | j in g'.nodes && 0 <= e < WORDS && Key(j.root, j.level - 1, j.prefix * WORDS + e) != k
      ensures WordOk(ram, g'.nodes, g'.leaf, j, e)
    {
      if j == k {
        EmptyEntries(g, k, c, e);
      } else {
        assert NodeOk(g.use, g.nodes, j);
        assert WordOk(ram, g.nodes, g.leaf, j, e);
      }
    }
  }

  /** A new table: a zeroed page, all of whose entries are empty. */
  lemma NewTable(ram: map<int, Page>, head: int, g: Shape, k: Key, c: int)
    requires Ok(ram, head, g, NO_KEY) && k !in g.nodes && 0 <= k.level <= 2 && k.prefix >= 0
    requires c in g.use && g.use[c] == Held && c in ram && ram[c] == Filled(0) && NothingBelow(g, k)
    requires if k.level == 2 then k.prefix == 0 && c == k.root else Above(k) in g.nodes
    ensures Ok(ram, head, WithNode(g, k, c), k)
  {
    FreeKept(ram, ram, head, g, WithNode(g, k, c));
    NewTableNodes(g, k, c);
    NewTableWords(ram, g, k, c);
  }

  /** Writing the entry for table k, valid or absent, makes every word right. */
  lemma SetEntryStep(ram: map<int, Page>, head: int, g: Shape, k: Key)
    requires Ok(ram, head, g, k) && 0 <= k.level < 2 && k.prefix >= 0 && Above(k) in g.nodes
    ensures var f := g.nodes[Above(k)];
            f in ram && |ram[f]| == WORDS
            && Ok(Poke(ram, f, k.prefix % WORDS, if k in g.nodes then Pte(g.nodes[k], 0) else 0), head, g, NO_KEY)
  {
    var f, w, i := g.nodes[Above(k)], (if k in g.nodes then Pte(g.nodes[k], 0) else 0), k.prefix % WORDS;
    assert NodeOk(g.use, g.nodes, Above(k));
    var ram' := Poke(ram, f, i, w);
    PokeFrames(ram, head, g, f, i, w);
    forall j, e | j in g.nodes && 0 <= e < WORDS && Key(j.root, j.level - 1, j.prefix * WORDS + e) != NO_KEY
      ensures WordOk(ram', g.nodes, g.leaf, j, e)
    {
      var q := j.prefix * WORDS + e;
      assert q / WORDS == j.prefix && q % WORDS == e;
      assert NodeOk(g.use, g.nodes, j);
      if Key(j.root, j.level - 1, q) != k {
        assert WordOk(ram, g.nodes, g.leaf, j, e);
        if g.nodes[j] == f {
          NodesDistinct(g, j, Above(k));
        }
      }
    }
  }

  function WithoutNode(g: Shape, k: Key): Shape
    requires k in g.nodes
  {
    WithUse(g, g.nodes[k], Held).(nodes := g.nodes - {k})
  }

  /** A table that translates nothing may go; the entry above it is then stale. */
  lemma DropTable(ram: map<int, Page>, head: int, g: Shape, k: Key)
    requires Ok(ram, head, g, NO_KEY) && k in g.nodes && NothingBelow(g, k)
    ensures Ok(ram, head, WithoutNode(g, k), k)
  {
    var g', c := WithoutNode(g, k), g.nodes[k];
    assert NodeOk(g.use, g.nodes, k);
    FreeKept(ram, ram, head, g, g');
    forall j | j in g'.nodes ensures NodeOk(g'.use, g'.nodes, j) {
      assert NodeOk(g.use, g.nodes, j);
      assert Above(j) != k;
      if g.nodes[j] == c {
        NodesDistinct(g, j, k);
      }
    }
    forall q | q in g'.leaf ensures LeafOk(g'.nodes, g'.leaf, q) {
      assert LeafOk(g.nodes, g.leaf, q);
    }
    forall h | h in g'.use ensures UseOk(g'.nodes, g'.leaf, g'.use, h) {
      assert UseOk(g.nodes, g.leaf, g.use, h);
    }
    forall j, e | j in g'.nodes && 0 <= e < WORDS && Key(j.root, j.level - 1, j.prefix * WORDS + e) != k
      ensures WordOk(ram, g'.nodes, g'.leaf, j, e)
    {
      assert NodeOk(g.use, g.nodes, j);
      assert WordOk(ram, g.nodes, g.leaf, j, e);
    }
  }

  // ----- what operations take and give -----

  /** Uses that make up: pages of a root from lo to hi; its tables; both; the tables at
      and below one; those below its first n entries. */
  datatype Part = Pages(root: int, lo: int, hi: int) | Tables(root: int) | Both(root: int, lo: int, hi: int)
                | Subtree(key: Key) | Entries(key: Key, n: int)

  predicate Under(j: Key, k: Key) {
    j.root == k.root && 0 <= j.level <= k.level && Up(j.prefix, k.level - j.level) == k.prefix
  }

  /** j is below one of the first n entries of k. */
  predicate UnderFirst(j: Key, k: Key, n: int) {
    Under(j, k) && j.level < k.level && Up(j.prefix, k.level - 1 - j.level) < k.prefix * WORDS + n
  }

  predicate In(part: Part, u: Use) {
    match part
    case Pages(root, lo, hi) => u.Owned? && u.place.root == root && lo <= u.place.vpn < hi
    case Tables(root) => u.Node? && u.key.root == root
    case Both(root, lo, hi) => (u.Owned? && u.place.root == root && lo <= u.place.vpn < hi)
        || (u.Node? && u.key.root == root)
    case Subtree(k) => u.Node? && Under(u.key, k)
    case Entries(k, n) => u.Node? && UnderFirst(u.key, k, n)
  }

  /** Frame f holds data that must not change. */
  predicate HasData(use: map<int, Use>, f: int) {
    f in use && (use[f] == Held || use[f].Owned?)
  }

  ghost predicate TookAt(ram: map<int, Page>, use: map<int, Use>, ram': map<int, Page>, use': map<int, Use>,
                         part: Part, f: int) {
    && (f in use <==> f in use')
    && (f in use && use[f] == Free ==> use'[f] == Free || In(part, use'[f]))
    && (f in use && use[f] != Free ==> use'[f] == use[f])
    && (HasData(use, f) ==> f in ram && f in ram' && ram'[f] == ram[f])
  }

  /** Some free frames are now in use for `part`; no other use and no data changed. */
  ghost predicate Took(ram: map<int, Page>, g: Shape, ram': map<int, Page>, g': Shape, part: Part) {
    forall f {:trigger TookAt(ram, g.use, ram', g'.use, part, f)} :: TookAt(ram, g.use, ram', g'.use, part, f)
  }

  ghost predicate GaveAt(ram: map<int, Page>, use: map<int, Use>, ram': map<int, Page>, use': map<int, Use>,
                         part: Part, f: int) {
    && (f in use <==> f in use')
    && (f in use ==> use'[f] == if In(part, use[f]) then Free else use[f])
    && (HasData(use, f) && !In(part, use[f]) ==> f in ram && f in ram' && ram'[f] == ram[f])
  }

  /** All frames of `part` are free; no other use and no data changed. */
  ghost predicate Gave(ram: map<int, Page>, g: Shape, ram': map<int, Page>, g': Shape, part: Part) {
    forall f {:trigger GaveAt(ram, g.use, ram', g'.use, part, f)} :: GaveAt(ram, g.use, ram', g'.use, part, f)
  }

  predicate Within(p: Part, q: Part) {
    match (p, q)
    case (Tables(r), Tables(s)) => r == s
    case (Tables(r), Both(s, _, _)) => r == s
    case (Both(r, lo, hi), Both(s, lo', hi')) => r == s && (lo >= hi || (lo' <= lo && hi <= hi'))
    case _ => false
  }

  lemma TookTwice(ram0: map<int, Page>, g0: Shape, ram1: map<int, Page>, g1: Shape, ram2: map<int, Page>,
                  g2: Shape, p: Part, q: Part, r: Part)
    requires Took(ram0, g0, ram1, g1, p) && Took(ram1, g1, ram2, g2, q) && Within(p, r) && Within(q, r)
    ensures Took(ram0, g0, ram2, g2, r)
  {
    forall f ensures TookAt(ram0, g0.use, ram2, g2.use, r, f) {
      assert TookAt(ram0, g0.use, ram1, g1.use, p, f) && TookAt(ram1, g1.use, ram2, g2.use, q, f);
    }
  }

  /** Rollback: giving back all pages taken leaves only tables taken. */
  lemma TookThenGave(ram0: map<int, Page>, g0: Shape, ram1: map<int, Page>, g1: Shape, ram2: map<int, Page>,
                     g2: Shape, root: int, lo: int, hi: int)
    requires Took(ram0, g0, ram1, g1, Both(root, lo, hi))
    requires Gave(ram1, g1, ram2, g2, Pages(root, lo, hi))
    requires forall f :: f in g0.use ==> !In(Pages(root, lo, hi), g0.use[f])
    ensures Took(ram0, g0, ram2, g2, Tables(root))
  {
    forall f ensures TookAt(ram0, g0.use, ram2, g2.use, Tables(root), f) {
      assert TookAt(ram0, g0.use, ram1, g1.use, Both(root, lo, hi), f)
          && GaveAt(ram1, g1.use, ram2, g2.use, Pages(root, lo, hi), f);
      assert f in g0.use ==> !In(Pages(root, lo, hi), g0.use[f]);
    }
  }

  /** Conservation: freeing everything of a root that began with nothing restores the
      use of every frame. */
  lemma LifetimeConserves(ram0: map<int, Page>, g0: Shape, ram1: map<int, Page>, g1: Shape,
                          ram2: map<int, Page>, g2: Shape, root: int, lo: int, hi: int)
    requires Took(ram0, g0, ram1, g1, Both(root, lo, hi)) && Gave(ram1, g1, ram2, g2, Both(root, lo, hi))
    requires forall f :: f in g0.use ==> !In(Both(root, lo, hi), g0.use[f])
    ensures g2.use == g0.use
  {
    forall f ensures (f in g2.use <==> f in g0.use) && (f in g0.use ==> g2.use[f] == g0.use[f]) {
      assert TookAt(ram0, g0.use, ram1, g1.use, Both(root, lo, hi), f)
          && GaveAt(ram1, g1.use, ram2, g2.use, Both(root, lo, hi), f);
    }
  }

  /** Tables are never moved. */
  lemma NodeKept(ram: map<int, Page>, g: Shape, ram': map<int, Page>, g': Shape, part: Part, k: Key)
    requires NodesOk(g) && NodesOk(g') && Took(ram, g, ram', g', part) && k in g.nodes
    ensures k in g'.nodes && g'.nodes[k] == g.nodes[k]
  {
    assert NodeOk(g.use, g.nodes, k);
    assert TookAt(ram, g.use, ram', g'.use, part, g.nodes[k]);
    assert UseOk(g'.nodes, g'.leaf, g'.use, g.nodes[k]);
  }

  /** The level-0 table holds the flat map's entry, valid exactly when mapped. */
  lemma EntryIsLeaf(ram: map<int, Page>, g: Shape, root: int, vpn: int)
    requires TreeOk(ram, g, NO_KEY) && Key(root, 0, vpn / WORDS) in g.nodes
    ensures var f := g.nodes[Key(root, 0, vpn / WORDS)];
            f in ram && |ram[f]| == WORDS && f in g.use && g.use[f] == Node(Key(root, 0, vpn / WORDS))
            && ram[f][vpn % WORDS] == (if Place(root, vpn) in g.leaf then g.leaf[Place(root, vpn)] else 0)
            && (IsValid(ram[f][vpn % WORDS]) <==> Place(root, vpn) in g.leaf)
  {
    var k := Key(root, 0, vpn / WORDS);
    assert NodeOk(g.use, g.nodes, k) && WordOk(ram, g.nodes, g.leaf, k, vpn % WORDS);
    if Place(root, vpn) in g.leaf {
      assert LeafOk(g.nodes, g.leaf, Place(root, vpn));
    }
  }

  /** A table's entry for the table below, valid exactly when there is one. */
  lemma EntryIsTable(ram: map<int, Page>, g: Shape, root: int, level: int, q: int)
    requires TreeOk(ram, g, NO_KEY) && 0 < level <= 2 && Key(root, level, q / WORDS) in g.nodes
    ensures var f, c := g.nodes[Key(root, level, q / WORDS)], Key(root, level - 1, q);
            f in ram && |ram[f]| == WORDS
            && (IsValid(ram[f][q % WORDS]) <==> c in g.nodes)
            && (c in g.nodes ==> FrameOf(ram[f][q % WORDS]) == g.nodes[c] && !IsLeaf(ram[f][q % WORDS]))
  {
    var k, c := Key(root, level, q / WORDS), Key(root, level - 1, q);
    assert NodeOk(g.use, g.nodes, k) && WordOk(ram, g.nodes, g.leaf, k, q % WORDS);
    if c in g.nodes {
      PteParts(g.nodes[c], 0);
    }
  }

  const JUNK1 := 0x0101_0101_0101_0101
  const JUNK5 := 0x0505_0505_0505_0505

  lemma TookNothing(ram: map<int, Page>, head: int, g: Shape, part: Part)
    requires Ok(ram, head, g, NO_KEY)
    ensures Took(ram, g, ram, g, part)
  {
    forall f ensures TookAt(ram, g.use, ram, g.use, part, f) {
    }
  }

  lemma TookTable(ram: map<int, Page>, head: int, g: Shape, ram1: map<int, Page>, k: Key, c: int, f: int,
                  e: int)
    requires Ok(ram, head, g, NO_KEY) && g.free != [] && c == g.free[0]
    requires ram1 == ram[c := Filled(JUNK5)][c := Filled(0)]
    requires Above(k) in g.nodes && f == g.nodes[Above(k)] && 0 <= e < WORDS
    ensures f in ram1 && |ram1[f]| == WORDS
    ensures Took(ram, g, ram1[f := ram1[f][e := Pte(c, 0)]], WithNode(Alloced(g), k, c), Tables(k.root))
  {
    var ram', g' := ram1[f := ram1[f][e := Pte(c, 0)]], WithNode(Alloced(g), k, c);
    assert LinkOk(ram, g.use, g.free, 0);
    assert NodeOk(g.use, g.nodes, Above(k));
    forall h ensures TookAt(ram, g.use, ram', g'.use, Tables(k.root), h) {
    }
  }

  /** Pages vpn .. vpn + n - 1 of a root mapped to frames from f. */
  function MapRange(leaf: map<Place, int>, root: int, vpn: int, n: nat, f: int, perm: int): map<Place, int> {
    if n == 0 then leaf
    else MapRange(leaf, root, vpn, n - 1, f, perm)[Place(root, vpn + n - 1) := Pte(f + n - 1, perm)]
  }

  lemma {:induction false} MapRangeAt(leaf: map<Place, int>, root: int, vpn: int, n: nat, f: int, perm: int,
                                      p: Place)
    ensures var m, inside := MapRange(leaf, root, vpn, n, f, perm), p.root == root && vpn <= p.vpn < vpn + n;
            (p in m <==> inside || p in leaf)
            && (p in m ==> m[p] == if inside then Pte(f + p.vpn - vpn, perm) else leaf[p])
  {
    if n > 0 {
      MapRangeAt(leaf, root, vpn, n - 1, f, perm, p);
    }
  }

  /** A root without pages vpn .. vpn + n - 1. */
  function UnmapRange(leaf: map<Place, int>, root: int, vpn: int, n: nat): map<Place, int> {
    if n == 0 then leaf else UnmapRange(leaf, root, vpn, n - 1) - {Place(root, vpn + n - 1)}
  }

  lemma {:induction false} UnmapRangeAt(leaf: map<Place, int>, root: int, vpn: int, n: nat, p: Place)
    ensures var m, inside := UnmapRange(leaf, root, vpn, n), p.root == root && vpn <= p.vpn < vpn + n;
            (p in m <==> !inside && p in leaf) && (p in m ==> m[p] == leaf[p])
  {
    if n > 0 {
      UnmapRangeAt(leaf, root, vpn, n - 1, p);
    }
  }

  /** The mapped page p of a root owns its frame. */
  ghost predicate OwnsFrame(g: Shape, p: Place)
    requires p in g.leaf
  {
    FrameOf(g.leaf[p]) in g.use && g.use[FrameOf(g.leaf[p])] == Owned(p)
  }

  /** Pages lo .. hi - 1 of a root, where mapped, own their frames. */
  ghost predicate Private(g: Shape, root: int, lo: int, hi: int) {
    forall v {:trigger Place(root, v)} :: lo <= v < hi && Place(root, v) in g.leaf ==>
      OwnsFrame(g, Place(root, v))
  }

  /** They own nothing: their frames belong elsewhere. */
  ghost predicate Borrowed(g: Shape, root: int, lo: int, hi: int) {
    forall f {:trigger g.use[f]} :: f in g.use ==> !In(Pages(root, lo, hi), g.use[f])
  }

  ghost predicate Unmapped(leaf: map<Place, int>, root: int, lo: int, hi: int) {
    forall v {:trigger Place(root, v)} :: lo <= v < hi ==> Place(root, v) !in leaf
  }

  /** Frees the frame of page p if it owns one. */
  function ReleasedPage(g: Shape, p: Place, release: bool): Shape
    requires p in g.leaf
  {
    WithoutLeaf(if release then Freed(WithUse(g, FrameOf(g.leaf[p]), Held), FrameOf(g.leaf[p])) else g, p)
  }

  lemma GaveTwice(ram0: map<int, Page>, g0: Shape, ram1: map<int, Page>, g1: Shape, ram2: map<int, Page>,
                  g2: Shape, p: Part, q: Part, r: Part)
    requires Gave(ram0, g0, ram1, g1, p) && Gave(ram1, g1, ram2, g2, q)
    requires forall f {:trigger g0.use[f]} :: f in g0.use ==>
               (In(r, g0.use[f]) <==> In(p, g0.use[f]) || In(q, g0.use[f]))
    ensures Gave(ram0, g0, ram2, g2, r)
  {
    forall f ensures GaveAt(ram0, g0.use, ram2, g2.use, r, f) {
      assert GaveAt(ram0, g0.use, ram1, g1.use, p, f) && GaveAt(ram1, g1.use, ram2, g2.use, q, f);
      if f in g0.use {
        assert In(r, g0.use[f]) <==> In(p, g0.use[f]) || In(q, g0.use[f]);
      }
    }
  }

  lemma GaveNothing(ram: map<int, Page>, head: int, g: Shape, ram': map<int, Page>, g': Shape, part: Part)
    requires Ok(ram, head, g, NO_KEY) && g'.use == g.use
    requires forall f :: f in g.use ==> !In(part, g.use[f])
    requires forall f :: HasData(g.use, f) ==> f in ram' && f in ram && ram'[f] == ram[f]
    ensures Gave(ram, g, ram', g', part)
  {
    forall f ensures GaveAt(ram, g.use, ram', g'.use, part, f) {
      assert f in g.use ==> !In(part, g.use[f]);
    }
  }

  /** Freeing one page gives exactly its frame. */
  lemma GavePage(ram: map<int, Page>, head: int, g: Shape, p: Place, t: int, ram': map<int, Page>)
    requires Ok(ram, head, g, NO_KEY) && p in g.leaf && OwnsFrame(g, p) && t in g.use && g.use[t].Node?
    requires forall f :: f in ram && f != t && f != FrameOf(g.leaf[p]) ==> f in ram' && ram'[f] == ram[f]
    ensures Gave(ram, g, ram', ReleasedPage(g, p, true), Pages(p.root, p.vpn, p.vpn + 1))
  {
    var g', part := ReleasedPage(g, p, true), Pages(p.root, p.vpn, p.vpn + 1);
    forall f ensures GaveAt(ram, g.use, ram', g'.use, part, f) {
      if f in g.use {
        assert UseOk(g.nodes, g.leaf, g.use, f);
        assert In(part, g.use[f]) ==> g.use[f].place == p;
      }
    }
  }

  /** An unmapped page owns nothing. */
  lemma NotOwned(ram: map<int, Page>, g: Shape, p: Place)
    requires NodesOk(g) && p !in g.leaf
    ensures forall f :: f in g.use ==> !In(Pages(p.root, p.vpn, p.vpn + 1), g.use[f])
  {
    forall f | f in g.use ensures !In(Pages(p.root, p.vpn, p.vpn + 1), g.use[f]) {
      assert UseOk(g.nodes, g.leaf, g.use, f);
    }
  }

  /** Writing a table does not matter to what was taken. */
  lemma TookSame(ram0: map<int, Page>, g0: Shape, ram: map<int, Page>, g: Shape, part: Part, t: int,
                 ram': map<int, Page>, g': Shape)
    requires Took(ram0, g0, ram, g, part) && g'.use == g.use && t in g.use && g.use[t].Node?
    requires forall f :: f in ram && f != t ==> f in ram' && ram'[f] == ram[f]
    ensures Took(ram0, g0, ram', g', part)
  {
    forall f ensures TookAt(ram0, g0.use, ram', g'.use, part, f) {
      assert TookAt(ram0, g0.use, ram, g.use, part, f);
    }
  }

  // ----- the tables of a root -----

  /** No page of this root is mapped. */
  ghost predicate NoLeaves(g: Shape, root: int) {
    forall p {:trigger p in g.leaf} :: p in g.leaf ==> p.root != root
  }

  /** The tables of g0 but those at and below k. */
  ghost predicate Pruned(g0: Shape, g: Shape, k: Key) {
    && (forall j {:trigger j in g.nodes} :: j in g.nodes <==> j in g0.nodes && !Under(j, k))
    && (forall j {:trigger g.nodes[j]} :: j in g.nodes ==> g.nodes[j] == g0.nodes[j])
  }

  /** The tables of g0 but those below the first n entries of k. */
  ghost predicate PrunedFirst(g0: Shape, g: Shape, k: Key, n: int) {
    && (forall j {:trigger j in g.nodes} :: j in g.nodes <==> j in g0.nodes && !UnderFirst(j, k, n))
    && (forall j {:trigger g.nodes[j]} :: j in g.nodes ==> g.nodes[j] == g0.nodes[j])
  }

  function Below(k: Key, i: int): Key {
    Key(k.root, k.level - 1, k.prefix * WORDS + i)
  }

  lemma FirstAndNext(j: Key, k: Key, i: int)
    requires 0 <= i < WORDS
    ensures UnderFirst(j, k, i + 1) <==> UnderFirst(j, k, i) || Under(j, Below(k, i))
    ensures !(UnderFirst(j, k, i) && Under(j, Below(k, i)))
  {
    if j.level < k.level && 0 <= j.level {
      assert Up(j.prefix, k.level - j.level) == Up(j.prefix, k.level - 1 - j.level) / WORDS;
    }
  }

  lemma FirstAll(j: Key, k: Key)
    ensures UnderFirst(j, k, WORDS) <==> Under(j, k) && j != k
    ensures !UnderFirst(j, k, 0)
  {
    if 0 <= j.level < k.level {
      assert Up(j.prefix, k.level - j.level) == Up(j.prefix, k.level - 1 - j.level) / WORDS;
    }
  }

  lemma {:induction false} UpShift(p: int, n: nat)
    requires n >= 1
    ensures Up(p, n) == Up(p / WORDS, n - 1)
  {
    if n == 1 {
      assert Up(p, 0) == p;
    } else {
      UpShift(p, n - 1);
    }
  }

  /** A table under k is there only if k is. */
  lemma {:induction false} UnderNeeds(g: Shape, j: Key, k: Key)
    requires NodesOk(g) && j in g.nodes && Under(j, k) && k.level <= 2
    ensures k in g.nodes
    decreases k.level - j.level
  {
    if j.level < k.level {
      assert NodeOk(g.use, g.nodes, j);
      UpShift(j.prefix, k.level - j.level);
      UnderNeeds(g, Above(j), k);
    }
  }

  /** All tables of a root are under its top one. */
  lemma {:induction false} AllUnderRoot(g: Shape, j: Key)
    requires NodesOk(g) && j in g.nodes
    ensures Under(j, Key(j.root, 2, 0))
    decreases 2 - j.level
  {
    assert NodeOk(g.use, g.nodes, j);
    if j.level < 2 {
      AllUnderRoot(g, Above(j));
      UpShift(j.prefix, 2 - j.level);
    }
  }

  /** A stale entry for a top table is no entry at all. */
  lemma NoHoleAtTop(ram: map<int, Page>, head: int, g: Shape, k: Key)
    requires Ok(ram, head, g, k) && k.level == 2
    ensures Ok(ram, head, g, NO_KEY)
  {
    forall j, e | j in g.nodes && 0 <= e < WORDS && Key(j.root, j.level - 1, j.prefix * WORDS + e) != NO_KEY
      ensures WordOk(ram, g.nodes, g.leaf, j, e)
    {
      assert NodeOk(g.use, g.nodes, j);
    }
  }

  lemma UnderAbove(j: Key)
    requires 0 <= j.level
    ensures Under(j, Above(j)) && j != Above(j)
  {
    assert Up(j.prefix, 1) == Up(j.prefix, 0) / WORDS;
  }

  lemma StillNothingBelow(g0: Shape, g: Shape, k: Key)
    requires PrunedFirst(g0, g, k, WORDS) && NodesOk(g) && NoLeaves(g, k.root)
    ensures NothingBelow(g, k)
  {
    forall j | j in g.nodes ensures Above(j) != k {
      FirstAll(j, k);
      assert NodeOk(g.use, g.nodes, j);
      UnderAbove(j);
    }
  }

  /** Giving table k itself after everything below it. */
  lemma GaveTable(ram0: map<int, Page>, g0: Shape, ram: map<int, Page>, g: Shape, k: Key, ram': map<int, Page>)
    requires Gave(ram0, g0, ram, g, Entries(k, WORDS)) && k in g.nodes && NodesOk(g) && NodesOk(g0)
    requires k in g0.nodes && g0.nodes[k] == g.nodes[k]
    requires 0 <= k.level
    requires forall f :: f in ram && f != g.nodes[k] ==> f in ram' && ram'[f] == ram[f]
    ensures Gave(ram0, g0, ram', Freed(WithoutNode(g, k), g.nodes[k]), Subtree(k))
  {
    var g' := Freed(WithoutNode(g, k), g.nodes[k]);
    assert NodeOk(g.use, g.nodes, k) && NodeOk(g0.use, g0.nodes, k);
    forall f ensures GaveAt(ram0, g0.use, ram', g'.use, Subtree(k), f) {
      assert GaveAt(ram0, g0.use, ram, g.use, Entries(k, WORDS), f);
      if f in g0.use && g0.use[f].Node? {
        FirstAll(g0.use[f].key, k);
        assert UseOk(g0.nodes, g0.leaf, g0.use, f);
      }
    }
  }

  lemma StillPrivate(ram0: map<int, Page>, g0: Shape, ram: map<int, Page>, g: Shape, root: int, vpn: int,
                     i: int, n: int, release: bool)
    requires Gave(ram0, g0, ram, g, Pages(root, vpn, vpn + i)) && 0 <= i < n
    requires g.leaf == UnmapRange(g0.leaf, root, vpn, i)
    requires release ==> Private(g0, root, vpn, vpn + n)
    requires !release ==> Borrowed(g0, root, vpn, vpn + n)
    ensures release ==> Private(g, root, vpn + i, vpn + i + 1)
    ensures !release ==> Borrowed(g, root, vpn + i, vpn + i + 1)
  {
    var p := Place(root, vpn + i);
    UnmapRangeAt(g0.leaf, root, vpn, i, p);
    if release && p in g.leaf {
      assert OwnsFrame(g0, p);
      assert GaveAt(ram0, g0.use, ram, g.use, Pages(root, vpn, vpn + i), FrameOf(g.leaf[p]));
    }
    if !release {
      forall f | f in g.use ensures !In(Pages(root, vpn + i, vpn + i + 1), g.use[f]) {
        assert GaveAt(ram0, g0.use, ram, g.use, Pages(root, vpn, vpn + i), f);
        assert !In(Pages(root, vpn, vpn + n), g0.use[f]);
      }
    }
  }

  lemma FirstNone(ram: map<int, Page>, head: int, g: Shape, k: Key)
    requires Ok(ram, head, g, NO_KEY)
    ensures PrunedFirst(g, g, k, 0) && Gave(ram, g, ram, g, Entries(k, 0))
  {
    forall j ensures !UnderFirst(j, k, 0) {
      FirstAll(j, k);
    }
    GaveNothing(ram, head, g, ram, g, Entries(k, 0));
  }

  lemma OneMoreEntry(ram0: map<int, Page>, g0: Shape, ram1: map<int, Page>, g1: Shape, ram: map<int, Page>,
                     g: Shape, k: Key, i: int)
    requires PrunedFirst(g0, g1, k, i) && Pruned(g1, g, Below(k, i)) && 0 <= i < WORDS
    requires Gave(ram0, g0, ram1, g1, Entries(k, i)) && Gave(ram1, g1, ram, g, Subtree(Below(k, i)))
    ensures PrunedFirst(g0, g, k, i + 1) && Gave(ram0, g0, ram, g, Entries(k, i + 1))
  {
    forall j ensures UnderFirst(j, k, i + 1) <==> UnderFirst(j, k, i) || Under(j, Below(k, i)) {
      FirstAndNext(j, k, i);
    }
    forall j ensures j in g.nodes <==> j in g0.nodes && !UnderFirst(j, k, i + 1) {
      assert j in g.nodes <==> j in g1.nodes && !Under(j, Below(k, i));
      assert j in g1.nodes <==> j in g0.nodes && !UnderFirst(j, k, i);
    }
    GaveTwice(ram0, g0, ram1, g1, ram, g, Entries(k, i), Subtree(Below(k, i)), Entries(k, i + 1));
  }

  lemma PrunedAll(g0: Shape, g: Shape, k: Key)
    requires PrunedFirst(g0, g, k, WORDS) && k in g.nodes && 0 <= k.level
    ensures forall f :: Pruned(g0, Freed(WithoutNode(g, k), f), k)
  {
    forall j ensures UnderFirst(j, k, WORDS) <==> Under(j, k) && j != k {
      FirstAll(j, k);
    }
    assert Under(k, k);
  }

  /** In a root without pages an entry is valid exactly when it leads to a table. */
  lemma EntryWhenNoLeaves(ram: map<int, Page>, g: Shape, k: Key, i: int)
    requires TreeOk(ram, g, NO_KEY) && k in g.nodes && NoLeaves(g, k.root) && 0 <= i < WORDS
    ensures g.nodes[k] in ram && |ram[g.nodes[k]]| == WORDS
    ensures Below(k, i) in g.nodes ==> 0 < k.level
    ensures var pte := ram[g.nodes[k]][i];
            (IsValid(pte) <==> Below(k, i) in g.nodes)
                && (IsValid(pte) ==> !IsLeaf(pte) && FrameOf(pte) == g.nodes[Below(k, i)])
  {
    var q := k.prefix * WORDS + i;
    assert q / WORDS == k.prefix && q % WORDS == i;
    assert NodeOk(g.use, g.nodes, k);
    if k.level > 0 {
      EntryIsTable(ram, g, k.root, k.level, q);
    } else {
      EntryIsLeaf(ram, g, k.root, q);
    }
    assert Below(k, i) in g.nodes ==> NodeOk(g.use, g.nodes, Below(k, i));
  }

  /** Where table c is missing there is nothing under it to give. */
  lemma NoneUnder(ram: map<int, Page>, head: int, g: Shape, c: Key)
    requires Ok(ram, head, g, NO_KEY) && c !in g.nodes && c.level <= 2
    ensures Pruned(g, g, c) && Gave(ram, g, ram, g, Subtree(c))
  {
    forall j | j in g.nodes ensures !Under(j, c) {
      if Under(j, c) {
        UnderNeeds(g, j, c);
      }
    }
    forall f | f in g.use ensures !In(Subtree(c), g.use[f]) {
      assert UseOk(g.nodes, g.leaf, g.use, f);
    }
    GaveNothing(ram, head, g, ram, g, Subtree(c));
  }

  lemma GaveAfterWrite(ram0: map<int, Page>, g0: Shape, ram: map<int, Page>, g: Shape, part: Part, f: int,
                       i: int)
    requires Gave(ram0, g0, ram, g, part) && f in ram && 0 <= i < |ram[f]| && f in g.use
    requires g.use[f].Node?
    ensures Gave(ram0, g0, ram[f := ram[f][i := 0]], g, part)
  {
    var ram' := ram[f := ram[f][i := 0]];
    forall h ensures GaveAt(ram0, g0.use, ram', g.use, part, h) {
      assert GaveAt(ram0, g0.use, ram, g.use, part, h);
    }
  }

  // ----- how many frames an operation needs -----

  /** A table of a root by its place: its level and prefix. */
  datatype Spot = Spot(level: int, prefix: int)

  /** The tables that a root has. */
  ghost function Have(g: Shape, root: int): set<Spot> {
    set k | k in g.nodes && k.root == root :: Spot(k.level, k.prefix)
  }

  /** The tables besides the root that page number vpn needs. */
  function PathTo(vpn: int): set<Spot> {
    {Spot(1, Up(vpn, 2)), Spot(0, Up(vpn, 1))}
  }

  /** The tables that pages lo .. lo + n - 1 need. */
  function RangePaths(lo: int, n: nat): set<Spot> {
    if n == 0 then {} else RangePaths(lo, n - 1) + PathTo(lo + n - 1)
  }

  /** So many free frames have gone for n frames of data and for those of the tables that the
      root did not have, and it has them now. */
  ghost predicate Cost(g0: Shape, g: Shape, root: int, n: nat, tables: set<Spot>) {
    && Have(g, root) == Have(g0, root) + tables
    && |g.free| == |g0.free| - n - |tables - Have(g0, root)|
  }

  /** There are fewer free frames than that takes. */
  ghost predicate Short(g: Shape, root: int, n: nat, tables: set<Spot>) {
    |g.free| < n + |tables - Have(g, root)|
  }

  lemma SetSizes(a: set<Spot>, b: set<Spot>, have: set<Spot>)
    ensures |(a + b) - have| == |a - have| + |b - (have + a)|
  {
    assert (a + b) - have == (a - have) + (b - (have + a));
  }

  lemma {:induction false} SubsetSize(a: set<Spot>, b: set<Spot>)
    requires a <= b
    ensures |a| <= |b|
  {
    assert b == a + (b - a);
  }

  lemma CostNothing(g: Shape, g': Shape, root: int, tables: set<Spot>)
    requires Have(g', root) == Have(g, root) && |g'.free| == |g.free| && tables <= Have(g, root)
    ensures Cost(g, g', root, 0, tables)
  {
    assert tables - Have(g, root) == {};
  }

  lemma CostTwice(g0: Shape, g1: Shape, g2: Shape, root: int, n: nat, s: set<Spot>, m: nat, t: set<Spot>)
    requires Cost(g0, g1, root, n, s) && Cost(g1, g2, root, m, t)
    ensures Cost(g0, g2, root, n + m, s + t)
  {
    SetSizes(s, t, Have(g0, root));
  }

  /** What runs short after some was spent was too much from the start. */
  lemma CostThenShort(g0: Shape, g1: Shape, root: int, n: nat, s: set<Spot>, m: nat, t: set<Spot>)
    requires Cost(g0, g1, root, n, s) && Short(g1, root, m, t)
    ensures Short(g0, root, n + m, s + t)
  {
    SetSizes(s, t, Have(g0, root));
  }

  lemma ShortMore(g: Shape, root: int, n: nat, s: set<Spot>, m: nat, t: set<Spot>)
    requires Short(g, root, n, s) && n <= m && s <= t
    ensures Short(g, root, m, t)
  {
    SubsetSize(s - Have(g, root), t - Have(g, root));
  }

  lemma CostIsEnough(g0: Shape, g: Shape, root: int, n: nat, tables: set<Spot>)
    requires Cost(g0, g, root, n, tables)
    ensures !Short(g0, root, n, tables)
  {
  }

  lemma {:induction false} RangeGrows(lo: int, n: nat, m: nat)
    requires n <= m
    ensures RangePaths(lo, n) <= RangePaths(lo, m)
  {
    if n < m {
      RangeGrows(lo, n, m - 1);
    }
  }

  /** Some page of the range could not be had. */
  lemma RangeShort(g0: Shape, g1: Shape, root: int, lo: int, n: nat, spent: nat, all: nat, next: nat, most: nat)
    requires n < all && spent + next <= most && Cost(g0, g1, root, spent, RangePaths(lo, n))
    requires Short(g1, root, next, PathTo(lo + n))
    ensures Short(g0, root, most, RangePaths(lo, all))
  {
    CostThenShort(g0, g1, root, spent, RangePaths(lo, n), next, PathTo(lo + n));
    RangeGrows(lo, n + 1, all);
    ShortMore(g0, root, spent + next, RangePaths(lo, n + 1), most, RangePaths(lo, all));
  }

  /** One table more. */
  lemma CostTable(g: Shape, g': Shape, k: Key, c: int)
    requires k !in g.nodes && g'.nodes == g.nodes[k := c] && |g'.free| == |g.free| - 1
    ensures Cost(g, g', k.root, 0, {Spot(k.level, k.prefix)})
  {
    var s := Spot(k.level, k.prefix);
    assert s !in Have(g, k.root);
    assert {s} - Have(g, k.root) == {s};
    forall x ensures x in Have(g', k.root) <==> x in Have(g, k.root) + {s} {
      assert x == s ==> k in g'.nodes;
    }
  }

  lemma ShortTable(g: Shape, k: Key)
    requires k !in g.nodes && g.free == []
    ensures Short(g, k.root, 0, {Spot(k.level, k.prefix)})
  {
    var s := Spot(k.level, k.prefix);
    assert s !in Have(g, k.root);
    assert {s} - Have(g, k.root) == {s};
  }

  /** The tables on the way to page vpn, from the top down to this level. */
  function PathDown(vpn: int, level: nat): set<Spot> {
    if level >= 2 then {} else if level == 1 then {Spot(1, Up(vpn, 2))} else PathTo(vpn)
  }

  lemma {:induction false} UpSign(vpn: int, level: nat)
    requires 0 <= vpn
    ensures 0 <= Up(vpn, level)
  {
    if level > 0 {
      UpSign(vpn, level - 1);
    }
  }

  /** What walk() finds at one level: the entry that leads to the next table, if there is one. */
  lemma DownEntry(ram: map<int, Page>, head: int, g: Shape, root: int, level: int, va: int)
    requires Ok(ram, head, g, NO_KEY) && 1 <= level <= 2 && 0 <= va
    requires Key(root, level, Up(va / PGSIZE, level + 1)) in g.nodes
    ensures var f, k := g.nodes[Key(root, level, Up(va / PGSIZE, level + 1))],
              Key(root, level - 1, Up(va / PGSIZE, level));
            && f in ram && |ram[f]| == WORDS && Px(level, va) == k.prefix % WORDS && k.prefix >= 0
            && Above(k) == Key(root, level, Up(va / PGSIZE, level + 1))
            && (IsValid(ram[f][Px(level, va)]) <==> k in g.nodes)
            && (k in g.nodes ==> FrameOf(ram[f][Px(level, va)]) == g.nodes[k] && g.nodes[k] != 0)
  {
    var vpn := va / PGSIZE;
    PxIsDigit(level, va);
    EntryIsTable(ram, g, root, level, Up(vpn, level));
    UpSign(vpn, level);
    var k := Key(root, level - 1, Up(vpn, level));
    if k in g.nodes {
      assert NodeOk(g.use, g.nodes, k);
      assert g.nodes[k] in g.use && g.nodes[k] in ram;
    }
  }

  /** walk() has come down to table f of this level. */
  ghost predicate Walked(ram0: map<int, Page>, g0: Shape, ram: map<int, Page>, g: Shape, root: int, vpn: int,
                         level: int, f: int) {
    && 0 <= level <= 2 && g.leaf == g0.leaf && Took(ram0, g0, ram, g, Tables(root))
    && Key(root, level, Up(vpn, level + 1)) in g.nodes && g.nodes[Key(root, level, Up(vpn, level + 1))] == f
    && Cost(g0, g, root, 0, PathDown(vpn, level))
  }

  lemma PathDownMore(vpn: int, level: int)
    requires 1 <= level <= 2
    ensures PathDown(vpn, level) + {Spot(level - 1, Up(vpn, level))} == PathDown(vpn, level - 1) <= PathTo(vpn)
  {
  }

  lemma CostDown(g0: Shape, g1: Shape, g: Shape, root: int, vpn: int, level: int)
    requires 1 <= level <= 2 && Cost(g0, g1, root, 0, PathDown(vpn, level))
    requires Cost(g1, g, root, 0, {Spot(level - 1, Up(vpn, level))})
    ensures Cost(g0, g, root, 0, PathDown(vpn, level - 1))
  {
    var s := {Spot(level - 1, Up(vpn, level))};
    PathDownMore(vpn, level);
    CostTwice(g0, g1, g, root, 0, PathDown(vpn, level), 0, s);
  }

  lemma CostOfTable(g: Shape, g': Shape, k: Key)
    requires k in g.nodes && g'.nodes == g.nodes && g'.free == g.free
    ensures Cost(g, g', k.root, 0, {Spot(k.level, k.prefix)})
  {
    assert Spot(k.level, k.prefix) in Have(g, k.root);
    CostNothing(g, g', k.root, {Spot(k.level, k.prefix)});
  }

  lemma WalkedMore(ram0: map<int, Page>, g0: Shape, ram1: map<int, Page>, g1: Shape, ram: map<int, Page>, g: Shape,
                   root: int, vpn: int, level: int, f1: int, f: int)
    requires Walked(ram0, g0, ram1, g1, root, vpn, level, f1) && level >= 1 && g.leaf == g1.leaf
    requires Took(ram1, g1, ram, g, Tables(root)) && Cost(g1, g, root, 0, {Spot(level - 1, Up(vpn, level))})
    requires Key(root, level - 1, Up(vpn, level)) in g.nodes && g.nodes[Key(root, level - 1, Up(vpn, level))] == f
    ensures Walked(ram0, g0, ram, g, root, vpn, level - 1, f)
  {
    TookTwice(ram0, g0, ram1, g1, ram, g, Tables(root), Tables(root), Tables(root));
    CostDown(g0, g1, g, root, vpn, level);
  }

  lemma WalkedShort(ram0: map<int, Page>, g0: Shape, ram1: map<int, Page>, g1: Shape, ram: map<int, Page>, g: Shape,
                    root: int, vpn: int, level: int, f1: int)
    requires Walked(ram0, g0, ram1, g1, root, vpn, level, f1) && level >= 1
    requires Took(ram1, g1, ram, g, Tables(root)) && Short(g1, root, 0, {Spot(level - 1, Up(vpn, level))})
    ensures Took(ram0, g0, ram, g, Tables(root)) && Short(g0, root, 0, PathTo(vpn))
  {
    var s := {Spot(level - 1, Up(vpn, level))};
    PathDownMore(vpn, level);
    TookTwice(ram0, g0, ram1, g1, ram, g, Tables(root), Tables(root), Tables(root));
    CostThenShort(g0, g1, root, 0, PathDown(vpn, level), 0, s);
    ShortMore(g0, root, 0, PathDown(vpn, level) + s, 0, PathTo(vpn));
  }

  lemma PageOf(va: int, size: int, m: int)
    requires va % PGSIZE == 0 && size % PGSIZE == 0 && 0 <= m < size / PGSIZE && 0 <= va && va + size <= MAXVA
    ensures (va + m * PGSIZE) / PGSIZE == va / PGSIZE + m && 0 <= va + m * PGSIZE < MAXVA
    ensures va + m * PGSIZE == va + size - PGSIZE <==> m + 1 == size / PGSIZE
    ensures va / PGSIZE + m < (va + size) / PGSIZE
  {
  }

  /** mappages() has mapped m pages from page number lo on. */
  ghost predicate Mapped(ram0: map<int, Page>, g0: Shape, ram: map<int, Page>, g: Shape, root: int, lo: int, m: nat,
                         f: int, perm: int) {
    && Took(ram0, g0, ram, g, Tables(root)) && Key(root, 2, 0) in g.nodes
    && g.leaf == MapRange(g0.leaf, root, lo, m, f, perm) && Cost(g0, g, root, 0, RangePaths(lo, m))
  }

  /** It has mapped m pages and there are too few frames for all. */
  ghost predicate RanOut(ram0: map<int, Page>, g0: Shape, ram: map<int, Page>, g: Shape, root: int, lo: int, m: nat,
                         f: int, perm: int, all: nat) {
    && Took(ram0, g0, ram, g, Tables(root)) && Key(root, 2, 0) in g.nodes
    && g.leaf == MapRange(g0.leaf, root, lo, m, f, perm) && Short(g0, root, 0, RangePaths(lo, all))
  }

  lemma MappedNone(ram: map<int, Page>, head: int, g: Shape, root: int, lo: int, f: int, perm: int)
    requires Ok(ram, head, g, NO_KEY) && Key(root, 2, 0) in g.nodes
    ensures Mapped(ram, g, ram, g, root, lo, 0, f, perm)
  {
    TookNothing(ram, head, g, Tables(root));
    CostNothing(g, g, root, {});
  }

  lemma NextUnmapped(leaf: map<Place, int>, root: int, lo: int, hi: int, m: nat, f: int, perm: int)
    requires Unmapped(leaf, root, lo, hi) && lo + m < hi
    ensures Place(root, lo + m) !in MapRange(leaf, root, lo, m, f, perm)
  {
    MapRangeAt(leaf, root, lo, m, f, perm, Place(root, lo + m));
  }

  lemma MappedMore(ram0: map<int, Page>, g0: Shape, ram1: map<int, Page>, g1: Shape, ram: map<int, Page>, g: Shape,
                   root: int, lo: int, m: nat, f: int, perm: int)
    requires NodesOk(g1) && NodesOk(g) && Mapped(ram0, g0, ram1, g1, root, lo, m, f, perm)
    requires Took(ram1, g1, ram, g, Tables(root)) && Cost(g1, g, root, 0, PathTo(lo + m))
    requires g.leaf == g1.leaf[Place(root, lo + m) := Pte(f + m, perm)]
    ensures Mapped(ram0, g0, ram, g, root, lo, m + 1, f, perm)
  {
    NodeKept(ram1, g1, ram, g, Tables(root), Key(root, 2, 0));
    TookTwice(ram0, g0, ram1, g1, ram, g, Tables(root), Tables(root), Tables(root));
    CostTwice(g0, g1, g, root, 0, RangePaths(lo, m), 0, PathTo(lo + m));
  }

  lemma MappedShort(ram0: map<int, Page>, g0: Shape, ram1: map<int, Page>, g1: Shape, ram: map<int, Page>, g: Shape,
                    root: int, lo: int, m: nat, f: int, perm: int, all: nat)
    requires NodesOk(g1) && NodesOk(g) && Mapped(ram0, g0, ram1, g1, root, lo, m, f, perm) && m < all
    requires Took(ram1, g1, ram, g, Tables(root)) && Short(g1, root, 0, PathTo(lo + m)) && g.leaf == g1.leaf
    ensures RanOut(ram0, g0, ram, g, root, lo, m, f, perm, all)
  {
    NodeKept(ram1, g1, ram, g, Tables(root), Key(root, 2, 0));
    TookTwice(ram0, g0, ram1, g1, ram, g, Tables(root), Tables(root), Tables(root));
    RangeShort(g0, g1, root, lo, m, 0, all, 0, 0);
  }

  class Memory {
    var ram: map<int, Page>
    /** The free list's first page, or 0. */
    var head: int
    ghost var g: Shape

    ghost predicate Valid()
      reads this
    {
      Ok(ram, head, g, NO_KEY)
    }

    /** Memory at boot: pages that are neither free nor mapped yet. */
    constructor (pages: map<int, Page>)
      requires forall f :: f in pages ==> f > 0 && |pages[f]| == WORDS
      ensures Valid() && ram == pages && g == Shape([], map f | f in pages :: Held, map[], map[])
    {
      ram, head := pages, 0;
      g := Shape([], map f | f in pages :: Held, map[], map[]);
    }

    /** kfree(): the page goes to the head of the free list. */
    method Kfree(f: int, ghost hole: Key)
      requires Ok(ram, head, g, hole) && f in g.use && g.use[f] == Held
      modifies this
      ensures Ok(ram, head, g, hole) && g == Freed(old(g), f)
      ensures ram == old(ram)[f := Filled(JUNK1)[0 := old(head)]]
    {
      ghost var page := Filled(JUNK1)[0 := head];
      KfreeStep(ram, head, g, hole, f, page);
      ram := ram[f := Filled(JUNK1)];
      ram := ram[f := ram[f][0 := head]];
      assert ram == old(ram)[f := page];
      head := f;
      g := Freed(g, f);
    }

    /** freerange(): the frames from lo up to hi become the free list. */
    method Freerange(lo: int, hi: int)
      requires Valid() && lo <= hi && forall f :: lo <= f < hi ==> f in g.use && g.use[f] == Held
      modifies this
      ensures Valid() && g.nodes == old(g).nodes && g.leaf == old(g).leaf
      ensures forall f {:trigger f in g.use} :: f in g.use <==> f in old(g).use
      ensures forall f {:trigger g.use[f]} :: f in g.use ==> g.use[f] == if lo <= f < hi then Free else old(g).use[f]
      ensures |g.free| == |old(g).free| + (hi - lo)
    {
      var p := lo;
      while p < hi
        invariant lo <= p <= hi && Valid() && g.nodes == old(g).nodes && g.leaf == old(g).leaf
        invariant forall f {:trigger f in g.use} :: f in g.use <==> f in old(g).use
        invariant forall f {:trigger g.use[f]} :: f in g.use ==> g.use[f] == if lo <= f < p then Free else old(g).use[f]
        invariant |g.free| == |old(g).free| + (p - lo)
      {
        Kfree(p, NO_KEY);
        p := p + 1;
      }
    }

    /** kalloc(): a page for the caller, or 0 when none is free. */
    method Kalloc() returns (r: int)
      requires Valid()
      modifies this
      ensures Valid()
      ensures r == 0 <==> old(g).free == []
      ensures r == 0 ==> unchanged(this)
      ensures r != 0 ==>
                r == old(g).free[0] && g == Alloced(old(g)) && ram == old(ram)[r := Filled(JUNK5)]
      ensures r != 0 ==> r in old(g).use && old(g).use[r] == Free
    {
      r := head;
      if g.free != [] {
        KallocStep(ram, head, g, NO_KEY, Filled(JUNK5));
      }
      if r != 0 {
        head := ram[r][0];
        ram := ram[r := Filled(JUNK5)];
        g := Alloced(g);
      }
    }

    /** memset() or memmove() of a whole page. */
    method Fill(f: int, page: Page)
      requires Valid() && HasData(g.use, f) && |page| == WORDS
      modifies this`ram
      ensures Valid() && ram == old(ram)[f := page]
    {
      StoreData(ram, head, g, NO_KEY, f, page);
      ram := ram[f := page];
    }

    /** walk()'s step into a missing table: entry e of table f gets a new page, unless
        there is none. */
    method AddTable(f: int, e: int, ghost k: Key) returns (c: int)
      requires Valid() && 0 <= k.level < 2 && k.prefix >= 0 && k !in g.nodes
      requires Above(k) in g.nodes && g.nodes[Above(k)] == f && e == k.prefix % WORDS
      modifies this
      ensures Valid() && (c == 0 <==> old(g).free == [])
      ensures c == 0 ==> unchanged(this)
      ensures c != 0 ==> g.nodes == old(g).nodes[k := c] && g.leaf == old(g).leaf && |g.free| == |old(g).free| - 1
      ensures Took(old(ram), old(g), ram, g, Tables(k.root))
    {
      c := Kalloc();
      if c == 0 {
        TookNothing(ram, head, g, Tables(k.root));
        return;
      }
      Fill(c, Filled(0));
      AbsentIsEmpty(g, k);
      NewTable(ram, head, g, k, c);
      SetEntryStep(ram, head, WithNode(g, k, c), k);
      TookTable(old(ram), old(head), old(g), ram, k, c, f, e);
      g := WithNode(g, k, c);
      ram := ram[f := ram[f][e := Pte(c, 0)]];
    }

    /** Clears a valid level-0 entry, freeing its frame if asked to. */
    method ClearPage(root: int, t: int, e: int, ghost vpn: int, release: bool)
      requires Valid() && Place(root, vpn) in g.leaf && Key(root, 0, vpn / WORDS) in g.nodes
      requires t == g.nodes[Key(root, 0, vpn / WORDS)] && e == vpn % WORDS
      requires release ==> OwnsFrame(g, Place(root, vpn))
      requires !release ==> Borrowed(g, root, vpn, vpn + 1)
      modifies this
      ensures Valid() && g.nodes == old(g).nodes && g.leaf == old(g).leaf - {Place(root, vpn)}
      ensures Gave(old(ram), old(g), ram, g, Pages(root, vpn, vpn + 1))
    {
      ghost var p := Place(root, vpn);
      EntryIsLeaf(ram, g, root, vpn);
      if release {
        var f := FrameOf(ram[t][e]);
        OwnStep(ram, head, g, NO_KEY, f, Held);
        g := WithUse(g, f, Held);
        Kfree(f, NO_KEY);
        EntryIsLeaf(ram, g, root, vpn);
      }
      ClearLeafStep(ram, head, g, p);
      ram := ram[t := ram[t][e := 0]];
      g := WithoutLeaf(g, p);
      if release {
        assert g == ReleasedPage(old(g), p, true);
        GavePage(old(ram), old(head), old(g), p, t, ram);
      } else {
        GaveNothing(old(ram), old(head), old(g), ram, g, Pages(root, vpn, vpn + 1));
      }
    }

    /** One level of walk(): the table below f on the way to va, added if it may and can be. */
    method WalkDown(f: int, root: int, va: int, level: int, alloc: bool) returns (c: int)
      requires Valid() && 1 <= level <= 2 && 0 <= va
      requires Key(root, level, Up(va / PGSIZE, level + 1)) in g.nodes
      requires g.nodes[Key(root, level, Up(va / PGSIZE, level + 1))] == f
      modifies this
      ensures Valid() && g.leaf == old(g).leaf && Took(old(ram), old(g), ram, g, Tables(root))
      ensures !alloc ==> unchanged(this)
      ensures var k := Key(root, level - 1, Up(va / PGSIZE, level));
              if c == 0 then k !in old(g).nodes else k in g.nodes && g.nodes[k] == c
      ensures alloc && c != 0 ==> Cost(old(g), g, root, 0, {Spot(level - 1, Up(va / PGSIZE, level))})
      ensures alloc && c == 0 ==> Short(old(g), root, 0, {Spot(level - 1, Up(va / PGSIZE, level))})
    {
      ghost var k := Key(root, level - 1, Up(va / PGSIZE, level));
      DownEntry(ram, head, g, root, level, va);
      var e := Px(level, va);
      if IsValid(ram[f][e]) {
        c := FrameOf(ram[f][e]);
        TookNothing(ram, head, g, Tables(root));
        CostOfTable(g, g, k);
      } else if !alloc {
        TookNothing(ram, head, g, Tables(root));
        c := 0;
      } else {
        c := AddTable(f, e, k);
        if c == 0 {
          ShortTable(old(g), k);
        } else {
          CostTable(old(g), g, k, c);
        }
      }
    }

    /** walk(): where the level-0 entry for `va` is, or table 0 if some table is missing
        and may not, or cannot, be added. */
    method Walk(root: int, va: int, alloc: bool) returns (f: int, e: int)
      requires Valid() && Key(root, 2, 0) in g.nodes && 0 <= va < MAXVA
      modifies this
      ensures Valid() && g.leaf == old(g).leaf && Took(old(ram), old(g), ram, g, Tables(root))
      ensures f != 0 ==>
                Key(root, 0, va / PGSIZE / WORDS) in g.nodes && f == g.nodes[Key(root, 0, va / PGSIZE / WORDS)]
      ensures f != 0 ==> e == va / PGSIZE % WORDS
      ensures !alloc ==> unchanged(this) && (f != 0 <==> Key(root, 0, va / PGSIZE / WORDS) in g.nodes)
      ensures alloc && f != 0 ==> Cost(old(g), g, root, 0, PathTo(va / PGSIZE))
      ensures alloc && f == 0 ==> Short(old(g), root, 0, PathTo(va / PGSIZE))
    {
      ghost var vpn := va / PGSIZE;
      TopIsRoot(va);
      assert NodeOk(g.use, g.nodes, Key(root, 2, 0)) && FramesOk(ram, g.use);
      TookNothing(ram, head, g, Tables(root));
      CostNothing(g, g, root, {});
      f := root;
      var level := 2;
      while level > 0
        invariant Valid() && f != 0 && Walked(old(ram), old(g), ram, g, root, vpn, level, f)
        invariant !alloc ==> unchanged(this)
      {
        ghost var ram1, g1, f1 := ram, g, f;
        f := WalkDown(f, root, va, level, alloc);
        if f == 0 {
          if alloc {
            WalkedShort(old(ram), old(g), ram1, g1, ram, g, root, vpn, level, f1);
          } else {
            NodeNeeds(g1, root, vpn, level - 1);
          }
          return 0, 0;
        }
        if !alloc {
          CostOfTable(g1, g, Key(root, level - 1, Up(vpn, level)));
        }
        WalkedMore(old(ram), old(g), ram1, g1, ram, g, root, vpn, level, f1, f);
        level := level - 1;
      }
      PxIsDigit(0, va);
      e := Px(0, va);
      assert NodeOk(g.use, g.nodes, Key(root, 0, vpn / WORDS));
    }

    /** One turn of mappages(): false when no table can be had. */
    method MapPage(root: int, va: int, f: int, perm: int) returns (ok: bool)
      requires Valid() && Key(root, 2, 0) in g.nodes && 0 <= va < MAXVA && 0 <= perm < 1024
      requires Place(root, va / PGSIZE) !in g.leaf
      modifies this
      ensures Valid() && Took(old(ram), old(g), ram, g, Tables(root))
      ensures ok ==> g.leaf == old(g).leaf[Place(root, va / PGSIZE) := Pte(f, perm)]
      ensures ok ==> Cost(old(g), g, root, 0, PathTo(va / PGSIZE))
      ensures !ok ==> g.leaf == old(g).leaf && Short(old(g), root, 0, PathTo(va / PGSIZE))
    {
      var t, e := Walk(root, va, true);
      if t == 0 {
        return false;
      }
      ghost var vpn := va / PGSIZE;
      EntryIsLeaf(ram, g, root, vpn);
      PteParts(f, perm);
      SetLeafStep(ram, head, g, Place(root, vpn), Pte(f, perm));
      TookSame(old(ram), old(g), ram, g, Tables(root), t, ram[t := ram[t][e := Pte(f, perm)]],
               WithLeaf(g, Place(root, vpn), Pte(f, perm)));
      ram := ram[t := ram[t][e := Pte(f, perm)]];
      g := WithLeaf(g, Place(root, vpn), Pte(f, perm));
      ok := true;
    }

    /** One turn of uvmunmap(). */
    method UnmapPage(root: int, va: int, release: bool)
      requires Valid() && Key(root, 2, 0) in g.nodes && 0 <= va < MAXVA
      requires release ==> Private(g, root, va / PGSIZE, va / PGSIZE + 1)
      requires !release ==> Borrowed(g, root, va / PGSIZE, va / PGSIZE + 1)
      modifies this
      ensures Valid() && g.nodes == old(g).nodes && g.leaf == old(g).leaf - {Place(root, va / PGSIZE)}
      ensures Gave(old(ram), old(g), ram, g, Pages(root, va / PGSIZE, va / PGSIZE + 1))
    {
      ghost var vpn := va / PGSIZE;
      ghost var p := Place(root, vpn);
      ghost var part := Pages(root, vpn, vpn + 1);
      var t, e := Walk(root, va, false);
      if t == 0 {
        LeafNeeds(g, root, vpn, 0);
        assert Up(vpn, 1) == vpn / WORDS;
        NotOwned(ram, g, p);
        GaveNothing(ram, head, g, ram, g, part);
        return;
      }
      EntryIsLeaf(ram, g, root, vpn);
      if !IsValid(ram[t][e]) {
        NotOwned(ram, g, p);
        GaveNothing(ram, head, g, ram, g, part);
        return;
      }
      ClearPage(root, t, e, vpn, release);
    }

    method MapTurn(root: int, a: int, pa: int, perm: int, ghost ram0: map<int, Page>, ghost g0: Shape, ghost lo: int,
                   ghost m: nat, ghost f: int, ghost all: nat) returns (ok: bool)
      requires Valid() && Mapped(ram0, g0, ram, g, root, lo, m, f, perm) && m < all && 0 <= perm < 1024
      requires 0 <= a < MAXVA && a / PGSIZE == lo + m && pa == f + m && Place(root, lo + m) !in g.leaf
      modifies this
      ensures Valid()
      ensures if ok then Mapped(ram0, g0, ram, g, root, lo, m + 1, f, perm)
              else RanOut(ram0, g0, ram, g, root, lo, m, f, perm, all)
    {
      hide Cost, Short, Took;
      ghost var ram1, g1 := ram, g;
      ok := MapPage(root, a, pa, perm);
      if ok {
        MappedMore(ram0, g0, ram1, g1, ram, g, root, lo, m, f, perm);
      } else {
        MappedShort(ram0, g0, ram1, g1, ram, g, root, lo, m, f, perm, all);
      }
    }

    /** The loop of mappages(). */
    method MapLoop(root: int, va: int, size: int, f: int, perm: int) returns (ok: bool, ghost m: int)
      requires Valid() && Key(root, 2, 0) in g.nodes && 0 <= va && va + size <= MAXVA && 0 <= perm < 1024
      requires va % PGSIZE == 0 && size % PGSIZE == 0 && size > 0
      requires Unmapped(g.leaf, root, va / PGSIZE, (va + size) / PGSIZE)
      modifies this
      ensures Valid() && 0 <= m <= size / PGSIZE && (ok <==> m == size / PGSIZE)
      ensures if ok then Mapped(old(ram), old(g), ram, g, root, va / PGSIZE, m, f, perm)
              else RanOut(old(ram), old(g), ram, g, root, va / PGSIZE, m, f, perm, size / PGSIZE)
    {
      var a, last, pa := va, va + size - PGSIZE, f;
      ghost var lo, all := va / PGSIZE, size / PGSIZE;
      m := 0;
      MappedNone(ram, head, g, root, lo, f, perm);
      while true
        invariant Valid() && Mapped(old(ram), old(g), ram, g, root, lo, m, f, perm)
        invariant 0 <= m < all && a == va + m * PGSIZE && pa == f + m
        decreases all - m
      {
        PageOf(va, size, m);
        NextUnmapped(old(g).leaf, root, lo, (va + size) / PGSIZE, m, f, perm);
        ok := MapTurn(root, a, pa, perm, old(ram), old(g), lo, m, f, all);
        if !ok {
          return;
        }
        m := m + 1;
        if a == last {
          return;
        }
        a, pa := a + PGSIZE, pa + 1;
      }
    }

    /** mappages(): maps size / 4096 pages, or the first m when there are too few free frames
        for the tables that are missing. */
    method Mappages(root: int, va: int, size: int, f: int, perm: int) returns (ok: bool, ghost m: int)
      requires Valid() && Key(root, 2, 0) in g.nodes && 0 <= va && va + size <= MAXVA && 0 <= perm < 1024
      requires va % PGSIZE == 0 && size % PGSIZE == 0 && size > 0
      requires Unmapped(g.leaf, root, va / PGSIZE, (va + size) / PGSIZE)
      modifies this
      ensures Valid() && Took(old(ram), old(g), ram, g, Tables(root)) && Key(root, 2, 0) in g.nodes
      ensures 0 <= m <= size / PGSIZE && (ok <==> m == size / PGSIZE)
      ensures ok <==> !Short(old(g), root, 0, RangePaths(va / PGSIZE, size / PGSIZE))
      ensures ok ==> Cost(old(g), g, root, 0, RangePaths(va / PGSIZE, size / PGSIZE))
      ensures g.leaf == MapRange(old(g).leaf, root, va / PGSIZE, m, f, perm)
    {
      ok, m := MapLoop(root, va, size, f, perm);
      if ok {
        CostIsEnough(old(g), g, root, 0, RangePaths(va / PGSIZE, size / PGSIZE));
      }
    }

    /** uvmunmap(): removes npages of mappings, mapped or not, and frees their frames if
        asked to. */
    method Uvmunmap(root: int, va: int, npages: int, release: bool)
      requires Valid() && Key(root, 2, 0) in g.nodes && va % PGSIZE == 0 && 0 <= va && 0 <= npages
      requires va + npages * PGSIZE <= MAXVA
      requires release ==> Private(g, root, va / PGSIZE, va / PGSIZE + npages)
      requires !release ==> Borrowed(g, root, va / PGSIZE, va / PGSIZE + npages)
      modifies this
      ensures Valid() && g.nodes == old(g).nodes
      ensures g.leaf == UnmapRange(old(g).leaf, root, va / PGSIZE, npages)
      ensures Gave(old(ram), old(g), ram, g, Pages(root, va / PGSIZE, va / PGSIZE + npages))
    {
      var a := va;
      ghost var vpn, i := va / PGSIZE, 0;
      GaveNothing(ram, head, g, ram, g, Pages(root, vpn, vpn));
      while a < va + npages * PGSIZE
        invariant 0 <= i <= npages && a == va + i * PGSIZE
        invariant Valid() && g.nodes == old(g).nodes && g.leaf == UnmapRange(old(g).leaf, root, vpn, i)
        invariant Gave(old(ram), old(g), ram, g, Pages(root, vpn, vpn + i))
      {
        ghost var ram1, g1 := ram, g;
        assert a / PGSIZE == vpn + i;
        StillPrivate(old(ram), old(g), ram, g, root, vpn, i, npages, release);
        UnmapPage(root, a, release);
        GaveTwice(old(ram), old(g), ram1, g1, ram, g, Pages(root, vpn, vpn + i), Pages(root, vpn + i, vpn + i + 1),
                  Pages(root, vpn, vpn + i + 1));
        a := a + PGSIZE;
        i := i + 1;
      }
    }

    /** freewalk(): frees table k and all tables below it. */
    method Freewalk(f: int, ghost k: Key)
      requires Valid() && k in g.nodes && g.nodes[k] == f && NoLeaves(g, k.root) && 0 <= k.level <= 2
      modifies this
      ensures Ok(ram, head, g, k) && g.leaf == old(g).leaf && Pruned(old(g), g, k)
      ensures Gave(old(ram), old(g), ram, g, Subtree(k))
      decreases k.level, 1
    {
      var i := 0;
      FirstNone(ram, head, g, k);
      while i < WORDS
        invariant 0 <= i <= WORDS && Valid() && g.leaf == old(g).leaf && PrunedFirst(old(g), g, k, i)
        invariant k in g.nodes
        invariant Gave(old(ram), old(g), ram, g, Entries(k, i))
      {
        ghost var ram1, g1 := ram, g;
        FreeEntry(f, i, k);
        OneMoreEntry(old(ram), old(g), ram1, g1, ram, g, k, i);
        i := i + 1;
      }
      StillNothingBelow(old(g), g, k);
      DropTable(ram, head, g, k);
      ghost var ram1, g1 := ram, g;
      PrunedAll(old(g), g, k);
      g := WithoutNode(g, k);
      Kfree(f, k);
      GaveTable(old(ram), old(g), ram1, g1, k, ram);
    }

    /** One turn of freewalk(): the table at entry i, if any, goes. */
    method FreeEntry(f: int, i: int, ghost k: Key)
      requires Valid() && k in g.nodes && g.nodes[k] == f && NoLeaves(g, k.root) && 0 <= k.level <= 2
      requires 0 <= i < WORDS
      modifies this
      ensures Valid() && g.leaf == old(g).leaf && Pruned(old(g), g, Below(k, i)) && k in g.nodes
      ensures Gave(old(ram), old(g), ram, g, Subtree(Below(k, i)))
      decreases k.level, 0
    {
      ghost var c := Below(k, i);
      assert NodeOk(g.use, g.nodes, k);
      EntryWhenNoLeaves(ram, g, k, i);
      var pte := ram[f][i];
      if IsValid(pte) && !IsLeaf(pte) {
        Freewalk(FrameOf(pte), c);
        assert NodeOk(g.use, g.nodes, k);
        assert c.prefix / WORDS == k.prefix && c.prefix % WORDS == i;
        assert Above(c) == k;
        SetEntryStep(ram, head, g, c);
        GaveAfterWrite(old(ram), old(g), ram, g, Subtree(c), f, i);
        ram := ram[f := ram[f][i := 0]];
      } else {
        NoneUnder(ram, head, g, c);
      }
    }
  }
}
