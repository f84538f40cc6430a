/** The three-level page table as words in page frames (PAE layout): `page_walk`, `get_pmd`,
    `get_pte` and `pte_set` (kernel/mm/page.c, include/mm/pages.h). */
module PageTable {
  import opened Wrappers

  /** A page of 512 eight-byte entries */
  type Words = seq<nat>

  const PRESENT: nat := 1
  const RW: nat := 2
  const USER: nat := 4

  function Blank(): Words {
    seq(512, _ => 0)
  }

  function WithWord(words: Words, i: nat, w: nat): Words
    requires i < |words|
  {
    words[i := w]
  }

  /** `pa | perm`, for a page-aligned address */
  function Entry(frame: nat, perm: nat): nat {
    frame * 4096 + perm
  }

  /** `x & PAGE_MASK`, as a frame number */
  function FrameOf(w: nat): nat {
    w / 4096
  }

  function PgdIndex(va: nat): nat {
    (va / 0x4000_0000) % 4
  }

  function PmdIndex(va: nat): nat {
    (va / 0x20_0000) % 512
  }

  function PteIndex(va: nat): nat {
    (va / 0x1000) % 512
  }

  /** Number of the page table that covers `va`, counted over the whole address space */
  function Number(i: nat, j: nat): nat {
    i * 512 + j
  }

  /** The three indexes and the page number determine each other. */
  lemma IndexesIffPage(va: nat, vb: nat)
    requires va < 0x1_0000_0000 && vb < 0x1_0000_0000
    ensures PgdIndex(va) == PgdIndex(vb) && PmdIndex(va) == PmdIndex(vb) && PteIndex(va) == PteIndex(vb) <==>
            va / 0x1000 == vb / 0x1000
  {
    Parts(va);
    Parts(vb);
  }

  lemma Parts(va: nat)
    requires va < 0x1_0000_0000
    ensures va / 0x1000 == Number(PgdIndex(va), PmdIndex(va)) * 512 + PteIndex(va)
    ensures va / 0x20_0000 == Number(PgdIndex(va), PmdIndex(va))
    ensures PgdIndex(va) < 4 && PmdIndex(va) < 512 && PteIndex(va) < 512
  {
  }

  // ----- the words spell out two maps: middle tables by number, page tables by number

  datatype Role = Free | Top | Middle(i: nat) | Last(n: nat) | Other

  ghost predicate Sized(mem: map<nat, Words>) {
    forall f :: f in mem ==> |mem[f]| == 512
  }

  ghost predicate TopSpells(words: Words, middle: map<nat, nat>) {
    && (forall i :: i in middle ==> i < 4)
    && |words| == 512
    && forall i {:trigger words[i]} :: 0 <= i < 4 ==>
         if i in middle then words[i] != 0 && FrameOf(words[i]) == middle[i] else words[i] == 0
  }

  ghost predicate MiddleSpells(words: Words, i: nat, last: map<nat, nat>) {
    && |words| == 512
    && forall j {:trigger words[j]} :: 0 <= j < 512 ==>
         if Number(i, j) in last then words[j] != 0 && FrameOf(words[j]) == last[Number(i, j)] else words[j] == 0
  }

  ghost predicate Spelled(mem: map<nat, Words>, top: nat, middle: map<nat, nat>, last: map<nat, nat>) {
    && top in mem && TopSpells(mem[top], middle)
    && (forall i {:trigger middle[i]} :: i in middle ==> middle[i] in mem && MiddleSpells(mem[middle[i]], i, last))
    && (forall n {:trigger last[n]} :: n in last ==> last[n] in mem && n / 512 in middle)
  }

  /** No frame serves as two tables. */
  ghost predicate Distinct(role: map<nat, Role>, free: set<nat>, top: nat, middle: map<nat, nat>, last: map<nat, nat>) {
    && top in role && role[top] == Top
    && (forall i {:trigger middle[i]} :: i in middle ==> middle[i] in role && role[middle[i]] == Middle(i))
    && (forall n {:trigger last[n]} :: n in last ==> last[n] in role && role[last[n]] == Last(n))
    && (forall f :: f in free ==> f in role && role[f] == Free)
  }

  /** The flat map: the entry for page number `p`, zero where there is no table. */
  ghost function Flat(mem: map<nat, Words>, last: map<nat, nat>, p: nat): nat {
    var n := p / 512;
    if n in last && last[n] in mem && |mem[last[n]]| == 512 then mem[last[n]][p % 512] else 0
  }

  lemma NumberFacts(i: nat, j: nat)
    requires j < 512
    ensures Number(i, j) / 512 == i
    ensures forall k, l :: 0 <= l < 512 && Number(k, l) == Number(i, j) ==> k == i && l == j
  {
  }

  ghost function Linked(mem: map<nat, Words>, g: nat, i: nat, f: nat, perm: nat): map<nat, Words>
    requires g in mem && i < |mem[g]|
  {
    mem[f := Blank()][g := mem[g][i := Entry(f, perm)]]
  }

  /** A blank middle table is hung into the top table. */
  lemma AddMiddle(mem: map<nat, Words>, role: map<nat, Role>, free: set<nat>, top: nat, middle: map<nat, nat>,
                  last: map<nat, nat>, i: nat, f: nat)
    requires Spelled(mem, top, middle, last) && Distinct(role, free, top, middle, last)
    requires f in free && i < 4 && i !in middle
    ensures Spelled(Linked(mem, top, i, f, PRESENT), top, middle[i := f], last)
  {
  }

  lemma AddLast(mem: map<nat, Words>, role: map<nat, Role>, free: set<nat>, top: nat, middle: map<nat, nat>,
                last: map<nat, nat>, i: nat, j: nat, f: nat)
    requires Spelled(mem, top, middle, last) && Distinct(role, free, top, middle, last)
    requires f in free && i in middle && j < 512 && Number(i, j) !in last
    ensures middle[i] in mem && |mem[middle[i]]| == 512
    ensures Spelled(Linked(mem, middle[i], j, f, PRESENT + RW + USER), top, middle, last[Number(i, j) := f])
  {
  }

  /** Adding a blank table below keeps every entry of the flat map. */
  lemma FlatMiddle(mem: map<nat, Words>, role: map<nat, Role>, free: set<nat>, top: nat, middle: map<nat, nat>,
                   last: map<nat, nat>, i: nat, f: nat, p: nat)
    requires Spelled(mem, top, middle, last) && Distinct(role, free, top, middle, last) && f in free && i < 4
    ensures Flat(Linked(mem, top, i, f, PRESENT), last, p) == Flat(mem, last, p)
  {
  }

  lemma FlatLast(mem: map<nat, Words>, role: map<nat, Role>, free: set<nat>, top: nat, middle: map<nat, nat>,
                 last: map<nat, nat>, i: nat, j: nat, f: nat, p: nat)
    requires Spelled(mem, top, middle, last) && Distinct(role, free, top, middle, last)
    requires f in free && i in middle && j < 512 && Number(i, j) !in last && middle[i] in mem && |mem[middle[i]]| == 512
    ensures Flat(Linked(mem, middle[i], j, f, PRESENT + RW + USER), last[Number(i, j) := f], p) == Flat(mem, last, p)
  {
  }

  /** A place in a page table */
  datatype Slot = Slot(frame: nat, index: nat)

  ghost function Word(mem: map<nat, Words>, at: Slot): nat {
    if at.frame in mem && at.index < |mem[at.frame]| then mem[at.frame][at.index] else 0
  }

  lemma SlotWord(mem: map<nat, Words>, top: nat, middle: map<nat, nat>, last: map<nat, nat>, va: nat)
    requires Sized(mem) && Spelled(mem, top, middle, last) && va < 0x1_0000_0000 && va / 0x20_0000 in last
    ensures Word(mem, Slot(last[va / 0x20_0000], PteIndex(va))) == Flat(mem, last, va / 0x1000)
  {
  }

  lemma NeedsMiddle(mem: map<nat, Words>, top: nat, middle: map<nat, nat>, last: map<nat, nat>, i: nat, j: nat)
    requires Spelled(mem, top, middle, last) && i < 4 && j < 512
    ensures Number(i, j) in last ==> i in middle
    ensures i in middle <==> mem[top][i] != 0
  {
  }

  class Walker {
    var mem: map<nat, Words>
    var free: set<nat>
    const top: nat
    ghost var middle: map<nat, nat>
    ghost var last: map<nat, nat>
    ghost var role: map<nat, Role>

    ghost predicate Valid()
      reads this
    {
      Sized(mem) && Spelled(mem, top, middle, last) && Distinct(role, free, top, middle, last)
    }

    /** A cleared top table and a pool of frames */
    constructor (t: nat, frames: set<nat>)
      requires t !in frames
      ensures Valid() && top == t && free == frames && middle == map[] && last == map[]
      ensures forall p :: Flat(mem, last, p) == 0
    {
      top, free := t, frames;
      mem := (map f | f in frames :: Blank())[t := Blank()];
      middle, last := map[], map[];
      role := (map f | f in frames :: Free)[t := Top];
    }

    /** `page_alloc(_GFP_ZERO)` and linking the frame as table entry `i` of table `g` */
    method Link(g: nat, i: nat, perm: nat) returns (o: Option<nat>)
      requires g in mem && i < |mem[g]| && g !in free
      modifies `mem, `free
      ensures o.None? <==> old(free) == {}
      ensures o.None? ==> mem == old(mem) && free == old(free)
      ensures o.Some? ==> o.value in old(free) && free == old(free) - {o.value}
      ensures o.Some? ==> mem == Linked(old(mem), g, i, o.value, perm)
    {
      if free == {} {
        return None;
      }
      var f :| f in free;
      free, mem := free - {f}, mem[f := Blank()];
      mem := mem[g := WithWord(mem[g], i, Entry(f, perm))];
      return Some(f);
    }

    /** `get_pmd` */
    method GetPmd(i: nat) returns (ok: bool)
      requires Valid() && i < 4 && i !in middle
      modifies this
      ensures Valid() && last == old(last)
      ensures ok <==> old(free) != {}
      ensures ok <==> i in middle
      ensures !ok ==> mem == old(mem) && free == old(free)
      ensures forall p :: Flat(mem, last, p) == old(Flat(mem, last, p))
    {
      ghost var m, r, fr := mem, role, free;
      var o := Link(top, i, PRESENT);
      if o.None? {
        return false;
      }
      AddMiddle(m, r, fr, top, middle, last, i, o.value);
      forall p ensures Flat(mem, last, p) == Flat(m, last, p) {
        FlatMiddle(m, r, fr, top, middle, last, i, o.value, p);
      }
      middle, role := middle[i := o.value], role[o.value := Middle(i)];
      return true;
    }

    /** `get_pte` */
    method GetPte(i: nat, j: nat) returns (ok: bool)
      requires Valid() && i in middle && j < 512 && Number(i, j) !in last
      modifies this
      ensures Valid() && middle == old(middle)
      ensures ok <==> old(free) != {}
      ensures ok <==> Number(i, j) in last
      ensures !ok ==> mem == old(mem) && free == old(free)
      ensures forall n :: n in old(last) ==> n in last && last[n] == old(last)[n]
      ensures forall p :: Flat(mem, last, p) == old(Flat(mem, last, p))
    {
      ghost var m, r, fr, la := mem, role, free, last;
      assert role[middle[i]] == Middle(i);
      assert FrameOf(mem[top][i]) == middle[i];
      var o := Link(FrameOf(mem[top][i]), j, PRESENT + RW + USER);
      if o.None? {
        return false;
      }
      AddLast(m, r, fr, top, middle, la, i, j, o.value);
      last, role := last[Number(i, j) := o.value], role[o.value := Last(Number(i, j))];
      forall p ensures Flat(mem, last, p) == Flat(m, la, p) { FlatLast(m, r, fr, top, middle, la, i, j, o.value, p); }
      return true;
    }

    /** `page_walk` down to the page table, from the middle table on */
    method WalkMiddle(i: nat, j: nat, create: bool) returns (o: Option<nat>)
      requires Valid() && i in middle && j < 512
      modifies this
      ensures Valid()
      ensures o.Some? <==> Number(i, j) in last
      ensures o.Some? ==> o.value == last[Number(i, j)]
      ensures forall n :: n in old(last) ==> n in last && last[n] == old(last)[n]
      ensures forall p :: Flat(mem, last, p) == old(Flat(mem, last, p))
      ensures !create || Number(i, j) in old(last) ==> mem == old(mem) && free == old(free)
      ensures create && o.None? ==> free == {}
    {
      assert FrameOf(mem[top][i]) == middle[i];
      if mem[FrameOf(mem[top][i])][j] == 0 {
        if !create {
          return None;
        }
        var ok := GetPte(i, j);
        if !ok {
          return None;
        }
      }
      assert FrameOf(mem[top][i]) == middle[i];
      return Some(FrameOf(mem[FrameOf(mem[top][i])][j]));
    }

    /** `page_walk` down to the page table */
    method WalkTop(i: nat, j: nat, create: bool) returns (o: Option<nat>)
      requires Valid() && i < 4 && j < 512
      modifies this
      ensures Valid()
      ensures o.Some? <==> Number(i, j) in last
      ensures o.Some? ==> o.value == last[Number(i, j)]
      ensures forall n :: n in old(last) ==> n in last && last[n] == old(last)[n]
      ensures forall p :: Flat(mem, last, p) == old(Flat(mem, last, p))
      ensures !create || Number(i, j) in old(last) ==> mem == old(mem) && free == old(free)
      ensures create && o.None? ==> free == {}
    {
      NumberFacts(i, j);
      NeedsMiddle(mem, top, middle, last, i, j);
      if mem[top][i] == 0 {
        if !create {
          return None;
        }
        var ok := GetPmd(i);
        if !ok {
          return None;
        }
      }
      o := WalkMiddle(i, j, create);
    }

    /** `page_walk`: the place of the entry for `va`. Creating tables, even when it fails half-way,
        changes no entry of the flat map and moves no place. */
    method PageWalk(va: nat, create: bool) returns (r: Option<Slot>)
      requires Valid() && va < 0x1_0000_0000
      modifies this
      ensures Valid()
      ensures r.Some? <==> va / 0x20_0000 in last
      ensures r.Some? ==> r.value == Slot(last[va / 0x20_0000], PteIndex(va))
      ensures r.Some? ==> Word(mem, r.value) == Flat(mem, last, va / 0x1000)
      ensures forall n :: n in old(last) ==> n in last && last[n] == old(last)[n]
      ensures forall p :: Flat(mem, last, p) == old(Flat(mem, last, p))
      ensures !create || va / 0x20_0000 in old(last) ==> mem == old(mem) && free == old(free)
      ensures create && r.None? ==> free == {}
    {
      Parts(va);
      var o := WalkTop(PgdIndex(va), PmdIndex(va), create);
      if o.None? {
        return None;
      }
      SlotWord(mem, top, middle, last, va);
      return Some(Slot(o.value, PteIndex(va)));
    }

    /** `pte_set` at the place that `page_walk` returned */
    method PteSet(va: nat, slot: Slot, w: nat)
      requires Valid() && va < 0x1_0000_0000 && va / 0x20_0000 in last
      requires slot == Slot(last[va / 0x20_0000], PteIndex(va))
      modifies `mem
      ensures Valid()
      ensures forall p :: Flat(mem, last, p) == if p == va / 0x1000 then w else old(Flat(mem, last, p))
    {
      ghost var m := mem;
      Parts(va);
      assert last[va / 0x20_0000] in mem;
      var words := WithWord(mem[slot.frame], slot.index, w);
      mem := mem[slot.frame := words];
      SetKeeps(m, role, free, top, middle, last, va / 0x20_0000, words);
      forall p ensures Flat(mem, last, p) == if p == va / 0x1000 then w else Flat(m, last, p) {
        SetFlat(m, role, free, top, middle, last, va, w, p);
      }
    }
  }

  lemma SetKeeps(mem: map<nat, Words>, role: map<nat, Role>, free: set<nat>, top: nat, middle: map<nat, nat>,
                 last: map<nat, nat>, n: nat, words: Words)
    requires Sized(mem) && Spelled(mem, top, middle, last) && Distinct(role, free, top, middle, last) && n in last
    requires |words| == 512
    ensures Sized(mem[last[n] := words]) && Spelled(mem[last[n] := words], top, middle, last)
  {
  }

  lemma SetFlat(mem: map<nat, Words>, role: map<nat, Role>, free: set<nat>, top: nat, middle: map<nat, nat>,
                last: map<nat, nat>, va: nat, w: nat, p: nat)
    requires Sized(mem) && Spelled(mem, top, middle, last) && Distinct(role, free, top, middle, last)
    requires va < 0x1_0000_0000 && va / 0x20_0000 in last && last[va / 0x20_0000] in mem
    requires PteIndex(va) < |mem[last[va / 0x20_0000]]|
    ensures Flat(mem[last[va / 0x20_0000] := WithWord(mem[last[va / 0x20_0000]], PteIndex(va), w)], last, p) ==
            if p == va / 0x1000 then w else Flat(mem, last, p)
  {
  }

  /** Two addresses have the same place exactly when they are on the same page. */
  lemma SameSlotIffSamePage(role: map<nat, Role>, free: set<nat>, top: nat, middle: map<nat, nat>, last: map<nat, nat>,
                            va: nat, vb: nat)
    requires Distinct(role, free, top, middle, last) && va < 0x1_0000_0000 && vb < 0x1_0000_0000
    requires va / 0x20_0000 in last && vb / 0x20_0000 in last
    ensures Slot(last[va / 0x20_0000], PteIndex(va)) == Slot(last[vb / 0x20_0000], PteIndex(vb)) <==>
        va / 0x1000 == vb / 0x1000
  {
    Parts(va);
    Parts(vb);
    IndexesIffPage(va, vb);
    assert role[last[va / 0x20_0000]] == Last(va / 0x20_0000) && role[last[vb / 0x20_0000]] == Last(vb / 0x20_0000);
  }
}
