/** The words of the three-level tables refine the maps of the frame model: whatever `page_walk`,
    `page_insert` and `page_remove` do to the maps of one address space, the words keep spelling them out
    (kernel/mm/page.c). */
module TableWords {
  import opened PageFrames
  import opened Paging
  import PageTable

  type Words = PageTable.Words

  /** The entry that `pte_set` writes for a user page */
  function PteWord(e: Pte): nat {
    PageTable.Entry(e.frame, PageTable.PRESENT + PageTable.USER + if e.write then PageTable.RW else 0)
  }

  function WordAt(pte: map<Key, Pte>, k: Key): nat {
    if k in pte then PteWord(pte[k]) else 0
  }

  lemma FrameRead(frame: nat, flags: nat)
    requires flags < 4096
    ensures (frame * 4096 + flags) / 4096 == frame && (frame * 4096 + flags) % 4096 == flags
  {
  }

  lemma HalfRead(a: nat, b: nat)
    ensures (a * 2 + b) / 2 == a + b / 2 && (a * 2 + b) % 2 == b % 2
  {
  }

  /** The three lowest bits of a word are those of its flags. */
  lemma BitsRead(frame: nat, flags: nat)
    ensures var w := frame * 4096 + flags;
            w % 2 == flags % 2 && (w / 2) % 2 == (flags / 2) % 2 && (w / 4) % 2 == (flags / 4) % 2
  {
    HalfRead(frame * 2048, flags);
    HalfRead(frame * 1024, flags / 2);
    HalfRead(frame * 512, flags / 2 / 2);
    Quarter(frame * 4096 + flags);
    Quarter(flags);
  }

  lemma Quarter(w: nat)
    ensures w / 4 == w / 2 / 2
  {
  }

  /** `pte_present`, `pte_write`, the user bit and the frame number read the entry back. */
  lemma PteWordReads(e: Pte)
    ensures PageTable.FrameOf(PteWord(e)) == e.frame && PteWord(e) % 2 == 1 && ((PteWord(e) / 2) % 2 == 1 <==> e.write)
    ensures (PteWord(e) / 4) % 2 == 1 && PteWord(e) % 4096 < 8
  {
    FrameRead(e.frame, if e.write then 7 else 5);
    BitsRead(e.frame, if e.write then 7 else 5);
  }

  /** The user half of the numbered tables is that of address space `m`. */
  ghost predicate Matches(s: State, m: nat, middle: map<nat, nat>, last: map<nat, nat>) {
    && (forall i: nat {:trigger Key(m, i)} :: i < 3 ==>
          (i in middle <==> Key(m, i) in s.middle) && (i in middle ==> middle[i] == s.middle[Key(m, i)]))
    && (forall n: nat {:trigger Key(m, n)} :: n < 1536 ==>
          (n in last <==> Key(m, n) in s.last) && (n in last ==> last[n] == s.last[Key(m, n)]))
  }

  ghost predicate FlatMatches(pte: map<Key, Pte>, m: nat, mem: map<nat, Words>, last: map<nat, nat>) {
    forall v: nat {:trigger PageTable.Flat(mem, last, v)} :: v < USER_PAGES ==>
      PageTable.Flat(mem, last, v) == WordAt(pte, Key(m, v))
  }

  /** The words in `mem`, from the top table on, say what the maps say about `m`. */
  ghost predicate Refines(mem: map<nat, Words>, top: nat, middle: map<nat, nat>, last: map<nat, nat>, s: State, m: nat)
  {
    && PageTable.Sized(mem) && PageTable.Spelled(mem, top, middle, last)
    && m in s.mms && s.mms[m].top == top && Matches(s, m, middle, last) && FlatMatches(s.pte, m, mem, last)
  }

  /** A new address space: the top table has entries for the kernel half only. */
  lemma EmptyRefines(mem: map<nat, Words>, top: nat, middle: map<nat, nat>, last: map<nat, nat>, s: State, m: nat)
    requires PageTable.Sized(mem) && PageTable.Spelled(mem, top, middle, last) && m in s.mms && s.mms[m].top == top
    requires (forall i :: i in middle ==> 3 <= i) && (forall n :: n in last ==> 1536 <= n)
    requires forall k: Key :: k.mm == m ==> k !in s.middle && k !in s.last && k !in s.pte
    ensures Refines(mem, top, middle, last, s, m)
  {
  }

  /** Both models of `page_walk` find the page table, and the same entry in it. */
  lemma WalksAgree(mem: map<nat, Words>, top: nat, middle: map<nat, nat>, last: map<nat, nat>, s: State, m: nat,
                   va: nat)
    requires Refines(mem, top, middle, last, s, m) && va < 0xC000_0000
    ensures va / 0x20_0000 in last <==> Up(Key(m, va / 0x1000)) in s.last
    ensures va / 0x20_0000 in last ==>
              && last[va / 0x20_0000] == s.last[Up(Key(m, va / 0x1000))]
              && PageTable.Word(mem, PageTable.Slot(last[va / 0x20_0000], PageTable.PteIndex(va))) ==
                 WordAt(s.pte, Key(m, va / 0x1000))
  {
    assert Up(Key(m, va / 0x1000)) == Key(m, va / 0x20_0000);
    assert va / 0x20_0000 < 1536 && va / 0x1000 < USER_PAGES;
    if va / 0x20_0000 in last { PageTable.SlotWord(mem, top, middle, last, va); }
  }

  lemma MiddleMatches(s: State, t: State, m: nat, middle: map<nat, nat>, last: map<nat, nat>, i: nat, f: nat)
    requires Matches(s, m, middle, last) && t.middle == s.middle[Key(m, i) := f] && t.last == s.last
    ensures Matches(t, m, middle[i := f], last)
  {
  }

  lemma LastMatches(s: State, t: State, m: nat, middle: map<nat, nat>, last: map<nat, nat>, n: nat, f: nat)
    requires Matches(s, m, middle, last) && t.last == s.last[Key(m, n) := f] && t.middle == s.middle
    ensures Matches(t, m, middle, last[n := f])
  {
  }

  /** `get_pmd`, in the words and in the maps */
  lemma MiddleStep(mem: map<nat, Words>, role: map<nat, PageTable.Role>, free: set<nat>, top: nat,
                   middle: map<nat, nat>, last: map<nat, nat>, s: State, m: nat, i: nat, f: nat)
    requires Refines(mem, top, middle, last, s, m) && PageTable.Distinct(role, free, top, middle, last)
    requires f in free && i < 3 && Key(m, i) !in s.middle
    ensures i !in middle && |mem[top]| == 512
    ensures Refines(PageTable.Linked(mem, top, i, f, PageTable.PRESENT), top, middle[i := f], last,
                    WithMiddle(s, Key(m, i), f), m)
  {
    assert i !in middle;
    PageTable.AddMiddle(mem, role, free, top, middle, last, i, f);
    forall v ensures PageTable.Flat(PageTable.Linked(mem, top, i, f, PageTable.PRESENT), last, v) ==
                     PageTable.Flat(mem, last, v) {
      PageTable.FlatMiddle(mem, role, free, top, middle, last, i, f, v);
    }
    MiddleMatches(s, WithMiddle(s, Key(m, i), f), m, middle, last, i, f);
  }

  /** `get_pte`, in the words and in the maps */
  lemma LastStep(mem: map<nat, Words>, role: map<nat, PageTable.Role>, free: set<nat>, top: nat, middle: map<nat, nat>,
                 last: map<nat, nat>, s: State, m: nat, i: nat, j: nat, f: nat)
    requires Refines(mem, top, middle, last, s, m) && PageTable.Distinct(role, free, top, middle, last)
    requires f in free && i < 3 && j < 512 && Key(m, i) in s.middle
    requires var n := PageTable.Number(i, j); Key(m, n) !in s.last
    ensures i in middle && middle[i] in mem && |mem[middle[i]]| == 512
    ensures var n := PageTable.Number(i, j);
            Refines(PageTable.Linked(mem, middle[i], j, f, PageTable.PRESENT + PageTable.RW + PageTable.USER),
                    top, middle, last[n := f], WithLast(s, Key(m, n), f), m)
  {
    var n := PageTable.Number(i, j);
    assert n < 1536 && n == Key(m, n).index && i == Key(m, i).index;
    PageTable.AddLast(mem, role, free, top, middle, last, i, j, f);
    var mem' := PageTable.Linked(mem, middle[i], j, f, PageTable.PRESENT + PageTable.RW + PageTable.USER);
    forall v: nat | v < USER_PAGES ensures PageTable.Flat(mem', last[n := f], v) == WordAt(s.pte, Key(m, v)) {
      PageTable.FlatLast(mem, role, free, top, middle, last, i, j, f, v);
      assert PageTable.Flat(mem, last, v) == WordAt(s.pte, Key(m, v));
    }
    LastMatches(s, WithLast(s, Key(m, n), f), m, middle, last, n, f);
  }

  /** `pte_set`: in the words one entry changes; in the maps the same entry appears or goes. */
  lemma SetStep(mem: map<nat, Words>, role: map<nat, PageTable.Role>, free: set<nat>, top: nat, middle: map<nat, nat>,
                last: map<nat, nat>, s: State, t: State, m: nat, va: nat, w: nat)
    requires Refines(mem, top, middle, last, s, m) && PageTable.Distinct(role, free, top, middle, last)
    requires va < 0xC000_0000 && va / 0x20_0000 in last && w == WordAt(t.pte, Key(m, va / 0x1000))
    requires t.last == s.last && t.middle == s.middle && t.mms == s.mms
    requires forall k :: k != Key(m, va / 0x1000) ==> WordAt(t.pte, k) == WordAt(s.pte, k)
    ensures var f := last[va / 0x20_0000];
            && f in mem && PageTable.PteIndex(va) < |mem[f]|
            && Refines(mem[f := PageTable.WithWord(mem[f], PageTable.PteIndex(va), w)], top, middle, last, t, m)
  {
    var n := va / 0x20_0000;
    assert last[n] in mem;
    var words := PageTable.WithWord(mem[last[n]], PageTable.PteIndex(va), w);
    PageTable.SetKeeps(mem, role, free, top, middle, last, n, words);
    forall v: nat | v < USER_PAGES ensures PageTable.Flat(mem[last[n] := words], last, v) == WordAt(t.pte, Key(m, v)) {
      PageTable.SetFlat(mem, role, free, top, middle, last, va, w, v);
      assert PageTable.Flat(mem, last, v) == WordAt(s.pte, Key(m, v));
    }
  }

  /** A new mapping: the step of `page_insert` */
  lemma MapStep(mem: map<nat, Words>, role: map<nat, PageTable.Role>, free: set<nat>, top: nat, middle: map<nat, nat>,
                last: map<nat, nat>, s: State, m: nat, va: nat, e: Pte)
    requires Refines(mem, top, middle, last, s, m) && PageTable.Distinct(role, free, top, middle, last)
    requires va < 0xC000_0000 && va / 0x20_0000 in last
    ensures var f := last[va / 0x20_0000];
            && f in mem && PageTable.PteIndex(va) < |mem[f]|
            && Refines(mem[f := PageTable.WithWord(mem[f], PageTable.PteIndex(va), PteWord(e))], top, middle, last,
                       Mapped(s, Key(m, va / 0x1000), e), m)
  {
    SetStep(mem, role, free, top, middle, last, s, Mapped(s, Key(m, va / 0x1000), e), m, va, PteWord(e));
  }

  /** `page_remove` of a mapped page */
  lemma UnmapStep(mem: map<nat, Words>, role: map<nat, PageTable.Role>, free: set<nat>, top: nat, middle: map<nat, nat>,
                  last: map<nat, nat>, s: State, m: nat, va: nat)
    requires Refines(mem, top, middle, last, s, m) && PageTable.Distinct(role, free, top, middle, last)
    requires va < 0xC000_0000 && va / 0x20_0000 in last
    ensures var f := last[va / 0x20_0000];
            && f in mem && PageTable.PteIndex(va) < |mem[f]|
            && Refines(mem[f := PageTable.WithWord(mem[f], PageTable.PteIndex(va), 0)], top, middle, last,
                       Unmapped(s, Key(m, va / 0x1000)), m)
  {
    SetStep(mem, role, free, top, middle, last, s, Unmapped(s, Key(m, va / 0x1000)), m, va, 0);
  }
}
