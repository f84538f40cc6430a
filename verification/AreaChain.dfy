/** The chain that `vm_link` makes of the areas of a process, and what it means for the heap: the kernel's
    `brk` takes the area behind the heap in the chain for the next one in memory (kernel/mm/mm.c,
    kernel/syscall/brk.c). */
module AreaChain {
  import opened Wrappers
  import opened VmaTree
  import AddressSpace

  /** An area and its node, in the order of linking */
  datatype Entry = Entry(id: nat, vma: Vma)

  function TreeOf(es: seq<Entry>): Tree {
    if es == [] then Leaf
    else
      var n := |es| - 1;
      Insert(TreeOf(es[..n]), es[n].id, es[n].vma)
  }

  function ChainOf(es: seq<Entry>): seq<nat> {
    if es == [] then []
    else
      var n := |es| - 1;
      Threaded(ChainOf(es[..n]), Prev(TreeOf(es[..n]), es[n].vma.start, None), es[n].id)
  }

  /** The areas are not empty, and their nodes are different. */
  ghost predicate Proper(es: seq<Entry>) {
    && (forall i :: 0 <= i < |es| ==> es[i].vma.start < es[i].vma.end)
    && (forall i, j :: 0 <= i < j < |es| ==> es[i].id != es[j].id)
  }

  ghost function IdsOf(es: seq<Entry>): set<nat> {
    set i | 0 <= i < |es| :: es[i].id
  }

  lemma IdsMore(es: seq<Entry>)
    requires Proper(es) && es != []
    ensures var n := |es| - 1;
            Proper(es[..n]) && IdsOf(es) == IdsOf(es[..n]) + {es[n].id} && es[n].id !in IdsOf(es[..n])
  {
    var n := |es| - 1;
    var some := es[..n];
    assert forall i :: 0 <= i < n ==> some[i] == es[i];
    forall x | x in IdsOf(es) ensures x in IdsOf(some) + {es[n].id} {
      var i :| 0 <= i < |es| && es[i].id == x;
      assert i < n ==> some[i].id == x;
    }
  }

  lemma {:induction false} TreeIs(es: seq<Entry>)
    requires Proper(es)
    ensures Sorted(TreeOf(es)) && (es == [] ==> TreeOf(es) == Leaf)
    ensures es != [] ==> TreeOf(es).Branch? && TreeOf(es).id == es[0].id && TreeOf(es).vma == es[0].vma
  {
    if es != [] {
      var n := |es| - 1;
      TreeIs(es[..n]);
      InsertSorted(TreeOf(es[..n]), es[n].id, es[n].vma);
    }
  }

  lemma {:induction false} NoArea(es: seq<Entry>, x: nat)
    requires Proper(es) && x !in IdsOf(es)
    ensures AreaOf(TreeOf(es), x).None?
  {
    if es != [] {
      var n := |es| - 1;
      IdsMore(es);
      NoArea(es[..n], x);
      NoArea(es[..n], es[n].id);
      InsertAreaOf(TreeOf(es[..n]), es[n].id, es[n].vma, x);
    }
  }

  lemma {:induction false} AreaAt(es: seq<Entry>, i: nat)
    requires Proper(es) && i < |es|
    ensures AreaOf(TreeOf(es), es[i].id) == Some(es[i].vma)
    decreases |es|
  {
    var n := |es| - 1;
    IdsMore(es);
    NoArea(es[..n], es[n].id);
    InsertAreaOf(TreeOf(es[..n]), es[n].id, es[n].vma, es[i].id);
    if i < n { AreaAt(es[..n], i); }
  }

  /** Where the next area goes: behind the first one that was linked, or to the front */
  lemma PrevOf(es: seq<Entry>, start: nat)
    requires Proper(es) && es != []
    ensures Prev(TreeOf(es), start, None) == if es[0].vma.end < start then Some(es[0].id) else None
  {
    TreeIs(es);
    PrevIsRoot(TreeOf(es), start);
  }

  lemma {:induction false} ChainIs(es: seq<Entry>)
    requires Proper(es)
    ensures NoDuplicates(ChainOf(es)) && (es != [] ==> ChainOf(es) != [])
    ensures forall x :: x in ChainOf(es) <==> x in IdsOf(es)
  {
    if es != [] {
      var n := |es| - 1;
      IdsMore(es);
      ChainIs(es[..n]);
      AddressSpace.ThreadedFacts(ChainOf(es[..n]), Prev(TreeOf(es[..n]), es[n].vma.start, None), es[n].id);
    }
  }

  // ----- what one more area changes

  lemma {:induction false} AfterNew(chain: seq<nat>, p: nat, id: nat)
    requires NoDuplicates(chain) && p in chain && id !in chain
    ensures After(Threaded(chain, Some(p), id), id) == After(chain, p)
    ensures After(Threaded(chain, Some(p), id), p) == Some(id)
    decreases |chain|
  {
    if chain[0] == p {
      var all := [p, id] + chain[1..];
      assert Threaded(chain, Some(p), id) == all && all[1..] == [id] + chain[1..];
      if |chain| > 1 { assert ([id] + chain[1..])[1] == chain[1]; }
    } else {
      var rest := Threaded(chain[1..], Some(p), id);
      AfterNew(chain[1..], p, id);
      assert ([chain[0]] + rest)[1..] == rest;
      LongEnough(rest, p);
    }
  }

  lemma LongEnough(chain: seq<nat>, id: nat)
    requires After(chain, id).Some?
    ensures |chain| > 1
  {
  }

  lemma {:induction false} AfterOld(chain: seq<nat>, prev: Option<nat>, id: nat, x: nat)
    requires NoDuplicates(chain) && x in chain && id !in chain && prev != Some(x)
    requires prev.Some? ==> prev.value in chain
    ensures After(Threaded(chain, prev, id), x) == After(chain, x)
    decreases |chain|
  {
    if prev.None? {
      assert ([id] + chain)[1..] == chain;
    } else if chain[0] == prev.value {
      var all := [chain[0], id] + chain[1..];
      assert all[1..] == [id] + chain[1..] && ([id] + chain[1..])[1..] == chain[1..];
    } else {
      var rest := Threaded(chain[1..], prev, id);
      assert ([chain[0]] + rest)[1..] == rest;
      if chain[0] == x {
        HeadStays(chain[1..], prev.value, id);
      } else {
        AfterOld(chain[1..], prev, id, x);
      }
    }
  }

  lemma HeadStays(chain: seq<nat>, p: nat, id: nat)
    requires p in chain
    ensures Threaded(chain, Some(p), id)[0] == chain[0] && |Threaded(chain, Some(p), id)| > 1
  {
  }

  // ----- the whole chain

  /** The latest area before the `k`-th that starts behind the end of the first */
  function Behind(es: seq<Entry>, k: nat): Option<Entry>
    requires k <= |es|
  {
    if k < 2 then None else if es[k - 1].vma.start > es[0].vma.end then Some(es[k - 1]) else Behind(es, k - 1)
  }

  lemma {:induction false} BehindFrame(es: seq<Entry>, n: nat, k: nat)
    requires k <= n <= |es|
    ensures Behind(es[..n], k) == Behind(es, k)
    decreases k
  {
    if k >= 2 { BehindFrame(es, n, k - 1); }
  }

  function IdOf(e: Option<Entry>): Option<nat> {
    if e.Some? then Some(e.value.id) else None
  }

  /** `vm_next` of the first area leads to the latest that starts behind its end. */
  lemma {:induction false} FirstNext(es: seq<Entry>)
    requires Proper(es) && es != []
    ensures After(ChainOf(es), es[0].id) == IdOf(Behind(es, |es|))
  {
    var n := |es| - 1;
    var some := es[..n];
    if n == 0 {
      assert ChainOf(es) == [es[0].id];
    } else {
      var c := ChainOf(some);
      FirstNext(some);
      BehindFrame(es, n, n);
      ChainIs(some);
      PrevOf(some, es[n].vma.start);
      assert some[0] == es[0];
      NotYetLinked(es, n);
      if es[0].vma.end < es[n].vma.start {
        AfterNew(c, es[0].id, es[n].id);
      } else {
        AfterOld(c, None, es[n].id, es[0].id);
      }
    }
  }

  lemma NotYetLinked(es: seq<Entry>, n: nat)
    requires Proper(es) && n < |es|
    ensures es[n].id !in ChainOf(es[..n]) && forall i :: 0 <= i < n ==> es[i].id in ChainOf(es[..n])
  {
    var some := es[..n];
    ChainIs(some);
    forall i | 0 <= i < n ensures es[i].id in IdsOf(some) { assert some[i] == es[i]; }
    forall x | x in IdsOf(some) ensures x != es[n].id {
      var i :| 0 <= i < n && some[i].id == x;
      assert some[i] == es[i];
    }
  }

  /** The first of the chain does not start behind the end of the first area that was linked. */
  lemma {:induction false} HeadIsLow(es: seq<Entry>) returns (h: nat)
    requires Proper(es) && es != []
    ensures h < |es| && ChainOf(es) != [] && ChainOf(es)[0] == es[h].id && es[h].vma.start <= es[0].vma.end
  {
    var n := |es| - 1;
    var some := es[..n];
    if n == 0 {
      h := 0;
      assert ChainOf(es) == [es[0].id];
    } else {
      h := HeadIsLow(some);
      PrevOf(some, es[n].vma.start);
      NotYetLinked(es, n);
      assert some[0] == es[0] && some[h] == es[h];
      if es[0].vma.end < es[n].vma.start {
        HeadStays(ChainOf(some), es[0].id, es[n].id);
      } else {
        h := n;
      }
    }
  }

  lemma NextStays(es: seq<Entry>, k: nat)
    requires Proper(es) && 1 <= k < |es| - 1
    ensures After(ChainOf(es), es[k].id) == After(ChainOf(es[..|es| - 1]), es[k].id)
  {
    var n := |es| - 1;
    var some := es[..n];
    assert some[0] == es[0];
    PrevOf(some, es[n].vma.start);
    NotYetLinked(es, n);
    ChainIs(some);
    AfterOld(ChainOf(some), Prev(TreeOf(some), es[n].vma.start, None), es[n].id, es[k].id);
  }

  /** What `vm_next` of an area leads to is settled when the area is linked, unless it is the first one. */
  lemma {:induction false} NextIsSettled(es: seq<Entry>, k: nat)
    requires Proper(es) && 1 <= k < |es|
    ensures After(ChainOf(es), es[k].id) == After(ChainOf(es[..k + 1]), es[k].id)
    decreases |es|
  {
    if k == |es| - 1 {
      assert es[..k + 1] == es;
    } else {
      NextStays(es, k);
      NextIsSettled(es[..|es| - 1], k);
      assert es[..|es| - 1][..k + 1] == es[..k + 1];
    }
  }

  /** The area linked last, when it starts behind the end of the first */
  lemma FarNext(es: seq<Entry>)
    requires Proper(es) && |es| >= 2 && es[0].vma.end < es[|es| - 1].vma.start
    ensures After(ChainOf(es), es[|es| - 1].id) == IdOf(Behind(es, |es| - 1))
  {
    var n := |es| - 1;
    var some := es[..n];
    assert some[0] == es[0];
    PrevOf(some, es[n].vma.start);
    NotYetLinked(es, n);
    ChainIs(some);
    AfterNew(ChainOf(some), es[0].id, es[n].id);
    FirstNext(some);
    BehindFrame(es, n, n);
  }

  /** The area linked last, when it does not */
  lemma NearNext(es: seq<Entry>) returns (h: nat)
    requires Proper(es) && |es| >= 2 && es[0].vma.end >= es[|es| - 1].vma.start
    ensures h < |es| - 1 && es[h].vma.start <= es[0].vma.end
    ensures After(ChainOf(es), es[|es| - 1].id) == Some(es[h].id)
  {
    var n := |es| - 1;
    var some := es[..n];
    assert some[0] == es[0];
    PrevOf(some, es[n].vma.start);
    h := HeadIsLow(some);
    assert some[h] == es[h];
    assert ([es[n].id] + ChainOf(some))[1] == ChainOf(some)[0];
  }

  /** The area that `brk` takes for the next one behind area `k`: the latest linked before it that starts
      behind the end of the first area, if area `k` itself does; otherwise one that starts no higher than
      that end. */
  lemma CeilingIs(es: seq<Entry>, k: nat)
    requires Proper(es) && 1 <= k < |es|
    ensures var c := Ceiling(TreeOf(es), ChainOf(es), es[k].id);
            if es[0].vma.end < es[k].vma.start
            then c == if Behind(es, k).Some? then Some(Behind(es, k).value.vma.start) else None
            else c.Some? && c.value <= es[0].vma.end
  {
    var upto := es[..k + 1];
    NextIsSettled(es, k);
    assert upto[k] == es[k] && upto[0] == es[0];
    if es[0].vma.end < es[k].vma.start {
      FarNext(upto);
      BehindFrame(es, k + 1, k);
      if Behind(es, k).Some? {
        var i := BehindAt(es, k);
        AreaAt(es, i);
      }
    } else {
      var h := NearNext(upto);
      assert upto[h] == es[h];
      AreaAt(es, h);
    }
  }

  lemma {:induction false} BehindAt(es: seq<Entry>, k: nat) returns (i: nat)
    requires k <= |es| && Behind(es, k).Some?
    ensures i < k && es[i] == Behind(es, k).value
    decreases k
  {
    i := k - 1;
    if es[i].vma.start <= es[0].vma.end { i := BehindAt(es, k - 1); }
  }

  // ----- the heap

  /** After `load_icode`, which links the segments, the stack and then the heap: a break above the heap is
      granted if and only if it stays below the stack and the first segment ends below the heap. When the
      first segment ends where the heap starts, the heap can never grow. */
  lemma LoadedHeapGrowsIff(es: seq<Entry>, end: nat)
    requires Proper(es) && |es| >= 3
    requires var heap, stack := es[|es| - 1].vma, es[|es| - 2].vma;
             es[0].vma.end <= heap.start && es[0].vma.end < stack.start && heap.end < end
    ensures var heap, stack := es[|es| - 1], es[|es| - 2].vma;
            AddressSpace.Clears(Ceiling(TreeOf(es), ChainOf(es), heap.id), end) <==>
            es[0].vma.end < heap.vma.start && end <= stack.start
  {
    var k := |es| - 1;
    CeilingIs(es, k);
    assert es[k].vma.start < es[k].vma.end;
    if es[0].vma.end < es[k].vma.start { assert Behind(es, k) == Some(es[k - 1]); }
  }

  /** No two areas meet. */
  ghost predicate Disjoint(es: seq<Entry>) {
    forall i, j :: 0 <= i < j < |es| ==> Apart(es[i].vma, es[j].vma)
  }

  ghost function VmasOf(es: seq<Entry>): set<Vma> {
    set i | 0 <= i < |es| :: es[i].vma
  }

  lemma VmasMore(es: seq<Entry>)
    requires es != []
    ensures VmasOf(es) == VmasOf(es[..|es| - 1]) + {es[|es| - 1].vma}
  {
    var n := |es| - 1;
    var some := es[..n];
    assert forall i :: 0 <= i < n ==> some[i] == es[i];
    forall v | v in VmasOf(es) ensures v in VmasOf(some) + {es[n].vma} {
      var i :| 0 <= i < |es| && es[i].vma == v;
      assert i < n ==> some[i].vma == v;
    }
  }

  lemma {:induction false} TreeGood(es: seq<Entry>)
    requires Proper(es) && Disjoint(es)
    ensures Good(TreeOf(es)) && Areas(TreeOf(es)) == VmasOf(es) && NoneEmpty(VmasOf(es))
  {
    if es != [] {
      var n := |es| - 1;
      var some := es[..n];
      TreeGood(some);
      VmasMore(es);
      forall a | a in VmasOf(some) ensures Apart(a, es[n].vma) {
        var i :| 0 <= i < n && some[i].vma == a;
        assert Apart(es[i].vma, es[n].vma);
      }
      LinkGood(TreeOf(some), es[n].id, es[n].vma);
      InsertAreas(TreeOf(some), es[n].id, es[n].vma);
    }
  }

  /** The search for the start of an area finds it. */
  lemma FindsStart(es: seq<Entry>, k: nat)
    requires Proper(es) && Disjoint(es) && k < |es|
    ensures Find(TreeOf(es), es[k].vma.start, None) == Some(es[k].vma)
  {
    TreeGood(es);
    AllNoneHidden(TreeOf(es));
    FindLowest(TreeOf(es), es[k].vma.start);
    assert es[k].vma in VmasOf(es);
  }

  lemma {:induction false} TreeIds(es: seq<Entry>)
    requires Proper(es)
    ensures AddressSpace.Distinct(TreeOf(es)) && AddressSpace.Ids(TreeOf(es)) == IdsOf(es)
  {
    if es != [] {
      var n := |es| - 1;
      IdsMore(es);
      TreeIds(es[..n]);
      AddressSpace.InsertIds(TreeOf(es[..n]), es[n].id, es[n].vma);
    }
  }

  /** It is the area of the node that is met. */
  lemma HitsStart(es: seq<Entry>, k: nat)
    requires Proper(es) && Disjoint(es) && k < |es|
    ensures Hit(TreeOf(es), es[k].vma.start) == Some(es[k].id)
  {
    var t, addr := TreeOf(es), es[k].vma.start;
    FindsStart(es, k);
    TreeIds(es);
    AddressSpace.HitArea(t, addr, None);
    AddressSpace.HitInTree(t, addr);
    var i :| 0 <= i < |es| && es[i].id == Hit(t, addr).value;
    AreaAt(es, i);
    SameArea(es, i, k);
  }

  lemma SameArea(es: seq<Entry>, i: nat, k: nat)
    requires Proper(es) && Disjoint(es) && i < |es| && k < |es| && es[i].vma == es[k].vma
    ensures i == k
  {
  }

  /** `vm_link` for each area, in memory that is null where the child links are */
  method LinkAll(es: seq<Entry>) returns (m: AddressSpace.Mm)
    requires Proper(es)
    ensures fresh(m) && m.Valid() && m.tree == TreeOf(es) && m.chain == ChainOf(es)
  {
    m := new AddressSpace.Mm();
    for i := 0 to |es|
      invariant fresh(m) && m.Valid() && m.tree == TreeOf(es[..i]) && m.chain == ChainOf(es[..i])
      invariant forall id :: id in m.nodes ==> id in IdsOf(es[..i])
    {
      var upto := es[..i + 1];
      assert upto[..i] == es[..i] && upto[i] == es[i];
      IdsMore(upto);
      m.VmLink(AddressSpace.Raw(es[i].id, None, None), es[i].vma);
    }
    assert es[..|es|] == es;
  }

  /** `load_icode` links the areas, and then the break is asked for: it moves if and only if it stays below
      the stack and the first segment ends below the heap. */
  method LoadedBrk(es: seq<Entry>, end: nat) returns (brk: nat, va: nat)
    requires Proper(es) && Disjoint(es) && |es| >= 3
    requires var heap, stack := es[|es| - 1].vma, es[|es| - 2].vma;
             es[0].vma.end <= heap.start && es[0].vma.end < stack.start && heap.end < end
    ensures var heap, stack := es[|es| - 1].vma, es[|es| - 2].vma;
            (brk, va) == if es[0].vma.end < heap.start && end <= stack.start then (end, end) else (heap.end, 0)
  {
    var k := |es| - 1;
    var heap := es[k].vma;
    assert heap.start < heap.end;
    var m := LinkAll(es);
    FindsStart(es, k);
    HitsStart(es, k);
    LoadedHeapGrowsIff(es, end);
    var r := m.Brk(heap.start, heap.end, end);
    return r.value.0, r.value.1;
  }

  /** The areas of a child: `copy_task` follows the parent's chain, and `create_vma` rounds. */
  ghost predicate CopyOf(es: seq<Entry>, kids: seq<Entry>) {
    && Proper(kids) && |kids| == |ChainOf(es)|
    && forall i :: 0 <= i < |kids| ==> Copied(AreaOf(TreeOf(es), ChainOf(es)[i]), kids[i].vma)
  }

  /** The same start, and the same end if that is on a page boundary */
  predicate Copied(a: Option<Vma>, b: Vma) {
    a.Some? && b.start == a.value.start && (a.value.end % 4096 == 0 ==> b.end == a.value.end)
  }

  lemma ThreadSecond(b: nat, a: nat, rest: seq<nat>, id: nat)
    requires a != b
    ensures Threaded([b, a] + rest, Some(a), id) == [b, a, id] + rest
  {
    assert ([b, a] + rest)[1..] == [a] + rest && ([a] + rest)[1..] == rest;
    assert Threaded([a] + rest, Some(a), id) == [a, id] + rest;
  }

  lemma ChainOfTwo(es: seq<Entry>)
    requires Proper(es) && |es| == 2 && es[0].vma.end >= es[1].vma.start
    ensures ChainOf(es) == [es[1].id, es[0].id]
  {
    assert es[..1][..0] == [] && es[..1][0] == es[0];
    PrevOf(es[..1], es[1].vma.start);
    assert ChainOf(es[..1]) == [es[0].id];
  }

  lemma ChainOfThree(es: seq<Entry>)
    requires Proper(es) && |es| == 3 && es[0].vma.end >= es[1].vma.start && es[0].vma.end < es[2].vma.start
    ensures ChainOf(es) == [es[1].id, es[0].id, es[2].id]
  {
    assert es[..2][0] == es[0] && es[..2][1] == es[1];
    ChainOfTwo(es[..2]);
    PrevOf(es[..2], es[2].vma.start);
    ThreadSecond(es[1].id, es[0].id, [], es[2].id);
    assert [es[1].id, es[0].id] + [] == [es[1].id, es[0].id];
  }

  lemma ChainOfFour(es: seq<Entry>)
    requires Proper(es) && |es| == 4 && es[0].vma.end >= es[1].vma.start
    requires es[0].vma.end < es[2].vma.start && es[0].vma.end < es[3].vma.start
    ensures ChainOf(es) == [es[1].id, es[0].id, es[3].id, es[2].id]
  {
    assert es[..3][0] == es[0] && es[..3][1] == es[1] && es[..3][2] == es[2];
    ChainOfThree(es[..3]);
    PrevOf(es[..3], es[3].vma.start);
    ThreadSecond(es[1].id, es[0].id, [es[2].id], es[3].id);
    assert [es[1].id, es[0].id] + [es[2].id] == [es[1].id, es[0].id, es[2].id];
  }

  /** A program of two adjacent segments: its own heap can grow up to the stack, but that of a child which it
      forks can never grow. */
  lemma ForkedHeapIsStuck(es: seq<Entry>, kids: seq<Entry>, end: nat)
    requires Proper(es) && |es| == 4 && CopyOf(es, kids) && |kids| == 4
    requires var text, data, stack, heap := es[0].vma, es[1].vma, es[2].vma, es[3].vma;
             && text.end == data.start && data.end == heap.start && heap.end <= stack.start && heap.end < end
             && data.end % 4096 == 0
    ensures AddressSpace.Clears(Ceiling(TreeOf(es), ChainOf(es), es[3].id), end) <==> end <= es[2].vma.start
    ensures kids[2].vma.start == es[3].vma.start
    ensures !AddressSpace.Clears(Ceiling(TreeOf(kids), ChainOf(kids), kids[2].id), end)
  {
    assert es[1].vma.start < es[1].vma.end && es[2].vma.start < es[2].vma.end && es[3].vma.start < es[3].vma.end;
    LoadedHeapGrowsIff(es, end);
    ChainOfFour(es);
    AreaAt(es, 1);
    AreaAt(es, 3);
    assert Copied(Some(es[1].vma), kids[0].vma) && Copied(Some(es[3].vma), kids[2].vma);
    CeilingIs(kids, 2);
  }

  // ----- exit

  /** What `delete_all_vma` comes to: it ends, it deletes one area for ever, or `rbtree_delete` is given a
      node with two children and links its successor to itself or with a wrong parent. */
  datatype Ending = Ends | Loops(id: nat) | Breaks(id: nat)

  /** `rbtree_delete` of a node with at most one child */
  function Deleted(t: Tree, id: nat): Option<Tree> {
    match t
    case Leaf => Some(Leaf)
    case Branch(i, v, l, r) =>
      if i == id then
        if l.Leaf? then Some(r) else if r.Leaf? then Some(l) else None
      else if Deleted(l, id).None? || Deleted(r, id).None? then None
      else Some(Branch(i, v, Deleted(l, id).value, Deleted(r, id).value))
  }

  /** `delete_all_vma` with `vm_link_del`: `mm->mmap` moves on only if `find_vma_prev` finds nothing; else it is
      still the area that has just been freed. */
  function DeleteAll(t: Tree, chain: seq<nat>): Ending
    decreases |chain|
  {
    if chain == [] || AreaOf(t, chain[0]).None? then Ends
    else if Prev(t, AreaOf(t, chain[0]).value.start, None).Some? then Loops(chain[0])
    else if Deleted(t, chain[0]).None? then Breaks(chain[0])
    else DeleteAll(Deleted(t, chain[0]).value, chain[1..])
  }

  lemma DeleteNext(t: Tree, id: nat, u: Tree, rest: seq<nat>)
    requires AreaOf(t, id).Some? && Prev(t, AreaOf(t, id).value.start, None).None? && Deleted(t, id) == Some(u)
    ensures DeleteAll(t, [id] + rest) == DeleteAll(u, rest)
  {
    assert ([id] + rest)[1..] == rest;
  }

  function One(e: Entry, l: Tree, r: Tree): Tree {
    Branch(e.id, e.vma, l, r)
  }

  /** Text, data, heap and stack, in this order in memory, with the heap right behind the data */
  ghost predicate Placed(text: Entry, data: Entry, stack: Entry, heap: Entry) {
    && Proper([text, data, stack, heap])
    && text.vma.end <= data.vma.start && data.vma.end == heap.vma.start && heap.vma.end <= stack.vma.start
  }

  lemma PlacedFacts(text: Entry, data: Entry, stack: Entry, heap: Entry)
    requires Placed(text, data, stack, heap)
    ensures text.vma.start < text.vma.end <= data.vma.start < data.vma.end == heap.vma.start < heap.vma.end
    ensures heap.vma.end <= stack.vma.start < stack.vma.end
    ensures text.id != data.id && text.id != stack.id && text.id != heap.id
    ensures data.id != stack.id && data.id != heap.id && stack.id != heap.id
  {
    var es := [text, data, stack, heap];
    assert es[0] == text && es[1] == data && es[2] == stack && es[3] == heap;
  }

  lemma TreeMore(es: seq<Entry>, e: Entry)
    ensures TreeOf(es + [e]) == Insert(TreeOf(es), e.id, e.vma)
  {
    assert (es + [e])[..|es|] == es;
  }

  lemma InsertRight(u: Entry, l: Tree, r: Tree, e: Entry)
    requires u.vma.end <= e.vma.end
    ensures Insert(One(u, l, r), e.id, e.vma) == One(u, l, Insert(r, e.id, e.vma))
  {
  }

  lemma LoadedTree(text: Entry, data: Entry, stack: Entry, heap: Entry)
    requires Placed(text, data, stack, heap)
    ensures TreeOf([text, data, stack, heap]) ==
            One(text, Leaf, One(data, Leaf, One(stack, One(heap, Leaf, Leaf), Leaf)))
  {
    PlacedFacts(text, data, stack, heap);
    TreeMore([], text);
    TreeMore([text], data);
    TreeMore([text, data], stack);
    TreeMore([text, data, stack], heap);
    assert [] + [text] == [text] && [text] + [data] == [text, data] && [text, data] + [stack] == [text, data, stack];
    assert [text, data, stack] + [heap] == [text, data, stack, heap];
    InsertRight(text, Leaf, One(data, Leaf, Leaf), stack);
    InsertRight(text, Leaf, One(data, Leaf, One(stack, Leaf, Leaf)), heap);
    InsertRight(data, Leaf, One(stack, Leaf, Leaf), heap);
  }

  lemma TwoAreas(s: Entry, h: Entry)
    ensures forall a :: a in Areas(One(s, One(h, Leaf, Leaf), Leaf)) ==> a == s.vma || a == h.vma
  {
    assert Areas(One(h, Leaf, Leaf)) == {h.vma};
  }

  // Deletions of a head of the chain at which `find_vma_prev` finds nothing

  lemma DropRoot(e: Entry, r: Tree, rest: seq<nat>)
    requires e.vma.start <= e.vma.end && forall a :: a in Areas(r) ==> a.end >= e.vma.start
    ensures DeleteAll(One(e, Leaf, r), [e.id] + rest) == DeleteAll(r, rest)
  {
    NoPrev(r, e.vma.start, None);
    DeleteNext(One(e, Leaf, r), e.id, r, rest);
  }

  lemma DropBehind(e: Entry, d: Entry, r: Tree, rest: seq<nat>)
    requires e.id != d.id && e.vma.end >= d.vma.start && d.vma.start <= d.vma.end
    requires forall a :: a in Areas(r) ==> a.end >= d.vma.start
    ensures DeleteAll(One(e, Leaf, One(d, Leaf, r)), [d.id] + rest) == DeleteAll(One(e, Leaf, r), rest)
  {
    var t := One(d, Leaf, r);
    NoPrev(r, d.vma.start, None);
    assert AreaOf(t, d.id) == Some(d.vma) && Deleted(t, d.id) == Some(r) && Prev(t, d.vma.start, None) == None;
    DeleteNext(One(e, Leaf, t), d.id, One(e, Leaf, r), rest);
  }

  lemma DropBelow(s: Entry, h: Entry, rest: seq<nat>)
    requires s.id != h.id && h.vma.start <= s.vma.end
    ensures DeleteAll(One(s, One(h, Leaf, Leaf), Leaf), [h.id] + rest) == DeleteAll(One(s, Leaf, Leaf), rest)
  {
    var t := One(h, Leaf, Leaf);
    assert AreaOf(t, h.id) == Some(h.vma) && Deleted(t, h.id) == Some(Leaf);
    DeleteNext(One(s, t, Leaf), h.id, One(s, Leaf, Leaf), rest);
  }

  lemma DropFurther(d: Entry, s: Entry, h: Entry, rest: seq<nat>)
    requires d.id != h.id && s.id != h.id && h.vma.start <= d.vma.end && h.vma.start <= s.vma.end
    ensures DeleteAll(One(d, Leaf, One(s, One(h, Leaf, Leaf), Leaf)), [h.id] + rest) ==
            DeleteAll(One(d, Leaf, One(s, Leaf, Leaf)), rest)
  {
    var t := One(h, Leaf, Leaf);
    var u := One(s, t, Leaf);
    assert AreaOf(t, h.id) == Some(h.vma) && Deleted(t, h.id) == Some(Leaf);
    assert AreaOf(u, h.id) == Some(h.vma) && Deleted(u, h.id) == Some(One(s, Leaf, Leaf));
    assert Prev(u, h.vma.start, None) == None;
    DeleteNext(One(d, Leaf, u), h.id, One(d, Leaf, One(s, Leaf, Leaf)), rest);
  }

  lemma AdjacentEnds(text: Entry, data: Entry, stack: Entry, heap: Entry)
    requires Placed(text, data, stack, heap) && text.vma.end == data.vma.start
    ensures DeleteAll(TreeOf([text, data, stack, heap]), ChainOf([text, data, stack, heap])) == Ends
  {
    PlacedFacts(text, data, stack, heap);
    LoadedTree(text, data, stack, heap);
    ChainOfFour([text, data, stack, heap]);
    var s := One(stack, One(heap, Leaf, Leaf), Leaf);
    TwoAreas(stack, heap);
    DropBehind(text, data, s, [text.id] + ([heap.id] + ([stack.id] + [])));
    DropRoot(text, s, [heap.id] + ([stack.id] + []));
    DropBelow(stack, heap, [stack.id] + []);
    DropRoot(stack, Leaf, []);
    assert [data.id] + ([text.id] + ([heap.id] + ([stack.id] + []))) == [data.id, text.id, heap.id, stack.id];
  }

  lemma ThreadFirst(a: nat, rest: seq<nat>, id: nat)
    ensures Threaded([a] + rest, Some(a), id) == [a, id] + rest
  {
    assert ([a] + rest)[1..] == rest;
  }

  lemma ChainMore(es: seq<Entry>, e: Entry, rest: seq<nat>)
    requires es != [] && Proper(es) && es[0].vma.end < e.vma.start && ChainOf(es) == [es[0].id] + rest
    ensures ChainOf(es + [e]) == [es[0].id, e.id] + rest
  {
    assert (es + [e])[..|es|] == es;
    PrevOf(es, e.vma.start);
    ThreadFirst(es[0].id, rest, e.id);
  }

  lemma GapChain(text: Entry, data: Entry, stack: Entry, heap: Entry)
    requires Placed(text, data, stack, heap) && text.vma.end < data.vma.start
    ensures ChainOf([text, data, stack, heap]) == [text.id, heap.id, stack.id, data.id]
  {
    PlacedFacts(text, data, stack, heap);
    assert ChainOf([text]) == [text.id] + [] by { assert [text][..0] == []; }
    ChainMore([text], data, []);
    assert [text] + [data] == [text, data] && [text.id, data.id] + [] == [text.id] + [data.id];
    ChainMore([text, data], stack, [data.id]);
    assert [text, data] + [stack] == [text, data, stack];
    assert [text.id, stack.id] + [data.id] == [text.id] + [stack.id, data.id];
    ChainMore([text, data, stack], heap, [stack.id, data.id]);
    assert [text, data, stack] + [heap] == [text, data, stack, heap];
  }

  lemma GapLoops(text: Entry, data: Entry, stack: Entry, heap: Entry)
    requires Placed(text, data, stack, heap) && text.vma.end < data.vma.start
    ensures DeleteAll(TreeOf([text, data, stack, heap]), ChainOf([text, data, stack, heap])) == Loops(stack.id)
  {
    PlacedFacts(text, data, stack, heap);
    LoadedTree(text, data, stack, heap);
    GapChain(text, data, stack, heap);
    var s := One(stack, One(heap, Leaf, Leaf), Leaf);
    TwoAreas(stack, heap);
    var rest := [stack.id] + [data.id];
    DropRoot(text, One(data, Leaf, s), [heap.id] + rest);
    DropFurther(data, stack, heap, rest);
    var t := One(stack, Leaf, Leaf);
    assert AreaOf(t, stack.id) == Some(stack.vma) && rest[0] == stack.id;
    assert AreaOf(One(data, Leaf, t), stack.id) == Some(stack.vma);
    assert Prev(One(data, Leaf, t), stack.vma.start, None) == Some(data.id);
    assert DeleteAll(One(data, Leaf, t), rest) == Loops(stack.id);
    assert [text.id] + ([heap.id] + rest) == [text.id, heap.id, stack.id, data.id];
  }

  /** Exit of a program of two segments ends if and only if the second begins on the page where the first
      ends; with a gap between them the stack's area is deleted for ever. */
  lemma ExitEndsIff(text: Entry, data: Entry, stack: Entry, heap: Entry)
    requires Placed(text, data, stack, heap)
    ensures DeleteAll(TreeOf([text, data, stack, heap]), ChainOf([text, data, stack, heap])) == Ends <==>
            text.vma.end == data.vma.start
  {
    if text.vma.end == data.vma.start {
      AdjacentEnds(text, data, stack, heap);
    } else {
      GapLoops(text, data, stack, heap);
    }
  }
}
