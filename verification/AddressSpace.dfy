/** The memory areas of one address space: the linked search tree of `struct mm_struct`,
    `find_vma`, `get_unmapped_vma`, `vm_link` and `create_vma` (kernel/mm/mm.c).
    Addresses are 32-bit and sums wrap. */
module AddressSpace {
  import opened Wrappers
  import opened VmaTree
  import SlabLayout

  const PAGE_SIZE: nat := 4096
  const KERNEL_BASE: nat := 0xC000_0000
  const WORD32: nat := 0x1_0000_0000

  /** `struct vm_area_struct`, with its links in the tree and `vm_next` */
  datatype Node = Node(vma: Vma, left: Option<nat>, right: Option<nat>, next: Option<nat>)

  /** A node that `kmalloc` returned: nothing has written its child links, which hold whatever the
      memory held before. */
  datatype Raw = Raw(id: nat, left: Option<nat>, right: Option<nat>)

  predicate Blank(node: Raw) {
    node.left.None? && node.right.None?
  }

  /** Where a new node goes: at the root, or on one side of a node. */
  datatype Place = Root | Left(id: nat) | Right(id: nat)

  function Down(a: nat): nat {
    SlabLayout.RoundDown(a, PAGE_SIZE)
  }

  function Up(n: nat): nat {
    SlabLayout.RoundUp(n, PAGE_SIZE)
  }

  /** The low 32 bits. */
  function Wrap(x: nat): nat {
    x % WORD32
  }

  /** The area that `create_vma` installs. */
  function Rounded(addr: nat, len: nat): Vma {
    Vma(Down(addr), Wrap(Down(addr) + Up(len)))
  }

  function Ids(t: Tree): set<nat> {
    match t
    case Leaf => {}
    case Branch(id, _, l, r) => {id} + Ids(l) + Ids(r)
  }

  ghost predicate Distinct(t: Tree) {
    match t
    case Leaf => true
    case Branch(id, _, l, r) => Distinct(l) && Distinct(r) && id !in Ids(l) + Ids(r) && Ids(l) !! Ids(r)
  }

  /** The nodes reachable from `link` spell out `t`. */
  ghost predicate Shape(nodes: map<nat, Node>, link: Option<nat>, t: Tree)
    decreases t
  {
    match t
    case Leaf => link.None?
    case Branch(id, v, l, r) =>
      && link == Some(id) && id in nodes && nodes[id].vma == v
      && Shape(nodes, nodes[id].left, l) && Shape(nodes, nodes[id].right, r)
  }

  predicate SameBranch(a: Node, b: Node) {
    a.vma == b.vma && a.left == b.left && a.right == b.right
  }

  lemma {:induction false} ShapeFrame(n: map<nat, Node>, m: map<nat, Node>, link: Option<nat>, t: Tree)
    requires Shape(n, link, t) && forall i :: i in Ids(t) && i in n ==> i in m && SameBranch(m[i], n[i])
    ensures Shape(m, link, t)
    decreases t
  {
    match t
    case Leaf =>
    case Branch(id, v, l, r) =>
      ShapeFrame(n, m, n[id].left, l);
      ShapeFrame(n, m, n[id].right, r);
  }

  /** The descent of `vm_link`. */
  function Slot(t: Tree, end: nat, at: Place): Place {
    match t
    case Leaf => at
    case Branch(id, u, l, r) => if u.end > end then Slot(l, end, Left(id)) else Slot(r, end, Right(id))
  }

  /** `rb_link_node`: one link is written. */
  function Hang(nodes: map<nat, Node>, at: Place, id: nat): map<nat, Node> {
    match at
    case Root => nodes
    case Left(p) => if p in nodes then nodes[p := nodes[p].(left := Some(id))] else nodes
    case Right(p) => if p in nodes then nodes[p := nodes[p].(right := Some(id))] else nodes
  }

  lemma {:induction false} SlotInside(t: Tree, end: nat, at: Place)
    ensures t.Leaf? ==> Slot(t, end, at) == at
    ensures t.Branch? ==> !Slot(t, end, at).Root? && Slot(t, end, at).id in Ids(t)
  {
    match t
    case Leaf =>
    case Branch(id, u, l, r) =>
      if u.end > end { SlotInside(l, end, Left(id)); } else { SlotInside(r, end, Right(id)); }
  }

  lemma {:induction false} InsertIds(t: Tree, id: nat, v: Vma)
    requires Distinct(t) && id !in Ids(t)
    ensures Distinct(Insert(t, id, v)) && Ids(Insert(t, id, v)) == Ids(t) + {id}
  {
    match t
    case Leaf =>
    case Branch(i, u, l, r) =>
      if u.end > v.end { InsertIds(l, id, v); } else { InsertIds(r, id, v); }
  }

  /** Writing the one link that the descent found turns the tree into its insertion. */
  lemma {:induction false} HangShape(nodes: map<nat, Node>, link: Option<nat>, t: Tree, id: nat, v: Vma, at: Place)
    requires t.Branch? && Shape(nodes, link, t) && Distinct(t) && id !in Ids(t) && id in nodes
    requires nodes[id].vma == v && nodes[id].left.None? && nodes[id].right.None?
    ensures Shape(Hang(nodes, Slot(t, v.end, at), id), link, Insert(t, id, v))
    decreases t
  {
    match t
    case Branch(i, u, l, r) =>
      var m := Hang(nodes, Slot(t, v.end, at), id);
      if u.end > v.end {
        SlotInside(l, v.end, Left(i));
        ShapeFrame(nodes, m, nodes[i].right, r);
        if l.Branch? { HangShape(nodes, nodes[i].left, l, id, v, Left(i)); }
      } else {
        SlotInside(r, v.end, Right(i));
        ShapeFrame(nodes, m, nodes[i].left, l);
        if r.Branch? { HangShape(nodes, nodes[i].right, r, id, v, Right(i)); }
      }
  }

  lemma {:induction false} InsertedIsLeaf(m: map<nat, Node>, link: Option<nat>, t: Tree, id: nat, v: Vma)
    requires Shape(m, link, Insert(t, id, v))
    ensures id in m && m[id].left.None? && m[id].right.None?
    decreases t
  {
    match t
    case Leaf =>
    case Branch(i, u, l, r) =>
      if u.end > v.end { InsertedIsLeaf(m, m[i].left, l, id, v); } else { InsertedIsLeaf(m, m[i].right, r, id, v); }
  }

  /** The child links are bytes 12 to 20 of a node, and a node is a slot of the 32-byte cache. `kmalloc` and
      `kfree` write the link word of a slot, which lies behind them, so a node has there what the last user of
      its slot left, of whatever kind that object was; only in a new slab is that zero. */
  lemma ChildLinksSurvive(o: nat)
    ensures SlabLayout.SmallestFit(32, 2)
    ensures SlabLayout.Bytes(o + 12, 8) <= SlabLayout.Payload(2, o)
    ensures SlabLayout.Bytes(o + 12, 8) !! SlabLayout.LinkWord(2, o)
  {
    SlabLayout.Geometry(2);
  }

  /** After `rb_link_node` the links spell out the tree with the new area if and only if both child
      links of the new node happened to be null. */
  lemma LinkShapeIff(nodes: map<nat, Node>, root: Option<nat>, t: Tree, node: Raw, v: Vma)
    requires Shape(nodes, root, t) && Distinct(t) && node.id !in Ids(t) && node.id in nodes
    requires var n := nodes[node.id]; n.vma == v && n.left == node.left && n.right == node.right
    ensures var at := Slot(t, v.end, Root);
            Shape(Hang(nodes, at, node.id), if at.Root? then Some(node.id) else root, Insert(t, node.id, v)) <==>
            Blank(node)
  {
    var at := Slot(t, v.end, Root);
    var link := if at.Root? then Some(node.id) else root;
    SlotInside(t, v.end, Root);
    var m := Hang(nodes, at, node.id);
    assert m[node.id] == nodes[node.id];
    if Shape(m, link, Insert(t, node.id, v)) {
      InsertedIsLeaf(m, link, t, node.id, v);
    }
    if Blank(node) && t.Branch? { HangShape(nodes, root, t, node.id, v, Root); }
  }

  // ----- the chain of areas

  /** From `link` on, `vm_next` leads through `chain` to NULL. */
  ghost predicate Strung(nodes: map<nat, Node>, link: Option<nat>, chain: seq<nat>)
    decreases |chain|
  {
    if chain == [] then link.None?
    else link == Some(chain[0]) && chain[0] in nodes && Strung(nodes, nodes[chain[0]].next, chain[1..])
  }

  lemma {:induction false} StrungFrame(n: map<nat, Node>, m: map<nat, Node>, link: Option<nat>, chain: seq<nat>)
    requires Strung(n, link, chain) && forall i :: i in chain && i in n ==> i in m && m[i].next == n[i].next
    ensures Strung(m, link, chain)
    decreases |chain|
  {
    if chain != [] { StrungFrame(n, m, n[chain[0]].next, chain[1..]); }
  }

  lemma {:induction false} StrungNext(nodes: map<nat, Node>, link: Option<nat>, chain: seq<nat>, id: nat)
    requires Strung(nodes, link, chain) && NoDuplicates(chain) && id in chain
    ensures id in nodes && nodes[id].next == After(chain, id)
    ensures nodes[id].next.Some? ==> nodes[id].next.value in chain
    decreases |chain|
  {
    if chain[0] != id {
      StrungNext(nodes, nodes[chain[0]].next, chain[1..], id);
    } else if |chain| > 1 {
      assert chain[1] == chain[1..][0];
    }
  }

  lemma {:induction false} ThreadedFacts(chain: seq<nat>, prev: Option<nat>, id: nat)
    requires NoDuplicates(chain) && id !in chain
    ensures NoDuplicates(Threaded(chain, prev, id))
    ensures forall i :: i in Threaded(chain, prev, id) <==> i in chain || i == id
    decreases |chain|
  {
    if chain != [] && prev.Some? && chain[0] != prev.value {
      ThreadedFacts(chain[1..], prev, id);
      var rest := Threaded(chain[1..], prev, id);
      assert forall i :: i in chain <==> i == chain[0] || i in chain[1..];
      assert chain[0] !in chain[1..] && forall j :: 0 <= j < |rest| ==> rest[j] in rest;
    } else if chain != [] && prev.Some? {
      assert forall i :: i in chain <==> i == chain[0] || i in chain[1..];
    }
  }

  /** Two links written behind `prev` */
  lemma {:induction false} StrungBehind(n: map<nat, Node>, m: map<nat, Node>, link: Option<nat>, chain: seq<nat>,
                                        prev: nat, id: nat)
    requires Strung(n, link, chain) && NoDuplicates(chain) && prev in chain && id !in chain && id in m && prev in n
    requires prev in m && m[prev].next == Some(id) && m[id].next == n[prev].next
    requires forall i :: i in chain && i != prev && i in n ==> i in m && m[i].next == n[i].next
    ensures Strung(m, link, Threaded(chain, Some(prev), id))
    decreases |chain|
  {
    var rest := chain[1..];
    assert chain[0] !in rest;
    if chain[0] == prev {
      StrungFrame(n, m, n[prev].next, rest);
      var all := [prev, id] + rest;
      assert all[1..] == [id] + rest && ([id] + rest)[1..] == rest;
    } else {
      StrungBehind(n, m, n[chain[0]].next, rest, prev, id);
      var all := [chain[0]] + Threaded(rest, Some(prev), id);
      assert all[1..] == Threaded(rest, Some(prev), id);
    }
  }

  lemma {:induction false} ShapeArea(nodes: map<nat, Node>, link: Option<nat>, t: Tree, id: nat)
    requires Shape(nodes, link, t)
    ensures AreaOf(t, id).Some? <==> id in Ids(t)
    ensures id in Ids(t) ==> id in nodes && AreaOf(t, id) == Some(nodes[id].vma)
    decreases t
  {
    match t
    case Leaf =>
    case Branch(i, _, l, r) =>
      ShapeArea(nodes, nodes[i].left, l, id);
      ShapeArea(nodes, nodes[i].right, r, id);
  }

  lemma {:induction false} PrevInTree(t: Tree, addr: nat, b: Option<nat>)
    ensures Prev(t, addr, b) == b || (Prev(t, addr, b).Some? && Prev(t, addr, b).value in Ids(t))
  {
    match t
    case Leaf =>
    case Branch(id, v, l, r) => if v.end < addr { PrevInTree(l, addr, Some(id)); } else { PrevInTree(r, addr, b); }
  }

  /** Every area starts on a page boundary. */
  ghost predicate Paged(s: set<Vma>) {
    forall a :: a in s ==> a.start % PAGE_SIZE == 0
  }

  /** `a` ends between the rounded and the requested start. */
  ghost predicate Straddles(a: Vma, addr: nat, len: nat) {
    Down(addr) < a.end <= addr && (len > 0 || a.start < Down(addr))
  }

  /** The request is granted: it is not in page 0, stays below the kernel (modulo 2^32) and no
      area that ends above its start begins before its end. */
  ghost predicate Fits(s: set<Vma>, addr: nat, len: nat) {
    && Down(addr) != 0 && len <= KERNEL_BASE && Wrap(addr + len) <= KERNEL_BASE
    && forall a :: a in s && a.end > addr ==> Wrap(addr + len) <= a.start
  }

  /** The same test as `get_unmapped_vma` makes it, on the one area that the search returns */
  predicate Granted(t: Tree, addr: nat, len: nat) {
    && len <= KERNEL_BASE && Wrap(addr + len) <= KERNEL_BASE
    && var a := Find(t, addr, None); a.None? || Wrap(addr + len) <= a.value.start
  }

  /** One area decides for all, in a tree without a hidden one. */
  lemma GrantedIffFits(t: Tree, addr: nat, len: nat)
    requires Good(t) && NoneHidden(t)
    ensures Fits(Areas(t), addr, len) <==> Down(addr) != 0 && Granted(t, addr, len)
  {
    FindLowest(t, addr);
    LowestDecides(Areas(t), addr, Wrap(addr + len), Find(t, addr, None));
  }

  lemma DownFacts(a: nat)
    ensures Down(a) % PAGE_SIZE == 0 && Down(a) <= a < Down(a) + PAGE_SIZE
  {
  }

  lemma NoWrap(addr: nat, len: nat)
    requires addr + len <= KERNEL_BASE
    ensures Down(addr) + Up(len) <= KERNEL_BASE
  {
  }

  lemma Wraps(addr: nat, len: nat)
    requires addr < WORD32 && len <= KERNEL_BASE && addr + len >= WORD32
    ensures WORD32 <= Down(addr) + Up(len) < Down(addr) + WORD32
  {
  }

  lemma WrapFacts(x: nat)
    ensures x < WORD32 ==> Wrap(x) == x
    ensures WORD32 <= x < 2 * WORD32 ==> Wrap(x) == x - WORD32
  {
  }

  lemma WrapsIff(addr: nat, len: nat)
    requires addr < WORD32 && len <= KERNEL_BASE && Wrap(addr + len) <= KERNEL_BASE
    ensures var v := Rounded(addr, len);
            && v.start == Down(addr)
            && (addr + len < WORD32 ==> v.end == v.start + Up(len) && Wrap(addr + len) == addr + len)
            && (v.start <= v.end <==> addr + len < WORD32)
  {
    WrapFacts(addr + len);
    WrapFacts(Down(addr) + Up(len));
    DownFacts(addr);
    if addr + len < WORD32 {
      NoWrap(addr, len);
    } else {
      Wraps(addr, len);
    }
  }

  /** Rounding the granted request to pages makes no area overlap another exactly when the
      request does not wrap around and no area straddles its rounded start. */
  lemma GrantIsApartIff(s: set<Vma>, addr: nat, len: nat)
    requires Separate(s) && Paged(s) && addr < WORD32 && Fits(s, addr, len)
    ensures var v := Rounded(addr, len);
            (v.start <= v.end && forall a :: a in s ==> Apart(a, v)) <==>
            addr + len < WORD32 && forall a :: a in s ==> !Straddles(a, addr, len)
  {
    WrapsIff(addr, len);
    if addr + len < WORD32 {
      EachApartIff(s, addr, len);
    }
  }

  lemma EachApartIff(s: set<Vma>, addr: nat, len: nat)
    requires Separate(s) && Paged(s) && forall a :: a in s && a.end > addr ==> addr + len <= a.start
    ensures (forall a :: a in s ==> Apart(a, Vma(Down(addr), Down(addr) + Up(len)))) <==>
            (forall a :: a in s ==> !Straddles(a, addr, len))
  {
  }

  /** Changing the end of the area that contains `addr` in place */
  lemma {:induction false} GrowShape(nodes: map<nat, Node>, link: Option<nat>, t: Tree, addr: nat, end: nat, id: nat)
    requires Shape(nodes, link, t) && Distinct(t) && Hit(t, addr) == Some(id) && id in nodes
    ensures var m := nodes[id := nodes[id].(vma := Vma(nodes[id].vma.start, end))];
            Shape(m, link, Grow(t, addr, end)) && id in Ids(t)
    ensures Distinct(Grow(t, addr, end)) && Ids(Grow(t, addr, end)) == Ids(t)
    decreases t
  {
    var m := nodes[id := nodes[id].(vma := Vma(nodes[id].vma.start, end))];
    match t
    case Branch(i, v, l, r) =>
      if v.end <= addr {
        GrowShape(nodes, nodes[i].right, r, addr, end, id);
        ShapeFrame(nodes, m, nodes[i].left, l);
      } else if v.start > addr {
        GrowShape(nodes, nodes[i].left, l, addr, end, id);
        ShapeFrame(nodes, m, nodes[i].right, r);
      } else {
        ShapeFrame(nodes, m, nodes[i].left, l);
        ShapeFrame(nodes, m, nodes[i].right, r);
      }
  }

  /** An area that ends at `end` stays below the next one, if there is one. */
  predicate Clears(next: Option<nat>, end: nat) {
    next.None? || end <= next.value
  }

  lemma {:induction false} HitInTree(t: Tree, addr: nat)
    ensures Hit(t, addr).Some? ==> Hit(t, addr).value in Ids(t)
  {
    match t
    case Leaf =>
    case Branch(_, v, l, r) => if v.end > addr { HitInTree(l, addr); } else { HitInTree(r, addr); }
  }

  lemma {:induction false} NoAreaOutside(t: Tree, id: nat)
    ensures AreaOf(t, id).Some? <==> id in Ids(t)
  {
    match t
    case Leaf =>
    case Branch(_, _, l, r) =>
      NoAreaOutside(l, id);
      NoAreaOutside(r, id);
  }

  /** The area that contains `addr` is that of the node that the search meets. */
  lemma {:induction false} HitArea(t: Tree, addr: nat, b: Option<Vma>)
    requires Distinct(t) && (b.Some? ==> b.value.start > addr)
    ensures var r := Find(t, addr, b); r.Some? && r.value.start <= addr ==>
              Hit(t, addr).Some? && AreaOf(t, Hit(t, addr).value) == r
  {
    match t
    case Leaf =>
    case Branch(_, v, l, r) =>
      if v.end <= addr {
        HitArea(r, addr, b);
        HitInTree(r, addr);
        if Hit(r, addr).Some? { NoAreaOutside(l, Hit(r, addr).value); }
      } else if v.start > addr {
        HitArea(l, addr, Some(v));
        HitInTree(l, addr);
      }
  }

  /** The search for `start` finds an area that starts there. */
  predicate Starts(t: Tree, start: nat) {
    var a := Find(t, start, None);
    a.Some? && a.value.start == start
  }

  class Mm {
    var nodes: map<nat, Node>
    var root: Option<nat>
    var mmap: Option<nat>
    ghost var tree: Tree
    ghost var chain: seq<nat>

    ghost predicate Valid()
      reads this
    {
      && Shape(nodes, root, tree) && Distinct(tree) && Ids(tree) <= nodes.Keys
      && Strung(nodes, mmap, chain) && NoDuplicates(chain) && forall i :: i in chain <==> i in Ids(tree)
    }

    /** `RBTREE_ROOT_INIT` */
    constructor ()
      ensures Valid() && tree == Leaf && nodes == map[] && chain == []
    {
      nodes, root, mmap, tree, chain := map[], None, None, Leaf, [];
    }

    /** `find_vma` */
    method FindVma(addr: nat) returns (vma: Option<Vma>, id: nat)
      requires Valid()
      ensures vma == Find(tree, addr, None)
      ensures vma.Some? ==> id in nodes && nodes[id].vma == vma.value
      ensures Hit(tree, addr) == if vma.Some? && vma.value.start <= addr then Some(id) else None
      ensures Good(tree) && NoneHidden(tree) ==> Lowest(Areas(tree), addr, vma)
    {
      vma, id := None, 0;
      var link := root;
      ghost var t := tree;
      while link.Some?
        invariant Shape(nodes, link, t) && Find(t, addr, vma) == Find(tree, addr, None)
        invariant Hit(t, addr) == Hit(tree, addr)
        invariant vma.Some? ==> vma.value.start > addr && id in nodes && nodes[id].vma == vma.value
        decreases t
      {
        var tmp := nodes[link.value].vma;
        if tmp.end > addr {
          vma, id := Some(tmp), link.value;
          if tmp.start <= addr {
            break;
          }
          link, t := nodes[link.value].left, t.left;
        } else {
          link, t := nodes[link.value].right, t.right;
        }
      }
      if Good(tree) && NoneHidden(tree) { FindLowest(tree, addr); }
    }

    /** `get_unmapped_vma` for the addresses that reach it from `create_vma`, which are not 0 */
    method GetUnmapped(addr: nat, len: nat) returns (r: nat)
      requires Valid() && 0 < addr < WORD32 && len < WORD32
      ensures r == if Granted(tree, addr, len) then addr else 0
    {
      if len > KERNEL_BASE {
        return 0;
      }
      var vma, _ := FindVma(addr);
      if KERNEL_BASE >= Wrap(addr + len) && (vma.None? || Wrap(addr + len) <= vma.value.start) {
        return addr;
      }
      return 0;
    }

    /** `find_vma_prev` */
    method FindVmaPrev(addr: nat) returns (p: Option<nat>)
      requires Valid()
      ensures p == Prev(tree, addr, None)
      ensures p.Some? ==> p.value in Ids(tree)
    {
      p := None;
      var link := root;
      ghost var t := tree;
      while link.Some?
        invariant Shape(nodes, link, t) && Prev(t, addr, p) == Prev(tree, addr, None)
        decreases t
      {
        var tmp := nodes[link.value].vma;
        if tmp.end < addr {
          p := link;
          if tmp.start <= addr {
            break;
          }
          link, t := nodes[link.value].left, t.left;
        } else {
          link, t := nodes[link.value].right, t.right;
        }
      }
      PrevInTree(tree, addr, None);
    }

    /** The part of `vm_link` that puts the new area into the chain */
    method Thread(node: Raw, v: Vma)
      requires Valid() && node.id !in nodes
      modifies this
      ensures tree == old(tree) && root == old(root) && nodes.Keys == old(nodes.Keys) + {node.id}
      ensures Shape(nodes, root, tree)
      ensures var n := nodes[node.id]; n.vma == v && n.left == node.left && n.right == node.right
      ensures chain == Threaded(old(chain), Prev(tree, v.start, None), node.id) && Strung(nodes, mmap, chain)
    {
      var p := FindVmaPrev(v.start);
      ghost var before := nodes;
      assert node.id !in chain;
      if p.None? {
        nodes, mmap := nodes[node.id := Node(v, node.left, node.right, mmap)], Some(node.id);
        StrungFrame(before, nodes, nodes[node.id].next, chain);
        assert ([node.id] + chain)[1..] == chain;
      } else {
        nodes := nodes[node.id := Node(v, node.left, node.right, nodes[p.value].next)];
        nodes := nodes[p.value := nodes[p.value].(next := Some(node.id))];
        StrungBehind(before, nodes, mmap, chain, p.value, node.id);
      }
      ShapeFrame(before, nodes, root, tree);
      chain := Threaded(chain, p, node.id);
    }

    /** The descent of `vm_link`, and `rb_link_node` */
    method Hook(node: Raw, v: Vma)
      requires Shape(nodes, root, tree) && Distinct(tree) && node.id !in Ids(tree) && Ids(tree) <= nodes.Keys
      requires node.id in nodes
      requires var n := nodes[node.id]; n.vma == v && n.left == node.left && n.right == node.right
      modifies `nodes, `root, `tree
      ensures tree == Insert(old(tree), node.id, v) && nodes.Keys == old(nodes.Keys)
      ensures forall i :: i in nodes ==> nodes[i].next == old(nodes)[i].next
      ensures Distinct(tree) && Ids(tree) == old(Ids(tree)) + {node.id}
      ensures Shape(nodes, root, tree) <==> Blank(node)
    {
      var at := Root;
      var link := root;
      ghost var t := tree;
      while link.Some?
        invariant Shape(nodes, link, t) && Slot(t, v.end, at) == Slot(tree, v.end, Root)
        decreases t
      {
        var tmp := nodes[link.value].vma;
        if tmp.end > v.end {
          at, link, t := Left(link.value), nodes[link.value].left, t.left;
        } else {
          at, link, t := Right(link.value), nodes[link.value].right, t.right;
        }
      }
      LinkShapeIff(nodes, root, tree, node, v);
      InsertIds(tree, node.id, v);
      nodes := Hang(nodes, at, node.id);
      if at.Root? {
        root := Some(node.id);
      }
      tree := Insert(tree, node.id, v);
    }

    /** `vm_link` and `rb_link_node`; `tree` is the tree that is meant. */
    method VmLink(node: Raw, v: Vma)
      requires Valid() && node.id !in nodes
      modifies this
      ensures tree == Insert(old(tree), node.id, v)
      ensures chain == Threaded(old(chain), Prev(old(tree), v.start, None), node.id)
      ensures nodes.Keys == old(nodes.Keys) + {node.id}
      // the links spell out that tree if and only if
      ensures Valid() <==> Blank(node)
    {
      ThreadedFacts(chain, Prev(tree, v.start, None), node.id);
      Thread(node, v);
      ghost var before := nodes;
      Hook(node, v);
      StrungFrame(before, nodes, mmap, chain);
    }

    /** `vma->vm_end = end` */
    method SetEnd(id: nat, addr: nat, end: nat)
      requires Valid() && Hit(tree, addr) == Some(id) && id in nodes
      modifies `nodes, `tree
      ensures Valid() && tree == Grow(old(tree), addr, end) && nodes.Keys == old(nodes.Keys)
    {
      GrowShape(nodes, root, tree, addr, end, id);
      ghost var before := nodes;
      nodes := nodes[id := nodes[id].(vma := Vma(nodes[id].vma.start, end))];
      tree := Grow(tree, addr, end);
      StrungFrame(before, nodes, mmap, chain);
    }

    /** `vma->vm_next->vm_start`, if there is a next area */
    method NextStart(id: nat) returns (start: Option<nat>)
      requires Valid() && id in Ids(tree)
      ensures start == Ceiling(tree, chain, id)
    {
      StrungNext(nodes, mmap, chain, id);
      var next := nodes[id].next;
      if next.None? {
        return None;
      }
      ShapeArea(nodes, root, tree, next.value);
      return Some(nodes[next.value].vma.start);
    }

    /** The kernel's `brk`, with `start_brk` and `end_brk`: the new break and the result, or nothing when the
        area of `start_brk` is not found and the kernel panics */
    method Brk(start: nat, brk: nat, end: nat) returns (r: Option<(nat, nat)>)
      requires Valid()
      modifies `nodes, `tree
      ensures Valid() && nodes.Keys == old(nodes.Keys)
      ensures r.None? <==> end > brk && !Starts(old(tree), start)
      ensures r.None? <==> end > brk && forall v :: Find(old(tree), start, None) == Some(v) ==> v.start != start
      ensures end <= brk ==> r == Some((brk, brk))
      ensures r.Some? && brk < end <= start ==> r == Some((brk, start))
      ensures r.Some? && end > brk ==> Hit(old(tree), start).Some?
      ensures r.Some? && end > brk && end > start ==>
                var next := Ceiling(old(tree), chain, Hit(old(tree), start).value);
                r == Some(if next.None? || end <= next.value then (end, end) else (brk, 0))
      ensures tree == if r == Some((end, end)) && end > brk then Grow(old(tree), start, end) else old(tree)
    {
      if end <= brk {
        return Some((brk, brk));
      }
      var vma, id := FindVma(start);
      if vma.None? || vma.value.start != start {
        return None;
      }
      if end <= vma.value.start {
        // the lock stays taken
        return Some((brk, vma.value.start));
      }
      HitInTree(tree, start);
      var next := NextStart(id);
      if next.None? || next.value >= end {
        SetEnd(id, start, end);
        return Some((end, end));
      }
      return Some((brk, 0));
    }

    /** `create_vma`; `node` is what `kmalloc` returns for the node. */
    method CreateVma(addr: nat, len: nat, node: Option<Raw>) returns (r: Option<Vma>)
      requires Valid() && addr < WORD32 && len < WORD32
      requires node.Some? ==> node.value.id !in nodes
      modifies this
      ensures r.Some? <==> Down(addr) != 0 && Granted(old(tree), addr, len) && node.Some?
      ensures r.None? ==> tree == old(tree) && chain == old(chain)
      ensures r.Some? ==> r.value == Rounded(addr, len) && tree == Insert(old(tree), node.value.id, r.value)
      ensures r.Some? ==> chain == Threaded(old(chain), Prev(old(tree), r.value.start, None), node.value.id)
      ensures nodes.Keys == old(nodes.Keys) + if r.Some? then {node.value.id} else {}
      // the links spell out the areas if and only if
      ensures Valid() <==> (r.Some? ==> Blank(node.value))
    {
      if Down(addr) == 0 {
        return None;
      }
      var va := GetUnmapped(addr, len);
      if va == 0 || node.None? {
        return None;
      }
      var v := Rounded(va, len);
      VmLink(node.value, v);
      return Some(v);
    }
  }

  lemma LowestDecides(s: set<Vma>, addr: nat, end: nat, r: Option<Vma>)
    requires Separate(s) && Lowest(s, addr, r)
    ensures (r.None? || end <= r.value.start) <==> forall a :: a in s && a.end > addr ==> end <= a.start
  {
  }

  /** Areas of one page or more, ending on a page boundary, as `create_vma` makes them for
      every non-zero length: no request can then break the tree except by wrapping around. */
  ghost predicate Whole(s: set<Vma>) {
    forall a :: a in s ==> a.start < a.end && a.end % PAGE_SIZE == 0
  }

  lemma WholeIsSafe(s: set<Vma>, addr: nat, len: nat)
    requires Whole(s) && len > 0 && Fits(s, addr, len) && addr + len < WORD32
    ensures !Clash(s, Rounded(addr, len)) && forall a :: a in s ==> !Straddles(a, addr, len)
    ensures Whole(s + {Rounded(addr, len)})
  {
    WrapFacts(addr + len);
    WrapsIff(addr, len);
    RoundedOnPages(addr, len);
    UpFacts(len);
    forall a | a in s ensures !Straddles(a, addr, len) { NotStraddling(a, addr, len); }
  }

  lemma UpFacts(len: nat)
    ensures len <= Up(len)
  {
    DownFacts(len + PAGE_SIZE - 1);
  }

  lemma NotStraddling(a: Vma, addr: nat, len: nat)
    requires a.end % PAGE_SIZE == 0
    ensures !Straddles(a, addr, len)
  {
    DownFacts(addr);
  }

  /** What `create_vma` keeps, and exactly when */
  lemma CreateKeepsIff(t: Tree, id: nat, addr: nat, len: nat)
    requires Good(t) && NoneHidden(t) && Paged(Areas(t)) && addr < WORD32 && Down(addr) != 0 && Granted(t, addr, len)
    ensures var v := Rounded(addr, len);
            var u := Insert(t, id, v);
            && Areas(u) == Areas(t) + {v} && Paged(Areas(u))
            // the areas stay disjoint intervals
            && (Good(u) <==> addr + len < WORD32 && forall a :: a in Areas(t) ==> !Straddles(a, addr, len))
            // the fault handler's test stays right
            && (NoneHidden(u) <==> !Clash(Areas(t), v))
  {
    GrantedIffFits(t, addr, len);
    var v := Rounded(addr, len);
    InsertAreas(t, id, v);
    DownFacts(addr);
    GrantIsApartIff(Areas(t), addr, len);
    InsertHidesIff(t, id, v);
    if v.start <= v.end && forall a :: a in Areas(t) ==> Apart(a, v) {
      LinkGood(t, id, v);
    } else {
      OverlapIsBad(t, id, v);
    }
  }

  // ----- every sequence of calls

  /** A call of `create_vma`; `node` is the node that `kmalloc` returns for it, if any. */
  datatype Request = Request(addr: nat, len: nat, node: Option<nat>)

  predicate Made(t: Tree, q: Request) {
    Down(q.addr) != 0 && Granted(t, q.addr, q.len) && q.node.Some?
  }

  function Created(t: Tree, q: Request): Tree {
    if Made(t, q) then Insert(t, q.node.value, Rounded(q.addr, q.len)) else t
  }

  /** The tree that a sequence of calls builds */
  function Built(calls: seq<Request>): Tree {
    if calls == [] then Leaf else Created(Built(calls[..|calls| - 1]), calls[|calls| - 1])
  }

  /** The areas are disjoint intervals, and the search finds each of them. */
  ghost predicate Sound(t: Tree) {
    Good(t) && NoneHidden(t)
  }

  /** What a call must not do to tree `t`: wrap around, or end where an empty area lies */
  ghost predicate Harmless(t: Tree, q: Request) {
    Made(t, q) ==> q.addr + q.len < WORD32 && !Clash(Areas(t), Rounded(q.addr, q.len))
  }

  ghost predicate AllHarmless(calls: seq<Request>) {
    forall i {:trigger calls[i]} :: 0 <= i < |calls| ==> Harmless(Built(calls[..i]), calls[i])
  }

  /** Areas that start and end on page boundaries */
  ghost predicate OnPages(s: set<Vma>) {
    forall a :: a in s ==> a.start % PAGE_SIZE == 0 && a.end % PAGE_SIZE == 0
  }

  lemma RoundedOnPages(addr: nat, len: nat)
    ensures Rounded(addr, len).start % PAGE_SIZE == 0 && Rounded(addr, len).end % PAGE_SIZE == 0
  {
    DownFacts(addr);
    EndOnPage(addr, len);
  }

  lemma EndOnPage(addr: nat, len: nat)
    ensures Wrap(Down(addr) + Up(len)) % PAGE_SIZE == 0
  {
    var a, b := Down(addr), Up(len);
    assert a % PAGE_SIZE == 0 by { DownFacts(addr); }
    assert b % PAGE_SIZE == 0 by { DownFacts(len + PAGE_SIZE - 1); }
    WrapOnPages(a, b);
  }

  lemma WrapOnPages(a: nat, b: nat)
    requires a % PAGE_SIZE == 0 && b % PAGE_SIZE == 0
    ensures Wrap(a + b) % PAGE_SIZE == 0
  {
  }

  lemma NoneStraddles(s: set<Vma>, addr: nat, len: nat)
    requires OnPages(s)
    ensures Paged(s) && forall a :: a in s ==> !Straddles(a, addr, len)
  {
    forall a | a in s ensures !Straddles(a, addr, len) { NotStraddling(a, addr, len); }
  }

  lemma CreatedOnPages(t: Tree, q: Request)
    requires Sorted(t) && OnPages(Areas(t))
    ensures Sorted(Created(t, q)) && OnPages(Areas(Created(t, q)))
  {
    if Made(t, q) {
      RoundedOnPages(q.addr, q.len);
      InsertAreas(t, q.node.value, Rounded(q.addr, q.len));
      InsertSorted(t, q.node.value, Rounded(q.addr, q.len));
    }
  }

  /** One more call leaves a sound tree sound if and only if it is harmless; an unsound one stays so. */
  lemma CreatedSoundIff(t: Tree, q: Request)
    requires Sorted(t) && OnPages(Areas(t)) && q.addr < WORD32
    ensures Sound(Created(t, q)) <==> Sound(t) && Harmless(t, q)
  {
    if Made(t, q) {
      if Sound(t) {
        NoneStraddles(Areas(t), q.addr, q.len);
        CreateKeepsIff(t, q.node.value, q.addr, q.len);
      } else {
        UnsoundStays(t, q.node.value, Rounded(q.addr, q.len));
      }
    }
  }

  lemma {:induction false} BuiltOnPages(calls: seq<Request>)
    ensures Sorted(Built(calls)) && OnPages(Areas(Built(calls)))
  {
    if calls != [] {
      BuiltOnPages(calls[..|calls| - 1]);
      CreatedOnPages(Built(calls[..|calls| - 1]), calls[|calls| - 1]);
    }
  }

  lemma AllHarmlessMore(calls: seq<Request>)
    requires calls != []
    ensures var n := |calls| - 1;
            AllHarmless(calls) <==> AllHarmless(calls[..n]) && Harmless(Built(calls[..n]), calls[n])
  {
    var n := |calls| - 1;
    assert forall i :: 0 <= i <= n ==> calls[..n][..i] == calls[..i];
    assert forall i :: 0 <= i < n ==> calls[..n][i] == calls[i];
  }

  /** After any calls of `create_vma` the areas are disjoint and all found if and only if no call that was
      granted wrapped around or ended where an empty area lay. */
  lemma {:induction false} BuiltSoundIff(calls: seq<Request>)
    requires forall q :: q in calls ==> q.addr < WORD32
    ensures Sound(Built(calls)) <==> AllHarmless(calls)
  {
    if calls != [] {
      var n := |calls| - 1;
      BuiltSoundIff(calls[..n]);
      BuiltOnPages(calls[..n]);
      CreatedSoundIff(Built(calls[..n]), calls[n]);
      AllHarmlessMore(calls);
    }
  }

  /** Calls for at least one byte that stay below 4 GB */
  ghost predicate Ordinary(calls: seq<Request>) {
    forall q :: q in calls ==> q.len > 0 && q.addr + q.len < WORD32
  }

  lemma {:induction false} BuiltWhole(calls: seq<Request>)
    requires Ordinary(calls)
    ensures Sound(Built(calls)) && Whole(Areas(Built(calls)))
  {
    if calls != [] {
      var t, q := Built(calls[..|calls| - 1]), calls[|calls| - 1];
      BuiltWhole(calls[..|calls| - 1]);
      BuiltOnPages(calls[..|calls| - 1]);
      if Made(t, q) {
        GrantedIffFits(t, q.addr, q.len);
        WholeIsSafe(Areas(t), q.addr, q.len);
        InsertAreas(t, q.node.value, Rounded(q.addr, q.len));
      }
      CreatedSoundIff(t, q);
    }
  }

  /** However a tree was built by such calls, the search returns the lowest area that ends above the
      address, and the fault handler's test is right for every address. */
  lemma BuiltDecides(calls: seq<Request>)
    requires Ordinary(calls)
    ensures Decides(Built(calls))
    ensures forall addr :: Lowest(Areas(Built(calls)), addr, Find(Built(calls), addr, None))
  {
    BuiltWhole(calls);
    DecidesIffNoneHidden(Built(calls));
    forall addr ensures Lowest(Areas(Built(calls)), addr, Find(Built(calls), addr, None)) {
      FindLowest(Built(calls), addr);
    }
  }

  /** The nodes of the calls are different ones. */
  ghost predicate Different(calls: seq<Request>) {
    forall i, j :: 0 <= i < j < |calls| && calls[i].node.Some? ==> calls[i].node != calls[j].node
  }

  lemma BuiltMore(calls: seq<Request>, i: nat)
    requires i < |calls|
    ensures Built(calls[..i + 1]) == Created(Built(calls[..i]), calls[i])
  {
    assert calls[..i + 1][..i] == calls[..i] && calls[..i + 1][i] == calls[i];
  }

  method CreateOne(m: Mm, q: Request)
    requires m.Valid() && q.addr < WORD32 && q.len < WORD32 && (q.node.Some? ==> q.node.value !in m.nodes)
    modifies m
    ensures m.Valid() && m.tree == Created(old(m.tree), q)
    ensures forall id :: id in m.nodes ==> id in old(m.nodes) || q.node == Some(id)
  {
    var node := if q.node.Some? then Some(Raw(q.node.value, None, None)) else None;
    var _ := m.CreateVma(q.addr, q.len, node);
  }

  /** The calls on the linked nodes, each in memory that is null where the child links are */
  method CreateAll(calls: seq<Request>) returns (m: Mm)
    requires Different(calls) && forall q :: q in calls ==> q.addr < WORD32 && q.len < WORD32
    ensures fresh(m) && m.Valid() && m.tree == Built(calls)
    ensures Ordinary(calls) ==> Decides(m.tree) && Whole(Areas(m.tree))
  {
    m := new Mm();
    for i := 0 to |calls|
      invariant fresh(m) && m.Valid() && m.tree == Built(calls[..i])
      invariant forall id :: id in m.nodes ==> exists j :: 0 <= j < i && calls[j].node == Some(id)
    {
      BuiltMore(calls, i);
      CreateOne(m, calls[i]);
    }
    assert calls[..|calls|] == calls;
    if Ordinary(calls) {
      BuiltDecides(calls);
      BuiltWhole(calls);
    }
  }

  /** A granted request that wraps around: the area ends below its start. */
  lemma WrappingRequest()
    ensures Granted(Leaf, 0xFFFF_F000, 0x1000) && Rounded(0xFFFF_F000, 0x1000) == Vma(0xFFFF_F000, 0)
    ensures !Good(Insert(Leaf, 0, Rounded(0xFFFF_F000, 0x1000)))
  {
    var v := Vma(0xFFFF_F000, 0);
    assert v in Areas(Insert(Leaf, 0, v));
  }

  /** A granted request behind a heap whose break is not on a page boundary: the rounded area
      covers the heap. */
  lemma StraddlingRequest()
    ensures var heap := Vma(0x802000, 0x802010);
            var t := Branch(0, heap, Leaf, Leaf);
            var v := Rounded(0x802010, 0x10);
            && Good(t) && NoneHidden(t) && Paged(Areas(t)) && Granted(t, 0x802010, 0x10)
            && v == Vma(0x802000, 0x803000) && !Apart(heap, v) && !Good(Insert(t, 1, v))
  {
    var heap := Vma(0x802000, 0x802010);
    var t := Branch(0, heap, Leaf, Leaf);
    var v := Vma(0x802000, 0x803000);
    assert Areas(t) == {heap};
    InsertAreas(t, 1, v);
    assert heap in Areas(Insert(t, 1, v)) && v in Areas(Insert(t, 1, v));
  }

  /** A request of length 0 and then one that ends where it lies: the second area is never found. */
  lemma HidingRequest()
    ensures Granted(Leaf, 0x803000, 0) && Rounded(0x803000, 0) == Vma(0x803000, 0x803000)
    ensures var t := Branch(0, Vma(0x803000, 0x803000), Leaf, Leaf);
            var v := Rounded(0x802000, 0x1000);
            && Good(t) && NoneHidden(t) && Paged(Areas(t)) && Granted(t, 0x802000, 0x1000)
            && v == Vma(0x802000, 0x803000) && Inside(0x802000, v) && Find(Insert(t, 1, v), 0x802000, None) != Some(v)
  {
    var e, v := Vma(0x803000, 0x803000), Vma(0x802000, 0x803000);
    EmptyTree(e);
    assert Find(Leaf, 0x802000, Some(e)) == Some(e);
    assert Insert(Leaf, 1, v) == Branch(1, v, Leaf, Leaf);
    assert Insert(Branch(0, e, Leaf, Leaf), 1, v) == Branch(0, e, Leaf, Branch(1, v, Leaf, Leaf));
  }

  lemma EmptyTree(e: Vma)
    requires Empty(e) && e.start % PAGE_SIZE == 0
    ensures var t := Branch(0, e, Leaf, Leaf); Good(t) && NoneHidden(t) && Paged(Areas(t))
  {
    assert Areas(Branch(0, e, Leaf, Leaf)) == {e};
  }
}
