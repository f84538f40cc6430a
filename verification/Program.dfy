/** A program's segments, byte by byte: the pages that `region_alloc` maps for a segment and the
    area that `create_vma` makes for it (kernel/task.c, kernel/mm/mm.c). */
module Program {
  import opened PageFrames
  import AddressSpace
  import VmaTree

  /** A loadable program header with the bytes it takes from the file. `code`: executable and not
      writable. */
  datatype Segment = Segment(va: nat, memsz: nat, file: seq<Byte>, code: bool)

  /** The pages that `region_alloc` maps: from `ROUNDDOWN(va)` to `ROUNDUP(va + memsz)` */
  function Lo(g: Segment): nat {
    g.va / 4096
  }

  function Hi(g: Segment): nat {
    (g.va + g.memsz + 4095) / 4096
  }

  function MappedOf(g: Segment): Area {
    Area(Lo(g), Hi(g))
  }

  /** The pages of its area: from `ROUNDDOWN(va)`, `ROUNDUP(memsz)` long */
  function AreaOf(g: Segment): Area {
    Area(Lo(g), Lo(g) + (g.memsz + 4095) / 4096)
  }

  /** The condition on a segment under which its area holds all its pages */
  predicate Tight(g: Segment) {
    g.va % 4096 + (g.memsz - 1) % 4096 < 4096
  }

  /** The byte at address `a`: from the file, and zero behind it */
  function ByteAt(g: Segment, a: nat): Byte {
    if g.va <= a < g.va + |g.file| then g.file[a - g.va] else 0
  }

  /** Page `v` as `memcpy` and `memset` leave it */
  function PageOf(g: Segment, v: nat): (p: Page)
    ensures forall o: Offset :: p[o] == ByteAt(g, v * 4096 + o)
  {
    var p: seq<Byte> := seq<Byte>(4096, (i: int) requires 0 <= i < 4096 => ByteAt(g, v * 4096 + i));
    p
  }

  /** Where the last segment of one kind ends: `end_code` or `end_data`, 0 without one */
  function EndOf(segs: seq<Segment>, code: bool): nat {
    if segs == [] then 0
    else
      var g := segs[|segs| - 1];
      if g.code == code then g.va + g.memsz else EndOf(segs[..|segs| - 1], code)
  }

  /** The page of `start_brk` */
  function BrkOf(segs: seq<Segment>): nat {
    ((if EndOf(segs, false) != 0 then EndOf(segs, false) else EndOf(segs, true)) + 4095) / 4096
  }

  lemma {:induction false} EndIsOfSegment(segs: seq<Segment>, code: bool)
    ensures EndOf(segs, code) == 0 || exists i :: 0 <= i < |segs| && EndOf(segs, code) == segs[i].va + segs[i].memsz
  {
    if segs != [] {
      var n := |segs| - 1;
      if segs[n].code != code {
        EndIsOfSegment(segs[..n], code);
        if EndOf(segs[..n], code) != 0 {
          var i :| 0 <= i < n && EndOf(segs[..n], code) == segs[..n][i].va + segs[..n][i].memsz;
          assert segs[..n][i] == segs[i];
        }
      }
    }
  }

  /** The heap starts where some segment ends. */
  lemma BrkFollowsSegment(segs: seq<Segment>)
    ensures BrkOf(segs) == 0 || exists i :: 0 <= i < |segs| && BrkOf(segs) == Hi(segs[i])
  {
    EndIsOfSegment(segs, false);
    EndIsOfSegment(segs, true);
  }

  lemma {:induction false} EndOfLast(segs: seq<Segment>, code: bool, i: nat)
    requires i < |segs| && segs[i].code == code && forall j :: i < j < |segs| ==> segs[j].code != code
    ensures EndOf(segs, code) == segs[i].va + segs[i].memsz
  {
    if i < |segs| - 1 {
      EndOfLast(segs[..|segs| - 1], code, i);
    }
  }

  lemma {:induction false} EndOfNone(segs: seq<Segment>, code: bool)
    requires forall j :: 0 <= j < |segs| ==> segs[j].code != code
    ensures EndOf(segs, code) == 0
  {
    if segs != [] {
      EndOfNone(segs[..|segs| - 1], code);
    }
  }

  /** The heap starts on the page behind the last segment that holds data, wherever code lies. */
  lemma HeapFollowsData(segs: seq<Segment>, i: nat)
    requires i < |segs| && !segs[i].code && forall j :: i < j < |segs| ==> segs[j].code
    requires segs[i].va + segs[i].memsz > 0
    ensures BrkOf(segs) == (segs[i].va + segs[i].memsz + 4095) / 4096
  {
    EndOfLast(segs, false, i);
  }

  /** Without data it starts on the page behind the last segment. */
  lemma HeapFollowsCode(segs: seq<Segment>)
    requires segs != [] && forall j :: 0 <= j < |segs| ==> segs[j].code
    ensures BrkOf(segs) == (segs[|segs| - 1].va + segs[|segs| - 1].memsz + 4095) / 4096
  {
    EndOfNone(segs, false);
    EndOfLast(segs, true, |segs| - 1);
  }

  /** A segment is mapped inside its area if and only if the parts of a page that it has at both ends
      fit on one page; otherwise one page more is mapped than the area holds. */
  lemma MappedInsideIff(g: Segment)
    requires g.memsz > 0
    ensures Hi(g) <= AreaOf(g).hi <==> Tight(g)
    ensures Hi(g) == AreaOf(g).hi + if Tight(g) then 0 else 1
  {
    var x, y := g.va % 4096, (g.memsz - 1) % 4096;
    var p, q := g.va / 4096, (g.memsz - 1) / 4096;
    assert g.va + g.memsz + 4095 == 4096 * (p + q + 1) + (x + y);
    assert g.memsz + 4095 == 4096 * (q + 1) + y;
    Quotient(p + q + 1, x + y);
    Quotient(q + 1, y);
  }

  lemma Quotient(q: nat, r: nat)
    requires r < 8192
    ensures (4096 * q + r) / 4096 == q + if r < 4096 then 0 else 1
  {
  }

  lemma TightArea(g: Segment)
    requires g.memsz > 0 && Tight(g)
    ensures AreaOf(g) == MappedOf(g) && Lo(g) < Hi(g)
  {
    MappedInsideIff(g);
  }

  /** The address at which this repository's programs are linked, with one page of text: the area ends
      at 0x801000 and pages are mapped up to 0x802000. */
  lemma LinkedProgramSticksOut(file: seq<Byte>)
    ensures var g := Segment(0x800020, 0x1000, file, true);
            !Tight(g) && AreaOf(g) == Area(0x800, 0x801) && MappedOf(g) == Area(0x800, 0x802)
  {
  }

  /** The test of `get_unmapped_vma`, on pages */
  predicate Clear(areas: seq<Area>, a: Area) {
    forall i :: 0 <= i < |areas| ==> areas[i].hi <= a.lo || a.hi <= areas[i].lo
  }

  function Bytes(a: Area): VmaTree.Vma {
    VmaTree.Vma(a.lo * 4096, a.hi * 4096)
  }

  /** The area is the one that `create_vma` installs. */
  lemma AreaIsRounded(g: Segment)
    requires g.va + g.memsz <= AddressSpace.KERNEL_BASE
    ensures AddressSpace.Rounded(g.va, g.memsz) == Bytes(AreaOf(g))
  {
    AddressSpace.NoWrap(g.va, g.memsz);
    AddressSpace.WrapFacts(AddressSpace.Down(g.va) + AddressSpace.Up(g.memsz));
    assert AddressSpace.Down(g.va) == 4096 * (g.va / 4096);
    assert AddressSpace.Up(g.memsz) == AddressSpace.Down(g.memsz + 4095) == 4096 * ((g.memsz + 4095) / 4096);
  }

  lemma OneIsClear(g: Segment, a: Area)
    ensures (Bytes(a).end > g.va ==> g.va + g.memsz <= Bytes(a).start) <==> a.hi <= Lo(g) || Hi(g) <= a.lo
  {
  }

  /** `create_vma` grants the area if and only if no page that is going to be mapped lies in another area. */
  lemma GrantedIffClear(areas: seq<Area>, g: Segment)
    requires g.va + g.memsz <= AddressSpace.KERNEL_BASE
    ensures AddressSpace.Fits(set a | a in areas :: Bytes(a), g.va, g.memsz) <==>
        Lo(g) != 0 && Clear(areas, MappedOf(g))
  {
    AddressSpace.WrapFacts(g.va + g.memsz);
    assert AddressSpace.Down(g.va) == 4096 * Lo(g);
    forall a ensures (Bytes(a).end > g.va ==> g.va + g.memsz <= Bytes(a).start) <==> a.hi <= Lo(g) || Hi(g) <= a.lo {
      OneIsClear(g, a);
    }
    var s := set a | a in areas :: Bytes(a);
    assert forall i :: 0 <= i < |areas| ==> Bytes(areas[i]) in s;
  }
}
