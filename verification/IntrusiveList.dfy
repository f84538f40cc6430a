/** The intrusive circular lists of include/fuckOS/list.h, proved against the sequence
    of their entries. The other modules use that sequence in place of the links. */
module IntrusiveList {

  class ListHead {
    var next: ListHead
    var prev: ListHead

    /** `INIT_LIST_HEAD` */
    constructor ()
      ensures Ring(this, [])
    {
      next := this;
      prev := this;
    }
  }

  function After(i: nat, n: nat): (j: nat)
    requires i < n
    ensures j < n
  {
    if i + 1 == n then 0 else i + 1
  }

  /** The nodes of `n` are distinct; `next` visits them in order and wraps around, and
      `prev` is its inverse. */
  ghost predicate Cycle(n: seq<ListHead>)
    reads n
  {
    && (forall i, j :: 0 <= i < j < |n| ==> n[i] != n[j])
    && (forall i {:trigger n[i].next} :: 0 <= i < |n| ==> n[i].next == n[After(i, |n|)])
    && (forall i {:trigger n[After(i, |n|)]} :: 0 <= i < |n| ==> n[After(i, |n|)].prev == n[i])
  }

  /** The list headed by `head` has the entries `s`, in order. */
  ghost predicate Ring(head: ListHead, s: seq<ListHead>)
    reads head, s
  {
    Cycle([head] + s)
  }

  /** `__list_add`: insert `entry` between two neighbours of a cycle. */
  method InsertBetween(entry: ListHead, before: ListHead, after: ListHead, ghost n: seq<ListHead>, ghost i: nat)
    requires Cycle(n) && entry !in n && i < |n|
    requires before == n[i] && after == n[After(i, |n|)]
    modifies entry, before, after
    ensures Cycle(Spliced(n, i, entry))
  {
    after.prev := entry;
    entry.next := after;
    entry.prev := before;
    before.next := entry;
    ghost var n' := Spliced(n, i, entry);
    forall j | 0 <= j < |n'| ensures n'[j].next == n'[After(j, |n'|)] {
      if j != i && j != i + 1 {
        assert n'[j] == n[if j < i then j else j - 1];
      }
    }
    forall j | 0 <= j < |n'| ensures n'[After(j, |n'|)].prev == n'[j] {
      if j != i && j != i + 1 {
        var k := if j < i then j else j - 1;
        assert n'[After(j, |n'|)] == n[After(k, |n|)];
        assert n[After(k, |n|)] != after;
      }
    }
  }

  ghost function Spliced(n: seq<ListHead>, i: nat, entry: ListHead): (r: seq<ListHead>)
    requires i < |n|
    ensures |r| == |n| + 1 && r[i + 1] == entry
    ensures forall j :: 0 <= j <= i ==> r[j] == n[j]
    ensures forall j :: i + 1 < j <= |n| ==> r[j] == n[j - 1]
  {
    n[..i + 1] + [entry] + n[i + 1..]
  }

  /** `list_add`: the new entry becomes the first. */
  method Add(entry: ListHead, head: ListHead, ghost s: seq<ListHead>)
    requires Ring(head, s) && entry != head && entry !in s
    modifies entry, head, head.next
    ensures Ring(head, [entry] + s)
    ensures entry.next == old(head.next)
  {
    ghost var n := [head] + s;
    assert n[0] == head;
    InsertBetween(entry, head, head.next, n, 0);
    assert Spliced(n, 0, entry) == [head] + ([entry] + s);
    assert ([head] + ([entry] + s))[1] == entry;
  }

  /** `list_add_tail`: the new entry becomes the last. */
  method AddTail(entry: ListHead, head: ListHead, ghost s: seq<ListHead>)
    requires Ring(head, s) && entry != head && entry !in s
    modifies entry, head, head.prev
    ensures Ring(head, s + [entry])
  {
    ghost var n := [head] + s;
    assert n[After(|s|, |n|)] == head;
    InsertBetween(entry, head.prev, head, n, |s|);
    assert Spliced(n, |s|, entry) == [head] + (s + [entry]);
  }

  /** The nodes of `n` are distinct and `next` leads from each to the one behind it. */
  ghost predicate Chain(n: seq<ListHead>)
    reads n
  {
    && (forall i, j :: 0 <= i < j < |n| ==> n[i] != n[j])
    && (forall i {:trigger n[i].next} :: 0 <= i < |n| - 1 ==> n[i].next == n[i + 1])
  }

  /** `list_add_tail` of an entry that is in the ring already: the walk from the head comes to it and then
      goes back to the head, so that all entries behind it are lost; if it was the last, the walk stays at
      it for ever. */
  method AddTailLinked(entry: ListHead, head: ListHead, ghost s: seq<ListHead>, ghost i: nat)
    requires Ring(head, s) && i < |s| && entry == s[i]
    modifies entry, head, head.prev
    ensures Chain([head] + s[..i + 1])
    ensures entry.next == if i + 1 < |s| then head else entry
    ensures head.prev == entry && forall j :: i < j < |s| - 1 ==> s[j].next == s[j + 1]
  {
    TailFacts(head, s);
    var before := head.prev;
    head.prev := entry;
    entry.next := head;
    entry.prev := before;
    before.next := entry;
    ghost var r := [head] + s[..i + 1];
    forall j | 0 <= j < |r| - 1 ensures r[j].next == r[j + 1] {
      assert j > 0 ==> r[j] == s[j - 1];
    }
  }

  lemma TailFacts(head: ListHead, s: seq<ListHead>)
    requires Ring(head, s) && s != []
    ensures head.prev == s[|s| - 1] && head.next == s[0] && head !in s
    ensures forall j :: 0 <= j < |s| - 1 ==> s[j].next == s[j + 1]
    ensures forall i, j :: 0 <= i < j < |s| ==> s[i] != s[j]
  {
    var n := [head] + s;
    assert n[After(|s|, |n|)] == head == n[0] && n[0].next == n[1];
    forall j | 0 <= j < |s| - 1 ensures s[j].next == s[j + 1] {
      assert n[j + 1].next == n[After(j + 1, |n|)];
    }
    forall i, j | 0 <= i < j < |s| ensures s[i] != s[j] {
      assert n[i + 1] != n[j + 1];
    }
    forall j | 0 <= j < |s| ensures s[j] != head {
      assert n[0] != n[j + 1];
    }
  }

  ghost function Cut(n: seq<ListHead>, k: nat): (r: seq<ListHead>)
    requires k < |n|
    ensures |r| == |n| - 1
    ensures forall j :: 0 <= j < k ==> r[j] == n[j]
    ensures forall j :: k <= j < |r| ==> r[j] == n[j + 1]
  {
    n[..k] + n[k + 1..]
  }

  /** `__list_del` and the self-links of `list_del`, on a cycle */
  method Unlink(entry: ListHead, ghost n: seq<ListHead>, ghost k: nat)
    requires Cycle(n) && 0 < k < |n| && entry == n[k]
    modifies entry, entry.prev, entry.next
    ensures Cycle(Cut(n, k)) && entry.next == entry && entry.prev == entry
  {
    assert n[After(k - 1, |n|)] == entry;
    entry.next.prev := entry.prev;
    entry.prev.next := entry.next;
    entry.next := entry;
    entry.prev := entry;
    ghost var r := Cut(n, k);
    forall j | 0 <= j < |r| ensures r[j].next == r[After(j, |r|)] {
      var i := if j < k then j else j + 1;
      assert r[j] == n[i];
      assert j != k - 1 ==> r[After(j, |r|)] == n[After(i, |n|)];
    }
    forall j | 0 <= j < |r| ensures r[After(j, |r|)].prev == r[j] {
      var i := if j < k then j else j + 1;
      assert r[j] == n[i];
      assert j != k - 1 ==> r[After(j, |r|)] == n[After(i, |n|)];
    }
  }

  /** `list_del`: the entry leaves the ring and links to itself. */
  method Delete(entry: ListHead, ghost head: ListHead, ghost s: seq<ListHead>, ghost i: nat)
    requires Ring(head, s) && i < |s| && entry == s[i]
    modifies entry, entry.prev, entry.next
    ensures Ring(head, s[..i] + s[i + 1..])
    ensures Ring(entry, [])
  {
    ghost var n := [head] + s;
    assert n[i + 1] == entry;
    Unlink(entry, n, i + 1);
    assert Cut(n, i + 1) == [head] + (s[..i] + s[i + 1..]);
  }

  /** `list_empty` */
  method IsEmpty(head: ListHead, ghost s: seq<ListHead>) returns (empty: bool)
    requires Ring(head, s)
    ensures empty <==> s == []
  {
    ghost var n := [head] + s;
    assert head == n[0] && head.next == n[After(0, |n|)];
    empty := head.next == head;
  }
}
