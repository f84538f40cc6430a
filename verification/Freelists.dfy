/** Threaded freelists: singly linked lists whose link words live in the listed objects
    themselves, as in kernel/mm/slab.c. Address 0 is NULL. */
module Freelists {
  import opened Wrappers

  /** What owns a freelist: a CPU's `mem_cache_cpu`, or a slab's first `struct page`. */
  datatype Holder = Cpu(cpu: nat) | Page(pfn: nat)

  /** Following the link words from `head` visits exactly `s` and ends at NULL. */
  ghost predicate Chain(links: map<nat, nat>, head: nat, s: seq<nat>)
    decreases s
  {
    if s == [] then head == 0
    else head == s[0] != 0 && head in links && head !in s[1..] && Chain(links, links[head], s[1..])
  }

  lemma {:induction false} ChainFrame(links: map<nat, nat>, links': map<nat, nat>, head: nat, s: seq<nat>)
    requires Chain(links, head, s)
    requires forall o :: o in s && o in links ==> o in links' && links'[o] == links[o]
    ensures Chain(links', head, s)
    decreases s
  {
    if s != [] { ChainFrame(links, links', links[head], s[1..]); }
  }

  /** `place` gives every object its one holder (None: in use); `lists` are the contents of
      the freelists that `heads` and `links` spell out. */
  ghost predicate Threaded(links: map<nat, nat>, heads: map<Holder, nat>, lists: map<Holder, seq<nat>>,
                           place: map<nat, Option<Holder>>)
  {
    heads.Keys == lists.Keys && Chained(links, heads, lists) && Agree(lists, place)
  }

  ghost predicate Chained(links: map<nat, nat>, heads: map<Holder, nat>, lists: map<Holder, seq<nat>>)
    requires heads.Keys == lists.Keys
  {
    forall h :: h in lists ==> Chain(links, heads[h], lists[h])
  }

  ghost predicate Agree(lists: map<Holder, seq<nat>>, place: map<nat, Option<Holder>>) {
    && (forall h, o :: h in lists && o in lists[h] ==> o in place && place[o] == Some(h))
    && (forall o :: o in place && place[o].Some? ==> Listed(lists, place[o].value, o))
  }

  ghost predicate Listed(lists: map<Holder, seq<nat>>, h: Holder, o: nat) {
    h in lists && o in lists[h]
  }

  /** Take the first object of a non-empty freelist. */
  lemma PopThreaded(links: map<nat, nat>, heads: map<Holder, nat>, lists: map<Holder, seq<nat>>,
                    place: map<nat, Option<Holder>>, h: Holder)
    requires Threaded(links, heads, lists, place) && h in lists && heads[h] != 0
    ensures heads[h] in links && heads[h] in place && place[heads[h]] == Some(h)
    ensures lists[h] != [] && lists[h][0] == heads[h]
    ensures Threaded(links, heads[h := links[heads[h]]], lists[h := lists[h][1..]], place[heads[h] := None])
  {
  }

  /** Put an object in use on the front of a freelist, writing its link word. */
  lemma PushThreaded(links: map<nat, nat>, heads: map<Holder, nat>, lists: map<Holder, seq<nat>>,
                     place: map<nat, Option<Holder>>, h: Holder, o: nat)
    requires Threaded(links, heads, lists, place) && h in lists
    requires o != 0 && o in place && place[o] == None
    ensures Threaded(links[o := heads[h]], heads[h := o], lists[h := [o] + lists[h]], place[o := Some(h)])
  {
    var links' := links[o := heads[h]];
    var lists' := lists[h := [o] + lists[h]];
    forall k | k in lists ensures o !in lists[k] && Chain(links', heads[k], lists[k]) {
      ChainFrame(links, links', heads[k], lists[k]);
    }
    assert ([o] + lists[h])[1..] == lists[h];
    forall x | x in place && x != o && place[x].Some? ensures Listed(lists', place[x].value, x) {
      assert Listed(lists, place[x].value, x);
    }
  }

  ghost function Moved(place: map<nat, Option<Holder>>, a: Holder, b: Holder): map<nat, Option<Holder>> {
    map o | o in place :: if place[o] == Some(a) then Some(b) else place[o]
  }

  /** Hand a whole freelist over to a holder whose own is empty. */
  lemma MoveThreaded(links: map<nat, nat>, heads: map<Holder, nat>, lists: map<Holder, seq<nat>>,
                     place: map<nat, Option<Holder>>, a: Holder, b: Holder)
    requires Threaded(links, heads, lists, place) && a in lists && b in lists && a != b && heads[b] == 0
    ensures Threaded(links, heads[b := heads[a]][a := 0], lists[b := lists[a]][a := []], Moved(place, a, b))
  {
    var lists' := lists[b := lists[a]][a := []];
    assert lists[b] == [];
    forall x | x in place && place[x].Some? ensures Listed(lists', Moved(place, a, b)[x].value, x) {
      assert Listed(lists, place[x].value, x);
    }
  }

  ghost function Added(place: map<nat, Option<Holder>>, s: seq<nat>, h: Holder): map<nat, Option<Holder>> {
    place + map o | o in s :: Some(h)
  }

  /** A new holder with a freelist of new objects. */
  lemma AddThreaded(links: map<nat, nat>, links': map<nat, nat>, heads: map<Holder, nat>, lists: map<Holder, seq<nat>>,
                    place: map<nat, Option<Holder>>, h: Holder, head: nat, s: seq<nat>)
    requires Threaded(links, heads, lists, place) && h !in lists
    requires Chain(links', head, s) && forall o :: o in s ==> o !in place
    requires forall o :: o in place && o in links ==> o in links' && links'[o] == links[o]
    ensures Threaded(links', heads[h := head], lists[h := s], Added(place, s, h))
  {
    AddChains(links, links', heads, lists, place);
    AddAgree(lists, place, h, s);
  }

  lemma AddAgree(lists: map<Holder, seq<nat>>, place: map<nat, Option<Holder>>, h: Holder, s: seq<nat>)
    requires Agree(lists, place) && h !in lists && forall o :: o in s ==> o !in place
    ensures Agree(lists[h := s], Added(place, s, h))
  {
  }

  lemma AddChains(links: map<nat, nat>, links': map<nat, nat>, heads: map<Holder, nat>, lists: map<Holder, seq<nat>>,
                  place: map<nat, Option<Holder>>)
    requires Threaded(links, heads, lists, place)
    requires forall o :: o in place && o in links ==> o in links' && links'[o] == links[o]
    ensures forall k :: k in lists ==> Chain(links', heads[k], lists[k])
  {
    forall k | k in lists ensures Chain(links', heads[k], lists[k]) {
      assert forall o :: o in lists[k] ==> o in place;
      ChainFrame(links, links', heads[k], lists[k]);
    }
  }

  /** A holder leaves together with all its objects. */
  lemma DropThreaded(links: map<nat, nat>, heads: map<Holder, nat>, lists: map<Holder, seq<nat>>,
                     place: map<nat, Option<Holder>>, h: Holder)
    requires Threaded(links, heads, lists, place) && h in lists
    ensures Threaded(links, heads - {h}, lists - {h}, place - (set o | o in lists[h]))
  {
    var gone := set o | o in lists[h];
    var heads', lists', place' := heads - {h}, lists - {h}, place - gone;
    assert heads'.Keys == lists'.Keys;
    forall k, o | k in lists' && o in lists'[k] ensures o in place' && place'[o] == Some(k) {
      assert k in lists && o in lists[k];
      assert place[o] == Some(k) && o !in lists[h];
    }
    forall o | o in place' && place'[o].Some? ensures Listed(lists', place'[o].value, o) {
      assert Listed(lists, place[o].value, o);
      assert o !in lists[h];
    }
    forall k | k in lists' ensures Chain(links, heads'[k], lists'[k]) {
      assert k in lists;
    }
  }

  lemma {:induction false} ChainIsDistinct(links: map<nat, nat>, head: nat, s: seq<nat>)
    requires Chain(links, head, s)
    ensures NoDuplicates(s)
    decreases s
  {
    if s != [] {
      ChainIsDistinct(links, links[head], s[1..]);
      assert forall j :: 0 < j < |s| ==> s[j] == s[1..][j - 1];
    }
  }
}
