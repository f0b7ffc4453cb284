/**
 * The chain of free blocks: each index block names the next index block in its
 * first word and free blocks in the words behind, up to the first zero
 * (src/libk/filesystem.c:102-122).
 */
module FreeChain {
  import opened Bytes
  import opened DiskModel

  /** One index block and the free blocks it lists. */
  datatype Link = Link(index: int, entries: seq<int>)

  /** What one call, or several, take from the chain, and the chain left. */
  datatype Taken = Taken(block: int, rest: seq<Link>)

  datatype TakenAll = TakenAll(blocks: seq<int>, rest: seq<Link>)

  function Head(links: seq<Link>): (b: int) {
    if links == [] then 0 else links[0].index
  }

  /** The block of an index holds the link. */
  ghost predicate LinkOk(d: Disk, bs: int, l: Link, next: int)
    requires Formatted(d, bs)
  {
    && 0 < l.index < |d|
    && |l.entries| + 1 <= bs / 4
    && WordOf(d[l.index], 0) == next
    && (forall k :: 0 <= k < |l.entries| ==> WordOf(d[l.index], k + 1) == l.entries[k] && l.entries[k] != 0)
    && (|l.entries| + 1 < bs / 4 ==> WordOf(d[l.index], |l.entries| + 1) == 0)
  }

  /** All free blocks, in the order alloc_block hands them out. */
  ghost function Order(links: seq<Link>): (bs: seq<int>) {
    if links == [] then [] else OfLink(links[0]) + Order(links[1..])
  }

  /** Those of one index block: its entries from the last to the first, then the index block itself. */
  ghost function OfLink(l: Link): (bs: seq<int>)
    decreases |l.entries|
  {
    if l.entries == [] then [l.index]
    else [l.entries[|l.entries| - 1]] + OfLink(l.(entries := l.entries[..|l.entries| - 1]))
  }

  ghost predicate NoRepeats(s: seq<int>) {
    forall i, j :: 0 <= i < j < |s| ==> s[i] != s[j]
  }

  ghost predicate Chained(d: Disk, bs: int, links: seq<Link>)
    requires Formatted(d, bs)
  {
    links == [] || (LinkOk(d, bs, links[0], Head(links[1..])) && Chained(d, bs, links[1..]))
  }

  /** A well-formed chain: the links are on disk, and no block is free twice. */
  ghost predicate ChainOk(d: Disk, bs: int, links: seq<Link>) {
    && Formatted(d, bs)
    && Chained(d, bs, links)
    && NoRepeats(Order(links))
    && forall b :: b in Order(links) ==> 0 < b < |d|
  }

  /** What alloc_block does to a chain that is not exhausted. */
  ghost function Pop(links: seq<Link>): (r: Taken)
    requires links != []
  {
    var e := links[0].entries;
    if e == [] then Taken(links[0].index, links[1..])
    else Taken(e[|e| - 1], [links[0].(entries := e[..|e| - 1])] + links[1..])
  }

  /** alloc_block takes the first block of the order, and no other. */
  lemma {:induction false} PopTakesFirst(links: seq<Link>)
    requires links != []
    ensures Order(links) == [Pop(links).block] + Order(Pop(links).rest)
  {
    var Taken(r, rest) := Pop(links);
    var others := Order(links[1..]);
    if links[0].entries == [] {
      assert OfLink(links[0]) == [r];
    } else {
      var l := rest[0];
      assert OfLink(links[0]) == [r] + OfLink(l);
      assert rest[1..] == links[1..];
      assert Order(rest) == OfLink(l) + others;
      assert [r] + OfLink(l) + others == [r] + (OfLink(l) + others);
    }
  }

  /** The blocks returned by n calls. */
  ghost function Popped(links: seq<Link>, n: nat): (r: TakenAll)
    decreases n
  {
    if n == 0 || links == [] then TakenAll([], links)
    else
      var Taken(b, rest) := Pop(links);
      var TakenAll(bs, last) := Popped(rest, n - 1);
      TakenAll([b] + bs, last)
  }

  /** Any number of calls up to exhaustion returns the order's blocks one by one: distinct, all of them free before, none after. */
  lemma {:induction false} EveryBlockOnce(links: seq<Link>, n: nat)
    requires n <= |Order(links)|
    ensures Popped(links, n).blocks == Order(links)[..n] && Order(Popped(links, n).rest) == Order(links)[n..]
    ensures n == |Order(links)| <==> Popped(links, n).rest == []
    decreases n
  {
    if n > 0 && links != [] {
      PopTakesFirst(links);
      EveryBlockOnce(Pop(links).rest, n - 1);
    } else if links != [] {
      PopTakesFirst(links);
    }
  }

  lemma {:induction false} IndexInOrder(links: seq<Link>, i: nat)
    requires i < |links|
    ensures links[i].index in Order(links)
    ensures forall b :: b in links[i].entries ==> b in Order(links)
    decreases i
  {
    if i == 0 {
      OfLinkHas(links[0]);
    } else {
      IndexInOrder(links[1..], i - 1);
    }
  }

  lemma {:induction false} OfLinkHas(l: Link)
    ensures l.index in OfLink(l) && forall b :: b in l.entries ==> b in OfLink(l)
    decreases |l.entries|
  {
    if l.entries != [] {
      var n := |l.entries| - 1;
      OfLinkHas(l.(entries := l.entries[..n]));
      assert l.entries == l.entries[..n] + [l.entries[n]];
    }
  }

  /** Blocks that are not index blocks may be written freely. */
  lemma {:induction false} ChainedElsewhere(d: Disk, r: Disk, bs: int, links: seq<Link>, n: int)
    requires Formatted(d, bs) && Formatted(r, bs) && |r| == |d| && Chained(d, bs, links)
    requires forall b :: 0 <= b < |d| && b != n ==> r[b] == d[b]
    requires forall i :: 0 <= i < |links| ==> links[i].index != n
    ensures Chained(r, bs, links)
    decreases |links|
  {
    if links != [] {
      ChainedElsewhere(d, r, bs, links[1..], n);
    }
  }

  /** The disk after a call: an index block that lists blocks loses its last entry. */
  ghost function PopDisk(d: Disk, bs: int, links: seq<Link>): (r: Disk)
    requires Formatted(d, bs) && links != [] && LinkOk(d, bs, links[0], Head(links[1..]))
    ensures |r| == |d|
  {
    var l := links[0];
    if l.entries == [] then d
    else d[l.index := SetRaw(d[l.index], |l.entries|, SwitchEndianness(0))]
  }

  lemma ShrunkLinkOk(d: Disk, bs: int, l: Link, next: int, b: Block)
    requires Formatted(d, bs) && LinkOk(d, bs, l, next) && l.entries != []
    requires b == SetRaw(d[l.index], |l.entries|, SwitchEndianness(0))
    ensures Formatted(d[l.index := b], bs)
    ensures LinkOk(d[l.index := b], bs, l.(entries := l.entries[..|l.entries| - 1]), next)
  {
    hide WordOf, SetRaw;
    var m := |l.entries|;
    SetWord(d[l.index], m, 0, 0);
    SetWord(d[l.index], m, 0, m);
    forall k | 0 <= k < m - 1 ensures WordOf(b, k + 1) == l.entries[k] {
      SetWord(d[l.index], m, 0, k + 1);
    }
  }

  lemma TailOf(s: seq<int>, p: int, t: seq<int>)
    requires NoRepeats(s) && s == [p] + t
    ensures NoRepeats(t) && p in s && p !in t && forall b :: b in s <==> b == p || b in t
  {
    assert t == s[1..];
    forall i, j | 0 <= i < j < |t| ensures t[i] != t[j] {
      assert t[i] == s[i + 1] && t[j] == s[j + 1];
    }
    assert s[0] == p;
  }

  lemma PopChained(d: Disk, bs: int, links: seq<Link>)
    requires Formatted(d, bs) && Chained(d, bs, links) && NoRepeats(Order(links)) && links != []
    ensures Formatted(PopDisk(d, bs, links), bs) && Chained(PopDisk(d, bs, links), bs, Pop(links).rest)
  {
    var l, others := links[0], links[1..];
    if l.entries != [] {
      var b := SetRaw(d[l.index], |l.entries|, SwitchEndianness(0));
      var r := d[l.index := b];
      ShrunkLinkOk(d, bs, l, Head(others), b);
      OfLinkHas(l);
      hide SetRaw, SwitchEndianness, LinkOk, OfLink, NoRepeats;
      forall i | 0 <= i < |others| ensures others[i].index != l.index {
        IndexInOrder(others, i);
        Apart(OfLink(l), Order(others), l.index, others[i].index);
      }
      ChainedElsewhere(d, r, bs, others, l.index);
      assert Pop(links).rest[1..] == others;
    }
  }

  /** alloc_block keeps the chain well formed and takes one block, which was free, out of it. */
  lemma PopKeeps(d: Disk, bs: int, links: seq<Link>)
    requires ChainOk(d, bs, links) && links != []
    ensures ChainOk(PopDisk(d, bs, links), bs, Pop(links).rest)
    ensures Pop(links).block in Order(links) && Pop(links).block !in Order(Pop(links).rest)
    ensures forall b :: b in Order(links) <==> b == Pop(links).block || b in Order(Pop(links).rest)
  {
    hide PopDisk, Pop, Order, Chained, NoRepeats, Formatted;
    ChainedHere(d, bs, links);
    PopTakesFirst(links);
    PopChained(d, bs, links);
    TailOf(Order(links), Pop(links).block, Order(Pop(links).rest));
  }

  lemma ChainedHere(d: Disk, bs: int, links: seq<Link>)
    requires Formatted(d, bs) && Chained(d, bs, links) && links != []
    ensures LinkOk(d, bs, links[0], Head(links[1..]))
  {}

  lemma Apart(s: seq<int>, t: seq<int>, a: int, b: int)
    requires NoRepeats(s + t) && a in s && b in t
    ensures a != b
  {
    var i :| 0 <= i < |s| && s[i] == a;
    var j :| 0 <= j < |t| && t[j] == b;
    assert (s + t)[i] == a && (s + t)[|s| + j] == b;
  }
}
