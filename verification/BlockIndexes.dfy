/** The tree of block index entries, with the skip pointers that make looking up ancestors fast. */
module BlockIndexes {

  // ---------- how far back to skip ----------

  /** Bitwise and of two numbers. */
  function And(x: nat, y: nat): (r: nat)
    ensures r <= x && r <= y
  {
    if x == 0 || y == 0 then 0
    else (if x % 2 == 1 && y % 2 == 1 then 1 else 0) + 2 * And(x / 2, y / 2)
  }

  lemma {:induction false} AndSame(x: nat)
    ensures And(x, x) == x
  {
    if x > 0 {
      AndSame(x / 2);
    }
  }

  /** Turn the lowest 1 bit in the binary representation of a number into a 0. */
  function InvertLowestOne(n: nat): (r: nat)
    ensures n > 0 ==> r < n
  {
    if n == 0 then 0 else And(n, n - 1)
  }

  ghost function Pow2(k: nat): (r: nat)
    ensures r > 0
  {
    if k == 0 then 1 else 2 * Pow2(k - 1)
  }

  lemma TimesDouble(x: nat, y: nat)
    ensures x * (2 * y) == 2 * (x * y)
  {
  }

  /** Bit `k` is the lowest one that is 1, and it is taken off. */
  lemma {:induction false} LowestOne(n: nat) returns (k: nat, m: nat)
    requires n > 0
    ensures n == (2 * m + 1) * Pow2(k) && InvertLowestOne(n) == 2 * m * Pow2(k)
  {
    if n % 2 == 1 {
      k, m := 0, n / 2;
      AndSame(m);
      assert (n - 1) / 2 == m;
    } else {
      assert (n - 1) / 2 == n / 2 - 1;
      k, m := LowestOne(n / 2);
      TimesDouble(2 * m + 1, Pow2(k));
      TimesDouble(2 * m, Pow2(k));
      k := k + 1;
    }
  }

  /** The height that the skip pointer of a block jumps back to. */
  function SkipHeight(height: int): (r: int)
    ensures height > 0 ==> 0 <= r < height
    ensures r >= 0
  {
    if height < 2 then 0
    else if height % 2 == 1 then InvertLowestOne(InvertLowestOne(height - 1)) + 1
    else InvertLowestOne(height)
  }

  // ---------- block index entries ----------

  /** `pprev`, `nHeight` and `pskip` do not change once an entry has been added to the tree. */
  class BlockIndex {
    const pprev: BlockIndex?
    const height: int
    const pskip: BlockIndex?

    /** Add an entry on top of another, or a root, and build its skip pointer. */
    constructor (prev: BlockIndex?)
      requires prev != null ==> prev.Ok() && prev.Built()
      ensures pprev == prev && height == (if prev == null then 0 else prev.height + 1)
      ensures Ok() && Built()
    {
      pprev := prev;
      height := if prev == null then 0 else prev.height + 1;
      var skip: BlockIndex? := null;
      if prev != null {
        skip := prev.GetAncestor(SkipHeight(prev.height + 1));
      }
      pskip := skip;
    }

    /** Heights count the entries before this one. */
    ghost predicate Ok()
      decreases height
    {
      if pprev == null then height == 0 else height > 0 && height == pprev.height + 1 && pprev.Ok()
    }

    /** The ancestor at a height, by following `pprev` as often as necessary. */
    ghost function Ancestor(h: int): (r: BlockIndex)
      requires Ok() && 0 <= h <= height
      ensures r.Ok() && r.height == h
      decreases height
    {
      if h == height then this else pprev.Ancestor(h)
    }

    /** All skip pointers of this entry and its ancestors have been built. */
    ghost predicate Built()
      requires Ok()
      decreases height
    {
      if pprev == null then pskip == null else pskip == pprev.Ancestor(SkipHeight(height)) && pprev.Built()
    }

    lemma {:induction false} AncestorBuilt(h: int)
      requires Ok() && Built() && 0 <= h <= height
      ensures Ancestor(h).Built()
      decreases height
    {
      if h < height {
        pprev.AncestorBuilt(h);
      }
    }

    /** The ancestor of an ancestor. */
    lemma {:induction false} AncestorTwice(h: int, h': int)
      requires Ok() && 0 <= h' <= h <= height
      ensures Ancestor(h).Ancestor(h') == Ancestor(h')
      decreases height
    {
      if h < height {
        pprev.AncestorTwice(h, h');
      }
    }

    lemma TopAncestor()
      requires Ok()
      ensures height >= 0 && Ancestor(height) == this
    {
    }

    lemma PrevOf(h: int)
      requires Ok() && 0 <= h <= height
      ensures Ancestor(h).pprev == if h == 0 then null else Ancestor(h - 1)
    {
      if h > 0 {
        AncestorTwice(h, h - 1);
      }
    }

    lemma SkipAt(h: int)
      requires Ok() && Built() && 0 < h <= height
      ensures Ancestor(h).pprev != null && Ancestor(h).pprev == Ancestor(h - 1)
      ensures Ancestor(h).pskip == Ancestor(SkipHeight(h))
    {
      AncestorBuilt(h);
      AncestorTwice(h, h - 1);
      AncestorTwice(h, SkipHeight(h));
    }

    /** The ancestor at a height, skipping where that is better; none if the height is out of range. */
    method GetAncestor(h: int) returns (r: BlockIndex?)
      requires Ok() && Built()
      ensures if 0 <= h <= height then r == Ancestor(h) else r == null
    {
      if h > height || h < 0 {
        return null;
      }
      var walk, heightWalk := this, height;
      while heightWalk > h
        invariant h <= heightWalk <= height && walk == Ancestor(heightWalk)
      {
        var heightSkip, heightSkipPrev := SkipHeight(heightWalk), SkipHeight(heightWalk - 1);
        SkipAt(heightWalk);
        if walk.pskip != null &&
           (heightSkip == h || (heightSkip > h && !(heightSkipPrev < heightSkip - 2 && heightSkipPrev >= h))) {
          walk := walk.pskip;
          heightWalk := heightSkip;
        } else {
          walk := walk.pprev;
          heightWalk := heightWalk - 1;
        }
      }
      return walk;
    }
  }

  // ---------- the last common ancestor ----------

  /** `x` is an ancestor of `b`, or `b` itself. */
  ghost predicate IsAncestor(x: BlockIndex, b: BlockIndex)
    requires b.Ok()
  {
    0 <= x.height <= b.height && x == b.Ancestor(x.height)
  }

  ghost predicate Agree(a: BlockIndex, b: BlockIndex, h: int)
    requires a.Ok() && b.Ok()
  {
    0 <= h <= a.height && h <= b.height && a.Ancestor(h) == b.Ancestor(h)
  }

  /** Where two blocks agree, they agree all the way down. */
  lemma AgreeBelow(a: BlockIndex, b: BlockIndex, h: int, h': int)
    requires a.Ok() && b.Ok() && Agree(a, b, h) && 0 <= h' <= h
    ensures Agree(a, b, h')
  {
    a.AncestorTwice(h, h');
    b.AncestorTwice(h, h');
  }

  ghost predicate NotAbove(a: BlockIndex, b: BlockIndex, h: int)
    requires a.Ok() && b.Ok()
  {
    forall h' :: h < h' ==> !Agree(a, b, h')
  }

  lemma DisagreeAbove(a: BlockIndex, b: BlockIndex, h: int)
    requires a.Ok() && b.Ok() && 0 <= h && !Agree(a, b, h)
    ensures NotAbove(a, b, h - 1)
  {
    forall h' | h - 1 < h'
      ensures !Agree(a, b, h')
    {
      if Agree(a, b, h') {
        AgreeBelow(a, b, h', h);
      }
    }
  }

  /** The highest block that is an ancestor of both, for two blocks with the same root. */
  method LastCommonAncestor(a: BlockIndex, b: BlockIndex) returns (r: BlockIndex)
    requires a.Ok() && b.Ok() && a.Built() && b.Built() && a.Ancestor(0) == b.Ancestor(0)
    ensures IsAncestor(r, a) && IsAncestor(r, b)
    ensures forall x: BlockIndex :: IsAncestor(x, a) && IsAncestor(x, b) ==> x.height <= r.height
  {
    hide BlockIndex.Ok, BlockIndex.Ancestor, BlockIndex.Built;
    a.TopAncestor();
    b.TopAncestor();
    var pa, pb := a, b;
    ghost var h := if a.height < b.height then a.height else b.height;
    if pa.height > pb.height {
      pa := pa.GetAncestor(pb.height);
    } else if pb.height > pa.height {
      pb := pb.GetAncestor(pa.height);
    }
    assert Agree(a, b, 0);
    while pa != pb
      invariant 0 <= h <= a.height && h <= b.height && pa == a.Ancestor(h) && pb == b.Ancestor(h)
      invariant NotAbove(a, b, h)
      decreases h
    {
      assert !Agree(a, b, h);
      a.SkipAt(h);
      b.SkipAt(h);
      ghost var h0 := h;
      while pa.pskip != pb.pskip
        invariant 0 < h <= h0 && pa == a.Ancestor(h) && pb == b.Ancestor(h) && pa != pb
        invariant pa.pprev == a.Ancestor(h - 1) && pb.pprev == b.Ancestor(h - 1)
        invariant pa.pskip == a.Ancestor(SkipHeight(h)) && pb.pskip == b.Ancestor(SkipHeight(h))
        decreases h
      {
        h := SkipHeight(h);
        assert !Agree(a, b, h);
        pa, pb := pa.pskip, pb.pskip;
        a.SkipAt(h);
        b.SkipAt(h);
      }
      assert !Agree(a, b, h);
      DisagreeAbove(a, b, h);
      pa, pb := pa.pprev, pb.pprev;
      h := h - 1;
    }
    r := pa;
    forall x: BlockIndex | IsAncestor(x, a) && IsAncestor(x, b)
      ensures x.height <= r.height
    {
      assert Agree(a, b, x.height);
    }
  }

  // ---------- the active chain ----------

  /** The block at every height is the previous block of the next one. */
  ghost predicate IsChain(blocks: seq<BlockIndex?>) {
    && (forall i :: 0 <= i < |blocks| ==> blocks[i] != null && blocks[i].Ok() && blocks[i].height == i)
    && (forall i, j :: 0 <= i < j < |blocks| && j == i + 1 ==> blocks[j].pprev == blocks[i])
  }

  lemma {:induction false} ChainAncestor(blocks: seq<BlockIndex?>, k: nat, i: nat)
    requires IsChain(blocks) && i <= k < |blocks|
    ensures blocks[i] == blocks[k].Ancestor(i)
    decreases k
  {
    if i < k {
      ChainAncestor(blocks, k - 1, i);
      assert blocks[k].pprev == blocks[k - 1];
    }
  }

  class Chain {
    var vChain: seq<BlockIndex?>

    ghost predicate Valid()
      reads this
    {
      IsChain(vChain)
    }

    constructor ()
      ensures Valid() && vChain == []
    {
      vChain := [];
    }

    predicate Contains(b: BlockIndex)
      reads this
    {
      0 <= b.height < |vChain| && vChain[b.height] == b
    }

    /** Make `block` the tip. Stops going back as soon as the chain is known to agree. */
    method SetTip(block: BlockIndex)
      requires Valid() && block.Ok()
      modifies this
      ensures Valid() && |vChain| == block.height + 1
      ensures forall i :: 0 <= i <= block.height ==> vChain[i] == block.Ancestor(i)
    {
      ghost var was := vChain;
      var pindex: BlockIndex? := block;
      var n := block.height + 1;
      vChain := if n <= |vChain| then vChain[..n] else vChain + seq(n - |vChain|, i => null);
      ghost var h := block.height;
      while pindex != null && vChain[pindex.height] != pindex
        invariant -1 <= h <= block.height && |vChain| == n
        invariant if h == -1 then pindex == null else pindex == block.Ancestor(h)
        invariant forall i :: h < i < n ==> vChain[i] == block.Ancestor(i)
        invariant forall i :: 0 <= i <= h ==> vChain[i] == if i < |was| then was[i] else null
        decreases h
      {
        vChain := vChain[pindex.height := pindex];
        if h > 0 {
          block.AncestorTwice(h, h - 1);
        }
        pindex := pindex.pprev;
        h := h - 1;
      }
      forall i | 0 <= i < n
        ensures vChain[i] == block.Ancestor(i)
      {
        if i <= h {
          ChainAncestor(was, h, i);
          block.AncestorTwice(h, i);
        }
      }
      forall i, j | 0 <= i < j < n && j == i + 1
        ensures vChain[j].pprev == vChain[i]
      {
        block.AncestorTwice(j, i);
      }
    }

    /** The last block of the chain that is an ancestor of the given one, if any. */
    method FindFork(index: BlockIndex) returns (r: BlockIndex?)
      requires Valid() && index.Ok() && index.Built()
      ensures r != null ==> IsAncestor(r, index) && Contains(r)
      ensures forall x: BlockIndex :: IsAncestor(x, index) && Contains(x) ==> r != null && x.height <= r.height
    {
      hide BlockIndex.Ok, BlockIndex.Ancestor, BlockIndex.Built;
      r := index;
      var top := |vChain| - 1;
      index.TopAncestor();
      if r.height > top {
        r := r.GetAncestor(top);
      }
      ghost var h := if index.height > top then top else index.height;
      while r != null && !Contains(r)
        invariant -1 <= h <= index.height && (if h == -1 then r == null else r == index.Ancestor(h))
        invariant forall k :: h < k <= index.height ==> !Contains(index.Ancestor(k))
        decreases h
      {
        index.PrevOf(h);
        r := r.pprev;
        h := h - 1;
      }
    }
  }

  // ---------- locators ----------

  /** The step back after entry `i`: one for eleven steps, and from then on twice the step before. */
  ghost function StepAfter(i: nat): nat {
    Pow2(if i <= 10 then 0 else i - 10)
  }

  lemma StepNext(i: nat)
    ensures StepAfter(i) > 0 && StepAfter(i + 1) == if i + 1 > 10 then 2 * StepAfter(i) else StepAfter(i)
  {
  }

  /** The height after entry `i`, if not below the root. */
  ghost predicate StepsBack(from: int, i: nat, to: int) {
    to == if from - StepAfter(i) > 0 then from - StepAfter(i) else 0
  }

  ghost predicate NextBack(have: seq<BlockIndex>, i: nat)
    requires i + 1 < |have|
  {
    StepsBack(have[i].height, i, have[i + 1].height)
  }

  /** The blocks at falling heights, from `b` down to its root, each the right number of steps back. */
  ghost predicate IsLocator(have: seq<BlockIndex>, b: BlockIndex) {
    && b.Ok() && |have| > 0 && have[0] == b && have[|have| - 1] == b.Ancestor(0)
    && (forall i :: 0 <= i < |have| ==> IsAncestor(have[i], b))
    && (forall i, j :: 0 <= i < j < |have| ==> have[i].height > have[j].height)
    && (forall i :: 0 <= i < |have| - 1 ==> NextBack(have, i))
  }

  /** The entries so far, the last of which is before `at`. */
  ghost predicate Locating(have: seq<BlockIndex>, at: BlockIndex, b: BlockIndex)
    requires b.Ok()
  {
    && IsAncestor(at, b) && (if |have| == 0 then at == b else have[0] == b)
    && (forall i :: 0 <= i < |have| ==> IsAncestor(have[i], b) && have[i].height > at.height)
    && (forall i, j :: 0 <= i < j < |have| ==> have[i].height > have[j].height)
    && (forall i :: 0 <= i < |have| - 1 ==> NextBack(have, i))
    && (|have| > 0 ==> StepsBack(have[|have| - 1].height, |have| - 1, at.height))
  }

  lemma LocatingNext(have: seq<BlockIndex>, at: BlockIndex, b: BlockIndex)
    requires b.Ok() && Locating(have, at, b)
    ensures IsAncestor(at, b) && (at.height == 0 ==> IsLocator(have + [at], b))
    ensures forall to: BlockIndex ::
      IsAncestor(to, b) && to.height < at.height && StepsBack(at.height, |have|, to.height) ==>
        Locating(have + [at], to, b)
  {
    hide BlockIndex.Ok, BlockIndex.Ancestor, StepsBack;
    var more := have + [at];
    forall i | 0 <= i < |more| - 1
      ensures NextBack(more, i)
    {
      assert i < |have| - 1 ==> NextBack(have, i);
    }
  }

  /** Blocks at exponentially larger steps back, and the root. */
  method LocatorEntries(index: BlockIndex?) returns (have: seq<BlockIndex>)
    requires index != null ==> index.Ok() && index.Built()
    ensures if index == null then have == [] else IsLocator(have, index)
  {
    hide BlockIndex.Ok, BlockIndex.Ancestor, BlockIndex.Built, StepAfter, IsLocator, Locating;
    have := [];
    if index == null {
      return;
    }
    var step := 1;
    var at: BlockIndex := index;
    LocatingStart(index);
    while true
      invariant step == StepAfter(|have|) && at.Ok() && at.Built() && Locating(have, at, index)
      decreases at.height
    {
      LocatingNext(have, at, index);
      StepNext(|have|);
      have := have + [at];
      at.TopAncestor();
      if at.height == 0 {
        break;
      }
      var height := if at.height - step > 0 then at.height - step else 0;
      index.AncestorTwice(at.height, height);
      at.AncestorBuilt(height);
      at := at.GetAncestor(height);
      if |have| > 10 {
        step := step * 2;
      }
    }
  }

  lemma LocatingStart(b: BlockIndex)
    requires b.Ok()
    ensures Locating([], b, b) && StepAfter(0) == 1
  {
    b.TopAncestor();
  }
}
