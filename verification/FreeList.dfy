/**
The object heap's free list as a value: slot i's `next_free` is links[i], and the list is threaded through the slots
that are not allocated.
*/
module FreeList {

  const LAST := -1
  const ALLOCATED := -2

  ghost predicate Distinct(s: seq<int>)
  {
    forall i, j :: 0 <= i < j < |s| ==> s[i] != s[j]
  }

  function Head(chain: seq<int>): int
  {
    if chain == [] then LAST else chain[0]
  }

  /** Following the links from `first` visits `chain`, which has no slot twice and exactly the unallocated ones. */
  ghost predicate Threads(links: seq<int>, first: int, chain: seq<int>)
  {
    && first == Head(chain)
    && Distinct(chain)
    && (forall k | 0 <= k < |chain| :: 0 <= chain[k] < |links| && links[chain[k]] == Head(chain[k + 1..]))
    && (forall i | 0 <= i < |links| :: links[i] == ALLOCATED <==> i !in chain)
  }

  function Range(from: int, to: int): (r: seq<int>)
    requires from <= to
    ensures |r| == to - from && forall k | 0 <= k < |r| :: r[k] == from + k
  {
    seq(to - from, k => from + k)
  }

  lemma HeadFits(links: seq<int>, first: int, chain: seq<int>)
    requires Threads(links, first, chain)
    ensures first == Head(chain)
    ensures if chain == [] then first == LAST else 0 <= first < |links| && links[first] != ALLOCATED
  {
  }

  lemma PopThreads(links: seq<int>, first: int, chain: seq<int>)
    requires Threads(links, first, chain) && chain != []
    ensures 0 <= first < |links| && Threads(links[first := ALLOCATED], links[first], chain[1..])
  {
  }

  lemma PushThreads(links: seq<int>, first: int, chain: seq<int>, i: int)
    requires Threads(links, first, chain) && 0 <= i < |links| && links[i] == ALLOCATED
    ensures Threads(links[i := first], i, [i] + chain)
  {
    var longer, links' := [i] + chain, links[i := first];
    assert i !in chain;
    HeadFits(links, first, chain);
    forall k | 0 <= k < |longer|
      ensures 0 <= longer[k] < |links'| && links'[longer[k]] == Head(longer[k + 1..])
    {
      PushedLink(links, first, chain, i, k);
    }
    FirstIsNew(chain, i);
    forall j | 0 <= j < |links'|
      ensures links'[j] == ALLOCATED <==> j !in longer
    {
      assert j in longer <==> j == i || j in chain;
    }
  }

  lemma FirstIsNew(chain: seq<int>, i: int)
    requires Distinct(chain) && i !in chain
    ensures Distinct([i] + chain)
  {
  }

  lemma PushedLink(links: seq<int>, first: int, chain: seq<int>, i: int, k: int)
    requires Threads(links, first, chain) && 0 <= i < |links| && i !in chain && 0 <= k <= |chain|
    ensures var longer := [i] + chain;
      0 <= longer[k] < |links| && links[i := first][longer[k]] == Head(longer[k + 1..])
  {
  }

  /** New slots at the end, each linked to the next and the last to what was first. */
  lemma GrowThreads(links: seq<int>, first: int, chain: seq<int>, block: seq<int>)
    requires Threads(links, first, chain) && |block| > 0
    requires forall k | 0 <= k < |block| :: block[k] == if k + 1 < |block| then |links| + k + 1 else first
    ensures Threads(links + block, |links|, Range(|links|, |links| + |block|) + chain)
  {
    var n, m := |links|, |block|;
    var longer, links' := Range(n, n + m) + chain, links + block;
    forall k | 0 <= k < |longer|
      ensures 0 <= longer[k] < |links'| && links'[longer[k]] == Head(longer[k + 1..])
    {
      GrownLink(links, first, chain, block, k);
    }
    HeadFits(links, first, chain);
    forall i | 0 <= i < |links'|
      ensures links'[i] == ALLOCATED <==> i !in longer
    {
      assert i in longer <==> i in Range(n, n + m) || i in chain;
      if i >= n {
        assert links'[i] == block[i - n] && Range(n, n + m)[i - n] == i;
      }
    }
  }

  lemma GrownLink(links: seq<int>, first: int, chain: seq<int>, block: seq<int>, k: int)
    requires Threads(links, first, chain) && 0 <= k < |block| + |chain|
    requires forall k | 0 <= k < |block| :: block[k] == if k + 1 < |block| then |links| + k + 1 else first
    ensures var longer, links' := Range(|links|, |links| + |block|) + chain, links + block;
      0 <= longer[k] < |links'| && links'[longer[k]] == Head(longer[k + 1..])
  {
  }
}
