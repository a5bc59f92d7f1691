/** Singly linked chains kept as indices in a table: links[i] is the entry after i, -1 at the end. */
module IndexChain {

  import opened Seqs

  function After(chain: seq<nat>, i: nat): int
  {
    if i + 1 < |chain| then chain[i + 1] else -1
  }

  /** Following the links from the head visits the entries of `chain`, each once. */
  ghost predicate Linked(links: seq<int>, head: int, chain: seq<nat>)
  {
    && Distinct(chain)
    && (forall i :: 0 <= i < |chain| ==> chain[i] < |links|)
    && head == (if chain == [] then -1 else chain[0])
    && (forall i :: 0 <= i < |chain| ==> links[chain[i]] == After(chain, i))
  }

  lemma HeadIs(links: seq<int>, head: int, chain: seq<nat>)
    requires Linked(links, head, chain)
    ensures if chain == [] then head == -1 else head == chain[0] < |links|
  {
  }

  lemma Popped(links: seq<int>, head: int, chain: seq<nat>, x: int)
    requires Linked(links, head, chain) && chain != []
    ensures 0 <= head < |links| && head == chain[0] && head !in chain[1..]
    ensures forall i :: i in chain && i != head ==> i in chain[1..]
    ensures forall i :: i in chain[1..] ==> i in chain
    ensures Linked(links[head := x], links[head], chain[1..])
  {
    var rest := chain[1..];
    forall i | 0 <= i < |rest|
      ensures rest[i] == chain[i + 1] && rest[i] != head
      ensures links[rest[i]] == After(rest, i)
    {
      assert rest[i] == chain[i + 1] && After(rest, i) == After(chain, i + 1);
    }
  }

  lemma Pushed(links: seq<int>, head: int, chain: seq<nat>, i: nat)
    requires Linked(links, head, chain) && i < |links| && i !in chain
    ensures Linked(links[i := head], i, [i] + chain)
    ensures forall j :: j in [i] + chain <==> j == i || j in chain
  {
    var more := [i] + chain;
    forall k | 0 <= k < |more|
      ensures links[i := head][more[k]] == After(more, k)
    {
      if k > 0 {
        assert more[k] == chain[k - 1] && chain[k - 1] in chain && After(more, k) == After(chain, k - 1);
      }
    }
  }

  lemma Beside(links: seq<int>, head: int, chain: seq<nat>, i: nat, x: int)
    requires Linked(links, head, chain) && i < |links| && i !in chain
    ensures Linked(links[i := x], head, chain)
  {
    assert forall k :: 0 <= k < |chain| ==> chain[k] in chain;
  }

  /** A fresh table: every entry links to the next one. */
  lemma InOrder(links: seq<int>, chain: seq<nat>)
    requires |chain| == |links| >= 1
    requires forall i :: 0 <= i < |links| ==> links[i] == if i + 1 < |links| then i + 1 else -1
    requires forall i :: 0 <= i < |chain| ==> chain[i] == i
    ensures Linked(links, 0, chain)
    ensures forall i :: 0 <= i < |links| ==> i in chain
  {
    forall i | 0 <= i < |links|
      ensures i in chain && links[chain[i]] == After(chain, i)
    {
      assert chain[i] == i;
    }
    hide After;
  }
}
