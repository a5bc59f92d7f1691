/** What several parts of the model need of sequences and optional values. */
module Seqs {

  datatype Option<T> = None | Some(value: T)

  ghost predicate Distinct<T>(s: seq<T>)
  {
    forall i, j :: 0 <= i < j < |s| ==> s[i] != s[j]
  }

  /** The sequence without its k-th element. */
  function Cut<T>(s: seq<T>, k: nat): (r: seq<T>)
    requires k < |s|
    ensures |r| == |s| - 1 && forall i {:trigger r[i]} :: 0 <= i < |r| ==> r[i] == if i < k then s[i] else s[i + 1]
  {
    s[..k] + s[k + 1..]
  }

  /** What two steps of a queue conserve, the two together do. */
  lemma Regroup<T>(q: seq<T>, took: seq<T>, ins: seq<T>, gave: seq<T>, q': seq<T>, outs: seq<T>, left: seq<T>)
    requires q + took == gave + q' && q' + ins == outs + left
    ensures q + (took + ins) == gave + outs + left
  {
    assert q + (took + ins) == q + took + ins;
    assert gave + q' + ins == gave + (q' + ins);
    assert gave + (outs + left) == gave + outs + left;
  }
}
