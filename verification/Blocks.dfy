/** Values shared by the chain modules: options, block ids and blocks. */
module Wrappers {
  datatype Option<+T> = None | Some(value: T)
}

/**
 Block ids stand for a hash that has no collisions and commits to everything in the block,
 its `previous` field included. Such an id is a term: either the all-zero id, or the hash of
 one block. The block number that the code stores in the first word of an id is its depth.
 */
module Blocks {

  datatype BlockId = Zero | Hash(parent: BlockId, body: nat)

  datatype Block = Block(previous: BlockId, body: nat) {
    function Id(): BlockId {
      Hash(previous, body)
    }

    function Num(): nat {
      NumFromId(previous) + 1
    }
  }

  function NumFromId(id: BlockId): nat {
    match id
    case Zero => 0
    case Hash(parent, _) => NumFromId(parent) + 1
  }

  /** `a` is `b` or lies on the path from `b` back to the zero id. */
  predicate IsAncestor(a: BlockId, b: BlockId) {
    a == b || (b.Hash? && IsAncestor(a, b.parent))
  }

  lemma {:induction false} AncestorIsLower(a: BlockId, b: BlockId)
    requires IsAncestor(a, b)
    ensures NumFromId(a) <= NumFromId(b)
    ensures a == b || NumFromId(a) < NumFromId(b)
  {
    if a != b {
      AncestorIsLower(a, b.parent);
    }
  }

  lemma {:induction false} AncestorTransitive(a: BlockId, b: BlockId, c: BlockId)
    requires IsAncestor(a, b) && IsAncestor(b, c)
    ensures IsAncestor(a, c)
  {
    if b != c {
      AncestorTransitive(a, b, c.parent);
    }
  }

  /** Two ancestors of one block are ancestors of each other, in the order of their numbers. */
  lemma {:induction false} AncestorsAreOrdered(a: BlockId, b: BlockId, c: BlockId)
    requires IsAncestor(a, c) && IsAncestor(b, c) && NumFromId(a) <= NumFromId(b)
    ensures IsAncestor(a, b)
  {
    if b == c {
    } else if a == c {
      AncestorIsLower(b, c.parent);
    } else {
      AncestorsAreOrdered(a, b, c.parent);
    }
  }
}
