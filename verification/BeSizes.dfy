/** Node capacities of the Bε-tree. */
module BeSizes {

  datatype NodeSizes = NodeSizes(leafN: nat, innerN: nat, innerBN: nat, rootN: nat)

  /** What BeNodeWrapper asserts statically, and what the tree needs on top of it: a median that
      is never a leaf's last key (leafN >= 3), and a root that splitRootNode cuts into chunks
      without dropping its last child. */
  predicate Supported(s: NodeSizes) {
    && s.innerBN <= s.leafN && 1 <= s.innerBN
    && 3 <= s.innerN && s.innerN % 2 == 1
    && 3 <= s.leafN < 0x8000_0000_0000_0000
    && 1 <= s.rootN && s.rootN % (s.innerN / 2 + 1) != 0
  }

  type SupportedSizes = s: NodeSizes | Supported(s) witness NodeSizes(3, 3, 1, 3)

  const SIZES: SupportedSizes

  /** The number of messages one flush removes from a node. */
  const MAX_FLUSH_SIZE: nat := SIZES.leafN - 1
}
