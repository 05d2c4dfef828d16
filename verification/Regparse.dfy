/** Parse trees (Dependencies/oniguruma5/regparse.h), with the fields that tree set-up fills in. */
module Regparse {
  import opened Regint

  datatype AnchorKind = BeginBuf | EndBuf | EndLine | SemiEndBuf | BeginPosition

  datatype LookKind = PrecRead | PrecReadNot | LookBehind | LookBehindNot

  datatype Node =
    | Str(s: seq<byte>)
    | CClass(bs: set<byte>, neg: bool, mbuf: Option<nat>, share: bool)  // mbuf: bytes used by the multi-byte ranges
    | CType(not: bool)                                                  // \w and \W
    | AnyChar
    | List(items: Nodes)
    | Alt(items: Nodes)
    | Quant(target: Node, q: Rep)
    | Group(num: nat, body: Node)
    | OptionNode(ml: bool, body: Node)
    | Atomic(simple: bool, body: Node)
    | Anchor(kind: AnchorKind)
    | Look(look: LookKind, charLen: int, body: Node)

  /** NQ_TARGET_ISNOT_EMPTY, NQ_TARGET_IS_EMPTY, NQ_TARGET_IS_EMPTY_MEM */
  datatype EmptyInfo = IsNotEmpty | IsEmpty | IsEmptyMem

  /** The fields of QuantifierNode besides its target. */
  datatype Rep = Rep(lower: nat, upper: int, greedy: bool,
                     emptyInfo: EmptyInfo,            // target_empty_info
                     headExact: Option<seq<byte>>, nextHead: Option<seq<byte>>,
                     inRepeat: bool, isRefered: bool,
                     raw: bool)                       // setup_tree has not been here yet

  /** The C cons cells: always at least one element. */
  datatype Nodes = Last(left: Node) | Cons(left: Node, right: Nodes)

  predicate Infinite(upper: int) { upper == REPEAT_INFINITE }

  /** IS_NODE_TYPE_SIMPLE, for the node types modelled. */
  predicate IsSimple(n: Node) {
    n.Str? || n.CClass? || n.CType? || n.AnyChar?
  }
}
