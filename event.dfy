/** File-system event operations and the predicates over them (context/event.go). */
module Events {

  /** `fsnotify.Op`, an unsigned 32-bit mask. */
  type Op = bv32

  const OpCreate: Op := 1
  const OpWrite: Op := 2
  const OpRemove: Op := 4
  const OpRename: Op := 8
  const OpChmod: Op := 16

  /** The five operations, in bit order. */
  const AllOps: seq<Op> := [OpCreate, OpWrite, OpRemove, OpRename, OpChmod]

  /** A file-system event: the path and the operations that happened to it. */
  datatype Event = Event(name: string, op: Op)

  /** The single bit `OpCreate` is set in `op`. */
  predicate IsCreate(op: Op) { op & OpCreate == OpCreate }
  predicate IsWrite(op: Op) { op & OpWrite == OpWrite }
  predicate IsRemove(op: Op) { op & OpRemove == OpRemove }
  predicate IsRename(op: Op) { op & OpRename == OpRename }
  predicate IsChmod(op: Op) { op & OpChmod == OpChmod }

  /** The five operation constants are the distinct single bits 1, 2, 4, 8 and 16. */
  lemma OpsAreDistinctBits()
    ensures OpCreate == 1 << 0 && OpWrite == 1 << 1 && OpRemove == 1 << 2
    ensures OpRename == 1 << 3 && OpChmod == 1 << 4
    ensures forall i, j :: 0 <= i < j < |AllOps| ==> AllOps[i] & AllOps[j] == 0 && AllOps[i] != AllOps[j]
  {
  }

  /** Each predicate tests its own bit and nothing else: setting or clearing any other bit does not change it. */
  lemma PredicatesTestOneBit(op: Op, other: Op)
    ensures IsCreate(op) <==> op & OpCreate != 0
    ensures IsWrite(op) <==> op & OpWrite != 0
    ensures IsRemove(op) <==> op & OpRemove != 0
    ensures IsRename(op) <==> op & OpRename != 0
    ensures IsChmod(op) <==> op & OpChmod != 0
    ensures other & OpCreate == 0 ==> (IsCreate(op | other) <==> IsCreate(op))
    ensures other & OpWrite == 0 ==> (IsWrite(op | other) <==> IsWrite(op))
    ensures other & OpRemove == 0 ==> (IsRemove(op | other) <==> IsRemove(op))
    ensures other & OpRename == 0 ==> (IsRename(op | other) <==> IsRename(op))
    ensures other & OpChmod == 0 ==> (IsChmod(op | other) <==> IsChmod(op))
  {
  }

  /** A multi-bit operation makes several predicates true at once, and leaves the others false. */
  lemma MultiBitOp()
    ensures IsWrite(OpWrite | OpChmod) && IsChmod(OpWrite | OpChmod)
    ensures !IsCreate(OpWrite | OpChmod) && !IsRemove(OpWrite | OpChmod) && !IsRename(OpWrite | OpChmod)
  {
  }
}
