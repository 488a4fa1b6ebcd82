/** The edges of the pointer-assignment graph. */
module PointerAssignmentGraph {
  import opened Compressors
  import opened AliasResults

  type CallSite = nat

  /** Assign: to = from. Gep: to is a field address of from. Call: an argument is passed to a parameter. Return: a
      returned value reaches the call site. Load: to = *from. Store, StorePOI: *to = from. Copy: the memory
      behind from is copied to the memory behind to. */
  datatype EdgeKind =
    | Assign
    | Gep(offset: Option<int>)
    | Call(argNo: nat)
    | Return
    | Load
    | Store
    | StorePOI
    | Copy

  datatype Edge = Edge(from: ValueId, to: ValueId, kind: EdgeKind)
}
