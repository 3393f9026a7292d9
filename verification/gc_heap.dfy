/** The collector's view of an object (src/interpreter/lky_gc.c:108-126, 218-300): its
    mark, its size, and the objects its fields lead to. */
module GcHeap {

  /** A slot of a data stack or of the locals. */
  datatype Slot = Empty | TaggedInt(i: int) | Holding(o: LkyObject)

  datatype Kind =
    | Number
    | Plain
    | Error
    | Custom
    | CustomEx(saved: seq<LkyObject>)
    | Class(builder: LkyObject)
    | Function(bucket: LkyObject?, code: LkyObject?, owner: LkyObject?, bound: LkyObject?, parents: seq<LkyObject>)
    | Code(constants: seq<Slot>)
    | Iterable(iterated: LkyObject)
    | Sequence(next: LkyObject?, value: LkyObject?)
    | Blob(kept: seq<LkyObject>)

  class LkyObject {
    const address: nat
    const size: nat
    var memCount: int
    var kind: Kind
    var members: seq<Slot>

    constructor (address: nat, size: nat, kind: Kind, members: seq<Slot>)
      ensures this.address == address && this.size == size && this.kind == kind && this.members == members
      ensures memCount == 0
    {
      this.address, this.size, this.kind, this.members := address, size, kind, members;
      memCount := 0;
    }

    /** The types whose members are not looked at. */
    predicate Memberless()
      reads this`kind
    {
      kind.Number? || kind.Blob? || kind.Sequence? || kind.Code? || kind.Iterable?
    }

    /** What gc_mark_object calls itself for, in order. */
    function Children(): seq<Slot>
      reads this`kind, this`members
    {
      (if Memberless() then [] else members) +
      match kind
      case Function(bucket, code, owner, bound, parents) =>
        Maybe(bucket) + Maybe(code) + Maybe(owner) + Maybe(bound) + All(parents)
      case Sequence(next, value) => Maybe(next) + Maybe(value)
      case Code(constants) => constants
      case Class(builder) => [Holding(builder)]
      case CustomEx(saved) => All(saved)
      case Iterable(iterated) => [Holding(iterated)]
      case Blob(kept) => All(kept)
      case _ => []
    }
  }

  function Maybe(o: LkyObject?): seq<Slot> {
    if o == null then [] else [Holding(o)]
  }

  function All(os: seq<LkyObject>): seq<Slot> {
    seq(|os|, i requires 0 <= i < |os| => Holding(os[i]))
  }
}
