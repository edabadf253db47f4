/**
 Base oblivious transfers, given as correlated values.
 */
module ObliviousTransfer {
  import opened Blocks

  // The messages of a 1-out-of-2 transfer, and what the receiver holds.
  datatype SendOt = SendOt(zero: Block, one: Block)
  datatype RecvOt = RecvOt(choice: bool, message: Block)

  function Pick(ot: SendOt, b: bool): Block {
    if b then ot.one else ot.zero
  }

  ghost predicate Correlated(s: SendOt, r: RecvOt) {
    r.message == Pick(s, r.choice)
  }
}
