// Choice between two revisions compared as wrapping 32-bit serial numbers.
module NvsDualSlot {
  import opened Bytes

  datatype DualSlotChoice = NONE | FIRST | SECOND

  predicate SecondRevisionIsNewer(firstRevision: u32, secondRevision: u32) {
    ToI32((secondRevision - firstRevision) % 0x1_0000_0000) > 0
  }

  function ChooseNewerRevision(firstValid: bool, firstRevision: u32,
                               secondValid: bool, secondRevision: u32): DualSlotChoice
  {
    if !firstValid && !secondValid then NONE
    else if !firstValid then SECOND
    else if !secondValid then FIRST
    else if SecondRevisionIsNewer(firstRevision, secondRevision) then SECOND else FIRST
  }

  // The serial comparison is the plain order exactly while two revisions are
  // less than 2^31 apart; a revision never beats an equal one.
  lemma SerialOrder(a: u32, b: u32)
    requires a <= b
    ensures SecondRevisionIsNewer(a, b) <==> 0 < b - a < 0x8000_0000
    ensures SecondRevisionIsNewer(b, a) <==> b - a > 0x8000_0000
  {
    if a < b {
      assert (a - b) % 0x1_0000_0000 == a - b + 0x1_0000_0000;
    }
  }
}
