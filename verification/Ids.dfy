/** The correlation id of core/common/ids.h, which both detectors mint from a running counter. */
module Ids {
  datatype CorrelationId = CorrelationId(hi: nat, lo: nat) {
    predicate Valid() { hi != 0 || lo != 0 }
  }

  const NO_ID := CorrelationId(0, 0)
}
