/**
 * The routing metric carried in IHU and Update TLVs: a 16-bit value where
 * 0xFFFF means infinity, that is, unreachable (section 4.6.9 of RFC 8966).
 */
module Metrics {
  import opened Common

  const INFINITE_METRIC: U16 := 0xFFFF

  datatype Metric = Metric(value: U16)

  predicate IsInfinite(m: Metric) {
    m.value == INFINITE_METRIC
  }
}
