/** A single-precision float as it travels in a telemetry datagram: four bytes, little-endian. */
module Floats {

  type Bytes4 = s: seq<bv8> | |s| == 4 witness [0, 0, 0, 0]

  /** The value is kept as its bit pattern; the run lifecycle only ever asks whether it equals 0. */
  datatype Float32 = Float32(bits: Bytes4) {

    /** True exactly for +0.0 and -0.0: every exponent and mantissa bit clear (a NaN is not zero). */
    predicate IsZero()
      ensures IsZero() <==> this == Zero || this == NegativeZero
    {
      bits[0] == 0 && bits[1] == 0 && bits[2] == 0 && (bits[3] == 0 || bits[3] == 0x80)
    }
  }

  /** The neutral value 0 (all bits clear). */
  const Zero: Float32 := Float32([0, 0, 0, 0])

  /** -0.0: only the sign bit set. */
  const NegativeZero: Float32 := Float32([0, 0, 0, 0x80])
}

/** The record every game decoder produces: the game-independent view of one sample of a run. */
module RunData {
  import opened Floats

  datatype RunData = RunData(runTimeSec: Float32, lastLapTimeSec: Float32)

  /** A freshly built record: both times are 0. */
  function Fresh(): (r: RunData)
    ensures r.runTimeSec.IsZero() && r.lastLapTimeSec.IsZero()
  {
    RunData(Zero, Zero)
  }
}
