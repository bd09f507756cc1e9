/** Words of the evaluation that several components use. */
module Vocabulary {
  /** What a run is for. */
  datatype Mode = EligibilityOnly | ComputePilot | Official

  /** The policies under evaluation, in registry order. */
  datatype Policy = ConstantVelocity | Idm | LogReplay

  /** How many cases a cohort has. */
  const POPULATION := 128
}
