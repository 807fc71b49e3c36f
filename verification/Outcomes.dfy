/** The classification of one probe attempt (`OutcomeClass`) and the identifiers probes speak about. */
module Outcomes {

  datatype Capability = Capability(name: string)

  datatype IdentityId = IdentityId(name: string)

  datatype OutcomeClass =
    | Allowed
    | DeniedExplicit
    | DeniedImplicit
    | DeniedUnattributed
    | ErrorResourceMissing
    | ErrorTransient
    | ErrorInfrastructure
    | Indeterminate
  {
    predicate IsDenial() {
      DeniedExplicit? || DeniedImplicit? || DeniedUnattributed?
    }

    predicate IsError() {
      ErrorResourceMissing? || ErrorTransient? || ErrorInfrastructure?
    }
  }
}
