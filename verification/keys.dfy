/** Key identifiers, algorithms and attestation levels (src/types.rs). */
module Keys {

  type Kid = string

  datatype Algorithm = ES256 | EdDSA | Bls12381G1Schnorr

  datatype CertificationLevel = Unattested | AttestedSharedEnvironment | AttestedDedicatedHardware {
    function Rank(): nat {
      match this
      case Unattested => 0
      case AttestedSharedEnvironment => 1
      case AttestedDedicatedHardware => 2
    }
  }

  /** `order` walks the map once, as iterating a hash map does in an order of its own choosing. */
  predicate IterationOrder<T(!new)>(m: map<Kid, T>, order: seq<Kid>) {
    && (forall i, j | 0 <= i < j < |order| :: order[i] != order[j])
    && (forall kid | kid in order :: kid in m)
    && (forall kid | kid in m :: kid in order)
  }

  function ValuesIn<T>(m: map<Kid, T>, order: seq<Kid>): (values: seq<T>)
    requires forall kid | kid in order :: kid in m
    ensures |values| == |order| && forall i | 0 <= i < |order| :: values[i] == m[order[i]]
  {
    seq(|order|, i requires 0 <= i < |order| => m[order[i]])
  }

  function Without<T>(m: map<Kid, T>, kids: seq<Kid>): map<Kid, T> {
    map kid | kid in m && kid !in kids :: m[kid]
  }
}
