/** The state maps that executions read and write, keyed by contract address or class hash. */
module State {
  import opened Felts

  datatype StateMaps = StateMaps(
    storage: map<(Felt, Felt), Felt>,
    nonces: map<Felt, Felt>,
    classHashes: map<Felt, Felt>,
    compiledClassHashes: map<Felt, Felt>,
    declared: map<Felt, bool>)
}
