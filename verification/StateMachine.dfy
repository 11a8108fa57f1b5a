/** The transition tables of internal/domain/state.go. */
module StateMachines {
  datatype StateMachine<S(==)> = StateMachine(initial: S, transitions: set<(S, S)>)
  {
    predicate CanTransition(from: S, to: S) {
      (from, to) in transitions
    }

    /** A state may always be left for itself. */
    predicate Validates(current: S, target: S) {
      current == target || CanTransition(current, target)
    }
  }

  method NewStateMachine<S(==)>(initial: S, pairs: seq<(S, S)>) returns (sm: StateMachine<S>)
    ensures sm.initial == initial
    ensures forall from: S, to: S :: sm.CanTransition(from, to) <==> (from, to) in pairs
  {
    var transitions: set<(S, S)> := {};
    for i := 0 to |pairs|
      invariant forall p :: p in transitions <==> p in pairs[..i]
    {
      transitions := transitions + {pairs[i]};
    }
    assert pairs[..|pairs|] == pairs;
    sm := StateMachine(initial, transitions);
  }
}

/** Charge sessions, internal/domain/entities.go. */
module Sessions {
  datatype SessionState =
    | Requested | CapabilityChecked | Negotiating | Charging | Authorized
    | Completed | ThermalThrottled | ProtocolFallback | Rejected

  // firmware stands for the columns that a save updates and recovery does not replay onto an existing
  // row; requestedAt is the one column that neither updates.
  datatype Session = Session(id: string, number: string, state: SessionState, handshakeID: string, mitigationID: string,
                             firmware: string, requestedAt: int, version: int, shard: string)
}
