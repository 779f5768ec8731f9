/** The exceptions the recipe code raises, as values. */
module Outcomes {

  datatype Error =
    | CacheFormatError   // ValueError: a cached graph snapshot that is not a 2-tuple
    | SourceExhausted    // StopIteration: the recipe source ran dry before enough recipes were read
    | MissingEdgeKey     // KeyError: an edge whose sorted pair is not a key of edge_weights
    | InvalidSeeds       // ValueError: the seed ingredients are not a non-empty list
    | NotANode           // NetworkXError: the neighbours of a name that is not a node of the graph

  /** How a state-changing method ended: normally, or by raising `error`. */
  datatype Outcome = Success | Failure(error: Error)

  datatype Result<+T> = Ok(value: T) | Err(error: Error)

  datatype Option<+T> = None | Some(value: T)
}
