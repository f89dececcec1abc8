/** Results that flow through the Check work graph. */
module Outcomes {

  datatype Option<+T> = None | Some(value: T)

  datatype Result<+T> = Ok(value: T) | Err(error: CheckError)

  datatype CheckErrorKind =
    | InvalidModel | InvalidTuple
    | DepthExceeded | DispatchExceeded | DatastoreQueryExceeded
    | TupleItemExceeded | ConditionCostExceeded
    | Condition | StorageUnavailable | Timeout | Cancelled | Internal

  datatype CheckError = CheckError(kind: CheckErrorKind, code: string)

  datatype CheckResolution =
    | Cached | Denied | Unreachable | Cycle | Direct | Computed
    | TupleToUserset | Union | Intersection | Difference

  datatype Decision = Decision(allowed: bool, resolution: CheckResolution)

  type Evaluation = Result<Decision>

  function Allow(resolution: CheckResolution): Decision { Decision(true, resolution) }

  function Deny(resolution: CheckResolution): Decision { Decision(false, resolution) }

  function InternalError(code: string): CheckError { CheckError(Internal, code) }

  /** Codes that would mean the work graph lost track of its slots, operands or reads. */
  predicate GraphCode(code: string) {
    || code == "work_graph_stalled" || code == "work_slot_invalid" || code == "root_work_id_invalid"
    || code == "queued_work_state_invalid" || code == "read_completion_state_invalid"
    || code == "completion_parent_state_invalid" || code == "reducer_operand_invalid"
    || code == "reducer_operand_completed_twice" || code == "reducer_remaining_underflow"
    || code == "reducer_outcome_missing" || code == "reducer_error_missing"
    || code == "difference_outcome_inconsistent" || code == "root_result_missing"
  }

  predicate Broken(e: CheckError) { e.kind.Internal? && GraphCode(e.code) }

  /** An error reported by storage or by a condition. */
  type OutsideError = e: CheckError | !Broken(e) witness CheckError(Timeout, "")

  predicate Allows(o: Evaluation) { o.Ok? && o.value.allowed }

  predicate Denies(o: Evaluation) { o.Ok? && !o.value.allowed }
}
