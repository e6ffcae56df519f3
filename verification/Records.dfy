/** The agent's durable workload records (`podmesh-agent/src/store.rs`) and the signed
    messages they carry, reduced to the fields the lifecycle reads.
 */
module Records {
  import opened Quantities

  /** What a sealed execution capsule says about the workload it runs. */
  datatype Execution = Execution(name: string, replicaIndex: nat, replicaCount: nat)

  /** An owner-signed deployment grant.  `execution` is what `decode_execution` reveals when it succeeds. */
  datatype Grant = Grant(workload: string, namespace: string, revision: string,
                         reservation: string, execution: Execution)

  datatype UpdateRequest = UpdateRequest(id: string, namespace: string, workload: string,
                                         expected: string, requested: string, refresh: bool,
                                         grant: Grant, size: Size)

  /** The bindings `UpdateRequest::verify` checks between a request and its inner grant. */
  predicate Bound(request: UpdateRequest) {
    && request.grant.namespace == request.namespace
    && request.grant.workload == request.workload
    && request.grant.revision == request.requested
  }

  datatype Phase =
    | Active
    | Updating(previousGrant: Grant, previousRuntimeId: string, request: UpdateRequest)
    | Creating
    | CleanupPending(uncertain: bool)

  datatype Record = Record(phase: Phase, grant: Grant, runtimeId: string, deleting: bool,
                           size: Size, execution: Execution)

  function RecordSize(r: Record): Size {
    r.size
  }

  predicate NeedsCleanup(r: Record) {
    r.phase.Creating? || r.phase.CleanupPending? || (r.phase.Active? && r.runtimeId == "")
  }

  /** The runtime names a workload's pod after the workload. */
  function TargetId(workload: string): string {
    workload
  }

  /** The record saved before the runtime is asked to replace the pod. */
  function Transitioning(prior: Record, request: UpdateRequest): Record {
    prior.(size := request.size, phase := Updating(prior.grant, prior.runtimeId, request))
  }

  /** The record an update ends with, given the one it went through. */
  function Applied(r: Record): Record
    requires r.phase.Updating?
  {
    var request := r.phase.request;
    Record(Active, request.grant, TargetId(r.grant.workload), false, request.size, request.grant.execution)
  }

  /** Revisions a pod may be running while its durable record is `r`. */
  function AllowedRevisions(r: Record): set<string> {
    if r.phase.Updating? then {r.grant.revision, r.phase.request.grant.revision} else {r.grant.revision}
  }
}
