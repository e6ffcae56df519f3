/** Which tenant each open workload connection has proven itself to belong to
    (`podmesh-proxy/src/tenant_sessions.rs`), and the connection registry that opens and closes sessions
    (`podmesh-proxy/src/iroh_runtime.rs`).
 */
module Sessions {
  import opened Options
  import opened Identities

  const MAX_WORKLOAD_CONNECTIONS: nat := 4_096

  datatype Tenant = Tenant(owner: string, manifest: string, credential: string)

  /** `stable` tells one connection of an endpoint from the next. */
  datatype Session = Session(stable: nat, tenant: Option<Tenant>)

  type SessionMap = map<string, Session>

  predicate IsCurrent(s: SessionMap, endpoint: string, stable: nat) {
    endpoint in s && s[endpoint].stable == stable
  }

  /** A credential the proxy accepts for this endpoint, whatever the session already holds. */
  predicate Bound(k: Checks, endpoint: string, t: Tenant, now: nat) {
    && k.decode(t.credential).Some?
    && var id := k.decode(t.credential).value;
       k.canonical(id.signer) && VerifySession(k, id, t.owner, t.manifest, endpoint, id.signer, now)
  }

  /** What such a credential says: it decodes to an identity of this endpoint, under a delegation of the tenant's
      owner and manifest, with a canonical key, and valid at the time. */
  ghost predicate Authentic(k: Checks, endpoint: string, t: Tenant, now: nat) {
    exists id ::
      && k.decode(t.credential) == Some(id)
      && id.endpoint == endpoint
      && id.delegation.owner == t.owner
      && id.delegation.manifest == t.manifest
      && k.canonical(id.signer)
      && k.valid(id, now)
  }

  /** The same tenant, or a renewal: same owner, manifest, workload and signer, and no earlier times. */
  predicate Renews(k: Checks, before: Tenant, after: Tenant) {
    && before.owner == after.owner && before.manifest == after.manifest
    && k.decode(before.credential).Some? && k.decode(after.credential).Some?
    && var a, b := k.decode(before.credential).value, k.decode(after.credential).value;
       a.delegation.workload == b.delegation.workload && a.signer == b.signer && NoRegress(a, b)
  }

  predicate AcceptsBound(k: Checks, s: SessionMap, endpoint: string, stable: nat, t: Tenant, now: nat) {
    && Bound(k, endpoint, t, now)
    && IsCurrent(s, endpoint, stable)
    && (s[endpoint].tenant.Some? ==> Renews(k, s[endpoint].tenant.value, t))
  }

  predicate AcceptsOnce(s: SessionMap, endpoint: string, stable: nat) {
    IsCurrent(s, endpoint, stable) && s[endpoint].tenant.None?
  }

  function Proved(s: SessionMap, endpoint: string, t: Tenant): SessionMap
    requires endpoint in s
  {
    s[endpoint := s[endpoint].(tenant := Some(t))]
  }

  datatype Op =
    | Begin(endpoint: string, stable: nat)
    | ProveOnce(endpoint: string, stable: nat, tenant: Tenant)
    | ProveBound(endpoint: string, stable: nat, tenant: Tenant, now: nat)
    | Remove(endpoint: string, stable: nat)

  predicate Accepted(k: Checks, s: SessionMap, op: Op) {
    match op
    case Begin(e, _) => e !in s
    case ProveOnce(e, stable, _) => AcceptsOnce(s, e, stable)
    case ProveBound(e, stable, t, now) => AcceptsBound(k, s, e, stable, t, now)
    case Remove(e, stable) => IsCurrent(s, e, stable)
  }

  function Applied(k: Checks, s: SessionMap, op: Op): SessionMap {
    if !Accepted(k, s, op) then s
    else
      match op
      case Begin(e, stable) => s[e := Session(stable, None)]
      case ProveOnce(e, _, t) => Proved(s, e, t)
      case ProveBound(e, _, t, _) => Proved(s, e, t)
      case Remove(e, _) => s - {e}
  }

  class TenantSessions {
    var sessions: SessionMap

    constructor ()
      ensures sessions == map[]
    {
      sessions := map[];
    }

    method Begin(k: Checks, endpoint: string, stable: nat) returns (ok: bool)
      modifies this
      ensures var op := Op.Begin(endpoint, stable);
              ok == Accepted(k, old(sessions), op) && sessions == Applied(k, old(sessions), op)
    {
      if endpoint in sessions {
        return false;
      }
      sessions := sessions[endpoint := Session(stable, None)];
      ok := true;
    }

    method ProveOnce(k: Checks, endpoint: string, stable: nat, tenant: Tenant) returns (ok: bool)
      modifies this
      ensures var op := Op.ProveOnce(endpoint, stable, tenant);
              ok == Accepted(k, old(sessions), op) && sessions == Applied(k, old(sessions), op)
    {
      if endpoint !in sessions || sessions[endpoint].stable != stable || sessions[endpoint].tenant.Some? {
        return false;
      }
      sessions := sessions[endpoint := sessions[endpoint].(tenant := Some(tenant))];
      ok := true;
    }

    method Proven(endpoint: string, stable: nat) returns (tenant: Option<Tenant>)
      ensures tenant == if IsCurrent(sessions, endpoint, stable) then sessions[endpoint].tenant else None
    {
      if endpoint !in sessions || sessions[endpoint].stable != stable {
        return None;
      }
      tenant := sessions[endpoint].tenant;
    }

    method ProveBound(k: Checks, endpoint: string, stable: nat, tenant: Tenant, now: nat) returns (ok: bool)
      modifies this
      ensures var op := Op.ProveBound(endpoint, stable, tenant, now);
              ok == Accepted(k, old(sessions), op) && sessions == Applied(k, old(sessions), op)
    {
      var parsed := k.decode(tenant.credential);
      if parsed.None? || !k.canonical(parsed.value.signer) {
        return false;
      }
      var id := parsed.value;
      if !VerifySession(k, id, tenant.owner, tenant.manifest, endpoint, id.signer, now) {
        return false;
      }
      if endpoint !in sessions || sessions[endpoint].stable != stable {
        return false;
      }
      var session := sessions[endpoint];
      if session.tenant.Some? {
        var previous := k.decode(session.tenant.value.credential);
        if previous.None? || session.tenant.value.owner != tenant.owner
           || session.tenant.value.manifest != tenant.manifest
           || previous.value.delegation.workload != id.delegation.workload || previous.value.signer != id.signer {
          return false;
        }
        if id.issuedAt < previous.value.issuedAt || id.expiresAt < previous.value.expiresAt {
          return false;
        }
      }
      sessions := sessions[endpoint := session.(tenant := Some(tenant))];
      ok := true;
    }

    method ProvenLive(k: Checks, endpoint: string, stable: nat, now: nat) returns (tenant: Option<Tenant>)
      ensures tenant.Some? <==>
              && IsCurrent(sessions, endpoint, stable) && sessions[endpoint].tenant.Some?
              && Authentic(k, endpoint, sessions[endpoint].tenant.value, now)
      ensures tenant.Some? ==> tenant == sessions[endpoint].tenant
    {
      tenant := Proven(endpoint, stable);
      if tenant.Some? {
        var parsed := k.decode(tenant.value.credential);
        if parsed.None? || !k.canonical(parsed.value.signer)
           || !VerifySession(k, parsed.value, tenant.value.owner, tenant.value.manifest, endpoint,
                             parsed.value.signer, now) {
          tenant := None;
        }
      }
    }

    method RemoveIfCurrent(k: Checks, endpoint: string, stable: nat)
      modifies this
      ensures sessions == Applied(k, old(sessions), Remove(endpoint, stable))
    {
      if endpoint in sessions && sessions[endpoint].stable == stable {
        sessions := sessions - {endpoint};
      }
    }
  }

  /** Operations on different connections commute, in what they leave and in whether they succeed. */
  lemma DistinctOpsCommute(k: Checks, s: SessionMap, a: Op, b: Op)
    requires a.endpoint != b.endpoint
    ensures Applied(k, Applied(k, s, a), b) == Applied(k, Applied(k, s, b), a)
    ensures Accepted(k, Applied(k, s, a), b) == Accepted(k, s, b)
  {
    hide Bound, Renews;
    AppliedElsewhere(k, s, a, b.endpoint);
    AppliedElsewhere(k, s, b, a.endpoint);
    var ab, ba := Applied(k, Applied(k, s, a), b), Applied(k, Applied(k, s, b), a);
    AppliedElsewhere(k, Applied(k, s, a), b, a.endpoint);
    AppliedElsewhere(k, Applied(k, s, b), a, b.endpoint);
    forall e ensures (e in ab <==> e in ba) && (e in ab ==> ab[e] == ba[e]) {
      AppliedElsewhere(k, s, a, e);
      AppliedElsewhere(k, s, b, e);
      AppliedElsewhere(k, Applied(k, s, a), b, e);
      AppliedElsewhere(k, Applied(k, s, b), a, e);
    }
  }

  lemma AppliedElsewhere(k: Checks, s: SessionMap, op: Op, e: string)
    ensures e != op.endpoint ==>
              (e in Applied(k, s, op) <==> e in s) && (e in s ==> Applied(k, s, op)[e] == s[e])
  {
    hide Bound, Renews;
  }

  // ---- the proxy's connections ----

  datatype Proxy = Proxy(connections: map<string, nat>, sessions: SessionMap)

  const IDLE := Proxy(map[], map[])

  datatype Step = Open(endpoint: string, stable: nat) | Close(endpoint: string, stable: nat) | Prove(op: Op)

  /** Proofs arrive on streams; sessions begin and end only with connections. */
  predicate IsProof(op: Op) {
    op.ProveOnce? || op.ProveBound?
  }

  function Next(k: Checks, p: Proxy, step: Step): Proxy {
    match step
    case Open(e, stable) =>
      if e in p.connections || |p.connections| >= MAX_WORKLOAD_CONNECTIONS then p
      else if Accepted(k, p.sessions, Begin(e, stable))
      then Proxy(p.connections[e := stable], Applied(k, p.sessions, Begin(e, stable)))
      else p
    case Close(e, stable) =>
      if e in p.connections && p.connections[e] == stable
      then Proxy(p.connections - {e}, Applied(k, p.sessions, Remove(e, stable)))
      else p
    case Prove(op) => if IsProof(op) then p.(sessions := Applied(k, p.sessions, op)) else p
  }

  class ConnectionRegistry {
    var connections: map<string, nat>
    const tenants: TenantSessions

    ghost function Contents(): Proxy
      reads this, tenants
    {
      Proxy(connections, tenants.sessions)
    }

    constructor ()
      ensures Contents() == IDLE && fresh(tenants)
    {
      connections := map[];
      tenants := new TenantSessions();
    }

    /** `register_connection` up to the loop over streams; both maps change under one lock. */
    method Open(k: Checks, remote: string, stable: nat) returns (ok: bool)
      modifies this, tenants
      ensures Contents() == Next(k, old(Contents()), Step.Open(remote, stable))
      ensures ok <==> remote !in old(connections) && |old(connections)| < MAX_WORKLOAD_CONNECTIONS
                      && remote !in old(tenants.sessions)
      ensures ok ==> IsCurrent(tenants.sessions, remote, stable) && tenants.sessions[remote].tenant.None?
    {
      if remote !in connections && |connections| >= MAX_WORKLOAD_CONNECTIONS {
        return false;
      }
      if remote in connections {
        return false;
      }
      connections := connections[remote := stable];
      ok := tenants.Begin(k, remote, stable);
      if !ok {
        connections := connections - {remote};
        assert connections == old(connections);
      }
    }

    /** The end of a connection's task. */
    method Close(k: Checks, remote: string, stable: nat)
      modifies this, tenants
      ensures Contents() == Next(k, old(Contents()), Step.Close(remote, stable))
    {
      if remote in connections && connections[remote] == stable {
        tenants.RemoveIfCurrent(k, remote, stable);
        connections := connections - {remote};
      }
    }
  }

  // ---- every run ----

  datatype Run = Start | Then(before: Run, step: Step)

  function Last(k: Checks, run: Run): Proxy {
    match run
    case Start => IDLE
    case Then(before, step) => Next(k, Last(k, before), step)
  }

  /** The two maps have the same endpoints with the same generations, and stay within the limit. */
  ghost predicate Agree(p: Proxy) {
    && p.connections.Keys == p.sessions.Keys
    && (forall e | e in p.connections :: p.connections[e] == p.sessions[e].stable)
    && |p.connections| <= MAX_WORKLOAD_CONNECTIONS
  }

  lemma OpenAgrees(k: Checks, p: Proxy, e: string, stable: nat)
    requires Agree(p)
    ensures Agree(Next(k, p, Open(e, stable)))
  {
    var p' := Next(k, p, Open(e, stable));
    if p' != p {
      assert p'.connections.Keys == p.connections.Keys + {e};
    }
  }

  lemma CloseAgrees(k: Checks, p: Proxy, e: string, stable: nat)
    requires Agree(p)
    ensures Agree(Next(k, p, Close(e, stable)))
  {
    var p' := Next(k, p, Close(e, stable));
    if p' != p {
      assert p'.connections.Keys == p.connections.Keys - {e};
      assert p'.sessions.Keys == p.sessions.Keys - {e};
    }
  }

  lemma ProofAgrees(k: Checks, p: Proxy, op: Op)
    requires Agree(p)
    ensures Agree(Next(k, p, Prove(op)))
  {
    hide Bound, Renews;
    assert IsProof(op) ==> Applied(k, p.sessions, op).Keys == p.sessions.Keys;
  }

  lemma StepAgrees(k: Checks, p: Proxy, step: Step)
    requires Agree(p)
    ensures Agree(Next(k, p, step))
  {
    hide Agree, Next;
    match step
    case Open(e, stable) => OpenAgrees(k, p, e, stable);
    case Close(e, stable) => CloseAgrees(k, p, e, stable);
    case Prove(op) => ProofAgrees(k, p, op);
  }

  lemma {:induction false} MapsAgree(k: Checks, run: Run)
    ensures Agree(Last(k, run))
  {
    hide Next, Agree;
    match run
    case Start => IdleAgrees();
    case Then(before, step) =>
      MapsAgree(k, before);
      StepAgrees(k, Last(k, before), step);
  }

  lemma IdleAgrees()
    ensures Agree(IDLE)
  {
  }

  /** Whenever the registry has room for an endpoint it does not know, beginning its session succeeds: the
      rollback path after a failed `begin` is never taken. */
  lemma BeginNeverFails(k: Checks, run: Run, e: string, stable: nat)
    requires e !in Last(k, run).connections
    ensures Accepted(k, Last(k, run).sessions, Begin(e, stable))
  {
    MapsAgree(k, run);
  }

  function EndpointOf(step: Step): string {
    if step.Prove? then step.op.endpoint else step.endpoint
  }

  function GenerationOf(step: Step): nat {
    if step.Prove? then step.op.stable else step.stable
  }

  /** A step of a connection that is not the endpoint's current one changes nothing; nor does opening an
      endpoint that is already connected. */
  lemma StaleChangesNothing(k: Checks, run: Run, step: Step)
    requires var s := Last(k, run).sessions;
             if step.Open? then step.endpoint in s else !IsCurrent(s, EndpointOf(step), GenerationOf(step))
    ensures Next(k, Last(k, run), step) == Last(k, run)
  {
    hide Bound, Renews;
    MapsAgree(k, run);
  }

  /** The endpoint has had a proven session, without a break, since some earlier point. */
  predicate ProvenSince(k: Checks, later: Run, point: Run, e: string) {
    && e in Last(k, later).sessions && Last(k, later).sessions[e].tenant.Some?
    && (later == point || (later.Then? && ProvenSince(k, later.before, point, e)))
  }

  lemma ProvenStep(k: Checks, p: Proxy, step: Step, e: string)
    requires Agree(p) && e in p.sessions && p.sessions[e].tenant.Some?
    requires var s := Next(k, p, step).sessions; e in s && s[e].tenant.Some?
    ensures var s := Next(k, p, step).sessions;
            s[e].stable == p.sessions[e].stable
            && (s[e].tenant == p.sessions[e].tenant || Renews(k, p.sessions[e].tenant.value, s[e].tenant.value))
  {
    hide Bound, Renews;
  }

  lemma {:induction false} RenewedThroughout(k: Checks, later: Run, point: Run, e: string)
    requires ProvenSince(k, later, point, e)
    ensures e in Last(k, point).sessions && Last(k, point).sessions[e].tenant.Some?
    ensures Last(k, later).sessions[e].stable == Last(k, point).sessions[e].stable
    ensures var a, b := Last(k, point).sessions[e].tenant.value, Last(k, later).sessions[e].tenant.value;
            a == b || Renews(k, a, b)
  {
    hide Next, Renews, Agree;
    if later != point {
      RenewedThroughout(k, later.before, point, e);
      MapsAgree(k, later.before);
      ProvenStep(k, Last(k, later.before), later.step, e);
      RenewsTransitively(k, Last(k, point).sessions[e].tenant.value, Last(k, later.before).sessions[e].tenant.value,
                         Last(k, later).sessions[e].tenant.value);
    }
  }

  /** Within one proven session the generation, owner, manifest, workload and signer never change, and issue
      and expiry times never go back. */
  lemma SessionIdentityIsFixed(k: Checks, later: Run, point: Run, e: string)
    requires ProvenSince(k, later, point, e)
    ensures e in Last(k, point).sessions && Last(k, point).sessions[e].tenant.Some?
    ensures Last(k, later).sessions[e].stable == Last(k, point).sessions[e].stable
    ensures var a, b := Last(k, point).sessions[e].tenant.value, Last(k, later).sessions[e].tenant.value;
            && a.owner == b.owner && a.manifest == b.manifest
            && (|| a.credential == b.credential
                || (&& k.decode(a.credential).Some? && k.decode(b.credential).Some?
                    && var x, y := k.decode(a.credential).value, k.decode(b.credential).value;
                       && x.delegation.workload == y.delegation.workload
                       && x.signer == y.signer
                       && x.issuedAt <= y.issuedAt
                       && x.expiresAt <= y.expiresAt))
  {
    hide Next, Agree;
    RenewedThroughout(k, later, point, e);
  }

  lemma RenewsTransitively(k: Checks, a: Tenant, b: Tenant, c: Tenant)
    ensures Renews(k, a, b) && Renews(k, b, c) ==> Renews(k, a, c)
  {
  }

  /** The accepted proof behind a session: the last one since its connection opened. */
  function ProofBehind(k: Checks, run: Run, e: string): Option<Op> {
    match run
    case Start => None
    case Then(before, step) =>
      var p := Last(k, before);
      if step.Prove? && IsProof(step.op) && step.op.endpoint == e && Accepted(k, p.sessions, step.op) then Some(step.op)
      else if step.Close? && step.endpoint == e && e in p.connections && p.connections[e] == step.stable then None
      else ProofBehind(k, before, e)
  }

  predicate Justified(s: SessionMap, e: string, proof: Option<Op>) {
    if e in s && s[e].tenant.Some?
    then proof.Some? && IsProof(proof.value) && s[e] == Session(proof.value.stable, Some(proof.value.tenant))
    else proof.None?
  }

  lemma JustifiedOpen(k: Checks, before: Run, step: Step, e: string)
    requires Agree(Last(k, before)) && Justified(Last(k, before).sessions, e, ProofBehind(k, before, e)) && step.Open?
    ensures Justified(Last(k, Then(before, step)).sessions, e, ProofBehind(k, Then(before, step), e))
  {
  }

  lemma CloseEffect(k: Checks, p: Proxy, e: string, stable: nat)
    requires Agree(p)
    ensures Next(k, p, Close(e, stable)).sessions ==
            if e in p.connections && p.connections[e] == stable then p.sessions - {e} else p.sessions
  {
  }

  lemma JustifiedClose(k: Checks, before: Run, step: Step, e: string)
    requires Agree(Last(k, before)) && Justified(Last(k, before).sessions, e, ProofBehind(k, before, e)) && step.Close?
    ensures Justified(Last(k, Then(before, step)).sessions, e, ProofBehind(k, Then(before, step), e))
  {
    CloseEffect(k, Last(k, before), step.endpoint, step.stable);
    hide Agree, Next, Accepted;
  }

  lemma JustifiedProof(k: Checks, before: Run, step: Step, e: string)
    requires Justified(Last(k, before).sessions, e, ProofBehind(k, before, e)) && step.Prove?
    ensures Justified(Last(k, Then(before, step)).sessions, e, ProofBehind(k, Then(before, step), e))
  {
    hide Bound, Renews;
  }

  lemma JustifiedStep(k: Checks, before: Run, step: Step, e: string)
    requires Agree(Last(k, before)) && Justified(Last(k, before).sessions, e, ProofBehind(k, before, e))
    ensures Justified(Last(k, Then(before, step)).sessions, e, ProofBehind(k, Then(before, step), e))
  {
    hide Agree, Justified, Last, ProofBehind;
    match step
    case Open(_, _) => JustifiedOpen(k, before, step, e);
    case Close(_, _) => JustifiedClose(k, before, step, e);
    case Prove(_) => JustifiedProof(k, before, step, e);
  }

  lemma {:induction false} ProofWasAccepted(k: Checks, run: Run, e: string)
    requires ProofBehind(k, run, e).Some? && ProofBehind(k, run, e).value.ProveBound?
    ensures var op := ProofBehind(k, run, e).value;
            op.endpoint == e && Authentic(k, e, op.tenant, op.now)
  {
    hide Next, Renews;
    match run
    case Then(before, step) =>
      if step.Prove? && IsProof(step.op) && step.op.endpoint == e && Accepted(k, Last(k, before).sessions, step.op) {
        BoundIsAuthentic(k, e, step.op.tenant, step.op.now);
      } else {
        ProofWasAccepted(k, before, e);
      }
  }

  lemma BoundIsAuthentic(k: Checks, endpoint: string, t: Tenant, now: nat)
    requires Bound(k, endpoint, t, now)
    ensures Authentic(k, endpoint, t, now)
  {
  }

  /** A tenant is on record exactly when a proof for this connection was accepted since it opened, and it is
      the tenant of the last such proof. */
  lemma {:induction false} TenantsAreProven(k: Checks, run: Run, e: string)
    ensures Justified(Last(k, run).sessions, e, ProofBehind(k, run, e))
  {
    hide Next, Agree;
    match run
    case Start =>
    case Then(before, step) =>
      TenantsAreProven(k, before, e);
      MapsAgree(k, before);
      JustifiedStep(k, before, step, e);
  }

  /** A tenant that a bound proof put on record was authentic for this very endpoint when it was accepted. */
  lemma BoundTenantsAreAuthentic(k: Checks, run: Run, e: string)
    requires ProofBehind(k, run, e).Some? && ProofBehind(k, run, e).value.ProveBound?
    ensures e in Last(k, run).sessions && Last(k, run).sessions[e].tenant.Some?
    ensures Authentic(k, e, Last(k, run).sessions[e].tenant.value, ProofBehind(k, run, e).value.now)
  {
    hide Next, Authentic;
    TenantsAreProven(k, run, e);
    ProofWasAccepted(k, run, e);
  }

  /** A bound proof is accepted exactly on the endpoint's current connection, when it is authentic and, if a tenant is
      on record, is for the same owner, manifest, workload and signer with no earlier times. */
  lemma BoundAcceptedExactly(k: Checks, s: SessionMap, e: string, stable: nat, t: Tenant, now: nat)
    ensures Accepted(k, s, ProveBound(e, stable, t, now)) <==>
            && e in s && s[e].stable == stable && Authentic(k, e, t, now)
            && (|| s[e].tenant.None?
                || (&& s[e].tenant.value.owner == t.owner && s[e].tenant.value.manifest == t.manifest
                    && k.decode(s[e].tenant.value.credential).Some?
                    && var x, y := k.decode(s[e].tenant.value.credential).value, k.decode(t.credential).value;
                       && x.delegation.workload == y.delegation.workload && x.signer == y.signer
                       && x.issuedAt <= y.issuedAt && x.expiresAt <= y.expiresAt))
  {
    if Bound(k, e, t, now) {
      BoundIsAuthentic(k, e, t, now);
    }
  }
}
