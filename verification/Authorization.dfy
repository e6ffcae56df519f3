/** The credential a sidecar holds (`podmesh-sidecar/src/authorization.rs`), and why the proxy keeps
    accepting its renewals (`podmesh-proxy/src/tenant_sessions.rs`).
 */
module Authorization {
  import opened Options
  import opened Identities
  import opened Sessions

  datatype Holder = Holder(delegation: Delegation, endpoint: string, signer: string, current: Option<Identity>)

  predicate Names(h: Holder, id: Identity) {
    id.delegation == h.delegation && id.endpoint == h.endpoint && id.signer == h.signer
  }

  predicate Installs(k: Checks, h: Holder, id: Identity, now: nat) {
    && id.delegation == h.delegation
    && VerifySession(k, id, h.delegation.owner, h.delegation.manifest, h.endpoint, h.signer, now)
    && (h.current.Some? ==> NoRegress(h.current.value, id))
  }

  function Installed(k: Checks, h: Holder, id: Identity, now: nat): Holder {
    if Installs(k, h, id, now) then h.(current := Some(id)) else h
  }

  // ---- configuring a connector ----

  /** What the configured text decodes to. */
  datatype Encoded = FullIdentity(id: Identity) | OnlyDelegation(delegation: Delegation) | Unreadable

  /** What configuration takes as given besides `Checks`: `authentic` is `verify(None)` of an identity, and
      `signed` the signature check of a delegation. */
  datatype Proofs = Proofs(authentic: Identity -> bool, signed: Delegation -> bool)

  /** The scope a connector is configured for. */
  datatype Scope = Scope(owner: string, manifest: string, workload: string)

  predicate InScope(p: Proofs, d: Delegation, scope: Scope) {
    p.signed(d) && d.owner == scope.owner && d.manifest == scope.manifest && d.workload == scope.workload
  }

  /** The connector that results, or nothing for an error: the text must decode, a full identity must be authentic
      and name this connector, and the delegation must be for the configured scope. */
  function Configured(p: Proofs, encoded: Encoded, scope: Scope, endpoint: string, signer: string): Option<Holder> {
    match encoded
    case FullIdentity(id) =>
      if p.authentic(id) && id.endpoint == endpoint && id.signer == signer && InScope(p, id.delegation, scope)
      then Some(Holder(id.delegation, endpoint, signer, Some(id))) else None
    case OnlyDelegation(d) => if InScope(p, d, scope) then Some(Holder(d, endpoint, signer, None)) else None
    case Unreadable => None
  }

  /** `WorkloadAuthorization::new`; `null` is an error.  A connector starts out in the configured scope, holding
      nothing or an identity that names it. */
  method Configure(p: Proofs, encoded: Encoded, scope: Scope, endpoint: string, signer: string)
    returns (authorization: WorkloadAuthorization?)
    ensures authorization == null <==> Configured(p, encoded, scope, endpoint, signer).None?
    ensures authorization == null <==>
            match encoded
            case FullIdentity(id) =>
              !(p.authentic(id) && id.endpoint == endpoint && id.signer == signer && p.signed(id.delegation)
                && id.delegation.owner == scope.owner && id.delegation.manifest == scope.manifest
                && id.delegation.workload == scope.workload)
            case OnlyDelegation(d) =>
              !(p.signed(d) && d.owner == scope.owner && d.manifest == scope.manifest && d.workload == scope.workload)
            case Unreadable => true
    ensures authorization != null && encoded.FullIdentity? ==>
              authorization.delegation == encoded.id.delegation && authorization.current == Some(encoded.id)
    ensures authorization != null && encoded.OnlyDelegation? ==>
              authorization.delegation == encoded.delegation && authorization.current == None
    ensures authorization != null ==>
              && fresh(authorization)
              && authorization.Contents() == Configured(p, encoded, scope, endpoint, signer).value
              && Starts(authorization.Contents()) && InScope(p, authorization.delegation, scope)
              && authorization.endpoint == endpoint && authorization.signer == signer
  {
    var delegation: Delegation;
    var initial: Option<Identity> := None;
    match encoded {
      case FullIdentity(id) =>
        if !p.authentic(id) {
          return null;
        }
        if id.endpoint != endpoint || id.signer != signer {
          return null;
        }
        delegation, initial := id.delegation, Some(id);
      case OnlyDelegation(d) =>
        delegation := d;
      case Unreadable =>
        return null;
    }
    if !InScope(p, delegation, scope) {
      return null;
    }
    authorization := new WorkloadAuthorization(Holder(delegation, endpoint, signer, initial));
  }

  class WorkloadAuthorization {
    const delegation: Delegation
    const endpoint: string
    const signer: string
    var current: Option<Identity>

    ghost function Contents(): Holder
      reads this
    {
      Holder(delegation, endpoint, signer, current)
    }

    constructor (h: Holder)
      ensures Contents() == h
    {
      delegation, endpoint, signer, current := h.delegation, h.endpoint, h.signer, h.current;
    }

    /** `changed` is whether watchers are notified. */
    method Install(k: Checks, id: Identity, now: nat) returns (ok: bool, changed: bool)
      modifies this
      ensures ok == Installs(k, old(Contents()), id, now)
      ensures Contents() == Installed(k, old(Contents()), id, now)
      ensures changed <==> Contents() != old(Contents())
    {
      if id.delegation != delegation
         || !VerifySession(k, id, delegation.owner, delegation.manifest, endpoint, signer, now) {
        return false, false;
      }
      if current.Some?
         && (current.value.issuedAt > id.issuedAt || current.value.expiresAt > id.expiresAt) {
        return false, false;
      }
      if current == Some(id) {
        return true, false;
      }
      current := Some(id);
      ok, changed := true, true;
    }

    /** Anything presented is the encoding of the identity held, and verifies for this connector at the time. */
    method Credential(k: Checks, now: nat) returns (credential: Option<string>)
      ensures credential == Presented(k, Contents(), now)
    {
      if current.None?
         || !VerifySession(k, current.value, delegation.owner, delegation.manifest, endpoint, signer, now) {
        return None;
      }
      credential := Some(k.encode(current.value));
    }
  }

  function Presented(k: Checks, h: Holder, now: nat): Option<string> {
    if h.current.Some?
       && VerifySession(k, h.current.value, h.delegation.owner, h.delegation.manifest, h.endpoint, h.signer, now)
    then Some(k.encode(h.current.value)) else None
  }

  // ---- a sidecar and its session ----

  /** One connection: what the sidecar holds and what the proxy has on record for it. */
  datatype Link = Link(holder: Holder, session: Option<Tenant>)

  /** `sent` and `checked` are the sidecar's and the proxy's clocks. */
  datatype Move = Renew(id: Identity, now: nat) | Present(sent: nat, checked: nat) | Reconnect

  function TenantOf(h: Holder, credential: string): Tenant {
    Tenant(h.delegation.owner, h.delegation.manifest, credential)
  }

  /** The proxy's session map as far as this connection is concerned. */
  function AsSessions(l: Link): SessionMap {
    map[l.holder.endpoint := Session(0, l.session)]
  }

  function Moved(k: Checks, l: Link, move: Move): Link {
    match move
    case Renew(id, now) => l.(holder := Installed(k, l.holder, id, now))
    case Present(sent, checked) =>
      var credential := Presented(k, l.holder, sent);
      if credential.None? then l
      else
        var op := ProveBound(l.holder.endpoint, 0, TenantOf(l.holder, credential.value), checked);
        l.(session := Applied(k, AsSessions(l), op)[l.holder.endpoint].tenant)
    case Reconnect => l.(session := None)
  }

  datatype Moves = Fresh(holder: Holder) | Also(before: Moves, move: Move)

  function Reached(k: Checks, moves: Moves): Link {
    match moves
    case Fresh(holder) => Link(holder, None)
    case Also(before, move) => Moved(k, Reached(k, before), move)
  }

  function Beginning(moves: Moves): Holder {
    match moves
    case Fresh(holder) => holder
    case Also(before, _) => Beginning(before)
  }

  /** The codec round-trips, and the sidecar's own key is encoded canonically. */
  ghost predicate Sound(k: Checks, signer: string) {
    (forall id :: k.decode(k.encode(id)) == Some(id)) && k.canonical(signer)
  }

  predicate Starts(h: Holder) {
    h.current.Some? ==> Names(h, h.current.value)
  }

  /** The proxy's record is an earlier credential of this sidecar's, never ahead of the current one. */
  predicate InStep(k: Checks, l: Link) {
    && Starts(l.holder)
    && (l.session.Some? ==>
          && l.holder.current.Some?
          && l.session.value.owner == l.holder.delegation.owner
          && l.session.value.manifest == l.holder.delegation.manifest
          && k.decode(l.session.value.credential).Some?
          && var past := k.decode(l.session.value.credential).value;
             Names(l.holder, past) && NoRegress(past, l.holder.current.value))
  }

  lemma MoveKeepsStep(k: Checks, l: Link, move: Move)
    requires InStep(k, l) && Sound(k, l.holder.signer)
    ensures InStep(k, Moved(k, l, move))
    ensures var l' := Moved(k, l, move);
            l'.holder == l.holder.(current := l'.holder.current)
            && (l.holder.current.Some? ==>
                  l'.holder.current.Some? && NoRegress(l.holder.current.value, l'.holder.current.value))
  {
  }

  lemma {:induction false} StaysInStep(k: Checks, moves: Moves)
    requires Starts(Beginning(moves)) && Sound(k, Beginning(moves).signer)
    ensures InStep(k, Reached(k, moves))
    ensures Reached(k, moves).holder == Beginning(moves).(current := Reached(k, moves).holder.current)
  {
    hide InStep, Moved, Sound;
    match moves
    case Fresh(holder) => FreshInStep(k, holder);
    case Also(before, move) =>
      StaysInStep(k, before);
      MoveKeepsStep(k, Reached(k, before), move);
  }

  lemma FreshInStep(k: Checks, h: Holder)
    requires Starts(h)
    ensures InStep(k, Link(h, None))
  {
  }

  /** Whatever installs, presentations and reconnects came before, a credential the sidecar presents is
      accepted by the proxy if and only if it is valid by the proxy's clock: no renewal the sidecar accepts is
      ever refused as a change of identity or a step back. */
  lemma RenewalsAreAccepted(k: Checks, moves: Moves, sent: nat, checked: nat)
    requires Starts(Beginning(moves)) && Sound(k, Beginning(moves).signer)
    requires Presented(k, Reached(k, moves).holder, sent).Some?
    ensures var l := Reached(k, moves);
            var t := TenantOf(l.holder, Presented(k, l.holder, sent).value);
            AcceptsBound(k, AsSessions(l), l.holder.endpoint, 0, t, checked)
            <==> k.valid(l.holder.current.value, checked)
  {
    StaysInStep(k, moves);
  }

  /** An identity under the configured delegation that names this connector, is valid now and takes no time back is
      installed, and then presented exactly while it stays valid; any other leaves what was held. */
  lemma InstalledIsPresented(k: Checks, h: Holder, id: Identity, now: nat, later: nat)
    ensures var allowed := && id.delegation == h.delegation && id.endpoint == h.endpoint && id.signer == h.signer
                           && k.valid(id, now)
                           && (h.current.None? || (h.current.value.issuedAt <= id.issuedAt
                                                   && h.current.value.expiresAt <= id.expiresAt));
            var after := Installed(k, h, id, now);
            && (Installs(k, h, id, now) <==> allowed)
            && (if allowed then Presented(k, after, later) == if k.valid(id, later) then Some(k.encode(id)) else None
                else after == h)
  {
  }

  predicate Extends(later: Moves, point: Moves) {
    later == point || (later.Also? && Extends(later.before, point))
  }

  /** Authority held by the sidecar never goes back. */
  lemma {:induction false} AuthorityNeverRegresses(k: Checks, later: Moves, point: Moves)
    requires Extends(later, point) && Starts(Beginning(later)) && Sound(k, Beginning(later).signer)
    requires Reached(k, point).holder.current.Some?
    ensures Reached(k, later).holder.current.Some?
    ensures var h, a, b := Reached(k, point).holder, Reached(k, point).holder.current.value,
                           Reached(k, later).holder.current.value;
            && a.issuedAt <= b.issuedAt && a.expiresAt <= b.expiresAt
            && b.delegation == h.delegation && b.endpoint == h.endpoint && b.signer == h.signer
  {
    hide Moved, Sound;
    SameBeginning(later, point);
    StaysInStep(k, later);
    StaysInStep(k, point);
    if later != point {
      AuthorityNeverRegresses(k, later.before, point);
      StaysInStep(k, later.before);
      MoveKeepsStep(k, Reached(k, later.before), later.move);
    }
  }

  lemma {:induction false} SameBeginning(later: Moves, point: Moves)
    requires Extends(later, point)
    ensures Beginning(later) == Beginning(point)
  {
    if later != point {
      SameBeginning(later.before, point);
    }
  }
}
