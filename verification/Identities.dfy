/** Endpoint-bound workload credentials (`shared/protocol/src/workload_identity.rs`), reduced to what
    the proxy's sessions and the sidecar's authorization compare.
 */
module Identities {
  import opened Options

  /** An owner's enrollment delegation; `rest` stands for its remaining fields. */
  datatype Delegation = Delegation(owner: string, manifest: string, workload: string, rest: string)

  /** `signer` is the encoded application key; `seal` stands for the signature. */
  datatype Identity = Identity(delegation: Delegation, endpoint: string, signer: string,
                               issuedAt: nat, expiresAt: nat, seal: string)

  /** What this model takes as given: `valid` is `verify(Some(now))`, `decode` and `encode` are the credential
      codec, and `canonical` says that an encoded key decodes and encodes back to itself. */
  datatype Checks = Checks(valid: (Identity, nat) -> bool, decode: string -> Option<Identity>,
                           encode: Identity -> string, canonical: string -> bool)

  predicate VerifySession(k: Checks, id: Identity, owner: string, manifest: string, endpoint: string,
                          signer: string, now: nat)
  {
    && id.delegation.owner == owner && id.delegation.manifest == manifest
    && id.endpoint == endpoint
    && id.signer == signer
    && k.valid(id, now)
  }

  /** The later credential grants at least as long, from no earlier. */
  predicate NoRegress(before: Identity, after: Identity) {
    before.issuedAt <= after.issuedAt && before.expiresAt <= after.expiresAt
  }
}
