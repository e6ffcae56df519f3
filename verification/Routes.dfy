/** The proxy's routing table and who may write to it (`podmesh-proxy/src/routes.rs`).

    The table's operations are functions on a value `Table`; class `RouteTable` runs them in place.
    A `History` is the list of calls a table has seen, and the main results hold of every history.
 */
module Routes {
  import opened Quantities
  import opened Options
  import opened Selection

  datatype Entry = Entry(owner: string, name: string, replicaCount: nat, backends: map<nat, Backend>, cursor: U64)

  datatype Claim = Claim(manifest: string, owner: string, registeredAt: U64)

  datatype Table = Table(entries: map<string, Entry>, claims: map<string, Claim>)

  const EMPTY := Table(map[], map[])

  datatype Registration = Registration(manifest: string, owner: string, name: string, replica: nat,
                                       replicaCount: nat, peer: string, routes: seq<Route>)

  datatype Outcome = Accepted | OtherOwner | Full | HostTaken

  /** The hostnames a registration claims. */
  function Hosts(routes: seq<Route>): set<string> {
    set r | r in routes && r.host != "" :: Lower(r.host)
  }

  /** Why a registration is refused, or `Accepted`. */
  function Judge(t: Table, reg: Registration, max: nat): Outcome {
    if reg.manifest in t.entries && t.entries[reg.manifest].owner != reg.owner then OtherOwner
    else if reg.manifest !in t.entries && |t.entries| >= max then Full
    else if exists h | h in Hosts(reg.routes) :: h in t.claims && t.claims[h].owner != reg.owner then HostTaken
    else Accepted
  }

  function Claimed(claims: map<string, Claim>, hosts: set<string>, claim: Claim): map<string, Claim> {
    map h | h in claims.Keys + hosts :: if h in hosts then claim else claims[h]
  }

  function Refreshed(entries: map<string, Entry>, reg: Registration, at: U64): Entry {
    var entry := if reg.manifest in entries then entries[reg.manifest]
                 else Entry(reg.owner, reg.name, reg.replicaCount, map[], 0);
    entry.(replicaCount := reg.replicaCount,
           backends := entry.backends[reg.replica := Backend(reg.peer, reg.routes, at)])
  }

  function Registered(t: Table, reg: Registration, at: U64, max: nat): Table {
    if Judge(t, reg, max) != Accepted then t
    else Table(t.entries[reg.manifest := Refreshed(t.entries, reg, at)],
               Claimed(t.claims, Hosts(reg.routes), Claim(reg.manifest, reg.owner, at)))
  }

  predicate Stale(at: U64, now: U64, ttl: U64) {
    SaturatingSub(now, at) > ttl
  }

  function FreshBackends(backends: map<nat, Backend>, now: U64, ttl: U64): map<nat, Backend> {
    map i | i in backends && !Stale(backends[i].registeredAt, now, ttl) :: backends[i]
  }

  function Pruned(t: Table, now: U64, ttl: U64): Table {
    Table(map m | m in t.entries && FreshBackends(t.entries[m].backends, now, ttl) != map[]
            :: t.entries[m].(backends := FreshBackends(t.entries[m].backends, now, ttl)),
          map h | h in t.claims && !Stale(t.claims[h].registeredAt, now, ttl) :: t.claims[h])
  }

  // ---- the table as an object ----

  /** Whether another owner holds one of the hostnames. */
  method AnyTaken(claims: map<string, Claim>, routes: seq<Route>, owner: string) returns (taken: bool)
    ensures taken <==> exists h | h in Hosts(routes) :: h in claims && claims[h].owner != owner
  {
    hide Lower;
    var i := 0;
    while i < |routes|
      invariant 0 <= i <= |routes|
      invariant forall h | h in Hosts(routes[..i]) :: h in claims ==> claims[h].owner == owner
    {
      var host := routes[i].host;
      if host != "" && Lower(host) in claims && claims[Lower(host)].owner != owner {
        assert routes[i] in routes && Lower(host) in Hosts(routes);
        return true;
      }
      HostsStep(routes, i);
      i := i + 1;
    }
    assert routes[..i] == routes;
    taken := false;
  }

  method ClaimHosts(claims: map<string, Claim>, routes: seq<Route>, claim: Claim) returns (next: map<string, Claim>)
    ensures next == Claimed(claims, Hosts(routes), claim)
  {
    hide Lower, Hosts, Claimed;
    next := claims;
    ClaimNone(claims, claim);
    NoHosts();
    var i := 0;
    while i < |routes|
      invariant 0 <= i <= |routes|
      invariant next == Claimed(claims, Hosts(routes[..i]), claim)
    {
      HostsStep(routes, i);
      if routes[i].host != "" {
        ClaimOne(claims, Hosts(routes[..i]), claim, Lower(routes[i].host));
        next := next[Lower(routes[i].host) := claim];
      } else {
        assert Hosts(routes[..i]) + {} == Hosts(routes[..i]);
      }
      i := i + 1;
    }
    assert routes[..i] == routes;
  }

  lemma ClaimOne(claims: map<string, Claim>, hosts: set<string>, claim: Claim, h: string)
    ensures Claimed(claims, hosts, claim)[h := claim] == Claimed(claims, hosts + {h}, claim)
  {
  }

  lemma ClaimNone(claims: map<string, Claim>, claim: Claim)
    ensures Claimed(claims, {}, claim) == claims
  {
  }

  method DropStale(entries: map<string, Entry>, now: U64, ttl: U64) returns (next: map<string, Entry>)
    ensures next == map m | m in entries :: entries[m].(backends := FreshBackends(entries[m].backends, now, ttl))
  {
    hide FreshBackends;
    next := entries;
    var left := entries.Keys;
    while left != {}
      invariant left <= entries.Keys == next.Keys
      invariant forall m | m in left :: next[m] == entries[m]
      invariant forall m | m in entries && m !in left ::
        next[m] == entries[m].(backends := FreshBackends(entries[m].backends, now, ttl))
      decreases left
    {
      var m :| m in left;
      next := next[m := next[m].(backends := FreshBackends(next[m].backends, now, ttl))];
      left := left - {m};
    }
  }

  class RouteTable {
    var entries: map<string, Entry>
    var claims: map<string, Claim>

    ghost function Contents(): Table
      reads this
    {
      Table(entries, claims)
    }

    constructor ()
      ensures Contents() == EMPTY
    {
      entries, claims := map[], map[];
    }

    /** `register_inner`: every hostname is checked before the first claim is written. */
    method Register(reg: Registration, at: U64, max: nat) returns (outcome: Outcome)
      modifies this
      ensures outcome == Judge(old(Contents()), reg, max)
      ensures Contents() == Registered(old(Contents()), reg, at, max)
    {
      hide Hosts, Claimed;
      if reg.manifest in entries && entries[reg.manifest].owner != reg.owner {
        return OtherOwner;
      }
      if reg.manifest !in entries && |entries| >= max {
        return Full;
      }
      var taken := AnyTaken(claims, reg.routes, reg.owner);
      if taken {
        return HostTaken;
      }
      claims := ClaimHosts(claims, reg.routes, Claim(reg.manifest, reg.owner, at));
      var entry := if reg.manifest in entries then entries[reg.manifest]
                   else Entry(reg.owner, reg.name, reg.replicaCount, map[], 0);
      entry := entry.(replicaCount := reg.replicaCount);
      entry := entry.(backends := entry.backends[reg.replica := Backend(reg.peer, reg.routes, at)]);
      entries := entries[reg.manifest := entry];
      outcome := Accepted;
    }

    /** `prune_inner`: a loop drops stale backends, then empty entries and stale claims go. */
    method Prune(now: U64, ttl: U64)
      modifies this
      ensures Contents() == Pruned(old(Contents()), now, ttl)
    {
      hide FreshBackends;
      var swept := DropStale(entries, now, ttl);
      entries := map m | m in swept && swept[m].backends != map[] :: swept[m];
      claims := map h | h in claims && !Stale(claims[h].registeredAt, now, ttl) :: claims[h];
    }

    /** Every backend that can serve the request, rotated by the entry's cursor, which wraps like a `usize`. */
    method Select(m: string, path: string, host: Option<string>) returns (targets: seq<Target>)
      modifies `entries
      ensures m !in old(entries) ==> targets == [] && entries == old(entries)
      ensures m in old(entries) ==>
                exists c :: AreCandidates(c, old(entries)[m].backends, path, host)
                            && Selected(c, old(entries)[m].cursor, targets)
                            && entries == (if c == [] then old(entries) else old(entries)[m := Advanced(old(entries)[m])])
    {
      if m !in entries {
        return [];
      }
      var entry := entries[m];
      var c := Candidates(entry.backends, path, host);
      if c == [] {
        return [];
      }
      var start := Rem(entry.cursor, |c|);
      targets := c[start..] + c[..start];
      entries := entries[m := Advanced(entry)];
    }

    /** The routing key that claimed a hostname. */
    method ResolveHost(host: string) returns (manifest: Option<string>)
      ensures manifest == Resolve(Contents(), host)
    {
      manifest := if Lower(host) in claims then Some(claims[Lower(host)].manifest) else None;
    }
  }

  function Advanced(entry: Entry): Entry {
    entry.(cursor := Rem(entry.cursor + 1, U64_MAX + 1))
  }

  predicate Selected(c: seq<Target>, cursor: U64, targets: seq<Target>) {
    targets == if c == [] then [] else Rotated(c, Rem(cursor, |c|))
  }

  function Resolve(t: Table, host: string): Option<string> {
    if Lower(host) in t.claims then Some(t.claims[Lower(host)].manifest) else None
  }

  lemma NoHosts()
    ensures Hosts([]) == {}
  {
  }

  lemma HostsStep(routes: seq<Route>, i: nat)
    requires i < |routes|
    ensures Hosts(routes[..i + 1]) ==
            Hosts(routes[..i]) + (if routes[i].host != "" then {Lower(routes[i].host)} else {})
  {
    assert routes[..i + 1] == routes[..i] + [routes[i]];
    forall h ensures h in Hosts(routes[..i + 1]) <==>
                     h in Hosts(routes[..i]) || (routes[i].host != "" && h == Lower(routes[i].host))
    {
      if h in Hosts(routes[..i]) {
        var r :| r in routes[..i] && r.host != "" && h == Lower(r.host);
        assert r in routes[..i + 1];
      }
      if routes[i].host != "" && h == Lower(routes[i].host) {
        assert routes[i] in routes[..i + 1];
      }
    }
  }

  // ---- histories ----

  /** A selection changes the table only when it found candidates. */
  datatype Call =
    | Register(reg: Registration, at: U64, max: nat)
    | Prune(now: U64, ttl: U64)
    | Select(manifest: string)

  datatype History = Start | Then(before: History, call: Call)

  function After(t: Table, call: Call): Table {
    match call
    case Register(reg, at, max) => Registered(t, reg, at, max)
    case Prune(now, ttl) => Pruned(t, now, ttl)
    case Select(m) => if m in t.entries then t.(entries := t.entries[m := Advanced(t.entries[m])]) else t
  }

  function Current(history: History): Table {
    match history
    case Start => EMPTY
    case Then(before, call) => After(Current(before), call)
  }

  predicate Accepts(history: History, call: Call) {
    call.Register? && Judge(Current(history), call.reg, call.max) == Accepted
  }

  /** An accepted registration and its time. */
  datatype Source = Source(reg: Registration, at: U64)

  /** The accepted registration behind a replica's backend: the last one for it, unless some prune
      since then found it stale. */
  function Behind(history: History, m: string, i: nat): Option<Source> {
    match history
    case Start => None
    case Then(before, call) =>
      if Accepts(before, call) && call.reg.manifest == m && call.reg.replica == i then Some(Source(call.reg, call.at))
      else if call.Prune? && Behind(before, m, i).Some?
              && call.now > Behind(before, m, i).value.at + call.ttl then None
      else Behind(before, m, i)
  }

  /** The accepted registration behind a hostname claim. */
  function Claimant(history: History, h: string): Option<Source> {
    match history
    case Start => None
    case Then(before, call) =>
      if Accepts(before, call) && h in Hosts(call.reg.routes) then Some(Source(call.reg, call.at))
      else if call.Prune? && Claimant(before, h).Some?
              && call.now > Claimant(before, h).value.at + call.ttl then None
      else Claimant(before, h)
  }

  function BackendOf(t: Table, m: string, i: nat): Option<Backend> {
    if m in t.entries && i in t.entries[m].backends then Some(t.entries[m].backends[i]) else None
  }

  predicate NoneEmpty(t: Table) {
    forall m | m in t.entries :: t.entries[m].backends != map[]
  }

  ghost predicate BackendsMatch(t: Table, history: History) {
    forall m, i :: Matches(BackendOf(t, m, i), Behind(history, m, i))
  }

  ghost predicate ClaimsMatch(t: Table, history: History) {
    forall h :: MatchesClaim(t.claims, h, Claimant(history, h))
  }

  /** A backend was registered by its entry's owner. */
  predicate OwnerMatches(t: Table, history: History, m: string, i: nat) {
    BackendOf(t, m, i).Some? ==>
      && Behind(history, m, i).Some?
      && Behind(history, m, i).value.reg.owner == t.entries[m].owner
  }

  ghost predicate OwnersMatch(t: Table, history: History) {
    forall m, i :: OwnerMatches(t, history, m, i)
  }

  ghost predicate Explained(t: Table, history: History) {
    NoneEmpty(t) && BackendsMatch(t, history) && ClaimsMatch(t, history) && OwnersMatch(t, history)
  }

  predicate Matches(backend: Option<Backend>, source: Option<Source>) {
    match source
    case None => backend == None
    case Some(s) => backend == Some(Backend(s.reg.peer, s.reg.routes, s.at))
  }

  predicate MatchesClaim(claims: map<string, Claim>, h: string, source: Option<Source>) {
    match source
    case None => h !in claims
    case Some(s) => h in Hosts(s.reg.routes) && h in claims
                    && claims[h] == Claim(s.reg.manifest, s.reg.owner, s.at)
  }

  lemma RegisteredBackend(history: History, call: Call, m: string, i: nat)
    requires Accepts(history, call) && Matches(BackendOf(Current(history), m, i), Behind(history, m, i))
    ensures var next := Then(history, call);
            Matches(BackendOf(Current(next), m, i), Behind(next, m, i))
  {
    hide Claimed, Hosts, Judge;
  }

  lemma RegisteredClaim(history: History, call: Call, h: string)
    requires Accepts(history, call) && MatchesClaim(Current(history).claims, h, Claimant(history, h))
    ensures var next := Then(history, call);
            MatchesClaim(Current(next).claims, h, Claimant(next, h))
  {
    hide Refreshed, Hosts, Judge;
  }

  lemma RegisteredOwner(history: History, call: Call, m: string, i: nat)
    requires Accepts(history, call) && OwnerMatches(Current(history), history, m, i)
    ensures OwnerMatches(Current(Then(history, call)), Then(history, call), m, i)
  {
    hide Hosts, Claimed;
  }

  lemma RegisterExplained(history: History, call: Call)
    requires Explained(Current(history), history) && Accepts(history, call)
    ensures Explained(Current(Then(history, call)), Then(history, call))
  {
    hide Hosts, Matches, MatchesClaim, OwnerMatches, Behind, Claimant, Claimed;
    var next := Then(history, call);
    assert call.reg.replica in Current(next).entries[call.reg.manifest].backends;
    forall m, i ensures Matches(BackendOf(Current(next), m, i), Behind(next, m, i))
      ensures OwnerMatches(Current(next), next, m, i)
    {
      assert OwnerMatches(Current(history), history, m, i);
      RegisteredBackend(history, call, m, i);
      RegisteredOwner(history, call, m, i);
    }
    forall h ensures MatchesClaim(Current(next).claims, h, Claimant(next, h)) {
      RegisteredClaim(history, call, h);
    }
  }

  /** A refused registration, or a selection, leaves the history's account as it was. */
  lemma QuietBehind(history: History, call: Call, m: string, i: nat, h: string)
    requires !call.Prune? && !Accepts(history, call)
    ensures Behind(Then(history, call), m, i) == Behind(history, m, i)
    ensures Claimant(Then(history, call), h) == Claimant(history, h)
  {
    hide Accepts;
  }

  lemma QuietTable(history: History, call: Call, m: string, i: nat)
    requires !call.Prune? && !Accepts(history, call)
    ensures var t, t' := Current(history), Current(Then(history, call));
            && t'.claims == t.claims && t'.entries.Keys == t.entries.Keys
            && BackendOf(t', m, i) == BackendOf(t, m, i)
            && (m in t.entries ==> t'.entries[m].owner == t.entries[m].owner
                                   && t'.entries[m].backends == t.entries[m].backends)
  {
    hide Hosts, Rem;
  }

  lemma QuietExplained(history: History, call: Call)
    requires Explained(Current(history), history) && !call.Prune? && !Accepts(history, call)
    ensures Explained(Current(Then(history, call)), Then(history, call))
  {
    hide Matches, MatchesClaim, Accepts, Current, Behind, Claimant;
    var next := Then(history, call);
    forall m, i ensures Matches(BackendOf(Current(next), m, i), Behind(next, m, i))
      ensures OwnerMatches(Current(next), next, m, i)
    {
      assert OwnerMatches(Current(history), history, m, i);
      QuietBehind(history, call, m, i, "");
      QuietTable(history, call, m, i);
    }
    forall h ensures MatchesClaim(Current(next).claims, h, Claimant(next, h)) {
      QuietBehind(history, call, "", 0, h);
      QuietTable(history, call, "", 0);
    }
    forall m | m in Current(next).entries ensures Current(next).entries[m].backends != map[] {
      QuietTable(history, call, m, 0);
    }
  }

  lemma PrunedBackend(history: History, call: Call, m: string, i: nat)
    requires call.Prune? && Matches(BackendOf(Current(history), m, i), Behind(history, m, i))
    requires OwnerMatches(Current(history), history, m, i)
    ensures var next := Then(history, call);
            Matches(BackendOf(Current(next), m, i), Behind(next, m, i)) && OwnerMatches(Current(next), next, m, i)
  {
    hide Hosts, Judge;
    var t := Current(history);
    if m in t.entries && i in t.entries[m].backends
       && !Stale(t.entries[m].backends[i].registeredAt, call.now, call.ttl) {
      assert i in FreshBackends(t.entries[m].backends, call.now, call.ttl);
    }
  }

  lemma PrunedClaim(history: History, call: Call, h: string)
    requires call.Prune? && MatchesClaim(Current(history).claims, h, Claimant(history, h))
    ensures var next := Then(history, call);
            MatchesClaim(Current(next).claims, h, Claimant(next, h))
  {
    hide Hosts, Judge, FreshBackends;
  }

  lemma PruneExplained(history: History, call: Call)
    requires Explained(Current(history), history) && call.Prune?
    ensures Explained(Current(Then(history, call)), Then(history, call))
  {
    hide Matches, MatchesClaim, OwnerMatches, FreshBackends, Behind, Claimant, BackendOf;
    var next := Then(history, call);
    forall m, i ensures Matches(BackendOf(Current(next), m, i), Behind(next, m, i))
      ensures OwnerMatches(Current(next), next, m, i)
    {
      assert OwnerMatches(Current(history), history, m, i);
      PrunedBackend(history, call, m, i);
    }
    forall h ensures MatchesClaim(Current(next).claims, h, Claimant(next, h)) {
      PrunedClaim(history, call, h);
    }
  }

  /** The table is exactly what its history says: for every replica the backend of the last accepted
      registration no prune has found stale, for every hostname the last such claim, and every backend of
      an entry was registered by the entry's owner. */
  lemma {:induction false} HistoryExplains(history: History)
    ensures Explained(Current(history), history)
  {
    hide Explained;
    match history
    case Start => StartExplained();
    case Then(before, call) =>
      HistoryExplains(before);
      if call.Prune? {
        PruneExplained(before, call);
      } else if Accepts(before, call) {
        RegisterExplained(before, call);
      } else {
        QuietExplained(before, call);
      }
  }

  lemma StartExplained()
    ensures Explained(Current(Start), Start)
  {
    forall m, i ensures Matches(BackendOf(EMPTY, m, i), Behind(Start, m, i)) {
    }
  }

  // ---- hostnames resolve to live entries of their own owner ----

  /** Some backend of the entry is at least as recent as the claim. */
  ghost predicate Supported(t: Table, claim: Claim) {
    && claim.manifest in t.entries
    && t.entries[claim.manifest].owner == claim.owner
    && exists i :: i in t.entries[claim.manifest].backends
                   && t.entries[claim.manifest].backends[i].registeredAt >= claim.registeredAt
  }

  ghost predicate AllSupported(t: Table) {
    forall h | h in t.claims :: Supported(t, t.claims[h])
  }

  /** Another replica of the key has a backend at least as recent. */
  ghost predicate SiblingCovers(t: Table, reg: Registration, at: U64) {
    && reg.manifest in t.entries
    && exists i :: i != reg.replica && i in t.entries[reg.manifest].backends
                   && t.entries[reg.manifest].backends[i].registeredAt >= at
  }

  /** What a caller of `register` can check first: no claim that survives depends only on the backend this
      registration replaces with an older one. */
  ghost predicate KeepsUp(t: Table, reg: Registration, at: U64) {
    forall h | h in t.claims && h !in Hosts(reg.routes) && t.claims[h].manifest == reg.manifest ::
      t.claims[h].registeredAt <= at || SiblingCovers(t, reg, t.claims[h].registeredAt)
  }

  lemma SupportKept(t: Table, reg: Registration, at: U64, max: nat, claim: Claim)
    requires Judge(t, reg, max) == Accepted && Supported(t, claim)
    ensures Supported(Registered(t, reg, at, max), claim) <==>
            || claim.manifest != reg.manifest
            || claim.registeredAt <= at
            || SiblingCovers(t, reg, claim.registeredAt)
  {
    var t' := Registered(t, reg, at, max);
    var backends' := t'.entries[claim.manifest].backends;
    if claim.manifest == reg.manifest {
      assert backends'[reg.replica].registeredAt == at;
      forall i | i != reg.replica
        ensures i in backends' <==> i in t.entries[reg.manifest].backends
        ensures i in backends' ==> backends'[i] == t.entries[reg.manifest].backends[i]
      {
      }
    }
  }

  /** A registration keeps every claim supported if and only if it keeps up with the claims it leaves. */
  lemma RegisterSupports(t: Table, reg: Registration, at: U64, max: nat)
    requires AllSupported(t) && Judge(t, reg, max) == Accepted
    ensures AllSupported(Registered(t, reg, at, max)) <==> KeepsUp(t, reg, at)
  {
    hide Supported, SiblingCovers;
    var t' := Registered(t, reg, at, max);
    assert forall h | h in t'.claims && h in Hosts(reg.routes) :: Supported(t', t'.claims[h]) by {
      OwnClaimSupported(t, reg, at, max);
    }
    forall h | h in t.claims && h !in Hosts(reg.routes)
      ensures h in t'.claims && t'.claims[h] == t.claims[h]
      ensures Supported(t', t.claims[h]) <==>
              || t.claims[h].manifest != reg.manifest
              || t.claims[h].registeredAt <= at
              || SiblingCovers(t, reg, t.claims[h].registeredAt)
    {
      SupportKept(t, reg, at, max, t.claims[h]);
    }
  }

  lemma OwnClaimSupported(t: Table, reg: Registration, at: U64, max: nat)
    requires Judge(t, reg, max) == Accepted
    ensures Supported(Registered(t, reg, at, max), Claim(reg.manifest, reg.owner, at))
  {
    var t' := Registered(t, reg, at, max);
    assert reg.replica in t'.entries[reg.manifest].backends;
  }

  /** Pruning never strands a claim, whatever clock it is given. */
  lemma PruneSupports(t: Table, now: U64, ttl: U64)
    requires AllSupported(t)
    ensures AllSupported(Pruned(t, now, ttl))
  {
    var t' := Pruned(t, now, ttl);
    forall h | h in t'.claims ensures Supported(t', t'.claims[h]) {
      var claim := t.claims[h];
      var backends := t.entries[claim.manifest].backends;
      var i :| i in backends && backends[i].registeredAt >= claim.registeredAt;
      assert i in FreshBackends(backends, now, ttl);
    }
  }

  /** Registration times never go back. */
  predicate Ordered(history: History, latest: nat) {
    match history
    case Start => true
    case Then(before, Register(_, at, _)) => at <= latest && Ordered(before, at)
    case Then(before, _) => Ordered(before, latest)
  }

  predicate NotAfter(t: Table, latest: nat) {
    forall h | h in t.claims :: t.claims[h].registeredAt <= latest
  }

  lemma {:induction false} SupportedThroughout(history: History, latest: nat)
    requires Ordered(history, latest)
    ensures AllSupported(Current(history)) && NotAfter(Current(history), latest)
  {
    hide AllSupported;
    match history
    case Start => assert AllSupported(EMPTY) by { EmptySupported(); }
    case Then(before, Register(reg, at, max)) =>
      SupportedThroughout(before, at);
      if Judge(Current(before), reg, max) == Accepted {
        RegisterSupports(Current(before), reg, at, max);
      }
    case Then(before, Prune(now, ttl)) =>
      SupportedThroughout(before, latest);
      PruneSupports(Current(before), now, ttl);
    case Then(before, Select(m)) =>
      SupportedThroughout(before, latest);
      SelectSupports(Current(before), m);
  }

  lemma SelectSupports(t: Table, m: string)
    requires AllSupported(t)
    ensures AllSupported(After(t, Select(m)))
  {
    hide Rem;
    var t' := After(t, Select(m));
    forall h | h in t'.claims ensures Supported(t', t'.claims[h]) {
      var backends := t.entries[t.claims[h].manifest].backends;
      assert t'.entries[t.claims[h].manifest].backends == backends;
      var i :| i in backends && backends[i].registeredAt >= t.claims[h].registeredAt;
    }
  }

  lemma EmptySupported()
    ensures AllSupported(EMPTY)
  {
  }

  ghost predicate KeepsUpAt(t: Table, call: Call) {
    call.Register? && Judge(t, call.reg, call.max) == Accepted ==> KeepsUp(t, call.reg, call.at)
  }

  ghost predicate AllKeepUp(history: History) {
    match history
    case Start => true
    case Then(before, call) => AllKeepUp(before) && KeepsUpAt(Current(before), call)
  }

  ghost predicate AlwaysSupported(history: History) {
    match history
    case Start => true
    case Then(before, call) => AlwaysSupported(before) && AllSupported(Current(history))
  }

  lemma LastSupported(history: History)
    requires AlwaysSupported(history)
    ensures AllSupported(Current(history))
  {
    hide AllSupported;
    EmptySupported();
  }

  lemma CallSupports(t: Table, call: Call)
    requires AllSupported(t)
    ensures AllSupported(After(t, call)) <==> KeepsUpAt(t, call)
  {
    hide AllSupported, KeepsUp, Hosts;
    match call
    case Register(reg, at, max) =>
      if Judge(t, reg, max) == Accepted {
        RegisterSupports(t, reg, at, max);
      }
    case Prune(now, ttl) => PruneSupports(t, now, ttl);
    case Select(m) => SelectSupports(t, m);
  }

  /** Every claim has, at every point of a history, a live entry of its owner with a backend at least as recent, if
      and only if every accepted registration keeps up with the claims it leaves. */
  lemma {:induction false} SupportedExactly(history: History)
    ensures AlwaysSupported(history) <==> AllKeepUp(history)
  {
    hide AllSupported, KeepsUpAt, After;
    match history
    case Start =>
    case Then(before, call) =>
      SupportedExactly(before);
      if AlwaysSupported(before) {
        LastSupported(before);
        CallSupports(Current(before), call);
      }
  }

  /** Registration times that never go back are enough. */
  lemma {:induction false} OrderedKeepsUp(history: History, latest: nat)
    requires Ordered(history, latest)
    ensures AllKeepUp(history)
  {
    hide AllSupported, Judge, After;
    match history
    case Start =>
    case Then(before, Register(reg, at, max)) =>
      OrderedKeepsUp(before, at);
      SupportedThroughout(before, at);
    case Then(before, _) => OrderedKeepsUp(before, latest);
  }

  /** While every registration keeps up, a hostname resolves only to an entry that exists, has a backend, and
      whose every backend was registered by the owner whose registration claimed the hostname. */
  lemma HostTrafficStaysWithClaimant(history: History, host: string, m: string)
    requires AllKeepUp(history) && Resolve(Current(history), host) == Some(m)
    ensures var t := Current(history);
            m in t.entries && t.entries[m].backends != map[]
            && Claimant(history, Lower(host)).Some?
            && Claimant(history, Lower(host)).value.reg.manifest == m
            && forall i | i in t.entries[m].backends ::
                 Behind(history, m, i).Some?
                 && Behind(history, m, i).value.reg.owner == Claimant(history, Lower(host)).value.reg.owner
  {
    hide AllKeepUp, AlwaysSupported;
    HistoryExplains(history);
    SupportedExactly(history);
    LastSupported(history);
    var t := Current(history);
    assert Supported(t, t.claims[Lower(host)]);
    assert MatchesClaim(t.claims, Lower(host), Claimant(history, Lower(host)));
    forall i | i in t.entries[m].backends ensures OwnerMatches(t, history, m, i) && BackendOf(t, m, i).Some? {
    }
  }

  /** The registration claims a hostname, in whatever case it writes it. */
  predicate Mentions(reg: Registration, host: string) {
    exists r | r in reg.routes :: r.host != "" && SameName(r.host, host)
  }

  /** The accepted registration that last claimed a hostname, unless some prune since then found it stale. */
  function LastClaim(history: History, host: string): Option<Source> {
    match history
    case Start => None
    case Then(before, call) =>
      if Accepts(before, call) && Mentions(call.reg, host) then Some(Source(call.reg, call.at))
      else
        var last := LastClaim(before, host);
        if call.Prune? && last.Some? && call.now > last.value.at + call.ttl then None else last
  }

  lemma MentionsHost(reg: Registration, host: string)
    ensures Mentions(reg, host) <==> Lower(host) in Hosts(reg.routes)
  {
    hide Lower, SameName;
    forall r | r in reg.routes ensures Lower(r.host) == Lower(host) <==> SameName(r.host, host) {
      SameLower(r.host, host);
    }
  }

  lemma {:induction false} LastClaimIsClaimant(history: History, host: string)
    ensures LastClaim(history, host) == Claimant(history, Lower(host))
  {
    hide Lower, Hosts, Mentions, Judge;
    match history
    case Start =>
    case Then(before, call) =>
      LastClaimIsClaimant(before, host);
      if call.Register? {
        MentionsHost(call.reg, host);
      }
  }

  /** After every history a hostname, in any case, resolves to the key of the accepted registration that last claimed
      it and was not found stale since, and to nothing if there is none. */
  lemma ResolvesExactly(history: History, host: string)
    ensures var claim := LastClaim(history, host);
            Resolve(Current(history), host) == if claim.Some? then Some(claim.value.reg.manifest) else None
  {
    hide Lower, Hosts, LastClaim, Claimant;
    HistoryExplains(history);
    LastClaimIsClaimant(history, host);
    assert MatchesClaim(Current(history).claims, Lower(host), Claimant(history, Lower(host)));
  }

  /** A registration is accepted exactly when no backend of the key is another owner's, there is room if the key has no
      backend, and none of its hostnames was last claimed by another owner; and otherwise refused for the first of
      these. */
  lemma RegistersExactly(history: History, reg: Registration, max: nat)
    ensures var t := Current(history);
            Judge(t, reg, max) == Accepted <==>
              && (forall i | Behind(history, reg.manifest, i).Some? ::
                    Behind(history, reg.manifest, i).value.reg.owner == reg.owner)
              && ((exists i :: Behind(history, reg.manifest, i).Some?) || |t.entries| < max)
              && (forall r | r in reg.routes && r.host != "" && LastClaim(history, r.host).Some? ::
                    LastClaim(history, r.host).value.reg.owner == reg.owner)
    ensures Judge(Current(history), reg, max) == OtherOwner <==>
            exists i :: Behind(history, reg.manifest, i).Some?
                        && Behind(history, reg.manifest, i).value.reg.owner != reg.owner
    ensures Judge(Current(history), reg, max) == Full <==>
            (forall i :: Behind(history, reg.manifest, i).None?) && |Current(history).entries| >= max
  {
    hide Lower, LastClaim, Claimant, Behind;
    var t, m := Current(history), reg.manifest;
    HistoryExplains(history);
    if m in t.entries {
      EntryHasBackend(t, history, m);
    }
    forall i | Behind(history, m, i).Some?
      ensures m in t.entries && Behind(history, m, i).value.reg.owner == t.entries[m].owner
    {
      assert Matches(BackendOf(t, m, i), Behind(history, m, i)) && OwnerMatches(t, history, m, i);
    }
    forall r | r in reg.routes && r.host != ""
      ensures Lower(r.host) in Hosts(reg.routes)
      ensures Lower(r.host) in t.claims <==> LastClaim(history, r.host).Some?
      ensures Lower(r.host) in t.claims ==> t.claims[Lower(r.host)].owner == LastClaim(history, r.host).value.reg.owner
    {
      LastClaimIsClaimant(history, r.host);
      assert MatchesClaim(t.claims, Lower(r.host), Claimant(history, Lower(r.host)));
    }
    assert forall h | h in Hosts(reg.routes) :: exists r | r in reg.routes && r.host != "" :: Lower(r.host) == h;
  }

  lemma EntryHasBackend(t: Table, history: History, m: string)
    requires Explained(t, history) && m in t.entries
    ensures exists i :: Behind(history, m, i).Some?
  {
    hide Behind, Claimant;
    assert t.entries[m].backends != map[];
    var i :| i in t.entries[m].backends;
    assert Matches(BackendOf(t, m, i), Behind(history, m, i));
  }

  /** An accepted registration refreshes its own replica and leaves every other backend and entry, and the turn and
      name of its own entry, as they were. */
  lemma RefreshesOneReplica(t: Table, reg: Registration, at: U64, max: nat)
    requires Judge(t, reg, max) == Accepted
    ensures var t', m := Registered(t, reg, at, max), reg.manifest;
            && m in t'.entries && t'.entries[m].owner == reg.owner && t'.entries[m].replicaCount == reg.replicaCount
            && BackendOf(t', m, reg.replica) == Some(Backend(reg.peer, reg.routes, at))
            && (forall x, i | x != m || i != reg.replica :: BackendOf(t', x, i) == BackendOf(t, x, i))
            && (forall x | x != m :: (x in t'.entries <==> x in t.entries)
                                     && (x in t.entries ==> t'.entries[x] == t.entries[x]))
            && (if m in t.entries
                then t'.entries[m].name == t.entries[m].name && t'.entries[m].cursor == t.entries[m].cursor
                else t'.entries[m].name == reg.name && t'.entries[m].cursor == 0)
  {
    hide Hosts;
  }

  /** A prune keeps exactly the backends and claims whose time is not more than the limit ago. */
  lemma PrunesExactly(t: Table, now: U64, ttl: U64, m: string, i: nat, h: string)
    ensures var t' := Pruned(t, now, ttl);
            var backend := BackendOf(t, m, i);
            && BackendOf(t', m, i) ==
               (if backend.Some? && now <= backend.value.registeredAt + ttl then backend else None)
            && (h in t'.claims <==> h in t.claims && now <= t.claims[h].registeredAt + ttl)
            && (h in t'.claims ==> t'.claims[h] == t.claims[h])
            && (m in t'.entries ==>
                  m in t.entries && t'.entries[m].(backends := map[]) == t.entries[m].(backends := map[]))
  {
    if m in t.entries {
      var backends := t.entries[m].backends;
      var kept := FreshBackends(backends, now, ttl);
      assert i in kept <==> i in backends && now <= backends[i].registeredAt + ttl;
      assert i in kept ==> kept[i] == backends[i] && kept != map[];
    }
  }

  // ---- ownership changes hands only through expiry ----

  /** A routing key that has been in the table ever since some earlier point. */
  predicate KeyHeldSince(later: History, point: History, m: string) {
    m in Current(later).entries && (later == point || (later.Then? && KeyHeldSince(later.before, point, m)))
  }

  predicate HostHeldSince(later: History, point: History, h: string) {
    h in Current(later).claims && (later == point || (later.Then? && HostHeldSince(later.before, point, h)))
  }

  lemma {:induction false} KeyKeepsOwner(later: History, point: History, m: string)
    requires KeyHeldSince(later, point, m)
    ensures m in Current(point).entries && Current(later).entries[m].owner == Current(point).entries[m].owner
  {
    hide Hosts, Claimed;
    if later != point {
      KeyKeepsOwner(later.before, point, m);
    }
  }

  lemma {:induction false} HostKeepsOwner(later: History, point: History, h: string)
    requires HostHeldSince(later, point, h)
    ensures h in Current(point).claims && Current(later).claims[h].owner == Current(point).claims[h].owner
  {
    hide Hosts, Refreshed, Rem, FreshBackends, Advanced;
    if later != point {
      HostKeepsOwner(later.before, point, h);
    }
  }

  predicate HasFresh(t: Table, m: string, now: U64, ttl: U64) {
    m in t.entries
    && exists i | i in t.entries[m].backends :: !Stale(t.entries[m].backends[i].registeredAt, now, ttl)
  }

  /** After a prune a registration is accepted exactly when no one else holds a fresh backend of the key or a
      fresh claim to one of the hostnames, and there is room for a key that is gone. */
  lemma ExpiryFrees(t: Table, reg: Registration, now: U64, ttl: U64, max: nat)
    ensures Judge(Pruned(t, now, ttl), reg, max) == Accepted <==>
            && (HasFresh(t, reg.manifest, now, ttl) ==> t.entries[reg.manifest].owner == reg.owner)
            && (!HasFresh(t, reg.manifest, now, ttl) ==> |Pruned(t, now, ttl).entries| < max)
            && (forall h | h in Hosts(reg.routes) && h in t.claims ::
                  t.claims[h].owner == reg.owner || Stale(t.claims[h].registeredAt, now, ttl))
  {
    hide Hosts;
    var t' := Pruned(t, now, ttl);
    assert HasFresh(t, reg.manifest, now, ttl) <==> reg.manifest in t'.entries by {
      if reg.manifest in t.entries {
        var backends := t.entries[reg.manifest].backends;
        var kept := FreshBackends(backends, now, ttl);
        if HasFresh(t, reg.manifest, now, ttl) {
          var i :| i in backends && !Stale(backends[i].registeredAt, now, ttl);
          assert i in kept;
        } else {
          assert kept == map[];
        }
      }
    }
  }

  // ---- registration times that go back ----

  /** A registration into an empty table. */
  lemma FirstTable(t: Table, reg: Registration, at: U64, max: nat)
    requires t == EMPTY && max > 0
    ensures var t' := Registered(t, reg, at, max);
            && t'.entries.Keys == {reg.manifest} && t'.entries[reg.manifest].owner == reg.owner
            && t'.entries[reg.manifest].backends.Keys == {reg.replica}
            && t'.claims.Keys == Hosts(reg.routes)
            && forall h | h in t'.claims :: t'.claims[h] == Claim(reg.manifest, reg.owner, at)
  {
    hide Hosts;
  }

  /** The same replica's next registration, without hostnames. */
  lemma BareTable(t: Table, bare: Registration, at: U64, max: nat)
    requires bare.routes == [] && t.entries.Keys == {bare.manifest} && t.entries[bare.manifest].owner == bare.owner
    requires t.entries[bare.manifest].backends.Keys == {bare.replica}
    ensures var t' := Registered(t, bare, at, max);
            && t'.claims == t.claims && t'.entries.Keys == {bare.manifest}
            && t'.entries[bare.manifest].backends.Keys == {bare.replica}
            && t'.entries[bare.manifest].backends[bare.replica].registeredAt == at
  {
    assert Hosts(bare.routes) == {};
    assert Claimed(t.claims, {}, Claim(bare.manifest, bare.owner, at)) == t.claims;
  }

  /** A prune that finds the only backend stale. */
  lemma LastBackendPruned(t: Table, m: string, i: nat, now: U64, ttl: U64)
    requires t.entries.Keys == {m} && t.entries[m].backends.Keys == {i}
    requires Stale(t.entries[m].backends[i].registeredAt, now, ttl)
    ensures m !in Pruned(t, now, ttl).entries
    ensures forall h | h in t.claims && !Stale(t.claims[h].registeredAt, now, ttl) ::
              h in Pruned(t, now, ttl).claims && Pruned(t, now, ttl).claims[h] == t.claims[h]
  {
    assert FreshBackends(t.entries[m].backends, now, ttl) == map[];
  }

  /** Whoever registers a hostname and then, with a clock that went back, the same replica without it: once a
      prune finds the second time stale but not the first, the hostname resolves to a routing key that the table
      no longer has. */
  lemma EarlierClockStrandsHost(reg: Registration, host: string, at: U64, earlier: U64, now: U64, ttl: U64, max: nat)
    requires Lower(host) in Hosts(reg.routes) && max > 0
    requires !Stale(at, now, ttl) && Stale(earlier, now, ttl)
    ensures var history := Then(Then(Then(Start, Register(reg, at, max)), Register(reg.(routes := []), earlier, max)),
                                Prune(now, ttl));
            Resolve(Current(history), host) == Some(reg.manifest) && reg.manifest !in Current(history).entries
    ensures earlier < at
  {
    hide Hosts, Registered, Pruned, Lower;
    var one := Then(Start, Register(reg, at, max));
    var two := Then(one, Register(reg.(routes := []), earlier, max));
    FirstTable(Current(Start), reg, at, max);
    BareTable(Current(one), reg.(routes := []), earlier, max);
    LastBackendPruned(Current(two), reg.manifest, reg.replica, now, ttl);
    assert Current(Then(two, Prune(now, ttl))) == Pruned(Current(two), now, ttl);
  }

  // ---- rotation over the table ----

  /** An entry after `j` selections that found candidates. */
  function AdvancedBy(entry: Entry, j: nat): Entry {
    if j == 0 then entry else Advanced(AdvancedBy(entry, j - 1))
  }

  lemma {:induction false} CursorCounts(entry: Entry, j: nat)
    ensures AdvancedBy(entry, j) == entry.(cursor := Rem(entry.cursor + j, U64_MAX + 1))
  {
    hide Rem;
    if j == 0 {
      RemSmall(entry.cursor, U64_MAX + 1);
    } else {
      CursorCounts(entry, j - 1);
      RemStep(entry.cursor + (j - 1), U64_MAX + 1);
    }
  }

  lemma RemStep(x: nat, n: nat)
    requires 1 < n
    ensures Rem(Rem(x, n) + 1, n) == Rem(x + 1, n)
  {
    hide Rem;
    var q := Parts(x, n);
    RemAddMany(Rem(x, n) + 1, n, q);
  }

  /** Each selection lists every candidate once, and the `j`th after some point puts first the candidate
      whose turns `Selection.Turns` counts: so `Selection.RoundIsFair` and `EqualTurns` speak of `Select`. */
  lemma SelectionTurns(entry: Entry, c: seq<Target>, j: nat, targets: seq<Target>)
    requires c != [] && Selected(c, AdvancedBy(entry, j).cursor, targets)
    ensures multiset(targets) == multiset(c)
    ensures targets[0] == c[Selection.Start(|c|, U64_MAX + 1, entry.cursor, j)]
  {
    hide Rem, Rotated, AdvancedBy;
    CursorCounts(entry, j);
    RotationPermutes(c, Rem(AdvancedBy(entry, j).cursor, |c|));
  }

  /** How many of the results put a target first. */
  function FirstCount(results: seq<seq<Target>>, t: Target): nat {
    if results == [] then 0
    else
      var last := results[|results| - 1];
      FirstCount(results[..|results| - 1], t) + (if last != [] && last[0] == t then 1 else 0)
  }

  /** What consecutive selections from an entry return while its candidates stay the same. */
  predicate Selections(entry: Entry, c: seq<Target>, results: seq<seq<Target>>) {
    forall j | 0 <= j < |results| :: Selected(c, AdvancedBy(entry, j).cursor, results[j])
  }

  lemma {:induction false} CountIsTurns(entry: Entry, c: seq<Target>, results: seq<seq<Target>>, k: nat)
    requires k < |c| && Ascending(c) && Selections(entry, c, results)
    ensures FirstCount(results, c[k]) == Turns(|c|, U64_MAX + 1, entry.cursor, |results|, k)
    decreases |results|
  {
    hide Rem, AdvancedBy, Rotated, Selection.Start, Selected;
    if results != [] {
      var j := |results| - 1;
      CountIsTurns(entry, c, results[..j], k);
      SelectionTurns(entry, c, j, results[j]);
      StartInRange(|c|, entry.cursor, j);
      assert |results[j]| > 0 by { assert |multiset(results[j])| == |multiset(c)|; }
    }
  }

  lemma StartInRange(n: nat, cursor: nat, j: nat)
    requires 0 < n
    ensures Selection.Start(n, U64_MAX + 1, cursor, j) < n
  {
    hide Rem;
  }

  /** Over a whole number of rounds of `select` on an unchanged entry, every replica that can serve comes first
      equally often if and only if the entry's cursor wraps fairly. */
  lemma SelectIsFair(entry: Entry, c: seq<Target>, results: seq<seq<Target>>, rounds: nat)
    requires c != [] && Ascending(c) && Selections(entry, c, results)
    requires |c| <= U64_MAX && |results| == |c| * rounds
    ensures (forall t | t in c :: FirstCount(results, t) == rounds)
            <==> FairRounds(|c|, U64_MAX + 1, entry.cursor, |results|)
  {
    hide Rem, Turns, Selections, FairRounds, FirstCount;
    var n, wrap, calls := |c|, U64_MAX + 1, |results|;
    RoundsAreFair(n, wrap, entry.cursor, rounds);
    forall k | 0 <= k < |c| ensures FirstCount(results, c[k]) == Turns(n, wrap, entry.cursor, calls, k) {
      CountIsTurns(entry, c, results, k);
    }
    if AllGet(n, wrap, entry.cursor, calls, rounds) {
      forall t | t in c ensures FirstCount(results, t) == rounds {
        var k :| 0 <= k < |c| && c[k] == t;
      }
    }
    if forall t | t in c :: FirstCount(results, t) == rounds {
      forall k | 0 <= k < |c| ensures Turns(n, wrap, entry.cursor, calls, k) == rounds {
        assert c[k] in c && FirstCount(results, c[k]) == rounds;
      }
    }
  }
}
