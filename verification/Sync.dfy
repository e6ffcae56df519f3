/** Paginated anti-entropy between sidecars (`podmesh-sidecar/src/peer_connector.rs`) and the cache it merges
    into (`podmesh-sidecar/src/service_cache.rs`).
 */
module Sync {
  import opened Options

  const MAX_SYNC_PAGES: nat := 256
  const MAX_PEER_RECORD_BATCH: nat := 2
  const MAX_CURSOR: nat := 512
  const MAX_CACHED_REPLICAS: nat := 512
  const MAX_CACHED_SERVICES: nat := 128

  datatype Slot = Slot(manifest: string, replica: nat)

  /** An owner's catalog of one manifest's services; `rest` stands for its other fields. */
  datatype Catalog = Catalog(services: set<string>, rest: string)

  /** `generation` stands for the delegation and keys a replica may not change; `body` for the rest. */
  datatype Record = Record(slot: Slot, catalog: Catalog, generation: string, sequence: nat, issuedAt: nat, body: string)

  datatype ServiceKey = ServiceKey(manifest: string, name: string)

  type Records = map<Slot, Record>

  /** `catalogs` holds the authorized catalog of each manifest, `addresses` the services given an address. */
  datatype Cache = Cache(records: Records, catalogs: map<string, Catalog>, addresses: set<ServiceKey>)

  const EMPTY := Cache(map[], map[], {})

  /** What verifying signatures, scopes and leases says of a manifest's catalog and of a record. */
  datatype Checks = Checks(catalog: (string, Catalog) -> bool, record: Record -> bool)

  // ---- authorizing and merging ----

  function KeysOf(manifest: string, catalog: Catalog): set<ServiceKey> {
    set name | name in catalog.services :: ServiceKey(manifest, name)
  }

  /** A catalog is authorized once; afterwards only the same one is. */
  predicate Authorizes(k: Checks, cache: Cache, manifest: string, catalog: Catalog) {
    && k.catalog(manifest, catalog)
    && if manifest in cache.catalogs then cache.catalogs[manifest] == catalog
       else |cache.addresses + KeysOf(manifest, catalog)| <= MAX_CACHED_SERVICES
  }

  function Authorized(k: Checks, cache: Cache, manifest: string, catalog: Catalog): Cache {
    if Authorizes(k, cache, manifest, catalog)
    then cache.(catalogs := cache.catalogs[manifest := catalog],
                addresses := if manifest in cache.catalogs then cache.addresses
                             else cache.addresses + KeysOf(manifest, catalog))
    else cache
  }

  /** A record is taken, ignored because the cache has it or a later one, or refused. */
  datatype Verdict = Taken | Ignored | Refused

  /** A record that replaces what the cache has: new to it and within its capacity, or the same generation with
      a higher sequence number and no earlier issue time. */
  predicate Replaces(records: Records, r: Record) {
    if r.slot in records then
      var before := records[r.slot];
      before.generation == r.generation && r.sequence > before.sequence && r.issuedAt >= before.issuedAt
    else |records| < MAX_CACHED_REPLICAS
  }

  predicate Older(records: Records, r: Record) {
    r.slot in records
    && records[r.slot].generation == r.generation
    && (r.sequence < records[r.slot].sequence || r == records[r.slot])
  }

  function Judge(k: Checks, cache: Cache, r: Record): Verdict {
    if !k.record(r) || r.slot.manifest !in cache.catalogs || cache.catalogs[r.slot.manifest] != r.catalog then Refused
    else if Older(cache.records, r) then Ignored
    else if Replaces(cache.records, r) then Taken
    else Refused
  }

  function Merged(k: Checks, cache: Cache, r: Record): Cache {
    if Judge(k, cache, r).Taken? then cache.(records := cache.records[r.slot := r]) else cache
  }

  /** What `sync_inner` does with one record: one whose catalog is not authorized is passed over. */
  function Received(k: Checks, cache: Cache, r: Record): Cache {
    if Authorizes(k, cache, r.slot.manifest, r.catalog)
    then Merged(k, Authorized(k, cache, r.slot.manifest, r.catalog), r) else cache
  }

  predicate Takes(k: Checks, cache: Cache, r: Record) {
    && Authorizes(k, cache, r.slot.manifest, r.catalog)
    && Judge(k, Authorized(k, cache, r.slot.manifest, r.catalog), r).Taken?
  }

  function ReceivedAll(k: Checks, cache: Cache, records: seq<Record>): Cache {
    if records == [] then cache
    else Received(k, ReceivedAll(k, cache, records[..|records| - 1]), records[|records| - 1])
  }

  /** How many of the records are taken. */
  function TakenCount(k: Checks, cache: Cache, records: seq<Record>): nat {
    if records == [] then 0
    else
      var n := |records| - 1;
      TakenCount(k, cache, records[..n])
      + (if Takes(k, ReceivedAll(k, cache, records[..n]), records[n]) then 1 else 0)
  }

  predicate Keyed(records: Records) {
    forall s | s in records :: records[s].slot == s
  }

  /** Receiving anything never loses a replica, changes its generation, or takes its sequence or issue time back,
      and never replaces an authorized catalog. */
  lemma {:induction false} ReceivingNeverRegresses(k: Checks, cache: Cache, records: seq<Record>, s: Slot)
    requires s in cache.records && Keyed(cache.records)
    ensures var after := ReceivedAll(k, cache, records).records;
            Keyed(after) && s in after && after[s].generation == cache.records[s].generation
            && after[s].sequence >= cache.records[s].sequence && after[s].issuedAt >= cache.records[s].issuedAt
            && (after[s].sequence == cache.records[s].sequence ==> after[s] == cache.records[s])
    ensures forall m | m in cache.catalogs ::
              m in ReceivedAll(k, cache, records).catalogs
              && ReceivedAll(k, cache, records).catalogs[m] == cache.catalogs[m]
  {
    hide KeysOf;
    if records != [] {
      ReceivingNeverRegresses(k, cache, records[..|records| - 1], s);
    }
  }

  // ---- the exchange ----

  datatype Answer = NoPage | Page(records: seq<Record>, next: Option<nat>)

  /** What the caller makes of an answer: its validation refuses oversized batches and cursors. */
  predicate Usable(a: Answer) {
    a.Page? && |a.records| <= MAX_PEER_RECORD_BATCH && (a.next.Some? ==> a.next.value <= MAX_CURSOR)
  }

  /** A peer, as the answer it gives to the `page`th request with some cursor. */
  type Peer = (nat, nat) -> Answer

  /** The pages received from `page` and `cursor` on, and whether the synchronization succeeds. */
  function Exchange(peer: Peer, page: nat, cursor: nat): (bool, seq<Record>)
    requires page <= MAX_SYNC_PAGES
    decreases MAX_SYNC_PAGES - page
  {
    if page == MAX_SYNC_PAGES then (false, [])
    else
      var a := peer(page, cursor);
      if !Usable(a) then (false, [])
      else if a.next.None? then (true, a.records)
      else if a.next.value <= cursor then (false, a.records)
      else
        var rest := Exchange(peer, page + 1, a.next.value);
        (rest.0, a.records + rest.1)
  }

  class Connector {
    var cache: Cache

    constructor ()
      ensures cache == EMPTY
    {
      cache := EMPTY;
    }

    method AuthorizeCatalog(k: Checks, manifest: string, catalog: Catalog) returns (ok: bool)
      modifies this
      ensures ok == Authorizes(k, old(cache), manifest, catalog)
      ensures cache == Authorized(k, old(cache), manifest, catalog)
    {
      if !k.catalog(manifest, catalog) {
        return false;
      }
      if manifest in cache.catalogs {
        ok := cache.catalogs[manifest] == catalog;
        assert ok ==> cache.catalogs[manifest := catalog] == cache.catalogs;
        return;
      }
      var addresses := cache.addresses + KeysOf(manifest, catalog);
      if |addresses| > MAX_CACHED_SERVICES {
        return false;
      }
      cache := cache.(catalogs := cache.catalogs[manifest := catalog], addresses := addresses);
      ok := true;
    }

    /** `merge`. */
    method Merge(k: Checks, r: Record) returns (verdict: Verdict)
      modifies this
      ensures verdict == Judge(k, old(cache), r)
      ensures cache == Merged(k, old(cache), r)
    {
      if !k.record(r) {
        return Refused;
      }
      if r.slot.manifest !in cache.catalogs || cache.catalogs[r.slot.manifest] != r.catalog {
        return Refused;
      }
      if r.slot in cache.records {
        var before := cache.records[r.slot];
        if before.generation != r.generation {
          return Refused;
        }
        if r.sequence < before.sequence {
          return Ignored;
        }
        if r.sequence == before.sequence {
          return if before == r then Ignored else Refused;
        }
        if r.issuedAt < before.issuedAt {
          return Refused;
        }
      } else if |cache.records| >= MAX_CACHED_REPLICAS {
        return Refused;
      }
      cache := cache.(records := cache.records[r.slot := r]);
      verdict := Taken;
    }

    /** The loop over one page: `changed` counts the records taken. */
    method MergePage(k: Checks, records: seq<Record>) returns (changed: nat)
      modifies this
      ensures cache == ReceivedAll(k, old(cache), records)
      ensures changed == TakenCount(k, old(cache), records)
    {
      hide Authorizes, Authorized, Judge, Merged;
      changed := 0;
      var i := 0;
      while i < |records|
        invariant 0 <= i <= |records|
        invariant cache == ReceivedAll(k, old(cache), records[..i])
        invariant changed == TakenCount(k, old(cache), records[..i])
      {
        assert records[..i + 1][..i] == records[..i];
        var authorized := AuthorizeCatalog(k, records[i].slot.manifest, records[i].catalog);
        if authorized {
          var verdict := Merge(k, records[i]);
          if verdict.Taken? {
            changed := changed + 1;
          }
        } else {
          NotAuthorized(k, ReceivedAll(k, old(cache), records[..i]), records[i].slot.manifest, records[i].catalog);
        }
        i := i + 1;
      }
      assert records[..i] == records;
    }

    /** `sync_inner`.  Against any peer it asks with strictly rising cursors, at most `MAX_SYNC_PAGES` times. */
    method SyncInner(k: Checks, peer: Peer) returns (result: Option<nat>, asked: seq<nat>)
      modifies this
      ensures cache == ReceivedAll(k, old(cache), Exchange(peer, 0, 0).1)
      ensures result == if Exchange(peer, 0, 0).0 then Some(TakenCount(k, old(cache), Exchange(peer, 0, 0).1)) else None
      ensures |asked| <= MAX_SYNC_PAGES && forall i, j | 0 <= i < j < |asked| :: asked[i] < asked[j]
      ensures forall i | 0 <= i < |asked| :: asked[i] <= MAX_CURSOR
    {
      hide Usable, ReceivedAll, TakenCount;
      var cursor: nat, changed: nat, page: nat := 0, 0, 0;
      asked := [];
      ghost var received: seq<Record> := [];
      NothingReceived(k, cache);
      assert received + Exchange(peer, 0, 0).1 == Exchange(peer, 0, 0).1;
      while page < MAX_SYNC_PAGES
        invariant page <= MAX_SYNC_PAGES && |asked| == page && cursor <= MAX_CURSOR
        invariant forall i, j | 0 <= i < j < |asked| :: asked[i] < asked[j]
        invariant forall i | 0 <= i < |asked| :: asked[i] < cursor
        invariant Exchange(peer, 0, 0) == (Exchange(peer, page, cursor).0, received + Exchange(peer, page, cursor).1)
        invariant cache == ReceivedAll(k, old(cache), received)
        invariant changed == TakenCount(k, old(cache), received)
      {
        var a := peer(page, cursor);
        asked := asked + [cursor];
        if !Usable(a) {
          assert received + [] == received;
          return None, asked;
        }
        UsablePage(a);
        var merged := MergePage(k, a.records);
        ReceivedAppend(k, old(cache), received, a.records);
        changed := changed + merged;
        if a.next.None? {
          return Some(changed), asked;
        }
        if a.next.value <= cursor {
          return None, asked;
        }
        ghost var rest := Exchange(peer, page + 1, a.next.value).1;
        assert received + (a.records + rest) == received + a.records + rest;
        received := received + a.records;
        cursor, page := a.next.value, page + 1;
      }
      assert received + [] == received;
      result := None;
    }
  }

  lemma NotAuthorized(k: Checks, cache: Cache, manifest: string, catalog: Catalog)
    requires !Authorizes(k, cache, manifest, catalog)
    ensures Authorized(k, cache, manifest, catalog) == cache
  {
  }

  lemma UsablePage(a: Answer)
    requires Usable(a)
    ensures a.Page? && (a.next.Some? ==> a.next.value <= MAX_CURSOR)
  {
  }

  lemma NothingReceived(k: Checks, cache: Cache)
    ensures ReceivedAll(k, cache, []) == cache && TakenCount(k, cache, []) == 0
  {
  }

  lemma {:induction false} ReceivedAppend(k: Checks, cache: Cache, a: seq<Record>, b: seq<Record>)
    ensures ReceivedAll(k, cache, a + b) == ReceivedAll(k, ReceivedAll(k, cache, a), b)
    ensures TakenCount(k, cache, a + b) == TakenCount(k, cache, a) + TakenCount(k, ReceivedAll(k, cache, a), b)
    decreases |b|
  {
    hide Received, Takes;
    if b == [] {
      assert a + b == a;
    } else {
      ReceivedAppend(k, cache, a, b[..|b| - 1]);
      assert (a + b)[..|a + b| - 1] == a + b[..|b| - 1];
    }
  }

  // ---- an honest peer ----

  /** The `Sync` branch of `serve_stream`: the batch at the cursor, and where the next one starts. */
  function Serve(snapshot: seq<Record>, cursor: nat): Answer {
    var start := if cursor <= |snapshot| then cursor else |snapshot|;
    var end := if start + MAX_PEER_RECORD_BATCH <= |snapshot| then start + MAX_PEER_RECORD_BATCH else |snapshot|;
    Page(snapshot[start..end], if end < |snapshot| then Some(end % 65_536) else None)
  }

  function Honest(snapshot: seq<Record>): Peer {
    (page: nat, cursor: nat) => Serve(snapshot, cursor)
  }

  lemma {:induction false} HonestFrom(snapshot: seq<Record>, page: nat)
    requires page <= MAX_SYNC_PAGES && (page == 0 || 2 * page < |snapshot|)
    ensures Exchange(Honest(snapshot), page, 2 * page) ==
            (|snapshot| <= MAX_CACHED_REPLICAS,
             snapshot[2 * page..if |snapshot| <= MAX_CACHED_REPLICAS then |snapshot| else MAX_CACHED_REPLICAS])
    decreases MAX_SYNC_PAGES - page
  {
    var cursor := 2 * page;
    var end := if |snapshot| <= MAX_CACHED_REPLICAS then |snapshot| else MAX_CACHED_REPLICAS;
    if page == MAX_SYNC_PAGES {
      assert snapshot[cursor..end] == [];
    } else if cursor + 2 < |snapshot| {
      HonestPage(snapshot, cursor);
      HonestFrom(snapshot, page + 1);
      SliceSplit(snapshot, cursor, cursor + 2, end);
    } else {
      HonestPage(snapshot, cursor);
    }
  }

  lemma HonestPage(snapshot: seq<Record>, cursor: nat)
    requires cursor <= |snapshot| && cursor < MAX_CURSOR
    ensures Serve(snapshot, cursor) ==
            if cursor + 2 < |snapshot| then Page(snapshot[cursor..cursor + 2], Some(cursor + 2))
            else Page(snapshot[cursor..|snapshot|], None)
  {
  }

  lemma SliceSplit(s: seq<Record>, a: nat, b: nat, c: nat)
    requires a <= b <= c <= |s|
    ensures s[a..b] + s[b..c] == s[a..c]
  {
  }

  /** Synchronizing with an honest peer whose snapshot does not change succeeds exactly when the snapshot fits
      the page bound, and then the pages are the snapshot, each record once and in order. */
  lemma HonestSync(snapshot: seq<Record>)
    ensures Exchange(Honest(snapshot), 0, 0).0 <==> |snapshot| <= MAX_CACHED_REPLICAS
    ensures |snapshot| <= MAX_CACHED_REPLICAS ==> Exchange(Honest(snapshot), 0, 0).1 == snapshot
    ensures |snapshot| > MAX_CACHED_REPLICAS ==> Exchange(Honest(snapshot), 0, 0).1 == snapshot[..MAX_CACHED_REPLICAS]
  {
    HonestFrom(snapshot, 0);
  }
}
