/** What synchronizing achieves: caches that exchange their snapshots come to hold the same records, the newest
    either knew (`podmesh-sidecar/src/service_cache.rs`).
 */
module SyncLaws {
  import opened Sets
  import opened Sync

  // ---- merging compatible records ----

  function Joined(records: Records, r: Record): Records {
    if Replaces(records, r) then records[r.slot := r] else records
  }

  function JoinedAll(cache: Records, records: seq<Record>): Records {
    if records == [] then cache
    else Joined(JoinedAll(cache, records[..|records| - 1]), records[|records| - 1])
  }

  /** Two records that honest replicas could have signed: a slot keeps its generation, a sequence number names
      one record, and issue times follow sequence numbers. */
  predicate Compatible(a: Record, b: Record) {
    a.slot == b.slot ==>
      && a.generation == b.generation
      && (a.sequence == b.sequence ==> a == b)
      && (a.sequence < b.sequence ==> a.issuedAt <= b.issuedAt)
  }

  ghost predicate Known(cache: Records, records: seq<Record>, r: Record) {
    (r.slot in cache && cache[r.slot] == r) || r in records
  }

  /** Everything known is pairwise compatible. */
  ghost predicate Coherent(cache: Records, records: seq<Record>) {
    && Keyed(cache)
    && (forall a, b | Known(cache, records, a) && Known(cache, records, b) :: Compatible(a, b))
  }

  function Slots(cache: Records, records: seq<Record>): set<Slot> {
    cache.Keys + set r | r in records :: r.slot
  }

  /** `after` has for every known slot its newest known record, and nothing else. */
  ghost predicate IsNewest(cache: Records, records: seq<Record>, after: Records) {
    && Keyed(after)
    && (forall s | s in after :: Known(cache, records, after[s]))
    && (forall r | Known(cache, records, r) :: r.slot in after && after[r.slot].sequence >= r.sequence)
  }

  lemma CoherentPrefix(cache: Records, records: seq<Record>)
    requires Coherent(cache, records) && records != []
    ensures Coherent(cache, records[..|records| - 1])
    ensures Slots(cache, records[..|records| - 1]) <= Slots(cache, records)
  {
    hide Compatible;
    var earlier := records[..|records| - 1];
    assert forall r | r in earlier :: r in records;
    forall a, b | Known(cache, earlier, a) && Known(cache, earlier, b) ensures Compatible(a, b) {
      assert Known(cache, records, a) && Known(cache, records, b);
    }
    forall s | s in Slots(cache, earlier) ensures s in Slots(cache, records) {
    }
  }

  /** The last record of a coherent batch is taken exactly when it is newer than what the cache has. */
  lemma LastIsTaken(cache: Records, records: seq<Record>, have: Records)
    requires records != [] && Coherent(cache, records) && |Slots(cache, records)| <= MAX_CACHED_REPLICAS
    requires IsNewest(cache, records[..|records| - 1], have)
    ensures var last := records[|records| - 1];
            Replaces(have, last) <==> last.slot !in have || have[last.slot].sequence < last.sequence
  {
    var earlier, last := records[..|records| - 1], records[|records| - 1];
    assert records == earlier + [last] && last in records && Known(cache, records, last);
    if last.slot in have {
      assert Known(cache, records, have[last.slot]);
      assert Compatible(have[last.slot], last);
    } else {
      forall s | s in have ensures s in Slots(cache, records) {
        assert Known(cache, earlier, have[s]);
      }
      SubsetCardinality(have.Keys, Slots(cache, records));
      assert |have| == |have.Keys|;
    }
  }

  lemma KnownStep(cache: Records, earlier: seq<Record>, last: Record, r: Record)
    ensures Known(cache, earlier + [last], r) <==> Known(cache, earlier, r) || r == last
  {
  }

  lemma NewestStep(cache: Records, records: seq<Record>, have: Records)
    requires records != [] && Coherent(cache, records) && |Slots(cache, records)| <= MAX_CACHED_REPLICAS
    requires IsNewest(cache, records[..|records| - 1], have)
    ensures IsNewest(cache, records, Joined(have, records[|records| - 1]))
  {
    hide Replaces, Coherent, Known, Slots;
    var earlier, last := records[..|records| - 1], records[|records| - 1];
    assert records == earlier + [last];
    LastIsTaken(cache, records, have);
    var after := Joined(have, last);
    forall s | s in after ensures Known(cache, records, after[s]) {
      KnownStep(cache, earlier, last, after[s]);
    }
    forall r | Known(cache, records, r) ensures r.slot in after && after[r.slot].sequence >= r.sequence {
      KnownStep(cache, earlier, last, r);
    }
  }

  /** Merging coherent records leaves the newest known record of every slot, whatever their order. */
  lemma {:induction false} MergingFindsNewest(cache: Records, records: seq<Record>)
    requires Coherent(cache, records) && |Slots(cache, records)| <= MAX_CACHED_REPLICAS
    ensures IsNewest(cache, records, JoinedAll(cache, records))
    decreases |records|
  {
    hide Coherent, Joined, IsNewest;
    if records == [] {
      NewestOfNothing(cache);
    } else {
      CoherentPrefix(cache, records);
      SubsetCardinality(Slots(cache, records[..|records| - 1]), Slots(cache, records));
      MergingFindsNewest(cache, records[..|records| - 1]);
      NewestStep(cache, records, JoinedAll(cache, records[..|records| - 1]));
    }
  }

  lemma NewestOfNothing(cache: Records)
    requires Coherent(cache, [])
    ensures IsNewest(cache, [], cache)
  {
  }

  lemma NewestWithin(cache: Records, records: seq<Record>, a: Records, b: Records, s: Slot)
    requires Coherent(cache, records) && IsNewest(cache, records, a) && IsNewest(cache, records, b) && s in a
    ensures s in b && a[s] == b[s]
  {
    hide Known;
    assert Known(cache, records, a[s]);
    assert s in b && Known(cache, records, b[s]);
    assert Compatible(a[s], b[s]);
  }

  lemma NewestIsUnique(cache: Records, records: seq<Record>, a: Records, b: Records)
    requires Coherent(cache, records) && IsNewest(cache, records, a) && IsNewest(cache, records, b)
    ensures a == b
  {
    hide Coherent, IsNewest;
    forall s | s in a ensures s in b && a[s] == b[s] {
      NewestWithin(cache, records, a, b, s);
    }
    forall s | s in b ensures s in a {
      NewestWithin(cache, records, b, a, s);
    }
  }

  /** The snapshot of a cache lists exactly its records. */
  ghost predicate IsSnapshot(snapshot: seq<Record>, cache: Records) {
    forall r :: r in snapshot <==> r.slot in cache && cache[r.slot] == r
  }

  lemma SnapshotKnown(mine: Records, theirs: Records, theirSnapshot: seq<Record>, joined: Records,
                      mySnapshot: seq<Record>,
                      r: Record)
    requires IsSnapshot(theirSnapshot, theirs) && IsNewest(mine, theirSnapshot, joined)
    requires IsSnapshot(mySnapshot, joined) && Known(theirs, mySnapshot, r)
    ensures Known(mine, theirSnapshot, r) && r.slot in joined && joined[r.slot].sequence >= r.sequence
  {
  }

  lemma JoinedSlot(mine: Records, theirSnapshot: seq<Record>, joined: Records, s: Slot)
    requires Coherent(mine, theirSnapshot) && IsNewest(mine, theirSnapshot, joined) && s in joined
    ensures joined[s].slot == s && s in Slots(mine, theirSnapshot)
  {
    hide Compatible;
    assert Known(mine, theirSnapshot, joined[s]);
  }

  /** The joined cache is also the newest of the other side's records and its own snapshot. */
  lemma BackAgain(mine: Records, theirs: Records, theirSnapshot: seq<Record>, joined: Records,
                  mySnapshot: seq<Record>)
    requires Coherent(mine, theirSnapshot) && IsSnapshot(theirSnapshot, theirs) && Keyed(theirs)
    requires |Slots(mine, theirSnapshot)| <= MAX_CACHED_REPLICAS
    requires IsNewest(mine, theirSnapshot, joined) && IsSnapshot(mySnapshot, joined)
    ensures Coherent(theirs, mySnapshot) && IsNewest(theirs, mySnapshot, joined)
    ensures |Slots(theirs, mySnapshot)| <= MAX_CACHED_REPLICAS
  {
    forall a, b | Known(theirs, mySnapshot, a) && Known(theirs, mySnapshot, b) ensures Compatible(a, b) {
      hide IsNewest, IsSnapshot, Known;
      SnapshotKnown(mine, theirs, theirSnapshot, joined, mySnapshot, a);
      SnapshotKnown(mine, theirs, theirSnapshot, joined, mySnapshot, b);
    }
    hide Coherent;
    BackNewest(mine, theirs, theirSnapshot, joined, mySnapshot);
    CoherentFrom(theirs, mySnapshot);
    forall s | s in Slots(theirs, mySnapshot) ensures s in Slots(mine, theirSnapshot) {
      if s in theirs {
        SnapshotKnown(mine, theirs, theirSnapshot, joined, mySnapshot, theirs[s]);
      }
      JoinedSlot(mine, theirSnapshot, joined, s);
    }
    SubsetCardinality(Slots(theirs, mySnapshot), Slots(mine, theirSnapshot));
  }

  lemma CoherentFrom(cache: Records, records: seq<Record>)
    requires Keyed(cache)
    requires forall a, b | Known(cache, records, a) && Known(cache, records, b) :: Compatible(a, b)
    ensures Coherent(cache, records)
  {
  }

  lemma BackNewest(mine: Records, theirs: Records, theirSnapshot: seq<Record>, joined: Records, mySnapshot: seq<Record>)
    requires IsSnapshot(theirSnapshot, theirs)
    requires IsNewest(mine, theirSnapshot, joined) && IsSnapshot(mySnapshot, joined)
    ensures IsNewest(theirs, mySnapshot, joined)
  {
    forall s | s in joined ensures Known(theirs, mySnapshot, joined[s]) {
      assert joined[s].slot == s;
      assert joined[s] in mySnapshot;
    }
    forall r | Known(theirs, mySnapshot, r) ensures r.slot in joined && joined[r.slot].sequence >= r.sequence {
      SnapshotKnown(mine, theirs, theirSnapshot, joined, mySnapshot, r);
    }
  }

  // ---- catalogs that agree ----

  /** One catalog per manifest. */
  type Book = map<string, Catalog>

  function Services(book: Book): set<ServiceKey> {
    set m, name | m in book && name in book[m].services :: ServiceKey(m, name)
  }

  predicate Vouched(k: Checks, book: Book, r: Record) {
    && k.record(r) && k.catalog(r.slot.manifest, r.catalog)
    && r.slot.manifest in book && book[r.slot.manifest] == r.catalog
  }

  /** The cache's catalogs and services are those of the book, which fits its limit. */
  ghost predicate Booked(cache: Cache, book: Book) {
    && (forall m | m in cache.catalogs :: m in book && book[m] == cache.catalogs[m])
    && cache.addresses <= Services(book)
    && |Services(book)| <= MAX_CACHED_SERVICES
  }

  /** With catalogs that agree, a record that verifies is always authorized and merged on its own merits. */
  lemma VouchedIsReceived(k: Checks, book: Book, cache: Cache, r: Record)
    requires Booked(cache, book) && Vouched(k, book, r)
    ensures Received(k, cache, r).records == Joined(cache.records, r) && Booked(Received(k, cache, r), book)
  {
    hide Replaces;
    var m := r.slot.manifest;
    forall key | key in KeysOf(m, r.catalog) ensures key in Services(book) {
    }
    SubsetCardinality(cache.addresses + KeysOf(m, r.catalog), Services(book));
    OlderStays(cache.records, r);
  }

  lemma OlderStays(records: Records, r: Record)
    ensures Older(records, r) ==> !Replaces(records, r)
  {
  }

  lemma {:induction false} VouchedAreReceived(k: Checks, book: Book, cache: Cache, records: seq<Record>)
    requires Booked(cache, book) && forall r | r in records :: Vouched(k, book, r)
    ensures ReceivedAll(k, cache, records).records == JoinedAll(cache.records, records)
    ensures Booked(ReceivedAll(k, cache, records), book)
    decreases |records|
  {
    hide Booked, Vouched, Received, Joined;
    if records != [] {
      var n := |records| - 1;
      VouchedAreReceived(k, book, cache, records[..n]);
      VouchedIsReceived(k, book, ReceivedAll(k, cache, records[..n]), records[n]);
    }
  }

  /** Where catalogs disagree the first one authorized wins: a record with another catalog is passed over. */
  lemma FirstCatalogWins(k: Checks, cache: Cache, first: Record, second: Record)
    requires first.slot.manifest == second.slot.manifest && first.catalog != second.catalog
    requires Authorizes(k, cache, first.slot.manifest, first.catalog)
    ensures ReceivedAll(k, cache, [first, second]) == Received(k, cache, first)
  {
    hide KeysOf, Judge;
    var one := [first];
    assert [first, second][..1] == one && one[..0] == [];
    assert ReceivedAll(k, cache, one) == Received(k, cache, first) by {
      assert ReceivedAll(k, cache, []) == cache;
    }
  }

  // ---- synchronizing both ways ----

  /** After one sidecar synchronizes from another and the other then from it, both hold the same records: the
      newest either knew. */
  lemma TwoWaySyncConverges(k: Checks, book: Book, mine: Cache, theirs: Cache, theirSnapshot: seq<Record>,
                            mySnapshot: seq<Record>)
    requires Booked(mine, book) && Booked(theirs, book)
    requires Coherent(mine.records, theirSnapshot) && Keyed(theirs.records)
    requires IsSnapshot(theirSnapshot, theirs.records)
    requires IsSnapshot(mySnapshot, ReceivedAll(k, mine, Exchange(Honest(theirSnapshot), 0, 0).1).records)
    requires forall r | Known(mine.records, theirSnapshot, r) :: Vouched(k, book, r)
    requires |Slots(mine.records, theirSnapshot)| <= MAX_CACHED_REPLICAS
    requires |theirSnapshot| <= MAX_CACHED_REPLICAS && |mySnapshot| <= MAX_CACHED_REPLICAS
    ensures var joined := ReceivedAll(k, mine, Exchange(Honest(theirSnapshot), 0, 0).1).records;
            && ReceivedAll(k, theirs, Exchange(Honest(mySnapshot), 0, 0).1).records == joined
            && IsNewest(mine.records, theirSnapshot, joined)
  {
    hide Booked, Vouched, Coherent, JoinedAll, ReceivedAll, Exchange, Honest, IsNewest, Keyed, IsSnapshot;
    HonestSync(theirSnapshot);
    HonestSync(mySnapshot);
    VouchedAreReceived(k, book, mine, theirSnapshot);
    MergingFindsNewest(mine.records, theirSnapshot);
    var joined := JoinedAll(mine.records, theirSnapshot);
    BackAgain(mine.records, theirs.records, theirSnapshot, joined, mySnapshot);
    forall r | r in mySnapshot ensures Vouched(k, book, r) {
      SnapshotKnown(mine.records, theirs.records, theirSnapshot, joined, mySnapshot, r);
    }
    VouchedAreReceived(k, book, theirs, mySnapshot);
    MergingFindsNewest(theirs.records, mySnapshot);
    NewestIsUnique(theirs.records, mySnapshot, JoinedAll(theirs.records, mySnapshot), joined);
  }

  // ---- what a cache may hold ----

  /** A record as it was received, with what its checks said at the time. */
  datatype Receipt = Receipt(k: Checks, record: Record)

  /** The cache after everything a connector has received, under whatever checks. */
  function After(receipts: seq<Receipt>): Cache {
    if receipts == [] then EMPTY
    else
      var n := |receipts| - 1;
      Received(receipts[n].k, After(receipts[..n]), receipts[n].record)
  }

  /** The record was received, and its checks passed. */
  ghost predicate Verified(receipts: seq<Receipt>, r: Record) {
    exists n | 0 <= n < |receipts| :: receipts[n].record == r && receipts[n].k.record(r)
  }

  /** A record with this catalog was received, and the owner's checks on the catalog passed. */
  ghost predicate Approved(receipts: seq<Receipt>, manifest: string, catalog: Catalog) {
    exists n | 0 <= n < |receipts| ::
      && receipts[n].record.slot.manifest == manifest && receipts[n].record.catalog == catalog
      && receipts[n].k.catalog(manifest, catalog)
  }

  ghost predicate RecordsVouched(receipts: seq<Receipt>, cache: Cache) {
    forall s | s in cache.records ::
      && cache.records[s].slot == s && Verified(receipts, cache.records[s])
      && s.manifest in cache.catalogs && cache.catalogs[s.manifest] == cache.records[s].catalog
  }

  ghost predicate CatalogsApproved(receipts: seq<Receipt>, cache: Cache) {
    forall m | m in cache.catalogs :: Approved(receipts, m, cache.catalogs[m])
  }

  ghost predicate AddressesExact(cache: Cache) {
    forall key :: key in cache.addresses <==>
      key.manifest in cache.catalogs && key.name in cache.catalogs[key.manifest].services
  }

  /** Everything in a cache was verified, is under its own slot and carries the approved catalog of its manifest; the
      services of those catalogs, and no others, have addresses; and the cache is bounded. */
  ghost predicate VouchedFor(receipts: seq<Receipt>, cache: Cache) {
    && RecordsVouched(receipts, cache) && CatalogsApproved(receipts, cache) && AddressesExact(cache)
    && |cache.records| <= 512 && |cache.addresses| <= 128
  }

  lemma MoreReceipts(receipts: seq<Receipt>, cache: Cache, last: Receipt)
    requires VouchedFor(receipts, cache)
    ensures VouchedFor(receipts + [last], cache)
  {
    var more := receipts + [last];
    forall r | Verified(receipts, r) ensures Verified(more, r) {
      var n :| 0 <= n < |receipts| && receipts[n].record == r && receipts[n].k.record(r);
      assert more[n] == receipts[n];
    }
    forall m, c | Approved(receipts, m, c) ensures Approved(more, m, c) {
      var n :| 0 <= n < |receipts| && receipts[n].record.slot.manifest == m && receipts[n].record.catalog == c
               && receipts[n].k.catalog(m, c);
      assert more[n] == receipts[n];
    }
  }

  lemma AddressesAdded(cache: Cache, manifest: string, catalog: Catalog)
    requires AddressesExact(cache) && manifest !in cache.catalogs
    ensures AddressesExact(cache.(catalogs := cache.catalogs[manifest := catalog],
                                  addresses := cache.addresses + KeysOf(manifest, catalog)))
  {
    forall key ensures key in KeysOf(manifest, catalog) <==> key.manifest == manifest && key.name in catalog.services {
      assert key == ServiceKey(key.manifest, key.name);
    }
  }

  lemma CatalogAdded(receipts: seq<Receipt>, cache: Cache, manifest: string, catalog: Catalog, keys: set<ServiceKey>)
    requires RecordsVouched(receipts, cache) && CatalogsApproved(receipts, cache)
    requires manifest !in cache.catalogs && Approved(receipts, manifest, catalog)
    ensures var next := cache.(catalogs := cache.catalogs[manifest := catalog], addresses := keys);
            RecordsVouched(receipts, next) && CatalogsApproved(receipts, next)
  {
    hide Verified, Approved;
  }

  lemma AuthorizingVouches(receipts: seq<Receipt>, cache: Cache, last: Receipt)
    requires VouchedFor(receipts, cache) && last in receipts
    ensures VouchedFor(receipts, Authorized(last.k, cache, last.record.slot.manifest, last.record.catalog))
  {
    hide RecordsVouched, CatalogsApproved, AddressesExact, KeysOf, Verified;
    var manifest, catalog := last.record.slot.manifest, last.record.catalog;
    if Authorizes(last.k, cache, manifest, catalog) {
      if manifest in cache.catalogs {
        assert cache.catalogs[manifest := catalog] == cache.catalogs;
      } else {
        assert Approved(receipts, manifest, catalog);
        AddressesAdded(cache, manifest, catalog);
        CatalogAdded(receipts, cache, manifest, catalog, cache.addresses + KeysOf(manifest, catalog));
      }
    }
  }

  lemma RecordAdded(receipts: seq<Receipt>, cache: Cache, r: Record)
    requires RecordsVouched(receipts, cache) && Verified(receipts, r)
    requires r.slot.manifest in cache.catalogs && cache.catalogs[r.slot.manifest] == r.catalog
    ensures RecordsVouched(receipts, cache.(records := cache.records[r.slot := r]))
  {
    hide Verified;
  }

  lemma MergingVouches(receipts: seq<Receipt>, cache: Cache, last: Receipt)
    requires VouchedFor(receipts, cache) && last in receipts
    ensures VouchedFor(receipts, Merged(last.k, cache, last.record))
  {
    hide RecordsVouched;
    if Judge(last.k, cache, last.record).Taken? {
      assert Verified(receipts, last.record);
      RecordAdded(receipts, cache, last.record);
      var slot := last.record.slot;
      assert cache.records[slot := last.record].Keys == cache.records.Keys + {slot};
      assert slot in cache.records ==> cache.records.Keys + {slot} == cache.records.Keys;
    }
  }

  /** However it is used, a connector's cache holds only what was verified, under approved catalogs. */
  lemma {:induction false} CacheIsVouchedFor(receipts: seq<Receipt>)
    ensures VouchedFor(receipts, After(receipts))
    decreases |receipts|
  {
    hide VouchedFor, Authorized, Authorizes, Merged;
    if receipts == [] {
      NothingVouched();
    } else {
      var n := |receipts| - 1;
      var last, before := receipts[n], After(receipts[..n]);
      CacheIsVouchedFor(receipts[..n]);
      MoreReceipts(receipts[..n], before, last);
      assert receipts[..n] + [last] == receipts;
      AuthorizingVouches(receipts, before, last);
      MergingVouches(receipts, Authorized(last.k, before, last.record.slot.manifest, last.record.catalog), last);
    }
  }

  lemma NothingVouched()
    ensures VouchedFor([], EMPTY)
  {
  }

  /** No peer can make one synchronization receive more than 512 records. */
  lemma {:induction false} ExchangeIsBounded(peer: Peer, page: nat, cursor: nat)
    requires page <= MAX_SYNC_PAGES
    ensures |Exchange(peer, page, cursor).1| <= 512 - 2 * page
    decreases MAX_SYNC_PAGES - page
  {
    if page < MAX_SYNC_PAGES {
      var a := peer(page, cursor);
      if Usable(a) && a.next.Some? && a.next.value > cursor {
        ExchangeIsBounded(peer, page + 1, a.next.value);
      }
    }
  }
}
