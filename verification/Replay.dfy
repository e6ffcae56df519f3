/** The agent's cache of message nonces it has acted on: a FIFO queue and a map
    (`podmesh-agent/src/service.rs`).
 */
module Replay {

  const MAX_REPLAY_ENTRIES: nat := 16_384

  /** The contents of a cache as a value. */
  datatype Cache = Cache(seen: map<string, nat>, order: seq<string>)

  const EMPTY := Cache(map[], [])

  predicate Distinct(order: seq<string>) {
    forall i, j | 0 <= i < j < |order| :: order[i] != order[j]
  }

  /** The queue lists the map's keys once each, and is bounded. */
  ghost predicate Consistent(c: Cache) {
    && Distinct(c.order)
    && (forall key :: key in c.seen <==> key in c.order)
    && |c.order| <= MAX_REPLAY_ENTRIES
  }

  /** Entries at the front of the queue that have expired, or lost their map entry, are dropped. */
  function DropExpired(c: Cache, now: nat): Cache
    decreases |c.order|
  {
    if c.order == [] then c
    else
      var oldest := c.order[0];
      if oldest !in c.seen then DropExpired(c.(order := c.order[1..]), now)
      else if c.seen[oldest] < now then DropExpired(Cache(c.seen - {oldest}, c.order[1..]), now)
      else c
  }

  function EvictIfFull(c: Cache): Cache {
    if |c.order| >= MAX_REPLAY_ENTRIES then Cache(c.seen - {c.order[0]}, c.order[1..]) else c
  }

  datatype Call = Call(key: string, expires: nat, now: nat)

  predicate Accepts(c: Cache, call: Call) {
    call.key !in DropExpired(c, call.now).seen
  }

  function Recorded(c: Cache, call: Call): Cache {
    var swept := DropExpired(c, call.now);
    if call.key in swept.seen then swept
    else
      var room := EvictIfFull(swept);
      Cache(room.seen[call.key := call.expires], room.order + [call.key])
  }

  class ReplayCache {
    var seen: map<string, nat>
    var order: seq<string>

    ghost function Contents(): Cache
      reads this
    {
      Cache(seen, order)
    }

    constructor ()
      ensures Contents() == EMPTY
    {
      seen, order := map[], [];
    }

    /** `false` is the "replayed request" error. */
    method Record(key: string, expiresAt: nat, now: nat) returns (ok: bool)
      modifies this
      ensures ok == Accepts(old(Contents()), Call(key, expiresAt, now))
      ensures Contents() == Recorded(old(Contents()), Call(key, expiresAt, now))
    {
      var front := true;
      while front && |order| > 0
        invariant DropExpired(Contents(), now) == DropExpired(old(Contents()), now)
        invariant !front ==> DropExpired(Contents(), now) == Contents()
        decreases |order|, front
      {
        var oldest := order[0];
        if oldest in seen {
          if seen[oldest] < now {
            seen, order := seen - {oldest}, order[1..];
          } else {
            front := false;
          }
        } else {
          order := order[1..];
        }
      }
      if key in seen {
        return false;
      }
      if |order| >= MAX_REPLAY_ENTRIES {
        seen, order := seen - {order[0]}, order[1..];
      }
      seen, order := seen[key := expiresAt], order + [key];
      ok := true;
    }
  }

  // ---- what every call keeps ----

  lemma {:induction false} DropKeeps(c: Cache, now: nat)
    requires Consistent(c)
    ensures Consistent(DropExpired(c, now))
    decreases |c.order|
  {
    if c.order != [] && c.seen[c.order[0]] < now {
      var rest := Cache(c.seen - {c.order[0]}, c.order[1..]);
      forall key ensures key in rest.seen <==> key in rest.order {
        assert key in c.order <==> key == c.order[0] || key in c.order[1..];
      }
      DropKeeps(rest, now);
    }
  }

  lemma EvictKeeps(c: Cache)
    requires Consistent(c)
    ensures Consistent(EvictIfFull(c)) && |EvictIfFull(c).order| < MAX_REPLAY_ENTRIES
    ensures EvictIfFull(c).seen.Keys <= c.seen.Keys
  {
    if |c.order| >= MAX_REPLAY_ENTRIES {
      forall key ensures key in c.seen - {c.order[0]} <==> key in c.order[1..] {
        assert key in c.order <==> key == c.order[0] || key in c.order[1..];
      }
    }
  }

  /** Every call keeps the queue and the map in step. */
  lemma RecordKeeps(c: Cache, call: Call)
    requires Consistent(c)
    ensures Consistent(Recorded(c, call))
  {
    DropKeeps(c, call.now);
    var swept := DropExpired(c, call.now);
    if call.key !in swept.seen {
      EvictKeeps(swept);
    }
  }

  // ---- runs of calls ----

  function Play(c: Cache, calls: seq<Call>): Cache
    decreases |calls|
  {
    if calls == [] then c else Recorded(Play(c, calls[..|calls| - 1]), calls[|calls| - 1])
  }

  function AcceptedCount(c: Cache, calls: seq<Call>): nat
    decreases |calls|
  {
    if calls == [] then 0
    else
      var n := |calls| - 1;
      AcceptedCount(c, calls[..n]) + if Accepts(Play(c, calls[..n]), calls[n]) then 1 else 0
  }

  /** However a new cache is used, its queue has no duplicates, lists exactly the map's keys and is bounded. */
  lemma {:induction false} AlwaysConsistent(calls: seq<Call>)
    ensures Consistent(Play(EMPTY, calls))
    decreases |calls|
  {
    if calls != [] {
      AlwaysConsistent(calls[..|calls| - 1]);
      RecordKeeps(Play(EMPTY, calls[..|calls| - 1]), calls[|calls| - 1]);
    }
  }

  /** `key` is remembered until `expires`, with `behind` younger entries queued after it. */
  ghost predicate Remembers(c: Cache, key: string, expires: nat, behind: nat) {
    && key in c.seen && c.seen[key] == expires
    && behind < |c.order| && c.order[|c.order| - 1 - behind] == key
  }

  lemma {:induction false} DropRemembers(c: Cache, key: string, expires: nat, behind: nat, now: nat)
    requires Consistent(c) && Remembers(c, key, expires, behind) && now <= expires
    ensures Remembers(DropExpired(c, now), key, expires, behind)
    decreases |c.order|
  {
    if c.seen[c.order[0]] < now {
      var rest := Cache(c.seen - {c.order[0]}, c.order[1..]);
      forall k ensures k in rest.seen <==> k in rest.order {
        assert k in c.order <==> k == c.order[0] || k in c.order[1..];
      }
      DropRemembers(rest, key, expires, behind, now);
    }
  }

  /** One call made while the entry is live: a refused one leaves it where it is, an accepted one pushes it
      one place towards the front, and the last place falls off. */
  lemma RecordMoves(c: Cache, key: string, expires: nat, behind: nat, call: Call)
    requires Consistent(c) && Remembers(c, key, expires, behind) && call.now <= expires
    ensures call.key == key ==> !Accepts(c, call)
    ensures !Accepts(c, call) ==> Remembers(Recorded(c, call), key, expires, behind)
    ensures Accepts(c, call) && behind + 1 < MAX_REPLAY_ENTRIES ==>
              Remembers(Recorded(c, call), key, expires, behind + 1)
    ensures Accepts(c, call) && behind + 1 >= MAX_REPLAY_ENTRIES ==> key !in Recorded(c, call).seen
  {
    DropRemembers(c, key, expires, behind, call.now);
    DropKeeps(c, call.now);
    var swept := DropExpired(c, call.now);
    if Accepts(c, call) {
      EvictKeeps(swept);
    }
  }

  /** The entry just after `key` was accepted. */
  lemma AcceptedIsRemembered(c: Cache, call: Call)
    requires Consistent(c) && Accepts(c, call)
    ensures Remembers(Recorded(c, call), call.key, call.expires, 0)
  {
  }

  lemma {:induction false} LiveEntryMoves(c: Cache, first: Call, calls: seq<Call>)
    requires Consistent(c) && Accepts(c, first)
    requires forall i | 0 <= i < |calls| :: calls[i].now <= first.expires
    requires AcceptedCount(Recorded(c, first), calls) < MAX_REPLAY_ENTRIES
    ensures Consistent(Play(Recorded(c, first), calls))
    ensures Remembers(Play(Recorded(c, first), calls), first.key, first.expires,
                      AcceptedCount(Recorded(c, first), calls))
    decreases |calls|
  {
    RecordKeeps(c, first);
    if calls == [] {
      AcceptedIsRemembered(c, first);
    } else {
      var n := |calls| - 1;
      LiveEntryMoves(c, first, calls[..n]);
      var before := Play(Recorded(c, first), calls[..n]);
      RecordKeeps(before, calls[n]);
      RecordMoves(before, first.key, first.expires, AcceptedCount(Recorded(c, first), calls[..n]), calls[n]);
    }
  }

  /** An accepted key is refused again while every call's clock is at most its recorded expiry and fewer
      than `MAX_REPLAY_ENTRIES` other keys were accepted since. */
  lemma ReplayRefused(c: Cache, first: Call, calls: seq<Call>, again: Call)
    requires Consistent(c) && Accepts(c, first)
    requires forall i | 0 <= i < |calls| :: calls[i].now <= first.expires
    requires AcceptedCount(Recorded(c, first), calls) < MAX_REPLAY_ENTRIES
    requires again.key == first.key && again.now <= first.expires
    ensures !Accepts(Play(Recorded(c, first), calls), again)
  {
    LiveEntryMoves(c, first, calls);
    RecordMoves(Play(Recorded(c, first), calls), first.key, first.expires,
                AcceptedCount(Recorded(c, first), calls), again);
  }

  /** The bound is exact: the call that accepts the `MAX_REPLAY_ENTRIES`-th other key forgets the first. */
  lemma ReplayForgottenAtBound(c: Cache, first: Call, calls: seq<Call>, last: Call)
    requires Consistent(c) && Accepts(c, first)
    requires forall i | 0 <= i < |calls| :: calls[i].now <= first.expires
    requires AcceptedCount(Recorded(c, first), calls) == MAX_REPLAY_ENTRIES - 1
    requires last.now <= first.expires && Accepts(Play(Recorded(c, first), calls), last)
    ensures first.key !in Play(Recorded(c, first), calls + [last]).seen
  {
    LiveEntryMoves(c, first, calls);
    RecordMoves(Play(Recorded(c, first), calls), first.key, first.expires, MAX_REPLAY_ENTRIES - 1, last);
    assert (calls + [last])[..|calls|] == calls;
  }

  lemma {:induction false} DropOnlyRemoves(c: Cache, now: nat)
    ensures forall key | key in DropExpired(c, now).seen :: key in c.seen && DropExpired(c, now).seen[key] == c.seen[key]
    decreases |c.order|
  {
    if c.order != [] {
      var oldest := c.order[0];
      if oldest !in c.seen {
        DropOnlyRemoves(c.(order := c.order[1..]), now);
      } else if c.seen[oldest] < now {
        DropOnlyRemoves(Cache(c.seen - {oldest}, c.order[1..]), now);
      }
    }
  }

  /** Nothing is refused that was not accepted before: each remembered key names the call that put it there. */
  lemma {:induction false} RememberedWasAccepted(calls: seq<Call>, key: string) returns (i: nat)
    requires key in Play(EMPTY, calls).seen
    ensures i < |calls| && calls[i].key == key && Accepts(Play(EMPTY, calls[..i]), calls[i])
    ensures Play(EMPTY, calls).seen[key] == calls[i].expires
    decreases |calls|
  {
    var n := |calls| - 1;
    var before := Play(EMPTY, calls[..n]);
    if Accepts(before, calls[n]) && calls[n].key == key {
      i := n;
    } else {
      DropOnlyRemoves(before, calls[n].now);
      i := RememberedWasAccepted(calls[..n], key);
      assert calls[..n][..i] == calls[..i];
    }
  }

  // ---- exactly which keys are remembered ----

  /** An accepted key, as it was recorded. */
  datatype Note = Note(key: string, expires: nat)

  /** Everything ever accepted, in order, and how many of the oldest have been forgotten. */
  datatype Journal = Journal(notes: seq<Note>, forgotten: nat)

  predicate Proper(j: Journal) {
    j.forgotten <= |j.notes|
  }

  /** A call forgets from the oldest on, up to the first note that has not expired. */
  function Forget(j: Journal, now: nat): (r: Journal)
    requires Proper(j)
    ensures Proper(r) && r.notes == j.notes
    decreases |j.notes| - j.forgotten
  {
    if j.forgotten < |j.notes| && j.notes[j.forgotten].expires < now then Forget(j.(forgotten := j.forgotten + 1), now)
    else j
  }

  predicate InJournal(j: Journal, key: string)
    requires Proper(j)
  {
    exists i | j.forgotten <= i < |j.notes| :: j.notes[i].key == key
  }

  function Noted(j: Journal, call: Call): (r: Journal)
    requires Proper(j)
    ensures Proper(r)
  {
    var left := Forget(j, call.now);
    if InJournal(left, call.key) then left
    else
      Journal(left.notes + [Note(call.key, call.expires)],
              if |left.notes| - left.forgotten >= MAX_REPLAY_ENTRIES then left.forgotten + 1 else left.forgotten)
  }

  function JournalOf(calls: seq<Call>): (j: Journal)
    ensures Proper(j)
  {
    if calls == [] then Journal([], 0) else Noted(JournalOf(calls[..|calls| - 1]), calls[|calls| - 1])
  }

  /** The cache holds the notes that have not been forgotten. */
  ghost predicate Holds(c: Cache, j: Journal) {
    && Proper(j) && |c.order| == |j.notes| - j.forgotten
    && forall i | 0 <= i < |c.order| :: HoldsAt(c, j, i)
  }

  predicate HoldsAt(c: Cache, j: Journal, i: nat)
    requires i < |c.order| && j.forgotten + i < |j.notes|
  {
    var note := j.notes[j.forgotten + i];
    c.order[i] == note.key && note.key in c.seen && c.seen[note.key] == note.expires
  }

  lemma HoldsKey(c: Cache, j: Journal, key: string)
    requires Consistent(c) && Holds(c, j)
    ensures key in c.seen <==> InJournal(j, key)
  {
    if key in c.seen {
      var i :| 0 <= i < |c.order| && c.order[i] == key;
      assert HoldsAt(c, j, i);
    }
    if InJournal(j, key) {
      var i :| j.forgotten <= i < |j.notes| && j.notes[i].key == key;
      assert HoldsAt(c, j, i - j.forgotten);
    }
  }

  function Rest(c: Cache): Cache
    requires c.order != []
  {
    Cache(c.seen - {c.order[0]}, c.order[1..])
  }

  lemma RestConsistent(c: Cache)
    requires Consistent(c) && c.order != []
    ensures Consistent(Rest(c))
  {
    var rest := Rest(c);
    assert Distinct(rest.order) by {
      forall i, j | 0 <= i < j < |rest.order| ensures rest.order[i] != rest.order[j] {
        assert c.order[i + 1] != c.order[j + 1];
      }
    }
    hide Distinct;
    assert c.order[0] !in rest.order by { FrontIsOnce(c); }
    forall key ensures key in rest.seen <==> key in rest.order {
      assert key in c.order <==> key == c.order[0] || key in c.order[1..];
    }
  }

  lemma FrontIsOnce(c: Cache)
    requires Consistent(c) && c.order != []
    ensures c.order[0] !in c.order[1..]
  {
    forall i | 0 <= i < |c.order[1..]| ensures c.order[1..][i] != c.order[0] {
      assert c.order[1..][i] == c.order[i + 1];
    }
  }

  lemma HoldsRest(c: Cache, j: Journal)
    requires Consistent(c) && Holds(c, j) && c.order != []
    ensures Consistent(Rest(c)) && Holds(Rest(c), j.(forgotten := j.forgotten + 1))
  {
    hide Consistent;
    RestConsistent(c);
    FrontIsOnce(c);
    var rest, left := Rest(c), j.(forgotten := j.forgotten + 1);
    forall i | 0 <= i < |rest.order| ensures HoldsAt(rest, left, i) {
      assert HoldsAt(c, j, i + 1);
      assert rest.order[i] == c.order[i + 1] && rest.order[i] in rest.order;
    }
  }

  lemma {:induction false} DropHolds(c: Cache, j: Journal, now: nat)
    requires Consistent(c) && Holds(c, j)
    ensures Consistent(DropExpired(c, now)) && Holds(DropExpired(c, now), Forget(j, now))
    decreases |c.order|
  {
    hide Consistent, Holds;
    if c.order == [] {
      NothingHeld(c, j);
    } else {
      FrontHolds(c, j);
      if c.seen[c.order[0]] < now {
        HoldsRest(c, j);
        DropHolds(Rest(c), j.(forgotten := j.forgotten + 1), now);
      }
    }
  }

  lemma FrontHolds(c: Cache, j: Journal)
    requires Holds(c, j) && c.order != []
    ensures j.forgotten < |j.notes| && c.order[0] in c.seen
    ensures c.seen[c.order[0]] == j.notes[j.forgotten].expires
  {
    assert HoldsAt(c, j, 0);
  }

  lemma NothingHeld(c: Cache, j: Journal)
    requires Holds(c, j) && c.order == []
    ensures j.forgotten == |j.notes|
  {
  }

  lemma EvictHolds(c: Cache, j: Journal)
    requires Consistent(c) && Holds(c, j)
    ensures Holds(EvictIfFull(c), if |c.order| >= MAX_REPLAY_ENTRIES then j.(forgotten := j.forgotten + 1) else j)
    ensures Consistent(EvictIfFull(c))
  {
    if |c.order| >= MAX_REPLAY_ENTRIES {
      HoldsRest(c, j);
    }
  }

  lemma AppendHolds(c: Cache, j: Journal, key: string, expires: nat)
    requires Holds(c, j) && key !in c.seen && Consistent(c)
    ensures Holds(Cache(c.seen[key := expires], c.order + [key]), Journal(j.notes + [Note(key, expires)], j.forgotten))
  {
    var more := Cache(c.seen[key := expires], c.order + [key]);
    var noted := Journal(j.notes + [Note(key, expires)], j.forgotten);
    forall i | 0 <= i < |more.order| ensures HoldsAt(more, noted, i) {
      assert i < |c.order| ==> HoldsAt(c, j, i) && c.order[i] in c.order;
    }
  }

  lemma RecordHolds(c: Cache, j: Journal, call: Call)
    requires Proper(j) && Consistent(c) && Holds(c, j)
    ensures Holds(Recorded(c, call), Noted(j, call))
  {
    hide DropExpired, Forget, Holds, Consistent, EvictIfFull, InJournal;
    DropHolds(c, j, call.now);
    var swept, left := DropExpired(c, call.now), Forget(j, call.now);
    HoldsKey(swept, left, call.key);
    if call.key !in swept.seen {
      EvictHolds(swept, left);
      SweptSize(swept, left);
      EvictedLacks(swept, call.key);
      var room := EvictIfFull(swept);
      AppendHolds(room, if |swept.order| >= MAX_REPLAY_ENTRIES then left.(forgotten := left.forgotten + 1) else left,
                  call.key, call.expires);
    }
  }

  lemma SweptSize(c: Cache, j: Journal)
    requires Holds(c, j)
    ensures |c.order| == |j.notes| - j.forgotten
  {
  }

  lemma EvictedLacks(c: Cache, key: string)
    requires key !in c.seen
    ensures key !in EvictIfFull(c).seen
  {
  }

  lemma {:induction false} CacheIsJournal(calls: seq<Call>)
    ensures Holds(Play(EMPTY, calls), JournalOf(calls))
    decreases |calls|
  {
    hide Recorded, Noted, Consistent;
    if calls != [] {
      CacheIsJournal(calls[..|calls| - 1]);
      AlwaysConsistent(calls[..|calls| - 1]);
      RecordHolds(Play(EMPTY, calls[..|calls| - 1]), JournalOf(calls[..|calls| - 1]), calls[|calls| - 1]);
    }
  }

  lemma {:induction false} ForgetKeeps(j: Journal, now: nat, i: nat)
    requires Proper(j) && j.forgotten <= i < |j.notes|
    ensures Forget(j, now).forgotten <= i <==> exists k | j.forgotten <= k <= i :: j.notes[k].expires >= now
    decreases |j.notes| - j.forgotten
  {
    if j.notes[j.forgotten].expires < now && j.forgotten < i {
      ForgetKeeps(j.(forgotten := j.forgotten + 1), now, i);
    } else if j.notes[j.forgotten].expires < now {
      ForgetsNoLess(j.(forgotten := j.forgotten + 1), now);
    }
  }

  lemma {:induction false} ForgetsNoLess(j: Journal, now: nat)
    requires Proper(j)
    ensures Forget(j, now).forgotten >= j.forgotten
    decreases |j.notes| - j.forgotten
  {
    if j.forgotten < |j.notes| && j.notes[j.forgotten].expires < now {
      ForgetsNoLess(j.(forgotten := j.forgotten + 1), now);
    }
  }

  /** After any calls, a call is refused as a replay if and only if its key is among the notes not forgotten and
      that note, or an older one not forgotten, is still live: an expired key is refused for as long as a live one
      stands in front of it. */
  lemma RefusedExactly(calls: seq<Call>, call: Call)
    ensures var j := JournalOf(calls);
            !Accepts(Play(EMPTY, calls), call) <==>
            exists k, i | j.forgotten <= k <= i < |j.notes| ::
              j.notes[k].expires >= call.now && j.notes[i].key == call.key
  {
    hide Consistent, Holds, Forget, JournalOf, Play;
    var j := JournalOf(calls);
    CacheIsJournal(calls);
    AlwaysConsistent(calls);
    DropHolds(Play(EMPTY, calls), j, call.now);
    var left := Forget(j, call.now);
    HoldsKey(DropExpired(Play(EMPTY, calls), call.now), left, call.key);
    if InJournal(left, call.key) {
      var i :| left.forgotten <= i < |left.notes| && left.notes[i].key == call.key;
      ForgetsNoLess(j, call.now);
      ForgetKeeps(j, call.now, i);
    }
    forall k, i | j.forgotten <= k <= i < |j.notes| && j.notes[k].expires >= call.now && j.notes[i].key == call.key
      ensures InJournal(left, call.key)
    {
      ForgetKeeps(j, call.now, i);
    }
  }

  /** For example, a key recorded after another that lives longer is refused past its own expiry, until the other
      expires too. */
  lemma ExpiredBehindLive(first: Call, second: Call, again: Call)
    requires first.key != second.key == again.key && second.now <= first.expires
    requires second.expires < again.now <= first.expires
    ensures Accepts(EMPTY, first) && Accepts(Play(EMPTY, [first]), second)
    ensures !Accepts(Play(EMPTY, [first, second]), again)
  {
    assert [first, second][..1] == [first] && [first][..0] == [];
    assert Play(EMPTY, [first]) == Cache(map[first.key := first.expires], [first.key]);
    assert Play(EMPTY, [first, second]) ==
           Cache(map[first.key := first.expires, second.key := second.expires], [first.key, second.key]);
  }
}
