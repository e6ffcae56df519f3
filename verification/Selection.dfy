/** Choosing a port and a replica order for one request (`podmesh-proxy/src/routes.rs`). */
module Selection {
  import opened Quantities
  import opened Options

  /** An empty host stands for "any host of this workload". */
  datatype Route = Route(host: string, prefix: string, port: nat)

  datatype Backend = Backend(peer: string, routes: seq<Route>, registeredAt: U64)

  datatype Target = Target(replica: nat, peer: string, port: nat)

  function LowerChar(c: char): char {
    if 'A' <= c <= 'Z' then c - 'A' + 'a' else c
  }

  /** `to_ascii_lowercase`; two strings are equal ignoring ASCII case when their lower cases are equal. */
  function Lower(s: string): string {
    seq(|s|, i requires 0 <= i < |s| => LowerChar(s[i]))
  }

  // ---- which port serves a request ----

  function BeforeQuery(path: string): string {
    if path == "" || path[0] == '?' then "" else [path[0]] + BeforeQuery(path[1..])
  }

  predicate Serves(r: Route, path: string, host: Option<string>) {
    && r.prefix <= BeforeQuery(path)
    && (r.host != "" ==> host.Some? && Lower(r.host) == Lower(host.value))
  }

  /** Host-scoped before host-agnostic, then the longer prefix, then the lower port. */
  predicate AtLeast(a: Route, b: Route) {
    if (a.host != "") != (b.host != "") then a.host != ""
    else if |a.prefix| != |b.prefix| then |a.prefix| > |b.prefix|
    else a.port <= b.port
  }

  /** `filter` and `max_by_key`: the last of the greatest routes that serve the request. */
  function Best(routes: seq<Route>, path: string, host: Option<string>): Option<Route> {
    if routes == [] then None
    else
      var last := routes[|routes| - 1];
      var best := Best(routes[..|routes| - 1], path, host);
      if Serves(last, path, host) && (best.None? || AtLeast(last, best.value)) then Some(last) else best
  }

  function SelectPort(routes: seq<Route>, path: string, host: Option<string>): Option<nat> {
    var best := Best(routes, path, host);
    if best.Some? then Some(best.value.port) else None
  }

  predicate IsGreatest(r: Route, routes: seq<Route>, path: string, host: Option<string>) {
    r in routes && Serves(r, path, host) && forall q | q in routes && Serves(q, path, host) :: AtLeast(r, q)
  }

  lemma {:induction false} BestIsGreatest(routes: seq<Route>, path: string, host: Option<string>)
    ensures match Best(routes, path, host)
            case Some(r) => IsGreatest(r, routes, path, host)
            case None => forall q | q in routes :: !Serves(q, path, host)
  {
    hide Serves;
    if routes != [] {
      var rest := routes[..|routes| - 1];
      BestIsGreatest(rest, path, host);
      assert routes == rest + [routes[|routes| - 1]];
    }
  }

  /** Letter by letter the same, but for the case of ASCII letters. */
  predicate SameLetter(a: char, b: char) {
    || a == b
    || ('A' <= a <= 'Z' && b as int == a as int + 32)
    || ('A' <= b <= 'Z' && a as int == b as int + 32)
  }

  predicate SameName(a: string, b: string) {
    |a| == |b| && forall i | 0 <= i < |a| :: SameLetter(a[i], b[i])
  }

  /** A route matches a request: its prefix is one of the path, cut at the first question mark, and it is for any
      host or for the requested one. */
  ghost predicate Matches(r: Route, path: string, host: Option<string>) {
    && (exists n | 0 <= n <= |path| ::
          '?' !in path[..n] && (n == |path| || path[n] == '?') && r.prefix <= path[..n])
    && (r.host == "" || (host.Some? && SameName(r.host, host.value)))
  }

  lemma SameLower(a: string, b: string)
    ensures Lower(a) == Lower(b) <==> SameName(a, b)
  {
    if Lower(a) == Lower(b) {
      assert |Lower(a)| == |a| && |Lower(b)| == |b|;
      forall i | 0 <= i < |a| ensures SameLetter(a[i], b[i]) {
        assert Lower(a)[i] == Lower(b)[i];
      }
    }
  }

  lemma {:induction false} QueryCut(path: string)
    ensures var n := |BeforeQuery(path)|;
            n <= |path| && path[..n] == BeforeQuery(path) && '?' !in path[..n] && (n == |path| || path[n] == '?')
  {
    if path != "" && path[0] != '?' {
      QueryCut(path[1..]);
      assert path == [path[0]] + path[1..];
    }
  }

  lemma ServesMatches(r: Route, path: string, host: Option<string>)
    ensures Serves(r, path, host) <==> Matches(r, path, host)
  {
    hide Lower, BeforeQuery, SameName;
    QueryCut(path);
    if host.Some? {
      SameLower(r.host, host.value);
    }
    var cut := |BeforeQuery(path)|;
    forall n | 0 <= n <= |path| && '?' !in path[..n] && (n == |path| || path[n] == '?') ensures n == cut {
      CutNoLater(path, n, cut);
      CutNoLater(path, cut, n);
    }
  }

  lemma CutNoLater(path: string, a: nat, b: nat)
    requires a <= |path| && b <= |path| && '?' !in path[..a] && (b == |path| || path[b] == '?')
    ensures a <= b
  {
    assert forall i | 0 <= i < a :: path[i] in path[..a];
  }

  /** A port is selected exactly when it is that of a matching route such that every matching route is for any host
      if it is, at the same scope has no longer prefix, and at the same scope and length no lower port; so nothing is
      selected exactly when nothing matches. */
  lemma SelectsBestPort(routes: seq<Route>, path: string, host: Option<string>, port: nat)
    ensures SelectPort(routes, path, host) == Some(port) <==>
            exists r | r in routes && Matches(r, path, host) ::
              && r.port == port
              && forall q | q in routes && Matches(q, path, host) ::
                   && (q.host != "" ==> r.host != "")
                   && ((q.host == "" <==> r.host == "") ==> |q.prefix| <= |r.prefix|)
                   && ((q.host == "" <==> r.host == "") && |q.prefix| == |r.prefix| ==> r.port <= q.port)
    ensures SelectPort(routes, path, host) == None <==> forall q | q in routes :: !Matches(q, path, host)
  {
    hide Serves, Matches;
    forall r ensures Serves(r, path, host) <==> Matches(r, path, host) {
      ServesMatches(r, path, host);
    }
    BestIsGreatest(routes, path, host);
  }

  /** The choice does not depend on the order or repetition of the routes. */
  lemma OrderDoesNotMatter(a: seq<Route>, b: seq<Route>, path: string, host: Option<string>)
    requires forall r :: r in a <==> r in b
    ensures SelectPort(a, path, host) == SelectPort(b, path, host)
  {
    hide Serves, Best;
    BestIsGreatest(a, path, host);
    BestIsGreatest(b, path, host);
  }

  lemma {:induction false} QueryIsCut(path: string, query: string)
    requires '?' !in path
    ensures BeforeQuery(path + "?" + query) == path
  {
    if path == "" {
      assert path + "?" + query == "?" + query;
    } else {
      QueryIsCut(path[1..], query);
      assert (path + "?" + query)[1..] == path[1..] + "?" + query;
    }
  }

  lemma {:induction false} NoQueryIsKept(path: string)
    requires '?' !in path
    ensures BeforeQuery(path) == path
  {
    if path != "" {
      NoQueryIsKept(path[1..]);
    }
  }

  /** Neither a query string nor the case of the requested host affects the choice. */
  lemma {:induction false} QueryAndCaseDoNotMatter(routes: seq<Route>, path: string, query: string, host: string)
    requires '?' !in path
    ensures SelectPort(routes, path + "?" + query, Some(host)) == SelectPort(routes, path, Some(Lower(host)))
  {
    QueryIsCut(path, query);
    NoQueryIsKept(path);
    assert Lower(Lower(host)) == Lower(host);
    SameBest(routes, path + "?" + query, Some(host), path, Some(Lower(host)));
  }

  lemma {:induction false} SameBest(routes: seq<Route>, path: string, host: Option<string>, path': string,
                                    host': Option<string>)
    requires forall r :: Serves(r, path, host) <==> Serves(r, path', host')
    ensures Best(routes, path, host) == Best(routes, path', host')
  {
    hide Serves;
    if routes != [] {
      SameBest(routes[..|routes| - 1], path, host, path', host');
    }
  }

  // ---- which replicas can serve it ----

  predicate CanServe(backends: map<nat, Backend>, path: string, host: Option<string>, t: Target) {
    && t.replica in backends
    && SelectPort(backends[t.replica].routes, path, host) == Some(t.port)
    && t.peer == backends[t.replica].peer
  }

  predicate Ascending(c: seq<Target>) {
    forall i, j | 0 <= i < j < |c| :: c[i].replica < c[j].replica
  }

  /** The candidates of a request: each serving replica once, by ascending index. */
  ghost predicate AreCandidates(c: seq<Target>, backends: map<nat, Backend>, path: string, host: Option<string>) {
    Ascending(c) && forall t :: t in c <==> CanServe(backends, path, host, t)
  }

  lemma SomeElement(c: seq<Target>)
    ensures c == [] || exists t :: t in c
  {
    if c != [] {
      assert c[0] in c;
    }
  }

  lemma {:induction false} AscendingUnique(a: seq<Target>, b: seq<Target>)
    requires Ascending(a) && Ascending(b) && forall t :: t in a <==> t in b
    ensures a == b
    decreases |a|
  {
    SomeElement(b);
    SomeElement(a);
    if a != [] && b != [] {
      assert a[0] in b && b[0] in a;
      assert a[0] == b[0];
      forall t ensures t in a[1..] <==> t in b[1..] {
        assert t in a <==> t == a[0] || t in a[1..];
        assert t in b <==> t == b[0] || t in b[1..];
      }
      AscendingUnique(a[1..], b[1..]);
    }
  }

  /** A request has one list of candidates. */
  lemma CandidatesUnique(a: seq<Target>, b: seq<Target>, backends: map<nat, Backend>, path: string,
                         host: Option<string>)
    requires AreCandidates(a, backends, path, host) && AreCandidates(b, backends, path, host)
    ensures a == b
  {
    hide CanServe;
    AscendingUnique(a, b);
  }

  predicate IsLeast(s: set<nat>, least: nat) {
    least in s && forall k | k in s :: least <= k
  }

  lemma {:induction false} LeastExists(s: set<nat>) returns (least: nat)
    requires s != {}
    ensures IsLeast(s, least)
  {
    var x :| x in s;
    least := x;
    if s - {x} != {} {
      var other := LeastExists(s - {x});
      least := if x < other then x else other;
      forall k | k in s ensures least <= k {
        assert k == x || k in s - {x};
      }
    } else {
      assert s == {x};
    }
  }

  method Least(s: set<nat>) returns (least: nat)
    requires s != {}
    ensures IsLeast(s, least)
  {
    ghost var some := LeastExists(s);
    least :| least in s && IsLeast(s, least);
  }

  /** `c` lists the serving replicas outside `left`, all of which come before it. */
  ghost predicate Collected(c: seq<Target>, left: set<nat>, backends: map<nat, Backend>, path: string,
                            host: Option<string>)
  {
    && Ascending(c)
    && (forall t, i | t in c && i in left :: t.replica < i)
    && (forall t :: t in c <==> t.replica !in left && CanServe(backends, path, host, t))
  }

  lemma CollectOne(c: seq<Target>, left: set<nat>, i: nat, backends: map<nat, Backend>, path: string,
                   host: Option<string>)
    requires Collected(c, left, backends, path, host) && i in backends && IsLeast(left, i)
    ensures var port := SelectPort(backends[i].routes, path, host);
            Collected(if port.Some? then c + [Target(i, backends[i].peer, port.value)] else c, left - {i},
                      backends, path, host)
  {
    hide SelectPort;
    var port := SelectPort(backends[i].routes, path, host);
    if port.Some? {
      var one := Target(i, backends[i].peer, port.value);
      var c' := c + [one];
      forall t ensures t in c' <==> t.replica !in left - {i} && CanServe(backends, path, host, t) {
        assert t in c' <==> t in c || t == one;
      }
      forall a, b | 0 <= a < b < |c'| ensures c'[a].replica < c'[b].replica {
        assert a < |c| && c[a] in c;
      }
    }
  }

  /** The loop over an ordered map's entries. */
  method Candidates(backends: map<nat, Backend>, path: string, host: Option<string>) returns (c: seq<Target>)
    ensures AreCandidates(c, backends, path, host)
  {
    c := [];
    var left := backends.Keys;
    while left != {}
      invariant left <= backends.Keys && Collected(c, left, backends, path, host)
      decreases left
    {
      hide Collected;
      var i := Least(left);
      CollectOne(c, left, i, backends, path, host);
      var port := SelectPort(backends[i].routes, path, host);
      if port.Some? {
        c := c + [Target(i, backends[i].peer, port.value)];
      }
      left := left - {i};
    }
  }

  // ---- rotation ----

  function Rotated(c: seq<Target>, start: nat): seq<Target>
    requires start <= |c|
  {
    c[start..] + c[..start]
  }

  lemma RotationPermutes(c: seq<Target>, start: nat)
    requires start < |c|
    ensures |Rotated(c, start)| == |c| && multiset(Rotated(c, start)) == multiset(c)
    ensures Rotated(c, start)[0] == c[start]
    ensures Ascending(c) ==> forall i, j | 0 <= i < j < |c| :: Rotated(c, start)[i] != Rotated(c, start)[j]
  {
    assert c == c[..start] + c[start..];
  }

  /** The remainder, named so that proofs can use its laws rather than nonlinear arithmetic. */
  function Rem(x: nat, n: nat): (r: nat)
    requires 0 < n
    ensures r < n
  {
    x % n
  }

  lemma Split(a: nat, b: nat, c: nat)
    ensures a * (b + c) == a * b + a * c
  {
  }

  lemma RemSmall(x: nat, n: nat)
    requires x < n
    ensures Rem(x, n) == x
  {
  }

  lemma RemUnique(n: nat, q: nat, r: nat, q': nat, r': nat)
    requires r < n && r' < n && n * q + r == n * q' + r'
    ensures r == r'
  {
    if q < q' {
      Split(n, q, q' - q);
      Split(n, 1, q' - q - 1);
    } else if q' < q {
      Split(n, q', q - q');
      Split(n, 1, q - q' - 1);
    }
  }

  lemma RemAdd(x: nat, n: nat)
    requires 0 < n
    ensures Rem(x + n, n) == Rem(x, n)
  {
    assert x == n * (x / n) + x % n;
    assert x + n == n * ((x + n) / n) + (x + n) % n;
    Split(n, x / n, 1);
    RemUnique(n, x / n + 1, x % n, (x + n) / n, (x + n) % n);
  }

  lemma {:induction false} RemAddMany(x: nat, n: nat, q: nat)
    requires 0 < n
    ensures Rem(x + n * q, n) == Rem(x, n)
  {
    hide Rem;
    if q > 0 {
      RemAddMany(x, n, q - 1);
      RemAdd(x + n * (q - 1), n);
      Split(n, q - 1, 1);
    }
  }

  lemma Parts(x: nat, n: nat) returns (q: nat)
    requires 0 < n
    ensures x == n * q + Rem(x, n)
  {
    q := x / n;
  }

  /** The start of the `j`th call after a cursor that counts modulo `wrap`. */
  function Start(n: nat, wrap: nat, cursor: nat, j: nat): nat
    requires 0 < n && 0 < wrap
  {
    Rem(Rem(cursor + j, wrap), n)
  }

  /** How many of `calls` consecutive calls start at `k`. */
  function Turns(n: nat, wrap: nat, cursor: nat, calls: nat, k: nat): nat
    requires 0 < n && 0 < wrap
  {
    if calls == 0 then 0
    else Turns(n, wrap, cursor, calls - 1, k) + (if Start(n, wrap, cursor, calls - 1) == k then 1 else 0)
  }

  /** How many of the `len` numbers from `from` on leave remainder `k`. */
  function Hits(n: nat, from: nat, len: nat, k: nat): nat
    requires 0 < n
  {
    if len == 0 then 0 else Hits(n, from, len - 1, k) + (if Rem(from + len - 1, n) == k then 1 else 0)
  }

  lemma {:induction false} HitsSplit(n: nat, from: nat, a: nat, b: nat, k: nat)
    requires 0 < n
    ensures Hits(n, from, a + b, k) == Hits(n, from, a, k) + Hits(n, from + a, b, k)
    decreases b
  {
    hide Rem;
    if b > 0 {
      HitsSplit(n, from, a, b - 1, k);
    }
  }

  lemma {:induction false} HitsFromZero(n: nat, len: nat, k: nat)
    requires 0 < n && len <= n && k < n
    ensures Hits(n, 0, len, k) == if k < len then 1 else 0
  {
    hide Rem;
    if len > 0 {
      HitsFromZero(n, len - 1, k);
      RemSmall(len - 1, n);
    }
  }

  lemma {:induction false} HitsInRound(n: nat, from: nat, k: nat)
    requires 0 < n && k < n
    ensures Hits(n, from, n, k) == 1
  {
    hide Rem;
    if from == 0 {
      HitsFromZero(n, n, k);
    } else {
      HitsInRound(n, from - 1, k);
      HitsSplit(n, from - 1, 1, n, k);
      HitsSplit(n, from - 1, n, 1, k);
      RemAdd(from - 1, n);
      assert Hits(n, from - 1, 1, k) == Hits(n, from - 1 + n, 1, k) by {
        assert Hits(n, from - 1, 0, k) == 0 && Hits(n, from - 1 + n, 0, k) == 0;
      }
    }
  }

  lemma {:induction false} HitsInRounds(n: nat, from: nat, rounds: nat, k: nat)
    requires 0 < n && k < n
    ensures Hits(n, from, n * rounds, k) == rounds
  {
    hide Rem, Hits;
    if rounds == 0 {
      NoHits(n, from, k);
    } else {
      Split(n, rounds - 1, 1);
      var earlier := n * (rounds - 1);
      HitsInRounds(n, from, rounds - 1, k);
      HitsInRound(n, from + earlier, k);
      HitsSplit(n, from, earlier, n, k);
    }
  }

  lemma NoHits(n: nat, from: nat, k: nat)
    requires 0 < n
    ensures Hits(n, from, n * 0, k) == 0
  {
  }

  lemma DivisibleWrap(x: nat, wrap: nat, n: nat)
    requires 0 < n && 0 < wrap && Rem(wrap, n) == 0
    ensures Rem(Rem(x, wrap), n) == Rem(x, n)
  {
    hide Rem;
    var q := Parts(wrap, n);
    var p := Parts(x, wrap);
    assert n * q * p == n * (q * p);
    RemAddMany(Rem(x, wrap), n, q * p);
  }

  /** The cursor does not wrap during the calls, or wraps at a multiple of `n`. */
  predicate Even(n: nat, wrap: nat, cursor: nat, calls: nat)
    requires 0 < n && 0 < wrap
  {
    cursor + calls <= wrap || Rem(wrap, n) == 0
  }

  lemma {:induction false} TurnsAreHits(n: nat, wrap: nat, cursor: nat, calls: nat, k: nat)
    requires 0 < n && 0 < wrap && Even(n, wrap, cursor, calls)
    ensures Turns(n, wrap, cursor, calls, k) == Hits(n, cursor, calls, k)
  {
    hide Rem;
    if calls > 0 {
      TurnsAreHits(n, wrap, cursor, calls - 1, k);
      if cursor + calls <= wrap {
        RemSmall(cursor + calls - 1, wrap);
      } else {
        DivisibleWrap(cursor + calls - 1, wrap, n);
      }
    }
  }

  /** In any whole number of rounds each of `n` candidates is first equally often, as long as the cursor does
      not wrap on the way or the wrap-around is a multiple of `n`. */
  lemma EqualTurns(n: nat, wrap: nat, cursor: nat, rounds: nat, k: nat)
    requires 0 < n && 0 < wrap && k < n && Even(n, wrap, cursor, n * rounds)
    ensures Turns(n, wrap, cursor, n * rounds, k) == rounds
  {
    hide Rem, Turns, Hits;
    TurnsAreHits(n, wrap, cursor, n * rounds, k);
    HitsInRounds(n, cursor, rounds, k);
  }

  lemma {:induction false} TurnsAtLeast(n: nat, wrap: nat, cursor: nat, calls: nat, k: nat, i: nat, j: nat)
    requires 0 < n && 0 < wrap && i < j
    requires Start(n, wrap, cursor, i) == k && Start(n, wrap, cursor, j) == k
    ensures j < calls ==> Turns(n, wrap, cursor, calls, k) >= 2
    ensures i < calls ==> Turns(n, wrap, cursor, calls, k) >= 1
  {
    hide Start;
    if calls > 0 {
      TurnsAtLeast(n, wrap, cursor, calls - 1, k, i, j);
    }
  }

  /** Two calls of one round that start at the same candidate, when the cursor wraps inside the round. */
  lemma WrapRepeats(n: nat, wrap: nat, cursor: nat) returns (k: nat, i: nat, j: nat)
    requires 0 < n <= wrap && cursor < wrap && !Even(n, wrap, cursor, n)
    ensures i < j < n && k < n && Start(n, wrap, cursor, i) == k && Start(n, wrap, cursor, j) == k
  {
    hide Rem;
    var d := wrap - cursor;
    var r := Rem(wrap, n);
    var q := Parts(wrap, n);
    if r <= d {
      k, i, j := 0, d - r, d;
      RemSmall(cursor + i, wrap);
      RemAddMany(0, n, q);
      RemAdd(0, wrap);
      RemSmall(0, wrap);
      RemSmall(0, n);
    } else {
      k, i, j := r - d, 0, r;
      RemSmall(cursor, wrap);
      RemAddMany(r - d, n, q);
      RemSmall(r - d, n);
      RemAdd(r - d, wrap);
      RemSmall(r - d, wrap);
    }
  }

  /** One round gives each candidate exactly one turn if and only if the cursor does not wrap inside it or
      the wrap-around is a multiple of the number of candidates. */
  lemma RoundIsFair(n: nat, wrap: nat, cursor: nat)
    requires 0 < n <= wrap && cursor < wrap
    ensures (forall k | 0 <= k < n :: Turns(n, wrap, cursor, n, k) == 1) <==> Even(n, wrap, cursor, n)
  {
    hide Rem, Turns, Start;
    if Even(n, wrap, cursor, n) {
      forall k | 0 <= k < n ensures Turns(n, wrap, cursor, n, k) == 1 {
        EqualTurns(n, wrap, cursor, 1, k);
      }
    } else {
      var k, i, j := WrapRepeats(n, wrap, cursor);
      TurnsAtLeast(n, wrap, cursor, n, k, i, j);
    }
  }

  // ---- several rounds ----

  lemma {:induction false} TurnsSplit(n: nat, wrap: nat, cursor: nat, a: nat, b: nat, k: nat)
    requires 0 < n && 0 < wrap
    ensures Turns(n, wrap, cursor, a + b, k) == Turns(n, wrap, cursor, a, k) + Turns(n, wrap, cursor + a, b, k)
    decreases b
  {
    hide Rem;
    if b > 0 {
      TurnsSplit(n, wrap, cursor, a, b - 1, k);
    }
  }

  lemma {:induction false} TurnsAfterWrap(n: nat, wrap: nat, x: nat, calls: nat, k: nat)
    requires 0 < n && 0 < wrap
    ensures Turns(n, wrap, wrap + x, calls, k) == Turns(n, wrap, x, calls, k)
  {
    hide Rem;
    if calls > 0 {
      TurnsAfterWrap(n, wrap, x, calls - 1, k);
      RemAdd(x + calls - 1, wrap);
    }
  }

  /** The cursor does not wrap during the calls, wraps at a multiple of `n`, or wraps once and between two rounds. */
  predicate FairRounds(n: nat, wrap: nat, cursor: nat, calls: nat)
    requires 0 < n && cursor < wrap
  {
    || cursor + calls <= wrap
    || Rem(wrap, n) == 0
    || (Rem(wrap - cursor, n) == 0 && cursor + calls <= 2 * wrap)
  }

  lemma WrapBetweenRounds(n: nat, wrap: nat, cursor: nat, q: nat, rounds: nat, k: nat)
    requires 0 < n <= wrap && cursor < wrap && k < n && q <= rounds
    requires wrap - cursor == n * q && cursor + n * rounds <= 2 * wrap
    ensures Turns(n, wrap, cursor, n * rounds, k) == rounds
  {
    hide Rem, Turns;
    Split(n, q, rounds - q);
    TurnsSplit(n, wrap, cursor, n * q, n * (rounds - q), k);
    EqualTurns(n, wrap, cursor, q, k);
    TurnsAfterWrap(n, wrap, 0, n * (rounds - q), k);
    EqualTurns(n, wrap, 0, rounds - q, k);
  }

  /** When the cursor wraps inside a round, that round decides. */
  lemma WrapInsideRound(n: nat, wrap: nat, cursor: nat, q: nat, a: nat, p: nat, k: nat)
    requires 0 < n <= wrap && cursor < wrap && k < n && 0 < a < n
    requires wrap - cursor == n * q + a && cursor + n * (q + 1 + p) <= 2 * wrap
    ensures Turns(n, wrap, cursor, n * (q + 1 + p), k) == q + Turns(n, wrap, wrap - a, n, k) + p
  {
    hide Rem, Turns;
    Split(n, q, 1 + p);
    Split(n, 1, p);
    TurnsSplit(n, wrap, cursor, n * q, n + n * p, k);
    TurnsSplit(n, wrap, wrap - a, n, n * p, k);
    EqualTurns(n, wrap, cursor, q, k);
    TurnsAfterWrap(n, wrap, n - a, n * p, k);
    EqualTurns(n, wrap, n - a, p, k);
  }

  lemma RoundsWithinBound(n: nat, q: nat, a: nat, rounds: nat)
    requires 0 < n && n * q + a < n * rounds
    ensures q < rounds
  {
    if rounds <= q {
      Split(n, rounds, q - rounds);
    }
  }

  /** Each candidate is first in `turns` of the calls. */
  predicate AllGet(n: nat, wrap: nat, cursor: nat, calls: nat, turns: nat)
    requires 0 < n && 0 < wrap
  {
    forall k | 0 <= k < n :: Turns(n, wrap, cursor, calls, k) == turns
  }

  /** Fairness as long as the cursor wraps at most once. */
  lemma OneWrapIsFair(n: nat, wrap: nat, cursor: nat, rounds: nat)
    requires 0 < n <= wrap && cursor < wrap && cursor + n * rounds <= 2 * wrap
    requires !Even(n, wrap, cursor, n * rounds)
    ensures AllGet(n, wrap, cursor, n * rounds, rounds) <==> Rem(wrap - cursor, n) == 0
  {
    hide Rem, Turns;
    var q := Parts(wrap - cursor, n);
    var a := Rem(wrap - cursor, n);
    RoundsWithinBound(n, q, a, rounds);
    if a == 0 {
      forall k | 0 <= k < n ensures Turns(n, wrap, cursor, n * rounds, k) == rounds {
        WrapBetweenRounds(n, wrap, cursor, q, rounds, k);
      }
    } else {
      RoundIsFair(n, wrap, wrap - a);
      var k :| 0 <= k < n && Turns(n, wrap, wrap - a, n, k) != 1;
      assert q + 1 + (rounds - q - 1) == rounds;
      WrapInsideRound(n, wrap, cursor, q, a, rounds - q - 1, k);
    }
  }

  /** From zero on, a smaller remainder is hit as often as a larger one or once more. */
  lemma HitsExactly(n: nat, m: nat, k: nat) returns (q: nat)
    requires 0 < n && k < n
    ensures m == n * q + Rem(m, n) && Hits(n, 0, m, k) == q + (if k < Rem(m, n) then 1 else 0)
  {
    hide Rem, Hits;
    q := Parts(m, n);
    var r := Rem(m, n);
    HitsSplit(n, 0, n * q, r, k);
    HitsInRounds(n, 0, q, k);
    HitsShifted(n, q, r, k);
    HitsFromZero(n, r, k);
  }

  lemma {:induction false} HitsShifted(n: nat, q: nat, len: nat, k: nat)
    requires 0 < n
    ensures Hits(n, n * q, len, k) == Hits(n, 0, len, k)
  {
    hide Rem;
    if len > 0 {
      HitsShifted(n, q, len - 1, k);
      RemAddMany(len - 1, n, q);
    }
  }

  lemma HitsOrdered(n: nat, m: nat, k: nat, larger: nat)
    requires k < larger < n
    ensures Hits(n, 0, m, larger) <= Hits(n, 0, m, k) <= Hits(n, 0, m, larger) + 1
    ensures k < Rem(m, n) <= larger ==> Hits(n, 0, m, k) == Hits(n, 0, m, larger) + 1
  {
    hide Rem, Hits;
    var q := HitsExactly(n, m, k);
    var q' := HitsExactly(n, m, larger);
    assert n * q == n * q' ==> q == q' by { SameFactor(n, q, q'); }
  }

  lemma SameFactor(n: nat, a: nat, b: nat)
    requires 0 < n
    ensures n * a == n * b ==> a == b
  {
  }

  /** A full pass puts the candidate before the wrap's remainder first once more often than the last one. */
  lemma PassFavours(n: nat, wrap: nat)
    requires 0 < n && 0 < wrap && 0 < Rem(wrap, n)
    ensures Turns(n, wrap, 0, wrap, Rem(wrap, n) - 1) == Turns(n, wrap, 0, wrap, n - 1) + 1
  {
    hide Rem, Turns, Hits;
    TurnsAreHits(n, wrap, 0, wrap, Rem(wrap, n) - 1);
    TurnsAreHits(n, wrap, 0, wrap, n - 1);
    HitsOrdered(n, wrap, Rem(wrap, n) - 1, n - 1);
  }

  /** Calls from zero on never favour the last candidate over it. */
  lemma {:induction false} RestFavours(n: nat, wrap: nat, calls: nat)
    requires 0 < n && 0 < wrap && 0 < Rem(wrap, n)
    ensures Turns(n, wrap, 0, calls, Rem(wrap, n) - 1) >= Turns(n, wrap, 0, calls, n - 1)
  {
    hide Rem, Turns, Hits;
    var k := Rem(wrap, n) - 1;
    if calls <= wrap {
      TurnsAreHits(n, wrap, 0, calls, k);
      TurnsAreHits(n, wrap, 0, calls, n - 1);
      HitsOrdered(n, calls, k, n - 1);
    } else {
      PassFavours(n, wrap);
      RestFavours(n, wrap, calls - wrap);
      TurnsPass(n, wrap, calls - wrap, k);
      TurnsPass(n, wrap, calls - wrap, n - 1);
    }
  }

  lemma TurnsPass(n: nat, wrap: nat, calls: nat, k: nat)
    requires 0 < n && 0 < wrap
    ensures Turns(n, wrap, 0, wrap + calls, k) == Turns(n, wrap, 0, wrap, k) + Turns(n, wrap, 0, calls, k)
  {
    hide Rem, Turns;
    TurnsSplit(n, wrap, 0, wrap, calls, k);
    TurnsAfterWrap(n, wrap, 0, calls, k);
  }

  /** Nor do the calls up to a wrap. */
  lemma TailFavours(n: nat, wrap: nat, cursor: nat)
    requires 0 < n && cursor < wrap && 0 < Rem(wrap, n)
    ensures Turns(n, wrap, cursor, wrap - cursor, Rem(wrap, n) - 1) >= Turns(n, wrap, cursor, wrap - cursor, n - 1)
  {
    hide Rem, Turns, Hits;
    var k := Rem(wrap, n) - 1;
    TurnsAreHits(n, wrap, cursor, wrap - cursor, k);
    TurnsAreHits(n, wrap, cursor, wrap - cursor, n - 1);
    HitsSplit(n, 0, cursor, wrap - cursor, k);
    HitsSplit(n, 0, cursor, wrap - cursor, n - 1);
    HitsOrdered(n, wrap, k, n - 1);
    HitsOrdered(n, cursor, k, n - 1);
  }

  /** Calls that take the cursor through all its values between two wraps are never fair. */
  lemma FullPassIsUnfair(n: nat, wrap: nat, cursor: nat, calls: nat, turns: nat)
    requires 0 < n && cursor < wrap && 0 < Rem(wrap, n) && 2 * wrap < cursor + calls
    ensures !AllGet(n, wrap, cursor, calls, turns)
  {
    hide Rem, Turns;
    var rest := cursor + calls - 2 * wrap;
    TailFavours(n, wrap, cursor);
    PassFavours(n, wrap);
    RestFavours(n, wrap, rest);
    forall k | 0 <= k < n
      ensures Turns(n, wrap, cursor, calls, k)
              == Turns(n, wrap, cursor, wrap - cursor, k) + Turns(n, wrap, 0, wrap, k) + Turns(n, wrap, 0, rest, k)
    {
      TurnsSplit(n, wrap, cursor, wrap - cursor, wrap + rest, k);
      TurnsAfterWrap(n, wrap, 0, wrap + rest, k);
      TurnsPass(n, wrap, rest, k);
    }
    assert Turns(n, wrap, cursor, calls, Rem(wrap, n) - 1) > Turns(n, wrap, cursor, calls, n - 1);
  }

  /** Over any whole number of rounds, however many, each candidate is first equally often if and only if the cursor
      does not wrap on the way, wraps at a multiple of the number of candidates, or wraps once and between two
      rounds. */
  lemma RoundsAreFair(n: nat, wrap: nat, cursor: nat, rounds: nat)
    requires 0 < n <= wrap && cursor < wrap
    ensures AllGet(n, wrap, cursor, n * rounds, rounds) <==> FairRounds(n, wrap, cursor, n * rounds)
  {
    hide Rem, Turns;
    if Even(n, wrap, cursor, n * rounds) {
      forall k | 0 <= k < n ensures Turns(n, wrap, cursor, n * rounds, k) == rounds {
        EqualTurns(n, wrap, cursor, rounds, k);
      }
    } else if cursor + n * rounds <= 2 * wrap {
      OneWrapIsFair(n, wrap, cursor, rounds);
    } else {
      FullPassIsUnfair(n, wrap, cursor, n * rounds, rounds);
    }
  }

  /** Three candidates and a `usize` cursor about to wrap: the first is chosen twice and the last not at all. */
  lemma WrapSkipsReplica()
    ensures Turns(3, U64_MAX + 1, U64_MAX, 3, 0) == 2 && Turns(3, U64_MAX + 1, U64_MAX, 3, 2) == 0
  {
    var w := U64_MAX + 1;
    assert Start(3, w, U64_MAX, 0) == 0 && Start(3, w, U64_MAX, 1) == 0 && Start(3, w, U64_MAX, 2) == 1;
    hide Start;
    assert Turns(3, w, U64_MAX, 0, 0) == 0 && Turns(3, w, U64_MAX, 0, 2) == 0;
    assert Turns(3, w, U64_MAX, 1, 0) == 1 && Turns(3, w, U64_MAX, 1, 2) == 0;
    assert Turns(3, w, U64_MAX, 2, 0) == 2 && Turns(3, w, U64_MAX, 2, 2) == 0;
  }
}
