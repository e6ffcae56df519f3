/** The owner's trust file: parsing, printing and changing it (`podctl/src/trust.rs`).

    `canon` stands for `CanonicalProxyOrigin::parse`, which relies on a URL library: it gives the
    canonical text of an origin, or nothing for text that is not an acceptable origin.
 */
module Trust {
  import opened Options
  import opened TrustText

  const MAX_TRUSTED_AGENTS: nat := 1_024
  const MAX_TRUSTED_PROXIES: nat := 32
  const MAX_TRUST_FILE_BYTES: nat := 262_144
  const HEADER := "podmesh-trust-v1"
  const ANY_HEADER := "podmesh-trust-"

  datatype TrustError =
    | DocumentTooLarge
    | UnsupportedVersion(text: string)
    | MalformedRecord(line: nat)
    | InvalidAgentKey(key: string)
    | InvalidProxySigningKey(key: string)
    | InvalidProxyEndpoint(endpoint: string)
    | InvalidProxyOrigin(origin: string)
    | DuplicateProxyOrigin(origin: string)
    | AgentLimitExceeded
    | ProxyLimitExceeded
    | ExistingProxyTrust(origin: string)
    | MissingProxyForReplace(origin: string)

  datatype Result<+T> = Ok(value: T) | Err(error: TrustError)

  datatype ProxyIdentity = ProxyIdentity(origin: string, endpoint: string, key: string)

  datatype Registry = Registry(agents: set<string>, proxies: map<string, ProxyIdentity>)

  const EMPTY := Registry({}, map[])

  type Canon = string -> Option<string>

  /** The value of a character of the standard base64 alphabet, or 64. */
  function Sextet(c: char): nat {
    if 'A' <= c <= 'Z' then c as nat - 'A' as nat
    else if 'a' <= c <= 'z' then c as nat - 'a' as nat + 26
    else if '0' <= c <= '9' then c as nat - '0' as nat + 52
    else if c == '+' then 62
    else if c == '/' then 63
    else 64
  }

  /** Text that decodes to 32 bytes and encodes back to itself: 43 characters, of which the last carries two
      zero bits, and one of padding. */
  predicate ValidKey(key: string) {
    && |key| == 44
    && key[43] == '='
    && (forall i | 0 <= i < 43 :: Sextet(key[i]) < 64)
    && Sextet(key[42]) % 4 == 0
  }

  /** Lower-case hexadecimal of 32 bytes. */
  predicate ValidEndpoint(endpoint: string) {
    |endpoint| == 64 && forall i | 0 <= i < 64 :: '0' <= endpoint[i] <= '9' || 'a' <= endpoint[i] <= 'f'
  }

  // ---- changes ----

  function AddAgent(r: Registry, key: string): Result<Registry> {
    if !ValidKey(key) then Err(InvalidAgentKey(key))
    else if key !in r.agents && |r.agents| >= MAX_TRUSTED_AGENTS then Err(AgentLimitExceeded)
    else Ok(r.(agents := r.agents + {key}))
  }

  function NewIdentity(origin: string, endpoint: string, key: string): Result<ProxyIdentity> {
    if !ValidEndpoint(endpoint) then Err(InvalidProxyEndpoint(endpoint))
    else if !ValidKey(key) then Err(InvalidProxySigningKey(key))
    else Ok(ProxyIdentity(origin, endpoint, key))
  }

  /** A `proxy` record of a typed file. */
  function AddRecord(canon: Canon, r: Registry, origin: string, endpoint: string, key: string): Result<Registry> {
    var name := canon(origin);
    if name.None? then Err(InvalidProxyOrigin(origin))
    else if name.value in r.proxies then Err(DuplicateProxyOrigin(name.value))
    else if |r.proxies| >= MAX_TRUSTED_PROXIES then Err(ProxyLimitExceeded)
    else
      var id := NewIdentity(name.value, endpoint, key);
      if id.Err? then Err(id.error) else Ok(r.(proxies := r.proxies[name.value := id.value]))
  }

  function Inserted(r: Registry, id: ProxyIdentity): Result<Registry> {
    if id.origin in r.proxies then Err(ExistingProxyTrust(id.origin))
    else if |r.proxies| >= MAX_TRUSTED_PROXIES then Err(ProxyLimitExceeded)
    else Ok(r.(proxies := r.proxies[id.origin := id]))
  }

  function Replaced(r: Registry, id: ProxyIdentity): Result<Registry> {
    if id.origin !in r.proxies then Err(MissingProxyForReplace(id.origin))
    else Ok(r.(proxies := r.proxies[id.origin := id]))
  }

  // ---- parsing ----

  function Record(canon: Canon, r: Registry, fields: seq<string>, line: nat): Result<Registry> {
    if |fields| == 2 && fields[0] == "agent" then AddAgent(r, fields[1])
    else if |fields| == 4 && fields[0] == "proxy" then AddRecord(canon, r, fields[1], fields[2], fields[3])
    else Err(MalformedRecord(line))
  }

  /** The rest of a typed file; `n` lines came before. */
  function Typed(canon: Canon, lines: seq<string>, n: nat, header: bool, r: Registry): Result<Registry>
    decreases |lines|
  {
    if lines == [] then if header then Ok(r) else Err(UnsupportedVersion(""))
    else
      var line := Trim(lines[0]);
      if line == "" then Typed(canon, lines[1..], n + 1, header, r)
      else if !header then
        if line != HEADER then Err(UnsupportedVersion(line)) else Typed(canon, lines[1..], n + 1, true, r)
      else
        var next := Record(canon, r, Fields(line), n + 1);
        if next.Err? then next else Typed(canon, lines[1..], n + 1, true, next.value)
  }

  function BeforeHash(line: string): string {
    if line == "" || line[0] == '#' then "" else [line[0]] + BeforeHash(line[1..])
  }

  function Legacy(lines: seq<string>, r: Registry): Result<Registry>
    decreases |lines|
  {
    if lines == [] then Ok(r)
    else
      var value := Trim(BeforeHash(lines[0]));
      if value == "" then Legacy(lines[1..], r)
      else
        var next := AddAgent(r, value);
        if next.Err? then next else Legacy(lines[1..], next.value)
  }

  predicate Meaningful(line: string) {
    line != "" && line[0] != '#'
  }

  /** Whether the first line that is neither empty nor a comment announces a typed file. */
  predicate IsTyped(lines: seq<string>) {
    lines != []
    && var line := Trim(lines[0]);
       if Meaningful(line) then ANY_HEADER <= line else IsTyped(lines[1..])
  }

  function Parsed(canon: Canon, contents: string): Result<Registry> {
    if ByteLength(contents) > MAX_TRUST_FILE_BYTES then Err(DocumentTooLarge)
    else if IsTyped(Lines(contents)) then Typed(canon, Lines(contents), 0, false, EMPTY)
    else Legacy(Lines(contents), EMPTY)
  }

  // ---- printing ----

  function AgentLine(key: string): string {
    "agent " + key
  }

  function ProxyLine(id: ProxyIdentity): string {
    "proxy " + (id.origin + " " + (id.endpoint + " " + id.key))
  }

  function AgentLines(keys: seq<string>): seq<string> {
    if keys == [] then [] else [AgentLine(keys[0])] + AgentLines(keys[1..])
  }

  function ProxyLines(origins: seq<string>, proxies: map<string, ProxyIdentity>): seq<string>
    requires forall o | o in origins :: o in proxies
  {
    if origins == [] then [] else [ProxyLine(proxies[origins[0]])] + ProxyLines(origins[1..], proxies)
  }

  ghost function TextLines(r: Registry): seq<string> {
    [HEADER] + (AgentLines(Sorted(r.agents)) + ProxyLines(Sorted(r.proxies.Keys), r.proxies))
  }

  /** The canonical text: the header, the agents and the proxies, each in ascending order. */
  ghost function Text(r: Registry): string {
    JoinLines(TextLines(r))
  }

  // ---- the registry as an object ----

  ghost predicate Yields(result: Result<Registry>, before: Registry, after: Registry, error: Option<TrustError>) {
    match result
    case Ok(r) => error == None && after == r
    case Err(e) => error == Some(e) && after == before
  }

  class TrustRegistry {
    var agents: set<string>
    var proxies: map<string, ProxyIdentity>

    ghost function Contents(): Registry
      reads this
    {
      Registry(agents, proxies)
    }

    constructor ()
      ensures Contents() == EMPTY
    {
      agents, proxies := {}, map[];
    }

    method InsertAgent(key: string) returns (error: Option<TrustError>)
      modifies this
      ensures Yields(AddAgent(old(Contents()), key), old(Contents()), Contents(), error)
    {
      if !ValidKey(key) {
        return Some(InvalidAgentKey(key));
      }
      if key !in agents && |agents| >= MAX_TRUSTED_AGENTS {
        return Some(AgentLimitExceeded);
      }
      agents := agents + {key};
      error := None;
    }

    /** One record of a typed file. */
    method ReadRecord(canon: Canon, fields: seq<string>, line: nat) returns (error: Option<TrustError>)
      modifies this
      ensures Yields(Record(canon, old(Contents()), fields, line), old(Contents()), Contents(), error)
    {
      if |fields| == 2 && fields[0] == "agent" {
        error := InsertAgent(fields[1]);
      } else if |fields| == 4 && fields[0] == "proxy" {
        var origin := canon(fields[1]);
        if origin.None? {
          return Some(InvalidProxyOrigin(fields[1]));
        }
        if origin.value in proxies {
          return Some(DuplicateProxyOrigin(origin.value));
        }
        if |proxies| >= MAX_TRUSTED_PROXIES {
          return Some(ProxyLimitExceeded);
        }
        var id := NewIdentity(origin.value, fields[2], fields[3]);
        if id.Err? {
          return Some(id.error);
        }
        proxies := proxies[origin.value := id.value];
        error := None;
      } else {
        error := Some(MalformedRecord(line));
      }
    }

    /** `parse_typed` on a new registry; after an error its contents are of no use. */
    method ParseTyped(canon: Canon, contents: string) returns (error: Option<TrustError>)
      requires Contents() == EMPTY
      modifies this
      ensures match Typed(canon, Lines(contents), 0, false, EMPTY)
              case Ok(r) => error == None && Contents() == r
              case Err(e) => error == Some(e)
    {
      hide Record, Lines, Trim, Fields;
      var lines := Lines(contents);
      var header := false;
      var i := 0;
      while i < |lines|
        invariant 0 <= i <= |lines|
        invariant Typed(canon, lines[i..], i, header, Contents()) == Typed(canon, lines, 0, false, EMPTY)
      {
        var line := Trim(lines[i]);
        assert lines[i..][1..] == lines[i + 1..];
        i := i + 1;
        if line == "" {
          continue;
        }
        if !header {
          if line != HEADER {
            return Some(UnsupportedVersion(line));
          }
          header := true;
          continue;
        }
        var failed := ReadRecord(canon, Fields(line), i);
        if failed.Some? {
          return failed;
        }
      }
      error := if header then None else Some(UnsupportedVersion(""));
    }

    method ParseLegacy(contents: string) returns (error: Option<TrustError>)
      requires Contents() == EMPTY
      modifies this
      ensures match Legacy(Lines(contents), EMPTY)
              case Ok(r) => error == None && Contents() == r
              case Err(e) => error == Some(e)
    {
      hide AddAgent, Lines, Trim, BeforeHash;
      var lines := Lines(contents);
      var i := 0;
      while i < |lines|
        invariant 0 <= i <= |lines|
        invariant Legacy(lines[i..], Contents()) == Legacy(lines, EMPTY)
      {
        var value := Trim(BeforeHash(lines[i]));
        assert lines[i..][1..] == lines[i + 1..];
        i := i + 1;
        if value == "" {
          continue;
        }
        var failed := InsertAgent(value);
        if failed.Some? {
          return failed;
        }
      }
      error := None;
    }

    method Parse(canon: Canon, contents: string) returns (error: Option<TrustError>)
      requires Contents() == EMPTY
      modifies this
      ensures match Parsed(canon, contents)
              case Ok(r) => error == None && Contents() == r
              case Err(e) => error == Some(e)
    {
      if ByteLength(contents) > MAX_TRUST_FILE_BYTES {
        return Some(DocumentTooLarge);
      }
      if IsTyped(Lines(contents)) {
        error := ParseTyped(canon, contents);
      } else {
        error := ParseLegacy(contents);
      }
    }

    method InsertProxy(id: ProxyIdentity) returns (error: Option<TrustError>)
      modifies this
      ensures Yields(Inserted(old(Contents()), id), old(Contents()), Contents(), error)
    {
      if id.origin in proxies {
        return Some(ExistingProxyTrust(id.origin));
      }
      if |proxies| >= MAX_TRUSTED_PROXIES {
        return Some(ProxyLimitExceeded);
      }
      proxies := proxies[id.origin := id];
      error := None;
    }

    method ReplaceProxy(id: ProxyIdentity) returns (error: Option<TrustError>, previous: Option<ProxyIdentity>)
      modifies this
      ensures Yields(Replaced(old(Contents()), id), old(Contents()), Contents(), error)
      ensures previous == if id.origin in old(proxies) then Some(old(proxies)[id.origin]) else None
    {
      if id.origin !in proxies {
        return Some(MissingProxyForReplace(id.origin)), None;
      }
      previous := Some(proxies[id.origin]);
      proxies := proxies[id.origin := id];
      error := None;
    }

    method RemoveProxy(origin: string) returns (removed: Option<ProxyIdentity>)
      modifies this
      ensures Contents() == old(Contents()).(proxies := old(proxies) - {origin})
      ensures removed == if origin in old(proxies) then Some(old(proxies)[origin]) else None
    {
      removed := if origin in proxies then Some(proxies[origin]) else None;
      proxies := proxies - {origin};
    }

    /** `to_canonical_string`: two loops over ordered collections. */
    method ToCanonicalString() returns (text: string)
      ensures text == Text(Contents())
    {
      var agentText := PrintAgents(agents);
      var proxyText := PrintProxies(proxies);
      text := HEADER + "\n" + (agentText + proxyText);
      JoinAppend(AgentLines(Sorted(agents)), ProxyLines(Sorted(proxies.Keys), proxies));
      assert TextLines(Contents())[1..] == AgentLines(Sorted(agents)) + ProxyLines(Sorted(proxies.Keys), proxies);
    }
  }

  method PickLeast(s: set<string>) returns (k: string)
    requires s != {}
    ensures k in s && k == Least(s)
  {
    SomeLeast(s);
    k :| k in s && IsLeast(s, k);
    LeastUnique(s, k, Least(s));
  }

  lemma JoinCons(line: string, rest: seq<string>)
    ensures JoinLines([line] + rest) == line + "\n" + JoinLines(rest)
  {
    assert ([line] + rest)[1..] == rest;
  }

  lemma NothingPrinted(proxies: map<string, ProxyIdentity>)
    ensures JoinLines(AgentLines([])) == "" && JoinLines(ProxyLines([], proxies)) == ""
  {
  }

  lemma JoinStep(text: string, line: string, rest: seq<string>)
    ensures text + (line + "\n") + JoinLines(rest) == text + JoinLines([line] + rest)
  {
    hide JoinLines;
    JoinCons(line, rest);
  }

  lemma AgentLinesStep(key: string, rest: seq<string>)
    ensures AgentLines([key] + rest) == [AgentLine(key)] + AgentLines(rest)
  {
    assert ([key] + rest)[1..] == rest;
  }

  lemma ProxyLinesStep(origin: string, rest: seq<string>, proxies: map<string, ProxyIdentity>)
    requires origin in proxies && forall o | o in rest :: o in proxies
    ensures ProxyLines([origin] + rest, proxies) == [ProxyLine(proxies[origin])] + ProxyLines(rest, proxies)
  {
    assert ([origin] + rest)[1..] == rest;
  }

  method PrintAgents(agents: set<string>) returns (text: string)
    ensures text == JoinLines(AgentLines(Sorted(agents)))
  {
    hide JoinLines, AgentLines, ProxyLines, AgentLine, ProxyLine, Least;
    text := "";
    var left := agents;
    while left != {}
      invariant text + JoinLines(AgentLines(Sorted(left))) == JoinLines(AgentLines(Sorted(agents)))
      decreases left
    {
      var k := PickLeast(left);
      AgentLinesStep(k, Sorted(left - {k}));
      JoinStep(text, AgentLine(k), AgentLines(Sorted(left - {k})));
      text := text + (AgentLine(k) + "\n");
      left := left - {k};
    }
    NothingPrinted(map[]);
  }

  method PrintProxies(proxies: map<string, ProxyIdentity>) returns (text: string)
    ensures text == JoinLines(ProxyLines(Sorted(proxies.Keys), proxies))
  {
    hide JoinLines, AgentLines, ProxyLines, AgentLine, ProxyLine, Least;
    text := "";
    var left := proxies.Keys;
    while left != {}
      invariant left <= proxies.Keys
      invariant text + JoinLines(ProxyLines(Sorted(left), proxies)) ==
                JoinLines(ProxyLines(Sorted(proxies.Keys), proxies))
      decreases left
    {
      var o := PickLeast(left);
      ProxyLinesStep(o, Sorted(left - {o}), proxies);
      JoinStep(text, ProxyLine(proxies[o]), ProxyLines(Sorted(left - {o}), proxies));
      text := text + (ProxyLine(proxies[o]) + "\n");
      left := left - {o};
    }
    NothingPrinted(proxies);
  }

  lemma {:induction false} JoinAppend(a: seq<string>, b: seq<string>)
    ensures JoinLines(a + b) == JoinLines(a) + JoinLines(b)
  {
    if a == [] {
      assert a + b == b;
    } else {
      hide JoinLines;
      JoinAppend(a[1..], b);
      assert a + b == [a[0]] + (a[1..] + b) && a == [a[0]] + a[1..];
      JoinCons(a[0], a[1..] + b);
      JoinCons(a[0], a[1..]);
      Associate(a[0] + "\n", JoinLines(a[1..]), JoinLines(b));
    }
  }

  lemma Associate<T>(a: seq<T>, b: seq<T>, c: seq<T>)
    ensures a + (b + c) == a + b + c
  {
  }
}
