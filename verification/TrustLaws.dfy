/** What the trust file format promises (`podctl/src/trust.rs`): whatever parses is valid, and printing a
    valid registry and parsing the text gives it back.
 */
module TrustLaws {
  import opened Options
  import opened TrustText
  import opened Trust

  /** What the URL library is taken to do: a canonical origin is its own canonical form, and is made of
      printable characters. */
  ghost predicate SoundCanon(canon: Canon) {
    forall s | canon(s).Some? ::
      var o := canon(s).value;
      o != "" && Printable(o) && canon(o) == Some(o)
  }

  predicate ValidProxy(canon: Canon, origin: string, id: ProxyIdentity) {
    && id.origin == origin && canon(origin) == Some(origin)
    && ValidEndpoint(id.endpoint) && ValidKey(id.key)
  }

  predicate ValidRegistry(canon: Canon, r: Registry) {
    && |r.agents| <= MAX_TRUSTED_AGENTS && (forall key | key in r.agents :: ValidKey(key))
    && |r.proxies| <= MAX_TRUSTED_PROXIES && (forall o | o in r.proxies :: ValidProxy(canon, o, r.proxies[o]))
  }

  // ---- what parses is valid ----

  lemma AgentKeepsValid(canon: Canon, r: Registry, key: string)
    requires ValidRegistry(canon, r)
    ensures var next := AddAgent(r, key); next.Ok? ==> ValidRegistry(canon, next.value)
  {
    hide ValidKey;
    if key in r.agents {
      assert r.agents + {key} == r.agents;
    }
  }

  lemma RecordKeepsValid(canon: Canon, r: Registry, fields: seq<string>, line: nat)
    requires SoundCanon(canon) && ValidRegistry(canon, r)
    ensures var next := Record(canon, r, fields, line); next.Ok? ==> ValidRegistry(canon, next.value)
  {
    hide ValidKey, ValidEndpoint;
    if |fields| == 2 {
      AgentKeepsValid(canon, r, fields[1]);
    }
  }

  lemma {:induction false} TypedIsValid(canon: Canon, lines: seq<string>, n: nat, header: bool, r: Registry)
    requires SoundCanon(canon) && ValidRegistry(canon, r)
    ensures var result := Typed(canon, lines, n, header, r); result.Ok? ==> ValidRegistry(canon, result.value)
    decreases |lines|
  {
    hide Record, ValidRegistry, SoundCanon, Trim, Fields;
    if lines != [] {
      var line := Trim(lines[0]);
      if line == "" || !header {
        TypedIsValid(canon, lines[1..], n + 1, line != "" || header, r);
      } else {
        RecordKeepsValid(canon, r, Fields(line), n + 1);
        var next := Record(canon, r, Fields(line), n + 1);
        if next.Ok? {
          TypedIsValid(canon, lines[1..], n + 1, true, next.value);
        }
      }
    }
  }

  lemma {:induction false} LegacyIsValid(canon: Canon, lines: seq<string>, r: Registry)
    requires ValidRegistry(canon, r) && r.proxies == map[]
    ensures var result := Legacy(lines, r);
            result.Ok? ==> ValidRegistry(canon, result.value) && result.value.proxies == map[]
    decreases |lines|
  {
    hide ValidRegistry, ValidKey, Trim, BeforeHash;
    if lines != [] {
      var value := Trim(BeforeHash(lines[0]));
      if value == "" {
        LegacyIsValid(canon, lines[1..], r);
      } else {
        AgentKeepsValid(canon, r, value);
        var next := AddAgent(r, value);
        if next.Ok? {
          LegacyIsValid(canon, lines[1..], next.value);
        }
      }
    }
  }

  lemma EmptyIsValid(canon: Canon)
    ensures ValidRegistry(canon, EMPTY)
  {
  }

  /** Every registry that parses respects both limits and has only well-formed, canonically named entries; one
      read from the older format has no proxies. */
  lemma ParsedIsValid(canon: Canon, contents: string)
    requires SoundCanon(canon) && Parsed(canon, contents).Ok?
    ensures ValidRegistry(canon, Parsed(canon, contents).value)
    ensures !IsTyped(Lines(contents)) ==> Parsed(canon, contents).value.proxies == map[]
  {
    hide ValidRegistry, SoundCanon, Lines, Typed, Legacy;
    EmptyIsValid(canon);
    TypedIsValid(canon, Lines(contents), 0, false, EMPTY);
    LegacyIsValid(canon, Lines(contents), EMPTY);
  }

  // ---- printed lines ----

  lemma KeyIsPrintable(key: string)
    requires ValidKey(key)
    ensures Printable(key) && key != ""
  {
    forall i | 0 <= i < |key| ensures '!' <= key[i] <= '~' {
      if i < 43 {
        SextetPrintable(key[i]);
      }
    }
  }

  lemma SextetPrintable(c: char)
    requires Sextet(c) < 64
    ensures '!' <= c <= '~'
  {
  }

  lemma EndpointIsPrintable(endpoint: string)
    requires ValidEndpoint(endpoint)
    ensures Printable(endpoint) && endpoint != ""
  {
  }

  /** A printed line: one line of ASCII text that trimming leaves alone. */
  predicate Clean(line: string) {
    && line != "" && OneLine(line) && Ascii(line)
    && !White(line[0]) && !White(line[|line| - 1])
  }

  lemma CleanIsTrimmed(line: string)
    requires Clean(line)
    ensures Trim(line) == line
  {
  }

  predicate Spaced(s: string) {
    forall i | 0 <= i < |s| :: ' ' <= s[i] <= '~'
  }

  lemma SpacedIsClean(s: string)
    requires Spaced(s) && s != "" && s[0] != ' ' && s[|s| - 1] != ' '
    ensures Clean(s)
  {
  }

  lemma AgentLineReads(key: string)
    requires ValidKey(key)
    ensures Clean(AgentLine(key)) && Fields(AgentLine(key)) == ["agent", key]
    ensures |AgentLine(key)| == 50
  {
    hide ValidKey, Fields;
    KeyIsPrintable(key);
    FieldsStep("agent", key);
    FieldsStep(key, "");
    assert AgentLine(key) == "agent" + " " + key;
    SpacedIsClean(AgentLine(key));
    KeyLength(key);
  }

  lemma KeyLength(key: string)
    requires ValidKey(key)
    ensures |key| == 44
  {
  }

  lemma ProxyLineReads(canon: Canon, id: ProxyIdentity)
    requires SoundCanon(canon) && ValidProxy(canon, id.origin, id)
    ensures Clean(ProxyLine(id)) && Fields(ProxyLine(id)) == ["proxy", id.origin, id.endpoint, id.key]
  {
    hide Fields, ValidKey, ValidEndpoint;
    KeyIsPrintable(id.key);
    EndpointIsPrintable(id.endpoint);
    assert Printable(id.origin) && id.origin != "" by { assert canon(id.origin) == Some(id.origin); }
    var tail := id.endpoint + " " + id.key;
    FieldsStep("proxy", id.origin + " " + tail);
    FieldsStep(id.origin, tail);
    FieldsStep(id.endpoint, id.key);
    FieldsStep(id.key, "");
    assert ProxyLine(id) == "proxy" + " " + (id.origin + " " + tail);
    assert ["proxy"] + ([id.origin] + ([id.endpoint] + [id.key])) == ["proxy", id.origin, id.endpoint, id.key];
    SpacedIsClean(ProxyLine(id));
  }

  // ---- reading the printed lines back ----

  lemma {:induction false} AgentsReadBack(canon: Canon, keys: set<string>, rest: seq<string>, n: nat, r: Registry)
    requires keys !! r.agents && forall k | k in keys :: ValidKey(k)
    requires |r.agents| + |keys| <= MAX_TRUSTED_AGENTS
    ensures Typed(canon, AgentLines(Sorted(keys)) + rest, n, true, r) ==
            Typed(canon, rest, n + |keys|, true, r.(agents := r.agents + keys))
    decreases |keys|
  {
    hide ValidKey, AgentLine, AgentLines, Typed, Least, Sorted;
    if keys == {} {
      NoAgents(rest, r);
    } else {
      var key := Least(keys);
      var more := keys - {key};
      var next := r.(agents := r.agents + {key});
      MoveOne(r.agents, keys, key);
      SortedAgentLines(keys);
      AgentStep(canon, key, AgentLines(Sorted(more)), rest, n, r);
      AgentsReadBack(canon, more, rest, n + 1, next);
    }
  }

  lemma MoveOne(have: set<string>, keys: set<string>, key: string)
    requires have !! keys && key in keys
    ensures (have + {key}) !! (keys - {key}) && (have + {key}) + (keys - {key}) == have + keys
    ensures |have + {key}| == |have| + 1 && |keys - {key}| == |keys| - 1
  {
  }

  lemma NoAgents(rest: seq<string>, r: Registry)
    ensures AgentLines(Sorted({})) + rest == rest && r.agents + {} == r.agents
  {
  }

  lemma SortedAgentLines(keys: set<string>)
    requires keys != {}
    ensures AgentLines(Sorted(keys)) == [AgentLine(Least(keys))] + AgentLines(Sorted(keys - {Least(keys)}))
  {
    hide Least;
    AgentLinesStep(Least(keys), Sorted(keys - {Least(keys)}));
  }

  lemma AgentStep(canon: Canon, key: string, more: seq<string>, rest: seq<string>, n: nat, r: Registry)
    requires ValidKey(key) && |r.agents| < MAX_TRUSTED_AGENTS
    ensures Typed(canon, [AgentLine(key)] + more + rest, n, true, r) ==
            Typed(canon, more + rest, n + 1, true, r.(agents := r.agents + {key}))
  {
    hide ValidKey, Fields, Trim, AgentLine;
    AgentLineReads(key);
    CleanIsTrimmed(AgentLine(key));
    assert ([AgentLine(key)] + more + rest)[1..] == more + rest;
  }

  lemma ProxyStep(canon: Canon, id: ProxyIdentity, rest: seq<string>, n: nat, r: Registry)
    requires SoundCanon(canon) && ValidProxy(canon, id.origin, id)
    requires id.origin !in r.proxies && |r.proxies| < MAX_TRUSTED_PROXIES
    ensures Typed(canon, [ProxyLine(id)] + rest, n, true, r) ==
            Typed(canon, rest, n + 1, true, r.(proxies := r.proxies[id.origin := id]))
  {
    hide ValidKey, ValidEndpoint, Fields, Trim, ProxyLine, SoundCanon;
    ProxyLineReads(canon, id);
    CleanIsTrimmed(ProxyLine(id));
    assert ([ProxyLine(id)] + rest)[1..] == rest;
  }

  function Part(all: map<string, ProxyIdentity>, origins: set<string>): map<string, ProxyIdentity> {
    map o | o in all && o in origins :: all[o]
  }

  lemma PartStep(have: map<string, ProxyIdentity>, all: map<string, ProxyIdentity>, o: string, origins: set<string>)
    requires o in all && o in origins && origins <= all.Keys && have.Keys !! origins
    ensures have[o := all[o]] + Part(all, origins - {o}) == have + Part(all, origins)
  {
  }

  lemma {:induction false} ProxiesReadBack(canon: Canon, origins: set<string>, all: map<string, ProxyIdentity>,
                                           n: nat, r: Registry)
    requires SoundCanon(canon) && origins <= all.Keys && r.proxies.Keys !! origins
    requires forall o | o in origins :: ValidProxy(canon, o, all[o])
    requires |r.proxies| + |origins| <= MAX_TRUSTED_PROXIES
    ensures Typed(canon, ProxyLines(Sorted(origins), all), n, true, r) ==
            Ok(r.(proxies := r.proxies + Part(all, origins)))
    decreases |origins|
  {
    hide ValidProxy, ProxyLine, SoundCanon, Least, Part, Typed;
    if origins == {} {
      NothingLeft(canon, all, n, r);
    } else {
      var o := Least(origins);
      var more := origins - {o};
      OriginOf(canon, o, all[o]);
      var next := r.(proxies := r.proxies[o := all[o]]);
      assert next.proxies.Keys == r.proxies.Keys + {o};
      ProxyLinesStep(o, Sorted(more), all);
      ProxyStep(canon, all[o], ProxyLines(Sorted(more), all), n, r);
      ProxiesReadBack(canon, more, all, n + 1, next);
      PartStep(r.proxies, all, o, origins);
    }
  }

  lemma NothingLeft(canon: Canon, all: map<string, ProxyIdentity>, n: nat, r: Registry)
    ensures Typed(canon, ProxyLines(Sorted({}), all), n, true, r) == Ok(r)
    ensures r.proxies + Part(all, {}) == r.proxies
  {
  }

  lemma OriginOf(canon: Canon, origin: string, id: ProxyIdentity)
    requires ValidProxy(canon, origin, id)
    ensures id.origin == origin
  {
  }

  // ---- the whole text ----

  lemma {:induction false} AgentLinesClean(keys: seq<string>)
    requires forall k | k in keys :: ValidKey(k)
    ensures forall l | l in AgentLines(keys) :: Clean(l)
    ensures |JoinLines(AgentLines(keys))| == 51 * |keys|
  {
    hide ValidKey, Clean, AgentLine;
    if keys != [] {
      AgentLineReads(keys[0]);
      AgentLinesClean(keys[1..]);
      JoinStep("", AgentLine(keys[0]), AgentLines(keys[1..]));
    }
  }

  lemma {:induction false} ProxyLinesClean(canon: Canon, origins: seq<string>, all: map<string, ProxyIdentity>)
    requires SoundCanon(canon) && forall o | o in origins :: o in all && ValidProxy(canon, o, all[o])
    ensures forall l | l in ProxyLines(origins, all) :: Clean(l)
  {
    hide Clean, ProxyLine, SoundCanon, ValidKey, ValidEndpoint;
    if origins != [] {
      assert origins[0] in origins;
      ProxyLineReads(canon, all[origins[0]]);
      ProxyLinesClean(canon, origins[1..], all);
    }
  }

  lemma {:induction false} JoinIsAscii(lines: seq<string>)
    requires forall l | l in lines :: Clean(l)
    ensures Ascii(JoinLines(lines))
  {
    if lines != [] {
      assert lines[0] in lines;
      JoinIsAscii(lines[1..]);
    }
  }

  lemma HeaderIsClean()
    ensures Clean(HEADER) && ANY_HEADER <= HEADER && HEADER[0] != '#'
  {
    SpacedIsClean(HEADER);
  }

  lemma TextClean(canon: Canon, r: Registry)
    requires SoundCanon(canon) && ValidRegistry(canon, r)
    ensures forall l | l in TextLines(r) :: Clean(l)
    ensures Lines(Text(r)) == TextLines(r) && ByteLength(Text(r)) == |Text(r)|
  {
    hide Clean, ValidKey, ValidProxy, SoundCanon;
    HeaderIsClean();
    AgentLinesClean(Sorted(r.agents));
    ProxyLinesClean(canon, Sorted(r.proxies.Keys), r.proxies);
    JoinIsAscii(TextLines(r));
    AsciiLength(Text(r));
    forall l | l in TextLines(r) ensures OneLine(l) {
      CleanIsOneLine(l);
    }
    LinesOfJoin(TextLines(r));
  }

  lemma CleanIsOneLine(l: string)
    requires Clean(l)
    ensures OneLine(l)
  {
  }

  lemma TextReadsBack(canon: Canon, r: Registry)
    requires SoundCanon(canon) && ValidRegistry(canon, r)
    ensures IsTyped(TextLines(r)) && Typed(canon, TextLines(r), 0, false, EMPTY) == Ok(r)
  {
    hide ValidKey, ValidProxy, SoundCanon, AgentLines, ProxyLines, Typed, IsTyped, Part, Sorted;
    var printed := ProxyLines(Sorted(r.proxies.Keys), r.proxies);
    HeaderStep(canon, AgentLines(Sorted(r.agents)) + printed);
    RecordsReadBack(canon, r, printed);
  }

  lemma RecordsReadBack(canon: Canon, r: Registry, printed: seq<string>)
    requires SoundCanon(canon) && ValidRegistry(canon, r)
    requires printed == ProxyLines(Sorted(r.proxies.Keys), r.proxies)
    ensures Typed(canon, AgentLines(Sorted(r.agents)) + printed, 1, true, EMPTY) == Ok(r)
  {
    hide ValidKey, ValidProxy, SoundCanon, AgentLines, ProxyLines, Typed, Part, Sorted;
    WholeRegistry(r);
    AgentsReadBack(canon, r.agents, printed, 1, EMPTY);
    ProxiesReadBack(canon, r.proxies.Keys, r.proxies, 1 + |r.agents|, Registry(r.agents, map[]));
  }

  lemma WholeRegistry(r: Registry)
    ensures {} + r.agents == r.agents && map[] + Part(r.proxies, r.proxies.Keys) == r.proxies
  {
  }

  lemma HeaderStep(canon: Canon, rest: seq<string>)
    ensures IsTyped([HEADER] + rest)
    ensures Typed(canon, [HEADER] + rest, 0, false, EMPTY) == Typed(canon, rest, 1, true, EMPTY)
  {
    hide Trim, Fields;
    HeaderIsClean();
    CleanIsTrimmed(HEADER);
    assert ([HEADER] + rest)[1..] == rest;
  }

  /** Printing and parsing gives a valid registry back exactly when its text fits the size limit. */
  lemma RoundTrip(canon: Canon, r: Registry)
    requires SoundCanon(canon) && ValidRegistry(canon, r)
    ensures Parsed(canon, Text(r)) == if |Text(r)| <= MAX_TRUST_FILE_BYTES then Ok(r) else Err(DocumentTooLarge)
  {
    hide ValidRegistry, SoundCanon, Lines, Typed, IsTyped, Text, TextLines;
    TextClean(canon, r);
    TextReadsBack(canon, r);
  }

  /** A file in the older format can always be migrated: what it parses to prints to a text that fits, and
      that parses to the same registry. */
  lemma LegacyMigrates(canon: Canon, contents: string)
    requires SoundCanon(canon) && Parsed(canon, contents).Ok? && !IsTyped(Lines(contents))
    ensures Parsed(canon, Text(Parsed(canon, contents).value)) == Parsed(canon, contents)
  {
    hide SoundCanon, Lines, Typed, IsTyped, Legacy, Parsed;
    ParsedIsValid(canon, contents);
    var r := Parsed(canon, contents).value;
    AgentsFit(canon, r);
    RoundTrip(canon, r);
  }

  lemma AgentsFit(canon: Canon, r: Registry)
    requires ValidRegistry(canon, r) && r.proxies == map[]
    ensures |Text(r)| <= MAX_TRUST_FILE_BYTES
  {
    hide ValidKey, JoinLines, AgentLines;
    var lines := AgentLines(Sorted(r.agents));
    AgentLinesClean(Sorted(r.agents));
    assert r.proxies.Keys == {};
    assert TextLines(r) == [HEADER] + lines;
    JoinStep("", HEADER, lines);
  }

  /** Canonical text identifies a registry. */
  lemma TextIdentifies(canon: Canon, a: Registry, b: Registry)
    requires SoundCanon(canon) && ValidRegistry(canon, a) && ValidRegistry(canon, b)
    requires |Text(a)| <= MAX_TRUST_FILE_BYTES && Text(a) == Text(b)
    ensures a == b
  {
    hide ValidRegistry, SoundCanon, Parsed, Text;
    RoundTrip(canon, a);
    RoundTrip(canon, b);
  }

  /** A comment may stand before the entries of the older format, but a typed file that starts with one is
      refused: `parse` skips it when choosing the format and `parse_typed` does not. */
  lemma {:induction false} CommentBeforeHeaderRefused(canon: Canon, blank: seq<string>, comment: string,
                                                      rest: seq<string>, n: nat)
    requires forall l | l in blank :: Trim(l) == ""
    requires Trim(comment) != "" && Trim(comment)[0] == '#'
    ensures IsTyped(blank + [comment] + rest) == IsTyped(rest)
    ensures Typed(canon, blank + [comment] + rest, n, false, EMPTY) == Err(UnsupportedVersion(Trim(comment)))
    decreases |blank|
  {
    hide Trim, Fields, Record;
    var lines := blank + [comment] + rest;
    if blank == [] {
      assert lines[0] == comment && lines[1..] == rest;
    } else {
      assert blank[0] in blank;
      assert lines[0] == blank[0] && lines[1..] == blank[1..] + [comment] + rest;
      CommentBeforeHeaderRefused(canon, blank[1..], comment, rest, n + 1);
    }
  }

  /** The first line that is not blank, trimmed. */
  function FirstText(lines: seq<string>): Option<string> {
    if lines == [] then None
    else if Trim(lines[0]) != "" then Some(Trim(lines[0]))
    else FirstText(lines[1..])
  }

  predicate VersionRefused(result: Result<Registry>) {
    result.Err? && result.error.UnsupportedVersion?
  }

  lemma {:induction false} VersionSettled(canon: Canon, lines: seq<string>, n: nat, r: Registry)
    ensures !VersionRefused(Typed(canon, lines, n, true, r))
    decreases |lines|
  {
    hide Trim, Fields, ValidKey, ValidEndpoint;
    if lines != [] {
      var line := Trim(lines[0]);
      var next := Record(canon, r, Fields(line), n + 1);
      VersionSettled(canon, lines[1..], n + 1, r);
      if next.Ok? {
        VersionSettled(canon, lines[1..], n + 1, next.value);
      }
    }
  }

  lemma {:induction false} VersionExactly(canon: Canon, lines: seq<string>, n: nat)
    ensures VersionRefused(Typed(canon, lines, n, false, EMPTY)) <==> FirstText(lines) != Some(HEADER)
    decreases |lines|
  {
    hide Trim, Fields, Record;
    if lines != [] {
      VersionExactly(canon, lines[1..], n + 1);
      VersionSettled(canon, lines[1..], n + 1, EMPTY);
    }
  }

  predicate IsComment(line: string) {
    Trim(line) != "" && Trim(line)[0] == '#'
  }

  lemma CommentIsNoRecord(canon: Canon, r: Registry, line: string, n: nat)
    requires line != "" && line[0] == '#'
    ensures Record(canon, r, Fields(line), n).Err?
  {
    assert Token(line)[0] == '#';
    assert Fields(line)[0][0] == '#';
  }

  lemma {:induction false} CommentFails(canon: Canon, lines: seq<string>, i: nat, n: nat, header: bool, r: Registry)
    requires i < |lines| && IsComment(lines[i])
    ensures Typed(canon, lines, n, header, r).Err?
    decreases |lines|
  {
    hide Trim, Fields, Record;
    var line := Trim(lines[0]);
    if i == 0 {
      CommentIsNoRecord(canon, r, line, n + 1);
    } else {
      assert lines[1..][i - 1] == lines[i];
      CommentFails(canon, lines[1..], i - 1, n + 1, line != "" || header, r);
      var next := Record(canon, r, Fields(line), n + 1);
      if next.Ok? {
        CommentFails(canon, lines[1..], i - 1, n + 1, true, next.value);
      }
    }
  }

  /** Exactly what a typed file needs to start: its version is accepted if and only if its first line that is not
      blank is the header.  And wherever it has a comment, before the header or after it, it does not parse. */
  lemma TypedHeaderExactly(canon: Canon, contents: string)
    requires ByteLength(contents) <= MAX_TRUST_FILE_BYTES && IsTyped(Lines(contents))
    ensures VersionRefused(Parsed(canon, contents)) <==> FirstText(Lines(contents)) != Some(HEADER)
    ensures (exists i | 0 <= i < |Lines(contents)| :: IsComment(Lines(contents)[i])) ==> Parsed(canon, contents).Err?
  {
    hide Lines, Typed, IsTyped, Legacy, IsComment;
    var lines := Lines(contents);
    VersionExactly(canon, lines, 0);
    if i :| 0 <= i < |lines| && IsComment(lines[i]) {
      CommentFails(canon, lines, i, 0, false, EMPTY);
    }
  }

  // ---- the older format allows comments ----

  predicate AllWhite(s: string) {
    forall i | 0 <= i < |s| :: White(s[i])
  }

  lemma {:induction false} CommentIsBlank(line: string)
    requires TrimStart(line) != "" && TrimStart(line)[0] == '#'
    ensures AllWhite(BeforeHash(line))
  {
    if line[0] != '#' {
      CommentIsBlank(line[1..]);
    }
  }

  lemma {:induction false} WhiteTrims(s: string)
    requires AllWhite(s)
    ensures Trim(s) == ""
  {
    if s != "" {
      WhiteTrims(s[1..]);
    }
  }

  lemma TrimKeepsFirst(line: string)
    requires IsComment(line)
    ensures TrimStart(line) != "" && TrimStart(line)[0] == '#'
  {
    TrimEndPrefix(TrimStart(line));
  }

  lemma {:induction false} TrimEndPrefix(s: string)
    ensures TrimEnd(s) <= s
  {
    if s != "" && White(s[|s| - 1]) {
      TrimEndPrefix(s[..|s| - 1]);
    }
  }

  /** In the older format a comment line, wherever it stands, makes no difference. */
  lemma {:induction false} LegacyIgnoresComments(before: seq<string>, comment: string, rest: seq<string>, r: Registry)
    requires IsComment(comment)
    ensures Legacy(before + [comment] + rest, r) == Legacy(before + rest, r)
    decreases |before|
  {
    hide Trim, BeforeHash, AddAgent;
    var lines := before + [comment] + rest;
    if before == [] {
      TrimKeepsFirst(comment);
      CommentIsBlank(comment);
      WhiteTrims(BeforeHash(comment));
      assert lines[0] == comment && lines[1..] == rest && before + rest == rest;
    } else {
      assert lines[1..] == before[1..] + [comment] + rest && (before + rest)[1..] == before[1..] + rest;
      var next := AddAgent(r, Trim(BeforeHash(before[0])));
      LegacyIgnoresComments(before[1..], comment, rest, r);
      if next.Ok? {
        LegacyIgnoresComments(before[1..], comment, rest, next.value);
      }
    }
  }
}
