/** Exactly what a trust file says (`podctl/src/trust.rs`): which texts parse, and to which agents and proxies,
    stated about the lines of the text and not about how they are read.
 */
module TrustExact {
  import opened Options
  import opened TrustText
  import opened Trust
  import opened TrustLaws

  // ---- trimming and splitting ----

  /** `s` is white space around `text`, which is not empty and neither starts nor ends with any. */
  predicate Surrounds(s: string, i: nat, j: nat, text: string) {
    && i < j <= |s| && s[i..j] == text
    && AllWhite(s[..i]) && AllWhite(s[j..])
    && !White(s[i]) && !White(s[j - 1])
  }

  lemma {:induction false} StartTrimmed(s: string)
    ensures var i := |s| - |TrimStart(s)|;
            0 <= i && TrimStart(s) == s[i..] && AllWhite(s[..i]) && (i < |s| ==> !White(s[i]))
  {
    hide White;
    if s != "" && White(s[0]) {
      StartTrimmed(s[1..]);
      var i := |s| - |TrimStart(s)|;
      assert s[1..][i - 1..] == s[i..];
      assert s[..i] == [s[0]] + s[1..][..i - 1];
      assert i < |s| ==> s[1..][i - 1] == s[i];
    }
  }

  lemma {:induction false} EndTrimmed(s: string)
    ensures var j := |TrimEnd(s)|;
            j <= |s| && TrimEnd(s) == s[..j] && AllWhite(s[j..]) && (0 < j ==> !White(s[j - 1]))
  {
    hide White;
    if s != "" && White(s[|s| - 1]) {
      var n := |s| - 1;
      EndTrimmed(s[..n]);
      var j := |TrimEnd(s)|;
      assert s[..n][..j] == s[..j];
      assert s[j..] == s[..n][j..] + [s[n]];
    }
  }

  /** Trimming removes exactly the white space around a text. */
  lemma TrimExactly(s: string, text: string)
    requires text != ""
    ensures Trim(s) == text <==> exists i: nat, j: nat :: Surrounds(s, i, j, text)
  {
    hide White;
    StartTrimmed(s);
    var t := TrimStart(s);
    EndTrimmed(t);
    var i := |s| - |t|;
    var j := i + |TrimEnd(t)|;
    if Trim(s) == text {
      assert s[j..] == t[|TrimEnd(t)|..];
      assert Surrounds(s, i, j, text);
    }
    forall a: nat, b: nat | Surrounds(s, a, b, text) ensures Trim(s) == text {
      OneStart(s, a, i);
      assert s[j..] == t[|TrimEnd(t)|..];
      OneEnd(s, a, b, j);
    }
  }

  lemma OneEnd(s: string, i: nat, a: nat, b: nat)
    requires i < a <= |s| && i <= b <= |s| && AllWhite(s[a..]) && AllWhite(s[b..])
    requires !White(s[i]) && !White(s[a - 1]) && (i < b ==> !White(s[b - 1]))
    ensures a == b
  {
    hide White;
  }

  lemma OneStart(s: string, a: nat, b: nat)
    requires a < |s| && b <= |s| && AllWhite(s[..a]) && AllWhite(s[..b]) && !White(s[a]) && (b < |s| ==> !White(s[b]))
    ensures a == b
  {
    hide White;
    assert forall x | 0 <= x < a :: White(s[..a][x]);
    assert forall x | 0 <= x < b :: White(s[..b][x]);
  }

  lemma BlankExactly(s: string)
    ensures Trim(s) == "" <==> AllWhite(s)
  {
    hide White;
    StartTrimmed(s);
    EndTrimmed(TrimStart(s));
    if AllWhite(s) {
      WhiteTrims(s);
    }
  }

  predicate Gap(s: string) {
    forall i | 0 <= i < |s| :: s[i] in {' ', '\t', '\n', '\U{0C}', '\r'}
  }

  /** A field has text and no space in it. */
  predicate IsField(s: string) {
    s != "" && forall i | 0 <= i < |s| :: s[i] !in {' ', '\t', '\n', '\U{0C}', '\r'}
  }

  lemma {:induction false} FieldsSkip(gap: string, rest: string)
    requires Gap(gap)
    ensures Fields(gap + rest) == Fields(rest)
  {
    if gap == "" {
      assert gap + rest == rest;
    } else {
      FieldsSkip(gap[1..], rest);
      assert (gap + rest)[1..] == gap[1..] + rest;
    }
  }

  lemma {:induction false} TokenExactly(t: string, rest: string)
    requires (forall i | 0 <= i < |t| :: !AsciiSpace(t[i])) && (rest == "" || AsciiSpace(rest[0]))
    ensures Token(t + rest) == t
  {
    hide AsciiSpace;
    if t == "" {
      assert t + rest == rest;
    } else {
      TokenExactly(t[1..], rest);
      assert (t + rest)[1..] == t[1..] + rest;
    }
  }

  /** Splitting into fields: nothing in a gap, and a field before a gap comes before the fields after it. */
  lemma FieldsExactly(gap: string, field: string, more: string, rest: string)
    requires Gap(gap) && IsField(field) && Gap(more) && (more == "" ==> rest == "")
    ensures Fields(gap) == []
    ensures Fields(gap + field + more + rest) == [field] + Fields(rest)
  {
    FieldsSkip(gap, "");
    assert gap + "" == gap;
    FieldsSkip(gap, field + more + rest);
    assert gap + (field + more + rest) == gap + field + more + rest;
    var s := field + more + rest;
    assert s == field + (more + rest);
    TokenExactly(field, more + rest);
    assert s[|field|..] == more + rest;
    FieldsSkip(more, rest);
  }

  // ---- the older format ----

  /** The line lists a key: up to a comment, it is the key with white space around it. */
  ghost predicate Lists(line: string, key: string) {
    exists i, j, c | 0 <= i < j <= c <= |line| ::
      && Surrounds(line[..c], i, j, key)
      && '#' !in line[..c] && (c == |line| || line[c] == '#')
  }

  lemma {:induction false} HashCut(line: string)
    ensures var c := |BeforeHash(line)|;
            c <= |line| && line[..c] == BeforeHash(line) && '#' !in line[..c] && (c == |line| || line[c] == '#')
  {
    if line != "" && line[0] != '#' {
      HashCut(line[1..]);
      assert line == [line[0]] + line[1..];
    }
  }

  lemma CutNoLater(line: string, a: nat, b: nat)
    requires a <= |line| && b <= |line| && '#' !in line[..a] && (b == |line| || line[b] == '#')
    ensures a <= b
  {
    assert forall i | 0 <= i < a :: line[i] in line[..a];
  }

  lemma ListsExactly(line: string, key: string)
    requires key != ""
    ensures Lists(line, key) <==> Trim(BeforeHash(line)) == key
  {
    hide Trim, BeforeHash, Surrounds;
    HashCut(line);
    var c := |BeforeHash(line)|;
    TrimExactly(line[..c], key);
    if Trim(BeforeHash(line)) == key {
      var i: nat, j: nat :| Surrounds(line[..c], i, j, key);
      SurroundsRange(line[..c], i, j, key);
    }
    forall i, j, d | 0 <= i < j <= d <= |line| && Surrounds(line[..d], i, j, key) && '#' !in line[..d]
                     && (d == |line| || line[d] == '#')
      ensures d == c
    {
      CutNoLater(line, c, d);
      CutNoLater(line, d, c);
    }
  }

  lemma SurroundsRange(s: string, i: nat, j: nat, text: string)
    requires Surrounds(s, i, j, text)
    ensures i < j <= |s|
  {
  }

  ghost predicate ListedIn(lines: seq<string>, key: string) {
    exists n | 0 <= n < |lines| :: Lists(lines[n], key)
  }

  lemma ListedHere(lines: seq<string>, key: string)
    requires lines != []
    ensures ListedIn(lines, key) <==> Lists(lines[0], key) || ListedIn(lines[1..], key)
  {
    hide Lists;
    if n :| 0 <= n < |lines| && Lists(lines[n], key) {
      assert n > 0 ==> lines[1..][n - 1] == lines[n];
    }
    if n :| 0 <= n < |lines[1..]| && Lists(lines[1..][n], key) {
      assert lines[n + 1] == lines[1..][n];
    }
  }

  /** The keys of some lines are valid, and there are not too many together with those already there. */
  ghost predicate Listable(lines: seq<string>, r: Registry) {
    && (forall key | key != "" && ListedIn(lines, key) :: ValidKey(key))
    && exists keys: set<string> :: Bounds(keys, lines, r)
  }

  ghost predicate Bounds(keys: set<string>, lines: seq<string>, r: Registry) {
    |keys| <= MAX_TRUSTED_AGENTS && r.agents <= keys && forall key | key != "" && ListedIn(lines, key) :: key in keys
  }

  lemma Fits(have: set<string>, keys: set<string>)
    requires have <= keys
    ensures |have| <= |keys|
  {
    var rest := keys - have;
    assert keys == have + rest;
  }

  lemma {:induction false} LegacyReads(lines: seq<string>, r: Registry)
    requires |r.agents| <= MAX_TRUSTED_AGENTS
    ensures Legacy(lines, r).Ok? ==>
              && Legacy(lines, r).value.proxies == r.proxies
              && (forall key | key != "" ::
                    key in Legacy(lines, r).value.agents <==> key in r.agents || ListedIn(lines, key))
              && ("" in Legacy(lines, r).value.agents <==> "" in r.agents)
              && |Legacy(lines, r).value.agents| <= MAX_TRUSTED_AGENTS
              && (forall key | key != "" && ListedIn(lines, key) :: ValidKey(key))
    decreases |lines|
  {
    hide ValidKey, Trim, BeforeHash, Lists, ListedIn;
    if lines == [] {
      NothingListed();
    } else {
      var value := Trim(BeforeHash(lines[0]));
      forall key | key != ""
        ensures ListedIn(lines, key) <==> value == key || ListedIn(lines[1..], key)
      {
        ListedHere(lines, key);
        ListsExactly(lines[0], key);
      }
      if value == "" {
        LegacyReads(lines[1..], r);
      } else {
        KeyIsText();
        var next := AddAgent(r, value);
        if next.Ok? {
          AddCounts(r, value);
          LegacyReads(lines[1..], next.value);
        }
      }
    }
  }

  lemma NothingListed()
    ensures forall key :: !ListedIn([], key)
  {
  }

  lemma KeyIsText()
    ensures !ValidKey("")
  {
  }

  lemma AddCounts(r: Registry, key: string)
    requires |r.agents| <= MAX_TRUSTED_AGENTS && AddAgent(r, key).Ok?
    ensures |AddAgent(r, key).value.agents| <= MAX_TRUSTED_AGENTS
  {
    hide ValidKey;
    if key in r.agents {
      assert r.agents + {key} == r.agents;
    }
  }

  lemma {:induction false} LegacyAccepts(lines: seq<string>, r: Registry)
    requires Listable(lines, r)
    ensures Legacy(lines, r).Ok?
    decreases |lines|
  {
    hide ValidKey, Trim, BeforeHash, Lists, ListedIn;
    if lines != [] {
      var value := Trim(BeforeHash(lines[0]));
      var keys :| Bounds(keys, lines, r);
      forall key | key != ""
        ensures ListedIn(lines, key) <==> value == key || ListedIn(lines[1..], key)
      {
        ListedHere(lines, key);
        ListsExactly(lines[0], key);
      }
      if value == "" {
        assert Bounds(keys, lines[1..], r);
        LegacyAccepts(lines[1..], r);
      } else {
        Fits(r.agents + {value}, keys);
        var next := r.(agents := r.agents + {value});
        assert Bounds(keys, lines[1..], next);
        LegacyAccepts(lines[1..], next);
      }
    }
  }

  /** A text in the older format parses exactly when every key it lists is valid and there are at most 1024 of them;
      its agents are then exactly those keys, and it has no proxies. */
  lemma LegacyExactly(canon: Canon, contents: string)
    requires ByteLength(contents) <= MAX_TRUST_FILE_BYTES && !IsTyped(Lines(contents))
    ensures Parsed(canon, contents).Ok? <==>
            && (forall key | ListedIn(Lines(contents), key) :: ValidKey(key))
            && exists keys: set<string> ::
                 |keys| <= MAX_TRUSTED_AGENTS && forall key | ListedIn(Lines(contents), key) :: key in keys
    ensures Parsed(canon, contents).Ok? ==>
              && (forall key :: key in Parsed(canon, contents).value.agents <==> ListedIn(Lines(contents), key))
              && Parsed(canon, contents).value.proxies == map[]
  {
    hide ValidKey, Lines, Legacy, Typed, IsTyped, ListedIn;
    var lines := Lines(contents);
    assert !ListedIn(lines, "") by { NoEmptyKey(lines); }
    LegacyReads(lines, EMPTY);
    if Parsed(canon, contents).Ok? {
      var agents := Parsed(canon, contents).value.agents;
      assert |agents| <= MAX_TRUSTED_AGENTS && forall key | ListedIn(lines, key) :: key in agents;
    }
    if forall key | ListedIn(lines, key) :: ValidKey(key) {
      if keys: set<string> :| |keys| <= MAX_TRUSTED_AGENTS && forall key | ListedIn(lines, key) :: key in keys {
        assert Bounds(keys, lines, EMPTY);
        LegacyAccepts(lines, EMPTY);
      }
    }
  }

  lemma NoEmptyKey(lines: seq<string>)
    ensures !ListedIn(lines, "")
  {
    forall line: string ensures !Lists(line, "") {
    }
  }

  // ---- the typed format ----

  function FieldsOf(line: string): seq<string> {
    Fields(Trim(line))
  }

  /** The key an `agent` record names. */
  predicate NamesAgent(line: string, key: string) {
    FieldsOf(line) == ["agent", key]
  }

  /** The identity a `proxy` record names. */
  predicate NamesProxy(canon: Canon, line: string, id: ProxyIdentity) {
    && |FieldsOf(line)| == 4 && FieldsOf(line)[0] == "proxy"
    && canon(FieldsOf(line)[1]) == Some(id.origin)
    && FieldsOf(line)[2] == id.endpoint && FieldsOf(line)[3] == id.key
  }

  /** A line that may follow the header: blank, or a record of valid parts. */
  ghost predicate IsRecord(canon: Canon, line: string) {
    || AllWhite(line)
    || (exists key :: NamesAgent(line, key) && ValidKey(key))
    || (exists id :: NamesProxy(canon, line, id) && ValidEndpoint(id.endpoint) && ValidKey(id.key))
  }

  ghost predicate AgentIn(lines: seq<string>, key: string) {
    exists n | 0 <= n < |lines| :: NamesAgent(lines[n], key)
  }

  ghost predicate ProxyIn(canon: Canon, lines: seq<string>, id: ProxyIdentity) {
    exists n | 0 <= n < |lines| :: NamesProxy(canon, lines[n], id)
  }

  /** No two records name proxies of one origin. */
  ghost predicate OncePerOrigin(canon: Canon, lines: seq<string>) {
    forall m, n, a, b | 0 <= m < n < |lines| && NamesProxy(canon, lines[m], a) && NamesProxy(canon, lines[n], b) ::
      a.origin != b.origin
  }

  /** The records of a typed file, all in order. */
  ghost predicate GoodRecords(canon: Canon, lines: seq<string>) {
    && (forall n | 0 <= n < |lines| :: IsRecord(canon, lines[n]))
    && OncePerOrigin(canon, lines)
  }

  ghost predicate Holds(canon: Canon, keys: set<string>, origins: set<string>, lines: seq<string>) {
    && |keys| <= MAX_TRUSTED_AGENTS && |origins| <= MAX_TRUSTED_PROXIES
    && (forall key | AgentIn(lines, key) :: key in keys)
    && (forall id | ProxyIn(canon, lines, id) :: id.origin in origins)
  }

  predicate Keyed(r: Registry) {
    forall o | o in r.proxies :: r.proxies[o].origin == o
  }

  predicate Has(r: Registry, id: ProxyIdentity) {
    id.origin in r.proxies && r.proxies[id.origin] == id
  }

  /** `after` is `before` with the agents and proxies that the lines name. */
  ghost predicate Adds(canon: Canon, lines: seq<string>, before: Registry, after: Registry) {
    && (forall key :: key in after.agents <==> key in before.agents || AgentIn(lines, key))
    && (forall id :: Has(after, id) <==> Has(before, id) || ProxyIn(canon, lines, id))
  }

  lemma NothingNamed(canon: Canon, r: Registry)
    ensures Adds(canon, [], r, r)
  {
    hide NamesAgent, NamesProxy;
  }

  lemma BlankNamesNothing(canon: Canon, line: string, key: string, id: ProxyIdentity)
    requires AllWhite(line)
    ensures !NamesAgent(line, key) && !NamesProxy(canon, line, id)
  {
    BlankExactly(line);
    hide Trim;
  }

  lemma AgentHere(lines: seq<string>, key: string)
    requires lines != []
    ensures AgentIn(lines, key) <==> NamesAgent(lines[0], key) || AgentIn(lines[1..], key)
  {
    hide NamesAgent;
    if n :| 0 <= n < |lines| && NamesAgent(lines[n], key) {
      assert n > 0 ==> lines[1..][n - 1] == lines[n];
    }
    if n :| 0 <= n < |lines[1..]| && NamesAgent(lines[1..][n], key) {
      assert lines[n + 1] == lines[1..][n];
    }
  }

  lemma ProxyHere(canon: Canon, lines: seq<string>, id: ProxyIdentity)
    requires lines != []
    ensures ProxyIn(canon, lines, id) <==> NamesProxy(canon, lines[0], id) || ProxyIn(canon, lines[1..], id)
  {
    hide NamesProxy;
    if n :| 0 <= n < |lines| && NamesProxy(canon, lines[n], id) {
      assert n > 0 ==> lines[1..][n - 1] == lines[n];
    }
    if n :| 0 <= n < |lines[1..]| && NamesProxy(canon, lines[1..][n], id) {
      assert lines[n + 1] == lines[1..][n];
    }
  }

  lemma AddsMore(canon: Canon, lines: seq<string>, r: Registry, mid: Registry, after: Registry)
    requires lines != [] && Adds(canon, [lines[0]], r, mid) && Adds(canon, lines[1..], mid, after)
    ensures Adds(canon, lines, r, after)
  {
    hide NamesAgent, NamesProxy, AgentIn, ProxyIn, Has;
    assert [lines[0]][1..] == [];
    forall key ensures key in after.agents <==> key in r.agents || AgentIn(lines, key) {
      AgentHere(lines, key);
      AgentHere([lines[0]], key);
      NoneIn(canon, key, ProxyIdentity("", "", ""));
    }
    forall id ensures Has(after, id) <==> Has(r, id) || ProxyIn(canon, lines, id) {
      ProxyHere(canon, lines, id);
      ProxyHere(canon, [lines[0]], id);
      NoneIn(canon, "", id);
    }
  }

  lemma NoneIn(canon: Canon, key: string, id: ProxyIdentity)
    ensures !AgentIn([], key) && !ProxyIn(canon, [], id)
  {
  }

  /** What one record that is accepted does. */
  lemma RecordReads(canon: Canon, r: Registry, line: string, n: nat)
    requires !AllWhite(line) && Keyed(r)
    ensures var next := Record(canon, r, FieldsOf(line), n);
            next.Ok? ==>
              && IsRecord(canon, line) && Keyed(next.value) && Adds(canon, [line], r, next.value)
              && (forall id | NamesProxy(canon, line, id) :: id.origin !in r.proxies)
  {
    hide ValidKey, ValidEndpoint, Trim, Fields;
    var fields := FieldsOf(line);
    var next := Record(canon, r, fields, n);
    assert [line][0] == line;
    assert forall key :: AgentIn([line], key) <==> NamesAgent(line, key);
    assert forall id :: ProxyIn(canon, [line], id) <==> NamesProxy(canon, line, id);
    hide AgentIn, ProxyIn;
    if next.Ok? && |fields| == 2 {
      assert fields == ["agent", fields[1]];
      assert NamesAgent(line, fields[1]);
    } else if next.Ok? {
      var id := ProxyIdentity(canon(fields[1]).value, fields[2], fields[3]);
      assert NamesProxy(canon, line, id);
    }
  }

  /** Records that are accepted one after another. */
  lemma {:induction false} RecordsRead(canon: Canon, lines: seq<string>, n: nat, r: Registry)
    requires Keyed(r) && |r.agents| <= MAX_TRUSTED_AGENTS && |r.proxies| <= MAX_TRUSTED_PROXIES
    ensures var result := Typed(canon, lines, n, true, r);
            result.Ok? ==>
              && GoodRecords(canon, lines) && Keyed(result.value) && Adds(canon, lines, r, result.value)
              && (forall id | ProxyIn(canon, lines, id) :: id.origin !in r.proxies)
              && |result.value.agents| <= MAX_TRUSTED_AGENTS && |result.value.proxies| <= MAX_TRUSTED_PROXIES
    decreases |lines|
  {
    hide Record, Trim, Fields, NamesAgent, NamesProxy, IsRecord, Adds;
    if lines == [] {
      NothingNamed(canon, r);
    } else if Typed(canon, lines, n, true, r).Ok? {
      var line := lines[0];
      BlankExactly(line);
      if Trim(line) == "" {
        RecordsRead(canon, lines[1..], n + 1, r);
        BlankAdds(canon, line, r);
        AddsMore(canon, lines, r, r, Typed(canon, lines, n, true, r).value);
        GoodMore(canon, lines, r, r);
      } else {
        var next := Record(canon, r, FieldsOf(line), n + 1);
        RecordReads(canon, r, line, n + 1);
        RecordCounts(canon, r, FieldsOf(line), n + 1);
        RecordsRead(canon, lines[1..], n + 1, next.value);
        AddsMore(canon, lines, r, next.value, Typed(canon, lines, n, true, r).value);
        GoodMore(canon, lines, r, next.value);
      }
    }
  }

  lemma BlankAdds(canon: Canon, line: string, r: Registry)
    requires AllWhite(line)
    ensures IsRecord(canon, line) && Adds(canon, [line], r, r)
    ensures forall id :: !NamesProxy(canon, line, id)
  {
    hide NamesAgent, NamesProxy;
    forall key ensures !NamesAgent(line, key) {
      BlankNamesNothing(canon, line, key, ProxyIdentity("", "", ""));
    }
    forall id ensures !NamesProxy(canon, line, id) {
      BlankNamesNothing(canon, line, "", id);
    }
  }

  lemma RecordCounts(canon: Canon, r: Registry, fields: seq<string>, n: nat)
    requires |r.agents| <= MAX_TRUSTED_AGENTS && |r.proxies| <= MAX_TRUSTED_PROXIES && Record(canon, r, fields, n).Ok?
    ensures var next := Record(canon, r, fields, n).value;
            |next.agents| <= MAX_TRUSTED_AGENTS && |next.proxies| <= MAX_TRUSTED_PROXIES
  {
    hide ValidKey, ValidEndpoint;
    var next := Record(canon, r, fields, n).value;
    if |fields| == 2 {
      AddCounts(r, fields[1]);
    } else {
      assert next.proxies.Keys == r.proxies.Keys + {canon(fields[1]).value};
    }
  }

  lemma GoodMore(canon: Canon, lines: seq<string>, r: Registry, mid: Registry)
    requires lines != [] && IsRecord(canon, lines[0]) && GoodRecords(canon, lines[1..])
    requires Adds(canon, [lines[0]], r, mid) && Keyed(mid) && Keyed(r)
    requires forall id | NamesProxy(canon, lines[0], id) :: id.origin !in r.proxies
    requires forall id | ProxyIn(canon, lines[1..], id) :: id.origin !in mid.proxies
    ensures GoodRecords(canon, lines)
    ensures forall id | ProxyIn(canon, lines, id) :: id.origin !in r.proxies
  {
    hide NamesAgent, NamesProxy, IsRecord;
    assert forall n | 1 <= n < |lines| :: lines[n] == lines[1..][n - 1];
    forall id | NamesProxy(canon, lines[0], id) ensures id.origin in mid.proxies {
      assert ProxyIn(canon, [lines[0]], id) by { assert [lines[0]][0] == lines[0]; }
      assert Has(mid, id);
    }
    forall o | o in r.proxies ensures o in mid.proxies {
      assert Has(r, r.proxies[o]);
      assert Has(mid, r.proxies[o]);
    }
    forall m, n, a, b | 0 <= m < n < |lines| && NamesProxy(canon, lines[m], a) && NamesProxy(canon, lines[n], b)
      ensures a.origin != b.origin
    {
      assert ProxyIn(canon, lines[1..], b) by { assert lines[1..][n - 1] == lines[n]; }
      if m > 0 {
        assert lines[1..][m - 1] == lines[m] && lines[1..][n - 1] == lines[n];
      }
    }
    forall id | ProxyIn(canon, lines, id) ensures id.origin !in r.proxies {
      ProxyHere(canon, lines, id);
    }
  }

  lemma RecordAccepts(canon: Canon, r: Registry, line: string, n: nat, keys: set<string>, origins: set<string>)
    requires !AllWhite(line) && IsRecord(canon, line)
    requires |keys| <= MAX_TRUSTED_AGENTS && |origins| <= MAX_TRUSTED_PROXIES
    requires r.agents <= keys && r.proxies.Keys <= origins
    requires forall key | NamesAgent(line, key) :: key in keys
    requires forall id | NamesProxy(canon, line, id) :: id.origin in origins && id.origin !in r.proxies
    ensures Record(canon, r, FieldsOf(line), n).Ok?
  {
    hide ValidKey, ValidEndpoint, Trim, Fields;
    var fields := FieldsOf(line);
    if key :| NamesAgent(line, key) && ValidKey(key) {
      Fits(r.agents + {key}, keys);
    } else {
      var id :| NamesProxy(canon, line, id) && ValidEndpoint(id.endpoint) && ValidKey(id.key);
      Fits(r.proxies.Keys + {id.origin}, origins);
    }
  }

  lemma {:induction false} RecordsAccept(canon: Canon, lines: seq<string>, n: nat, r: Registry, keys: set<string>,
                                         origins: set<string>)
    requires Keyed(r) && GoodRecords(canon, lines) && Holds(canon, keys, origins, lines)
    requires r.agents <= keys && r.proxies.Keys <= origins
    requires forall id | ProxyIn(canon, lines, id) :: id.origin !in r.proxies
    ensures Typed(canon, lines, n, true, r).Ok?
    decreases |lines|
  {
    hide Record, Trim, Fields, NamesAgent, NamesProxy, IsRecord, AllWhite;
    if lines != [] {
      var line, rest := lines[0], lines[1..];
      BlankExactly(line);
      assert lines == [line] + rest;
      RestGood(canon, lines, keys, origins);
      if Trim(line) == "" {
        forall id | ProxyIn(canon, rest, id) ensures ProxyIn(canon, lines, id) {
          ProxyHere(canon, lines, id);
        }
        RecordsAccept(canon, rest, n + 1, r, keys, origins);
      } else {
        RecordAccepts(canon, r, line, n + 1, keys, origins);
        RecordReads(canon, r, line, n + 1);
        var next := Record(canon, r, FieldsOf(line), n + 1).value;
        NextFits(canon, lines, r, next, keys, origins);
        RecordsAccept(canon, rest, n + 1, next, keys, origins);
      }
    }
  }

  lemma RestGood(canon: Canon, lines: seq<string>, keys: set<string>, origins: set<string>)
    requires lines != [] && GoodRecords(canon, lines) && Holds(canon, keys, origins, lines)
    ensures IsRecord(canon, lines[0]) && GoodRecords(canon, lines[1..]) && Holds(canon, keys, origins, lines[1..])
    ensures forall key | NamesAgent(lines[0], key) :: key in keys
    ensures forall id | NamesProxy(canon, lines[0], id) :: ProxyIn(canon, lines, id) && id.origin in origins
  {
    hide NamesAgent, NamesProxy, IsRecord;
    assert forall n | 0 <= n < |lines[1..]| :: lines[1..][n] == lines[n + 1];
    forall key ensures AgentIn(lines, key) <==> NamesAgent(lines[0], key) || AgentIn(lines[1..], key) {
      AgentHere(lines, key);
    }
    forall id ensures ProxyIn(canon, lines, id) <==> NamesProxy(canon, lines[0], id) || ProxyIn(canon, lines[1..], id) {
      ProxyHere(canon, lines, id);
    }
  }

  lemma NextFits(canon: Canon, lines: seq<string>, r: Registry, next: Registry, keys: set<string>, origins: set<string>)
    requires lines != [] && GoodRecords(canon, lines) && Holds(canon, keys, origins, lines)
    requires Adds(canon, [lines[0]], r, next) && Keyed(r) && Keyed(next)
    requires r.agents <= keys && r.proxies.Keys <= origins
    requires forall id | ProxyIn(canon, lines, id) :: id.origin !in r.proxies
    ensures next.agents <= keys && next.proxies.Keys <= origins
    ensures forall id | ProxyIn(canon, lines[1..], id) :: id.origin !in next.proxies
  {
    hide NamesAgent, NamesProxy, IsRecord, AgentIn, ProxyIn;
    RestGood(canon, lines, keys, origins);
    assert [lines[0]][1..] == [];
    forall key | key in next.agents ensures key in keys {
      AgentHere([lines[0]], key);
      NoneIn(canon, key, ProxyIdentity("", "", ""));
    }
    forall o | o in next.proxies
      ensures o in origins && (o in r.proxies || NamesProxy(canon, lines[0], next.proxies[o]))
    {
      var id := next.proxies[o];
      assert Has(next, id);
      ProxyHere(canon, [lines[0]], id);
      NoneIn(canon, "", id);
    }
    forall id | ProxyIn(canon, lines[1..], id) ensures id.origin !in next.proxies {
      ProxyHere(canon, lines, id);
      if id.origin in next.proxies {
        NamedTwice(canon, lines, next.proxies[id.origin], id);
      }
    }
  }

  lemma NamedTwice(canon: Canon, lines: seq<string>, first: ProxyIdentity, later: ProxyIdentity)
    requires lines != [] && OncePerOrigin(canon, lines)
    requires NamesProxy(canon, lines[0], first) && ProxyIn(canon, lines[1..], later)
    ensures first.origin != later.origin
  {
    hide NamesProxy;
    var n :| 0 <= n < |lines[1..]| && NamesProxy(canon, lines[1..][n], later);
    assert lines[n + 1] == lines[1..][n];
  }

  /** The header is the first line that is not blank. */
  predicate HeaderAt(lines: seq<string>, h: nat) {
    h < |lines| && Trim(lines[h]) == HEADER && forall m | 0 <= m < h :: AllWhite(lines[m])
  }

  lemma {:induction false} HeaderReads(canon: Canon, lines: seq<string>, h: nat, n: nat, r: Registry)
    requires HeaderAt(lines, h)
    ensures Typed(canon, lines, n, false, r) == Typed(canon, lines[h + 1..], n + h + 1, true, r)
    decreases h
  {
    hide Trim, Fields, Record, AllWhite;
    if h > 0 {
      assert AllWhite(lines[0]);
      BlankExactly(lines[0]);
      assert HeaderAt(lines[1..], h - 1);
      HeaderReads(canon, lines[1..], h - 1, n + 1, r);
      assert lines[1..][h..] == lines[h + 1..];
    }
  }

  lemma {:induction false} HeaderNeeded(canon: Canon, lines: seq<string>, n: nat, r: Registry) returns (h: nat)
    requires Typed(canon, lines, n, false, r).Ok?
    ensures HeaderAt(lines, h)
    decreases |lines|
  {
    hide Trim, Fields, Record, AllWhite;
    BlankExactly(lines[0]);
    if Trim(lines[0]) == "" {
      h := HeaderNeeded(canon, lines[1..], n + 1, r);
      assert forall m | 1 <= m < h + 1 :: lines[m] == lines[1..][m - 1];
      h := h + 1;
    } else {
      h := 0;
    }
  }

  function RecordsAfter(lines: seq<string>, h: nat): seq<string> {
    if h < |lines| then lines[h + 1..] else []
  }

  /** The records are good, and name no more agents and proxies than allowed. */
  ghost predicate Acceptable(canon: Canon, records: seq<string>) {
    GoodRecords(canon, records) && exists keys, origins :: Holds(canon, keys, origins, records)
  }

  /** A typed text parses exactly when its first line that is not blank is the header, every line after it is blank or
      a record of valid parts, no two records name proxies of one origin, and they name at most 1024 agents and 32
      proxies; its agents and proxies are then exactly those they name. */
  lemma TypedExactly(canon: Canon, contents: string)
    requires ByteLength(contents) <= MAX_TRUST_FILE_BYTES && IsTyped(Lines(contents))
    ensures Parsed(canon, contents).Ok? <==>
            exists h :: HeaderAt(Lines(contents), h) && Acceptable(canon, RecordsAfter(Lines(contents), h))
    ensures forall h | HeaderAt(Lines(contents), h) && Parsed(canon, contents).Ok? ::
              var r, records := Parsed(canon, contents).value, RecordsAfter(Lines(contents), h);
              && (forall key :: key in r.agents <==> AgentIn(records, key))
              && (forall o, id ::
                    o in r.proxies && r.proxies[o] == id <==> ProxyIn(canon, records, id) && id.origin == o)
  {
    hide Lines, Typed, IsTyped, Legacy, HeaderAt, GoodRecords, AgentIn, ProxyIn, RecordsAfter, Holds;
    var lines := Lines(contents);
    if Parsed(canon, contents).Ok? {
      var h := HeaderNeeded(canon, lines, 0, EMPTY);
      TypedReads(canon, lines, h);
    }
    forall h: nat | HeaderAt(lines, h) && Parsed(canon, contents).Ok?
      ensures Keyed(Parsed(canon, contents).value)
      ensures Adds(canon, RecordsAfter(lines, h), EMPTY, Parsed(canon, contents).value)
    {
      TypedReads(canon, lines, h);
    }
    hide Parsed;
    forall h: nat | HeaderAt(lines, h) && Acceptable(canon, RecordsAfter(lines, h))
      ensures Parsed(canon, contents).Ok?
    {
      TypedAccepts(canon, contents, h);
    }
  }

  lemma TypedAccepts(canon: Canon, contents: string, h: nat)
    requires ByteLength(contents) <= MAX_TRUST_FILE_BYTES && IsTyped(Lines(contents))
    requires HeaderAt(Lines(contents), h) && Acceptable(canon, RecordsAfter(Lines(contents), h))
    ensures Parsed(canon, contents).Ok?
  {
    hide Lines, Typed, IsTyped, Legacy, GoodRecords, AgentIn, ProxyIn, Trim, AllWhite;
    var lines := Lines(contents);
    var keys, origins :| Holds(canon, keys, origins, RecordsAfter(lines, h));
    HeaderReads(canon, lines, h, 0, EMPTY);
    RecordsAccept(canon, lines[h + 1..], h + 1, EMPTY, keys, origins);
  }

  lemma TypedReads(canon: Canon, lines: seq<string>, h: nat)
    requires HeaderAt(lines, h) && Typed(canon, lines, 0, false, EMPTY).Ok?
    ensures var r, records := Typed(canon, lines, 0, false, EMPTY).value, RecordsAfter(lines, h);
            && GoodRecords(canon, records) && Keyed(r) && Adds(canon, records, EMPTY, r)
            && Holds(canon, r.agents, r.proxies.Keys, records)
  {
    hide Typed, GoodRecords, AgentIn, ProxyIn, Trim, AllWhite;
    HeaderReads(canon, lines, h, 0, EMPTY);
    RecordsRead(canon, lines[h + 1..], h + 1, EMPTY);
    var r, records := Typed(canon, lines, 0, false, EMPTY).value, lines[h + 1..];
    forall id | ProxyIn(canon, records, id) ensures id.origin in r.proxies.Keys {
      assert Has(r, id);
    }
  }

  /** A text is typed exactly when its first line that is neither blank nor a comment starts with the name of the
      format. */
  lemma {:induction false} FormatExactly(lines: seq<string>)
    ensures IsTyped(lines) <==>
            exists n | 0 <= n < |lines| ::
              && ANY_HEADER <= Trim(lines[n])
              && forall m | 0 <= m < n :: AllWhite(lines[m]) || IsComment(lines[m])
  {
    hide Trim, AllWhite;
    if lines != [] {
      BlankExactly(lines[0]);
      FormatExactly(lines[1..]);
      assert forall n | 0 <= n < |lines[1..]| :: lines[1..][n] == lines[n + 1];
      if IsTyped(lines) && !Meaningful(Trim(lines[0])) {
        var n :| 0 <= n < |lines[1..]| && ANY_HEADER <= Trim(lines[1..][n])
                 && forall m | 0 <= m < n :: AllWhite(lines[1..][m]) || IsComment(lines[1..][m]);
        assert forall m | 1 <= m < n + 1 :: lines[m] == lines[1..][m - 1];
        assert ANY_HEADER <= Trim(lines[n + 1]);
      }
      if n :| 0 < n < |lines| && ANY_HEADER <= Trim(lines[n])
              && forall m | 0 <= m < n :: AllWhite(lines[m]) || IsComment(lines[m]) {
        assert AllWhite(lines[0]) || IsComment(lines[0]);
        assert ANY_HEADER <= Trim(lines[1..][n - 1]);
      }
    }
  }
}
