/** The text operations the trust file uses: lines, trimming, fields, and the order of strings. */
module TrustText {

  /** Unicode white space, which `str::trim` removes. */
  predicate White(c: char) {
    || '\t' <= c <= '\r' || c == ' '
    || c == '\U{85}' || c == '\U{A0}' || c == '\U{1680}' || '\U{2000}' <= c <= '\U{200A}'
    || c == '\U{2028}' || c == '\U{2029}' || c == '\U{202F}' || c == '\U{205F}' || c == '\U{3000}'
  }

  /** What `split_ascii_whitespace` splits at. */
  predicate AsciiSpace(c: char) {
    c == ' ' || c == '\t' || c == '\n' || c == '\U{0C}' || c == '\r'
  }

  predicate Printable(s: string) {
    forall i | 0 <= i < |s| :: '!' <= s[i] <= '~'
  }

  function CharBytes(c: char): nat {
    if c < '\U{80}' then 1 else if c < '\U{800}' then 2 else if c < '\U{10000}' then 3 else 4
  }

  /** The length in UTF-8. */
  function ByteLength(s: string): nat {
    if s == "" then 0 else CharBytes(s[0]) + ByteLength(s[1..])
  }

  predicate Ascii(s: string) {
    forall i | 0 <= i < |s| :: s[i] < '\U{80}'
  }

  lemma {:induction false} AsciiLength(s: string)
    requires Ascii(s)
    ensures ByteLength(s) == |s|
  {
    if s != "" {
      AsciiLength(s[1..]);
    }
  }

  // ---- lines ----

  function FirstLine(s: string): (line: string)
    ensures |line| <= |s|
  {
    if s == "" || s[0] == '\n' then "" else [s[0]] + FirstLine(s[1..])
  }

  function WithoutCr(line: string): string {
    if line != "" && line[|line| - 1] == '\r' then line[..|line| - 1] else line
  }

  /** `str::lines`: a line ends with a newline, or a carriage return and a newline; the last need not. */
  function Lines(s: string): seq<string>
    decreases |s|
  {
    if s == "" then []
    else
      var line := FirstLine(s);
      if |line| == |s| then [line] else [WithoutCr(line)] + Lines(s[|line| + 1..])
  }

  function JoinLines(lines: seq<string>): string {
    if lines == [] then "" else lines[0] + "\n" + JoinLines(lines[1..])
  }

  predicate OneLine(s: string) {
    '\n' !in s && '\r' !in s
  }

  lemma {:induction false} FirstLineStops(line: string, rest: string)
    requires '\n' !in line
    ensures FirstLine(line + "\n" + rest) == line
  {
    if line == "" {
      assert line + "\n" + rest == "\n" + rest;
    } else {
      FirstLineStops(line[1..], rest);
      assert (line + "\n" + rest)[1..] == line[1..] + "\n" + rest;
    }
  }

  /** Splitting undoes joining. */
  lemma {:induction false} LinesOfJoin(lines: seq<string>)
    requires forall l | l in lines :: OneLine(l)
    ensures Lines(JoinLines(lines)) == lines
  {
    if lines != [] {
      var line, rest := lines[0], JoinLines(lines[1..]);
      assert OneLine(line);
      FirstLineStops(line, rest);
      assert (line + "\n" + rest)[|line| + 1..] == rest;
      LinesOfJoin(lines[1..]);
    }
  }

  // ---- trimming ----

  function TrimStart(s: string): string {
    if s != "" && White(s[0]) then TrimStart(s[1..]) else s
  }

  function TrimEnd(s: string): string {
    if s != "" && White(s[|s| - 1]) then TrimEnd(s[..|s| - 1]) else s
  }

  function Trim(s: string): string {
    TrimEnd(TrimStart(s))
  }

  // ---- fields ----

  function Token(s: string): (t: string)
    ensures |t| <= |s| && (s != "" && !AsciiSpace(s[0]) ==> t != "")
  {
    if s == "" || AsciiSpace(s[0]) then "" else [s[0]] + Token(s[1..])
  }

  /** `split_ascii_whitespace`. */
  function Fields(s: string): seq<string>
    decreases |s|
  {
    if s == "" then []
    else if AsciiSpace(s[0]) then Fields(s[1..])
    else [Token(s)] + Fields(s[|Token(s)|..])
  }

  lemma {:induction false} TokenStops(t: string, rest: string)
    requires Printable(t) && (rest == "" || rest[0] == ' ')
    ensures Token(t + rest) == t
  {
    if t == "" {
      assert t + rest == rest;
    } else {
      TokenStops(t[1..], rest);
      assert (t + rest)[1..] == t[1..] + rest;
    }
  }

  /** One field in front of more fields, or alone. */
  lemma FieldsStep(t: string, rest: string)
    requires t != "" && Printable(t)
    ensures Fields(t + " " + rest) == [t] + Fields(rest)
    ensures Fields(t) == [t]
  {
    TokenStops(t, " " + rest);
    assert t + " " + rest == t + (" " + rest);
    assert (t + " " + rest)[|t|..] == " " + rest;
    assert (" " + rest)[1..] == rest;
    TokenStops(t, "");
    assert t + "" == t;
  }

  // ---- the order of strings ----

  predicate Le(a: string, b: string) {
    a == "" || (b != "" && (a[0] < b[0] || (a[0] == b[0] && Le(a[1..], b[1..]))))
  }

  lemma {:induction false} LeTotal(a: string, b: string)
    ensures Le(a, b) || Le(b, a)
    ensures Le(a, b) && Le(b, a) ==> a == b
  {
    if a != "" && b != "" && a[0] == b[0] {
      LeTotal(a[1..], b[1..]);
      assert a == [a[0]] + a[1..] && b == [b[0]] + b[1..];
    }
  }

  lemma {:induction false} LeTransitive(a: string, b: string, c: string)
    requires Le(a, b) && Le(b, c)
    ensures Le(a, c)
  {
    if a != "" && a[0] == b[0] && b[0] == c[0] {
      LeTransitive(a[1..], b[1..], c[1..]);
    }
  }

  predicate IsLeast(s: set<string>, k: string) {
    k in s && forall x | x in s :: Le(k, x)
  }

  lemma {:induction false} LeastExists(s: set<string>) returns (k: string)
    requires s != {}
    ensures IsLeast(s, k)
  {
    var x :| x in s;
    LeTotal(x, x);
    k := x;
    if s - {x} != {} {
      var other := LeastExists(s - {x});
      LeTotal(x, other);
      k := if Le(x, other) then x else other;
      forall y | y in s ensures Le(k, y) {
        assert y == x || y in s - {x};
        if y != x && k == x {
          LeTransitive(x, other, y);
        }
      }
    } else {
      assert s == {x};
    }
  }

  lemma SomeLeast(s: set<string>)
    requires s != {}
    ensures exists k :: IsLeast(s, k)
  {
    var k := LeastExists(s);
  }

  lemma LeastUnique(s: set<string>, a: string, b: string)
    requires IsLeast(s, a) && IsLeast(s, b)
    ensures a == b
  {
    LeTotal(a, b);
  }

  ghost function Least(s: set<string>): (k: string)
    requires s != {}
    ensures IsLeast(s, k)
  {
    SomeLeast(s);
    var k :| IsLeast(s, k);
    k
  }

  /** The elements of a set in ascending order. */
  ghost function Sorted(s: set<string>): (r: seq<string>)
    ensures |r| == |s| && (forall k :: k in r <==> k in s)
    decreases |s|
  {
    if s == {} then [] else [Least(s)] + Sorted(s - {Least(s)})
  }

  predicate Distinct(s: seq<string>) {
    forall i, j | 0 <= i < j < |s| :: s[i] != s[j]
  }

  predicate Ascending(s: seq<string>) {
    forall i, j | 0 <= i < j < |s| :: Le(s[i], s[j]) && s[i] != s[j]
  }

  lemma Prepend(k: string, rest: seq<string>)
    requires Ascending(rest) && forall j | 0 <= j < |rest| :: Le(k, rest[j]) && rest[j] != k
    ensures Ascending([k] + rest)
  {
    hide Le;
    var r := [k] + rest;
    assert forall j | 1 <= j < |r| :: r[j] == rest[j - 1];
  }

  lemma {:induction false} SortedAscends(s: set<string>)
    ensures Ascending(Sorted(s)) && Distinct(Sorted(s))
    decreases |s|
  {
    hide Le, Ascending;
    if s == {} {
      NothingAscends();
    } else {
      var k := Least(s);
      var rest := Sorted(s - {k});
      SortedAscends(s - {k});
      forall j | 0 <= j < |rest| ensures Le(k, rest[j]) && rest[j] != k {
        assert rest[j] in rest;
      }
      Prepend(k, rest);
    }
    AscendingDistinct(Sorted(s));
  }

  lemma NothingAscends()
    ensures Ascending([])
  {
  }

  lemma AscendingDistinct(s: seq<string>)
    requires Ascending(s)
    ensures Distinct(s)
  {
  }
}
