/** The environment-driven part of the Django settings module: comma-separated
    host and origin lists, and the boolean switches. */
module Settings {
  import opened Wrappers
  import opened Text

  /** The process environment, as `os.environ` sees it. */
  type Environment = map<string, string>

  /** `os.environ.get(key)`. */
  function Lookup(env: Environment, key: string): Option<string> {
    if key in env then Some(env[key]) else None
  }

  /** A list comprehension `[y for x in xs for y in f(x)]`: the results of
      `f` on each element, concatenated in order. */
  function FlatMap<T, U>(f: T -> seq<U>, xs: seq<T>): seq<U> {
    if xs == [] then [] else f(xs[0]) + FlatMap(f, xs[1..])
  }

  /** Mapping a concatenation maps each half. */
  lemma {:induction false} FlatMapAppend<T, U>(f: T -> seq<U>, a: seq<T>, b: seq<T>)
    ensures FlatMap(f, a + b) == FlatMap(f, a) + FlatMap(f, b)
  {
    if a == [] {
      assert a + b == b;
    } else {
      FlatMapAppend(f, a[1..], b);
      assert (a + b)[0] == a[0] && (a + b)[1..] == a[1..] + b;
      assert FlatMap(f, a + b) == f(a[0]) + FlatMap(f, a[1..] + b);
    }
  }

  /** What one part contributes: its stripped form, unless that is empty. */
  function Kept(p: string): seq<string> {
    if Trim(Python, p) == "" then [] else [Trim(Python, p)]
  }

  /** `[x.strip() for x in parts if x.strip()]`: the trimmed, non-blank
      parts, in order. */
  function NonBlank(parts: seq<string>): seq<string> {
    FlatMap(Kept, parts)
  }

  /** An entry is kept exactly when it is the non-empty stripped form of
      some part, so every entry is non-empty and already stripped, and there
      are no more entries than parts. */
  lemma {:induction false} NonBlankMembers(parts: seq<string>)
    ensures forall e :: e in NonBlank(parts) <==> e != "" && exists p :: p in parts && Trim(Python, p) == e
    ensures forall e :: e in NonBlank(parts) ==> e != "" && Trim(Python, e) == e
    ensures |NonBlank(parts)| <= |parts|
  {
    if parts != [] {
      NonBlankMembers(parts[1..]);
      assert forall p :: p in parts <==> p == parts[0] || p in parts[1..];
      TrimIdempotent(Python, parts[0]);
    }
  }

  /** Filtering a list in two pieces is filtering each piece: entries keep
      their order, and a repeated entry stays repeated. */
  lemma NonBlankAppend(a: seq<string>, b: seq<string>)
    ensures NonBlank(a + b) == NonBlank(a) + NonBlank(b)
  {
    FlatMapAppend(Kept, a, b);
  }

  /** A single part contributes its stripped form, unless that is empty. */
  lemma NonBlankSingle(p: string)
    ensures NonBlank([p]) == if Trim(Python, p) == "" then [] else [Trim(Python, p)]
  {
    assert [p][1..] == [];
    assert FlatMap(Kept, [p]) == Kept(p) + FlatMap(Kept, []);
  }

  /** `[x.strip() for x in s.split(',') if x.strip()]`: no entry is empty,
      blank, padded or holds a comma; each entry is the stripped form of a
      comma-separated segment, and every segment that is not blank contributes
      its stripped form. */
  function CommaList(s: string): (r: seq<string>)
    ensures forall e :: e in r ==> e != "" && ',' !in e && Trim(Python, e) == e
    ensures forall e :: e in r ==> !IsSpace(Python, e[0]) && !IsSpace(Python, e[|e| - 1])
    ensures forall e :: e in r <==> e != "" && exists p :: p in Split(s, ',') && Trim(Python, p) == e
  {
    NonBlankMembers(Split(s, ','));
    SplitSegmentsFree(s, ',');
    NonBlank(Split(s, ','))
  }

  /** A comma splits the input in two: the list of the whole is the list of
      the left part followed by the list of the right part, so entries keep
      the input's order and repeated entries are kept. */
  lemma CommaListConcat(a: string, b: string)
    ensures CommaList(a + "," + b) == CommaList(a) + CommaList(b)
  {
    SplitConcat(a, b, ',');
    NonBlankAppend(Split(a, ','), Split(b, ','));
  }

  /** A comma-free segment gives its stripped form, or nothing when blank. */
  lemma CommaListOfSegment(p: string)
    requires ',' !in p
    ensures CommaList(p) == if Trim(Python, p) == "" then [] else [Trim(Python, p)]
  {
    SplitJoin([p], ',');
    NonBlankSingle(p);
  }

  /** Input made only of commas and whitespace gives the empty list. */
  lemma BlankCommaList(s: string)
    requires forall k :: 0 <= k < |s| ==> s[k] == ',' || IsSpace(Python, s[k])
    ensures CommaList(s) == []
  {
    var parts := Split(s, ',');
    SplitKeepsChars(s, ',');
    SplitSegmentsFree(s, ',');
    forall p | p in parts ensures AllSpace(Python, p) {
      forall k | 0 <= k < |p| ensures IsSpace(Python, p[k]) {
        assert p[k] in p;
      }
    }
    NonBlankOfBlank(parts);
  }

  lemma {:induction false} NonBlankOfBlank(parts: seq<string>)
    requires forall p :: p in parts ==> AllSpace(Python, p)
    ensures NonBlank(parts) == []
  {
    if parts != [] {
      assert parts[0] in parts;
      NonBlankOfBlank(parts[1..]);
    }
  }

  /** The list re-joined with commas parses to itself. */
  lemma {:induction false} CommaListRejoin(s: string)
    ensures CommaList(Join(CommaList(s), [','])) == CommaList(s)
  {
    var r := CommaList(s);
    if r == [] {
      assert Join(r, [',']) == "";
      BlankCommaList("");
    } else {
      SplitJoin(r, ',');
      NonBlankOfTrimmed(r);
    }
  }

  lemma {:induction false} NonBlankOfTrimmed(r: seq<string>)
    requires forall e :: e in r ==> e != "" && Trim(Python, e) == e
    ensures NonBlank(r) == r
  {
    if r != [] {
      assert r[0] in r;
      assert forall e :: e in r[1..] ==> e in r;
      NonBlankOfTrimmed(r[1..]);
      assert [r[0]] + r[1..] == r;
    }
  }

  /** `os.environ.get(key, 'False').lower() == 'true'`. */
  function Flag(value: Option<string>): (b: bool)
    ensures value.None? ==> !b
  {
    Lower(value.GetOr("False")) == "true"
  }

  /** A switch is on exactly when its value spells "true" in any mix of case. */
  lemma FlagIsCaseInsensitiveTrue(v: string)
    ensures Flag(Some(v)) <==>
              |v| == 4 && (v[0] == 't' || v[0] == 'T') && (v[1] == 'r' || v[1] == 'R')
              && (v[2] == 'u' || v[2] == 'U') && (v[3] == 'e' || v[3] == 'E')
  {
    LowerEqualsWord(v, "true");
    assert UpperChar('t') == 'T' && UpperChar('r') == 'R' && UpperChar('u') == 'U' && UpperChar('e') == 'E';
  }

  lemma FlagExamples()
    ensures Flag(Some("TRUE")) && Flag(Some("True")) && Flag(Some("true"))
    ensures !Flag(Some("1")) && !Flag(Some("yes")) && !Flag(Some(" true")) && !Flag(Some("False"))
    ensures !Flag(None)
  {
    FlagIsCaseInsensitiveTrue("TRUE");
    FlagIsCaseInsensitiveTrue("True");
    FlagIsCaseInsensitiveTrue("true");
    FlagIsCaseInsensitiveTrue("1");
    FlagIsCaseInsensitiveTrue("yes");
    FlagIsCaseInsensitiveTrue(" true");
    FlagIsCaseInsensitiveTrue("False");
  }

  /** The settings this model reads from the environment. */
  datatype Config = Config(
    debug: bool,
    allowedHosts: seq<string>,
    corsAllowedOrigins: seq<string>,
    csrfTrustedOrigins: seq<string>,
    sessionCookieSecure: bool,
    csrfCookieSecure: bool)

  /** The fallbacks "localhost,127.0.0.1" and
      "http://localhost:3000,http://127.0.0.1:3000", spelled as concatenations
      so that the verifier does not evaluate the parser on them. */
  const DefaultHosts := "localhost" + "," + "127.0.0.1"
  const DefaultOrigins := "http://localhost:3000" + "," + "http://127.0.0.1:3000"

  /** The settings module evaluated in environment `env`. */
  function Load(env: Environment): (c: Config)
    ensures c.debug <==> Flag(Lookup(env, "DEBUG"))
    ensures "ALLOWED_HOSTS" !in env ==> c.allowedHosts == CommaList(DefaultHosts)
    ensures "ALLOWED_HOSTS" in env ==> c.allowedHosts == CommaList(env["ALLOWED_HOSTS"])
    ensures "CORS_ALLOWED_ORIGINS" !in env ==> c.corsAllowedOrigins == CommaList(DefaultOrigins)
    ensures "CORS_ALLOWED_ORIGINS" in env ==> c.corsAllowedOrigins == CommaList(env["CORS_ALLOWED_ORIGINS"])
    ensures "CSRF_TRUSTED_ORIGINS" !in env ==> c.csrfTrustedOrigins == CommaList(DefaultOrigins)
    ensures "CSRF_TRUSTED_ORIGINS" in env ==> c.csrfTrustedOrigins == CommaList(env["CSRF_TRUSTED_ORIGINS"])
    ensures c.sessionCookieSecure <==> Flag(Lookup(env, "SESSION_COOKIE_SECURE"))
    ensures c.csrfCookieSecure <==> Flag(Lookup(env, "CSRF_COOKIE_SECURE"))
  {
    Config(
      Flag(Lookup(env, "DEBUG")),
      CommaList(Lookup(env, "ALLOWED_HOSTS").GetOr(DefaultHosts)),
      CommaList(Lookup(env, "CORS_ALLOWED_ORIGINS").GetOr(DefaultOrigins)),
      CommaList(Lookup(env, "CSRF_TRUSTED_ORIGINS").GetOr(DefaultOrigins)),
      Flag(Lookup(env, "SESSION_COOKIE_SECURE")),
      Flag(Lookup(env, "CSRF_COOKIE_SECURE")))
  }

  /** Two comma-free, trimmed entries joined by a comma parse back to themselves. */
  lemma CommaListOfPair(a: string, b: string)
    requires a != "" && b != "" && ',' !in a && ',' !in b
    requires !IsSpace(Python, a[0]) && !IsSpace(Python, a[|a| - 1])
    requires !IsSpace(Python, b[0]) && !IsSpace(Python, b[|b| - 1])
    ensures CommaList(a + "," + b) == [a, b]
  {
    assert Join([a, b], [',']) == a + "," + b;
    SplitJoin([a, b], ',');
    TrimOfTrimmed(Python, a);
    TrimOfTrimmed(Python, b);
    NonBlankOfTrimmed([a, b]);
  }

  /** With none of the variables set, the hosts and origins are the two local
      development addresses and every switch is off. */
  lemma DefaultsWithEmptyEnvironment()
    ensures Load(map[]) == Config(
      false,
      ["localhost", "127.0.0.1"],
      ["http://localhost:3000", "http://127.0.0.1:3000"],
      ["http://localhost:3000", "http://127.0.0.1:3000"],
      false, false)
  {
    DefaultHostsList();
    DefaultOriginsList();
    FlagExamples();
  }

  lemma DefaultHostsList()
    ensures CommaList(DefaultHosts) == ["localhost", "127.0.0.1"]
  {
    CommaListOfPair("localhost", "127.0.0.1");
  }

  lemma DefaultOriginsList()
    ensures CommaList(DefaultOrigins) == ["http://localhost:3000", "http://127.0.0.1:3000"]
  {
    CommaListOfPair("http://localhost:3000", "http://127.0.0.1:3000");
  }
}
