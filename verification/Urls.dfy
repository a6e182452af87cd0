/** Splitting and recomposing URLs as `urllib.parse` does (RFC 3986 sections 3 and 5.3), and the
    address functions built on them. All statements are over all strings. */
module Urls {
  import opened Json
  import opened Text

  /** What the library's authority checks say about a non-empty authority: a message when they raise
      `ValueError` (unbalanced or bad brackets, characters unsafe under NFKC), nothing otherwise. */
  type Splitter = string -> Option<string>

  datatype Parts = Parts(scheme: string, netloc: string, path: string, query: string, fragment: string)
  datatype Result<+T> = Ok(value: T) | ValueError(message: string)

  /** Tab, line feed and carriage return are deleted wherever they occur in a URL. */
  predicate IsUnsafe(c: char) {
    c == '\t' || c == '\n' || c == '\r'
  }

  predicate IsC0OrSpace(c: char) {
    c as int <= 0x20
  }

  predicate IsSchemeChar(c: char) {
    IsAsciiLetter(c) || '0' <= c <= '9' || c == '+' || c == '-' || c == '.'
  }

  function RemoveUnsafe(s: string): string {
    if s == "" then ""
    else (if IsUnsafe(s[0]) then "" else [s[0]]) + RemoveUnsafe(s[1..])
  }

  lemma {:induction false} RemoveUnsafeMeaning(s: string)
    ensures forall c :: c in RemoveUnsafe(s) <==> c in s && !IsUnsafe(c)
    ensures (forall c :: c in s ==> !IsUnsafe(c)) ==> RemoveUnsafe(s) == s
  {
    if s == "" {
    } else {
      RemoveUnsafeMeaning(s[1..]);
      assert s == [s[0]] + s[1..];
    }
  }

  lemma {:induction false} RemoveUnsafeAppend(s: string, t: string)
    ensures RemoveUnsafe(s + t) == RemoveUnsafe(s) + RemoveUnsafe(t)
  {
    if s == "" {
      assert s + t == t;
    } else {
      var first := if IsUnsafe(s[0]) then "" else [s[0]];
      calc {
        RemoveUnsafe(s + t);
        { assert (s + t)[0] == s[0] && (s + t)[1..] == s[1..] + t; }
        first + RemoveUnsafe(s[1..] + t);
        { RemoveUnsafeAppend(s[1..], t); }
        first + (RemoveUnsafe(s[1..]) + RemoveUnsafe(t));
        (first + RemoveUnsafe(s[1..])) + RemoveUnsafe(t);
      }
    }
  }

  function LStripC0(s: string): string {
    if s != "" && IsC0OrSpace(s[0]) then LStripC0(s[1..]) else s
  }

  /** What the splitter looks at. */
  function Clean(s: string): string {
    RemoveUnsafe(LStripC0(s))
  }

  const DELIMITERS: set<char> := {'/', '?', '#'}

  /** The leading run of characters up to a path, query or fragment. */
  function Authority(s: string): string {
    s[..IndexOfAny(s, DELIMITERS)]
  }

  /** `scheme:rest`, if the text before the first colon is a scheme (RFC 3986 section 3.1). */
  function SplitScheme(u: string): (string, string) {
    var colon := IndexOfAny(u, {':'});
    if 0 < colon < |u| && IsAsciiLetter(u[0]) && forall i :: 0 <= i < colon ==> IsSchemeChar(u[i])
    then (Lower(u[..colon]), u[colon + 1..])
    else ("", u)
  }

  /** `//authority` and what follows it (section 3.2). */
  function SplitNetloc(rest: string): (string, string) {
    if "//" <= rest
    then (Authority(rest[2..]), rest[2 + |Authority(rest[2..])|..])
    else ("", rest)
  }

  /** Everything before the first such character, and everything after it. */
  function SplitOnce(s: string, c: char): (string, string) {
    var i := IndexOfAny(s, {c});
    (s[..i], if i < |s| then s[i + 1..] else "")
  }

  /** `urlsplit`. */
  function UrlSplit(url: string, splitter: Splitter): Result<Parts> {
    var (scheme, rest) := SplitScheme(Clean(url));
    var (netloc, tail) := SplitNetloc(rest);
    var (beforeFragment, fragment) := SplitOnce(tail, '#');
    var (path, query) := SplitOnce(beforeFragment, '?');
    if netloc != "" && splitter(netloc).Some? then ValueError(splitter(netloc).value)
    else Ok(Parts(scheme, netloc, path, query, fragment))
  }

  const NETLOC_SCHEMES := {"http", "https", "ws", "wss"}

  /** `urlunsplit`, for the schemes this application passes to it. */
  function UrlUnsplit(p: Parts): string {
    var slashed := if p.path != "" && p.path[0] != '/' then "/" + p.path else p.path;
    var hier :=
      if p.netloc != "" then "//" + p.netloc + slashed
      else if p.scheme in NETLOC_SCHEMES && !("//" <= p.path) then "//" + slashed
      else p.path;
    (if p.scheme != "" then p.scheme + ":" else "") + hier
      + (if p.query != "" then "?" + p.query else "")
      + (if p.fragment != "" then "#" + p.fragment else "")
  }

  // ---------------------------------------------------------------- the address functions

  const PLAINTEXT_SCHEMES := {"http", "ws"}
  const ALLOWED_HOST_SCHEMES := {"http", "ws", "https", "wss"}

  function Candidate(host: string): string {
    var candidate := Strip(host);
    if Contains(candidate, "://") then candidate else "https://" + candidate
  }

  function NormalizeHostUrl(host: string, splitter: Splitter): Result<Parts> {
    UrlSplit(Candidate(host), splitter)
  }

  function WebsocketUrl(host: string, splitter: Splitter): Result<string> {
    match NormalizeHostUrl(host, splitter)
    case ValueError(m) => ValueError(m)
    case Ok(parts) =>
      var scheme := if parts.scheme in PLAINTEXT_SCHEMES then "ws" else "wss";
      Ok(UrlUnsplit(Parts(scheme, parts.netloc, "/api/websocket", "", "")))
  }

  function HttpBaseUrl(host: string, splitter: Splitter): Result<string> {
    match NormalizeHostUrl(host, splitter)
    case ValueError(m) => ValueError(m)
    case Ok(parts) =>
      var scheme := if parts.scheme in PLAINTEXT_SCHEMES then "http" else "https";
      Ok(UrlUnsplit(Parts(scheme, parts.netloc, "", "", "")))
  }

  // ---------------------------------------------------------------- recompose, then split

  /** Nothing in this string is deleted by the splitter or ends a component listed in cs. */
  ghost predicate Avoids(s: string, cs: set<char>) {
    forall c :: c in s ==> c !in cs && !IsUnsafe(c)
  }

  /** The components a recomposed URL can be split back into. */
  ghost predicate Canonical(p: Parts) {
    && p.scheme != "" && 'a' <= p.scheme[0] <= 'z'
    && (forall c :: c in p.scheme ==> 'a' <= c <= 'z' || '0' <= c <= '9' || c == '+' || c == '-' || c == '.')
    && p.netloc != "" && Avoids(p.netloc, DELIMITERS)
    && (p.path != "" ==> p.path[0] == '/') && Avoids(p.path, {'?', '#'})
    && Avoids(p.query, {'#'})
    && Avoids(p.fragment, {})
  }

  lemma CanonicalScheme(p: Parts)
    requires Canonical(p)
    ensures IsAsciiLetter(p.scheme[0]) && Lower(p.scheme) == p.scheme
    ensures forall c :: c in p.scheme ==> IsSchemeChar(c)
  {
    assert forall i :: 0 <= i < |p.scheme| ==> p.scheme[i] in p.scheme;
  }

  lemma SplitSchemeOf(scheme: string, rest: string)
    requires scheme != "" && IsAsciiLetter(scheme[0])
    requires forall c :: c in scheme ==> IsSchemeChar(c)
    ensures SplitScheme(scheme + ":" + rest) == (Lower(scheme), rest)
  {
    var u := scheme + ":" + rest;
    forall i | 0 <= i < |scheme| ensures u[i] == scheme[i] && IsSchemeChar(u[i]) {
      assert scheme[i] in scheme;
    }
    IndexOfAnyMeaning(u, {':'}, |scheme|);
    assert u[..|scheme|] == scheme;
    assert u[|scheme| + 1..] == rest;
  }

  lemma AuthorityOf(netloc: string, tail: string)
    requires Avoids(netloc, DELIMITERS)
    requires tail != "" ==> tail[0] in DELIMITERS
    ensures Authority(netloc + tail) == netloc
  {
    forall i | 0 <= i < |netloc| ensures (netloc + tail)[i] !in DELIMITERS {
      assert netloc[i] in netloc;
    }
    IndexOfAnyMeaning(netloc + tail, DELIMITERS, |netloc|);
  }

  lemma SplitNetlocOf(netloc: string, tail: string)
    requires Avoids(netloc, DELIMITERS)
    requires tail != "" ==> tail[0] in DELIMITERS
    ensures SplitNetloc("//" + netloc + tail) == (netloc, tail)
  {
    var rest := "//" + netloc + tail;
    assert rest[..2] == "//" && rest[2..] == netloc + tail;
    AuthorityOf(netloc, tail);
    assert rest[2 + |netloc|..] == tail;
  }

  lemma SplitOnceOf(before: string, c: char, after: string)
    requires c !in before
    ensures SplitOnce(if after != "" then before + [c] + after else before, c) == (before, after)
  {
    var s := if after != "" then before + [c] + after else before;
    forall i | 0 <= i < |before| ensures s[i] !in {c} {
      assert s[i] == before[i] && before[i] in before;
    }
    IndexOfAnyMeaning(s, {c}, |before|);
    assert s[..|before|] == before;
  }

  lemma CleanKeeps(s: string)
    requires s != "" && IsAsciiLetter(s[0]) && Avoids(s, {})
    ensures Clean(s) == s
  {
    RemoveUnsafeMeaning(s);
  }

  function BeforeFragment(p: Parts): string {
    if p.query != "" then p.path + ['?'] + p.query else p.path
  }

  function TailOf(p: Parts): string {
    if p.fragment != "" then BeforeFragment(p) + ['#'] + p.fragment else BeforeFragment(p)
  }

  lemma Regroup(a: string, b: string, c: string, d: string, e: string)
    ensures a + (b + c) + d + e == a + (b + (c + d + e))
  {
  }

  lemma UnsplitShape(p: Parts)
    requires Canonical(p)
    ensures UrlUnsplit(p) == p.scheme + ":" + ("//" + p.netloc + TailOf(p))
  {
    hide Avoids, IsAsciiLetter, IsSchemeChar, Lower;
    var q := if p.query != "" then "?" + p.query else "";
    var f := if p.fragment != "" then "#" + p.fragment else "";
    assert BeforeFragment(p) == p.path + q;
    assert TailOf(p) == p.path + q + f;
    assert UrlUnsplit(p) == p.scheme + ":" + ("//" + p.netloc + p.path) + q + f;
    Regroup(p.scheme + ":", "//" + p.netloc, p.path, q, f);
  }

  lemma TailAvoids(p: Parts)
    requires Canonical(p)
    ensures Avoids(TailOf(p), {})
    ensures TailOf(p) != "" ==> TailOf(p)[0] in DELIMITERS
    ensures '#' !in BeforeFragment(p)
  {
  }

  lemma UnsplitIsClean(p: Parts, u: string)
    requires Canonical(p) && u == p.scheme + ":" + ("//" + p.netloc + TailOf(p))
    ensures Clean(u) == u
  {
    TailAvoids(p);
    CanonicalScheme(p);
    forall c | c in u ensures !IsUnsafe(c) {
      assert c in p.scheme || c == ':' || c == '/' || c in p.netloc || c in TailOf(p);
    }
    assert u[0] == p.scheme[0];
    CleanKeeps(u);
  }

  lemma AuthorityStep(p: Parts)
    requires Canonical(p)
    ensures SplitNetloc("//" + p.netloc + TailOf(p)) == (p.netloc, TailOf(p))
  {
    TailAvoids(p);
    SplitNetlocOf(p.netloc, TailOf(p));
  }

  lemma TailStep(p: Parts)
    requires Canonical(p)
    ensures SplitOnce(TailOf(p), '#') == (BeforeFragment(p), p.fragment)
    ensures SplitOnce(BeforeFragment(p), '?') == (p.path, p.query)
  {
    TailAvoids(p);
    SplitOnceOf(BeforeFragment(p), '#', p.fragment);
    SplitOnceOf(p.path, '?', p.query);
  }

  lemma SplitInSteps(url: string, p: Parts, rest: string, tail: string, before: string, splitter: Splitter)
    requires Clean(url) == url && url == p.scheme + ":" + rest
    requires p.scheme != "" && IsAsciiLetter(p.scheme[0]) && Lower(p.scheme) == p.scheme
    requires forall c :: c in p.scheme ==> IsSchemeChar(c)
    requires SplitNetloc(rest) == (p.netloc, tail)
    requires SplitOnce(tail, '#') == (before, p.fragment)
    requires SplitOnce(before, '?') == (p.path, p.query)
    ensures UrlSplit(url, splitter)
         == if p.netloc != "" && splitter(p.netloc).Some? then ValueError(splitter(p.netloc).value) else Ok(p)
  {
    SplitSchemeOf(p.scheme, rest);
  }

  /** RFC 3986 section 5.3 then section 3: recomposing and splitting is the identity. */
  lemma SplitOfUnsplit(p: Parts, splitter: Splitter)
    requires Canonical(p)
    ensures UrlSplit(UrlUnsplit(p), splitter)
         == if splitter(p.netloc).Some? then ValueError(splitter(p.netloc).value) else Ok(p)
  {
    var rest := "//" + p.netloc + TailOf(p);
    UnsplitShape(p);
    UnsplitIsClean(p, p.scheme + ":" + rest);
    CanonicalScheme(p);
    AuthorityStep(p);
    TailStep(p);
    SplitInSteps(p.scheme + ":" + rest, p, rest, TailOf(p), BeforeFragment(p), splitter);
  }

  // ---------------------------------------------------------------- what splitting yields

  lemma NetlocCharacters(u: string)
    ensures var netloc := SplitNetloc(SplitScheme(u).1).0;
            forall c :: c in netloc ==> c in u && c !in DELIMITERS
  {
    var rest := SplitScheme(u).1;
    if "//" <= rest {
      IndexOfAnyMeaning(rest[2..], DELIMITERS, IndexOfAny(rest[2..], DELIMITERS));
      assert forall c :: c in rest[2..] ==> c in rest;
    }
  }

  /** A split authority is never refused, holds no delimiter, and contains nothing the splitter deletes. */
  lemma NetlocIsClean(url: string, splitter: Splitter)
    requires UrlSplit(url, splitter).Ok?
    ensures Avoids(UrlSplit(url, splitter).value.netloc, DELIMITERS)
    ensures forall c :: c in UrlSplit(url, splitter).value.netloc ==> c !in {'/', '?', '#', '\t', '\n', '\r'}
    ensures UrlSplit(url, splitter).value.netloc != "" ==> splitter(UrlSplit(url, splitter).value.netloc).None?
  {
    NetlocCharacters(Clean(url));
    RemoveUnsafeMeaning(LStripC0(url));
  }

  // ---------------------------------------------------------------- agreement of the address functions

  ghost predicate IsLinkPath(path: string) {
    path != "" && path[0] == '/' && Avoids(path, {'?', '#'})
  }

  lemma LowerScheme(scheme: string)
    requires scheme in NETLOC_SCHEMES
    ensures scheme != "" && IsAsciiLetter(scheme[0]) && Lower(scheme) == scheme
    ensures forall c :: c in scheme ==> IsAsciiLetter(c)
  {
  }

  lemma RecomposedParts(scheme: string, netloc: string, path: string, splitter: Splitter)
    requires scheme in NETLOC_SCHEMES
    requires netloc != "" && Avoids(netloc, DELIMITERS) && splitter(netloc).None?
    requires IsLinkPath(path)
    ensures UrlUnsplit(Parts(scheme, netloc, path, "", "")) == scheme + "://" + netloc + path
    ensures UrlUnsplit(Parts(scheme, netloc, "", "", "")) + path == scheme + "://" + netloc + path
    ensures UrlSplit(scheme + "://" + netloc + path, splitter) == Ok(Parts(scheme, netloc, path, "", ""))
  {
    assert UrlUnsplit(Parts(scheme, netloc, path, "", "")) == scheme + "://" + netloc + path;
    assert UrlUnsplit(Parts(scheme, netloc, "", "", "")) + path == scheme + "://" + netloc + path;
    LowerScheme(scheme);
    SplitOfUnsplit(Parts(scheme, netloc, path, "", ""), splitter);
  }

  lemma LinksOf(n: Parts, path: string, splitter: Splitter)
    requires n.netloc != "" && Avoids(n.netloc, DELIMITERS) && splitter(n.netloc).None?
    requires IsLinkPath(path)
    ensures var plain := n.scheme in PLAINTEXT_SCHEMES;
            && UrlSplit(UrlUnsplit(Parts(if plain then "ws" else "wss", n.netloc, "/api/websocket", "", "")), splitter)
               == Ok(Parts(if plain then "ws" else "wss", n.netloc, "/api/websocket", "", ""))
            && UrlSplit(UrlUnsplit(Parts(if plain then "http" else "https", n.netloc, "", "", "")) + path, splitter)
               == Ok(Parts(if plain then "http" else "https", n.netloc, path, "", ""))
  {
    var plain := n.scheme in PLAINTEXT_SCHEMES;
    RecomposedParts(if plain then "ws" else "wss", n.netloc, "/api/websocket", splitter);
    RecomposedParts(if plain then "http" else "https", n.netloc, path, splitter);
  }

  /** The websocket URL and every deep link of a host with an authority split back into that host's
      own authority and the fixed path, with no query or fragment; both downgrade to plain text together. */
  lemma WebsocketAndLinksShareTheAuthority(host: string, path: string, splitter: Splitter)
    requires NormalizeHostUrl(host, splitter).Ok? && NormalizeHostUrl(host, splitter).value.netloc != ""
    requires IsLinkPath(path)
    ensures WebsocketUrl(host, splitter).Ok? && HttpBaseUrl(host, splitter).Ok?
    ensures var n := NormalizeHostUrl(host, splitter).value;
            var plain := n.scheme in PLAINTEXT_SCHEMES;
            && UrlSplit(WebsocketUrl(host, splitter).value, splitter)
               == Ok(Parts(if plain then "ws" else "wss", n.netloc, "/api/websocket", "", ""))
            && UrlSplit(HttpBaseUrl(host, splitter).value + path, splitter)
               == Ok(Parts(if plain then "http" else "https", n.netloc, path, "", ""))
  {
    var n := NormalizeHostUrl(host, splitter).value;
    NetlocIsClean(Candidate(host), splitter);
    LinksOf(n, path, splitter);
  }

  // ---------------------------------------------------------------- a base URL, split again

  lemma SplitBareNetloc(netloc: string)
    requires Avoids(netloc, DELIMITERS)
    ensures SplitNetloc("//" + netloc) == (netloc, "")
    ensures SplitOnce("", '#') == ("", "") && SplitOnce("", '?') == ("", "")
  {
    SplitNetlocOf(netloc, "");
    assert "//" + netloc + "" == "//" + netloc;
  }

  lemma BaseIsClean(scheme: string, netloc: string)
    requires scheme in NETLOC_SCHEMES && Avoids(netloc, DELIMITERS)
    ensures Clean(scheme + ":" + ("//" + netloc)) == scheme + ":" + ("//" + netloc)
  {
    LowerScheme(scheme);
    var base := scheme + ":" + ("//" + netloc);
    forall c | c in base ensures !IsUnsafe(c) {
      assert c in scheme || c == ':' || c == '/' || c in netloc;
    }
    CleanKeeps(base);
  }

  lemma SplitBase(scheme: string, netloc: string, splitter: Splitter)
    requires scheme in NETLOC_SCHEMES && Avoids(netloc, DELIMITERS)
    ensures UrlSplit(scheme + "://" + netloc, splitter)
         == if netloc != "" && splitter(netloc).Some? then ValueError(splitter(netloc).value)
            else Ok(Parts(scheme, netloc, "", "", ""))
  {
    assert scheme + "://" + netloc == scheme + ":" + ("//" + netloc);
    LowerScheme(scheme);
    BaseIsClean(scheme, netloc);
    SplitBareNetloc(netloc);
    SplitInSteps(scheme + ":" + ("//" + netloc), Parts(scheme, netloc, "", "", ""), "//" + netloc, "", "", splitter);
  }

  lemma UnsplitBase(scheme: string, netloc: string)
    requires scheme in NETLOC_SCHEMES
    ensures UrlUnsplit(Parts(scheme, netloc, "", "", "")) == scheme + "://" + netloc
  {
  }

  lemma BaseOf(host: string, parts: Parts, splitter: Splitter)
    requires NormalizeHostUrl(host, splitter) == Ok(parts)
    ensures HttpBaseUrl(host, splitter)
         == Ok((if parts.scheme in PLAINTEXT_SCHEMES then "http" else "https") + "://" + parts.netloc)
  {
    UnsplitBase(if parts.scheme in PLAINTEXT_SCHEMES then "http" else "https", parts.netloc);
  }

  lemma BaseOfStrippedBase(base: string, scheme: string, netloc: string, splitter: Splitter)
    requires scheme in {"http", "https"} && Avoids(netloc, DELIMITERS)
    requires Strip(base) == scheme + "://" + netloc
    ensures HttpBaseUrl(base, splitter)
         == if netloc != "" && splitter(netloc).Some? then ValueError(splitter(netloc).value)
            else Ok(scheme + "://" + netloc)
  {
    assert OccursAt(Strip(base), "://", |scheme|);
    SplitBase(scheme, netloc, splitter);
    if netloc == "" || splitter(netloc).None? {
      BaseOf(base, Parts(scheme, netloc, "", "", ""), splitter);
    }
  }

  lemma StrippedBase(scheme: string, netloc: string)
    requires scheme in NETLOC_SCHEMES && netloc != ""
    ensures exists n :: 0 <= n <= |netloc| && Strip(scheme + "://" + netloc) == scheme + "://" + netloc[..n]
                     && (n == |netloc| <==> !IsSpace(netloc[|netloc| - 1]))
  {
    var base := scheme + "://" + netloc;
    LowerScheme(scheme);
    assert base[0] == scheme[0] && LStrip(base) == base;
    RStripMeaning(base);
    RStripStopsAt(base, |scheme| + 3);
    var n := |RStrip(base)| - |scheme| - 3;
    assert base[..|scheme| + 3 + n] == scheme + "://" + netloc[..n];
  }

  lemma BaseOfBase(scheme: string, netloc: string, splitter: Splitter)
    requires scheme in {"http", "https"} && netloc != "" && Avoids(netloc, DELIMITERS) && splitter(netloc).None?
    ensures HttpBaseUrl(scheme + "://" + netloc, splitter) == Ok(scheme + "://" + netloc)
       <==> !IsSpace(netloc[|netloc| - 1])
  {
    var base := scheme + "://" + netloc;
    StrippedBase(scheme, netloc);
    var n :| 0 <= n <= |netloc| && Strip(base) == scheme + "://" + netloc[..n]
             && (n == |netloc| <==> !IsSpace(netloc[|netloc| - 1]));
    assert netloc[..|netloc|] == netloc;
    assert Avoids(netloc[..n], DELIMITERS);
    BaseOfStrippedBase(base, scheme, netloc[..n], splitter);
    assert n < |netloc| ==> |scheme + "://" + netloc[..n]| < |base|;
  }

  /** Taking the base of a base gives it back exactly when the authority does not end in whitespace. */
  lemma BaseIsIdempotentExactly(host: string, splitter: Splitter)
    requires NormalizeHostUrl(host, splitter).Ok? && NormalizeHostUrl(host, splitter).value.netloc != ""
    ensures HttpBaseUrl(host, splitter).Ok?
    ensures var netloc := NormalizeHostUrl(host, splitter).value.netloc;
            HttpBaseUrl(HttpBaseUrl(host, splitter).value, splitter) == HttpBaseUrl(host, splitter)
            <==> !IsSpace(netloc[|netloc| - 1])
  {
    hide UrlSplit, HttpBaseUrl, Candidate;
    var parts := NormalizeHostUrl(host, splitter).value;
    NetlocIsClean(Candidate(host), splitter);
    BaseOf(host, parts, splitter);
    BaseOfBase(if parts.scheme in PLAINTEXT_SCHEMES then "http" else "https", parts.netloc, splitter);
  }
}
