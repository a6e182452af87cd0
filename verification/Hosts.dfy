/** Which hosts are accepted and what is made of them, in plain terms: letters, separators and the four
    literal schemes, without naming the functions that split and recompose URLs. */
module Hosts {
  import opened Sequences
  import opened Text
  import opened Urls
  import opened Validation

  /** s is this lower-case text, in any letter case. */
  predicate IsInAnyCase(s: string, lower: string) {
    && |s| == |lower|
    && forall i :: 0 <= i < |s| ==>
         s[i] == lower[i] || ('A' <= s[i] <= 'Z' && 'a' <= lower[i] <= 'z' && s[i] as int + 32 == lower[i] as int)
  }

  predicate WrittenWith(s: string, scheme: string) {
    && |scheme| + 3 <= |s|
    && IsInAnyCase(s[..|scheme|], scheme)
    && s[|scheme|] == ':' && s[|scheme| + 1] == '/' && s[|scheme| + 2] == '/'
  }

  predicate HasSeparator(s: string) {
    exists i :: 0 <= i < |s| - 2 && s[i] == ':' && s[i + 1] == '/' && s[i + 2] == '/'
  }

  predicate EndsAuthority(c: char) {
    c == '/' || c == '?' || c == '#'
  }

  /** a is what s starts with, up to the first character that ends an authority. */
  ghost predicate IsAuthority(s: string, a: string) {
    && a <= s
    && (forall c :: c in a ==> !EndsAuthority(c))
    && (|a| < |s| ==> EndsAuthority(s[|a|]))
  }

  predicate IsKept(c: char) {
    c != '\t' && c != '\n' && c != '\r'
  }

  predicate IsControlOrBlank(c: char) {
    c as int <= 32
  }

  ghost predicate CleanedFrom(s: string, t: string, k: nat)
    requires k <= |s|
  {
    && (forall i :: 0 <= i < k ==> IsControlOrBlank(s[i]))
    && (k < |s| ==> !IsControlOrBlank(s[k]))
    && t == Filter(IsKept, s[k..])
  }

  /** t is s without control characters and blanks at its start, and without tabs and line ends anywhere. */
  ghost predicate IsCleaned(s: string, t: string) {
    exists k :: 0 <= k <= |s| && CleanedFrom(s, t, k)
  }

  predicate IsScheme(scheme: string, plain: bool) {
    if plain then scheme == "http" || scheme == "ws" else scheme == "https" || scheme == "wss"
  }

  /** This host names this authority: after an allowed scheme, or by itself, which means it is secure. */
  ghost predicate Names(host: string, a: string, plain: bool) {
    if HasSeparator(host)
    then exists t, scheme ::
           IsCleaned(host, t) && IsScheme(scheme, plain) && WrittenWith(t, scheme) && IsAuthority(t[|scheme| + 3..], a)
    else !plain && IsAuthority(Filter(IsKept, host), a)
  }

  /** It names one, and the splitter has nothing against it. */
  ghost predicate Reaches(host: string, a: string, plain: bool, splitter: Splitter) {
    Names(host, a, plain) && a != "" && splitter(a).None?
  }

  // ---------------------------------------------------------------- the functions in these terms

  lemma CaseInPlainTerms(s: string, lower: string)
    requires lower in {"http", "ws", "https", "wss"}
    ensures IsInAnyCase(s, lower) <==> Lower(s) == lower
  {
    LowerScheme(lower);
    assert forall i :: 0 <= i < |lower| ==> lower[i] in lower && LowerChar(lower[i]) == lower[i];
  }

  lemma SchemesInPlainTerms(s: string, scheme: string)
    requires scheme in {"http", "ws", "https", "wss"}
    ensures WrittenWith(s, scheme) <==> SchemePrefix(s, |scheme|) && Lower(s[..|scheme|]) == scheme
  {
    var n := |scheme|;
    if n + 3 <= |s| {
      CaseInPlainTerms(s[..n], scheme);
      assert s[n..n + 3] == [s[n], s[n + 1], s[n + 2]];
    }
  }

  lemma AuthorityInPlainTerms(s: string, a: string)
    ensures IsAuthority(s, a) <==> a == Authority(s)
  {
    var n := IndexOfAny(s, DELIMITERS);
    IndexOfAnyMeaning(s, DELIMITERS, n);
    if IsAuthority(s, a) {
      forall j | 0 <= j < |a| ensures s[j] !in DELIMITERS {
        assert a[j] in a;
      }
      IndexOfAnyMeaning(s, DELIMITERS, |a|);
    }
  }

  lemma {:induction false} KeptInPlainTerms(s: string)
    ensures RemoveUnsafe(s) == Filter(IsKept, s)
  {
    if s == "" {
    } else {
      KeptInPlainTerms(s[1..]);
    }
  }

  lemma {:induction false} LStripC0InPlainTerms(s: string) returns (k: nat)
    ensures k <= |s| && LStripC0(s) == s[k..]
    ensures forall i :: 0 <= i < k ==> IsControlOrBlank(s[i])
    ensures k < |s| ==> !IsControlOrBlank(s[k])
  {
    if s == "" || !IsControlOrBlank(s[0]) {
      k := 0;
    } else {
      k := LStripC0InPlainTerms(s[1..]);
      k := k + 1;
    }
  }

  lemma CleanInPlainTerms(s: string, t: string)
    ensures IsCleaned(s, t) <==> t == Clean(s)
  {
    var k := LStripC0InPlainTerms(s);
    KeptInPlainTerms(s[k..]);
    assert CleanedFrom(s, Clean(s), k);
    if IsCleaned(s, t) {
      var j :| 0 <= j <= |s| && CleanedFrom(s, t, j);
      assert j == k;
    }
  }

  lemma SeparatorInPlainTerms(s: string)
    ensures HasSeparator(s) <==> Contains(s, "://")
  {
    if i :| 0 <= i < |s| - 2 && s[i] == ':' && s[i + 1] == '/' && s[i + 2] == '/' {
      assert s[i..i + 3] == "://";
      assert OccursAt(s, "://", i);
    }
    if Contains(s, "://") {
      var i :| 0 <= i <= |s| && OccursAt(s, "://", i);
      assert s[i..i + 3][0] == s[i] && s[i..i + 3][1] == s[i + 1] && s[i..i + 3][2] == s[i + 2];
    }
  }

  // ---------------------------------------------------------------- which hosts are accepted

  lemma SplitNamed(t: string, scheme: string, a: string)
    requires scheme in {"http", "ws", "https", "wss"}
    requires WrittenWith(t, scheme) && IsAuthority(t[|scheme| + 3..], a)
    ensures SplitScheme(t).0 == scheme && SplitNetloc(SplitScheme(t).1).0 == a
  {
    SchemesInPlainTerms(t, scheme);
    SplitAtScheme(t, |scheme|);
    AuthorityInPlainTerms(t[|scheme| + 3..], a);
    hide SplitScheme, SplitNetloc, Authority, IsAuthority, WrittenWith;
  }

  lemma NamedWithScheme(host: string, t: string, scheme: string, a: string, splitter: Splitter)
    requires IsStripped(host) && Contains(host, "://") && t == Clean(host)
    requires SplitScheme(t).0 == scheme && SplitNetloc(SplitScheme(t).1).0 == a && splitter(a).None?
    ensures NormalizeHostUrl(host, splitter).Ok? && NormalizeHostUrl(host, splitter).value.netloc == a
    ensures NormalizeHostUrl(host, splitter).value.scheme == scheme
  {
    NormalizeWithScheme(host, splitter);
    hide SplitScheme, SplitNetloc, SplitOnce, Clean, NormalizeHostUrl, IsStripped, Contains;
  }

  lemma NamedWithoutScheme(host: string, a: string, splitter: Splitter)
    requires IsStripped(host) && !Contains(host, "://")
    requires IsAuthority(Filter(IsKept, host), a) && splitter(a).None?
    ensures NormalizeHostUrl(host, splitter).Ok? && NormalizeHostUrl(host, splitter).value.netloc == a
    ensures NormalizeHostUrl(host, splitter).value.scheme == "https"
  {
    SchemelessSplit(host, splitter);
    KeptInPlainTerms(host);
    AuthorityInPlainTerms(RemoveUnsafe(host), a);
    hide NormalizeHostUrl, Authority, IsAuthority, RemoveUnsafe, IsStripped, Contains;
  }

  /** What splitting finds in a host that names an authority. */
  lemma NamedParts(host: string, a: string, plain: bool, splitter: Splitter)
    requires IsStripped(host) && Reaches(host, a, plain, splitter)
    ensures NormalizeHostUrl(host, splitter).Ok? && NormalizeHostUrl(host, splitter).value.netloc == a
    ensures IsScheme(NormalizeHostUrl(host, splitter).value.scheme, plain)
  {
    hide NormalizeHostUrl, Authority, IsAuthority, RemoveUnsafe, IsStripped, Contains, HasSeparator, IsCleaned;
    hide Clean, SplitScheme, SplitNetloc, IsInAnyCase;
    SeparatorInPlainTerms(host);
    if HasSeparator(host) {
      var t, scheme :|
        IsCleaned(host, t) && IsScheme(scheme, plain) && WrittenWith(t, scheme) && IsAuthority(t[|scheme| + 3..], a);
      CleanInPlainTerms(host, t);
      SplitNamed(t, scheme, a);
      NamedWithScheme(host, t, scheme, a, splitter);
    } else {
      NamedWithoutScheme(host, a, splitter);
    }
  }

  lemma ConnectableReaches(host: string, splitter: Splitter)
    requires IsStripped(host) && host != "" && Connectable(host, splitter)
    ensures exists a, plain :: Reaches(host, a, plain, splitter)
  {
    SeparatorInPlainTerms(host);
    if HasSeparator(host) {
      var s := Clean(host);
      var n: nat :| HasAuthorityAt(s, n, splitter);
      var scheme := Lower(s[..n]);
      var a := Authority(s[n + 3..]);
      CleanInPlainTerms(host, s);
      SchemesInPlainTerms(s, scheme);
      AuthorityInPlainTerms(s[n + 3..], a);
      AuthorityNonEmpty(s[n + 3..]);
      var plain := scheme == "http" || scheme == "ws";
      assert IsScheme(scheme, plain);
      assert Names(host, a, plain);
      assert Reaches(host, a, plain, splitter);
    } else {
      var a := Authority(RemoveUnsafe(host));
      KeptInPlainTerms(host);
      AuthorityInPlainTerms(RemoveUnsafe(host), a);
      AuthorityNonEmpty(RemoveUnsafe(host));
      assert RemoveUnsafe(host)[0] == host[0];
      assert Reaches(host, a, false, splitter);
    }
  }

  lemma ReachesIsAccepted(host: string, a: string, plain: bool, splitter: Splitter)
    requires IsStripped(host) && host != "" && Reaches(host, a, plain, splitter)
    ensures ValidateHost(host, splitter) == Ok(host)
  {
    NamedParts(host, a, plain, splitter);
    StripMeaning(host);
    ValidateHostOnStripped(host, host, splitter);
    hide NormalizeHostUrl;
  }

  /** A stripped, non-blank host is accepted exactly when it reaches some authority. */
  lemma AcceptsExactly(host: string, splitter: Splitter)
    requires IsStripped(host) && host != ""
    ensures ValidateHost(host, splitter) == Ok(host) <==> exists a, plain :: Reaches(host, a, plain, splitter)
  {
    AcceptsExactlyConnectable(host, splitter);
    hide Connectable, Reaches;
    if Connectable(host, splitter) {
      ConnectableReaches(host, splitter);
    }
    if a, plain :| Reaches(host, a, plain, splitter) {
      ReachesIsAccepted(host, a, plain, splitter);
    }
  }

  /** A form is valid exactly when its stripped host is accepted and its stripped token is not empty. */
  lemma FormValidExactly(host: string, token: string, splitter: Splitter)
    ensures ValidateForm(host, token, splitter).Valid?
       <==> && Strip(host) != "" && Strip(token) != ""
            && exists a, plain :: Reaches(Strip(host), a, plain, splitter)
  {
    if Strip(host) != "" {
      StripMeaning(host);
      StripMeaning(Strip(host));
      AcceptsExactly(Strip(host), splitter);
      ValidateHostOnStripped(host, Strip(host), splitter);
      ValidateHostOnStripped(Strip(host), Strip(host), splitter);
      RequireReturnsItsArgument(Strip(host), splitter);
      hide Reaches;
    }
  }

  // ---------------------------------------------------------------- the addresses built from them

  lemma Recomposed(scheme: string, a: string, splitter: Splitter)
    requires scheme in {"http", "ws", "https", "wss"} && a != ""
    ensures UrlUnsplit(Parts(scheme, a, "/api/websocket", "", "")) == scheme + "://" + a + "/api/websocket"
    ensures UrlUnsplit(Parts(scheme, a, "", "", "")) == scheme + "://" + a
  {
  }

  lemma NormalizingStrips(host: string, splitter: Splitter)
    ensures NormalizeHostUrl(host, splitter) == NormalizeHostUrl(Strip(host), splitter)
    ensures WebsocketUrl(host, splitter) == WebsocketUrl(Strip(host), splitter)
    ensures HttpBaseUrl(host, splitter) == HttpBaseUrl(Strip(host), splitter)
  {
    StripMeaning(host);
    StripMeaning(Strip(host));
    hide UrlSplit, Strip, Contains;
  }

  /** The two addresses of any host, stripped or not, spelled out. */
  lemma AddressesExactly(host: string, a: string, plain: bool, splitter: Splitter)
    requires Reaches(Strip(host), a, plain, splitter)
    ensures WebsocketUrl(host, splitter) == Ok((if plain then "ws" else "wss") + "://" + a + "/api/websocket")
    ensures HttpBaseUrl(host, splitter) == Ok((if plain then "http" else "https") + "://" + a)
  {
    hide NormalizeHostUrl, UrlUnsplit, Names, IsStripped, Strip;
    StripMeaning(host);
    NormalizingStrips(host, splitter);
    NamedParts(Strip(host), a, plain, splitter);
    Recomposed(if plain then "ws" else "wss", a, splitter);
    Recomposed(if plain then "http" else "https", a, splitter);
  }
}
