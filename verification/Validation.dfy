/** The form both Test Connection and Save validate, and exactly which hosts pass it. */
module Validation {
  import opened Json
  import opened Text
  import opened Urls

  const MUST_NOT_BE_BLANK := "must not be blank"
  const NOT_CONNECTABLE := "host must be an " + "http(s) or ws(s) " + "URL, or a bare " + "hostname"

  function StripAndRequireNonBlank(value: string): Result<string> {
    if Strip(value) == "" then ValueError(MUST_NOT_BE_BLANK) else Ok(Strip(value))
  }

  function RequireConnectableScheme(value: string, splitter: Splitter): Result<string> {
    match NormalizeHostUrl(value, splitter)
    case ValueError(m) => ValueError(m)
    case Ok(parts) =>
      if parts.netloc == "" || parts.scheme !in ALLOWED_HOST_SCHEMES then ValueError(NOT_CONNECTABLE)
      else Ok(value)
  }

  function ValidateHost(value: string, splitter: Splitter): Result<string> {
    match StripAndRequireNonBlank(value)
    case ValueError(m) => ValueError(m)
    case Ok(stripped) => RequireConnectableScheme(stripped, splitter)
  }

  /** A submitted form: accepted with cleaned fields, or rejected with one message for each bad field. */
  datatype Form = Valid(host: string, token: string) | Invalid(errors: seq<string>)

  function ErrorsOf(r: Result<string>): seq<string> {
    if r.Ok? then [] else ["Value error, " + r.message]
  }

  function ValidateForm(host: string, token: string, splitter: Splitter): Form {
    var h := ValidateHost(host, splitter);
    var t := StripAndRequireNonBlank(token);
    if h.Ok? && t.Ok? then Valid(h.value, t.value) else Invalid(ErrorsOf(h) + ErrorsOf(t))
  }

  datatype Copy = HostAndTokenRequired | HostMustBeValid

  function ValidationErrorMessage(errors: seq<string>): Copy {
    if exists e :: e in errors && Contains(e, MUST_NOT_BE_BLANK) then HostAndTokenRequired else HostMustBeValid
  }

  // ---------------------------------------------------------------- which hosts are accepted

  ghost predicate StartsAuthority(s: string) {
    s != "" && s[0] !in DELIMITERS
  }

  /** The first n characters are an allowed scheme in any letter case, and `://` follows. */
  ghost predicate SchemePrefix(s: string, n: nat) {
    n + 3 <= |s| && Lower(s[..n]) in ALLOWED_HOST_SCHEMES && s[n..n + 3] == "://"
  }

  ghost predicate HasAuthorityAt(s: string, n: nat, splitter: Splitter) {
    SchemePrefix(s, n) && StartsAuthority(s[n + 3..]) && splitter(Authority(s[n + 3..])).None?
  }

  /** An independent description of the accepted hosts. */
  ghost predicate Connectable(host: string, splitter: Splitter) {
    if Contains(host, "://")
    then exists n :: HasAuthorityAt(Clean(host), n, splitter)
    else StartsAuthority(host) && splitter(Authority(RemoveUnsafe(host))).None?
  }

  lemma SplitAtScheme(s: string, n: nat)
    requires SchemePrefix(s, n)
    ensures SplitScheme(s) == (Lower(s[..n]), s[n + 1..])
    ensures SplitNetloc(s[n + 1..]).0 == Authority(s[n + 3..])
  {
    var scheme := s[..n];
    LowerScheme(Lower(scheme));
    assert scheme != "" by {
      assert |Lower(scheme)| == n;
    }
    forall c | c in scheme ensures IsAsciiLetter(c) {
      var i :| 0 <= i < n && scheme[i] == c;
      assert Lower(scheme)[i] in Lower(scheme);
    }
    assert s == scheme + ":" + s[n + 1..];
    SplitSchemeOf(scheme, s[n + 1..]);
    assert s[n + 1..][..2] == s[n..n + 3][1..];
    assert s[n + 1..][2..] == s[n + 3..];
  }

  /** If splitting finds an allowed scheme and an authority, the text had that shape. */
  lemma SchemeFromSplit(s: string)
    requires var (scheme, rest) := SplitScheme(s); scheme in ALLOWED_HOST_SCHEMES && SplitNetloc(rest).0 != ""
    ensures var n := IndexOfAny(s, {':'});
            && SchemePrefix(s, n) && StartsAuthority(s[n + 3..])
            && Authority(s[n + 3..]) == SplitNetloc(SplitScheme(s).1).0
  {
    var n := IndexOfAny(s, {':'});
    var rest := SplitScheme(s).1;
    IndexOfAnyMeaning(s, {':'}, n);
    assert rest == s[n + 1..];
    assert s[n] == ':';
    assert "//" <= rest;
    assert rest[0] == s[n + 1] && rest[1] == s[n + 2];
    assert rest[2..] == s[n + 3..];
    assert s[n..n + 3] == "://";
  }

  lemma CleanSchemeless(host: string)
    ensures Clean("https://" + host) == "https://" + RemoveUnsafe(host)
  {
    RemoveUnsafeAppend("https://", host);
    RemoveUnsafeMeaning("https://");
  }

  lemma SplitHttps(rest: string)
    ensures SplitScheme("https://" + rest) == ("https", "//" + rest)
    ensures SplitNetloc("//" + rest).0 == Authority(rest)
  {
    var s := "https://" + rest;
    assert s[..5] == "https" && Lower("https") == "https" && s[5..8] == "://";
    SplitAtScheme(s, 5);
    assert s[6..] == "//" + rest && s[8..] == rest;
  }

  lemma SchemelessSplit(host: string, splitter: Splitter)
    requires IsStripped(host) && !Contains(host, "://")
    ensures var netloc := Authority(RemoveUnsafe(host));
            var refused := netloc != "" && splitter(netloc).Some?;
            && (refused ==> NormalizeHostUrl(host, splitter).ValueError?)
            && (!refused ==>
                && NormalizeHostUrl(host, splitter).Ok?
                && NormalizeHostUrl(host, splitter).value.netloc == netloc
                && NormalizeHostUrl(host, splitter).value.scheme == "https")
  {
    StripMeaning(host);
    CleanSchemeless(host);
    SplitHttps(RemoveUnsafe(host));
  }

  lemma AuthorityNonEmpty(s: string)
    ensures Authority(s) != "" <==> StartsAuthority(s)
  {
  }

  lemma ValidateHostOnStripped(host: string, stripped: string, splitter: Splitter)
    requires stripped == Strip(host) && stripped != ""
    ensures ValidateHost(host, splitter) == RequireConnectableScheme(stripped, splitter)
  {
  }

  lemma RequireReturnsItsArgument(value: string, splitter: Splitter)
    ensures RequireConnectableScheme(value, splitter).Ok? ==> RequireConnectableScheme(value, splitter).value == value
  {
  }

  lemma AcceptsSchemeless(host: string, splitter: Splitter)
    requires IsStripped(host) && host != "" && !Contains(host, "://")
    ensures RequireConnectableScheme(host, splitter).Ok?
       <==> StartsAuthority(host) && splitter(Authority(RemoveUnsafe(host))).None?
  {
    SchemelessSplit(host, splitter);
    AuthorityNonEmpty(RemoveUnsafe(host));
    assert !IsUnsafe(host[0]);
    assert RemoveUnsafe(host)[0] == host[0];
  }

  lemma NormalizeWithScheme(host: string, splitter: Splitter)
    requires IsStripped(host) && Contains(host, "://")
    ensures NormalizeHostUrl(host, splitter) == UrlSplit(host, splitter)
  {
    StripMeaning(host);
  }

  lemma AcceptsWithScheme(host: string, splitter: Splitter)
    requires IsStripped(host) && Contains(host, "://")
    ensures RequireConnectableScheme(host, splitter).Ok? <==> exists n :: HasAuthorityAt(Clean(host), n, splitter)
  {
    NormalizeWithScheme(host, splitter);
    var s := Clean(host);
    if n :| HasAuthorityAt(s, n, splitter) {
      SplitAtScheme(s, n);
      AuthorityNonEmpty(s[n + 3..]);
    }
    if RequireConnectableScheme(host, splitter).Ok? {
      SchemeFromSplit(s);
      assert HasAuthorityAt(s, IndexOfAny(s, {':'}), splitter);
    }
  }

  /** Validation of a stripped, non-blank host accepts exactly the connectable ones, and returns them unchanged. */
  lemma AcceptsExactlyConnectable(host: string, splitter: Splitter)
    requires IsStripped(host) && host != ""
    ensures ValidateHost(host, splitter) == Ok(host) <==> Connectable(host, splitter)
    ensures ValidateHost(host, splitter).Ok? ==> ValidateHost(host, splitter) == Ok(host)
  {
    StripMeaning(host);
    ValidateHostOnStripped(host, host, splitter);
    RequireReturnsItsArgument(host, splitter);
    if Contains(host, "://") {
      AcceptsWithScheme(host, splitter);
    } else {
      AcceptsSchemeless(host, splitter);
    }
  }

  /** An accepted host is the stripped submission, and validating it again changes nothing. */
  lemma AcceptedHostsAreFixedPoints(host: string, splitter: Splitter)
    requires ValidateHost(host, splitter).Ok?
    ensures ValidateHost(host, splitter) == Ok(Strip(host))
    ensures ValidateHost(Strip(host), splitter) == Ok(Strip(host))
    ensures IsStripped(Strip(host)) && Strip(host) != ""
  {
    StripMeaning(host);
    StripMeaning(Strip(host));
    ValidateHostOnStripped(host, Strip(host), splitter);
    ValidateHostOnStripped(Strip(host), Strip(host), splitter);
    RequireReturnsItsArgument(Strip(host), splitter);
  }

  /** The same for the whole form. */
  lemma AcceptedFormsAreFixedPoints(host: string, token: string, splitter: Splitter)
    requires ValidateForm(host, token, splitter).Valid?
    ensures ValidateForm(host, token, splitter) == Valid(Strip(host), Strip(token))
    ensures ValidateForm(Strip(host), Strip(token), splitter) == Valid(Strip(host), Strip(token))
    ensures ValidateHost(Strip(host), splitter) == Ok(Strip(host))
    ensures IsStripped(Strip(token)) && Strip(token) != ""
  {
    AcceptedHostsAreFixedPoints(host, splitter);
    StripMeaning(token);
    StripMeaning(Strip(token));
  }

  /** This URL has this scheme if the host asks for plain text and that one otherwise, the host's own
      authority, this path, and nothing after it. */
  ghost predicate LeadsTo(url: string, host: string, plain: string, secure: string, path: string, splitter: Splitter) {
    var n := NormalizeHostUrl(host, splitter);
    && n.Ok? && n.value.netloc != ""
    && UrlSplit(url, splitter)
       == Ok(Parts(if n.value.scheme == "http" || n.value.scheme == "ws" then plain else secure,
                   n.value.netloc, path, "", ""))
  }

  lemma AcceptedHostSplits(host: string, splitter: Splitter)
    requires ValidateHost(host, splitter).Ok? && Strip(host) == host
    ensures NormalizeHostUrl(host, splitter).Ok? && NormalizeHostUrl(host, splitter).value.netloc != ""
    ensures HttpBaseUrl(host, splitter).Ok?
  {
  }

  /** An accepted host has an authority, so every address built from it splits back to that authority. */
  lemma AcceptedHostAddressesAgree(host: string, path: string, splitter: Splitter)
    requires ValidateHost(host, splitter) == Ok(host) && IsLinkPath(path)
    ensures WebsocketUrl(host, splitter).Ok? && HttpBaseUrl(host, splitter).Ok?
    ensures LeadsTo(WebsocketUrl(host, splitter).value, host, "ws", "wss", "/api/websocket", splitter)
    ensures LeadsTo(HttpBaseUrl(host, splitter).value + path, host, "http", "https", path, splitter)
  {
    AcceptedHostsAreFixedPoints(host, splitter);
    AcceptedHostSplits(host, splitter);
    WebsocketAndLinksShareTheAuthority(host, path, splitter);
  }

  lemma AcceptedHostHasBase(host: string, splitter: Splitter)
    requires ValidateHost(host, splitter) == Ok(host)
    ensures HttpBaseUrl(host, splitter).Ok?
  {
    hide NormalizeHostUrl;
    AcceptedHostsAreFixedPoints(host, splitter);
    AcceptedHostSplits(host, splitter);
  }

  // ---------------------------------------------------------------- the rejection copy

  lemma ContainedCharacters(s: string, sub: string, c: char)
    requires Contains(s, sub) && c in sub
    ensures c in s
  {
  }

  ghost predicate MentionsBlank(r: Result<string>) {
    r.ValueError? && Contains("Value error, " + r.message, MUST_NOT_BE_BLANK)
  }

  lemma NotConnectableHasNoK()
    ensures 'k' !in "Value error, " + NOT_CONNECTABLE
  {
    assert 'k' !in "Value error, " && 'k' !in "hostname";
    assert 'k' !in "host must be an ";
    assert 'k' !in "http(s) or ws(s) ";
    assert 'k' !in "URL, or a bare ";
  }

  lemma FixedMessages()
    ensures !MentionsBlank(ValueError(NOT_CONNECTABLE)) && MentionsBlank(ValueError(MUST_NOT_BE_BLANK))
  {
    NotConnectableHasNoK();
    if Contains("Value error, " + NOT_CONNECTABLE, MUST_NOT_BE_BLANK) {
      ContainedCharacters("Value error, " + NOT_CONNECTABLE, MUST_NOT_BE_BLANK, MUST_NOT_BE_BLANK[16]);
    }
    assert OccursAt("Value error, " + MUST_NOT_BE_BLANK, MUST_NOT_BE_BLANK, |"Value error, "|);
  }

  lemma CopyOfErrors(h: Result<string>, t: Result<string>)
    ensures ValidationErrorMessage(ErrorsOf(h) + ErrorsOf(t)) == HostAndTokenRequired
       <==> MentionsBlank(h) || MentionsBlank(t)
  {
  }

  /** The splitter refuses the host, in words that contain the phrase for a blank field. */
  ghost predicate RefusalMentionsBlank(host: string, splitter: Splitter) {
    && NormalizeHostUrl(host, splitter).ValueError?
    && Contains("Value error, " + NormalizeHostUrl(host, splitter).message, "must not be blank")
  }

  lemma HostMentionsBlank(host: string, splitter: Splitter)
    requires Strip(host) != ""
    ensures MentionsBlank(ValidateHost(host, splitter)) <==> RefusalMentionsBlank(Strip(host), splitter)
  {
    FixedMessages();
    ValidateHostOnStripped(host, Strip(host), splitter);
  }

  /** The "required" copy is meant for blank fields. It is shown exactly when a field is blank or the
      splitter refuses the host in words that contain the same phrase. */
  lemma RequiredCopyExactly(host: string, token: string, splitter: Splitter)
    requires ValidateForm(host, token, splitter).Invalid?
    ensures ValidationErrorMessage(ValidateForm(host, token, splitter).errors) == HostAndTokenRequired
       <==> Strip(host) == "" || Strip(token) == "" || RefusalMentionsBlank(Strip(host), splitter)
  {
    FixedMessages();
    CopyOfErrors(ValidateHost(host, splitter), StripAndRequireNonBlank(token));
    if Strip(host) != "" {
      HostMentionsBlank(host, splitter);
    }
  }

  lemma FilledFormRefused(host: string, netloc: string, splitter: Splitter)
    requires netloc != "" && Avoids(netloc, DELIMITERS) && splitter(netloc).Some?
    requires host == "https" + "://" + netloc && IsStripped(host)
    ensures Strip(host) == host && NormalizeHostUrl(host, splitter) == ValueError(splitter(netloc).value)
    ensures ValidateHost(host, splitter).ValueError?
  {
    StripMeaning(host);
    assert OccursAt(host, "://", 5);
    SplitBase("https", netloc, splitter);
    ValidateHostOnStripped(host, host, splitter);
  }

  /** Any refusal quoting the phrase is shown as a missing field, although both fields are filled in. */
  lemma RequiredCopyForFilledForm(netloc: string, message: string, token: string, splitter: Splitter)
    requires netloc != "" && Avoids(netloc, DELIMITERS) && !IsSpace(netloc[|netloc| - 1])
    requires splitter(netloc) == Some(message) && Contains("Value error, " + message, MUST_NOT_BE_BLANK)
    requires Strip(token) != ""
    ensures Strip("https://" + netloc) != ""
    ensures ValidateForm("https://" + netloc, token, splitter).Invalid?
    ensures ValidationErrorMessage(ValidateForm("https://" + netloc, token, splitter).errors) == HostAndTokenRequired
  {
    assert "https" + "://" + netloc == "https://" + netloc;
    FilledFormRefused("https://" + netloc, netloc, splitter);
    RequiredCopyExactly("https://" + netloc, token, splitter);
  }

  lemma ExampleNetloc(netloc: string)
    requires netloc == "[must not be blank]"
    ensures netloc != "" && Avoids(netloc, DELIMITERS) && !IsSpace(netloc[|netloc| - 1])
  {
  }

  lemma OccursInside(before: string, sub: string, after: string)
    ensures Contains(before + sub + after, sub)
  {
    assert OccursAt(before + sub + after, sub, |before|);
  }

  lemma QuotedMessage(before: string, phrase: string, after: string)
    ensures Contains("Value error, " + (before + phrase + after), phrase)
  {
    OccursInside("Value error, " + before, phrase, after);
    assert "Value error, " + (before + phrase + after) == ("Value error, " + before) + phrase + after;
  }

  /** Such a host exists: a bracketed authority that is no IP address is refused in words that quote it. */
  lemma RequiredCopyExample(host: string, netloc: string, before: string, after: string, token: string,
                            splitter: Splitter)
    requires netloc == "[must not be blank]" && host == "https://" + netloc
    requires splitter(netloc) == Some(before + MUST_NOT_BE_BLANK + after)
    requires Strip(token) != ""
    ensures ValidateForm(host, token, splitter).Invalid?
    ensures ValidationErrorMessage(ValidateForm(host, token, splitter).errors) == HostAndTokenRequired
  {
    ExampleNetloc(netloc);
    QuotedMessage(before, MUST_NOT_BE_BLANK, after);
    RequiredCopyForFilledForm(netloc, before + MUST_NOT_BE_BLANK + after, token, splitter);
  }
}
