/** From a summary to the three tiles, and the tile route's choice of state. */
module Tiles {
  import opened Json
  import opened Sequences
  import opened Text
  import opened Parsers
  import opened Summary
  import opened Urls
  import opened Validation
  import opened Hosts
  import opened Entries
  import opened Cipher
  import opened Store
  import opened Transport
  import opened Client
  import opened ClientTheorems

  const MAX_TILE_NAMES := 5
  const UPDATES_PATH := "/config/system/updates"
  const REPAIRS_PATH := "/config/repairs"
  const INTEGRATIONS_PATH := "/config/integrations"

  datatype TileView = TileView(
    title: string, count: nat, names: seq<Value>, moreCount: nat, deepLink: string, icon: string)

  function Min(a: nat, b: nat): nat {
    if a < b then a else b
  }

  function BuildTile<T>(title: string, items: seq<T>, name: T -> Value, deepLink: string, icon: string): TileView {
    TileView(title, |items|, Map(name, items[..Min(|items|, MAX_TILE_NAMES)]),
             if |items| > MAX_TILE_NAMES then |items| - MAX_TILE_NAMES else 0, deepLink, icon)
  }

  function UpdateName(u: UpdateItem): Value { u.name }
  function IssueName(i: RepairIssue): Value { i.name }
  function ErrorName(e: IntegrationError): Value { e.name }

  function BuildTiles(summary: HASummary, host: string, splitter: Splitter): Urls.Result<seq<TileView>> {
    match HttpBaseUrl(host, splitter)
    case ValueError(m) => ValueError(m)
    case Ok(base) => Urls.Ok([
      BuildTile("Pending Updates", summary.pendingUpdates, UpdateName, base + UPDATES_PATH, "updates"),
      BuildTile("Repair Issues", summary.repairIssues, IssueName, base + REPAIRS_PATH, "repairs"),
      BuildTile("Integration Errors", summary.integrationErrors, ErrorName, base + INTEGRATIONS_PATH, "integrations")])
  }

  // ---------------------------------------------------------------- the two users of a fetch

  datatype TestOutcome = Success | AuthFailure | GenericFailure | RequestCancelled

  ghost function RunTest(factory: Factory, host: string, token: string, now: int): TestOutcome {
    match FetchOutcome(factory(host), token, now)
    case Fetched(_) => TestOutcome.Success
    case AuthFailed => AuthFailure
    case ConnectionFailed => GenericFailure
    case Aborted => RequestCancelled
  }

  /** The last two are exceptions the route lets through. */
  datatype Page =
    | ReLogin
    | NotConfigured
    | ShowsTiles(tiles: seq<TileView>, fetchedAt: int)
    | ShowsAuthFailure
    | ShowsGenericFailure
    | PageCancelled
    | KeyMissing
    | HostUnsplittable

  predicate PageRaises(p: Page) {
    p.KeyMissing? || p.HostUnsplittable?
  }

  ghost function TilesPage(user: Option<UserId>, row: Option<Row>, key: Option<Key>,
                           factory: Factory, splitter: Splitter, now: int): Page
  {
    if user.None? then ReLogin
    else if row.None? then NotConfigured
    else if key.None? then KeyMissing
    else match Decrypt(key.value, row.value.secret)
      case None => ShowsGenericFailure
      case Some(token) =>
        match FetchOutcome(factory(row.value.host), token, now)
        case AuthFailed => ShowsAuthFailure
        case ConnectionFailed => ShowsGenericFailure
        case Aborted => PageCancelled
        case Fetched(summary) =>
          match BuildTiles(summary, row.value.host, splitter)
          case ValueError(_) => HostUnsplittable
          case Ok(tiles) => ShowsTiles(tiles, summary.fetchedAt)
  }

  // ---------------------------------------------------------------- Test, Save and Tiles agree

  /** What the tiles show for a given test outcome. */
  ghost predicate Agrees(outcome: TestOutcome, page: Page) {
    match outcome
    case Success => page.ShowsTiles?
    case AuthFailure => page == ShowsAuthFailure
    case GenericFailure => page == ShowsGenericFailure
    case RequestCancelled => page == PageCancelled
  }

  /** A row written from this pair with the current key shows what testing the pair shows, except in one
      case: the fetch succeeds although the host cannot be split, and then tile building raises. */
  lemma TestAndTilesAgreeExactly(user: UserId, row: Row, key: Key, nonce: nat, token: string,
                                 factory: Factory, splitter: Splitter, now: int)
    requires row.secret == Encrypt(key, nonce, token)
    ensures var outcome := RunTest(factory, row.host, token, now);
            var page := TilesPage(Some(user), Some(row), Some(key), factory, splitter, now);
            var unsplittable := HttpBaseUrl(row.host, splitter).ValueError?;
            && (Agrees(outcome, page) <==> !(outcome == TestOutcome.Success && unsplittable))
            && (PageRaises(page) <==> outcome == TestOutcome.Success && unsplittable)
  {
    hide HttpBaseUrl, FetchOutcome;
  }

  /** On every host validation accepts, they always agree and the page never raises. */
  lemma TestAndTilesAgree(user: UserId, row: Row, key: Key, nonce: nat, token: string,
                          factory: Factory, splitter: Splitter, now: int)
    requires row.secret == Encrypt(key, nonce, token) && ValidateHost(row.host, splitter) == Urls.Ok(row.host)
    ensures Agrees(RunTest(factory, row.host, token, now),
                   TilesPage(Some(user), Some(row), Some(key), factory, splitter, now))
  {
    AcceptedHostHasBase(row.host, splitter);
    hide ValidateHost, HttpBaseUrl, FetchOutcome;
    TestAndTilesAgreeExactly(user, row, key, nonce, token, factory, splitter, now);
  }

  lemma UnsplittableHostIsNotDialled(host: string, network: string -> Socket, splitter: Splitter)
    ensures HttpBaseUrl(host, splitter).ValueError? <==> WebsocketFactory(splitter, network)(host) == NotBuilt
  {
  }

  lemma NotBuiltFails(token: string, now: int)
    ensures FetchOutcome(NotBuilt, token, now) == ConnectionFailed
  {
  }

  /** The production transport cannot even be built on a host that cannot be split, so with it they agree
      on every host, accepted or not. */
  lemma ProductionAgreesOnEveryHost(user: UserId, row: Row, key: Key, nonce: nat, token: string,
                                    network: string -> Socket, splitter: Splitter, now: int)
    requires row.secret == Encrypt(key, nonce, token)
    ensures var factory := WebsocketFactory(splitter, network);
            Agrees(RunTest(factory, row.host, token, now),
                   TilesPage(Some(user), Some(row), Some(key), factory, splitter, now))
  {
    var factory := WebsocketFactory(splitter, network);
    UnsplittableHostIsNotDialled(row.host, network, splitter);
    NotBuiltFails(token, now);
    hide HttpBaseUrl, FetchOutcome;
    TestAndTilesAgreeExactly(user, row, key, nonce, token, factory, splitter, now);
  }

  /** The production transport talks to the authority a host reaches, at the websocket path, and to nobody
      else. */
  lemma ProductionDialsTheHost(host: string, a: string, plain: bool, network: string -> Socket, splitter: Splitter)
    requires Reaches(Strip(host), a, plain, splitter)
    ensures WebsocketFactory(splitter, network)(host)
         == Connected(SocketPeer(network((if plain then "ws" else "wss") + "://" + a + "/api/websocket")))
  {
    hide WebsocketUrl, Reaches, Strip;
    AddressesExactly(host, a, plain, splitter);
  }

  /** So if whoever answers there lets everything happen and sends the canned script as frames, the fetch
      brings the canned summary. */
  lemma ProductionFetchSucceeds(host: string, a: string, plain: bool, network: string -> Socket, splitter: Splitter,
                                token: string, now: int)
    requires Reaches(Strip(host), a, plain, splitter)
    requires var s := network((if plain then "ws" else "wss") + "://" + a + "/api/websocket");
             && s.connect.Done? && s.close.Done? && (forall n :: s.send(n).Done?)
             && forall n :: 0 <= n < 5 ==> s.recv(n) == Done(Decoded(DEFAULT_SCRIPT[n]))
    ensures FetchOutcome(WebsocketFactory(splitter, network)(host), token, now)
         == Fetched(HASummary(now, CANNED_UPDATES, CANNED_ISSUES, CANNED_ERRORS))
  {
    hide FetchOutcome, Reaches, Strip, WebsocketFactory;
    ProductionDialsTheHost(host, a, plain, network, splitter);
    var s := network((if plain then "ws" else "wss") + "://" + a + "/api/websocket");
    assert SpeaksTheScript(SocketPeer(s)) by {
      forall n | 0 <= n < 5 ensures SocketPeer(s).recv(n) == Done(DEFAULT_SCRIPT[n]) {
        SocketPeerExactly(s, n, DEFAULT_SCRIPT[n]);
      }
    }
    CannedScriptSucceeds(SocketPeer(s), token, now);
  }

  /** A row whose host was validated never makes the page raise while a key is configured, whatever the key:
      the page is in exactly one state, and which one says what happened. */
  lemma PageExactly(user: Option<UserId>, row: Option<Row>, key: Key, factory: Factory, splitter: Splitter, now: int)
    requires row.Some? ==> ValidateHost(row.value.host, splitter) == Urls.Ok(row.value.host)
    ensures var page := TilesPage(user, row, Some(key), factory, splitter, now);
            && !PageRaises(page)
            && (page == ReLogin <==> user.None?)
            && (page == NotConfigured <==> user.Some? && row.None?)
            && (user.Some? && row.Some? ==>
                  match Decrypt(key, row.value.secret)
                  case None => page == ShowsGenericFailure
                  case Some(token) =>
                    match FetchOutcome(factory(row.value.host), token, now)
                    case AuthFailed => page == ShowsAuthFailure
                    case ConnectionFailed => page == ShowsGenericFailure
                    case Aborted => page == PageCancelled
                    case Fetched(_) => page.ShowsTiles? && |page.tiles| == 3)
  {
    hide ValidateHost, HttpBaseUrl, NormalizeHostUrl, FetchOutcome;
    if row.Some? {
      AcceptedHostHasBase(row.value.host, splitter);
    }
  }

  // ---------------------------------------------------------------- from wire to screen

  /** A tile for these names counts them all, shows the first five and says how many more there are. */
  ghost predicate ShowsNames(tile: TileView, names: seq<Value>) {
    && tile.count == |names|
    && tile.names == (if |names| <= 5 then names else names[..5])
    && tile.moreCount == (if |names| <= 5 then 0 else |names| - 5)
  }

  /** A tile shows the entries wanted among these, in order, under the names they go by. */
  ghost predicate ShowsEntries(tile: TileView, entries: seq<Value>, wanted: Value -> bool,
                               goesBy: (Value, Value) -> bool)
  {
    exists names, at :: Selects(entries, names, wanted, goesBy, at) && ShowsNames(tile, names)
  }

  ghost predicate UpdateGoesBy(name: Value, e: Value) {
    exists u: UpdateItem :: DescribesUpdate(u, e) && u.name == name
  }

  ghost predicate IssueGoesBy(name: Value, e: Value) {
    exists i: RepairIssue :: DescribesIssue(i, e) && i.name == name
  }

  ghost predicate EntryGoesBy(name: Value, e: Value) {
    exists i: IntegrationError :: DescribesEntry(i, e) && i.name == name
  }

  lemma TileShowsNames<T>(title: string, items: seq<T>, name: T -> Value, deepLink: string, icon: string)
    ensures ShowsNames(BuildTile(title, items, name, deepLink, icon), Map(name, items))
  {
  }

  /** A tile built from the items parsed out of these entries shows the entries. */
  lemma TileOfEntries<T>(title: string, entries: seq<Value>, items: seq<T>, wanted: Value -> bool,
                         describes: (T, Value) -> bool, goesBy: (Value, Value) -> bool, name: T -> Value,
                         at: seq<int>, deepLink: string, icon: string)
    requires Selects(entries, items, wanted, describes, at)
    requires forall item, e :: describes(item, e) ==> goesBy(name(item), e)
    ensures ShowsEntries(BuildTile(title, items, name, deepLink, icon), entries, wanted, goesBy)
  {
    TileShowsNames(title, items, name, deepLink, icon);
    assert Selects(entries, Map(name, items), wanted, goesBy, at);
  }

  lemma UpdatesTile(v: Value, link: string)
    requires PendingUpdates(v).Parsed?
    ensures v.Arr? && ShowsEntries(BuildTile("Pending Updates", PendingUpdates(v).items, UpdateName, link, "updates"),
                                   v.items, WantedUpdate, UpdateGoesBy)
  {
    PendingUpdatesExactly(v);
    hide PendingUpdates, Selects, ShowsEntries, DescribesUpdate;
    var at :| Selects(v.items, PendingUpdates(v).items, WantedUpdate, DescribesUpdate, at);
    TileOfEntries("Pending Updates", v.items, PendingUpdates(v).items, WantedUpdate, DescribesUpdate, UpdateGoesBy,
                  UpdateName, at, link, "updates");
  }

  lemma RepairsTile(v: Value, link: string)
    requires RepairIssues(v).Parsed?
    ensures HasField(v, "issues") && v.fields["issues"].Arr?
    ensures ShowsEntries(BuildTile("Repair Issues", RepairIssues(v).items, IssueName, link, "repairs"),
                         v.fields["issues"].items, WantedIssue, IssueGoesBy)
  {
    RepairIssuesExactly(v);
    hide RepairIssues, Selects, ShowsEntries, DescribesIssue;
    var issues := v.fields["issues"].items;
    var at :| Selects(issues, RepairIssues(v).items, WantedIssue, DescribesIssue, at);
    TileOfEntries("Repair Issues", issues, RepairIssues(v).items, WantedIssue, DescribesIssue, IssueGoesBy,
                  IssueName, at, link, "repairs");
  }

  lemma IntegrationsTile(v: Value, link: string)
    requires IntegrationErrors(v).Parsed?
    ensures v.Arr?
    ensures ShowsEntries(
              BuildTile("Integration Errors", IntegrationErrors(v).items, ErrorName, link, "integrations"),
              v.items, WantedEntry, EntryGoesBy)
  {
    IntegrationErrorsExactly(v);
    hide IntegrationErrors, Selects, ShowsEntries, DescribesEntry;
    var at :| Selects(v.items, IntegrationErrors(v).items, WantedEntry, DescribesEntry, at);
    TileOfEntries("Integration Errors", v.items, IntegrationErrors(v).items, WantedEntry, DescribesEntry, EntryGoesBy,
                  ErrorName, at, link, "integrations");
  }

  /** The three tiles in order, each showing the entries wanted among one of the peer's three answers. */
  ghost predicate ScreenShows(tiles: seq<TileView>, peer: Peer) {
    var (states, issues, entries) := (Answer(peer, 1), Answer(peer, 2), Answer(peer, 3));
    && |tiles| == 3
    && states.Arr? && ShowsEntries(tiles[0], states.items, WantedUpdate, UpdateGoesBy)
    && tiles[0].title == "Pending Updates" && tiles[0].icon == "updates"
    && HasField(issues, "issues") && issues.fields["issues"].Arr?
    && ShowsEntries(tiles[1], issues.fields["issues"].items, WantedIssue, IssueGoesBy)
    && tiles[1].title == "Repair Issues" && tiles[1].icon == "repairs"
    && entries.Arr? && ShowsEntries(tiles[2], entries.items, WantedEntry, EntryGoesBy)
    && tiles[2].title == "Integration Errors" && tiles[2].icon == "integrations"
  }

  /** Whatever arrived on the wire, the three tiles of a fetched summary show exactly the wanted entries. */
  lemma WireToScreen(factory: Factory, host: string, token: string, now: int, splitter: Splitter)
    requires FetchOutcome(factory(host), token, now).Fetched?
    requires BuildTiles(FetchOutcome(factory(host), token, now).summary, host, splitter).Ok?
    ensures factory(host).Connected?
    ensures ScreenShows(BuildTiles(FetchOutcome(factory(host), token, now).summary, host, splitter).value,
                        factory(host).peer)
  {
    hide HttpBaseUrl, FetchOutcome, ShowsEntries, Answers, Replies, Answer;
    hide PendingUpdates, RepairIssues, IntegrationErrors;
    FetchedExactly(factory(host), token, now);
    var peer := factory(host).peer;
    var base := HttpBaseUrl(host, splitter).value;
    UpdatesTile(Answer(peer, 1), base + UPDATES_PATH);
    RepairsTile(Answer(peer, 2), base + REPAIRS_PATH);
    IntegrationsTile(Answer(peer, 3), base + INTEGRATIONS_PATH);
  }

  /** Every tile's link is the authority this host reaches with the tile's path, in the host's own degree
      of security, and splits back to just that. */
  ghost predicate LinksLeadTo(tiles: seq<TileView>, host: string, splitter: Splitter) {
    && |tiles| == 3
    && LeadsTo(tiles[0].deepLink, host, "http", "https", "/config/system/updates", splitter)
    && LeadsTo(tiles[1].deepLink, host, "http", "https", "/config/repairs", splitter)
    && LeadsTo(tiles[2].deepLink, host, "http", "https", "/config/integrations", splitter)
    && forall a, plain :: Reaches(host, a, plain, splitter) ==>
         var base := (if plain then "http" else "https") + "://" + a;
         && tiles[0].deepLink == base + "/config/system/updates"
         && tiles[1].deepLink == base + "/config/repairs"
         && tiles[2].deepLink == base + "/config/integrations"
  }

  /** On a host validation accepts, the tiles can be built and their links lead to that host. */
  lemma TileLinks(summary: HASummary, host: string, splitter: Splitter)
    requires ValidateHost(host, splitter) == Urls.Ok(host)
    ensures BuildTiles(summary, host, splitter).Ok?
    ensures LinksLeadTo(BuildTiles(summary, host, splitter).value, host, splitter)
  {
    hide ValidateHost, HttpBaseUrl, WebsocketUrl, LeadsTo, Reaches;
    AcceptedHostAddressesAgree(host, UPDATES_PATH, splitter);
    AcceptedHostAddressesAgree(host, REPAIRS_PATH, splitter);
    AcceptedHostAddressesAgree(host, INTEGRATIONS_PATH, splitter);
    AcceptedHostsAreFixedPoints(host, splitter);
    forall a, plain | Reaches(host, a, plain, splitter)
      ensures HttpBaseUrl(host, splitter) == Urls.Ok((if plain then "http" else "https") + "://" + a)
    {
      AddressesExactly(host, a, plain, splitter);
    }
  }

  /** A page with tiles shows what the peer at the row's host sent when asked with the row's token, and
      links to that host if validation accepts it. */
  lemma PageShowsFetchedTiles(user: UserId, row: Row, key: Key, factory: Factory, splitter: Splitter, now: int)
    requires TilesPage(Some(user), Some(row), Some(key), factory, splitter, now).ShowsTiles?
    ensures Decrypt(key, row.secret).Some? && factory(row.host).Connected?
    ensures FetchOutcome(factory(row.host), Decrypt(key, row.secret).value, now).Fetched?
    ensures var page := TilesPage(Some(user), Some(row), Some(key), factory, splitter, now);
            && ScreenShows(page.tiles, factory(row.host).peer)
            && page.fetchedAt == now
            && (ValidateHost(row.host, splitter) == Urls.Ok(row.host) ==> LinksLeadTo(page.tiles, row.host, splitter))
  {
    hide BuildTiles, FetchOutcome, ScreenShows, LinksLeadTo, ValidateHost;
    hide PendingUpdates, RepairIssues, IntegrationErrors, Answers, Replies, Answer;
    var token := Decrypt(key, row.secret).value;
    FetchedExactly(factory(row.host), token, now);
    WireToScreen(factory, row.host, token, now, splitter);
    if ValidateHost(row.host, splitter) == Urls.Ok(row.host) {
      TileLinks(FetchOutcome(factory(row.host), token, now).summary, row.host, splitter);
    }
  }
}
