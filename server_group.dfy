/** The aggregator over all handlers: which servers of a title are asked, and how their
    answers are merged into one list of episodes, each carrying the links every server
    gave for it. */
module ServerGroup {
  import opened Common
  import opened ServerMaps
  import opened Sorting
  import opened ServerHandler

  /** One link of a merged episode: the server whose handler gave it, and the url. */
  datatype ServerUrl = ServerUrl(server: string, url: string)

  /** One slot of the merged result: an episode number and every link found for it. */
  datatype ResolvedEpisode = ResolvedEpisode(number: int, urls: seq<ServerUrl>)

  function SlotNumber(e: ResolvedEpisode): int {
    e.number
  }

  /** An entry of a handler's result, tagged with the server whose handler gave it. */
  datatype TaggedUrl = TaggedUrl(number: int, link: ServerUrl)

  // ---------------------------------------------------------------------------------
  // Selection

  /** `knowsServer`: the factory returns a handler for the name instead of throwing. */
  predicate KnowsServer(server: string) {
    GetServerHandler(server).Ok?
  }

  /** `getServerHandler(name)` for a name the factory knows. */
  function HandlerOf(server: string): (k: ServerKind)
    requires KnowsServer(server)
    ensures ServerName(k) == server
  {
    GetServerHandler(server).value
  }

  /** The known servers are exactly the names of the three handlers. */
  lemma KnowsServerSpec(server: string)
    ensures KnowsServer(server) <==> exists k: ServerKind :: ServerName(k) == server
  {
    if KnowsServer(server) {
      GetServerHandlerOfName(GetServerHandler(server).value);
    } else {
      GetServerHandlerOfName(Gogoanime);
      GetServerHandlerOfName(OtakuStream);
      GetServerHandlerOfName(MangaKakalot);
    }
  }

  /** The three `.filter` calls of the selection: the identifier is a string, the server
      is known, and it is the requested server when a name was given. */
  predicate Selected(m: ServerMap, filter: Option<string>, server: string) {
    Value(m, server).Some? && KnowsServer(server) && (filter.Some? ==> server == filter.value)
  }

  /** The keys that pass the selection, in the order of `keys`. */
  function SelectFrom(keys: seq<string>, m: ServerMap, filter: Option<string>): (r: seq<string>)
    ensures forall s :: s in r <==> s in keys && Selected(m, filter, s)
    ensures |r| <= |keys|
  {
    if keys == [] then []
    else
      var rest := SelectFrom(keys[1..], m, filter);
      assert keys == [keys[0]] + keys[1..];
      if Selected(m, filter, keys[0]) then [keys[0]] + rest else rest
  }

  /** `Object.keys(anime.serverMap)` through the selection. */
  function Servers(m: ServerMap, filter: Option<string>): seq<string> {
    SelectFrom(Keys(m), m, filter)
  }

  /** `r` is `keys` with some elements left out, the rest in their order. */
  ghost predicate Subsequence(r: seq<string>, keys: seq<string>)
    decreases |keys|
  {
    if r == [] then true
    else if keys == [] then false
    else if r[0] == keys[0] then Subsequence(r[1..], keys[1..])
    else Subsequence(r, keys[1..])
  }

  /** The selection keeps the relative order of the keys. */
  lemma {:induction false} SelectFromInKeyOrder(keys: seq<string>, m: ServerMap, filter: Option<string>)
    ensures Subsequence(SelectFrom(keys, m, filter), keys)
  {
    if keys != [] {
      SelectFromInKeyOrder(keys[1..], m, filter);
      var rest := SelectFrom(keys[1..], m, filter);
      if Selected(m, filter, keys[0]) {
        assert ([keys[0]] + rest)[1..] == rest;
      }
    }
  }

  /** Distinct keys give distinct selected servers. */
  lemma {:induction false} SelectFromDistinct(keys: seq<string>, m: ServerMap, filter: Option<string>)
    requires Distinct(keys)
    ensures Distinct(SelectFrom(keys, m, filter))
  {
    if keys != [] {
      assert Distinct(keys[1..]) by {
        forall i, j | 0 <= i < j < |keys[1..]| ensures keys[1..][i] != keys[1..][j] {
          assert keys[1..][i] == keys[i + 1] && keys[1..][j] == keys[j + 1];
        }
      }
      SelectFromDistinct(keys[1..], m, filter);
      assert keys[0] !in keys[1..] by {
        forall k | 0 <= k < |keys[1..]| ensures keys[1..][k] != keys[0] {
          assert keys[1..][k] == keys[k + 1];
        }
      }
    }
  }

  /** `servers.map(server => getHandler(server))`: one handler per selected server. */
  function HandlersOf(servers: seq<string>): (r: seq<ServerKind>)
    requires forall s :: s in servers ==> KnowsServer(s)
    ensures |r| == |servers|
    ensures forall i :: 0 <= i < |r| ==> ServerName(r[i]) == servers[i]
  {
    seq(|servers|, i requires 0 <= i < |servers| => HandlerOf(servers[i]))
  }

  /** What `Promise.all` over the handlers' `getAllEpisodeUrls` resolves to: the results in
      the order of the handlers. */
  function ResultsOf(handlers: seq<ServerKind>, m: ServerMap, web: Web): seq<seq<NumberedUrl>> {
    seq(|handlers|, i requires 0 <= i < |handlers| => AllEpisodes(handlers[i], m, web))
  }

  // ---------------------------------------------------------------------------------
  // The merge, as a specification

  /** The entries of one handler's result, tagged with its server. */
  function TagAll(server: string, urls: seq<NumberedUrl>): (r: seq<TaggedUrl>)
    ensures |r| == |urls|
  {
    seq(|urls|, j requires 0 <= j < |urls| => TaggedUrl(urls[j].number, ServerUrl(server, urls[j].url)))
  }

  /** Every entry of every result, in the order the nested `forEach` visits them. */
  function Tagged(servers: seq<string>, sets: seq<seq<NumberedUrl>>): seq<TaggedUrl>
    requires |servers| == |sets|
  {
    if sets == [] then []
    else Tagged(servers[..|sets| - 1], sets[..|sets| - 1]) + TagAll(servers[|sets| - 1], sets[|sets| - 1])
  }

  /** The episode numbers of `flat` in the order they are first met: `epNumbers`. */
  function FirstSeen(flat: seq<TaggedUrl>): seq<int> {
    if flat == [] then []
    else
      var seen := FirstSeen(flat[..|flat| - 1]);
      if flat[|flat| - 1].number in seen then seen else seen + [flat[|flat| - 1].number]
  }

  /** The links of `flat` with number `n`, in order: what the slot of `n` accumulates. */
  function UrlsFor(flat: seq<TaggedUrl>, n: int): seq<ServerUrl> {
    if flat == [] then []
    else
      var t := flat[|flat| - 1];
      UrlsFor(flat[..|flat| - 1], n) + (if t.number == n then [t.link] else [])
  }

  /** `epNumbers.map(epNumber => outEps[epNumber])`. */
  function Slots(flat: seq<TaggedUrl>): seq<ResolvedEpisode> {
    var seen := FirstSeen(flat);
    seq(|seen|, i requires 0 <= i < |seen| => ResolvedEpisode(seen[i], UrlsFor(flat, seen[i])))
  }

  /** The merged result of the per-server results `sets`, sorted by ascending number. */
  function Merged(servers: seq<string>, sets: seq<seq<NumberedUrl>>): seq<ResolvedEpisode>
    requires |servers| == |sets|
  {
    SortBy(Slots(Tagged(servers, sets)), SlotNumber)
  }

  /** `getAllEpisodeUrls(anime, serverName)` of the group. */
  function GroupEpisodes(m: ServerMap, filter: Option<string>, web: Web): seq<ResolvedEpisode> {
    var servers := Servers(m, filter);
    Merged(servers, ResultsOf(HandlersOf(servers), m, web))
  }

  // ---------------------------------------------------------------------------------
  // Properties of the merge

  /** Some entry of `flat` carries number `n`. */
  ghost predicate Mentions(flat: seq<TaggedUrl>, n: int) {
    exists t :: t in flat && t.number == n
  }

  /** Some server's result holds an entry with number `n`. */
  ghost predicate Reported(sets: seq<seq<NumberedUrl>>, n: int) {
    exists i, e :: 0 <= i < |sets| && e in sets[i] && e.number == n
  }

  /** The merged result has a slot for number `n`. */
  ghost predicate HasSlot(r: seq<ResolvedEpisode>, n: int) {
    exists e :: e in r && e.number == n
  }

  /** `epNumbers` holds each reported number exactly once. */
  lemma {:induction false} FirstSeenSpec(flat: seq<TaggedUrl>)
    ensures Distinct(FirstSeen(flat))
    ensures forall n :: n in FirstSeen(flat) <==> Mentions(flat, n)
  {
    if flat != [] {
      var init := flat[..|flat| - 1];
      FirstSeenSpec(init);
      assert flat == init + [flat[|flat| - 1]];
    }
  }

  /** The links of a concatenation are the links of each part, in order. */
  lemma {:induction false} UrlsForAppend(a: seq<TaggedUrl>, b: seq<TaggedUrl>, n: int)
    ensures UrlsFor(a + b, n) == UrlsFor(a, n) + UrlsFor(b, n)
  {
    if b != [] {
      var init := b[..|b| - 1];
      assert (a + b)[..|a + b| - 1] == a + init;
      assert (a + b)[|a + b| - 1] == b[|b| - 1];
      UrlsForAppend(a, init, n);
    } else {
      assert a + b == a;
    }
  }

  /** A number no entry carries has no links. */
  lemma {:induction false} UrlsForUnmentioned(flat: seq<TaggedUrl>, n: int)
    requires !Mentions(flat, n)
    ensures UrlsFor(flat, n) == []
  {
    if flat != [] {
      var init := flat[..|flat| - 1];
      assert !Mentions(init, n) by {
        forall t | t in init ensures t.number != n {
          assert t in flat;
        }
      }
      UrlsForUnmentioned(init, n);
      assert flat[|flat| - 1] in flat;
    }
  }

  /** The links of one handler's result for number `n`: one per entry with that number. */
  lemma {:induction false} UrlsForTagAll(server: string, urls: seq<NumberedUrl>, n: int)
    ensures |UrlsFor(TagAll(server, urls), n)| == Count(urls, n)
    ensures forall l :: l in UrlsFor(TagAll(server, urls), n) ==>
              l.server == server && NumberedUrl(n, l.url) in urls
  {
    if urls != [] {
      var init := urls[..|urls| - 1];
      assert TagAll(server, urls)[..|urls| - 1] == TagAll(server, init);
      UrlsForTagAll(server, init, n);
    }
  }

  /** How many entries of one result carry number `n`. */
  function Count(urls: seq<NumberedUrl>, n: int): nat {
    if urls == [] then 0
    else Count(urls[..|urls| - 1], n) + (if urls[|urls| - 1].number == n then 1 else 0)
  }

  /** How many entries, over all results, carry number `n`. */
  function ReportCount(sets: seq<seq<NumberedUrl>>, n: int): nat {
    if sets == [] then 0 else ReportCount(sets[..|sets| - 1], n) + Count(sets[|sets| - 1], n)
  }

  /** The slot of `n` gets one link per reported entry with number `n`, each tagged with a
      server whose result holds that entry. */
  lemma {:induction false} UrlsForTagged(servers: seq<string>, sets: seq<seq<NumberedUrl>>, n: int)
    requires |servers| == |sets|
    ensures |UrlsFor(Tagged(servers, sets), n)| == ReportCount(sets, n)
    ensures forall l :: l in UrlsFor(Tagged(servers, sets), n) ==>
              exists i :: 0 <= i < |sets| && servers[i] == l.server && NumberedUrl(n, l.url) in sets[i]
  {
    if sets != [] {
      var k := |sets| - 1;
      var a, b := Tagged(servers[..k], sets[..k]), TagAll(servers[k], sets[k]);
      UrlsForTagged(servers[..k], sets[..k], n);
      UrlsForAppend(a, b, n);
      UrlsForTagAll(servers[k], sets[k], n);
      forall l | l in UrlsFor(Tagged(servers, sets), n)
        ensures exists i :: 0 <= i < |sets| && servers[i] == l.server && NumberedUrl(n, l.url) in sets[i]
      {
        if l in UrlsFor(a, n) {
          var i :| 0 <= i < k && servers[..k][i] == l.server && NumberedUrl(n, l.url) in sets[..k][i];
          assert servers[i] == l.server && sets[i] == sets[..k][i];
        } else {
          assert servers[k] == l.server && NumberedUrl(n, l.url) in sets[k];
        }
      }
    }
  }

  /** A number is met in the tagged entries exactly when some result reports it. */
  lemma {:induction false} TaggedNumbers(servers: seq<string>, sets: seq<seq<NumberedUrl>>, n: int)
    requires |servers| == |sets|
    ensures Mentions(Tagged(servers, sets), n) <==> Reported(sets, n)
  {
    if sets != [] {
      var k := |sets| - 1;
      var a, b := Tagged(servers[..k], sets[..k]), TagAll(servers[k], sets[k]);
      TaggedNumbers(servers[..k], sets[..k], n);
      if exists i, e :: 0 <= i < |sets| && e in sets[i] && e.number == n {
        var i: int, e: NumberedUrl :| 0 <= i < |sets| && e in sets[i] && e.number == n;
        if i < k {
          assert sets[..k][i] == sets[i];
          var t :| t in a && t.number == n;
          assert t in a + b;
        } else {
          var j :| 0 <= j < |sets[k]| && sets[k][j] == e;
          assert b[j] in a + b;
        }
      }
      if exists t :: t in a + b && t.number == n {
        var t :| t in a + b && t.number == n;
        if t !in a {
          var j :| 0 <= j < |b| && b[j] == t;
          assert sets[k][j] in sets[k];
        } else {
          var i, e :| 0 <= i < k && e in sets[..k][i] && e.number == n;
          assert sets[..k][i] == sets[i];
        }
      }
    }
  }

  /** The merged result ascends strictly by number: each number has exactly one slot. */
  lemma MergedAscending(servers: seq<string>, sets: seq<seq<NumberedUrl>>)
    requires |servers| == |sets|
    ensures StrictlyAscendingBy(Merged(servers, sets), SlotNumber)
  {
    var flat := Tagged(servers, sets);
    FirstSeenSpec(flat);
    var slots := Slots(flat);
    assert DistinctKeysBy(slots, SlotNumber) by {
      forall i, j | 0 <= i < j < |slots| ensures SlotNumber(slots[i]) != SlotNumber(slots[j]) {
        assert slots[i].number == FirstSeen(flat)[i] && slots[j].number == FirstSeen(flat)[j];
      }
    }
    SortByStrict(slots, SlotNumber);
  }

  /** The merged result has a slot for exactly the numbers some server reported. */
  lemma MergedNumbers(servers: seq<string>, sets: seq<seq<NumberedUrl>>, n: int)
    requires |servers| == |sets|
    ensures HasSlot(Merged(servers, sets), n) <==> Reported(sets, n)
  {
    var flat := Tagged(servers, sets);
    FirstSeenSpec(flat);
    TaggedNumbers(servers, sets, n);
    var slots := Slots(flat);
    var r := Merged(servers, sets);
    if HasSlot(r, n) {
      var e :| e in r && e.number == n;
      assert e in multiset(slots);
    }
    if n in FirstSeen(flat) {
      var i :| 0 <= i < |FirstSeen(flat)| && FirstSeen(flat)[i] == n;
      assert slots[i] in multiset(r);
    }
  }

  /** The slot of a number holds the link of every entry reported with it, in the order of
      the servers and, within one server, of its result. */
  lemma MergedUrls(servers: seq<string>, sets: seq<seq<NumberedUrl>>, e: ResolvedEpisode)
    requires |servers| == |sets|
    requires e in Merged(servers, sets)
    ensures e.urls == UrlsFor(Tagged(servers, sets), e.number)
  {
    assert e in multiset(Slots(Tagged(servers, sets)));
  }

  /** Some selected server's handler reports episode `n`. */
  ghost predicate ServedBySome(m: ServerMap, filter: Option<string>, web: Web, n: int) {
    exists s, e :: s in Servers(m, filter) && e in AllEpisodes(HandlerOf(s), m, web) && e.number == n
  }

  /** The group's result ascends strictly by number: one slot per episode number. */
  lemma GroupEpisodesAscending(m: ServerMap, filter: Option<string>, web: Web)
    ensures StrictlyAscendingBy(GroupEpisodes(m, filter, web), SlotNumber)
  {
    var servers := Servers(m, filter);
    MergedAscending(servers, ResultsOf(HandlersOf(servers), m, web));
  }

  /** The group's result has a slot for exactly the numbers some selected server's handler
      reports. */
  lemma GroupEpisodesNumbers(m: ServerMap, filter: Option<string>, web: Web, n: int)
    ensures HasSlot(GroupEpisodes(m, filter, web), n) <==> ServedBySome(m, filter, web, n)
  {
    var servers := Servers(m, filter);
    MergedNumbers(servers, ResultsOf(HandlersOf(servers), m, web), n);
    if ServedBySome(m, filter, web, n) {
      var s: string, e: NumberedUrl :| s in servers && e in AllEpisodes(HandlerOf(s), m, web) && e.number == n;
      ServedIsReported(servers, m, web, s, e);
    }
    if Reported(ResultsOf(HandlersOf(servers), m, web), n) {
      ReportedIsServed(m, filter, web, n);
    }
  }

  lemma ServedIsReported(servers: seq<string>, m: ServerMap, web: Web, s: string, e: NumberedUrl)
    requires forall s :: s in servers ==> KnowsServer(s)
    requires s in servers && e in AllEpisodes(HandlerOf(s), m, web)
    ensures Reported(ResultsOf(HandlersOf(servers), m, web), e.number)
  {
    var handlers := HandlersOf(servers);
    var i :| 0 <= i < |servers| && servers[i] == s;
    SameHandler(handlers[i], s);
    assert e in ResultsOf(handlers, m, web)[i];
  }

  lemma ReportedIsServed(m: ServerMap, filter: Option<string>, web: Web, n: int)
    requires Reported(ResultsOf(HandlersOf(Servers(m, filter)), m, web), n)
    ensures ServedBySome(m, filter, web, n)
  {
    var servers := Servers(m, filter);
    var handlers := HandlersOf(servers);
    var sets := ResultsOf(handlers, m, web);
    var i: int, e: NumberedUrl :| 0 <= i < |sets| && e in sets[i] && e.number == n;
    SameHandler(handlers[i], servers[i]);
    assert servers[i] in servers && e in AllEpisodes(HandlerOf(servers[i]), m, web);
  }

  /** Every link in a slot comes from a selected server whose handler reported that
      episode with that url; there are as many links as reported entries. */
  lemma GroupEpisodesLinks(m: ServerMap, filter: Option<string>, web: Web, e: ResolvedEpisode, l: ServerUrl)
    requires e in GroupEpisodes(m, filter, web)
    ensures l in e.urls ==> l.server in Keys(m) && Selected(m, filter, l.server) &&
                            NumberedUrl(e.number, l.url) in AllEpisodes(HandlerOf(l.server), m, web)
    ensures |e.urls| == ReportCount(ResultsOf(HandlersOf(Servers(m, filter)), m, web), e.number)
  {
    var servers := Servers(m, filter);
    var handlers := HandlersOf(servers);
    var sets := ResultsOf(handlers, m, web);
    MergedUrls(servers, sets, e);
    UrlsForTagged(servers, sets, e.number);
    if l in e.urls {
      var i :| 0 <= i < |sets| && servers[i] == l.server && NumberedUrl(e.number, l.url) in sets[i];
      assert servers[i] in servers;
      SameHandler(handlers[i], l.server);
    }
  }

  /** A known server name has exactly one handler. */
  lemma SameHandler(k: ServerKind, server: string)
    requires ServerName(k) == server
    ensures KnowsServer(server) && HandlerOf(server) == k
  {
    GetServerHandlerOfName(k);
  }

  // ---------------------------------------------------------------------------------
  // The merge loop

  /** The state of `outEps` and `epNumbers` after visiting the entries `flat`. */
  ghost predicate MergeState(flat: seq<TaggedUrl>, outEps: map<int, ResolvedEpisode>, epNumbers: seq<int>) {
    epNumbers == FirstSeen(flat) &&
    (forall n :: n in outEps <==> n in epNumbers) &&
    forall n :: n in outEps ==> outEps[n] == ResolvedEpisode(n, UrlsFor(flat, n))
  }

  /** One visit of the inner `forEach`: append to the slot of the entry's number, or open
      the slot and record the number. */
  lemma MergeStep(flat: seq<TaggedUrl>, t: TaggedUrl, outEps: map<int, ResolvedEpisode>, epNumbers: seq<int>)
    requires MergeState(flat, outEps, epNumbers)
    ensures t.number in outEps ==>
              MergeState(flat + [t], outEps[t.number := ResolvedEpisode(t.number, outEps[t.number].urls + [t.link])], epNumbers)
    ensures t.number !in outEps ==>
              MergeState(flat + [t], outEps[t.number := ResolvedEpisode(t.number, [t.link])], epNumbers + [t.number])
  {
    var flat' := flat + [t];
    assert flat'[..|flat'| - 1] == flat;
    assert FirstSeen(flat') == if t.number in FirstSeen(flat) then FirstSeen(flat) else FirstSeen(flat) + [t.number];
    forall n ensures UrlsFor(flat', n) == UrlsFor(flat, n) + (if t.number == n then [t.link] else []) {
    }
    if t.number !in outEps {
      FirstSeenSpec(flat);
      UrlsForUnmentioned(flat, t.number);
    }
  }

  /** The inner `forEach` over the result of the handler of `server`. */
  method MergeUrlSet(outEps: map<int, ResolvedEpisode>, epNumbers: seq<int>, server: string,
                     urlSet: seq<NumberedUrl>, ghost flat: seq<TaggedUrl>)
    returns (outEps': map<int, ResolvedEpisode>, epNumbers': seq<int>)
    requires MergeState(flat, outEps, epNumbers)
    ensures MergeState(flat + TagAll(server, urlSet), outEps', epNumbers')
  {
    outEps', epNumbers' := outEps, epNumbers;
    var j := 0;
    assert flat + TagAll(server, urlSet[..0]) == flat;
    while j < |urlSet|
      invariant 0 <= j <= |urlSet|
      invariant MergeState(flat + TagAll(server, urlSet[..j]), outEps', epNumbers')
    {
      var url := urlSet[j];
      var t := TaggedUrl(url.number, ServerUrl(server, url.url));
      ghost var visited := flat + TagAll(server, urlSet[..j]);
      MergeStep(visited, t, outEps', epNumbers');
      if url.number in outEps' {
        outEps' := outEps'[url.number := ResolvedEpisode(url.number, outEps'[url.number].urls + [t.link])];
      } else {
        epNumbers' := epNumbers' + [url.number];
        outEps' := outEps'[url.number := ResolvedEpisode(url.number, [t.link])];
      }
      assert TagAll(server, urlSet[..j + 1]) == TagAll(server, urlSet[..j]) + [t];
      assert flat + TagAll(server, urlSet[..j + 1]) == visited + [t];
      j := j + 1;
    }
    assert urlSet[..j] == urlSet;
  }

  /** `Promise.all(handlers.map(handler => handler.getAllEpisodeUrls(anime)))`. */
  method CollectResults(handlers: seq<ServerKind>, m: ServerMap, web: Web) returns (sets: seq<seq<NumberedUrl>>)
    ensures sets == ResultsOf(handlers, m, web)
  {
    sets := [];
    var i := 0;
    while i < |handlers|
      invariant 0 <= i <= |handlers|
      invariant |sets| == i
      invariant forall j :: 0 <= j < i ==> sets[j] == AllEpisodes(handlers[j], m, web)
    {
      var urlSet := ServerHandler.GetAllEpisodeUrls(handlers[i], m, web);
      sets := sets + [urlSet];
      i := i + 1;
    }
  }

  /** The outer `forEach` over the results, then `epNumbers.map(n => outEps[n])`. */
  method MergeAll(servers: seq<string>, sets: seq<seq<NumberedUrl>>) returns (slots: seq<ResolvedEpisode>)
    requires |servers| == |sets|
    ensures slots == Slots(Tagged(servers, sets))
  {
    var outEps: map<int, ResolvedEpisode> := map[];
    var epNumbers: seq<int> := [];
    ghost var flat: seq<TaggedUrl> := [];
    var index := 0;
    while index < |sets|
      invariant 0 <= index <= |sets|
      invariant flat == Tagged(servers[..index], sets[..index])
      invariant MergeState(flat, outEps, epNumbers)
    {
      outEps, epNumbers := MergeUrlSet(outEps, epNumbers, servers[index], sets[index], flat);
      assert servers[..index + 1][..index] == servers[..index];
      assert sets[..index + 1][..index] == sets[..index];
      flat := flat + TagAll(servers[index], sets[index]);
      index := index + 1;
    }
    assert servers[..index] == servers && sets[..index] == sets;
    assert MergeState(flat, outEps, epNumbers);
    assert forall n :: n in epNumbers ==> n in outEps;
    slots := seq(|epNumbers|, i requires 0 <= i < |epNumbers| && epNumbers[i] in outEps => outEps[epNumbers[i]]);
  }

  /** `getAllEpisodeUrls(anime, serverName)` of the group. */
  method GetAllEpisodeUrls(m: ServerMap, filter: Option<string>, web: Web) returns (r: seq<ResolvedEpisode>)
    ensures r == GroupEpisodes(m, filter, web)
  {
    var servers := Servers(m, filter);
    var handlers := HandlersOf(servers);
    var listOfUrlSets := CollectResults(handlers, m, web);
    var slots := MergeAll(servers, listOfUrlSets);
    r := SortBy(slots, SlotNumber);
  }

  // ---------------------------------------------------------------------------------
  // getEpisodeUrls

  /** The servers of a list of `{server, url}` pairs, in order. */
  function LinkServers(r: seq<ServerUrl>): seq<string> {
    seq(|r|, i requires 0 <= i < |r| => r[i].server)
  }

  lemma LinkServersCons(l: ServerUrl, r: seq<ServerUrl>)
    ensures LinkServers([l] + r) == [l.server] + LinkServers(r)
  {
  }

  /** `keys` with a first element in front still contains every subsequence of `keys`. */
  lemma {:induction false} SubsequenceExtend(r: seq<string>, k: string, keys: seq<string>)
    requires Subsequence(r, keys)
    ensures Subsequence(r, [k] + keys)
    decreases |keys|, 1
  {
    var ks := [k] + keys;
    assert ks[1..] == keys;
    if r != [] && r[0] == k {
      assert keys != [];
      if r[0] == keys[0] {
        SubsequenceExtend(r[1..], keys[0], keys[1..]);
        assert [keys[0]] + keys[1..] == keys;
      } else {
        SubsequenceTail(r, keys);
      }
    }
  }

  /** Dropping the first element of a subsequence keeps a subsequence. */
  lemma {:induction false} SubsequenceTail(r: seq<string>, keys: seq<string>)
    requires r != [] && Subsequence(r, keys)
    ensures Subsequence(r[1..], keys)
    decreases |keys|, 0
  {
    assert keys != [];
    if r[0] == keys[0] {
      SubsequenceExtend(r[1..], keys[0], keys[1..]);
      assert [keys[0]] + keys[1..] == keys;
    } else {
      SubsequenceTail(r, keys[1..]);
      SubsequenceExtend(r[1..], keys[0], keys[1..]);
      assert [keys[0]] + keys[1..] == keys;
    }
  }

  /** A subsequence of a subsequence of `keys` is a subsequence of `keys`. */
  lemma {:induction false} SubsequenceTrans(a: seq<string>, b: seq<string>, c: seq<string>)
    requires Subsequence(a, b) && Subsequence(b, c)
    ensures Subsequence(a, c)
    decreases |c|
  {
    if a != [] {
      assert b != [] && c != [];
      if b[0] == c[0] {
        if a[0] == b[0] {
          SubsequenceTrans(a[1..], b[1..], c[1..]);
        } else {
          SubsequenceTrans(a, b[1..], c[1..]);
        }
      } else {
        SubsequenceTrans(a, b, c[1..]);
        if a[0] == c[0] {
          SubsequenceTail(a, c[1..]);
        }
      }
    }
  }

  /** The `{server, url}` pairs of the servers whose handler gives a url for episode `n`,
      in server order. */
  function EpisodeLinks(servers: seq<string>, m: ServerMap, web: Web, n: int): (r: seq<ServerUrl>)
    requires forall s :: s in servers ==> KnowsServer(s)
    ensures forall l :: l in r <==>
              l.server in servers && EpisodeUrl(HandlerOf(l.server), m, web, n) == Some(l.url)
  {
    if servers == [] then []
    else
      var rest := EpisodeLinks(servers[1..], m, web, n);
      assert servers == [servers[0]] + servers[1..];
      match EpisodeUrl(HandlerOf(servers[0]), m, web, n)
      case None => rest
      case Some(url) => [ServerUrl(servers[0], url)] + rest
  }

  /** The pairs come one per server at most, in server order. */
  lemma {:induction false} EpisodeLinksInServerOrder(servers: seq<string>, m: ServerMap, web: Web, n: int)
    requires forall s :: s in servers ==> KnowsServer(s)
    ensures Subsequence(LinkServers(EpisodeLinks(servers, m, web, n)), servers)
    ensures Distinct(servers) ==> Distinct(LinkServers(EpisodeLinks(servers, m, web, n)))
  {
    if servers != [] {
      var rest := EpisodeLinks(servers[1..], m, web, n);
      EpisodeLinksInServerOrder(servers[1..], m, web, n);
      var rs := LinkServers(rest);
      assert forall i :: 0 <= i < |rs| ==> rs[i] in servers[1..] by {
        forall i | 0 <= i < |rs| ensures rs[i] in servers[1..] {
          assert rest[i] in rest;
        }
      }
      assert Distinct(servers) ==> Distinct(servers[1..]) && servers[0] !in servers[1..];
      match EpisodeUrl(HandlerOf(servers[0]), m, web, n)
      case None =>
        assert EpisodeLinks(servers, m, web, n) == rest;
        if rest != [] {
          assert rest[0] in rest;
          assert rs[0] != servers[0];
        }
      case Some(url) =>
        var l := ServerUrl(servers[0], url);
        assert EpisodeLinks(servers, m, web, n) == [l] + rest;
        LinkServersCons(l, rest);
        assert ([servers[0]] + rs)[1..] == rs;
        if Distinct(servers) {
          forall i, j | 0 <= i < j < |rs| + 1 ensures ([servers[0]] + rs)[i] != ([servers[0]] + rs)[j] {
            if i == 0 {
              assert rs[j - 1] in servers[1..];
            } else {
              assert rs[i - 1] != rs[j - 1];
            }
          }
        }
    }
  }

  /** `getEpisodeUrls(anime, episodeNumber)` of the group: one pair per selected key of the
      `serverMap` whose handler gives a url for the episode, in key order. */
  function GetEpisodeUrls(m: ServerMap, web: Web, n: int): (r: seq<ServerUrl>)
    ensures forall l :: l in r <==>
              Selected(m, None, l.server) && l.server in Keys(m) &&
              EpisodeUrl(HandlerOf(l.server), m, web, n) == Some(l.url)
    ensures Subsequence(LinkServers(r), Keys(m))
    ensures DistinctKeys(m) ==> Distinct(LinkServers(r))
  {
    var servers := Servers(m, None);
    SelectFromInKeyOrder(Keys(m), m, None);
    assert DistinctKeys(m) ==> Distinct(servers) by {
      if DistinctKeys(m) {
        SelectFromDistinct(Keys(m), m, None);
      }
    }
    var r := EpisodeLinks(servers, m, web, n);
    EpisodeLinksInServerOrder(servers, m, web, n);
    SubsequenceTrans(LinkServers(r), servers, Keys(m));
    r
  }
}
