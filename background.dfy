/** The background script: the stored target list, collecting connections from seed
    profiles, and the messaging run over the queued targets. Tabs, page loads and
    the content script's answers are observations passed in as parameters. */
module Background {
  import opened Strings
  import opened Sequences
  import opened Messages
  import opened Storage

  const DefaultMaxLinks := 2
  const NotFoundUrl := "https://www.linkedin.com/404/"

  // ---------------------------------------------------------------------------
  // The target list, keyed by `connection.url`

  predicate HasUrl(ts: seq<Target>, url: string) {
    exists i :: 0 <= i < |ts| && ts[i].connection.url == url
  }

  predicate DistinctUrls(ts: seq<Target>) {
    forall i, j :: 0 <= i < j < |ts| ==> ts[i].connection.url != ts[j].connection.url
  }

  /** `ts.find(t => t.connection.url === url)`: the first target with that URL. */
  function FindByUrl(ts: seq<Target>, url: string): (r: Option<Target>)
    ensures r.Some? <==> HasUrl(ts, url)
    ensures r.Some? ==> r.value in ts && r.value.connection.url == url
  {
    if ts == [] then None
    else if ts[0].connection.url == url then Some(ts[0])
    else
      var r := FindByUrl(ts[1..], url);
      assert HasUrl(ts, url) <==> HasUrl(ts[1..], url) by {
        if HasUrl(ts, url) {
          var i :| 0 <= i < |ts| && ts[i].connection.url == url;
          assert i > 0 && ts[1..][i - 1] == ts[i];
        }
        if HasUrl(ts[1..], url) {
          var i :| 0 <= i < |ts[1..]| && ts[1..][i].connection.url == url;
          assert ts[i + 1] == ts[1..][i];
        }
      }
      r
  }

  /** The list `saveTarget(t)` leaves: unchanged when a stored target already has
      `t`'s URL, otherwise `t` appended at the end. */
  function WithTarget(ts: seq<Target>, t: Target): (r: seq<Target>)
    ensures HasUrl(ts, t.connection.url) ==> r == ts
    ensures !HasUrl(ts, t.connection.url) ==> r == ts + [t]
  {
    if FindByUrl(ts, t.connection.url).Some? then ts else ts + [t]
  }

  /** Saving never introduces a second target with the same URL. */
  lemma WithTargetKeepsDistinct(ts: seq<Target>, t: Target)
    requires DistinctUrls(ts)
    ensures DistinctUrls(WithTarget(ts, t))
  {
    if !HasUrl(ts, t.connection.url) {
      var r := ts + [t];
      forall i, j | 0 <= i < j < |r| ensures r[i].connection.url != r[j].connection.url {
        if j == |ts| {
          assert r[i] == ts[i];
        }
      }
    }
  }

  function KeepOutside(urls: set<string>): Target -> bool {
    (t: Target) => t.connection.url !in urls
  }

  /** The targets whose URL is not in `urls`, in their original order. */
  function WithoutUrls(ts: seq<Target>, urls: set<string>): (r: seq<Target>)
    ensures forall i :: 0 <= i < |r| ==> r[i].connection.url !in urls
  {
    var r := Filter(ts, KeepOutside(urls));
    assert forall i :: 0 <= i < |r| ==> KeepOutside(urls)(r[i]);
    r
  }

  /** What `removeTarget(url)` writes: `ts.filter(t => t.connection.url !== url)`. */
  function WithoutUrl(ts: seq<Target>, url: string): (r: seq<Target>)
    ensures !HasUrl(r, url)
  {
    WithoutUrls(ts, {url})
  }

  /** Exactly the targets with other URLs survive a removal. */
  lemma WithoutUrlsMembership(ts: seq<Target>, urls: set<string>, t: Target)
    ensures t in WithoutUrls(ts, urls) <==> t in ts && t.connection.url !in urls
  {
    FilterMembership(ts, KeepOutside(urls), t);
  }

  /** Removal keeps the relative order of the survivors: it works piece by piece. */
  lemma WithoutUrlsAppend(a: seq<Target>, b: seq<Target>, urls: set<string>)
    ensures WithoutUrls(a + b, urls) == WithoutUrls(a, urls) + WithoutUrls(b, urls)
  {
    FilterAppend(a, b, KeepOutside(urls));
  }

  /** Removing a URL that no target has changes nothing. */
  lemma WithoutUrlsAbsent(ts: seq<Target>, urls: set<string>)
    requires forall i :: 0 <= i < |ts| ==> ts[i].connection.url !in urls
    ensures WithoutUrls(ts, urls) == ts
  {
    FilterAll(ts, KeepOutside(urls));
  }

  /** Removal decides the last target on its own URL. */
  lemma WithoutUrlsLast(ts: seq<Target>, t: Target, urls: set<string>)
    ensures WithoutUrls(ts + [t], urls) == WithoutUrls(ts, urls) + (if t.connection.url in urls then [] else [t])
  {
    assert (ts + [t])[..|ts|] == ts;
  }

  /** Two removals in a row remove the union of their URL sets. */
  lemma {:induction false} WithoutUrlsTwice(ts: seq<Target>, a: set<string>, b: set<string>)
    ensures WithoutUrls(WithoutUrls(ts, a), b) == WithoutUrls(ts, a + b)
    decreases |ts|
  {
    if ts != [] {
      var ts' := ts[..|ts| - 1];
      var t := ts[|ts| - 1];
      WithoutUrlsTwice(ts', a, b);
      assert ts == ts' + [t];
      WithoutUrlsLast(ts', t, a);
      WithoutUrlsLast(ts', t, a + b);
      if t.connection.url in a {
        assert t.connection.url in a + b;
        assert WithoutUrls(ts, a) == WithoutUrls(ts', a);
        assert WithoutUrls(ts, a + b) == WithoutUrls(ts', a + b);
      } else {
        WithoutUrlsLast(WithoutUrls(ts', a), t, b);
      }
    }
  }

  lemma {:induction false} WithoutUrlsKeepsDistinct(ts: seq<Target>, urls: set<string>)
    requires DistinctUrls(ts)
    ensures DistinctUrls(WithoutUrls(ts, urls))
    decreases |ts|
  {
    if ts != [] {
      var n := |ts| - 1;
      var ts' := ts[..n];
      var t := ts[n];
      assert DistinctUrls(ts');
      WithoutUrlsKeepsDistinct(ts', urls);
      assert ts == ts' + [t];
      WithoutUrlsLast(ts', t, urls);
      var r' := WithoutUrls(ts', urls);
      if t.connection.url !in urls {
        var r := r' + [t];
        forall i | 0 <= i < |r'| ensures r'[i].connection.url != t.connection.url {
          var k :| 0 <= k < n && ts'[k] == r'[i];
          assert ts[k] == ts'[k];
        }
        assert forall i, j :: 0 <= i < j < |r| ==> r[i].connection.url != r[j].connection.url by {
          forall i, j | 0 <= i < j < |r| ensures r[i].connection.url != r[j].connection.url {
            if j == |r'| {
              assert r[i] == r'[i];
            } else {
              assert r[i] == r'[i] && r[j] == r'[j];
            }
          }
        }
      }
    }
  }

  /** `getTargets()`: the stored list read back. Its `new Set` is over objects freshly
      deserialised from storage, which are all distinct, so it drops nothing. */
  method GetTargets(st: Store) returns (ts: seq<Target>)
    ensures ts == TargetsIn(st.items)
  {
    ts := TargetsIn(st.items);
  }

  /** `saveTarget(t)` */
  method SaveTarget(st: Store, t: Target)
    modifies st
    ensures st.items == PutTargets(old(st.items), WithTarget(TargetsIn(old(st.items)), t))
  {
    var existing := GetTargets(st);
    if FindByUrl(existing, t.connection.url).None? {
      st.items := st.items[TargetProfiles := TargetList(existing + [t])];
    } else {
      assert st.items == st.items[TargetProfiles := TargetList(existing)];
    }
  }

  /** `removeTarget(url)` */
  method RemoveTarget(st: Store, url: string)
    modifies st
    ensures st.items == PutTargets(old(st.items), WithoutUrl(TargetsIn(old(st.items)), url))
  {
    var existing := GetTargets(st);
    existing := WithoutUrl(existing, url);
    st.items := st.items[TargetProfiles := TargetList(existing)];
  }

  // ---------------------------------------------------------------------------
  // collectConnections: one connections page, truncated, then de-duplicated by URL

  /** `s.slice(0, end)`: a negative end counts back from the length. */
  function Slice<T>(s: seq<T>, end: int): (r: seq<T>)
    ensures end >= 0 ==> |r| == if end < |s| then end else |s|
    ensures end < 0 ==> |r| == if |s| + end > 0 then |s| + end else 0
    ensures r == s[..|r|]
  {
    if end >= 0 then (if end < |s| then s[..end] else s)
    else (if |s| + end > 0 then s[..|s| + end] else [])
  }

  function ConnectionUrls(cs: seq<ScrapedConnection>): (r: seq<string>)
    ensures |r| == |cs| && forall i :: 0 <= i < |cs| ==> r[i] == cs[i].url
  {
    seq(|cs|, i requires 0 <= i < |cs| => cs[i].url)
  }

  /** `[...new Set(cs.map(c => c.url))].map(url => cs.find(c => c.url === url))`:
      one connection per URL, the first with that URL, in order of first appearance. */
  function DedupeByUrl(cs: seq<ScrapedConnection>): seq<ScrapedConnection> {
    var urls := Dedupe(ConnectionUrls(cs));
    DedupeSpec(ConnectionUrls(cs));
    seq(|urls|, i requires 0 <= i < |urls| => cs[FirstIndex(ConnectionUrls(cs), urls[i])])
  }

  /** The same selection made in one pass: a connection is kept unless an earlier one
      already had its URL. */
  function FirstPerUrl(cs: seq<ScrapedConnection>): (r: seq<ScrapedConnection>)
    ensures |r| <= |cs|
  {
    if cs == [] then []
    else
      var d := FirstPerUrl(cs[..|cs| - 1]);
      if cs[|cs| - 1].url in ConnectionUrls(d) then d else d + [cs[|cs| - 1]]
  }

  lemma ConnectionUrlsAppend(cs: seq<ScrapedConnection>, c: ScrapedConnection)
    ensures ConnectionUrls(cs + [c]) == ConnectionUrls(cs) + [c.url]
  {
  }

  lemma ConnectionUrlsPrefix(cs: seq<ScrapedConnection>, n: nat)
    requires n <= |cs|
    ensures ConnectionUrls(cs[..n]) == ConnectionUrls(cs)[..n]
  {
  }

  /** The one-pass selection keeps exactly the URLs `Set` keeps, in the same order. */
  lemma {:induction false} FirstPerUrlUrls(cs: seq<ScrapedConnection>)
    ensures ConnectionUrls(FirstPerUrl(cs)) == Dedupe(ConnectionUrls(cs))
    decreases |cs|
  {
    if cs != [] {
      var n := |cs| - 1;
      var u := ConnectionUrls(cs);
      FirstPerUrlUrls(cs[..n]);
      ConnectionUrlsPrefix(cs, n);
      ConnectionUrlsAppend(FirstPerUrl(cs[..n]), cs[n]);
      assert u[n] == cs[n].url;
    }
  }

  /** Each connection the one-pass selection keeps is the first one with its URL. */
  lemma {:induction false} FirstPerUrlFirst(cs: seq<ScrapedConnection>)
    ensures forall i :: 0 <= i < |FirstPerUrl(cs)| ==>
      FirstPerUrl(cs)[i].url in ConnectionUrls(cs) &&
      FirstPerUrl(cs)[i] == cs[FirstIndex(ConnectionUrls(cs), FirstPerUrl(cs)[i].url)]
    decreases |cs|
  {
    if cs != [] {
      var n := |cs| - 1;
      var u := ConnectionUrls(cs);
      var d := FirstPerUrl(cs[..n]);
      FirstPerUrlFirst(cs[..n]);
      ConnectionUrlsPrefix(cs, n);
      forall i | 0 <= i < |d|
        ensures d[i].url in u && d[i] == cs[FirstIndex(u, d[i].url)]
      {
        FirstIndexPrefix(u, n, d[i].url);
      }
      if cs[n].url !in ConnectionUrls(d) {
        FirstPerUrlUrls(cs[..n]);
        DedupeSpec(u[..n]);
        assert cs[n].url !in u[..n];
        FirstIndexUnique(u, cs[n].url, n);
      }
    }
  }

  /** The one-pass selection is the `Set`-and-`find` expression. */
  lemma FirstPerUrlIsDedupeByUrl(cs: seq<ScrapedConnection>)
    ensures FirstPerUrl(cs) == DedupeByUrl(cs)
  {
    FirstPerUrlUrls(cs);
    FirstPerUrlFirst(cs);
    var r := FirstPerUrl(cs);
    var urls := Dedupe(ConnectionUrls(cs));
    assert |r| == |urls|;
    forall i | 0 <= i < |r| ensures r[i] == DedupeByUrl(cs)[i] {
      assert ConnectionUrls(r)[i] == r[i].url;
    }
  }

  /** What `DedupeByUrl` keeps: at most one connection per URL, every URL, each kept
      connection the first with its URL, in the order the URLs first appear. */
  lemma DedupeByUrlSpec(cs: seq<ScrapedConnection>)
    ensures |DedupeByUrl(cs)| <= |cs|
    ensures Distinct(ConnectionUrls(DedupeByUrl(cs)))
    ensures forall i :: 0 <= i < |cs| ==> cs[i].url in ConnectionUrls(DedupeByUrl(cs))
    ensures forall i :: 0 <= i < |DedupeByUrl(cs)| ==> DedupeByUrl(cs)[i].url in ConnectionUrls(cs)
    ensures forall i :: 0 <= i < |DedupeByUrl(cs)| ==>
      DedupeByUrl(cs)[i] == cs[FirstIndex(ConnectionUrls(cs), DedupeByUrl(cs)[i].url)]
    ensures forall i, j :: 0 <= i < j < |DedupeByUrl(cs)| ==>
      FirstIndex(ConnectionUrls(cs), DedupeByUrl(cs)[i].url) < FirstIndex(ConnectionUrls(cs), DedupeByUrl(cs)[j].url)
  {
    var urls := ConnectionUrls(cs);
    FirstPerUrlIsDedupeByUrl(cs);
    FirstPerUrlUrls(cs);
    FirstPerUrlFirst(cs);
    var r := DedupeByUrl(cs);
    DedupeOrder(urls);
    DedupeSpec(urls);
    forall i | 0 <= i < |cs| ensures cs[i].url in ConnectionUrls(r) {
      assert urls[i] == cs[i].url;
    }
    forall i, j | 0 <= i < j < |r|
      ensures FirstIndex(urls, r[i].url) < FirstIndex(urls, r[j].url)
    {
      assert ConnectionUrls(r)[i] == r[i].url && ConnectionUrls(r)[j] == r[j].url;
    }
  }

  /** What `chrome.tabs.sendMessage(tab, { type: "load-connections" })` produced in the
      connections tab: nothing (the tab failed, timed out or did not answer), or the
      URL the tab ended on and the connections listed there. */
  datatype ConnectionsPage = PageUnavailable | PageLoaded(url: string, connections: seq<ScrapedConnection>)

  /** `collectConnections(connectionsUrl, maxLinks, origin)` */
  function CollectConnections(page: ConnectionsPage, maxLinks: int): (r: seq<ScrapedConnection>)
    ensures maxLinks >= 0 ==> |r| <= maxLinks
  {
    match page
    case PageUnavailable => []
    case PageLoaded(url, connections) =>
      if Contains(url, NotFoundUrl) then []
      else FirstPerUrl(Slice(connections, maxLinks))
  }

  /** What is collected comes from the first `maxLinks` entries of a page that loaded
      and is not the not-found page, one connection per URL. */
  lemma CollectConnectionsSpec(page: ConnectionsPage, maxLinks: int)
    ensures Distinct(ConnectionUrls(CollectConnections(page, maxLinks)))
    ensures forall i :: 0 <= i < |CollectConnections(page, maxLinks)| ==>
      page.PageLoaded? && !Contains(page.url, NotFoundUrl) &&
      CollectConnections(page, maxLinks)[i] in Slice(page.connections, maxLinks)
  {
    if page.PageLoaded? && !Contains(page.url, NotFoundUrl) {
      var cs := Slice(page.connections, maxLinks);
      FirstPerUrlIsDedupeByUrl(cs);
      DedupeByUrlSpec(cs);
    }
  }

  // ---------------------------------------------------------------------------
  // getConnectionsLinks: the targets found on one seed profile

  /** What the seed profile's page reported (`get-connections-url`). */
  datatype ConnectionsMeta = ConnectionsMeta(profileName: Option<string>, companyName: string, connectionsLink: Option<string>)

  /** The seed profile's tab: unavailable (it failed to load, closed, or a call threw),
      or loaded, with the URL it ended on, its report and the connections page. */
  datatype ProfilePage = ProfileUnavailable | ProfileLoaded(currentUrl: string, meta: ConnectionsMeta, connections: ConnectionsPage)

  function NewTarget(profile: string, meta: ConnectionsMeta, c: ScrapedConnection): Target {
    Target(meta.profileName, Connection(c.name, c.url, profile), meta.companyName, None, Pending)
  }

  /** One new target per collected connection, in order. */
  function NewTargets(profile: string, meta: ConnectionsMeta, cs: seq<ScrapedConnection>): (r: seq<Target>)
    ensures |r| == |cs|
    ensures forall i :: 0 <= i < |r| ==> r[i] == NewTarget(profile, meta, cs[i])
  {
    if cs == [] then [] else [NewTarget(profile, meta, cs[0])] + NewTargets(profile, meta, cs[1..])
  }

  /** The targets `getConnectionsLinks(profile, maxLinks)` saves, in order. */
  function ProfileTargets(profile: string, page: ProfilePage, maxLinks: int): (r: seq<Target>)
    ensures maxLinks >= 0 ==> |r| <= maxLinks
    ensures forall i :: 0 <= i < |r| ==> r[i].status == Pending && r[i].connection.originUrl == profile
  {
    match page
    case ProfileUnavailable => []
    case ProfileLoaded(currentUrl, meta, connections) =>
      if currentUrl == NotFoundUrl then []
      else if meta.connectionsLink.None? || meta.connectionsLink.value == "" then []
      else
        NewTargets(profile, meta, CollectConnections(connections, maxLinks))
  }
  /** One seed profile never yields two targets with the same URL. */
  lemma ProfileTargetsDistinct(profile: string, page: ProfilePage, maxLinks: int)
    ensures DistinctUrls(ProfileTargets(profile, page, maxLinks))
  {
    if page.ProfileLoaded? {
      var cs := CollectConnections(page.connections, maxLinks);
      CollectConnectionsSpec(page.connections, maxLinks);
      var r := NewTargets(profile, page.meta, cs);
      assert forall i :: 0 <= i < |r| ==> r[i].connection.url == ConnectionUrls(cs)[i];
    }
  }


  /** The stored list after saving each of `ts` in turn. */
  function SaveAll(stored: seq<Target>, ts: seq<Target>): seq<Target>
    decreases |ts|
  {
    if ts == [] then stored else SaveAll(WithTarget(stored, ts[0]), ts[1..])
  }

  lemma {:induction false} SaveAllKeepsDistinct(stored: seq<Target>, ts: seq<Target>)
    requires DistinctUrls(stored)
    ensures DistinctUrls(SaveAll(stored, ts))
    decreases |ts|
  {
    if ts != [] {
      WithTargetKeepsDistinct(stored, ts[0]);
      SaveAllKeepsDistinct(WithTarget(stored, ts[0]), ts[1..]);
    }
  }

  lemma SaveAllStep(stored: seq<Target>, ts: seq<Target>, t: Target)
    ensures SaveAll(stored, ts + [t]) == WithTarget(SaveAll(stored, ts), t)
    decreases |ts|
  {
    if ts != [] {
      assert (ts + [t])[1..] == ts[1..] + [t];
      SaveAllStep(WithTarget(stored, ts[0]), ts[1..], t);
    } else {
      assert ([] + [t])[1..] == [];
    }
  }

  /** `for (let target of targets) await saveTarget(target)` */
  method SaveTargets(st: Store, ts: seq<Target>)
    modifies st
    ensures TargetsIn(st.items) == SaveAll(TargetsIn(old(st.items)), ts)
    ensures st.items - {TargetProfiles} == old(st.items) - {TargetProfiles}
  {
    var i := 0;
    while i < |ts|
      invariant 0 <= i <= |ts|
      invariant TargetsIn(st.items) == SaveAll(TargetsIn(old(st.items)), ts[..i])
      invariant st.items - {TargetProfiles} == old(st.items) - {TargetProfiles}
    {
      SaveTarget(st, ts[i]);
      SaveAllStep(TargetsIn(old(st.items)), ts[..i], ts[i]);
      assert ts[..i + 1] == ts[..i] + [ts[i]];
      i := i + 1;
    }
    assert ts[..i] == ts;
  }

  // ---------------------------------------------------------------------------
  // collectLinksHandler: visit the seed profiles until the pause flag is seen

  /** `message.maxLinks || DEFAULT_MAX_LINKS`: missing, NaN and 0 all fall back. */
  function EffectiveMaxLinks(maxLinks: Option<int>): (r: int)
    ensures r != 0
    ensures maxLinks.Some? && maxLinks.value != 0 ==> r == maxLinks.value
    ensures maxLinks.None? || maxLinks.value == 0 ==> r == DefaultMaxLinks
  {
    OrDefault(maxLinks, DefaultMaxLinks)
  }

  /** The index at which a loop over `start..n` that checks the pause flag first stops:
      the first index at which the flag is seen set, or the end. */
  function StopIndex(n: nat, start: nat, pausedAt: nat -> bool): (stop: nat)
    ensures start <= stop && (start <= n ==> stop <= n)
    ensures start >= n ==> stop == start
    ensures forall k :: start <= k < stop ==> !pausedAt(k)
    ensures stop < n ==> pausedAt(stop)
    decreases n - start
  {
    if start >= n || pausedAt(start) then start else StopIndex(n, start + 1, pausedAt)
  }

  /** A loop that has reached index `i` without seeing the flag stops there when the
      flag is set at `i` or `i` is the end. */
  lemma StopIndexAt(n: nat, start: nat, pausedAt: nat -> bool, i: nat)
    requires start <= i <= StopIndex(n, start, pausedAt)
    requires i == n || pausedAt(i)
    ensures StopIndex(n, start, pausedAt) == i
  {
  }

  /** An unpaused index before the stop is passed. */
  lemma StopIndexPast(n: nat, start: nat, pausedAt: nat -> bool, i: nat)
    requires start <= i <= StopIndex(n, start, pausedAt)
    requires i < n && !pausedAt(i)
    ensures i + 1 <= StopIndex(n, start, pausedAt)
  {
  }

  /** The stored targets after visiting the profiles with indices `start..k`. */
  function CollectedTargets(stored: seq<Target>, profiles: seq<string>, start: nat, k: nat,
                            maxLinks: int, pageAt: nat -> ProfilePage): seq<Target>
    requires start <= k <= |profiles|
    decreases k
  {
    if k == start then stored
    else SaveAll(CollectedTargets(stored, profiles, start, k - 1, maxLinks, pageAt),
                 ProfileTargets(profiles[k - 1], pageAt(k - 1), maxLinks))
  }

  /** A collection run never stores two targets with the same URL. */
  lemma {:induction false} CollectKeepsDistinct(stored: seq<Target>, profiles: seq<string>, start: nat, k: nat,
                                                maxLinks: int, pageAt: nat -> ProfilePage)
    requires start <= k <= |profiles|
    requires DistinctUrls(stored)
    ensures DistinctUrls(CollectedTargets(stored, profiles, start, k, maxLinks, pageAt))
    decreases k
  {
    if k > start {
      CollectKeepsDistinct(stored, profiles, start, k - 1, maxLinks, pageAt);
      ProfileTargetsDistinct(profiles[k - 1], pageAt(k - 1), maxLinks);
      SaveAllKeepsDistinct(CollectedTargets(stored, profiles, start, k - 1, maxLinks, pageAt),
                           ProfileTargets(profiles[k - 1], pageAt(k - 1), maxLinks));
    }
  }

  /** The running estimate after visiting the profiles with indices `start..k`:
      `maxLinks` added once per profile. */
  function Estimate(maxLinks: int, start: nat, k: nat): int
    decreases k
  {
    if k <= start then 0 else Estimate(maxLinks, start, k - 1) + maxLinks
  }

  /** The estimate is `maxLinks` times the number of profiles visited. */
  lemma {:induction false} EstimateIsProduct(maxLinks: int, start: nat, k: nat)
    requires start <= k
    ensures Estimate(maxLinks, start, k) == maxLinks * (k - start)
    decreases k
  {
    if k > start {
      EstimateIsProduct(maxLinks, start, k - 1);
      assert maxLinks * (k - start) == maxLinks * (k - 1 - start) + maxLinks;
    }
  }

  lemma ProfilesOutsideTargets(a: map<string, Value>, b: map<string, Value>)
    requires a - {TargetProfiles} == b - {TargetProfiles}
    ensures ProfilesIn(a) == ProfilesIn(b)
  {
    assert UserProfileLinks in a <==> UserProfileLinks in a - {TargetProfiles};
    assert UserProfileLinks in b <==> UserProfileLinks in b - {TargetProfiles};
    if UserProfileLinks in a {
      assert a[UserProfileLinks] == (a - {TargetProfiles})[UserProfileLinks];
      assert b[UserProfileLinks] == (b - {TargetProfiles})[UserProfileLinks];
    }
  }

  /** `getConnectionsLinks(profile, maxLinks)`: saves the targets found on one profile. */
  method VisitProfile(st: Store, profile: string, page: ProfilePage, maxLinks: int)
    modifies st
    ensures TargetsIn(st.items) == SaveAll(TargetsIn(old(st.items)), ProfileTargets(profile, page, maxLinks))
    ensures st.items - {TargetProfiles} == old(st.items) - {TargetProfiles}
  {
    var targets := ProfileTargets(profile, page, maxLinks);
    SaveTargets(st, targets);
  }

  /** The `for` loop of `collectLinksHandler`: visits `profiles` from `start` on, stopping
      at the first iteration that sees the pause flag. `pausedAt(i)` is the flag as read
      before profile `i`; `pageAt(i)` is what visiting profile `i` showed. Returns where the
      loop stopped and the estimate it accumulated, `maxLinks` per visited profile. */
  method VisitProfiles(st: Store, profiles: seq<string>, start: nat, maxLinks: int,
                       pausedAt: nat -> bool, pageAt: nat -> ProfilePage)
    returns (stop: nat, count: int)
    requires start <= |profiles|
    modifies st
    ensures stop == StopIndex(|profiles|, start, pausedAt)
    ensures count == Estimate(maxLinks, start, stop)
    ensures TargetsIn(st.items) == CollectedTargets(TargetsIn(old(st.items)), profiles, start, stop, maxLinks, pageAt)
    ensures st.items - {TargetProfiles} == old(st.items) - {TargetProfiles}
  {
    var i := start;
    count := 0;
    while i < |profiles|
      invariant start <= i <= StopIndex(|profiles|, start, pausedAt)
      invariant count == Estimate(maxLinks, start, i)
      invariant TargetsIn(st.items) == CollectedTargets(TargetsIn(old(st.items)), profiles, start, i, maxLinks, pageAt)
      invariant st.items - {TargetProfiles} == old(st.items) - {TargetProfiles}
    {
      if pausedAt(i) {
        break;
      }
      StopIndexPast(|profiles|, start, pausedAt, i);
      assert Estimate(maxLinks, start, i + 1) == count + maxLinks;
      count := count + maxLinks;
      VisitNext(st, TargetsIn(old(st.items)), profiles, start, i, maxLinks, pageAt);
      i := i + 1;
    }
    StopIndexAt(|profiles|, start, pausedAt, i);
    stop := i;
  }

  /** One iteration of the loop above: visiting profile `i` extends the collected targets. */
  method VisitNext(st: Store, ghost stored: seq<Target>, profiles: seq<string>, start: nat, i: nat,
                   maxLinks: int, pageAt: nat -> ProfilePage)
    requires start <= i < |profiles|
    requires TargetsIn(st.items) == CollectedTargets(stored, profiles, start, i, maxLinks, pageAt)
    modifies st
    ensures TargetsIn(st.items) == CollectedTargets(stored, profiles, start, i + 1, maxLinks, pageAt)
    ensures st.items - {TargetProfiles} == old(st.items) - {TargetProfiles}
  {
    VisitProfile(st, profiles[i], pageAt(i), maxLinks);
  }

  /** `collectLinksHandler(message)`: the count it reports with "collection-complete" is
      `maxLinks` for each profile visited before the pause, or 0 when `startIndex` is past
      the end of the list. */
  method CollectLinks(st: Store, maxLinksMessage: Option<int>, startIndex: nat,
                      pausedAt: nat -> bool, pageAt: nat -> ProfilePage)
    returns (count: int)
    modifies st
    ensures var n := |ProfilesIn(old(st.items))|;
      count == if startIndex < n then Estimate(EffectiveMaxLinks(maxLinksMessage), startIndex, StopIndex(n, startIndex, pausedAt)) else 0
    ensures startIndex < |ProfilesIn(old(st.items))| ==>
      TargetsIn(st.items) == CollectedTargets(TargetsIn(old(st.items)), ProfilesIn(old(st.items)), startIndex,
                                              StopIndex(|ProfilesIn(old(st.items))|, startIndex, pausedAt),
                                              EffectiveMaxLinks(maxLinksMessage), pageAt)
    ensures startIndex >= |ProfilesIn(old(st.items))| ==> st.items == old(st.items)
    ensures st.items - {TargetProfiles} == old(st.items) - {TargetProfiles}
  {
    var profiles := ProfilesIn(st.items);
    var maxLinks := EffectiveMaxLinks(maxLinksMessage);
    count := 0;
    if startIndex < |profiles| {
      var stop;
      stop, count := VisitProfiles(st, profiles, startIndex, maxLinks, pausedAt, pageAt);
    }
  }

  // ---------------------------------------------------------------------------
  // addLinkHandler: merge comma-separated links into the seed profile list

  /** `message.links.split(",").filter(isValidUrl)`; URL validity is left abstract. */
  function NewLinks(links: string, isValidUrl: string -> bool): (r: seq<string>)
    ensures forall i :: 0 <= i < |r| ==> isValidUrl(r[i]) && ',' !in r[i]
  {
    var r := Filter(Split(links, ','), isValidUrl);
    assert forall i :: 0 <= i < |r| ==> r[i] in Split(links, ',');
    r
  }

  /** `[...new Set([...profiles, ...newLinks])]` */
  function MergedProfiles(profiles: seq<string>, newLinks: seq<string>): seq<string> {
    Dedupe(profiles + newLinks)
  }

  /** Merging keeps a duplicate-free profile list as it is, in front, and appends each new
      link it lacked once, in the order the links first appear. */
  lemma MergedProfilesSpec(profiles: seq<string>, newLinks: seq<string>)
    requires Distinct(profiles)
    ensures MergedProfiles(profiles, newLinks) == profiles + Dedupe(Excluding(newLinks, profiles))
    ensures Distinct(MergedProfiles(profiles, newLinks))
    ensures forall i :: 0 <= i < |newLinks| ==> newLinks[i] in MergedProfiles(profiles, newLinks)
  {
    DedupeAfterDistinct(profiles, newLinks);
    DedupeSpec(profiles + newLinks);
    forall i | 0 <= i < |newLinks| ensures newLinks[i] in MergedProfiles(profiles, newLinks) {
      assert (profiles + newLinks)[|profiles| + i] == newLinks[i];
    }
  }

  /** `addLinkHandler(message)`: stores the merged profile list and answers "Done". */
  method AddLinks(st: Store, links: string, isValidUrl: string -> bool) returns (reply: string)
    modifies st
    ensures reply == "Done"
    ensures st.items == old(st.items)[UserProfileLinks := TextList(MergedProfiles(ProfilesIn(old(st.items)), NewLinks(links, isValidUrl)))]
  {
    var profiles := ProfilesIn(st.items);
    var newLinks := NewLinks(links, isValidUrl);
    var updated := MergedProfiles(profiles, newLinks);
    st.items := st.items[UserProfileLinks := TextList(updated)];
    reply := "Done";
  }

  // ---------------------------------------------------------------------------
  // sendMessagesHandler: one attempt per queued target, then storage is cleared

  /** `name.split(' ')[0]`: the text before the first space. */
  function FirstName(name: string): (r: string)
    ensures r <= name && ' ' !in r
    ensures |r| < |name| ==> name[|r|] == ' '
  {
    var parts := Split(name, ' ');
    if |parts| == 1 then parts[0]
    else
      assert name == parts[0] + [' '] + Join(parts[1..], ' ');
      assert name[|parts[0]|] == ' ';
      parts[0]
  }

  /** `target.companyName || "Unknown"` */
  function CompanyOrDefault(companyName: string): (r: string)
    ensures companyName != "" ==> r == companyName
    ensures companyName == "" ==> r == "Unknown"
  {
    if companyName == "" then "Unknown" else companyName
  }

  /** `target.jobTitle || "Professional"` */
  function JobTitleOrDefault(jobTitle: Option<string>): (r: string)
    ensures jobTitle.Some? && jobTitle.value != "" ==> r == jobTitle.value
    ensures jobTitle.None? || jobTitle.value == "" ==> r == "Professional"
  {
    if jobTitle.None? || jobTitle.value == "" then "Professional" else jobTitle.value
  }

  /** The `messageData` object as written: it has no `originLinkedInUrl` field, so the
      content script sees `undefined` there. */
  function MessageDataAsWritten(t: Target, template: Option<string>): MessageData {
    MessageData(t.origin, None, FirstName(t.connection.name), t.connection.name,
                CompanyOrDefault(t.companyName), JobTitleOrDefault(t.jobTitle), t.connection.url, template)
  }

  /** The `messageData` the built-in templates call for: `originLinkedInUrl` is the seed
      profile the target was found on. */
  function MessageDataFor(t: Target, template: Option<string>): MessageData {
    MessageDataAsWritten(t, template).(originLinkedInUrl := Some(t.connection.originUrl))
  }

  /** What each field of the message data holds. */
  lemma MessageDataForSpec(t: Target, template: Option<string>)
    ensures var d := MessageDataFor(t, template);
      && d.originFullName == t.origin && d.originLinkedInUrl == Some(t.connection.originUrl)
      && d.fullName == t.connection.name && d.connectionLinkedInUrl == t.connection.url
      && d.firstName <= t.connection.name && ' ' !in d.firstName
      && (|d.firstName| < |t.connection.name| ==> t.connection.name[|d.firstName|] == ' ')
      && d.companyName == (if t.companyName == "" then "Unknown" else t.companyName)
      && d.jobTitle == (if t.jobTitle.None? || t.jobTitle.value == "" then "Professional" else t.jobTitle.value)
      && d.messageTemplate == template
  {
  }

  /** The data the target check rejects: no URL or no name. */
  predicate MissingData(t: Target) {
    t.connection.url == "" || t.connection.name == ""
  }

  /** What happened to one target after its tab was opened: the tab was gone after loading,
      a call threw, or the content script replied. */
  datatype Attempt = TabGone | Threw | Replied(reply: Reply)

  /** The status mapping as written: `msg` is compared with the strings "Done" and
      "Skipped", so only a bare text reply can match. */
  function StatusAsWritten(msg: Reply): Status {
    if msg == TextReply("Done") then Sent
    else if msg == TextReply("Skipped") then Skipped
    else Failed
  }

  /** The removal test as written: `msg === "Done" || msg === "Skipped"`. */
  predicate RemovesAsWritten(msg: Reply) {
    msg == TextReply("Done") || msg == TextReply("Skipped")
  }

  /** The content script answers with `{ result }`: as written, every such answer, even
      "Done", marks the target failed and removes nothing. */
  lemma ResultObjectAlwaysFails(result: string)
    ensures StatusAsWritten(ResultObject(result)) == Failed
    ensures !RemovesAsWritten(ResultObject(result))
  {
  }

  /** The outcome text in a reply: the text itself, or the `result` field of the object
      the content script sends. */
  function ReplyText(reply: Reply): Option<string> {
    match reply
    case TextReply(t) => Some(t)
    case ResultObject(r) => Some(r)
    case ErrorObject(_) => None
    case ThrownError => None
    case PageData => None
    case NoResponse => None
  }

  /** The status mapping reading the outcome text. */
  function ReplyStatus(reply: Reply): (s: Status)
    ensures s == Sent <==> ReplyText(reply) == Some("Done")
    ensures s == Skipped <==> ReplyText(reply) == Some("Skipped")
    ensures s == Failed <==> ReplyText(reply) != Some("Done") && ReplyText(reply) != Some("Skipped")
  {
    match ReplyText(reply)
    case Some(t) => if t == "Done" then Sent else if t == "Skipped" then Skipped else Failed
    case None => Failed
  }

  /** A target leaves the queue only when it was sent or skipped. */
  predicate Removes(reply: Reply) {
    ReplyStatus(reply) == Sent || ReplyStatus(reply) == Skipped
  }

  /** On bare text replies the corrected mapping is the one written. */
  lemma ReplyStatusOnText(t: string)
    ensures ReplyStatus(TextReply(t)) == StatusAsWritten(TextReply(t))
    ensures Removes(TextReply(t)) <==> RemovesAsWritten(TextReply(t))
  {
  }

  /** The content script's real answers now reach `Sent` and `Skipped`. */
  lemma ReplyStatusOnResult(result: string)
    ensures ReplyStatus(ResultObject(result)) == ReplyStatus(TextReply(result))
    ensures Removes(ResultObject(result)) <==> result == "Done" || result == "Skipped"
  {
  }

  /** The target after its attempt: `target.status` is set unless the target was skipped for
      missing data or its tab was gone. */
  function Mark(t: Target, a: Attempt): Target {
    if MissingData(t) then t
    else match a
      case TabGone => t
      case Threw => t.(status := FailedError)
      case Replied(reply) => t.(status := ReplyStatus(reply))
  }

  /** Only the status changes: to "Failed (Error)" after a throw, to the reply's status
      after a reply, and not at all for a skipped target or a vanished tab. */
  lemma MarkSpec(t: Target, a: Attempt)
    ensures Mark(t, a) == t.(status := Mark(t, a).status)
    ensures MissingData(t) || a.TabGone? ==> Mark(t, a) == t
    ensures !MissingData(t) && a.Threw? ==> Mark(t, a).status == FailedError
    ensures !MissingData(t) && a.Replied? ==> Mark(t, a).status == ReplyStatus(a.reply)
  {
  }

  /** The stored target list after one attempt: the marked target is saved, and removed
      again when it was sent or skipped. */
  function StoreStep(stored: seq<Target>, t: Target, a: Attempt): seq<Target> {
    if MissingData(t) || a.TabGone? then stored
    else
      var saved := WithTarget(stored, Mark(t, a));
      if a.Replied? && Removes(a.reply) then WithoutUrl(saved, t.connection.url) else saved
  }

  /** The attempt for target `i`: the observation sees the message data sent with it. */
  function AttemptOf(i: nat, t: Target, template: Option<string>, attemptAt: (nat, MessageData) -> Attempt): Attempt {
    attemptAt(i, MessageDataFor(t, template))
  }

  /** The stored list after attempts on `ts[..k]`. */
  function StoreAfter(stored: seq<Target>, ts: seq<Target>, k: nat, template: Option<string>,
                      attemptAt: (nat, MessageData) -> Attempt): seq<Target>
    requires k <= |ts|
    decreases k
  {
    if k == 0 then stored
    else StoreStep(StoreAfter(stored, ts, k - 1, template, attemptAt), ts[k - 1], AttemptOf(k - 1, ts[k - 1], template, attemptAt))
  }

  /** The in-memory list after marking `ts[..k]`. */
  function MarkedUpTo(ts: seq<Target>, k: nat, template: Option<string>, attemptAt: (nat, MessageData) -> Attempt): (r: seq<Target>)
    requires k <= |ts|
    ensures |r| == |ts|
    ensures forall j :: 0 <= j < k ==> r[j] == Mark(ts[j], AttemptOf(j, ts[j], template, attemptAt))
    ensures forall j :: k <= j < |ts| ==> r[j] == ts[j]
    decreases k
  {
    if k == 0 then ts
    else MarkedUpTo(ts, k - 1, template, attemptAt)[k - 1 := Mark(ts[k - 1], AttemptOf(k - 1, ts[k - 1], template, attemptAt))]
  }

  /** The URLs removed by the attempts on `ts[..k]`. */
  function RemovedUrls(ts: seq<Target>, k: nat, template: Option<string>, attemptAt: (nat, MessageData) -> Attempt): (r: set<string>)
    requires k <= |ts|
    ensures forall u :: u in r ==> exists j :: 0 <= j < k && ts[j].connection.url == u
    decreases k
  {
    if k == 0 then {}
    else
      var t := ts[k - 1];
      var a := AttemptOf(k - 1, t, template, attemptAt);
      RemovedUrls(ts, k - 1, template, attemptAt)
        + (if !MissingData(t) && a.Replied? && Removes(a.reply) then {t.connection.url} else {})
  }

  /** One attempt on a target whose URL is still stored leaves exactly the removal: the
      status write goes to `saveTarget`, which ignores a URL it already has. */
  lemma StoreStepOnStored(stored: seq<Target>, t: Target, a: Attempt)
    requires HasUrl(stored, t.connection.url)
    ensures StoreStep(stored, t, a) ==
      if !MissingData(t) && a.Replied? && Removes(a.reply) then WithoutUrl(stored, t.connection.url) else stored
  {
  }

  /** With distinct URLs in the queue, the messaging run changes the stored list only by
      removing the targets that were sent or skipped: no status ever reaches storage. */
  lemma {:induction false} StoreAfterRemovesOnly(ts: seq<Target>, k: nat, template: Option<string>,
                                                  attemptAt: (nat, MessageData) -> Attempt)
    requires k <= |ts|
    requires DistinctUrls(ts)
    ensures StoreAfter(ts, ts, k, template, attemptAt) == WithoutUrls(ts, RemovedUrls(ts, k, template, attemptAt))
    decreases k
  {
    if k == 0 {
      WithoutUrlsAbsent(ts, {});
    } else {
      StoreAfterRemovesOnly(ts, k - 1, template, attemptAt);
      StoreAfterRemovesOnlyStep(ts, k - 1, template, attemptAt);
    }
  }

  lemma StoreAfterRemovesOnlyStep(ts: seq<Target>, n: nat, template: Option<string>,
                                  attemptAt: (nat, MessageData) -> Attempt)
    requires n < |ts|
    requires DistinctUrls(ts)
    requires StoreAfter(ts, ts, n, template, attemptAt) == WithoutUrls(ts, RemovedUrls(ts, n, template, attemptAt))
    ensures StoreAfter(ts, ts, n + 1, template, attemptAt) == WithoutUrls(ts, RemovedUrls(ts, n + 1, template, attemptAt))
  {
    var t := ts[n];
    var a := AttemptOf(n, t, template, attemptAt);
    var removed := RemovedUrls(ts, n, template, attemptAt);
    var stored := WithoutUrls(ts, removed);
    assert t.connection.url !in removed by {
      assert forall j :: 0 <= j < n ==> ts[j].connection.url != t.connection.url;
    }
    assert HasUrl(stored, t.connection.url) by {
      WithoutUrlsMembership(ts, removed, t);
    }
    StoreStepOnStored(stored, t, a);
    if !MissingData(t) && a.Replied? && Removes(a.reply) {
      WithoutUrlsTwice(ts, removed, {t.connection.url});
    } else {
      assert removed + {} == removed;
    }
  }

  /** One iteration of the loop body: skip a target without URL or name; otherwise open
      its tab, send the message data, map the reply to a status, save, and remove the
      target when it was sent or skipped. */
  method SendOne(st: Store, i: nat, t: Target, template: Option<string>, attemptAt: (nat, MessageData) -> Attempt)
    returns (updated: Target)
    modifies st
    ensures updated == Mark(t, AttemptOf(i, t, template, attemptAt))
    ensures TargetsIn(st.items) == StoreStep(TargetsIn(old(st.items)), t, AttemptOf(i, t, template, attemptAt))
    ensures st.items - {TargetProfiles} == old(st.items) - {TargetProfiles}
  {
    updated := t;
    if t.connection.url == "" || t.connection.name == "" {
      return;
    }
    var data := MessageDataFor(t, template);
    match attemptAt(i, data)
    case TabGone =>
    case Threw =>
      updated := updated.(status := FailedError);
      SaveTarget(st, updated);
    case Replied(reply) =>
      updated := updated.(status := ReplyStatus(reply));
      SaveTarget(st, updated);
      if Removes(reply) {
        RemoveTarget(st, updated.connection.url);
      }
  }

  /** The `for` loop of `sendMessagesHandler` over the targets read at the start, stopping at
      the first iteration that sees the pause flag. Returns where it stopped and the
      in-memory targets with their statuses set. */
  method SendAll(st: Store, template: Option<string>, pausedAt: nat -> bool, attemptAt: (nat, MessageData) -> Attempt)
    returns (stop: nat, targets: seq<Target>)
    modifies st
    ensures stop == StopIndex(|TargetsIn(old(st.items))|, 0, pausedAt)
    ensures targets == MarkedUpTo(TargetsIn(old(st.items)), stop, template, attemptAt)
    ensures TargetsIn(st.items) == StoreAfter(TargetsIn(old(st.items)), TargetsIn(old(st.items)), stop, template, attemptAt)
    ensures st.items - {TargetProfiles} == old(st.items) - {TargetProfiles}
  {
    targets := GetTargets(st);
    ghost var queued := targets;
    var i := 0;
    while i < |targets|
      invariant i <= StopIndex(|queued|, 0, pausedAt)
      invariant targets == MarkedUpTo(queued, i, template, attemptAt)
      invariant TargetsIn(st.items) == StoreAfter(queued, queued, i, template, attemptAt)
      invariant st.items - {TargetProfiles} == old(st.items) - {TargetProfiles}
    {
      if pausedAt(i) {
        break;
      }
      assert i + 1 <= StopIndex(|queued|, 0, pausedAt);
      assert targets[i] == queued[i];
      var updated := SendOne(st, i, targets[i], template, attemptAt);
      targets := targets[i := updated];
      i := i + 1;
    }
    StopIndexAt(|queued|, 0, pausedAt, i);
    stop := i;
  }

  /** `sendMessagesHandler(messageTemplate)`: the loop, then `chrome.storage.local.clear()`. */
  method SendMessages(st: Store, template: Option<string>, pausedAt: nat -> bool, attemptAt: (nat, MessageData) -> Attempt)
    returns (targets: seq<Target>)
    modifies st
    ensures targets == MarkedUpTo(TargetsIn(old(st.items)), StopIndex(|TargetsIn(old(st.items))|, 0, pausedAt), template, attemptAt)
    ensures st.items == map[]
  {
    var stop;
    stop, targets := SendAll(st, template, pausedAt, attemptAt);
    st.Clear();
  }

  /** The "send-messages" case of the listener: `sendMessagesHandler(message.messageTemplate)`,
      then the reply "Messages sent". */
  method HandleSendMessages(st: Store, request: SendMessagesRequest, pausedAt: nat -> bool,
                            attemptAt: (nat, MessageData) -> Attempt)
    returns (targets: seq<Target>, reply: Reply)
    modifies st
    ensures targets == MarkedUpTo(TargetsIn(old(st.items)), StopIndex(|TargetsIn(old(st.items))|, 0, pausedAt),
                                  request.messageTemplate, attemptAt)
    ensures st.items == map[]
    ensures reply == TextReply("Messages sent")
  {
    targets := SendMessages(st, request.messageTemplate, pausedAt, attemptAt);
    reply := TextReply("Messages sent");
  }
}
