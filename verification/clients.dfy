/** `routers clients`: the LAN clients of the online routers, joined with
    DHCP hostnames and (verbose) WiFi statistics by MAC address
    (`Clients.run`, `make_dns_getter` and `make_wifi_getter` in
    ecmcli/commands/routers.py). */
module RoutersClients {
  import opened Outcomes
  import opened Text
  import opened Api
  import opened Selection
  import opened Joins
  import opened MacVendor

  /** An entry of /status/lan/clients. */
  datatype LanClient = LanClient(mac: string, ipAddress: string)

  /** An entry of /status/dhcpd/leases. */
  datatype Lease = Lease(mac: string, hostname: string)

  /** An entry of /status/wlan/clients; absent statistics are `None`. */
  datatype WlanClient = WlanClient(mac: string, rssi0: Option<string>, txrate: Option<string>)

  /** A LAN client tagged with the name of the router that reported it. */
  datatype Tagged = Tagged(router: string, client: LanClient)

  /** One line of the clients table. `hardware` carries the vendor lookup,
      which may raise; `signal` and `speed` are present only in verbose mode. */
  datatype ClientRow = ClientRow(
    router: string, ipAddress: string, hostname: string, mac: string,
    hardware: Result<Option<string>>, signal: Option<string>, speed: Option<string>)

  const LanPath := "/status/lan/clients"
  const LeasePath := "/status/dhcpd/leases"
  const WlanPath := "/status/wlan/clients"

  /** What the table shows for an absent WiFi statistic. */
  const NotAvailable := "<dim>n/a</dim>"

  function LanMac(c: LanClient): string { c.mac }
  function LeaseMac(l: Lease): string { l.mac }
  function LeaseHostname(l: Lease): string { l.hostname }
  function WlanMac(w: WlanClient): string { w.mac }
  function WlanRecord(w: WlanClient): WlanClient { w }
  function RouterId(r: Router): string { r.id }
  function RouterName(r: Router): string { r.name }

  predicate IsOnline(r: Router) {
    r.state == "online"
  }

  /** The routers whose state is online, in order. */
  function Online(rs: seq<Router>): (on: seq<Router>)
    ensures forall r :: r in on <==> r in rs && IsOnline(r)
  {
    if |rs| == 0 then []
    else
      var front := Online(rs[..|rs| - 1]);
      var last := rs[|rs| - 1];
      assert rs == rs[..|rs| - 1] + [last];
      front + (if IsOnline(last) then [last] else [])
  }

  /** Filtering is order-preserving: the online routers of a concatenation are
      those of the first part followed by those of the second. */
  lemma {:induction false} OnlineConcat(a: seq<Router>, b: seq<Router>)
    ensures Online(a + b) == Online(a) + Online(b)
    decreases |b|
  {
    if |b| == 0 {
      assert a + b == a;
    } else {
      var b' := b[..|b| - 1];
      assert (a + b)[..|a + b| - 1] == a + b';
      OnlineConcat(a, b');
    }
  }

  /** A single router is kept exactly when it is online. */
  lemma OnlineSingle(r: Router)
    ensures Online([r]) == if IsOnline(r) then [r] else []
  {
    assert [r][..0] == [];
  }

  /** `ids = dict((x['id'], x['name']) for x in routers if x['state'] == 'online')`. */
  function OnlineNames(rs: seq<Router>): map<string, string>
  {
    Assoc(Online(rs), RouterId, RouterName)
  }

  /** The id-to-name mapping holds exactly the ids of online routers, and for
      each such id the name of the last online router carrying it. */
  lemma OnlineNamesAreOnlineRouters(rs: seq<Router>, id: string)
    ensures id in OnlineNames(rs) <==> exists r :: r in rs && IsOnline(r) && r.id == id
    ensures id in OnlineNames(rs) ==>
      OnlineNames(rs)[id] == Last(Online(rs), RouterId, id).value.name
  {
    var on := Online(rs);
    AssocIsLast(on, RouterId, RouterName, id);
    forall r | r in rs && IsOnline(r) && r.id == id
      ensures id in OnlineNames(rs)
    {
      assert r in on;
      var i :| 0 <= i < |on| && on[i] == r;
      assert RouterId(on[i]) == id;
    }
    if id in OnlineNames(rs) {
      var i :| 0 <= i < |on| && RouterId(on[i]) == id;
      assert on[i] in on;
    }
  }

  /** The keys of a dict, each once. Python 3.4 leaves dict order unspecified;
      the model lists the keys by first occurrence and promises only the
      set of keys and the absence of repeats. */
  function FirstOccurrences(keys: seq<string>): (order: seq<string>)
    ensures forall k :: k in order <==> k in keys
    ensures forall i, j :: 0 <= i < j < |order| ==> order[i] != order[j]
  {
    if |keys| == 0 then []
    else
      var front := FirstOccurrences(keys[..|keys| - 1]);
      var last := keys[|keys| - 1];
      assert keys == keys[..|keys| - 1] + [last];
      if last in front then front else front + [last]
  }

  /** The ids of the online routers in the order `','.join(ids)` lists them. */
  function OnlineIdOrder(rs: seq<Router>): (order: seq<string>)
    ensures forall id :: id in order <==> id in OnlineNames(rs)
    ensures forall i, j :: 0 <= i < j < |order| ==> order[i] != order[j]
  {
    var on := Online(rs);
    var ids := seq(|on|, i requires 0 <= i < |on| => on[i].id);
    assert forall id :: id in OnlineNames(rs) <==> id in ids by {
      forall id ensures id in OnlineNames(rs) <==> id in ids {
        AssocIsLast(on, RouterId, RouterName, id);
        if id in ids {
          var i :| 0 <= i < |ids| && ids[i] == id;
          assert RouterId(on[i]) == id;
        }
        if id in OnlineNames(rs) {
          var i :| 0 <= i < |on| && RouterId(on[i]) == id;
          assert ids[i] == id;
        }
      }
    }
    FirstOccurrences(ids)
  }

  /** Whether tagging the clients of these responses meets a router missing
      from `names`: a successful response with at least one client whose id
      is not a key. */
  predicate HasUnknownRouter(pages: seq<Response<LanClient>>, names: map<string, string>) {
    exists j :: 0 <= j < |pages| && pages[j].success && |pages[j].data| > 0 &&
      DecimalString(pages[j].id) !in names
  }

  /** The loop over the LAN-client responses in `Clients.run`: skip the
      unsuccessful ones, tag every client with `ids[str(response['id'])]` and
      append it; an unknown router id raises KeyError. */
  function TagClients(pages: seq<Response<LanClient>>, names: map<string, string>): Result<seq<Tagged>>
  {
    if |pages| == 0 then Ok([])
    else
      var front :- TagClients(pages[..|pages| - 1], names);
      var p := pages[|pages| - 1];
      var key := DecimalString(p.id);
      if !p.success then Ok(front)
      else if |p.data| > 0 && key !in names then Err(KeyError(key))
      else Ok(front + seq(|p.data|, i requires 0 <= i < |p.data| => Tagged(names[key], p.data[i])))
  }

  /** Tagging fails exactly when some successful response with clients comes
      from a router missing from `names`, and then with the KeyError of the
      first such response. */
  lemma {:induction false} TagClientsFails(pages: seq<Response<LanClient>>, names: map<string, string>)
    ensures TagClients(pages, names).Err? <==> HasUnknownRouter(pages, names)
    ensures TagClients(pages, names).Err? ==>
      exists j :: 0 <= j < |pages| && pages[j].success && |pages[j].data| > 0 &&
        DecimalString(pages[j].id) !in names &&
        TagClients(pages, names).error == KeyError(DecimalString(pages[j].id)) &&
        !HasUnknownRouter(pages[..j], names)
    decreases |pages|
  {
    if |pages| > 0 {
      var n := |pages| - 1;
      var front := pages[..n];
      var p := pages[n];
      TagClientsFails(front, names);
      if TagClients(front, names).Err? {
        var j :| 0 <= j < |front| && front[j].success && |front[j].data| > 0 &&
          DecimalString(front[j].id) !in names &&
          TagClients(front, names).error == KeyError(DecimalString(front[j].id)) &&
          !HasUnknownRouter(front[..j], names);
        assert front[j] == pages[j] && front[..j] == pages[..j];
        assert TagClients(pages, names) == TagClients(front, names);
        assert HasUnknownRouter(pages, names);
      } else if p.success && |p.data| > 0 && DecimalString(p.id) !in names {
        assert TagClients(pages, names) == Err(KeyError(DecimalString(p.id)));
        assert pages[..n] == front && !HasUnknownRouter(pages[..n], names);
        assert HasUnknownRouter(pages, names);
      } else {
        assert TagClients(pages, names).Ok?;
        forall j | 0 <= j < |pages| && pages[j].success && |pages[j].data| > 0
          ensures DecimalString(pages[j].id) in names
        {
          if j < n {
            assert front[j] == pages[j];
          }
        }
        assert !HasUnknownRouter(pages, names);
      }
    }
  }

  /** A successful tagging keeps exactly the clients of the successful
      responses, in response order. */
  lemma {:induction false} TagClientsKeepsClients(pages: seq<Response<LanClient>>, names: map<string, string>)
    requires TagClients(pages, names).Ok?
    ensures ClientsOf(TagClients(pages, names).value) == SuccessfulData(pages)
    decreases |pages|
  {
    if |pages| > 0 {
      var n := |pages| - 1;
      var front := pages[..n];
      TagClientsKeepsClients(front, names);
      var p := pages[n];
      var frontRows := TagClients(front, names).value;
      if p.success {
        var page := seq(|p.data|, i requires 0 <= i < |p.data| => Tagged(names[DecimalString(p.id)], p.data[i]));
        assert TagClients(pages, names).value == frontRows + page;
        ClientsOfConcat(frontRows, page);
        assert ClientsOf(page) == p.data;
      } else {
        assert SuccessfulData(pages) == SuccessfulData(front) + [];
      }
    }
  }

  /** Each row of a successful tagging carries the name `names` gives the id
      of the response its client came from. */
  lemma {:induction false} TagClientsTagsByOrigin(pages: seq<Response<LanClient>>, names: map<string, string>)
    requires TagClients(pages, names).Ok?
    ensures var rows := TagClients(pages, names).value;
      var origins := SuccessfulOrigins(pages);
      |rows| == |origins| &&
      forall i :: 0 <= i < |rows| ==>
        DecimalString(origins[i]) in names && rows[i].router == names[DecimalString(origins[i])]
    decreases |pages|
  {
    if |pages| > 0 {
      var n := |pages| - 1;
      var front := pages[..n];
      TagClientsTagsByOrigin(front, names);
      var p := pages[n];
      var rows := TagClients(pages, names).value;
      var frontRows := TagClients(front, names).value;
      var origins := SuccessfulOrigins(pages);
      var frontOrigins := SuccessfulOrigins(front);
      if p.success {
        var key := DecimalString(p.id);
        var page := seq(|p.data|, i requires 0 <= i < |p.data| => Tagged(names[key], p.data[i]));
        assert rows == frontRows + page;
        assert origins == frontOrigins + seq(|p.data|, _ => p.id);
        forall i | 0 <= i < |rows|
          ensures DecimalString(origins[i]) in names && rows[i].router == names[DecimalString(origins[i])]
        {
          if i < |frontRows| {
            assert origins[i] == frontOrigins[i] && rows[i] == frontRows[i];
          } else {
            assert origins[i] == p.id && rows[i] == page[i - |frontRows|];
          }
        }
      } else {
        assert origins == frontOrigins + [];
      }
    }
  }

  /** The clients inside tagged rows, in order. */
  function ClientsOf(ts: seq<Tagged>): (cs: seq<LanClient>)
    ensures |cs| == |ts|
    ensures forall i :: 0 <= i < |ts| ==> cs[i] == ts[i].client
  {
    seq(|ts|, i requires 0 <= i < |ts| => ts[i].client)
  }

  lemma ClientsOfConcat(a: seq<Tagged>, b: seq<Tagged>)
    ensures ClientsOf(a + b) == ClientsOf(a) + ClientsOf(b)
  {
  }

  /** `make_dns_getter(ids)(client)`: the hostname of the client's MAC from
      the merged lease pages, or '' when no lease names it. */
  function Hostname(leases: seq<Response<Lease>>, mac: string): (h: string)
    ensures h == match Last(SuccessfulData(leases), LeaseMac, mac)
      case Some(l) => l.hostname
      case None => ""
  {
    var dns := PagedAssoc(leases, LeaseMac, LeaseHostname);
    PagedAssocIsLast(leases, LeaseMac, LeaseHostname, mac);
    if mac in dns then dns[mac] else ""
  }

  /** `make_wifi_getter(ids)(client)`: the WiFi record of the client's MAC from
      the merged pages; `None` stands for the `{}` default. */
  function WifiRecord(wlan: seq<Response<WlanClient>>, mac: string): (w: Option<WlanClient>)
    ensures w == Last(SuccessfulData(wlan), WlanMac, mac)
  {
    var wifi := PagedAssoc(wlan, WlanMac, WlanRecord);
    PagedAssocIsLast(wlan, WlanMac, WlanRecord, mac);
    if mac in wifi then Some(wifi[mac]) else None
  }

  /** A later successful lease page that names a MAC overrides what earlier
      pages said about it: the hostname is that of the page's last lease for
      the MAC. */
  lemma LaterLeaseWins(leases: seq<Response<Lease>>, id: int, data: seq<Lease>, mac: string)
    requires Last(data, LeaseMac, mac).Some?
    ensures Hostname(leases + [Response(id, true, data)], mac) == Last(data, LeaseMac, mac).value.hostname
  {
    var pages := leases + [Response(id, true, data)];
    assert pages[..|pages| - 1] == leases;
    assert SuccessfulData(pages) == SuccessfulData(leases) + data;
    LastOfConcat(SuccessfulData(leases), data, LeaseMac, mac);
  }

  /** A lease page that reports failure contributes nothing. */
  lemma FailedLeasePageIgnored(leases: seq<Response<Lease>>, id: int, data: seq<Lease>, mac: string)
    ensures Hostname(leases + [Response(id, false, data)], mac) == Hostname(leases, mac)
  {
    var pages := leases + [Response(id, false, data)];
    assert pages[..|pages| - 1] == leases;
    assert SuccessfulData(pages) == SuccessfulData(leases) + [];
    assert SuccessfulData(leases) + [] == SuccessfulData(leases);
  }

  /** One line of the table for a tagged client. */
  function Row(t: Tagged, leases: seq<Response<Lease>>, wlan: seq<Response<WlanClient>>,
               verbose: bool, db: MacDb): ClientRow
  {
    var mac := t.client.mac;
    ClientRow(
      t.router, t.client.ipAddress, Hostname(leases, mac), mac,
      MacLookup(mac, if verbose then Long else Short, db),
      if verbose then Some(WifiStat(wlan, mac, true)) else None,
      if verbose then Some(WifiStat(wlan, mac, false)) else None)
  }

  /** The `id__in` argument of the remote-status queries: `','.join(ids)`. */
  function IdIn(routers: seq<Router>): string {
    Join(OnlineIdOrder(routers), ',')
  }

  /** The table lines for tagged clients, in order. */
  function Rows(tagged: seq<Tagged>, leases: seq<Response<Lease>>, wlan: seq<Response<WlanClient>>,
                verbose: bool, db: MacDb): (rows: seq<ClientRow>)
    ensures |rows| == |tagged|
    ensures forall i :: 0 <= i < |tagged| ==> rows[i] == Row(tagged[i], leases, wlan, verbose, db)
  {
    seq(|tagged|, i requires 0 <= i < |tagged| => Row(tagged[i], leases, wlan, verbose, db))
  }

  /** The position of the first row whose vendor lookup raised, or the
      number of rows when none did. */
  function FirstLookupFailure(rows: seq<ClientRow>): (k: nat)
    ensures k <= |rows|
    ensures forall i :: 0 <= i < k ==> rows[i].hardware.Ok?
    ensures k < |rows| ==> rows[k].hardware.Err?
  {
    if |rows| == 0 then 0
    else if rows[0].hardware.Err? then 0
    else 1 + FirstLookupFailure(rows[1..])
  }

  /** `table.print(data)`: every row's columns are computed, and a vendor
      lookup that raises ends the printing with its ValueError. */
  function Listing(tagged: seq<Tagged>, leases: seq<Response<Lease>>, wlan: seq<Response<WlanClient>>,
                   verbose: bool, db: MacDb): (r: Result<seq<ClientRow>>)
    ensures r.Err? ==> r.error.ValueError?
    ensures r.Ok? ==> r.value == Rows(tagged, leases, wlan, verbose, db)
    ensures r.Ok? ==> forall i :: 0 <= i < |r.value| ==> r.value[i].hardware.Ok?
  {
    var rows := Rows(tagged, leases, wlan, verbose, db);
    var k := FirstLookupFailure(rows);
    if k < |rows| then
      assert rows[k] == Row(tagged[k], leases, wlan, verbose, db);
      Err(rows[k].hardware.error)
    else Ok(rows)
  }

  /** The listing fails exactly when some client's MAC has a prefix that is
      not hex, and then with the ValueError of the first such client. */
  lemma ListingFails(tagged: seq<Tagged>, leases: seq<Response<Lease>>, wlan: seq<Response<WlanClient>>,
                     verbose: bool, db: MacDb)
    ensures var r := Listing(tagged, leases, wlan, verbose, db);
      var cs := ClientsOf(tagged);
      && (r.Err? <==> exists i :: 0 <= i < |cs| && MacPrefix(cs[i].mac).Err?)
      && (r.Err? ==>
            exists k :: (0 <= k < |cs| && MacPrefix(cs[k].mac).Err? &&
                         (forall i :: 0 <= i < k ==> MacPrefix(cs[i].mac).Ok?) &&
                         r.error == ValueError(PrefixDigits(cs[k].mac))))
  {
    var cs := ClientsOf(tagged);
    var rows := Rows(tagged, leases, wlan, verbose, db);
    var form := if verbose then Long else Short;
    forall i | 0 <= i < |rows|
      ensures rows[i].hardware == MacLookup(cs[i].mac, form, db)
    {
      assert cs[i] == tagged[i].client;
    }
    var k := FirstLookupFailure(rows);
    if k < |rows| {
      assert MacPrefix(cs[k].mac).Err?;
    }
  }

  /** `Clients.run` once the routers are known: the id-to-name mapping of the
      online ones, then the LAN-client query, then the lease query and, in
      verbose mode, the WiFi query, all for the same `id__in`. Printing the
      table runs the vendor lookup on every row, so a MAC whose prefix is not
      hex ends the command with that ValueError after all the queries. The
      remote pagers are oracles from the `id__in` argument to the responses. */
  function ClientsFor(
    routers: seq<Router>, verbose: bool,
    lan: string -> seq<Response<LanClient>>, leases: string -> seq<Response<Lease>>,
    wlan: string -> seq<Response<WlanClient>>, db: MacDb): (run: Run<seq<ClientRow>>)
    ensures (forall r :: r in routers ==> !IsOnline(r)) ==> run == Run([], Err(NoOnlineRouters))
    ensures (exists r :: r in routers && IsOnline(r)) ==>
      var idIn := IdIn(routers);
      && (HasUnknownRouter(lan(idIn), OnlineNames(routers)) ==>
            && run.log == [Poll(LanPath, idIn)]
            && run.result.Err?
            && TagClients(lan(idIn), OnlineNames(routers)).Err?
            && run.result.error == TagClients(lan(idIn), OnlineNames(routers)).error
            && exists j :: (0 <= j < |lan(idIn)| && lan(idIn)[j].success && |lan(idIn)[j].data| > 0 &&
                            !HasUnknownRouter(lan(idIn)[..j], OnlineNames(routers)) &&
                            run.result.error == KeyError(DecimalString(lan(idIn)[j].id))))
      && (!HasUnknownRouter(lan(idIn), OnlineNames(routers)) ==>
            && run.log == [Poll(LanPath, idIn), Poll(LeasePath, idIn)]
                          + (if verbose then [Poll(WlanPath, idIn)] else [])
            && (run.result.Err? ==> run.result.error.ValueError?))
  {
    var names := OnlineNames(routers);
    NoOnlineMeansEmpty(routers);
    if |names| == 0 then Run([], Err(NoOnlineRouters))
    else
      var idIn := IdIn(routers);
      var tagged := TagClients(lan(idIn), names);
      TagClientsFails(lan(idIn), names);
      if tagged.Err? then Run([Poll(LanPath, idIn)], Err(tagged.error))
      else
        var wlanPages := if verbose then wlan(idIn) else [];
        Run([Poll(LanPath, idIn), Poll(LeasePath, idIn)] + (if verbose then [Poll(WlanPath, idIn)] else []),
            Listing(tagged.value, leases(idIn), wlanPages, verbose, db))
  }

  /** `Clients.run`: resolve the routers, then list their clients. A failed
      resolution ends the command with that error and only the fetches. */
  function ClientsRun(
    idents: seq<string>, resolve: Resolver, listing: seq<Router>, verbose: bool,
    lan: string -> seq<Response<LanClient>>, leases: string -> seq<Response<Lease>>,
    wlan: string -> seq<Response<WlanClient>>, db: MacDb): (run: Run<seq<ClientRow>>)
    ensures var sel := SelectRouters(idents, resolve, listing);
      sel.result.Err? ==> run == Run(sel.log, Err(sel.result.error))
    ensures var sel := SelectRouters(idents, resolve, listing);
      sel.result.Ok? ==>
        var rest := ClientsFor(sel.result.value, verbose, lan, leases, wlan, db);
        run == Run(sel.log + rest.log, rest.result)
  {
    var sel := SelectRouters(idents, resolve, listing);
    if sel.result.Err? then Run(sel.log, Err(sel.result.error))
    else
      var rest := ClientsFor(sel.result.value, verbose, lan, leases, wlan, db);
      Run(sel.log + rest.log, rest.result)
  }

  /** The `clients` command only reads: it never prompts, never prints a
      message and never writes. */
  lemma ClientsRunOnlyReads(
    idents: seq<string>, resolve: Resolver, listing: seq<Router>, verbose: bool,
    lan: string -> seq<Response<LanClient>>, leases: string -> seq<Response<Lease>>,
    wlan: string -> seq<Response<WlanClient>>, db: MacDb)
    ensures var log := ClientsRun(idents, resolve, listing, verbose, lan, leases, wlan, db).log;
      Requests(log) == [] && Prompts(log) == [] && Says(log) == []
  {
    var sel := SelectRouters(idents, resolve, listing);
    SelectionOnlyFetches(idents, resolve, listing);
    if sel.result.Ok? {
      var rest := ClientsFor(sel.result.value, verbose, lan, leases, wlan, db);
      ClientsForOnlyPolls(sel.result.value, verbose, lan, leases, wlan, db);
      ProjectionsOfConcat(sel.log, rest.log);
    }
  }

  /** Listing the clients of chosen routers only queries status. */
  lemma ClientsForOnlyPolls(
    routers: seq<Router>, verbose: bool,
    lan: string -> seq<Response<LanClient>>, leases: string -> seq<Response<Lease>>,
    wlan: string -> seq<Response<WlanClient>>, db: MacDb)
    ensures var log := ClientsFor(routers, verbose, lan, leases, wlan, db).log;
      Requests(log) == [] && Prompts(log) == [] && Says(log) == []
  {
    var log := ClientsFor(routers, verbose, lan, leases, wlan, db).log;
    if r :| r in routers && IsOnline(r) {
      var idIn := IdIn(routers);
      assert log == [Poll(LanPath, idIn)] || log == [Poll(LanPath, idIn), Poll(LeasePath, idIn)]
        || log == [Poll(LanPath, idIn), Poll(LeasePath, idIn), Poll(WlanPath, idIn)];
      PollsOnly(log);
    } else {
      assert log == [];
    }
  }

  /** A log of status queries holds no request, prompt or message. */
  lemma PollsOnly(log: seq<Event>)
    requires forall i :: 0 <= i < |log| ==> log[i].Poll?
    ensures Requests(log) == [] && Prompts(log) == [] && Says(log) == []
  {
    if |log| > 0 {
      PollsOnly(log[..|log| - 1]);
    }
  }

  /** When listing succeeds, it shows one line per client of a successful LAN
      response, in response order: the client's address, the name of the
      router whose response listed it, the hostname of the last lease for its
      MAC (or ''), its vendor, and in verbose mode its WiFi statistics from
      the last WiFi record for its MAC (or n/a). */
  lemma ClientsJoin(
    routers: seq<Router>, verbose: bool,
    lan: string -> seq<Response<LanClient>>, leases: string -> seq<Response<Lease>>,
    wlan: string -> seq<Response<WlanClient>>, db: MacDb)
    requires ClientsFor(routers, verbose, lan, leases, wlan, db).result.Ok?
    ensures var rows := ClientsFor(routers, verbose, lan, leases, wlan, db).result.value;
      var idIn := IdIn(routers);
      var kept := SuccessfulData(lan(idIn));
      var origins := SuccessfulOrigins(lan(idIn));
      && |rows| == |kept|
      && forall i :: 0 <= i < |rows| ==>
           && rows[i].mac == kept[i].mac && rows[i].ipAddress == kept[i].ipAddress
           && DecimalString(origins[i]) in OnlineNames(routers)
           && rows[i].router == OnlineNames(routers)[DecimalString(origins[i])]
           && rows[i].hostname == Hostname(leases(idIn), kept[i].mac)
           && rows[i].hardware.Ok?
           && rows[i].hardware == MacLookup(kept[i].mac, if verbose then Long else Short, db)
           && rows[i].signal == (if verbose then Some(WifiStat(wlan(idIn), kept[i].mac, true)) else None)
           && rows[i].speed == (if verbose then Some(WifiStat(wlan(idIn), kept[i].mac, false)) else None)
  {
    var idIn := IdIn(routers);
    var names := OnlineNames(routers);
    var tagged := TagClients(lan(idIn), names).value;
    var wlanPages := if verbose then wlan(idIn) else [];
    var rows := ClientsFor(routers, verbose, lan, leases, wlan, db).result.value;
    assert rows == Rows(tagged, leases(idIn), wlanPages, verbose, db);
    var kept := SuccessfulData(lan(idIn));
    TagClientsKeepsClients(lan(idIn), names);
    TagClientsTagsByOrigin(lan(idIn), names);
    forall i | 0 <= i < |rows|
      ensures rows[i] == Row(tagged[i], leases(idIn), wlanPages, verbose, db)
      ensures tagged[i].client == kept[i]
    {
      assert ClientsOf(tagged)[i] == tagged[i].client;
    }
  }

  /** With every router known, the listing fails exactly when some client of a
      successful LAN response has a MAC whose prefix is not hex, and then with
      the ValueError of the first such client, in response order. */
  lemma ClientsLookupFails(
    routers: seq<Router>, verbose: bool,
    lan: string -> seq<Response<LanClient>>, leases: string -> seq<Response<Lease>>,
    wlan: string -> seq<Response<WlanClient>>, db: MacDb)
    requires exists r :: r in routers && IsOnline(r)
    requires !HasUnknownRouter(lan(IdIn(routers)), OnlineNames(routers))
    ensures var run := ClientsFor(routers, verbose, lan, leases, wlan, db);
      var kept := SuccessfulData(lan(IdIn(routers)));
      && (run.result.Err? <==> exists i :: 0 <= i < |kept| && MacPrefix(kept[i].mac).Err?)
      && (run.result.Err? ==>
            exists k :: (0 <= k < |kept| && MacPrefix(kept[k].mac).Err? &&
                         (forall i :: 0 <= i < k ==> MacPrefix(kept[i].mac).Ok?) &&
                         run.result.error == ValueError(PrefixDigits(kept[k].mac))))
  {
    var idIn := IdIn(routers);
    var names := OnlineNames(routers);
    NoOnlineMeansEmpty(routers);
    TagClientsFails(lan(idIn), names);
    TagClientsKeepsClients(lan(idIn), names);
    var wlanPages := if verbose then wlan(idIn) else [];
    ListingFails(TagClients(lan(idIn), names).value, leases(idIn), wlanPages, verbose, db);
  }

  /** `wifi_getter(x).get('rssi0', na)` (`signal`) or `.get('txrate', na)`. */
  function WifiStat(wlan: seq<Response<WlanClient>>, mac: string, signal: bool): string
  {
    match WifiRecord(wlan, mac)
    case None => NotAvailable
    case Some(w) => (if signal then w.rssi0 else w.txrate).GetOr(NotAvailable)
  }

  lemma NoOnlineMeansEmpty(rs: seq<Router>)
    ensures |OnlineNames(rs)| == 0 <==> forall r :: r in rs ==> !IsOnline(r)
  {
    if r :| r in rs && IsOnline(r) {
      OnlineNamesAreOnlineRouters(rs, r.id);
    }
    if |OnlineNames(rs)| > 0 {
      var id :| id in OnlineNames(rs);
      OnlineNamesAreOnlineRouters(rs, id);
    }
  }
}
