/** Choosing the routers a command acts on (`reboot.py` and `Clients.run`):
    the routers named by the identifiers, resolved one by one, or the whole
    router listing when no identifier is given. */
module Selection {
  import opened Outcomes
  import opened Api

  /** The routers a command acts on: the named ones when identifiers are
      given, otherwise the whole router listing. */
  function SelectRouters(idents: seq<string>, resolve: Resolver, listing: seq<Router>): (run: Run<seq<Router>>)
    ensures |idents| == 0 ==> run == Run([], Ok(listing))
    ensures |idents| > 0 ==> run == ResolveAll(idents, resolve)
  {
    if |idents| > 0 then ResolveAll(idents, resolve) else Run([], Ok(listing))
  }

  /** Choosing the routers fetches nothing without identifiers and otherwise
      fetches the identifiers in order up to the first failure; the chosen
      routers are the listing or the resolved routers, one per identifier. */
  lemma SelectionFetches(idents: seq<string>, resolve: Resolver, listing: seq<Router>)
    ensures var run := SelectRouters(idents, resolve, listing);
      Fetched(run.log) == idents[..if |idents| == 0 then 0 else ResolvedCount(idents, resolve)]
    ensures var run := SelectRouters(idents, resolve, listing);
      run.result.Ok? ==> run.result.value == if |idents| == 0 then listing else Resolutions(idents, resolve)
  {
    var run := SelectRouters(idents, resolve, listing);
    if |idents| > 0 {
      if run.result.Ok? {
        FetchesOnlyFetch(idents);
        assert idents[..|idents|] == idents;
      } else {
        FetchesOnlyFetch(idents[..FirstFailure(idents, resolve) + 1]);
      }
    }
  }

  /** Choosing the routers resolves identifiers and does nothing else. */
  lemma SelectionOnlyFetches(idents: seq<string>, resolve: Resolver, listing: seq<Router>)
    ensures var log := SelectRouters(idents, resolve, listing).log;
      Requests(log) == [] && Prompts(log) == [] && Says(log) == [] && Polls(log) == []
  {
    var run := SelectRouters(idents, resolve, listing);
    if |idents| > 0 {
      if run.result.Ok? {
        FetchesOnlyFetch(idents);
      } else {
        FetchesOnlyFetch(idents[..FirstFailure(idents, resolve) + 1]);
      }
    }
  }
}
