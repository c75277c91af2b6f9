/** The `reboot` command (ecmcli/commands/reboot.py): choose the routers, then
    for each in order ask for confirmation unless forced and, when forced or
    confirmed, announce the reboot and send one fire-and-forget reboot request
    through the remote-control API. */
module Reboot {
  import opened Outcomes
  import opened Api
  import opened Seqs
  import opened Selection

  /** `"Reboot %s (%s)" % (x['name'], x['id'])`. */
  function RebootPrompt(r: Router): string {
    "Reboot " + r.name + " (" + r.id + ")"
  }

  /** `"Rebooting: %s (%s)" % (x['name'], x['id'])`. */
  function RebootingLine(r: Router): string {
    "Rebooting: " + r.name + " (" + r.id + ")"
  }

  /** `put('remote', '/control/system/reboot', 1, timeout=0, id=x['id'])`. */
  function RebootRequest(r: Router): Request {
    Put("remote", "/control/system/reboot", Number(1), Some(0), Some(r.id))
  }

  /** What `reboot` does with the i-th router. */
  function Handle(r: Router, i: nat, force: bool, answers: nat -> bool): seq<Event>
  {
    (if force then [] else [Prompt(RebootPrompt(r))])
      + (if force || answers(i) then [Say(RebootingLine(r)), Send(RebootRequest(r))] else [])
  }

  /** The log of handling the routers `rs` in order: each router's block,
      prompt then announcement then request, comes before the next router's. */
  function Handled(rs: seq<Router>, force: bool, answers: nat -> bool): seq<Event>
    decreases |rs|
  {
    if |rs| == 0 then []
    else
      var n := |rs| - 1;
      Handled(rs[..n], force, answers) + Handle(rs[n], n, force, answers)
  }

  /** Handling one router asks at most once and, only when it goes ahead,
      prints one line and sends one request, for that router. */
  lemma HandleProjections(r: Router, i: nat, force: bool, answers: nat -> bool)
    ensures var h := Handle(r, i, force, answers);
      Requests(h) == (if force || answers(i) then [RebootRequest(r)] else []) &&
      Says(h) == (if force || answers(i) then [RebootingLine(r)] else []) &&
      Prompts(h) == (if force then [] else [RebootPrompt(r)]) &&
      Fetched(h) == [] && Polls(h) == []
  {
    var ask: seq<Event> := if force then [] else [Prompt(RebootPrompt(r))];
    var act: seq<Event> := if force || answers(i) then [Say(RebootingLine(r)), Send(RebootRequest(r))] else [];
    AppendEvent([], Prompt(RebootPrompt(r)));
    AppendEvent([], Say(RebootingLine(r)));
    AppendEvent([Say(RebootingLine(r))], Send(RebootRequest(r)));
    assert [Say(RebootingLine(r))] + [Send(RebootRequest(r))] == [Say(RebootingLine(r)), Send(RebootRequest(r))];
    ProjectionsOfConcat(ask, act);
  }

  /** Extending the handled prefix by the next router. */
  lemma RebootStep(rs: seq<Router>, i: nat, force: bool, answers: nat -> bool)
    requires i < |rs|
    ensures var kept := force || answers(i);
      Map(RebootRequest, Approved(rs[..i + 1], force, answers))
        == Map(RebootRequest, Approved(rs[..i], force, answers)) + (if kept then [RebootRequest(rs[i])] else []) &&
      Map(RebootingLine, Approved(rs[..i + 1], force, answers))
        == Map(RebootingLine, Approved(rs[..i], force, answers)) + (if kept then [RebootingLine(rs[i])] else [])
    ensures Map(RebootPrompt, rs[..i + 1]) == Map(RebootPrompt, rs[..i]) + [RebootPrompt(rs[i])]
  {
    ApprovedStep(rs, i, force, answers);
    assert rs[..i + 1] == rs[..i] + [rs[i]];
    MapSnoc(RebootPrompt, rs[..i], rs[i]);
    MapSnoc(RebootRequest, Approved(rs[..i], force, answers), rs[i]);
    MapSnoc(RebootingLine, Approved(rs[..i], force, answers), rs[i]);
  }

  /** The per-router part of `reboot`: one prompt per router unless forced,
      and one announcement and one reboot request per router that is forced
      or confirmed, in router order. */
  method RebootEach(rs: seq<Router>, force: bool, answers: nat -> bool) returns (log: seq<Event>)
    ensures log == Handled(rs, force, answers)
    ensures Requests(log) == Map(RebootRequest, Approved(rs, force, answers))
    ensures Says(log) == Map(RebootingLine, Approved(rs, force, answers))
    ensures Prompts(log) == if force then [] else Map(RebootPrompt, rs)
    ensures Fetched(log) == [] && Polls(log) == []
  {
    log := [];
    var i := 0;
    while i < |rs|
      invariant 0 <= i <= |rs|
      invariant log == Handled(rs[..i], force, answers)
      invariant Requests(log) == Map(RebootRequest, Approved(rs[..i], force, answers))
      invariant Says(log) == Map(RebootingLine, Approved(rs[..i], force, answers))
      invariant Prompts(log) == if force then [] else Map(RebootPrompt, rs[..i])
      invariant Fetched(log) == [] && Polls(log) == []
    {
      var step := Handle(rs[i], i, force, answers);
      HandleProjections(rs[i], i, force, answers);
      ProjectionsOfConcat(log, step);
      RebootStep(rs, i, force, answers);
      assert rs[..i + 1][..i] == rs[..i];
      log := log + step;
      i := i + 1;
    }
    assert rs[..i] == rs;
  }

  /** `Reboot.run`: a failure to resolve an identifier ends the command
      before any prompt or request; otherwise the chosen routers are handled
      in order after the selection. */
  method RebootRouters(idents: seq<string>, force: bool, answers: nat -> bool, resolve: Resolver, listing: seq<Router>)
    returns (run: Run<()>)
    ensures var sel := SelectRouters(idents, resolve, listing);
      sel.result.Err? ==> run == Run(sel.log, Err(sel.result.error))
    ensures var sel := SelectRouters(idents, resolve, listing);
      sel.result.Ok? ==> run.result == Ok(()) && run.log == sel.log + Handled(sel.result.value, force, answers)
    ensures var sel := SelectRouters(idents, resolve, listing);
      Requests(run.log) == if sel.result.Err? then [] else Map(RebootRequest, Approved(sel.result.value, force, answers))
    ensures var sel := SelectRouters(idents, resolve, listing);
      Says(run.log) == if sel.result.Err? then [] else Map(RebootingLine, Approved(sel.result.value, force, answers))
    ensures var sel := SelectRouters(idents, resolve, listing);
      Prompts(run.log) == if sel.result.Err? || force then [] else Map(RebootPrompt, sel.result.value)
    ensures Fetched(run.log) == Fetched(SelectRouters(idents, resolve, listing).log) && Polls(run.log) == []
  {
    var sel := SelectRouters(idents, resolve, listing);
    SelectionOnlyFetches(idents, resolve, listing);
    if sel.result.Err? {
      return Run(sel.log, Err(sel.result.error));
    }
    var acts := RebootEach(sel.result.value, force, answers);
    ProjectionsOfConcat(sel.log, acts);
    run := Run(sel.log + acts, Ok(()));
  }
}
