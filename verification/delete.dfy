/** The `delete` command (`Delete.run` in ecmcli/commands/routers.py): for each
    identifier in order, resolve it, ask for confirmation unless forced, and
    unregister the router when forced or confirmed. Identifiers are resolved
    one at a time inside the loop, so a failing identifier stops the command
    after the earlier routers have been dealt with. */
module RoutersDelete {
  import opened Outcomes
  import opened Api
  import opened Seqs

  /** `'Delete router: %s, id:%s' % (router['name'], router['id'])`. */
  function DeletePrompt(r: Router): string {
    "Delete router: " + r.name + ", id:" + r.id
  }

  /** `delete('routers', router['id'])`. */
  function Removal(r: Router): Request {
    Remove("routers", r.id)
  }

  /** What `delete` does with one resolved router, the i-th: ask unless
      forced, then remove it when forced or confirmed. */
  function Handle(r: Router, i: nat, force: bool, answers: nat -> bool): seq<Event>
  {
    (if force then [] else [Prompt(DeletePrompt(r))])
      + (if force || answers(i) then [Send(Removal(r))] else [])
  }

  /** Handling one router asks at most once, removes at most that router,
      and resolves and prints nothing. */
  lemma HandleProjections(r: Router, i: nat, force: bool, answers: nat -> bool)
    ensures var h := Handle(r, i, force, answers);
      Requests(h) == (if force || answers(i) then [Removal(r)] else []) &&
      Prompts(h) == (if force then [] else [DeletePrompt(r)]) &&
      Fetched(h) == [] && Says(h) == [] && Polls(h) == []
  {
    var ask: seq<Event> := if force then [] else [Prompt(DeletePrompt(r))];
    var act: seq<Event> := if force || answers(i) then [Send(Removal(r))] else [];
    AppendEvent([], Prompt(DeletePrompt(r)));
    AppendEvent([], Send(Removal(r)));
    ProjectionsOfConcat(ask, act);
  }

  /** Resolving an identifier and handling its router. */
  lemma StepProjections(ident: string, r: Router, i: nat, force: bool, answers: nat -> bool)
    ensures var step := [Fetch("routers", ident)] + Handle(r, i, force, answers);
      Requests(step) == (if force || answers(i) then [Removal(r)] else []) &&
      Prompts(step) == (if force then [] else [DeletePrompt(r)]) &&
      Fetched(step) == [ident] && Says(step) == [] && Polls(step) == []
  {
    HandleProjections(r, i, force, answers);
    AppendEvent([], Fetch("routers", ident));
    ProjectionsOfConcat([Fetch("routers", ident)], Handle(r, i, force, answers));
  }

  /** Extending the handled prefix by the next resolved router. */
  lemma DeleteStep(rs: seq<Router>, i: nat, force: bool, answers: nat -> bool)
    requires i < |rs|
    ensures Map(Removal, Approved(rs[..i + 1], force, answers))
      == Map(Removal, Approved(rs[..i], force, answers)) + (if force || answers(i) then [Removal(rs[i])] else [])
    ensures Map(DeletePrompt, rs[..i + 1]) == Map(DeletePrompt, rs[..i]) + [DeletePrompt(rs[i])]
  {
    ApprovedStep(rs, i, force, answers);
    assert rs[..i + 1] == rs[..i] + [rs[i]];
    MapSnoc(DeletePrompt, rs[..i], rs[i]);
    MapSnoc(Removal, Approved(rs[..i], force, answers), rs[i]);
  }

  /** The log of dealing with the resolved routers `rs`, in order: the
      i-th block fetches `idents[i]`, then handles `rs[i]`, before the next
      identifier is fetched. */
  function DeletedLog(idents: seq<string>, rs: seq<Router>, force: bool, answers: nat -> bool): seq<Event>
    requires |rs| <= |idents|
    decreases |rs|
  {
    if |rs| == 0 then []
    else
      var n := |rs| - 1;
      DeletedLog(idents, rs[..n], force, answers) + ([Fetch("routers", idents[n])] + Handle(rs[n], n, force, answers))
  }

  /** What the loop of `delete` has logged after the first `i` resolved
      routers `rs[..i]`, fetched under `idents[..i]`. */
  ghost predicate DeletedPrefix(log: seq<Event>, idents: seq<string>, rs: seq<Router>, i: nat, force: bool, answers: nat -> bool)
    requires i <= |idents| && i <= |rs|
  {
    && Fetched(log) == idents[..i]
    && Requests(log) == Map(Removal, Approved(rs[..i], force, answers))
    && Prompts(log) == (if force then [] else Map(DeletePrompt, rs[..i]))
    && Says(log) == [] && Polls(log) == []
  }

  /** One turn of the loop keeps `DeletedPrefix`. */
  lemma DeleteTurn(log: seq<Event>, idents: seq<string>, rs: seq<Router>, i: nat, force: bool, answers: nat -> bool)
    requires i < |idents| && i < |rs|
    requires DeletedPrefix(log, idents, rs, i, force, answers)
    ensures DeletedPrefix(log + ([Fetch("routers", idents[i])] + Handle(rs[i], i, force, answers)), idents, rs, i + 1, force, answers)
  {
    var step := [Fetch("routers", idents[i])] + Handle(rs[i], i, force, answers);
    StepProjections(idents[i], rs[i], i, force, answers);
    ProjectionsOfConcat(log, step);
    DeleteStep(rs, i, force, answers);
    PrefixSnoc(idents, i);
  }

  /** Dealing with `rs` fetches their identifiers in order, prompts for each
      router unless forced, removes exactly the forced or confirmed ones, and
      prints and polls nothing. */
  lemma {:induction false} DeletedLogProjections(idents: seq<string>, rs: seq<Router>, force: bool, answers: nat -> bool)
    requires |rs| <= |idents|
    ensures var log := DeletedLog(idents, rs, force, answers);
      && Fetched(log) == idents[..|rs|]
      && Requests(log) == Map(Removal, Approved(rs, force, answers))
      && Prompts(log) == (if force then [] else Map(DeletePrompt, rs))
      && Says(log) == [] && Polls(log) == []
    decreases |rs|
  {
    if |rs| > 0 {
      var n := |rs| - 1;
      DeletedLogProjections(idents, rs[..n], force, answers);
      DeleteTurn(DeletedLog(idents, rs[..n], force, answers), idents, rs, n, force, answers);
      assert rs[..n + 1] == rs;
    }
  }

  /** The log of one more router is the log so far followed by its block. */
  lemma DeletedLogStep(idents: seq<string>, rs: seq<Router>, i: nat, force: bool, answers: nat -> bool)
    requires i < |rs| <= |idents|
    ensures DeletedLog(idents, rs[..i + 1], force, answers)
      == DeletedLog(idents, rs[..i], force, answers) + ([Fetch("routers", idents[i])] + Handle(rs[i], i, force, answers))
  {
    assert rs[..i + 1][..i] == rs[..i];
  }

  /** The loop of `delete` over routers `rs` fetched under `idents`: each
      identifier is fetched, then its router is prompted for unless forced,
      then removed when forced or confirmed, before the next identifier is
      fetched. */
  method DeleteEach(idents: seq<string>, rs: seq<Router>, force: bool, answers: nat -> bool)
    returns (log: seq<Event>)
    requires |rs| <= |idents|
    ensures log == DeletedLog(idents, rs, force, answers)
    ensures Fetched(log) == idents[..|rs|]
    ensures Requests(log) == Map(Removal, Approved(rs, force, answers))
    ensures Prompts(log) == if force then [] else Map(DeletePrompt, rs)
    ensures Says(log) == [] && Polls(log) == []
  {
    log := [];
    var i := 0;
    while i < |rs|
      invariant 0 <= i <= |rs|
      invariant log == DeletedLog(idents, rs[..i], force, answers)
    {
      DeletedLogStep(idents, rs, i, force, answers);
      log := log + ([Fetch("routers", idents[i])] + Handle(rs[i], i, force, answers));
      i := i + 1;
    }
    assert rs[..i] == rs;
    DeletedLogProjections(idents, rs, force, answers);
  }

  /** The loop of `delete` over the identifiers that resolve, each fetched
      and resolved to its router just before that router is handled. */
  method DeleteResolved(idents: seq<string>, force: bool, answers: nat -> bool, resolve: Resolver)
    returns (log: seq<Event>)
    ensures log == DeletedLog(idents, Resolutions(idents, resolve), force, answers)
    ensures Fetched(log) == idents[..FirstFailure(idents, resolve)]
    ensures Requests(log) == Map(Removal, Approved(Resolutions(idents, resolve), force, answers))
    ensures Prompts(log) == if force then [] else Map(DeletePrompt, Resolutions(idents, resolve))
    ensures Says(log) == [] && Polls(log) == []
  {
    log := DeleteEach(idents, Resolutions(idents, resolve), force, answers);
  }

  /** `Delete.run`: one prompt per resolved router unless forced, one removal
      per router that is forced or confirmed, in identifier order. The
      routers are resolved one at a time, so the first identifier that fails
      to resolve ends the command with its error, after its own fetch and
      after the earlier routers were dealt with. */
  method Delete(idents: seq<string>, force: bool, answers: nat -> bool, resolve: Resolver)
    returns (run: Run<()>)
    ensures run.result.Ok? <==> FirstFailure(idents, resolve) == |idents|
    ensures var f := FirstFailure(idents, resolve);
      run.log == DeletedLog(idents, Resolutions(idents, resolve), force, answers)
        + (if f < |idents| then [Fetch("routers", idents[f])] else [])
    ensures run.result.Err? ==>
      var f := FirstFailure(idents, resolve);
      f < |idents| && run.result.error == resolve(idents[f]).error &&
      |run.log| > 0 && run.log[|run.log| - 1] == Fetch("routers", idents[f])
    ensures Fetched(run.log) == idents[..ResolvedCount(idents, resolve)]
    ensures Requests(run.log) == Map(Removal, Approved(Resolutions(idents, resolve), force, answers))
    ensures Prompts(run.log) == if force then [] else Map(DeletePrompt, Resolutions(idents, resolve))
    ensures Says(run.log) == [] && Polls(run.log) == []
  {
    var log := DeleteResolved(idents, force, answers, resolve);
    var f := FirstFailure(idents, resolve);
    if f < |idents| {
      AppendFetch(log, idents, f);
      run := Run(log + [Fetch("routers", idents[f])], Err(resolve(idents[f]).error));
    } else {
      run := Run(log, Ok(()));
    }
  }
}
