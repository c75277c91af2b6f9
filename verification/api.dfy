/** The ECM service as the commands see it, and the record of what a command
    did. The service itself is an oracle: identifier resolution is a function
    from identifier to router (or error), a router listing is a sequence, and
    every request a command issues is appended to a log of events. */
module Api {
  import opened Outcomes
  import opened Seqs

  /** A router's `group` field: null, a bare URN when the user may not see
      the group, or the expanded group mapping. */
  datatype Group = NoGroup | Urn(uri: string) | Expanded(fields: map<string, string>)

  /** The router fields the modelled commands read. ECM reports ids as strings. */
  datatype Router = Router(id: string, name: string, state: string, group: Group)

  /** The body of a `put`: a bare number or a partial-update mapping. */
  datatype Body = Number(n: int) | Fields(fields: map<string, string>)

  /** A mutating call on the service. `Put` carries the positional target
      (a router id or a remote path), the `timeout` keyword and the `id`
      keyword of a remote call. */
  datatype Request =
    | Put(collection: string, target: string, body: Body, timeout: Option<int>, remoteId: Option<string>)
    | Remove(collection: string, target: string)

  /** One observable step of a command. */
  datatype Event =
    | Fetch(collection: string, ident: string)  // get_by_id_or_name
    | Poll(path: string, idIn: string)          // get_pager('remote', path, id__in=...)
    | Prompt(text: string)                      // base.confirm
    | Say(text: string)                         // print
    | Send(request: Request)                    // put or delete

  /** What a command did, and how it ended. */
  datatype Run<+T> = Run(log: seq<Event>, result: Result<T>)

  /** get_by_id_or_name('routers', ident), as an oracle. */
  type Resolver = string -> Result<Router>

  /** The events of a log that `pick` selects, mapped through it, in order. */
  function Project<U>(log: seq<Event>, pick: Event -> Option<U>): seq<U>
  {
    if |log| == 0 then []
    else
      Project(log[..|log| - 1], pick)
        + (var p := pick(log[|log| - 1]); if p.Some? then [p.value] else [])
  }

  function RequestOf(e: Event): Option<Request> { if e.Send? then Some(e.request) else None }
  function PromptOf(e: Event): Option<string> { if e.Prompt? then Some(e.text) else None }
  function SayOf(e: Event): Option<string> { if e.Say? then Some(e.text) else None }
  function FetchOf(e: Event): Option<string> { if e.Fetch? then Some(e.ident) else None }
  function PollOf(e: Event): Option<Event> { if e.Poll? then Some(e) else None }

  /** The requests in a log, in order. */
  function Requests(log: seq<Event>): seq<Request> { Project(log, RequestOf) }

  /** The confirmation questions in a log, in order. */
  function Prompts(log: seq<Event>): seq<string> { Project(log, PromptOf) }

  /** The printed lines in a log, in order. */
  function Says(log: seq<Event>): seq<string> { Project(log, SayOf) }

  /** The identifiers resolved in a log, in order. */
  function Fetched(log: seq<Event>): seq<string> { Project(log, FetchOf) }

  /** The remote status queries in a log, in order. */
  function Polls(log: seq<Event>): seq<Event> { Project(log, PollOf) }

  /** Projecting a concatenated log concatenates the projections. */
  lemma {:induction false} ProjectConcat<U>(a: seq<Event>, b: seq<Event>, pick: Event -> Option<U>)
    ensures Project(a + b, pick) == Project(a, pick) + Project(b, pick)
    decreases |b|
  {
    if |b| == 0 {
      assert a + b == a;
    } else {
      var b' := b[..|b| - 1];
      ProjectConcat(a, b', pick);
      assert (a + b)[..|a + b| - 1] == a + b';
    }
  }

  /** One resolution per identifier, in order. */
  function Fetches(idents: seq<string>): seq<Event>
  {
    if |idents| == 0 then []
    else Fetches(idents[..|idents| - 1]) + [Fetch("routers", idents[|idents| - 1])]
  }

  /** A run of resolutions resolves exactly the given identifiers and does
      nothing else. */
  lemma {:induction false} FetchesOnlyFetch(idents: seq<string>)
    ensures var log := Fetches(idents);
      Fetched(log) == idents && Requests(log) == [] && Prompts(log) == [] && Says(log) == [] && Polls(log) == []
    decreases |idents|
  {
    if |idents| > 0 {
      var log := Fetches(idents);
      FetchesOnlyFetch(idents[..|idents| - 1]);
      assert log[..|log| - 1] == Fetches(idents[..|idents| - 1]);
      assert idents == idents[..|idents| - 1] + [idents[|idents| - 1]];
    }
  }

  /** The position of the first identifier that fails to resolve, or the
      number of identifiers when all resolve. */
  function FirstFailure(idents: seq<string>, resolve: Resolver): (f: nat)
    ensures f <= |idents|
    ensures forall j :: 0 <= j < f ==> resolve(idents[j]).Ok?
    ensures f < |idents| ==> resolve(idents[f]).Err?
    decreases |idents|
  {
    if |idents| == 0 then 0
    else if resolve(idents[0]).Err? then 0
    else
      var f := 1 + FirstFailure(idents[1..], resolve);
      assert forall j :: 1 <= j < f ==> idents[1..][j - 1] == idents[j];
      f
  }

  /** The first failure among the first `n` identifiers is the overall first
      failure, clipped at `n`. */
  lemma FirstFailureOfPrefix(idents: seq<string>, resolve: Resolver, n: nat)
    requires n <= |idents|
    ensures FirstFailure(idents[..n], resolve) == if FirstFailure(idents, resolve) < n then FirstFailure(idents, resolve) else n
  {
    var f := FirstFailure(idents, resolve);
    var prefix := idents[..n];
    var g := FirstFailure(prefix, resolve);
    if g < n {
      assert prefix[g] == idents[g];
      assert f <= g;
    }
    if f < n {
      assert prefix[f] == idents[f];
      assert g <= f;
    }
  }

  /** `[get_by_id_or_name('routers', x) for x in idents]`: every identifier is
      resolved, in order, before anything else happens; the first failure
      propagates and no later identifier is resolved. */
  function ResolveAll(idents: seq<string>, resolve: Resolver): (run: Run<seq<Router>>)
    ensures run.result.Ok? <==> FirstFailure(idents, resolve) == |idents|
    ensures run.result.Ok? ==> run.log == Fetches(idents)
    ensures run.result.Ok? ==> |run.result.value| == |idents|
    ensures run.result.Ok? ==> forall i :: 0 <= i < |idents| ==> run.result.value[i] == resolve(idents[i]).value
    ensures run.result.Err? ==>
      var k := FirstFailure(idents, resolve);
      k < |idents| && run.result.error == resolve(idents[k]).error && run.log == Fetches(idents[..k + 1])
    decreases |idents|
  {
    if |idents| == 0 then Run([], Ok([]))
    else
      var n := |idents| - 1;
      var prefix := idents[..n];
      var front := ResolveAll(prefix, resolve);
      var last := resolve(idents[n]);
      FirstFailureOfPrefix(idents, resolve, n);
      if front.result.Err? then
        var k := FirstFailure(idents, resolve);
        assert FirstFailure(prefix, resolve) == k < n;
        assert prefix[..k + 1] == idents[..k + 1];
        assert prefix[k] == idents[k];
        front
      else if last.Err? then
        var k := FirstFailure(idents, resolve);
        assert k >= n;
        assert idents[..k + 1] == idents;
        Run(Fetches(idents), Err(last.error))
      else
        var rs := front.result.value + [last.value];
        assert forall i :: 0 <= i < n ==> prefix[i] == idents[i];
        Run(Fetches(idents), Ok(rs))
  }

  /** The routers of the identifiers that resolve before the first failure. */
  function Resolutions(idents: seq<string>, resolve: Resolver): (rs: seq<Router>)
    ensures |rs| == FirstFailure(idents, resolve)
    ensures forall i :: 0 <= i < |rs| ==> rs[i] == resolve(idents[i]).value
  {
    var f := FirstFailure(idents, resolve);
    seq(f, i requires 0 <= i < f => resolve(idents[i]).value)
  }

  /** How many identifiers a resolution loop resolves: all of them, or those up to and
      including the first that fails. */
  function ResolvedCount(idents: seq<string>, resolve: Resolver): (n: nat)
    ensures n <= |idents|
    ensures n == |idents| || n == FirstFailure(idents, resolve) + 1
  {
    var f := FirstFailure(idents, resolve);
    if f < |idents| then f + 1 else f
  }

  /** Appending one event extends exactly the matching projection. */
  lemma AppendEvent(log: seq<Event>, e: Event)
    ensures Requests(log + [e]) == Requests(log) + (if e.Send? then [e.request] else [])
    ensures Prompts(log + [e]) == Prompts(log) + (if e.Prompt? then [e.text] else [])
    ensures Says(log + [e]) == Says(log) + (if e.Say? then [e.text] else [])
    ensures Fetched(log + [e]) == Fetched(log) + (if e.Fetch? then [e.ident] else [])
    ensures Polls(log + [e]) == Polls(log) + (if e.Poll? then [e] else [])
  {
    assert (log + [e])[..|log|] == log;
  }

  /** Fetching the next identifier extends the fetched prefix by one and
      leaves every other projection as it was. */
  lemma AppendFetch(log: seq<Event>, idents: seq<string>, f: nat)
    requires f < |idents| && Fetched(log) == idents[..f]
    ensures var l := log + [Fetch("routers", idents[f])];
      && Fetched(l) == idents[..f + 1]
      && Requests(l) == Requests(log) && Prompts(l) == Prompts(log)
      && Says(l) == Says(log) && Polls(l) == Polls(log)
  {
    AppendEvent(log, Fetch("routers", idents[f]));
    PrefixSnoc(idents, f);
  }

  /** The projections of a concatenated log are the concatenated projections. */
  lemma ProjectionsOfConcat(a: seq<Event>, b: seq<Event>)
    ensures Requests(a + b) == Requests(a) + Requests(b)
    ensures Prompts(a + b) == Prompts(a) + Prompts(b)
    ensures Says(a + b) == Says(a) + Says(b)
    ensures Fetched(a + b) == Fetched(a) + Fetched(b)
    ensures Polls(a + b) == Polls(a) + Polls(b)
  {
    ProjectConcat(a, b, RequestOf);
    ProjectConcat(a, b, PromptOf);
    ProjectConcat(a, b, SayOf);
    ProjectConcat(a, b, FetchOf);
    ProjectConcat(a, b, PollOf);
  }

  /** The routers a confirm-or-force loop acts on. With one prompt per router
      when not forced, the i-th router is kept when `force` is set or the i-th
      answer is yes; `answers(i)` is the answer to the i-th prompt. */
  function Approved(rs: seq<Router>, force: bool, answers: nat -> bool): seq<Router>
  {
    if |rs| == 0 then []
    else
      Approved(rs[..|rs| - 1], force, answers)
        + (if force || answers(|rs| - 1) then [rs[|rs| - 1]] else [])
  }

  /** The positions below `n` a confirm-or-force loop acts on, ascending. */
  function ApprovedPositions(n: nat, force: bool, answers: nat -> bool): (ps: seq<nat>)
    ensures forall i: nat :: i in ps <==> i < n && (force || answers(i))
    ensures forall j :: 0 <= j < |ps| ==> ps[j] < n
    ensures forall j, k :: 0 <= j < k < |ps| ==> ps[j] < ps[k]
  {
    if n == 0 then []
    else
      var front := ApprovedPositions(n - 1, force, answers);
      front + (if force || answers(n - 1) then [n - 1] else [])
  }

  /** The kept routers are exactly the routers at the approved positions, in order. */
  lemma {:induction false} ApprovedIsFilter(rs: seq<Router>, force: bool, answers: nat -> bool)
    ensures var ps := ApprovedPositions(|rs|, force, answers);
      |Approved(rs, force, answers)| == |ps| &&
      forall j :: 0 <= j < |ps| ==> Approved(rs, force, answers)[j] == rs[ps[j]]
    decreases |rs|
  {
    if |rs| > 0 {
      var n := |rs| - 1;
      ApprovedIsFilter(rs[..n], force, answers);
      PickSnoc(rs[..n], rs[n], Approved(rs[..n], force, answers), ApprovedPositions(n, force, answers), force || answers(n));
      assert rs[..n] + [rs[n]] == rs;
      assert Approved(rs, force, answers) == Approved(rs[..n], force, answers) + (if force || answers(n) then [rs[n]] else []);
      assert ApprovedPositions(|rs|, force, answers) == ApprovedPositions(n, force, answers) + (if force || answers(n) then [n] else []);
    }
  }

  /** Extending a selection by position with one more element, kept or not. */
  lemma PickSnoc<T>(xs: seq<T>, x: T, kept: seq<T>, ps: seq<nat>, keep: bool)
    requires |kept| == |ps|
    requires forall j :: 0 <= j < |ps| ==> ps[j] < |xs| && kept[j] == xs[ps[j]]
    ensures var kept', ps' := kept + (if keep then [x] else []), ps + (if keep then [|xs|] else []);
      |kept'| == |ps'| &&
      forall j :: 0 <= j < |ps'| ==> ps'[j] < |xs + [x]| && kept'[j] == (xs + [x])[ps'[j]]
  {
  }

  /** With `force`, every router is kept and no answer matters. */
  lemma {:induction false} ApprovedForced(rs: seq<Router>, answers: nat -> bool)
    ensures Approved(rs, true, answers) == rs
    decreases |rs|
  {
    if |rs| > 0 {
      ApprovedForced(rs[..|rs| - 1], answers);
      assert rs == rs[..|rs| - 1] + [rs[|rs| - 1]];
    }
  }

  /** Keeping a prefix's routers and then deciding the next one. */
  lemma ApprovedStep(rs: seq<Router>, i: nat, force: bool, answers: nat -> bool)
    requires i < |rs|
    ensures Approved(rs[..i + 1], force, answers)
      == Approved(rs[..i], force, answers) + (if force || answers(i) then [rs[i]] else [])
  {
    assert rs[..i + 1][..i] == rs[..i];
  }
}
