/** The `edit` command (`Edit.run` in ecmcli/commands/routers.py): resolve one
    router and send it a partial update holding only the attributes the user
    gave on the command line. */
module RoutersEdit {
  import opened Outcomes
  import opened Api

  /** The parsed command line: the router and the optional new attribute values. */
  datatype EditArgs = EditArgs(
    ident: string,
    name: Option<string>,
    desc: Option<string>,
    assetId: Option<string>,
    custom1: Option<string>,
    custom2: Option<string>)

  /** The attributes `edit` can change, in the order it looks at them. */
  const EditableFields: seq<string> := ["name", "desc", "asset_id", "custom1", "custom2"]

  /** `getattr(args, field)`: the value given for an editable attribute;
      nothing for any other name. */
  function ArgFor(args: EditArgs, field: string): Option<string>
  {
    if field == "name" then args.name
    else if field == "desc" then args.desc
    else if field == "asset_id" then args.assetId
    else if field == "custom1" then args.custom1
    else if field == "custom2" then args.custom2
    else None
  }

  /** `body` holds exactly the editable attributes that were given, each with
      the given value. */
  ghost predicate IsEditBody(args: EditArgs, body: map<string, string>)
  {
    (forall k :: k in body <==> k in EditableFields && ArgFor(args, k).Some?) &&
    (forall k :: k in body ==> body[k] == ArgFor(args, k).value)
  }

  /** The `value` dictionary `Edit.run` builds by walking the editable
      attributes and keeping those that are not None. */
  method EditBody(args: EditArgs) returns (body: map<string, string>)
    ensures IsEditBody(args, body)
  {
    body := map[];
    var i := 0;
    while i < |EditableFields|
      invariant 0 <= i <= |EditableFields|
      invariant forall k :: k in body <==> k in EditableFields[..i] && ArgFor(args, k).Some?
      invariant forall k :: k in body ==> body[k] == ArgFor(args, k).value
    {
      var field := EditableFields[i];
      var v := ArgFor(args, field);
      if v.Some? {
        body := body[field := v.value];
      }
      assert EditableFields[..i + 1] == EditableFields[..i] + [field];
      i := i + 1;
    }
    assert EditableFields[..i] == EditableFields;
  }

  /** The body names each given option under its API attribute name, and
      nothing else. */
  lemma EditBodyByOption(args: EditArgs, body: map<string, string>)
    requires IsEditBody(args, body)
    ensures body.Keys <= {"name", "desc", "asset_id", "custom1", "custom2"}
    ensures ("name" in body <==> args.name.Some?) && ("name" in body ==> body["name"] == args.name.value)
    ensures ("desc" in body <==> args.desc.Some?) && ("desc" in body ==> body["desc"] == args.desc.value)
    ensures ("asset_id" in body <==> args.assetId.Some?) && ("asset_id" in body ==> body["asset_id"] == args.assetId.value)
    ensures ("custom1" in body <==> args.custom1.Some?) && ("custom1" in body ==> body["custom1"] == args.custom1.value)
    ensures ("custom2" in body <==> args.custom2.Some?) && ("custom2" in body ==> body["custom2"] == args.custom2.value)
  {
    assert "name" in EditableFields && "desc" in EditableFields && "asset_id" in EditableFields;
    assert "custom1" in EditableFields && "custom2" in EditableFields;
  }

  /** The arguments determine the body. */
  lemma EditBodyUnique(args: EditArgs, b1: map<string, string>, b2: map<string, string>)
    requires IsEditBody(args, b1) && IsEditBody(args, b2)
    ensures b1 == b2
  {
    assert b1.Keys == b2.Keys;
  }

  /** `edit` resolves the router and then issues exactly one `put` against its
      id whose body is the partial update; when resolution fails nothing is sent. */
  method Edit(args: EditArgs, resolve: Resolver) returns (run: Run<()>)
    ensures |run.log| >= 1 && run.log[0] == Fetch("routers", args.ident)
    ensures resolve(args.ident).Err? ==>
      run == Run([Fetch("routers", args.ident)], Err(resolve(args.ident).error))
    ensures resolve(args.ident).Ok? ==> run.result == Ok(()) && |run.log| == 2
    ensures resolve(args.ident).Ok? ==>
      var req := run.log[1];
      req.Send? && req.request.Put? && req.request.collection == "routers" &&
      req.request.target == resolve(args.ident).value.id &&
      req.request.timeout == None && req.request.remoteId == None &&
      req.request.body.Fields? && IsEditBody(args, req.request.body.fields)
  {
    var fetch := Fetch("routers", args.ident);
    var router := resolve(args.ident);
    if router.Err? {
      return Run([fetch], Err(router.error));
    }
    var body := EditBody(args);
    run := Run([fetch, Send(Put("routers", router.value.id, Fields(body), None, None))], Ok(()));
  }

  /** An `edit` that succeeds issues one request and asks nothing. */
  lemma EditSendsOneRequest(args: EditArgs, resolve: Resolver, log: seq<Event>, body: map<string, string>)
    requires resolve(args.ident).Ok?
    requires log == [Fetch("routers", args.ident), Send(Put("routers", resolve(args.ident).value.id, Fields(body), None, None))]
    ensures Requests(log) == [Put("routers", resolve(args.ident).value.id, Fields(body), None, None)]
    ensures Fetched(log) == [args.ident] && Prompts(log) == [] && Says(log) == []
  {
    AppendEvent([], log[0]);
    AppendEvent([log[0]], log[1]);
    assert [log[0]] + [log[1]] == log;
  }
}
