/** The router printer's group column (`Printer.group_name` in
    ecmcli/commands/routers.py). */
module RoutersPrinter {
  import opened Outcomes
  import opened Text
  import opened Api

  /** Python falsiness of the group value: None, '' or an empty mapping. */
  predicate IsBlank(g: Group) {
    match g
    case NoGroup => true
    case Urn(uri) => |uri| == 0
    case Expanded(fields) => |fields| == 0
  }

  /** The best display name for a router's group: nothing when there is no
      group, `<id:N>` built from a URN the user may not expand, or the expanded
      group's name. A URN without '/' raises IndexError and a mapping without
      `name` raises KeyError. */
  function GroupName(g: Group): (r: Result<string>)
    ensures IsBlank(g) ==> r == Ok("")
    ensures g.Expanded? && !IsBlank(g) ==> (r.Ok? <==> "name" in g.fields)
    ensures g.Expanded? && !IsBlank(g) && r.Ok? ==> r.value == g.fields["name"]
    ensures g.Expanded? && !IsBlank(g) && r.Err? ==> r.error == KeyError("name")
    ensures g.Urn? && !IsBlank(g) ==> (r.Ok? <==> '/' in g.uri)
    ensures g.Urn? && !IsBlank(g) && r.Err? ==> r.error == IndexError
    ensures g.Urn? && !IsBlank(g) && r.Ok? ==>
      |r.value| >= 5 && r.value[..4] == "<id:" && r.value[|r.value| - 1] == '>' &&
      '/' !in r.value[4..|r.value| - 1]
  {
    if IsBlank(g) then Ok("")
    else match g
      case Urn(uri) =>
        var parts := Split(uri, '/');
        SplitHasTwoPieces(uri, '/');
        if |parts| < 2 then Err(IndexError)
        else
          var id := parts[|parts| - 2];
          var r := "<id:" + id + ">";
          assert r[4..|r| - 1] == id;
          Ok(r)
      case Expanded(fields) =>
        if "name" in fields then Ok(fields["name"]) else Err(KeyError("name"))
  }

  /** For a URN such as `/api/v1/groups/5/`, the name shows the piece between
      the last two slashes: whatever precedes it ends at a slash (or is empty)
      and nothing after the last slash counts. */
  lemma GroupNameOfUrn(before: string, id: string, after: string)
    requires |before| == 0 || before[|before| - 1] == '/'
    requires '/' !in id && '/' !in after
    ensures GroupName(Urn(before + id + "/" + after)) == Ok("<id:" + id + ">")
  {
    var uri := before + id + "/" + after;
    SplitWithoutSep(id, '/');
    SplitWithoutSep(after, '/');
    SplitAtSep(id, after, '/');
    assert Split(id + "/" + after, '/') == [id, after];
    if |before| == 0 {
      assert uri == id + "/" + after;
    } else {
      var front := before[..|before| - 1];
      assert uri == front + "/" + (id + "/" + after);
      SplitAtSep(front, id + "/" + after, '/');
    }
  }
}
