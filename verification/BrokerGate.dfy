// The MCP broker's gate: the advertised tools are the granted ones, and no call crosses
// it before its own allowed decision is on record.

module BrokerGate {
  import opened Options
  import Ordering

  datatype Tool = Tool(name: string, schema: string)

  datatype ToolGrant = ToolGrant(name: string, writes: bool)

  datatype ServiceGrant = ServiceGrant(name: string, tools: seq<ToolGrant>)

  datatype Server = Server(service: string, writes: map<string, bool>, advertised: seq<Tool>)

  function NameOf(name: string): string { name }

  function ServiceGrantOf(policy: seq<ServiceGrant>, name: string): (r: Option<ServiceGrant>)
    ensures r.None? <==> forall grant <- policy :: grant.name != name
    ensures r.Some? ==> r.value in policy && r.value.name == name
  {
    if policy == [] then None
    else if policy[0].name == name then Some(policy[0])
    else ServiceGrantOf(policy[1..], name)
  }

  // Every tool the upstream lists has a name, and no two have one.
  predicate Distinct(available: seq<Option<Tool>>) {
    && (forall i :: 0 <= i < |available| ==> available[i].Some? && available[i].value.name != "")
    && (forall i, j :: 0 <= i < j < |available| ==> available[i].value.name != available[j].value.name)
  }

  predicate Offers(available: seq<Option<Tool>>, name: string) {
    exists i :: 0 <= i < |available| && available[i].Some? && available[i].value.name == name
  }

  function GrantedNames(grant: ServiceGrant): set<string> { set t | t in grant.tools :: t.name }

  function NamesOf(tools: seq<Tool>): set<string> { set t | t in tools :: t.name }

  // The advertised tools are the upstream's own, for exactly the granted names, in order.
  ghost predicate Serves(server: Server, grant: ServiceGrant, available: seq<Option<Tool>>) {
    && server.service == grant.name
    && server.writes.Keys == GrantedNames(grant)
    && (forall i :: 0 <= i < |grant.tools| && LastOfItsName(grant.tools, i) ==> server.writes[grant.tools[i].name] == grant.tools[i].writes)
    && NamesOf(server.advertised) == GrantedNames(grant)
    && (forall i, j :: 0 <= i < j < |server.advertised| ==> Ordering.Before(server.advertised[i].name, server.advertised[j].name))
    && (forall t <- server.advertised :: Some(t) in available)
  }

  predicate LastOfItsName(tools: seq<ToolGrant>, i: int)
    requires 0 <= i < |tools|
  {
    forall j :: i < j < |tools| ==> tools[j].name != tools[i].name
  }

  method IndexTools(available: seq<Option<Tool>>) returns (byName: Option<map<string, Tool>>)
    ensures byName.Some? <==> Distinct(available)
    ensures byName.Some? ==>
              && (forall name :: name in byName.value <==> Offers(available, name))
              && (forall name <- byName.value :: byName.value[name].name == name && Some(byName.value[name]) in available)
  {
    var index: map<string, Tool> := map[];
    for k := 0 to |available|
      invariant Distinct(available[..k])
      invariant forall name :: name in index <==> Offers(available[..k], name)
      invariant forall name <- index :: index[name].name == name && Some(index[name]) in available
    {
      var tool := available[k];
      assert available[..k + 1] == available[..k] + [tool];
      if tool.None? || tool.value.name == "" { return None; }
      if tool.value.name in index {
        var i :| 0 <= i < k && available[..k][i].Some? && available[..k][i].value.name == tool.value.name;
        assert available[i].value.name == available[k].value.name;
        return None;
      }
      OffersGrows(available[..k], tool.value);
      index := index[tool.value.name := tool.value];
    }
    assert available[..|available|] == available;
    return Some(index);
  }

  lemma OffersGrows(available: seq<Option<Tool>>, tool: Tool)
    ensures forall name :: Offers(available + [Some(tool)], name) <==> Offers(available, name) || name == tool.name
  {
    var grown := available + [Some(tool)];
    assert grown[|available|] == Some(tool);
    forall name
      ensures Offers(grown, name) <==> Offers(available, name) || name == tool.name
    {
      if Offers(available, name) {
        var i :| 0 <= i < |available| && available[i].Some? && available[i].value.name == name;
        assert grown[i] == available[i];
      }
    }
  }

  // The last entry of each name counts.
  predicate Records(w: map<string, bool>, tools: seq<ToolGrant>) {
    && w.Keys == (set t | t in tools :: t.name)
    && forall i :: 0 <= i < |tools| && LastOfItsName(tools, i) ==>
         tools[i].name in w && w[tools[i].name] == tools[i].writes
  }

  lemma RecordsGrow(w: map<string, bool>, tools: seq<ToolGrant>, tool: ToolGrant)
    requires Records(w, tools)
    ensures Records(w[tool.name := tool.writes], tools + [tool])
  {
    var grown, more := tools + [tool], w[tool.name := tool.writes];
    forall i | 0 <= i < |grown| && LastOfItsName(grown, i)
      ensures grown[i].name in more && more[grown[i].name] == grown[i].writes
    {
      if i < |tools| {
        assert grown[|tools|].name != grown[i].name;
        assert LastOfItsName(tools, i) by {
          assert forall j :: i < j < |tools| ==> tools[j] == grown[j];
        }
      }
    }
  }

  method GrantWrites(grant: ServiceGrant, byName: map<string, Tool>) returns (writes: Option<map<string, bool>>)
    ensures writes.Some? <==> GrantedNames(grant) <= byName.Keys
    ensures writes.Some? ==>
              && writes.value.Keys == GrantedNames(grant)
              && (forall i :: 0 <= i < |grant.tools| && LastOfItsName(grant.tools, i) ==> writes.value[grant.tools[i].name] == grant.tools[i].writes)
  {
    var w: map<string, bool> := map[];
    for k := 0 to |grant.tools|
      invariant Records(w, grant.tools[..k])
      invariant w.Keys <= byName.Keys
    {
      var allowed := grant.tools[k];
      if allowed.name !in byName {
        assert allowed.name in GrantedNames(grant);
        return None;
      }
      assert grant.tools[..k + 1] == grant.tools[..k] + [allowed];
      RecordsGrow(w, grant.tools[..k], allowed);
      w := w[allowed.name := allowed.writes];
    }
    assert grant.tools[..|grant.tools|] == grant.tools;
    return Some(w);
  }

  // The names of a map in the order a loop over it happens to give, then sorted.
  method SortedNames(writes: map<string, bool>) returns (names: seq<string>)
    ensures forall name :: name in names <==> name in writes
    ensures Ordering.Sorted(names, NameOf)
  {
    names := [];
    var left := writes.Keys;
    while left != {}
      invariant left <= writes.Keys
      invariant forall name :: name in names <==> name in writes && name !in left
      invariant Ordering.UniqueKeys(names, NameOf)
    {
      var name :| name in left;
      names := names + [name];
      left := left - {name};
    }
    Ordering.SortingSorts(names, NameOf);
    names := Ordering.Sort(names, NameOf);
  }

  /** A server comes up exactly when the whole grant can be served: the policy holds the
      service, the upstream lists tools with distinct names, and every granted tool is
      there. It then advertises the grant, no more and no less. */
  method NewServiceServer(service: string, validName: string -> bool, upstream: bool, audit: bool,
                          policy: seq<ServiceGrant>, available: Option<seq<Option<Tool>>>)
    returns (server: Option<Server>)
    ensures var grant := ServiceGrantOf(policy, service);
            && (server.Some? <==> validName(service) && upstream && audit && grant.Some? && available.Some?
                                  && Distinct(available.value)
                                  && forall name <- GrantedNames(grant.value) :: Offers(available.value, name))
            && (server.Some? ==> Serves(server.value, grant.value, available.value))
  {
    if !validName(service) || !upstream || !audit { return None; }
    var grant := ServiceGrantOf(policy, service);
    if grant.None? || available.None? { return None; }
    var byName := IndexTools(available.value);
    if byName.None? { return None; }
    var writes := GrantWrites(grant.value, byName.value);
    if writes.None? { return None; }
    var names := SortedNames(writes.value);
    var advertised: seq<Tool> := [];
    for k := 0 to |names|
      invariant |advertised| == k
      invariant forall i :: 0 <= i < k ==> advertised[i].name == names[i] && Some(advertised[i]) in available.value
    {
      assert names[k] in writes.value;
      advertised := advertised + [byName.value[names[k]]];
    }
    server := Some(Server(service, writes.value, advertised));
    AdvertisedNames(advertised, names, GrantedNames(grant.value));
  }

  lemma AdvertisedNames(advertised: seq<Tool>, names: seq<string>, granted: set<string>)
    requires |advertised| == |names| && forall i :: 0 <= i < |names| ==> advertised[i].name == names[i]
    requires Ordering.Sorted(names, NameOf) && forall name :: name in names <==> name in granted
    ensures NamesOf(advertised) == granted
    ensures forall i, j :: 0 <= i < j < |advertised| ==> Ordering.Before(advertised[i].name, advertised[j].name)
  {
    forall name <- granted
      ensures name in NamesOf(advertised)
    {
      var i :| 0 <= i < |names| && names[i] == name;
      assert advertised[i] in advertised;
    }
    forall t <- advertised
      ensures t.name in granted
    {
      var i :| 0 <= i < |advertised| && advertised[i] == t;
      assert names[i] in names;
    }
    forall i, j | 0 <= i < j < |advertised|
      ensures Ordering.Before(advertised[i].name, advertised[j].name)
    {
      assert Ordering.Before(NameOf(names[i]), NameOf(names[j]));
    }
  }

  /** The order and paging of the upstream's answer leave no trace in what is advertised. */
  lemma AdvertisementIsStable(one: Server, two: Server, grant: ServiceGrant,
                              first: seq<Option<Tool>>, second: seq<Option<Tool>>)
    requires Serves(one, grant, first) && Serves(two, grant, second) && Distinct(first) && Distinct(second)
    requires forall t :: t in first <==> t in second
    ensures one.advertised == two.advertised && one.writes.Keys == two.writes.Keys
  {
    forall t
      ensures t in one.advertised ==> t in two.advertised
      ensures t in two.advertised ==> t in one.advertised
    {
      if t in one.advertised { SameTool(one, two, grant, second, t); }
      if t in two.advertised { SameTool(two, one, grant, first, t); }
    }
    Ordering.SortedListsAreEqual(one.advertised, two.advertised, ToolName);
  }

  function ToolName(t: Tool): string { t.name }

  lemma SameTool(one: Server, two: Server, grant: ServiceGrant, available: seq<Option<Tool>>, t: Tool)
    requires NamesOf(one.advertised) == GrantedNames(grant)
    requires Serves(two, grant, available) && Distinct(available)
    requires t in one.advertised && Some(t) in available
    ensures t in two.advertised
  {
    assert t.name in NamesOf(one.advertised);
    assert t.name in NamesOf(two.advertised);
    var u :| u in two.advertised && u.name == t.name;
    var i :| 0 <= i < |available| && available[i] == Some(t);
    var j :| 0 <= j < |available| && available[j] == Some(u);
    assert i == j;
  }
}
