/** Model names of one provider: from a registered id to its name on the wire, and from a
    historical spelling back to the one registered id it stands for. */
module ModelIds {
  import opened Strings
  import opened Wrappers

  datatype Offering = Offering(id: string, upstreamId: Option<string>)

  /** The effort mappings of one registered id: per client, per level, the model named there. */
  datatype EffortMappings = EffortMappings(canonical: string, clients: seq<seq<Option<string>>>)

  datatype Provider = Provider(
    id: string, models: seq<Offering>, aliases: map<string, string>, efforts: seq<EffortMappings>)

  // ---------- spellings

  function TrimStart(s: string): string {
    if s != "" && IsSpace(s[0]) then TrimStart(s[1..]) else s
  }

  function TrimEnd(s: string): string {
    if s != "" && IsSpace(s[|s| - 1]) then TrimEnd(s[..|s| - 1]) else s
  }

  function Trim(s: string): string {
    TrimEnd(TrimStart(s))
  }

  predicate AllSpace(s: string) {
    forall k :: 0 <= k < |s| ==> IsSpace(s[k])
  }

  /** Trimming takes away spaces at both ends, and every one there. */
  lemma TrimIsCore(s: string)
    ensures exists a, b :: Surrounds(a, Trim(s), b, s)
    ensures Trim(s) != "" ==> !IsSpace(Trim(s)[0]) && !IsSpace(Trim(s)[|Trim(s)| - 1])
  {
    var a := TrimStartCuts(s);
    var b := TrimEndCuts(TrimStart(s));
    assert a + (TrimEnd(TrimStart(s)) + b) == a + TrimEnd(TrimStart(s)) + b;
    assert Surrounds(a, Trim(s), b, s);
  }

  ghost predicate Surrounds(a: string, core: string, b: string, s: string) {
    s == a + core + b && AllSpace(a) && AllSpace(b)
  }

  lemma {:induction false} TrimStartCuts(s: string) returns (a: string)
    ensures s == a + TrimStart(s) && AllSpace(a)
    ensures TrimStart(s) != "" ==> !IsSpace(TrimStart(s)[0])
  {
    a := "";
    if s != "" && IsSpace(s[0]) {
      var rest := TrimStartCuts(s[1..]);
      a := [s[0]] + rest;
    }
  }

  lemma {:induction false} TrimEndCuts(s: string) returns (b: string)
    ensures s == TrimEnd(s) + b && AllSpace(b)
    ensures TrimEnd(s) != "" ==> !IsSpace(TrimEnd(s)[|TrimEnd(s)| - 1]) && TrimEnd(s)[0] == s[0]
  {
    b := "";
    if s != "" && IsSpace(s[|s| - 1]) {
      var rest := TrimEndCuts(s[..|s| - 1]);
      b := rest + [s[|s| - 1]];
    }
  }

  function Prefix(p: Provider): string {
    p.id + "/"
  }

  /** The name that is looked up: trimmed, and without the provider's own prefix. */
  function Normal(p: Provider, spelling: string): string {
    var requested := Trim(spelling);
    if Prefix(p) <= requested then requested[|Prefix(p)|..] else requested
  }

  // ---------- who claims a name

  function Offered(p: Provider): set<string> {
    set k | 0 <= k < |p.models| :: p.models[k].id
  }

  predicate NamedBy(e: EffortMappings, name: string) {
    exists c :: 0 <= c < |e.clients| && Some(name) in e.clients[c]
  }

  predicate ByAlias(p: Provider, id: string, name: string) {
    name in p.aliases && p.aliases[name] == id
  }

  predicate ByOffering(models: seq<Offering>, id: string, name: string) {
    exists k :: 0 <= k < |models| && models[k] == Offering(id, Some(name))
  }

  predicate ByEffort(efforts: seq<EffortMappings>, id: string, name: string) {
    exists k :: 0 <= k < |efforts| && efforts[k].canonical == id && NamedBy(efforts[k], name)
  }

  /** A registered id claims a name as its wire name, by an alias or by an effort mapping. */
  predicate ClaimsName(p: Provider, id: string, name: string) {
    ByAlias(p, id, name) || ByOffering(p.models, id, name) || ByEffort(p.efforts, id, name)
  }

  function Claimants(p: Provider, name: string): set<string> {
    set id | id in Offered(p) && ClaimsName(p, id, name)
  }

  /** What a spelling stands for: a registered id for itself, any other name for the one
      registered id that claims it. */
  ghost predicate StandsFor(p: Provider, spelling: string, id: string) {
    var name := Normal(p, spelling);
    name != "" && id in Offered(p) && (name == id || (name !in Offered(p) && Claimants(p, name) == {id}))
  }

  lemma StandsForOne(p: Provider, spelling: string, id: string, other: string)
    requires StandsFor(p, spelling, id) && StandsFor(p, spelling, other)
    ensures id == other
  {
    var name := Normal(p, spelling);
    if name != id { assert other in {id}; }
  }

  // ---------- resolving

  /** The claimants of a name, collected by looping over everything the provider declares. */
  method Matches(p: Provider, offered: set<string>, name: string) returns (matches: set<string>)
    requires offered == Offered(p)
    ensures matches == Claimants(p, name)
  {
    matches := {};
    if name in p.aliases && p.aliases[name] in offered { matches := matches + {p.aliases[name]}; }
    var k := 0;
    while k < |p.models|
      invariant k <= |p.models|
      invariant forall id :: id in matches <==>
        id in offered && (ByAlias(p, id, name) || ByOffering(p.models[..k], id, name))
    {
      var entry := p.models[k];
      assert p.models[..k + 1] == p.models[..k] + [entry];
      if entry.upstreamId == Some(name) && entry.id in offered { matches := matches + {entry.id}; }
      k := k + 1;
    }
    assert p.models[..k] == p.models;
    ghost var before := matches;
    k := 0;
    while k < |p.efforts|
      invariant k <= |p.efforts|
      invariant forall id :: id in matches <==> id in before || (id in offered && ByEffort(p.efforts[..k], id, name))
    {
      var e := p.efforts[k];
      assert p.efforts[..k + 1] == p.efforts[..k] + [e];
      var named := Names(e, name);
      if named && e.canonical in offered { matches := matches + {e.canonical}; }
      k := k + 1;
    }
    assert p.efforts[..k] == p.efforts;
  }

  method Names(e: EffortMappings, name: string) returns (named: bool)
    ensures named <==> NamedBy(e, name)
  {
    named := false;
    var c := 0;
    while c < |e.clients|
      invariant c <= |e.clients|
      invariant named <==> exists d :: 0 <= d < c && Some(name) in e.clients[d]
    {
      var levels, l := e.clients[c], 0;
      ghost var was := named;
      while l < |levels|
        invariant l <= |levels|
        invariant named <==> was || Some(name) in levels[..l]
      {
        assert levels[..l + 1] == levels[..l] + [levels[l]];
        if levels[l] == Some(name) { named := true; }
        l := l + 1;
      }
      assert levels[..l] == levels;
      c := c + 1;
    }
  }

  /** The answer as a function: the id a spelling stands for, if there is one. */
  ghost function Resolved(p: Provider, spelling: string): (r: Option<string>)
    ensures match r
      case Some(id) => StandsFor(p, spelling, id)
      case None => forall id :: !StandsFor(p, spelling, id)
  {
    if exists id :: StandsFor(p, spelling, id) then
      var id :| StandsFor(p, spelling, id);
      Some(id)
    else None
  }

  method ResolveHistoricalOfferedModelId(p: Provider, spelling: string) returns (r: Option<string>)
    ensures r == Resolved(p, spelling)
  {
    var requested := Trim(spelling);
    if requested == "" {
      EmptyStandsForNothing(p, spelling);
      return None;
    }
    var prefix := Prefix(p);
    var name := if prefix <= requested then requested[|prefix|..] else requested;
    if name == "" { return None; }
    var offered := Offered(p);
    if name in offered {
      StandsForItself(p, spelling);
      return Some(name);
    }
    var matches := Matches(p, offered, name);
    if |matches| == 1 {
      var id :| id in matches;
      OnlyMember(matches, id);
      assert StandsFor(p, spelling, id);
      StandsForOne(p, spelling, id, Resolved(p, spelling).value);
      return Some(id);
    }
    NotOneMember(matches);
    return None;
  }

  lemma EmptyStandsForNothing(p: Provider, spelling: string)
    requires Trim(spelling) == ""
    ensures forall id :: !StandsFor(p, spelling, id)
  {
    assert |Prefix(p)| > 0;
  }

  lemma StandsForItself(p: Provider, spelling: string)
    requires Normal(p, spelling) != "" && Normal(p, spelling) in Offered(p)
    ensures Resolved(p, spelling) == Some(Normal(p, spelling))
  {
    assert StandsFor(p, spelling, Normal(p, spelling));
    StandsForOne(p, spelling, Normal(p, spelling), Resolved(p, spelling).value);
  }

  lemma OnlyMember(s: set<string>, x: string)
    requires |s| == 1 && x in s
    ensures s == {x}
  {
    assert |s - {x}| == 0;
    assert s == {x} + (s - {x});
  }

  lemma NotOneMember(s: set<string>)
    requires |s| != 1
    ensures forall x :: s != {x}
  {
    assert forall x :: s == {x} ==> |s| == |{x}|;
  }

  // ---------- the name on the wire

  /** The private wire name of a registered id: the binding of its first offering. */
  function WireName(models: seq<Offering>, id: string): string {
    if models == [] then id
    else if models[0].id == id then (match models[0].upstreamId case Some(wire) => wire case None => id)
    else WireName(models[1..], id)
  }

  /** The first of the offerings with that id. */
  predicate FirstOffering(models: seq<Offering>, id: string, k: nat) {
    k < |models| && models[k].id == id && forall j :: 0 <= j < k ==> models[j].id != id
  }

  predicate BoundTo(o: Offering, wire: string) {
    o.upstreamId == Some(wire) || (o.upstreamId == None && wire == o.id)
  }

  /** What the offerings say of a wire name: the binding the first one with the id declares,
      and the id itself when it declares none or there is no such offering. */
  ghost predicate IsWireName(models: seq<Offering>, id: string, wire: string) {
    && (forall k: nat :: FirstOffering(models, id, k) ==> BoundTo(models[k], wire))
    && ((forall k :: 0 <= k < |models| ==> models[k].id != id) ==> wire == id)
  }

  lemma {:induction false} WireNameIsFirstBinding(models: seq<Offering>, id: string)
    ensures IsWireName(models, id, WireName(models, id))
    decreases |models|
  {
    if models != [] && models[0].id != id {
      WireNameIsFirstBinding(models[1..], id);
      var wire := WireName(models, id);
      forall k: nat | FirstOffering(models, id, k) ensures BoundTo(models[k], wire) {
        assert forall j :: 0 <= j < k - 1 ==> models[1..][j] == models[j + 1];
        assert models[1..][k - 1] == models[k] && FirstOffering(models[1..], id, k - 1);
      }
    }
  }

  method ResolveUpstreamModel(p: Provider, id: string) returns (wire: string)
    ensures wire == WireName(p.models, id) && IsWireName(p.models, id, wire)
  {
    WireNameIsFirstBinding(p.models, id);
    var k := 0;
    while k < |p.models| && p.models[k].id != id
      invariant k <= |p.models|
      invariant WireName(p.models, id) == WireName(p.models[k..], id)
    {
      assert p.models[k..][1..] == p.models[k + 1..];
      k := k + 1;
    }
    if k == |p.models| { return id; }
    match p.models[k].upstreamId {
      case Some(name) => wire := name;
      case None => wire := id;
    }
  }

  /** A wire name other than the id itself is bound to it by an offering. */
  lemma {:induction false} WireNameIsClaimed(models: seq<Offering>, id: string)
    ensures WireName(models, id) == id || ByOffering(models, id, WireName(models, id))
    decreases |models|
  {
    if models == [] {
    } else if models[0].id == id {
      assert models[0] == Offering(id, models[0].upstreamId);
    } else {
      var wire := WireName(models[1..], id);
      WireNameIsClaimed(models[1..], id);
      if wire != id {
        var k :| 0 <= k < |models| - 1 && models[1..][k] == Offering(id, Some(wire));
        assert models[k + 1] == Offering(id, Some(wire));
      }
    }
  }

  // ---------- there and back

  /** No other registered id claims the name. */
  ghost predicate ClaimedByNoOther(p: Provider, name: string, id: string) {
    forall other :: other in Offered(p) && ClaimsName(p, other, name) ==> other == id
  }

  /** A wire name leads back to its registered id exactly when, trimmed and without the
      provider's own prefix, it is that id or is no registered id and claimed by that one
      alone. The claim by its own binding counts only when trimming and the prefix left the
      name as it was. */
  lemma InvertsExactlyWhen(p: Provider, id: string)
    requires id in Offered(p)
    ensures var wire := WireName(p.models, id); var name := Normal(p, wire);
      Resolved(p, wire) == Some(id) <==>
        name != ""
        && (name == id || (name !in Offered(p) && ClaimedByNoOther(p, name, id)
                           && (name == wire || ClaimsName(p, id, name))))
  {
    var wire := WireName(p.models, id);
    var name := Normal(p, wire);
    WireNameIsClaimed(p.models, id);
    ResolvesToExactlyWhen(p, wire, id);
    if name !in Offered(p) { OnlyClaimant(p, name, id); }
  }

  lemma ResolvesToExactlyWhen(p: Provider, spelling: string, id: string)
    ensures Resolved(p, spelling) == Some(id) <==> StandsFor(p, spelling, id)
  {
    if StandsFor(p, spelling, id) { StandsForOne(p, spelling, id, Resolved(p, spelling).value); }
  }

  lemma OnlyClaimant(p: Provider, name: string, id: string)
    requires id in Offered(p)
    ensures Claimants(p, name) == {id} <==> ClaimsName(p, id, name) && ClaimedByNoOther(p, name, id)
  {
    if Claimants(p, name) == {id} {
      assert id in Claimants(p, name);
      forall other | other in Offered(p) && ClaimsName(p, other, name) ensures other == id {
        assert other in Claimants(p, name);
      }
    }
  }

  /** An id that looking it up leaves alone. */
  predicate PlainId(p: Provider, id: string) {
    Trim(id) == id && !(Prefix(p) <= id)
  }

  lemma {:induction false} TrimEndShortens(s: string)
    ensures |TrimEnd(s)| <= |s| && (|TrimEnd(s)| == |s| ==> TrimEnd(s) == s)
    decreases |s|
  {
    if s != "" && IsSpace(s[|s| - 1]) { TrimEndShortens(s[..|s| - 1]); }
  }

  lemma {:induction false} TrimStartShortens(s: string)
    ensures |TrimStart(s)| <= |s| && (|TrimStart(s)| == |s| ==> TrimStart(s) == s)
  {
    if s != "" && IsSpace(s[0]) { TrimStartShortens(s[1..]); }
  }

  /** Looking up any other id looks up a shorter name. */
  lemma OthersShorten(p: Provider, id: string)
    ensures |Normal(p, id)| < |id| <==> !PlainId(p, id)
    ensures PlainId(p, id) ==> Normal(p, id) == id
  {
    TrimStartShortens(id);
    TrimEndShortens(TrimStart(id));
    assert |Prefix(p)| > 0;
  }

  /** A registered id that is trimmed and without the provider's own prefix answers itself,
      whatever else claims it. Any other answers itself exactly when what trimming and the
      prefix leave of it is a nonempty name that is not registered and that it alone claims. */
  lemma FixedPointExactlyWhen(p: Provider, id: string)
    requires id in Offered(p)
    ensures Resolved(p, id) == Some(id) <==>
      if PlainId(p, id) then id != ""
      else
        var left := Normal(p, id);
        left != "" && left !in Offered(p) && ClaimsName(p, id, left) && ClaimedByNoOther(p, left, id)
  {
    OthersShorten(p, id);
    OnlyClaimant(p, Normal(p, id), id);
    ResolvesToExactlyWhen(p, id, id);
  }

  lemma TwoOfOne(p: Provider, wire: Option<string>)
    requires p == Provider("p", [Offering("p/x", wire)], map[], [])
    ensures Offered(p) == {"p/x"} && Normal(p, "p/p/x") == "p/x" && Normal(p, "p/x") == "x"
    ensures Claimants(p, "x") == if wire == Some("x") then {"p/x"} else {}
  {
    assert p.models[0] == Offering("p/x", wire);
    assert Prefix(p) == "p/";
    assert Trim("p/p/x") == "p/p/x" && Trim("p/x") == "p/x";
  }

  /** A registered id that begins with the provider's own prefix can be answered once and not
      again. */
  lemma OwnPrefixIsNoFixedPoint()
    ensures var p := Provider("p", [Offering("p/x", None)], map[], []);
      Resolved(p, "p/p/x") == Some("p/x") && Resolved(p, "p/x") == None
  {
    var p := Provider("p", [Offering("p/x", None)], map[], []);
    TwoOfOne(p, None);
    StandsForItself(p, "p/p/x");
  }

  /** It answers itself when its own binding claims what the prefix leaves. */
  lemma OwnPrefixCanBeFixedPoint()
    ensures var p := Provider("p", [Offering("p/x", Some("x"))], map[], []); Resolved(p, "p/x") == Some("p/x")
  {
    var p := Provider("p", [Offering("p/x", Some("x"))], map[], []);
    TwoOfOne(p, Some("x"));
    ResolvesToExactlyWhen(p, "p/x", "p/x");
  }

  // ---------- order and qualification

  /** The same declarations in another order. */
  ghost predicate SameDeclarations(p: Provider, q: Provider) {
    && p.id == q.id && p.aliases == q.aliases
    && (forall o :: o in p.models <==> o in q.models)
    && (forall e :: e in p.efforts <==> e in q.efforts)
  }

  lemma OfferedInAnyOrder(p: Provider, q: Provider)
    requires SameDeclarations(p, q)
    ensures Offered(p) <= Offered(q)
  {
    forall id | id in Offered(p) ensures id in Offered(q) {
      var k :| 0 <= k < |p.models| && p.models[k].id == id;
      assert p.models[k] in q.models;
    }
  }

  lemma ClaimsInAnyOrder(p: Provider, q: Provider, id: string, name: string)
    requires SameDeclarations(p, q) && ClaimsName(p, id, name)
    ensures ClaimsName(q, id, name)
  {
    if ByOffering(p.models, id, name) {
      assert Offering(id, Some(name)) in q.models;
    } else if ByEffort(p.efforts, id, name) {
      var k :| 0 <= k < |p.efforts| && p.efforts[k].canonical == id && NamedBy(p.efforts[k], name);
      assert p.efforts[k] in q.efforts;
    }
  }

  /** The answer does not depend on the order of declarations. */
  lemma OrderIsIrrelevant(p: Provider, q: Provider, spelling: string)
    requires SameDeclarations(p, q)
    ensures Resolved(p, spelling) == Resolved(q, spelling)
  {
    OfferedInAnyOrder(p, q);
    OfferedInAnyOrder(q, p);
    forall id, name ensures ClaimsName(p, id, name) <==> ClaimsName(q, id, name) {
      if ClaimsName(p, id, name) { ClaimsInAnyOrder(p, q, id, name); }
      if ClaimsName(q, id, name) { ClaimsInAnyOrder(q, p, id, name); }
    }
    var name := Normal(p, spelling);
    assert Claimants(p, name) == Claimants(q, name);
    forall id ensures StandsFor(p, spelling, id) <==> StandsFor(q, spelling, id) {
    }
    if Resolved(p, spelling).Some? { ResolvesToExactlyWhen(q, spelling, Resolved(p, spelling).value); }
  }

  lemma {:induction false} TrimEndOfJoin(a: string, b: string)
    requires a != "" && !IsSpace(a[|a| - 1])
    ensures TrimEnd(a + b) == a + TrimEnd(b)
    decreases |b|
  {
    if b == "" {
      assert a + b == a;
    } else {
      assert (a + b)[..|a + b| - 1] == a + b[..|b| - 1];
      if IsSpace(b[|b| - 1]) { TrimEndOfJoin(a, b[..|b| - 1]); }
    }
  }

  /** A name qualified with the provider's own prefix is looked up like the bare name. */
  lemma QualifiedIsBare(p: Provider, name: string)
    requires p.id != "" && !IsSpace(p.id[0])
    requires Trim(name) == name && !(Prefix(p) <= name)
    ensures Resolved(p, Prefix(p) + name) == Resolved(p, name)
  {
    var qualified := Prefix(p) + name;
    assert qualified[0] == p.id[0];
    TrimEndOfTrimmed(name);
    TrimEndOfJoin(Prefix(p), name);
    assert Normal(p, qualified) == name == Normal(p, name);
    forall id ensures StandsFor(p, qualified, id) <==> StandsFor(p, name, id) {
    }
    if Resolved(p, qualified).Some? { ResolvesToExactlyWhen(p, name, Resolved(p, qualified).value); }
  }

  lemma TrimEndOfTrimmed(name: string)
    requires Trim(name) == name
    ensures TrimEnd(name) == name
  {
    TrimStartShortens(name);
    TrimEndShortens(TrimStart(name));
  }
}
