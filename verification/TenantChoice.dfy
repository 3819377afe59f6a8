/** Which tenant the operator shell makes active: the one asked for, the saved one, or a default,
    as far as they are allowed. */
module TenantChoice {

  import opened Wrappers
  import opened Text

  datatype Tenant = Tenant(tenantId: string, defaultForToken: bool, defaultForPrincipal: bool)

  datatype Me = Me(currentTenantId: string, defaultTenantId: string, allowed: seq<Tenant>)

  function FirstWith(tenants: seq<Tenant>, wanted: Tenant -> bool): (r: Option<Tenant>)
    ensures r.Some? ==> r.value in tenants && wanted(r.value)
    ensures r.None? ==> forall t :: t in tenants ==> !wanted(t)
  {
    if tenants == [] then None
    else if wanted(tenants[0]) then Some(tenants[0])
    else FirstWith(tenants[1..], wanted)
  }

  function OrElse(a: Option<Tenant>, b: Option<Tenant>): Option<Tenant> {
    if a.Some? then a else b
  }

  function TrimmedOrEmpty(s: Option<string>): string {
    if s.None? then "" else Trim(JavaScript, s.value)
  }

  function Preferred(allowed: seq<Tenant>, me: Me): Option<Tenant> {
    OrElse(FirstWith(allowed, (t: Tenant) => t.defaultForToken),
    OrElse(FirstWith(allowed, (t: Tenant) => t.defaultForPrincipal),
    OrElse(FirstWith(allowed, (t: Tenant) => t.tenantId == me.currentTenantId),
    OrElse(FirstWith(allowed, (t: Tenant) => t.tenantId == me.defaultTenantId),
           FirstWith(allowed, (t: Tenant) => true)))))
  }

  /** `resolveActiveTenant`, with the requested and the saved id already trimmed ("" if absent). */
  function Resolve(allowed: seq<Tenant>, me: Me, asked: string, explicitSelection: bool, kept: string): Option<Tenant> {
    var found := FirstWith(allowed, (t: Tenant) => t.tenantId == asked);
    if asked != "" && found.Some? then found
    else if asked != "" && explicitSelection then None
    else SavedOrPreferred(allowed, me, kept)
  }

  function SavedOrPreferred(allowed: seq<Tenant>, me: Me, kept: string): Option<Tenant> {
    var restored := FirstWith(allowed, (t: Tenant) => t.tenantId == kept);
    if kept != "" && restored.Some? then restored else Preferred(allowed, me)
  }

  lemma PreferredIsAllowed(allowed: seq<Tenant>, me: Me)
    ensures Preferred(allowed, me).None? <==> allowed == []
    ensures Preferred(allowed, me).Some? ==> Preferred(allowed, me).value in allowed
  {
    assert allowed != [] ==> allowed[0] in allowed;
  }

  predicate Listed(allowed: seq<Tenant>, id: string) {
    exists t :: t in allowed && t.tenantId == id
  }

  /** Only allowed tenants are chosen; nothing is chosen exactly when there is no allowed tenant or
      the one the user picked is not among them; a request for an allowed one is honoured. */
  lemma ResolveChoosesAllowed(allowed: seq<Tenant>, me: Me, asked: string, explicitSelection: bool, kept: string)
    ensures var r := Resolve(allowed, me, asked, explicitSelection, kept);
            && (r.Some? ==> r.value in allowed)
            && (r.None? <==> (allowed == [] || (explicitSelection && asked != "" && !Listed(allowed, asked))))
            && (asked != "" && Listed(allowed, asked) ==> r.Some? && r.value.tenantId == asked)
  {
    PreferredIsAllowed(allowed, me);
  }

  // ------------------------------------------------------------- the order of preference

  /** What may speak for a tenant. */
  datatype Criterion = WithId(id: string) | TokenDefault | PrincipalDefault | AnyTenant

  predicate Meets(t: Tenant, criterion: Criterion) {
    match criterion
    case WithId(id) => t.tenantId == id
    case TokenDefault => t.defaultForToken
    case PrincipalDefault => t.defaultForPrincipal
    case AnyTenant => true
  }

  /** What is tried, in this order: the tenant asked for, alone if the user picked it; the saved
      one; the defaults of token and principal; the current and the default tenant; any. */
  function Criteria(me: Me, asked: string, explicitSelection: bool, kept: string): seq<Criterion> {
    if asked != "" && explicitSelection then [WithId(asked)]
    else (if asked != "" then [WithId(asked)] else []) + (if kept != "" then [WithId(kept)] else []) + Defaults(me)
  }

  predicate SomeMeets(allowed: seq<Tenant>, criterion: Criterion) {
    exists t :: t in allowed && Meets(t, criterion)
  }

  /** The first tenant that meets the criterion. */
  predicate FirstMeeting(allowed: seq<Tenant>, criterion: Criterion, t: Tenant) {
    exists i :: && 0 <= i < |allowed| && allowed[i] == t && Meets(t, criterion)
                && forall j :: 0 <= j < i ==> !Meets(allowed[j], criterion)
  }

  /** The choice: the first tenant meeting the first criterion that any tenant meets. */
  predicate Chooses(allowed: seq<Tenant>, criteria: seq<Criterion>, r: Option<Tenant>) {
    if criteria == [] then r == None
    else if SomeMeets(allowed, criteria[0]) then r.Some? && FirstMeeting(allowed, criteria[0], r.value)
    else Chooses(allowed, criteria[1..], r)
  }

  lemma {:induction false} FirstWithMeets(allowed: seq<Tenant>, wanted: Tenant -> bool, criterion: Criterion)
    requires forall t :: wanted(t) <==> Meets(t, criterion)
    ensures FirstWith(allowed, wanted).Some? <==> SomeMeets(allowed, criterion)
    ensures FirstWith(allowed, wanted).Some? ==> FirstMeeting(allowed, criterion, FirstWith(allowed, wanted).value)
  {
    if allowed != [] {
      var rest := allowed[1..];
      FirstWithMeets(rest, wanted, criterion);
      assert allowed == [allowed[0]] + rest;
      if wanted(allowed[0]) {
        assert allowed[0] in allowed;
      } else if FirstWith(rest, wanted).Some? {
        var t := FirstWith(rest, wanted).value;
        var i :| && 0 <= i < |rest| && rest[i] == t && Meets(t, criterion)
                 && forall j :: 0 <= j < i ==> !Meets(rest[j], criterion);
        assert allowed[i + 1] == t;
        forall j | 0 <= j < i + 1 ensures !Meets(allowed[j], criterion) {
          assert j > 0 ==> allowed[j] == rest[j - 1];
        }
      }
    }
  }

  lemma PreferredChooses(allowed: seq<Tenant>, me: Me)
    ensures Chooses(allowed, Defaults(me), Preferred(allowed, me))
  {
    var c1, c2 := WithId(me.currentTenantId), WithId(me.defaultTenantId);
    FirstWithMeets(allowed, (t: Tenant) => t.defaultForToken, TokenDefault);
    FirstWithMeets(allowed, (t: Tenant) => t.defaultForPrincipal, PrincipalDefault);
    FirstWithMeets(allowed, (t: Tenant) => t.tenantId == me.currentTenantId, c1);
    FirstWithMeets(allowed, (t: Tenant) => t.tenantId == me.defaultTenantId, c2);
    FirstWithMeets(allowed, (t: Tenant) => true, AnyTenant);
    var r := Preferred(allowed, me);
    ChoosesCons(allowed, AnyTenant, [], r);
    ChoosesCons(allowed, c2, [AnyTenant], r);
    ChoosesCons(allowed, c1, [c2, AnyTenant], r);
    ChoosesCons(allowed, PrincipalDefault, [c1, c2, AnyTenant], r);
    ChoosesCons(allowed, TokenDefault, [PrincipalDefault, c1, c2, AnyTenant], r);
    assert [c2] + [AnyTenant] == [c2, AnyTenant] && [c1] + [c2, AnyTenant] == [c1, c2, AnyTenant];
    assert [PrincipalDefault] + [c1, c2, AnyTenant] == [PrincipalDefault, c1, c2, AnyTenant];
    assert [TokenDefault] + [PrincipalDefault, c1, c2, AnyTenant] == [TokenDefault, PrincipalDefault, c1, c2, AnyTenant];
  }

  lemma ChoosesCons(allowed: seq<Tenant>, criterion: Criterion, rest: seq<Criterion>, r: Option<Tenant>)
    ensures Chooses(allowed, [criterion] + rest, r) <==>
      if SomeMeets(allowed, criterion) then r.Some? && FirstMeeting(allowed, criterion, r.value) else Chooses(allowed, rest, r)
  {
    assert ([criterion] + rest)[1..] == rest;
  }

  function Defaults(me: Me): seq<Criterion> {
    [TokenDefault, PrincipalDefault, WithId(me.currentTenantId), WithId(me.defaultTenantId), AnyTenant]
  }

  /** Without a tenant that is asked for and allowed: the saved one, then the defaults. */
  lemma LaterChooses(allowed: seq<Tenant>, me: Me, kept: string)
    ensures Chooses(allowed, (if kept != "" then [WithId(kept)] else []) + Defaults(me), SavedOrPreferred(allowed, me, kept))
  {
    var r := SavedOrPreferred(allowed, me, kept);
    FirstWithMeets(allowed, (t: Tenant) => t.tenantId == kept, WithId(kept));
    PreferredChooses(allowed, me);
    ChoosesCons(allowed, WithId(kept), Defaults(me), r);
    assert [] + Defaults(me) == Defaults(me);
  }

  /** Which tenant is chosen, if any: the first one meeting the first criterion that is met. */
  lemma ResolveChooses(allowed: seq<Tenant>, me: Me, asked: string, explicitSelection: bool, kept: string)
    ensures Chooses(allowed, Criteria(me, asked, explicitSelection, kept), Resolve(allowed, me, asked, explicitSelection, kept))
  {
    var r := Resolve(allowed, me, asked, explicitSelection, kept);
    var later := (if kept != "" then [WithId(kept)] else []) + Defaults(me);
    FirstWithMeets(allowed, (t: Tenant) => t.tenantId == asked, WithId(asked));
    if asked == "" {
      LaterChooses(allowed, me, kept);
      assert Criteria(me, asked, explicitSelection, kept) == later;
    } else if explicitSelection {
      ChoosesCons(allowed, WithId(asked), [], r);
      assert [WithId(asked)] + [] == [WithId(asked)];
    } else {
      if !SomeMeets(allowed, WithId(asked)) {
        LaterChooses(allowed, me, kept);
      }
      ChoosesCons(allowed, WithId(asked), later, r);
      assert Criteria(me, asked, explicitSelection, kept) == [WithId(asked)] + later;
    }
  }
}
