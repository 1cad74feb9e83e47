/** getFilteredComponents of internal/controller/common.go. */
module FilteredComponents {
  import opened Wrappers

  /** `usable` is false when no git component can be built; `branches` is None when they cannot be listed. */
  datatype Component = Component(namespace: string, name: string, application: string, disabled: bool, usable: bool,
                                 host: string, repository: string, branches: Option<seq<string>>)

  datatype AppSpec = AppSpec(application: string, components: seq<string>)

  datatype NamespaceSpec = NamespaceSpec(namespace: string, applications: seq<AppSpec>)

  /** The API's answer to a List of one namespace; None when the request fails. */
  type Listing = string -> Option<seq<Component>>

  // ----- Reference: how many entries of the specification select a component -----

  function CountOf(names: seq<string>, name: string): nat {
    if names == [] then 0 else CountOf(names[..|names| - 1], name) + if names[|names| - 1] == name then 1 else 0
  }

  function AppSelects(app: AppSpec, c: Component): nat {
    if app.application != c.application then 0
    else if app.components == [] then 1
    else CountOf(app.components, c.name)
  }

  function AppsSelect(apps: seq<AppSpec>, c: Component): nat {
    if apps == [] then 0 else AppsSelect(apps[..|apps| - 1], c) + AppSelects(apps[|apps| - 1], c)
  }

  function NamespaceSelects(spec: NamespaceSpec, listing: Listing, c: Component): nat {
    if listing(spec.namespace).None? || c !in listing(spec.namespace).value then 0
    else if spec.applications == [] then 1
    else AppsSelect(spec.applications, c)
  }

  function Selections(specs: seq<NamespaceSpec>, listing: Listing, c: Component): nat {
    if specs == [] then 0
    else Selections(specs[..|specs| - 1], listing, c) + NamespaceSelects(specs[|specs| - 1], listing, c)
  }

  /** Object names are unique within a namespace. */
  predicate UniqueNames(items: seq<Component>) {
    forall i, j | 0 <= i < j < |items| :: items[i].name != items[j].name
  }

  ghost predicate ListsUniqueNames(listing: Listing) {
    forall ns: string :: listing(ns).Some? ==> UniqueNames(listing(ns).value)
  }

  lemma UniqueMultiplicity(items: seq<Component>, c: Component)
    requires UniqueNames(items)
    ensures multiset(items)[c] == if c in items then 1 else 0
  {
    if c in items {
      var i :| 0 <= i < |items| && items[i] == c;
      assert items == items[..i] + [c] + items[i + 1..];
      assert c !in items[..i] && c !in items[i + 1..];
    }
  }

  // ----- The list, in order -----

  function OfApplication(items: seq<Component>, application: string): seq<Component> {
    if items == [] then []
    else OfApplication(items[..|items| - 1], application)
         + if items[|items| - 1].application == application then [items[|items| - 1]] else []
  }

  /** The first component with the name, as a list of at most one. */
  function FirstNamed(items: seq<Component>, name: string): seq<Component> {
    if items == [] then [] else if items[0].name == name then [items[0]] else FirstNamed(items[1..], name)
  }

  function ByNames(matching: seq<Component>, names: seq<string>): seq<Component> {
    if names == [] then [] else ByNames(matching, names[..|names| - 1]) + FirstNamed(matching, names[|names| - 1])
  }

  function ByApplication(items: seq<Component>, app: AppSpec): seq<Component> {
    var matching := OfApplication(items, app.application);
    if app.components == [] then matching else ByNames(matching, app.components)
  }

  function ByApplications(items: seq<Component>, apps: seq<AppSpec>): seq<Component> {
    if apps == [] then [] else ByApplications(items, apps[..|apps| - 1]) + ByApplication(items, apps[|apps| - 1])
  }

  function OfNamespace(spec: NamespaceSpec, items: seq<Component>): seq<Component> {
    if spec.applications == [] then items else ByApplications(items, spec.applications)
  }

  /** None as soon as some namespace cannot be listed. */
  function Filtered(specs: seq<NamespaceSpec>, listing: Listing): Option<seq<Component>> {
    if specs == [] then Some([])
    else
      var spec := specs[|specs| - 1];
      var before := Filtered(specs[..|specs| - 1], listing);
      if before.None? || listing(spec.namespace).None? then None
      else Some(before.value + OfNamespace(spec, listing(spec.namespace).value))
  }

  lemma {:induction false} OfApplicationExact(items: seq<Component>, application: string)
    requires UniqueNames(items)
    ensures UniqueNames(OfApplication(items, application))
    ensures forall c :: c in OfApplication(items, application) <==> c in items && c.application == application
  {
    if items != [] {
      var n := |items| - 1;
      OfApplicationExact(items[..n], application);
      assert items == items[..n] + [items[n]];
    }
  }

  lemma {:induction false} FirstNamedExact(items: seq<Component>, name: string, c: Component)
    requires UniqueNames(items)
    ensures multiset(FirstNamed(items, name))[c] == if c in items && c.name == name then 1 else 0
  {
    if items != [] && items[0].name != name {
      FirstNamedExact(items[1..], name, c);
      assert items == [items[0]] + items[1..];
    }
  }

  lemma {:induction false} ByNamesCount(matching: seq<Component>, names: seq<string>, c: Component)
    requires UniqueNames(matching)
    ensures multiset(ByNames(matching, names))[c] == if c in matching then CountOf(names, c.name) else 0
  {
    if names != [] {
      var n := |names| - 1;
      ByNamesCount(matching, names[..n], c);
      FirstNamedExact(matching, names[n], c);
    }
  }

  lemma {:induction false} ByApplicationsCount(items: seq<Component>, apps: seq<AppSpec>, c: Component)
    requires UniqueNames(items)
    ensures multiset(ByApplications(items, apps))[c] == if c in items then AppsSelect(apps, c) else 0
  {
    if apps != [] {
      var n := |apps| - 1;
      ByApplicationsCount(items, apps[..n], c);
      OfApplicationExact(items, apps[n].application);
      UniqueMultiplicity(OfApplication(items, apps[n].application), c);
      ByNamesCount(OfApplication(items, apps[n].application), apps[n].components, c);
    }
  }

  /** A component is listed once for every namespace, application or component entry that selects it. */
  lemma {:induction false} MultiplicityIsSelections(specs: seq<NamespaceSpec>, listing: Listing, c: Component)
    requires ListsUniqueNames(listing) && Filtered(specs, listing).Some?
    ensures multiset(Filtered(specs, listing).value)[c] == Selections(specs, listing, c)
  {
    if specs != [] {
      var n := |specs| - 1;
      MultiplicityIsSelections(specs[..n], listing, c);
      var items := listing(specs[n].namespace).value;
      UniqueMultiplicity(items, c);
      ByApplicationsCount(items, specs[n].applications, c);
    }
  }

  /** The gathering fails exactly when some namespace of the specification cannot be listed. */
  lemma {:induction false} FailsIffUnlistable(specs: seq<NamespaceSpec>, listing: Listing)
    ensures Filtered(specs, listing).None? <==> exists spec :: spec in specs && listing(spec.namespace).None?
  {
    if specs != [] {
      var n := |specs| - 1;
      FailsIffUnlistable(specs[..n], listing);
      assert specs == specs[..n] + [specs[n]];
    }
  }

  // ----- The code -----

  /** Lines 46-51. */
  method MatchingComponents(items: seq<Component>, application: string) returns (matching: seq<Component>)
    ensures matching == OfApplication(items, application)
  {
    matching := [];
    for i := 0 to |items|
      invariant matching == OfApplication(items[..i], application)
    {
      assert items[..i + 1][..i] == items[..i];
      if application == items[i].application {
        matching := matching + [items[i]];
      }
    }
    assert items[..|items|] == items;
  }

  /** Lines 58-65: for every name asked for, the first component that has it. */
  method SelectByName(matching: seq<Component>, names: seq<string>) returns (selected: seq<Component>)
    ensures selected == ByNames(matching, names)
  {
    selected := [];
    for i := 0 to |names|
      invariant selected == ByNames(matching, names[..i])
    {
      assert names[..i + 1][..i] == names[..i];
      ghost var before := selected;
      for j := 0 to |matching|
        invariant selected == before && FirstNamed(matching, names[i]) == FirstNamed(matching[j..], names[i])
      {
        if matching[j].name == names[i] {
          selected := selected + [matching[j]];
          break;
        }
      }
    }
    assert names[..|names|] == names;
  }

  /** Lines 44-66: the components of one namespace that its applications select. */
  method SelectByApplications(items: seq<Component>, apps: seq<AppSpec>) returns (selected: seq<Component>)
    ensures selected == ByApplications(items, apps)
  {
    selected := [];
    for i := 0 to |apps|
      invariant selected == ByApplications(items, apps[..i])
    {
      assert apps[..i + 1][..i] == apps[..i];
      var added := MatchingComponents(items, apps[i].application);
      if apps[i].components != [] {
        added := SelectByName(added, apps[i].components);
      }
      selected := selected + added;
    }
    assert apps[..|apps|] == apps;
  }

  /** getFilteredComponents. */
  method GetFilteredComponents(specs: seq<NamespaceSpec>, listing: Listing) returns (r: Option<seq<Component>>)
    ensures r == Filtered(specs, listing)
  {
    var components: seq<Component> := [];
    for i := 0 to |specs|
      invariant Filtered(specs[..i], listing) == Some(components)
    {
      assert specs[..i + 1][..i] == specs[..i];
      var list := listing(specs[i].namespace);
      if list.None? {
        assert specs[i] in specs;
        FailsIffUnlistable(specs, listing);
        return None;
      }
      var added := list.value;
      if specs[i].applications != [] {
        added := SelectByApplications(list.value, specs[i].applications);
      }
      components := components + added;
    }
    assert specs[..|specs|] == specs;
    return Some(components);
  }
}
