/**
 The affected-package lists of tools/osv-generator/cve_parser.go. The regular expressions are not part
 of this model: each product comes with what they capture from its purl.
 */
module OsvAffected {
  import opened Wrappers
  import opened FirstWins
  import opened Text

  datatype Affected = Affected(ecosystem: string, name: string, purl: string, fixed: Option<string>)

  datatype RpmMatch = RpmMatch(purl: string, name: string, version: string)

  /** A leaf of the product tree: its purl, and what the container and RPM expressions capture from it. */
  datatype Product = Product(purl: string, repositoryUrl: Option<string>, rpm: Option<RpmMatch>)

  datatype SubBranch = SubBranch(category: string, products: seq<Product>)

  type Tree = seq<seq<SubBranch>>

  /** A list entry and the package name it is looked up by. */
  type Entry = Item<string, Affected>

  const NEW_REGISTRY := "registry.redhat.io"
  const OLD_REGISTRY := "registry.access.redhat.com"

  function ToOldRegistry(s: string): string {
    ReplaceAll(s, NEW_REGISTRY, OLD_REGISTRY)
  }

  lemma MismatchNotComparable(a: string, b: string, i: nat)
    requires i < |a| && i < |b| && a[i] != b[i]
    ensures !Comparable(a, b)
  {
  }

  /** The old registry name contains and overlaps no part of the new one that a rewrite could complete. */
  lemma RegistriesDoNotClash()
    ensures NoClash(NEW_REGISTRY, OLD_REGISTRY)
  {
    OldTailsDiffer();
    NewTailsDiffer();
    hide Comparable;
  }

  lemma OldTailsDiffer()
    ensures forall i | 0 <= i < |OLD_REGISTRY| :: !Comparable(OLD_REGISTRY[i..], NEW_REGISTRY)
  {
    forall i | 0 <= i < |OLD_REGISTRY| ensures !Comparable(OLD_REGISTRY[i..], NEW_REGISTRY) {
      MismatchNotComparable(OLD_REGISTRY[i..], NEW_REGISTRY,
          if i == 0 then 9 else if i == 6 then 1 else if i == 16 then 2 else 0);
    }
  }

  lemma NewTailsDiffer()
    ensures forall j | 0 <= j < |NEW_REGISTRY| :: !Comparable(NEW_REGISTRY[j..], OLD_REGISTRY)
  {
    forall j | 0 <= j < |NEW_REGISTRY| ensures !Comparable(NEW_REGISTRY[j..], OLD_REGISTRY) {
      MismatchNotComparable(NEW_REGISTRY[j..], OLD_REGISTRY,
          if j == 0 then 9 else if j == 6 then 1 else if j == 9 then 2 else 0);
    }
  }

  lemma ToOldRegistryIdempotent(s: string)
    ensures ToOldRegistry(ToOldRegistry(s)) == ToOldRegistry(s)
  {
    RegistriesDoNotClash();
    ReplaceAllIdempotent(s, NEW_REGISTRY, OLD_REGISTRY);
  }

  // ----- The rewrite without naming it -----

  /** The parts with a registry name between each two of them. */
  function With(parts: seq<string>, registry: string): string
    requires |parts| >= 1
  {
    if |parts| == 1 then parts[0] else parts[0] + registry + With(parts[1..], registry)
  }

  predicate FreeOfNew(parts: seq<string>) {
    forall part | part in parts :: !Occurs("registry.redhat.io", part)
  }

  /** `t` is `s` with the old registry name wherever `s` has the new one. */
  ghost predicate Rewritten(s: string, t: string) {
    exists parts :: |parts| >= 1 && FreeOfNew(parts)
      && s == With(parts, "registry.redhat.io") && t == With(parts, "registry.access.redhat.com")
  }

  lemma PrefixWithin(p: string, x: string, y: string)
    requires |p| <= |x|
    ensures p <= x + y <==> p <= x
  {
  }

  /** No end of the new name is also a beginning of it. */
  lemma NewDoesNotOverlapItself(i: nat) returns (m: nat)
    requires 0 < i < |NEW_REGISTRY|
    ensures i <= m < |NEW_REGISTRY| && NEW_REGISTRY[m] != NEW_REGISTRY[m - i]
  {
    m := if i == 6 then 7 else if i == 9 then 11 else i;
  }

  /** So none starts in a part before it. */
  lemma NoEarlierMatch(a: string, b: string, k: nat)
    requires k < |a| && !Occurs(NEW_REGISTRY, a)
    ensures !(NEW_REGISTRY <= (a + NEW_REGISTRY + b)[k..])
  {
    var t := a + NEW_REGISTRY + b;
    assert t[k..] == a[k..] + (NEW_REGISTRY + b);
    if k + |NEW_REGISTRY| <= |a| {
      PrefixWithin(NEW_REGISTRY, a[k..], NEW_REGISTRY + b);
    } else {
      var m := NewDoesNotOverlapItself(|a| - k);
      assert t[k..][m] == NEW_REGISTRY[m - (|a| - k)];
    }
  }

  lemma {:induction false} PartsRewritten(parts: seq<string>)
    requires |parts| >= 1 && FreeOfNew(parts)
    ensures ToOldRegistry(With(parts, NEW_REGISTRY)) == With(parts, OLD_REGISTRY)
  {
    hide ReplaceAll, Occurs;
    assert parts[0] in parts;
    if |parts| == 1 {
      NothingToReplace(parts[0], NEW_REGISTRY, OLD_REGISTRY);
    } else {
      PartsRewritten(parts[1..]);
      var rest := With(parts[1..], NEW_REGISTRY);
      forall k | 0 <= k < |parts[0]| ensures !(NEW_REGISTRY <= (parts[0] + NEW_REGISTRY + rest)[k..]) {
        NoEarlierMatch(parts[0], rest, k);
      }
      FirstMatchReplaced(parts[0], NEW_REGISTRY, rest, OLD_REGISTRY);
    }
  }

  lemma NotInBeginning(pattern: string, s: string, i: nat)
    requires pattern != "" && i <= |s| && forall k | 0 <= k < i :: !(pattern <= s[k..])
    ensures !Occurs(pattern, s[..i])
  {
    forall k | 0 <= k <= i ensures !(pattern <= s[..i][k..]) {
      assert s[k..] == s[..i][k..] + s[i..];
      if |pattern| <= i - k {
        PrefixWithin(pattern, s[..i][k..], s[i..]);
      }
    }
  }

  lemma FirstOccurrence(s: string, pattern: string) returns (i: nat)
    requires pattern != "" && Occurs(pattern, s)
    ensures i <= |s| && pattern <= s[i..] && !Occurs(pattern, s[..i])
  {
    i := 0;
    while !(pattern <= s[i..])
      invariant i <= |s| && forall k | 0 <= k < i :: !(pattern <= s[k..])
      decreases |s| - i
    {
      i := i + 1;
    }
    NotInBeginning(pattern, s, i);
  }

  lemma {:induction false} PartsExist(s: string) returns (parts: seq<string>)
    ensures |parts| >= 1 && FreeOfNew(parts) && s == With(parts, NEW_REGISTRY)
    decreases |s|
  {
    hide Occurs;
    if Occurs(NEW_REGISTRY, s) {
      var i := FirstOccurrence(s, NEW_REGISTRY);
      var j := i + |NEW_REGISTRY|;
      var rest := PartsExist(s[j..]);
      parts := [s[..i]] + rest;
      assert parts[1..] == rest;
      assert s[i..][..|NEW_REGISTRY|] == NEW_REGISTRY && s == s[..i] + s[i..j] + s[j..];
    } else {
      parts := [s];
    }
  }

  lemma RewrittenIff(s: string, t: string)
    ensures Rewritten(s, t) <==> t == ToOldRegistry(s)
  {
    hide ToOldRegistry, With, FreeOfNew;
    if Rewritten(s, t) {
      var parts :| |parts| >= 1 && FreeOfNew(parts) && s == With(parts, NEW_REGISTRY)
        && t == With(parts, OLD_REGISTRY);
      PartsRewritten(parts);
    }
    var parts := PartsExist(s);
    PartsRewritten(parts);
  }

  /** In particular, an image name that begins with the new registry. */
  lemma NameRewritten(rest: string)
    requires !Occurs("registry.redhat.io", rest)
    ensures ToOldRegistry("registry.redhat.io" + rest) == "registry.access.redhat.com" + rest
  {
    var parts := ["", rest];
    assert parts[1..] == [rest];
    assert With(parts, NEW_REGISTRY) == NEW_REGISTRY + rest && With(parts, OLD_REGISTRY) == OLD_REGISTRY + rest;
    PartsRewritten(parts);
  }

  // ----- The entries, in traversal order -----

  /** Lines 198-235: a container and its twin in the old registry. */
  function ContainerEntries(p: Product): seq<Entry> {
    if !HasPrefix(p.purl, "pkg:oci") || p.repositoryUrl.None? then []
    else
      var url := p.repositoryUrl.value;
      [(url, Affected("Docker", url, p.purl, None)),
       (ToOldRegistry(url), Affected("Docker", ToOldRegistry(url), ToOldRegistry(p.purl), None))]
  }

  /** Lines 148-182. */
  function RpmEntries(p: Product): seq<Entry> {
    if !HasPrefix(p.purl, "pkg:rpm") || p.rpm.None? then []
    else [(p.rpm.value.name, Affected("RPM", p.rpm.value.name, p.rpm.value.purl, Some(p.rpm.value.version)))]
  }

  function Entries(p: Product, containers: bool): seq<Entry> {
    if containers then ContainerEntries(p) else RpmEntries(p)
  }

  function ProductEntries(products: seq<Product>, containers: bool): seq<Entry> {
    if products == [] then []
    else ProductEntries(products[..|products| - 1], containers) + Entries(products[|products| - 1], containers)
  }

  function ArchitectureEntries(sub: SubBranch, containers: bool): seq<Entry> {
    if sub.category == "architecture" then ProductEntries(sub.products, containers) else []
  }

  function SubBranchEntries(subs: seq<SubBranch>, containers: bool): seq<Entry> {
    if subs == [] then []
    else SubBranchEntries(subs[..|subs| - 1], containers) + ArchitectureEntries(subs[|subs| - 1], containers)
  }

  function TreeEntries(tree: Tree, containers: bool): seq<Entry> {
    if tree == [] then []
    else TreeEntries(tree[..|tree| - 1], containers) + SubBranchEntries(tree[|tree| - 1], containers)
  }

  // ----- The code -----

  /** contains. */
  method Contains(list: seq<Entry>, name: string) returns (found: bool)
    ensures found <==> name in Keys(list)
  {
    for i := 0 to |list|
      invariant name !in Keys(list)[..i]
    {
      if list[i].0 == name {
        assert Keys(list)[i] == name;
        return true;
      }
    }
    assert Keys(list)[..|list|] == Keys(list);
    return false;
  }

  method AppendNew(list: seq<Entry>, entries: seq<Entry>, ghost earlier: seq<Entry>) returns (list': seq<Entry>)
    requires list == FirstByKey(earlier)
    ensures list' == FirstByKey(earlier + entries)
  {
    list' := list;
    assert earlier + [] == earlier;
    for i := 0 to |entries|
      invariant list' == FirstByKey(earlier + entries[..i])
    {
      var all := earlier + entries[..i + 1];
      assert all[..|all| - 1] == earlier + entries[..i];
      var known := Contains(list', entries[i].0);
      if !known {
        list' := list' + [entries[i]];
      }
    }
    assert entries[..|entries|] == entries;
  }

  /** The innermost loop, over the products of one architecture. */
  method AppendProducts(list: seq<Entry>, products: seq<Product>, containers: bool, ghost earlier: seq<Entry>)
    returns (list': seq<Entry>)
    requires list == FirstByKey(earlier)
    ensures list' == FirstByKey(earlier + ProductEntries(products, containers))
  {
    list' := list;
    assert earlier + [] == earlier;
    for i := 0 to |products|
      invariant list' == FirstByKey(earlier + ProductEntries(products[..i], containers))
    {
      ghost var seen := earlier + ProductEntries(products[..i], containers);
      list' := AppendNew(list', Entries(products[i], containers), seen);
      assert products[..i + 1][..i] == products[..i];
      assert seen + Entries(products[i], containers) == earlier + ProductEntries(products[..i + 1], containers);
    }
    assert products[..|products|] == products;
  }

  lemma OneMoreArchitecture(subs: seq<SubBranch>, j: nat, containers: bool, earlier: seq<Entry>)
    requires j < |subs|
    ensures var before := earlier + SubBranchEntries(subs[..j], containers);
            var after := earlier + SubBranchEntries(subs[..j + 1], containers);
            after == if subs[j].category == "architecture" then before + ProductEntries(subs[j].products, containers)
                     else before
  {
    assert subs[..j + 1][..j] == subs[..j];
    var before := earlier + SubBranchEntries(subs[..j], containers);
    assert earlier + SubBranchEntries(subs[..j + 1], containers) == before + ArchitectureEntries(subs[j], containers);
  }

  /** The middle loop, over the architectures of one branch. */
  method AppendArchitectures(list: seq<Entry>, subs: seq<SubBranch>, containers: bool, ghost earlier: seq<Entry>)
    returns (list': seq<Entry>)
    requires list == FirstByKey(earlier)
    ensures list' == FirstByKey(earlier + SubBranchEntries(subs, containers))
  {
    list' := list;
    assert earlier + [] == earlier;
    for j := 0 to |subs|
      invariant list' == FirstByKey(earlier + SubBranchEntries(subs[..j], containers))
    {
      OneMoreArchitecture(subs, j, containers, earlier);
      if subs[j].category == "architecture" {
        list' := AppendProducts(list', subs[j].products, containers, earlier + SubBranchEntries(subs[..j], containers));
      }
    }
    assert subs[..|subs|] == subs;
  }

  /** The expressions capture what they look for in every purl of the kind; the code indexes the captures unchecked. */
  predicate Captured(tree: Tree, containers: bool) {
    forall i, j, k | 0 <= i < |tree| && 0 <= j < |tree[i]| && 0 <= k < |tree[i][j].products| ::
      var p := tree[i][j].products[k];
      if containers then HasPrefix(p.purl, "pkg:oci") ==> p.repositoryUrl.Some?
      else HasPrefix(p.purl, "pkg:rpm") ==> p.rpm.Some?
  }

  /** getAffectedListContainers and getAffectedListRPMs. */
  method GetAffectedList(tree: Tree, containers: bool) returns (list: seq<Entry>)
    requires Captured(tree, containers)
    ensures list == FirstByKey(TreeEntries(tree, containers))
  {
    list := [];
    for i := 0 to |tree|
      invariant list == FirstByKey(TreeEntries(tree[..i], containers))
    {
      list := AppendArchitectures(list, tree[i], containers, TreeEntries(tree[..i], containers));
      assert tree[..i + 1][..i] == tree[..i];
    }
    assert tree[..|tree|] == tree;
  }

  // ----- What the list is -----

  lemma {:induction false} ProductKeysClosed(products: seq<Product>, name: string)
    requires name in Keys(ProductEntries(products, true))
    ensures ToOldRegistry(name) in Keys(ProductEntries(products, true))
  {
    var n := |products| - 1;
    var last := ContainerEntries(products[n]);
    KeysAppend(ProductEntries(products[..n], true), last);
    if name in Keys(ProductEntries(products[..n], true)) {
      ProductKeysClosed(products[..n], name);
    } else {
      var url := products[n].repositoryUrl.value;
      assert Keys(last) == [url, ToOldRegistry(url)];
      ToOldRegistryIdempotent(url);
    }
  }

  lemma {:induction false} SubBranchKeysClosed(subs: seq<SubBranch>, name: string)
    requires name in Keys(SubBranchEntries(subs, true))
    ensures ToOldRegistry(name) in Keys(SubBranchEntries(subs, true))
  {
    var n := |subs| - 1;
    var last := ArchitectureEntries(subs[n], true);
    KeysAppend(SubBranchEntries(subs[..n], true), last);
    if name in Keys(SubBranchEntries(subs[..n], true)) {
      SubBranchKeysClosed(subs[..n], name);
    } else {
      ProductKeysClosed(subs[n].products, name);
    }
  }

  lemma {:induction false} TreeKeysClosed(tree: Tree, name: string)
    requires name in Keys(TreeEntries(tree, true))
    ensures ToOldRegistry(name) in Keys(TreeEntries(tree, true))
  {
    var n := |tree| - 1;
    KeysAppend(TreeEntries(tree[..n], true), SubBranchEntries(tree[n], true));
    if name in Keys(TreeEntries(tree[..n], true)) {
      TreeKeysClosed(tree[..n], name);
    } else {
      SubBranchKeysClosed(tree[n], name);
    }
  }

  /**
   The container list has pairwise distinct names, and with every name it has the name the image carries
   in the old registry.
   */
  lemma ContainerListClosed(tree: Tree)
    ensures var list := FirstByKey(TreeEntries(tree, true));
            && DistinctKeys(list)
            && (forall name, oldName | name in Keys(list) && Rewritten(name, oldName) :: oldName in Keys(list))
            && forall rest | "registry.redhat.io" + rest in Keys(list) && !Occurs("registry.redhat.io", rest) ::
                 "registry.access.redhat.com" + rest in Keys(list)
  {
    hide Occurs, Rewritten, ToOldRegistry;
    var entries := TreeEntries(tree, true);
    var list := FirstByKey(entries);
    FirstByKeyDistinct(entries);
    forall name | name in Keys(list) ensures ToOldRegistry(name) in Keys(list) {
      FirstByKeyKeys(entries, name);
      TreeKeysClosed(tree, name);
      FirstByKeyKeys(entries, ToOldRegistry(name));
    }
    forall name, oldName | name in Keys(list) && Rewritten(name, oldName) ensures oldName in Keys(list) {
      RewrittenIff(name, oldName);
    }
    forall rest | "registry.redhat.io" + rest in Keys(list) && !Occurs("registry.redhat.io", rest)
      ensures "registry.access.redhat.com" + rest in Keys(list)
    {
      NameRewritten(rest);
    }
  }

  // ----- What is in it, product by product -----

  /** A product listed under an architecture. */
  predicate Reported(tree: Tree, p: Product) {
    exists subs, sub :: subs in tree && sub in subs && sub.category == "architecture" && p in sub.products
  }

  /** The entry says of the product itself what it should. */
  predicate Describes(p: Product, e: Entry, containers: bool) {
    && e.0 == e.1.name
    && if containers then
         && "pkg:oci" <= p.purl && p.repositoryUrl == Some(e.1.name)
         && e.1.ecosystem == "Docker" && e.1.purl == p.purl && e.1.fixed == None
       else
         && "pkg:rpm" <= p.purl && e.1.ecosystem == "RPM"
         && p.rpm.Some? && e.1.fixed.Some? && p.rpm.value == RpmMatch(e.1.purl, e.1.name, e.1.fixed.value)
  }

  /** `twin` is `e` moved to the old registry. */
  ghost predicate IsTwin(e: Entry, twin: Entry) {
    && twin.0 == twin.1.name && Rewritten(e.1.name, twin.1.name) && Rewritten(e.1.purl, twin.1.purl)
    && twin.1.ecosystem == e.1.ecosystem && twin.1.fixed == e.1.fixed
  }

  /** A product gives its entry, then for a container the twin; one of another kind gives none. */
  lemma EntriesOfProduct(p: Product, containers: bool)
    ensures var r := Entries(p, containers);
            && (r == [] <==> forall e :: !Describes(p, e, containers))
            && (r != [] ==> Describes(p, r[0], containers))
            && (r != [] && !containers ==> |r| == 1)
            && (r != [] && containers ==> |r| == 2 && IsTwin(r[0], r[1]))
  {
    hide Rewritten, ToOldRegistry;
    var r := Entries(p, containers);
    if containers && p.repositoryUrl.Some? {
      var url := p.repositoryUrl.value;
      RewrittenIff(url, ToOldRegistry(url));
      RewrittenIff(p.purl, ToOldRegistry(p.purl));
      assert "pkg:oci" <= p.purl ==> Describes(p, r[0], true);
    } else if !containers && p.rpm.Some? {
      assert "pkg:rpm" <= p.purl ==> Describes(p, r[0], false);
    }
  }

  lemma OneDescription(p: Product, e: Entry, other: Entry, containers: bool)
    requires Describes(p, e, containers) && Describes(p, other, containers)
    ensures e == other
  {
  }

  /** The entries of a tree are those of its products in the order of traversal: of parts one after the other ... */
  lemma {:induction false} EntriesInOrder(a: Tree, b: Tree, containers: bool)
    ensures TreeEntries(a + b, containers) == TreeEntries(a, containers) + TreeEntries(b, containers)
    decreases |b|
  {
    hide SubBranchEntries;
    if b == [] {
      assert a + b == a;
    } else {
      EntriesInOrder(a, b[..|b| - 1], containers);
      assert (a + b)[..|a + b| - 1] == a + b[..|b| - 1];
    }
  }

  /** ... also below one branch, where only architectures count ... */
  lemma {:induction false} BranchInOrder(a: seq<SubBranch>, b: seq<SubBranch>, containers: bool)
    ensures SubBranchEntries(a + b, containers) == SubBranchEntries(a, containers) + SubBranchEntries(b, containers)
    decreases |b|
  {
    hide ArchitectureEntries;
    if b == [] {
      assert a + b == a;
    } else {
      var before, last := b[..|b| - 1], ArchitectureEntries(b[|b| - 1], containers);
      BranchInOrder(a, before, containers);
      assert (a + b)[..|a + b| - 1] == a + before;
      assert SubBranchEntries(a + b, containers) == SubBranchEntries(a + before, containers) + last;
    }
  }

  lemma OneBranch(subs: seq<SubBranch>, containers: bool)
    ensures TreeEntries([subs], containers) == SubBranchEntries(subs, containers)
  {
    hide SubBranchEntries;
    assert [subs][..0] == [] && TreeEntries([], containers) == [];
  }

  /** ... and below one architecture. */
  lemma {:induction false} ProductsInOrder(a: seq<Product>, b: seq<Product>, containers: bool)
    ensures ProductEntries(a + b, containers) == ProductEntries(a, containers) + ProductEntries(b, containers)
    decreases |b|
  {
    hide Entries;
    if b == [] {
      assert a + b == a;
    } else {
      var before, last := b[..|b| - 1], Entries(b[|b| - 1], containers);
      ProductsInOrder(a, before, containers);
      assert (a + b)[..|a + b| - 1] == a + before;
      assert ProductEntries(a + b, containers) == ProductEntries(a + before, containers) + last;
    }
  }

  lemma OneSubBranch(category: string, products: seq<Product>, p: Product, containers: bool)
    ensures TreeEntries([[SubBranch(category, products)]], containers)
      == if category == "architecture" then ProductEntries(products, containers) else []
    ensures ProductEntries([p], containers) == Entries(p, containers)
  {
    hide Entries;
    var sub := SubBranch(category, products);
    OneBranch([sub], containers);
    assert [sub][..0] == [] && SubBranchEntries([], containers) == [];
    assert [p][..0] == [] && ProductEntries([], containers) == [];
  }

  lemma {:induction false} InProducts(products: seq<Product>, containers: bool, e: Entry)
    ensures e in ProductEntries(products, containers) <==> exists p :: p in products && e in Entries(p, containers)
  {
    hide Entries;
    if products != [] {
      var before, last := products[..|products| - 1], products[|products| - 1];
      InProducts(before, containers, e);
      assert products == before + [last];
      assert last in products;
    }
  }

  predicate Below(subs: seq<SubBranch>, containers: bool, e: Entry) {
    exists sub, p :: sub in subs && sub.category == "architecture" && p in sub.products && e in Entries(p, containers)
  }

  lemma {:induction false} InSubBranches(subs: seq<SubBranch>, containers: bool, e: Entry)
    ensures e in SubBranchEntries(subs, containers) <==> Below(subs, containers, e)
  {
    hide Entries, ProductEntries;
    if subs != [] {
      var before, last := subs[..|subs| - 1], subs[|subs| - 1];
      InSubBranches(before, containers, e);
      InProducts(last.products, containers, e);
      assert subs == before + [last];
      assert last in subs;
    }
  }

  lemma {:induction false} InTree(tree: Tree, containers: bool, e: Entry)
    ensures e in TreeEntries(tree, containers) <==> exists subs :: subs in tree && Below(subs, containers, e)
  {
    hide Below, SubBranchEntries;
    if tree != [] {
      var before, last := tree[..|tree| - 1], tree[|tree| - 1];
      InTree(before, containers, e);
      InSubBranches(last, containers, e);
      assert tree == before + [last];
      assert last in tree;
    }
  }

  /**
   The list from the products: every entry is that of a product reported under an architecture, or the twin of one,
   and every such product has its name in the list, a container with its twin's.
   */
  lemma ListIsOfProducts(tree: Tree, containers: bool)
    ensures var list := FirstByKey(TreeEntries(tree, containers));
            && (forall e | e in list :: exists p, own ::
                  Reported(tree, p) && Describes(p, own, containers) && (e == own || (containers && IsTwin(own, e))))
            && (forall p, own | Reported(tree, p) && Describes(p, own, containers) ::
                  && own.1.name in Keys(list)
                  && (containers ==> exists twin :: IsTwin(own, twin) && twin.1.name in Keys(list)))
  {
    var entries := TreeEntries(tree, containers);
    var list := FirstByKey(entries);
    hide TreeEntries, FirstByKey, Describes, IsTwin;
    forall e | e in list
      ensures exists p, own ::
        Reported(tree, p) && Describes(p, own, containers) && (e == own || (containers && IsTwin(own, e)))
    {
      ListedIsEntry(entries, e);
      InTree(tree, containers, e);
      var subs :| subs in tree && Below(subs, containers, e);
      var sub, p :| sub in subs && sub.category == "architecture" && p in sub.products && e in Entries(p, containers);
      EntriesOfProduct(p, containers);
      assert Reported(tree, p) && Describes(p, Entries(p, containers)[0], containers);
    }
    forall p, own | Reported(tree, p) && Describes(p, own, containers)
      ensures own.1.name in Keys(list)
      ensures containers ==> exists twin :: IsTwin(own, twin) && twin.1.name in Keys(list)
    {
      EntriesOfProduct(p, containers);
      var r := Entries(p, containers);
      OneDescription(p, own, r[0], containers);
      ReportedIsListed(tree, p, containers, r[0]);
      if containers {
        ReportedIsListed(tree, p, containers, r[1]);
      }
      NamedByKey(p, containers);
    }
  }

  lemma NamedByKey(p: Product, containers: bool)
    ensures forall e | e in Entries(p, containers) :: e.0 == e.1.name
  {
  }

  lemma {:induction false} ListedIsEntry(entries: seq<Entry>, e: Entry)
    requires e in FirstByKey(entries)
    ensures e in entries
  {
    var before := entries[..|entries| - 1];
    if e in FirstByKey(before) {
      ListedIsEntry(before, e);
    }
  }

  lemma ReportedIsListed(tree: Tree, p: Product, containers: bool, e: Entry)
    requires Reported(tree, p) && e in Entries(p, containers)
    ensures e.0 in Keys(FirstByKey(TreeEntries(tree, containers)))
  {
    var entries := TreeEntries(tree, containers);
    hide TreeEntries, FirstByKey, Entries;
    InTree(tree, containers, e);
    var i :| 0 <= i < |entries| && entries[i] == e;
    assert Keys(entries)[i] == e.0;
    FirstByKeyKeys(entries, e.0);
  }

  /** Each name keeps the entry of its first occurrence in traversal order, and no name is dropped. */
  lemma ListKeepsFirstOccurrences(tree: Tree, containers: bool)
    ensures var entries := TreeEntries(tree, containers);
            var list := FirstByKey(entries);
            var p := FirstPositions(entries);
            && |list| == |p| && (forall k | 0 <= k < |p| :: list[k] == entries[p[k]])
            && (forall i, j | 0 <= i < j < |p| :: p[i] < p[j])
            && (forall i: nat :: i in p <==> FirstAt(entries, i))
  {
    KeepsFirstPositions(TreeEntries(tree, containers));
    FirstPositionsExact(TreeEntries(tree, containers));
  }
}
