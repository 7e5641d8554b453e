/** The venue category catalogue (`app/services/venue_category.py`): flat rows with parent
    pointers assembled into a tree by recursion that nothing guards. */
module CategoryTree {
  import opened Wrappers
  import opened Filtering

  type Id = int

  const DEFAULT_LOCALE := "tr"

  datatype Category = Category(id: Id, parent: Option<Id>, slug: string)

  datatype CategoryNode = CategoryNode(id: Id, slug: string, name: string, children: seq<CategoryNode>)

  datatype Translation = Translation(category: Id, locale: string, name: string)

  type Groups = map<Option<Id>, seq<Category>>

  /** Ids are the table's primary key. Parent pointers are arbitrary and may form cycles. */
  ghost predicate UniqueIds(rows: seq<Category>) {
    forall i, j | 0 <= i < j < |rows| :: rows[i].id != rows[j].id
  }

  // --- names ---------------------------------------------------------------------

  /** The name the table gives a category in a locale; the last row wins. */
  function NameIn(rows: seq<Translation>, locale: string, id: Id): Option<string> {
    if rows == [] then None
    else
      var last := rows[|rows| - 1];
      if last.locale == locale && last.category == id then Some(last.name) else NameIn(rows[..|rows| - 1], locale, id)
  }

  predicate Names(t: Translation, locale: string, id: Id) {
    t.locale == locale && t.category == id
  }

  /** A name is the one some row gives, a later row over an earlier; without a row there is none. */
  lemma {:induction false} NameIsTheRows(rows: seq<Translation>, locale: string, id: Id)
    ensures match NameIn(rows, locale, id)
            case None => forall t <- rows :: !Names(t, locale, id)
            case Some(name) =>
              exists i | 0 <= i < |rows| :: rows[i] == Translation(id, locale, name)
                && forall j | i < j < |rows| :: !Names(rows[j], locale, id)
  {
    if rows != [] { NameIsTheRows(rows[..|rows| - 1], locale, id); }
  }

  function Lookup(m: map<Id, string>, id: Id): Option<string> {
    if id in m then Some(m[id]) else None
  }

  function LocaleNames(byLocale: map<string, map<Id, string>>, locale: string): map<Id, string> {
    if locale in byLocale then byLocale[locale] else map[]
  }

  /** `resolve_names`: each category's name in the locale, or failing that in the default one. */
  method ResolveNames(rows: seq<Translation>, locale: string) returns (names: map<Id, string>)
    ensures forall id :: Lookup(names, id)
              == if NameIn(rows, locale, id).Some? then NameIn(rows, locale, id) else NameIn(rows, DEFAULT_LOCALE, id)
  {
    var wanted := {locale, DEFAULT_LOCALE};
    var byLocale: map<string, map<Id, string>> := map[];
    var i := 0;
    while i < |rows|
      invariant 0 <= i <= |rows|
      invariant forall l, id | l in wanted :: Lookup(LocaleNames(byLocale, l), id) == NameIn(rows[..i], l, id)
    {
      var row := rows[i];
      assert rows[..i + 1][..i] == rows[..i];
      if row.locale in wanted {
        byLocale := byLocale[row.locale := LocaleNames(byLocale, row.locale)[row.category := row.name]];
      }
      i := i + 1;
    }
    assert rows[..i] == rows;
    names := LocaleNames(byLocale, DEFAULT_LOCALE) + LocaleNames(byLocale, locale);
    forall id
      ensures Lookup(names, id)
              == if NameIn(rows, locale, id).Some? then NameIn(rows, locale, id) else NameIn(rows, DEFAULT_LOCALE, id)
    {
      assert locale in wanted && DEFAULT_LOCALE in wanted;
    }
  }

  // --- grouping --------------------------------------------------------------------

  /** The rows hanging off a parent, in input order. */
  function ChildrenOf(rows: seq<Category>, parent: Option<Id>): seq<Category> {
    if rows == [] then []
    else
      ChildrenOf(rows[..|rows| - 1], parent)
      + (if rows[|rows| - 1].parent == parent then [rows[|rows| - 1]] else [])
  }

  function Group(groups: Groups, parent: Option<Id>): seq<Category> {
    if parent in groups then groups[parent] else []
  }

  ghost predicate Grouped(rows: seq<Category>, groups: Groups) {
    forall parent :: Group(groups, parent) == ChildrenOf(rows, parent)
  }

  method GroupByParent(rows: seq<Category>) returns (groups: Groups)
    ensures Grouped(rows, groups)
  {
    groups := map[];
    var i := 0;
    while i < |rows|
      invariant 0 <= i <= |rows|
      invariant Grouped(rows[..i], groups)
    {
      assert rows[..i + 1][..i] == rows[..i];
      groups := groups[rows[i].parent := Group(groups, rows[i].parent) + [rows[i]]];
      i := i + 1;
    }
    assert rows[..i] == rows;
  }

  lemma {:induction false} ChildrenMembers(rows: seq<Category>, parent: Option<Id>, c: Category)
    ensures c in ChildrenOf(rows, parent) <==> c in rows && c.parent == parent
  {
    if rows != [] {
      ChildrenMembers(rows[..|rows| - 1], parent, c);
      assert rows == rows[..|rows| - 1] + [rows[|rows| - 1]];
    }
  }

  lemma {:induction false} ChildrenAreDistinct(rows: seq<Category>, parent: Option<Id>)
    requires UniqueIds(rows)
    ensures UniqueIds(ChildrenOf(rows, parent))
  {
    if rows != [] {
      var front, last := rows[..|rows| - 1], rows[|rows| - 1];
      ChildrenAreDistinct(front, parent);
      forall c <- ChildrenOf(front, parent) ensures c.id != last.id {
        ChildrenMembers(front, parent, c);
      }
    }
  }

  function HangsOff(parent: Option<Id>): Category -> bool {
    (c: Category) => c.parent == parent
  }

  function IsNamed(names: map<Id, string>): Category -> bool {
    (c: Category) => c.id in names
  }

  lemma {:induction false} KeptSnoc<T>(rows: seq<T>, last: T, keep: T -> bool)
    ensures Kept(rows + [last], keep) == Kept(rows, keep) + if keep(last) then [last] else []
  {
    if rows == [] {
      assert rows + [last] == [last];
    } else {
      assert (rows + [last])[1..] == rows[1..] + [last];
      KeptSnoc(rows[1..], last, keep);
    }
  }

  lemma {:induction false} ChildrenAreKept(rows: seq<Category>, parent: Option<Id>)
    ensures ChildrenOf(rows, parent) == Kept(rows, HangsOff(parent))
  {
    if rows != [] {
      var front, last := rows[..|rows| - 1], rows[|rows| - 1];
      ChildrenAreKept(front, parent);
      KeptSnoc(front, last, HangsOff(parent));
      assert rows == front + [last];
    }
  }

  lemma {:induction false} NamedAreKept(kids: seq<Category>, names: map<Id, string>)
    ensures Named(kids, names) == Kept(kids, IsNamed(names))
  {
    if kids != [] { NamedAreKept(kids[1..], names); }
  }

  /** A level of the tree: the parent's rows, and of those the named ones, each once and in
      the order of the table. */
  lemma LevelsKeepInputOrder(rows: seq<Category>, names: map<Id, string>, parent: Option<Id>)
    ensures IsFiltered(rows, HangsOff(parent), ChildrenOf(rows, parent))
    ensures IsFiltered(ChildrenOf(rows, parent), IsNamed(names), Named(ChildrenOf(rows, parent), names))
  {
    ChildrenAreKept(rows, parent);
    KeptIsFiltered(rows, HangsOff(parent));
    NamedAreKept(ChildrenOf(rows, parent), names);
    KeptIsFiltered(ChildrenOf(rows, parent), IsNamed(names));
  }

  // --- chains of ancestors ------------------------------------------------------------

  /** A walk down from a root, parent to child. */
  ghost predicate Chain(rows: seq<Category>, path: seq<Category>) {
    && (forall c <- path :: c in rows)
    && (path != [] ==> path[0].parent.None?)
    && (forall i, j | 0 <= i < j < |path| && j == i + 1 :: path[j].parent == Some(path[i].id))
  }

  /** What the next row of the walk must name as its parent. */
  function End(path: seq<Category>): Option<Id> {
    if path == [] then None else Some(path[|path| - 1].id)
  }

  lemma SameIdSameRow(rows: seq<Category>, c: Category, d: Category)
    requires UniqueIds(rows) && c in rows && d in rows && c.id == d.id
    ensures c == d
  {
  }

  /** The chain above a row is determined by the row: parents are unique, and it ends at a root. */
  lemma {:induction false} ChainIsUnique(rows: seq<Category>, p: seq<Category>, q: seq<Category>)
    requires UniqueIds(rows) && Chain(rows, p) && Chain(rows, q) && End(p) == End(q)
    ensures p == q
  {
    if p != [] {
      SameIdSameRow(rows, p[|p| - 1], q[|q| - 1]);
      var p', q' := p[..|p| - 1], q[..|q| - 1];
      assert End(p') == p[|p| - 1].parent && End(q') == q[|q| - 1].parent;
      ChainIsUnique(rows, p', q');
      assert p == p' + [p[|p| - 1]] && q == q' + [q[|q| - 1]];
    }
  }

  /** So a walk never returns to a row, cycles or not, and is no longer than the table. */
  lemma ChainVisitsOnce(rows: seq<Category>, path: seq<Category>, i: nat, j: nat)
    requires UniqueIds(rows) && Chain(rows, path) && i < j < |path|
    ensures path[i].id != path[j].id
  {
    if path[i].id == path[j].id {
      ChainPrefix(rows, path, i + 1);
      ChainPrefix(rows, path, j + 1);
      ChainIsUnique(rows, path[..i + 1], path[..j + 1]);
    }
  }

  lemma ChainPrefix(rows: seq<Category>, path: seq<Category>, n: nat)
    requires Chain(rows, path) && n <= |path|
    ensures Chain(rows, path[..n])
    ensures n > 0 ==> End(path[..n]) == Some(path[n - 1].id)
  {
  }

  lemma {:induction false} DistinctFits(rows: seq<Category>, path: seq<Category>)
    requires forall c <- path :: c in rows
    requires forall i, j | 0 <= i < j < |path| :: path[i] != path[j]
    ensures |path| <= |rows|
    decreases |rows|
  {
    if path != [] {
      var last := path[|path| - 1];
      assert last in path;
      var k :| 0 <= k < |rows| && rows[k] == last;
      var rest := rows[..k] + rows[k + 1..];
      forall c <- path[..|path| - 1] ensures c in rest {
        assert c in path;
        var i :| 0 <= i < |rows| && rows[i] == c;
        assert i != k;
        assert c == if i < k then rest[i] else rest[i - 1];
      }
      DistinctFits(rest, path[..|path| - 1]);
    }
  }

  lemma ChainFits(rows: seq<Category>, path: seq<Category>)
    requires UniqueIds(rows) && Chain(rows, path)
    ensures |path| <= |rows|
  {
    forall i, j | 0 <= i < j < |path| ensures path[i] != path[j] {
      ChainVisitsOnce(rows, path, i, j);
    }
    DistinctFits(rows, path);
  }

  // --- the tree ----------------------------------------------------------------------

  /** What `build` may be asked for: rows that continue the walk it is on. */
  ghost predicate Continues(rows: seq<Category>, path: seq<Category>, kids: seq<Category>) {
    Chain(rows, path) && forall k <- kids :: k in rows && k.parent == End(path)
  }

  lemma ChildrenContinue(rows: seq<Category>, path: seq<Category>)
    requires Chain(rows, path)
    ensures Continues(rows, path, ChildrenOf(rows, End(path)))
  {
    forall k <- ChildrenOf(rows, End(path)) ensures k in rows && k.parent == End(path) {
      ChildrenMembers(rows, End(path), k);
    }
  }

  lemma ChainExtends(rows: seq<Category>, path: seq<Category>, k: Category)
    requires Chain(rows, path) && k in rows && k.parent == End(path)
    ensures Chain(rows, path + [k]) && End(path + [k]) == Some(k.id)
  {
  }

  lemma Descend(rows: seq<Category>, path: seq<Category>, kids: seq<Category>)
    requires UniqueIds(rows) && kids != [] && Continues(rows, path, kids)
    ensures Continues(rows, path, kids[1..])
    ensures Continues(rows, path + [kids[0]], ChildrenOf(rows, Some(kids[0].id)))
    ensures |path| <= |rows|
  {
    ChainFits(rows, path);
    assert forall k <- kids[1..] :: k in kids;
    ChainExtends(rows, path, kids[0]);
    ChildrenContinue(rows, path + [kids[0]]);
  }

  /** The comprehension inside `build`, over the rows not yet reached. The walk so far is
      ghost: it only shows that the recursion ends. */
  function Build(groups: Groups, names: map<Id, string>, kids: seq<Category>,
                 ghost rows: seq<Category>, ghost path: seq<Category>): seq<CategoryNode>
    requires UniqueIds(rows) && Grouped(rows, groups) && Continues(rows, path, kids)
    decreases |rows| - |path|, |kids|
  {
    if kids == [] then []
    else
      Descend(rows, path, kids);
      var k := kids[0];
      var rest := Build(groups, names, kids[1..], rows, path);
      if k.id !in names then rest
      else
        [CategoryNode(k.id, k.slug, names[k.id], Build(groups, names, Group(groups, Some(k.id)), rows, path + [k]))] + rest
  }

  /** `_build_tree`. */
  method BuildTree(rows: seq<Category>, names: map<Id, string>) returns (tree: seq<CategoryNode>)
    requires UniqueIds(rows)
    ensures forall id :: id in Walk(tree) <==> ShownId(rows, names, id)
    ensures NoneTwice(Walk(tree))
    ensures Labelled(rows, names, None, tree)
  {
    var groups := GroupByParent(rows);
    ChildrenContinue(rows, []);
    tree := Build(groups, names, Group(groups, None), rows, []);
    forall id ensures id in Walk(tree) <==> ShownId(rows, names, id) {
      TreeHoldsTheShown(groups, names, rows, id);
    }
    ChildrenAreDistinct(rows, None);
    NobodyAppearsTwice(groups, names, Group(groups, None), rows, []);
    TreeIsLabelled(groups, names, Group(groups, None), rows, []);
  }

  // --- what the tree holds -------------------------------------------------------------

  /** Ids in the order a reader meets them. */
  function Walk(tree: seq<CategoryNode>): seq<Id> {
    if tree == [] then [] else [tree[0].id] + Walk(tree[0].children) + Walk(tree[1..])
  }

  ghost predicate NoneTwice(ids: seq<Id>) {
    forall i, j | 0 <= i < j < |ids| :: ids[i] != ids[j]
  }

  ghost predicate NamedChain(rows: seq<Category>, names: map<Id, string>, path: seq<Category>) {
    Chain(rows, path) && forall c <- path :: c.id in names
  }

  /** The category is named, and so is everything above it, up to a root. */
  ghost predicate ShownId(rows: seq<Category>, names: map<Id, string>, id: Id) {
    exists p :: NamedChain(rows, names, p) && End(p) == Some(id)
  }

  /** A named chain to `id` that runs along `path` and on through one of `kids`. */
  ghost predicate Through(rows: seq<Category>, names: map<Id, string>, path: seq<Category>, kids: seq<Category>,
                          p: seq<Category>, id: Id) {
    && NamedChain(rows, names, p) && End(p) == Some(id)
    && |path| < |p| && p[..|path|] == path && p[|path|] in kids
  }

  /** Whatever the tree shows has a named chain. */
  lemma {:induction false} ShownHasChain(groups: Groups, names: map<Id, string>, kids: seq<Category>,
                                         rows: seq<Category>, path: seq<Category>, id: Id) returns (p: seq<Category>)
    requires UniqueIds(rows) && Grouped(rows, groups) && Continues(rows, path, kids) && NamedChain(rows, names, path)
    requires id in Walk(Build(groups, names, kids, rows, path))
    ensures Through(rows, names, path, kids, p, id)
    decreases |rows| - |path|, |kids|
  {
    var k := kids[0];
    Descend(rows, path, kids);
    if k.id !in names || id in Walk(Build(groups, names, kids[1..], rows, path)) {
      p := ShownHasChain(groups, names, kids[1..], rows, path, id);
    } else if id == k.id {
      p := path + [k];
    } else {
      p := ShownHasChain(groups, names, Group(groups, Some(k.id)), rows, path + [k], id);
      assert p[..|path|] == p[..|path + [k]|][..|path|];
    }
  }

  /** Whatever has a named chain is shown. */
  lemma {:induction false} ChainIsShown(groups: Groups, names: map<Id, string>, kids: seq<Category>,
                                        rows: seq<Category>, path: seq<Category>, p: seq<Category>, id: Id)
    requires UniqueIds(rows) && Grouped(rows, groups) && Continues(rows, path, kids)
    requires Through(rows, names, path, kids, p, id)
    ensures id in Walk(Build(groups, names, kids, rows, path))
    decreases |rows| - |path|, |kids|
  {
    var k := kids[0];
    Descend(rows, path, kids);
    if p[|path|] != k {
      ChainIsShown(groups, names, kids[1..], rows, path, p, id);
    } else if |p| > |path| + 1 {
      assert p[..|path + [k]|] == path + [k];
      var next := p[|path| + 1];
      assert next in p && next.parent == Some(k.id);
      ChildrenMembers(rows, Some(k.id), next);
      ChainIsShown(groups, names, Group(groups, Some(k.id)), rows, path + [k], p, id);
    }
  }

  /** The tree holds a category exactly when it and all its ancestors, up to a root, are named. */
  lemma TreeHoldsTheShown(groups: Groups, names: map<Id, string>, rows: seq<Category>, id: Id)
    requires UniqueIds(rows) && Grouped(rows, groups) && Continues(rows, [], Group(groups, None))
    ensures id in Walk(Build(groups, names, Group(groups, None), rows, [])) <==> ShownId(rows, names, id)
  {
    var roots := Group(groups, None);
    if id in Walk(Build(groups, names, roots, rows, [])) {
      var p := ShownHasChain(groups, names, roots, rows, [], id);
    }
    if ShownId(rows, names, id) {
      var p :| NamedChain(rows, names, p) && End(p) == Some(id);
      assert p[0] in p;
      ChildrenMembers(rows, None, p[0]);
      ChainIsShown(groups, names, roots, rows, [], p, id);
    }
  }

  /** Nothing appears twice: a chain to a row is unique, so no two branches share one. */
  lemma {:induction false} NobodyAppearsTwice(groups: Groups, names: map<Id, string>, kids: seq<Category>,
                                              rows: seq<Category>, path: seq<Category>)
    requires UniqueIds(rows) && Grouped(rows, groups) && Continues(rows, path, kids) && NamedChain(rows, names, path)
    requires UniqueIds(kids)
    ensures NoneTwice(Walk(Build(groups, names, kids, rows, path)))
    decreases |rows| - |path|, |kids|
  {
    if kids != [] {
      var k := kids[0];
      Descend(rows, path, kids);
      var rest := Walk(Build(groups, names, kids[1..], rows, path));
      NobodyAppearsTwice(groups, names, kids[1..], rows, path);
      if k.id in names {
        var below := Walk(Build(groups, names, Group(groups, Some(k.id)), rows, path + [k]));
        ChildrenAreDistinct(rows, Some(k.id));
        NobodyAppearsTwice(groups, names, Group(groups, Some(k.id)), rows, path + [k]);
        forall id | id in below ensures id !in rest {
          BranchesAreApart(groups, names, kids, rows, path, id);
        }
        BranchesAreApart(groups, names, kids, rows, path, k.id);
        NotBelowItself(groups, names, k, rows, path);
        Append3(k.id, below, rest);
      }
    }
  }

  /** No id is both at or below the first child and below a later one. */
  lemma BranchesAreApart(groups: Groups, names: map<Id, string>, kids: seq<Category>,
                         rows: seq<Category>, path: seq<Category>, id: Id)
    requires UniqueIds(rows) && Grouped(rows, groups) && Continues(rows, path, kids) && NamedChain(rows, names, path)
    requires UniqueIds(kids) && kids != [] && kids[0].id in names
    requires Continues(rows, path, kids[1..]) && Continues(rows, path + [kids[0]], Group(groups, Some(kids[0].id)))
    requires id == kids[0].id
             || id in Walk(Build(groups, names, Group(groups, Some(kids[0].id)), rows, path + [kids[0]]))
    ensures id !in Walk(Build(groups, names, kids[1..], rows, path))
  {
    var k, q := kids[0], path + [kids[0]];
    if id != k.id {
      q := ShownHasChain(groups, names, Group(groups, Some(k.id)), rows, path + [k], id);
      assert q[|path|] == q[..|path + [k]|][|path|];
    }
    if id in Walk(Build(groups, names, kids[1..], rows, path)) {
      var p := ShownHasChain(groups, names, kids[1..], rows, path, id);
      ChainIsUnique(rows, p, q);
    }
  }

  lemma NotBelowItself(groups: Groups, names: map<Id, string>, k: Category, rows: seq<Category>, path: seq<Category>)
    requires UniqueIds(rows) && Grouped(rows, groups) && NamedChain(rows, names, path + [k])
    requires Continues(rows, path + [k], Group(groups, Some(k.id)))
    ensures k.id !in Walk(Build(groups, names, Group(groups, Some(k.id)), rows, path + [k]))
  {
    if k.id in Walk(Build(groups, names, Group(groups, Some(k.id)), rows, path + [k])) {
      var q := ShownHasChain(groups, names, Group(groups, Some(k.id)), rows, path + [k], k.id);
      ChainIsUnique(rows, path + [k], q);
    }
  }

  lemma Append3(x: Id, ys: seq<Id>, zs: seq<Id>)
    requires NoneTwice(ys) && NoneTwice(zs) && x !in ys && x !in zs && forall y <- ys :: y !in zs
    ensures NoneTwice([x] + ys + zs)
  {
    Append(ys, zs);
    Append([x], ys + zs);
    assert [x] + (ys + zs) == [x] + ys + zs;
  }

  lemma Append(ys: seq<Id>, zs: seq<Id>)
    requires NoneTwice(ys) && NoneTwice(zs) && forall y <- ys :: y !in zs
    ensures NoneTwice(ys + zs)
  {
    var all := ys + zs;
    forall i, j | 0 <= i < j < |all| ensures all[i] != all[j] {
      assert i < |ys| ==> all[i] in ys;
      assert j >= |ys| ==> all[j] in zs;
    }
  }

  // --- labels and order ------------------------------------------------------------------

  function Named(kids: seq<Category>, names: map<Id, string>): seq<Category> {
    if kids == [] then []
    else if kids[0].id in names then [kids[0]] + Named(kids[1..], names)
    else Named(kids[1..], names)
  }

  /** The node carries the row's own columns and name. */
  predicate Shows(names: map<Id, string>, node: CategoryNode, row: Category) {
    node.id == row.id && node.slug == row.slug && Lookup(names, row.id) == Some(node.name)
  }

  /** Every level lists the named children of its parent, in input order, each under its own
      slug and name. */
  ghost predicate Labelled(rows: seq<Category>, names: map<Id, string>, parent: Option<Id>, tree: seq<CategoryNode>) {
    LabelledAs(rows, names, Named(ChildrenOf(rows, parent), names), tree)
  }

  ghost predicate LabelledAs(rows: seq<Category>, names: map<Id, string>, kids: seq<Category>, tree: seq<CategoryNode>)
    decreases tree
  {
    if tree == [] then kids == []
    else
      && kids != [] && Shows(names, tree[0], kids[0])
      && LabelledAs(rows, names, Named(ChildrenOf(rows, Some(tree[0].id)), names), tree[0].children)
      && LabelledAs(rows, names, kids[1..], tree[1..])
  }

  lemma LabelledCons(rows: seq<Category>, names: map<Id, string>, k: Category, kids: seq<Category>,
                     node: CategoryNode, rest: seq<CategoryNode>)
    requires Shows(names, node, k) && LabelledAs(rows, names, kids, rest)
    requires LabelledAs(rows, names, Named(ChildrenOf(rows, Some(k.id)), names), node.children)
    ensures LabelledAs(rows, names, [k] + kids, [node] + rest)
  {
  }

  lemma {:induction false} TreeIsLabelled(groups: Groups, names: map<Id, string>, kids: seq<Category>,
                                          rows: seq<Category>, path: seq<Category>)
    requires UniqueIds(rows) && Grouped(rows, groups) && Continues(rows, path, kids)
    ensures LabelledAs(rows, names, Named(kids, names), Build(groups, names, kids, rows, path))
    decreases |rows| - |path|, |kids|
  {
    if kids != [] {
      var k := kids[0];
      Descend(rows, path, kids);
      TreeIsLabelled(groups, names, kids[1..], rows, path);
      if k.id in names {
        var below := Build(groups, names, Group(groups, Some(k.id)), rows, path + [k]);
        TreeIsLabelled(groups, names, Group(groups, Some(k.id)), rows, path + [k]);
        LabelledCons(rows, names, k, Named(kids[1..], names), CategoryNode(k.id, k.slug, names[k.id], below),
                     Build(groups, names, kids[1..], rows, path));
      }
    }
  }
}
