/** How the inventory finds imports: the longest known dotted prefix of each imported
    name, and whether every mention of it sits under a TYPE_CHECKING guard. */
module Imports {
  import opened Orders
  import opened Graphs
  import opened StrongComponents
  import opened Wrappers

  // ---------- Syntax ----------

  datatype Expr =
    | Identifier(id: string)
    | Attribute(value: Expr, attr: string)
    | Other

  /** `ImportFrom.base` is the base after `resolve_name`, or None where that raises.
      `Block` is any other statement, with the statements nested in it in source order. */
  datatype Stmt =
    | Import(names: seq<Name>)
    | ImportFrom(base: Option<Name>, aliases: seq<Name>)
    | If(test: Expr, body: seq<Stmt>, orelse: seq<Stmt>)
    | Block(children: seq<Stmt>)

  predicate IsTypeCheckingGuard(test: Expr) {
    || test == Identifier("TYPE_CHECKING")
    || test == Attribute(Identifier("typing"), "TYPE_CHECKING")
  }

  // ---------- `_known_module` ----------

  const PACKAGE: Name := "impodo"

  /** The name up to its last dot: `rsplit(".", 1)[0]`. */
  function Parent(name: Name): (p: Name)
    requires '.' in name
    ensures |p| < |name| && p == name[..|p|] && name[|p|] == '.'
    ensures forall i :: |p| < i < |name| ==> name[i] != '.'
  {
    if name[|name| - 1] == '.' then name[..|name| - 1]
    else
      assert name == name[..|name| - 1] + [name[|name| - 1]];
      Parent(name[..|name| - 1])
  }

  function Resolve(name: Name, known: set<Name>): Option<Name>
    decreases |name|
  {
    if !(PACKAGE <= name) then None
    else if name in known then Some(name)
    else if '.' !in name then None
    else Resolve(Parent(name), known)
  }

  function Resolved(name: Name, known: set<Name>): set<Name> {
    if Resolve(name, known).Some? then {Resolve(name, known).value} else {}
  }

  method KnownModule(name: Name, known: set<Name>) returns (r: Option<Name>)
    ensures r == Resolve(name, known)
  {
    var candidate := name;
    while PACKAGE <= candidate
      invariant Resolve(candidate, known) == Resolve(name, known)
      decreases |candidate|
    {
      if candidate in known {
        return Some(candidate);
      }
      if '.' !in candidate {
        break;
      }
      candidate := Parent(candidate);
    }
    return None;
  }

  /** `p` is `name`, or `name` continues it with a dot. */
  ghost predicate DottedPrefix(p: Name, name: Name) {
    p <= name && (|p| < |name| ==> name[|p|] == '.')
  }

  /** The resolver finds the longest dotted prefix that is a module, for the names that
      start like the package, and nothing for any other name. */
  lemma {:induction false} ResolveIsLongest(name: Name, known: set<Name>)
    ensures Resolve(name, known).Some? ==>
      var p := Resolve(name, known).value;
      p in known && DottedPrefix(p, name) && "impodo" <= name
    ensures forall q :: q in known && DottedPrefix(q, name) && "impodo" <= name ==>
      Resolve(name, known).Some? && |q| <= |Resolve(name, known).value|
    decreases |name|
  {
    assert forall q :: DottedPrefix(q, name) && |q| == |name| ==> q == name;
    if PACKAGE <= name && name !in known && '.' in name {
      var p := Parent(name);
      ResolveIsLongest(p, known);
      ParentKeepsPackage(name);
      forall q | q in known && DottedPrefix(q, name) ensures DottedPrefix(q, p) {
        PrefixOfParent(q, name);
      }
    }
  }

  lemma ParentKeepsPackage(name: Name)
    requires '.' in name
    ensures PACKAGE <= Parent(name) <==> PACKAGE <= name
  {
    var p := Parent(name);
    assert forall i :: 0 <= i < |PACKAGE| ==> PACKAGE[i] != '.';
    assert PACKAGE <= name ==> forall i :: 0 <= i < |PACKAGE| ==> name[i] == PACKAGE[i];
  }

  lemma PrefixOfParent(q: Name, name: Name)
    requires '.' in name && DottedPrefix(q, name) && q != name
    ensures DottedPrefix(q, Parent(name))
  {
    assert |q| < |name|;
    assert |q| <= |Parent(name)|;
  }

  /** A name made by appending `.alias` that resolves to nothing has a base that resolves
      to nothing, so the visitor's fallback to the base never records anything. */
  lemma FallbackIsIdle(base: Name, alias: Name, known: set<Name>)
    requires base != "" && Resolve(base + "." + alias, known).None?
    ensures Resolve(base, known).None?
  {
    var name := base + "." + alias;
    assert name == base + ("." + alias);
    ResolveIsLongest(name, known);
    ResolveIsLongest(base, known);
    assert name[|base|] == '.';
    assert forall p :: DottedPrefix(p, base) ==> DottedPrefix(p, name);
  }

  // ---------- What a tree imports, without the visitor ----------

  /** The names an import statement mentions, before resolution. */
  function Mentioned(stmt: Stmt): set<Name>
    requires stmt.Import? || stmt.ImportFrom?
  {
    match stmt
    case Import(names) => set n | n in names
    case ImportFrom(None, _) => {}
    case ImportFrom(Some(base), aliases) =>
      set a | a in aliases :: Qualified(base, a)
  }

  function Qualified(base: Name, alias: Name): Name {
    if alias == "*" then base else if base != "" then base + "." + alias else alias
  }

  function Targets(stmt: Stmt, known: set<Name>): set<Name>
    decreases stmt
  {
    match stmt
    case Import(_) => set n | n in Mentioned(stmt) && Resolve(n, known).Some? :: Resolve(n, known).value
    case ImportFrom(_, _) => set n | n in Mentioned(stmt) && Resolve(n, known).Some? :: Resolve(n, known).value
    case If(_, body, orelse) => AllTargets(body, known) + AllTargets(orelse, known)
    case Block(children) => AllTargets(children, known)
  }

  function AllTargets(stmts: seq<Stmt>, known: set<Name>): set<Name>
    decreases stmts
  {
    if stmts == [] then {} else Targets(stmts[0], known) + AllTargets(stmts[1..], known)
  }

  /** The tree as it runs: TYPE_CHECKING is false, so the bodies of its guards are gone and
      their `else` parts stay. */
  function Running(stmt: Stmt): Stmt
    decreases stmt
  {
    match stmt
    case If(test, body, orelse) =>
      If(test, if IsTypeCheckingGuard(test) then [] else AllRunning(body), AllRunning(orelse))
    case Block(children) => Block(AllRunning(children))
    case _ => stmt
  }

  function AllRunning(stmts: seq<Stmt>): seq<Stmt>
    decreases stmts
  {
    if stmts == [] then [] else [Running(stmts[0])] + AllRunning(stmts[1..])
  }

  /** The body of an `if` on TYPE_CHECKING, by its plain name or as an attribute of `typing`,
      does not run; that of any other `if` does, and every `else` part does. */
  lemma GuardedBodiesNeverRun(test: Expr, body: seq<Stmt>, orelse: seq<Stmt>, known: set<Name>)
    ensures Targets(Running(If(test, body, orelse)), known) ==
      if test in {Identifier("TYPE_CHECKING"), Attribute(Identifier("typing"), "TYPE_CHECKING")}
      then AllTargets(AllRunning(orelse), known)
      else AllTargets(AllRunning(body), known) + AllTargets(AllRunning(orelse), known)
  {
  }

  // ---------- `_ImportVisitor` ----------

  type Occurrence = (Name, bool)

  ghost function Recorded(occurrences: seq<Occurrence>): set<Name> {
    set o | o in occurrences :: o.0
  }

  /** The modules with at least one occurrence outside every guard. */
  ghost function RecordedRuntime(occurrences: seq<Occurrence>): set<Name> {
    set o | o in occurrences && !o.1 :: o.0
  }

  /** From `before` to `after` exactly `targets` were recorded, and `running` outside guards. */
  ghost predicate Adds(before: seq<Occurrence>, targets: set<Name>, running: set<Name>, after: seq<Occurrence>) {
    && Recorded(after) == Recorded(before) + targets
    && RecordedRuntime(after) == RecordedRuntime(before) + running
  }

  class ImportVisitor {
    const importer: Name
    const known: set<Name>
    var typeOnlyDepth: nat
    var occurrences: seq<Occurrence>

    constructor (importer: Name, known: set<Name>)
      ensures this.importer == importer && this.known == known
      ensures typeOnlyDepth == 0 && occurrences == []
    {
      this.importer, this.known := importer, known;
      typeOnlyDepth, occurrences := 0, [];
    }

    ghost function Outside(targets: set<Name>): set<Name>
      reads this
    {
      if typeOnlyDepth > 0 then {} else targets - {importer}
    }

    method Record(candidate: Name)
      modifies this`occurrences
      ensures var t := Resolved(candidate, known);
        Adds(old(occurrences), t - {importer}, Outside(t), occurrences)
    {
      var target := KnownModule(candidate, known);
      if target.Some? && target.value != importer {
        var o := (target.value, typeOnlyDepth > 0);
        occurrences := occurrences + [o];
        assert forall p :: p in occurrences <==> p in old(occurrences) || p == o;
      }
    }

    /** `visit_Import`, `visit_ImportFrom`, `visit_If`, and the generic visit of the rest. */
    method Visit(stmt: Stmt)
      modifies this
      ensures typeOnlyDepth == old(typeOnlyDepth)
      ensures Adds(old(occurrences), Targets(stmt, known) - {importer},
                   Outside(Targets(Running(stmt), known)), occurrences)
      decreases stmt
    {
      match stmt {
        case Import(names) => VisitImport(names);
        case ImportFrom(base, aliases) =>
          if base.Some? { VisitImportFrom(base.value, aliases); }
        case If(test, body, orelse) =>
          var guarded := IsTypeCheckingGuard(test);
          if guarded { typeOnlyDepth := typeOnlyDepth + 1; }
          VisitAll(body);
          if guarded { typeOnlyDepth := typeOnlyDepth - 1; }
          VisitAll(orelse);
        case Block(children) => VisitAll(children);
      }
    }

    method VisitAll(stmts: seq<Stmt>)
      modifies this
      ensures typeOnlyDepth == old(typeOnlyDepth)
      ensures Adds(old(occurrences), AllTargets(stmts, known) - {importer},
                   Outside(AllTargets(AllRunning(stmts), known)), occurrences)
      decreases stmts
    {
      if stmts != [] {
        Visit(stmts[0]);
        VisitAll(stmts[1..]);
        assert AllRunning(stmts)[1..] == AllRunning(stmts[1..]);
      }
    }

    method VisitImport(names: seq<Name>)
      modifies this`occurrences
      ensures Adds(old(occurrences), Targets(Import(names), known) - {importer},
                   Outside(Targets(Import(names), known)), occurrences)
    {
      assert Targets(Import(names[..0]), known) == {};
      for i := 0 to |names|
        invariant Adds(old(occurrences), Targets(Import(names[..i]), known) - {importer},
                       Outside(Targets(Import(names[..i]), known)), occurrences)
      {
        Record(names[i]);
        ResolvedGrows(Import(names[..i]), Import(names[..i + 1]), names[i], known);
      }
      assert names[..|names|] == names;
    }

    method VisitImportFrom(base: Name, aliases: seq<Name>)
      modifies this`occurrences
      ensures var t := Targets(ImportFrom(Some(base), aliases), known);
        Adds(old(occurrences), t - {importer}, Outside(t), occurrences)
    {
      hide Targets, Resolved, Resolve, Qualified;
      NoAliases(base, known);
      for i := 0 to |aliases|
        invariant var t := Targets(ImportFrom(Some(base), aliases[..i]), known);
          Adds(old(occurrences), t - {importer}, Outside(t), occurrences)
      {
        RecordAlias(base, aliases[i]);
        assert aliases[..i + 1] == aliases[..i] + [aliases[i]];
        AliasesGrow(base, aliases[..i], aliases[i], known);
      }
      assert aliases[..|aliases|] == aliases;
    }

    method RecordAlias(base: Name, alias: Name)
      modifies this`occurrences
      ensures var t := Resolved(Qualified(base, alias), known);
        Adds(old(occurrences), t - {importer}, Outside(t), occurrences)
    {
      if alias == "*" {
        Record(base);
        return;
      }
      var candidate := if base != "" then base + "." + alias else alias;
      var target := KnownModule(candidate, known);
      if target.Some? {
        Record(candidate);
      } else {
        if base != "" { FallbackIsIdle(base, alias, known); }
        Record(base);
      }
    }
  }

  lemma NoAliases(base: Name, known: set<Name>)
    ensures Targets(ImportFrom(Some(base), []), known) == {}
  {
  }

  lemma AliasesGrow(base: Name, aliases: seq<Name>, alias: Name, known: set<Name>)
    ensures Targets(ImportFrom(Some(base), aliases + [alias]), known)
         == Targets(ImportFrom(Some(base), aliases), known) + Resolved(Qualified(base, alias), known)
  {
    assert forall a :: a in aliases + [alias] <==> a in aliases || a == alias;
    assert Mentioned(ImportFrom(Some(base), aliases + [alias]))
        == Mentioned(ImportFrom(Some(base), aliases)) + {Qualified(base, alias)};
    ResolvedGrows(ImportFrom(Some(base), aliases), ImportFrom(Some(base), aliases + [alias]),
                  Qualified(base, alias), known);
  }

  lemma ResolvedGrows(stmt: Stmt, longer: Stmt, name: Name, known: set<Name>)
    requires stmt.Import? || stmt.ImportFrom?
    requires longer.Import? || longer.ImportFrom?
    requires Mentioned(longer) == Mentioned(stmt) + {name}
    ensures Targets(longer, known) ==
      Targets(stmt, known) + Resolved(name, known)
  {
  }

  // ---------- `imports_from_source` and `discover_imports` ----------

  /** The dataclass order of `ImportEdge`: by importer, imported, then the flag. */
  predicate EdgeLeq(a: Edge, b: Edge) {
    if a.importer != b.importer then NameLeq(a.importer, b.importer)
    else if a.imported != b.imported then NameLeq(a.imported, b.imported)
    else !a.typeOnly || b.typeOnly
  }

  /** Edges compare as the tuples of their fields, an unset flag first. */
  lemma EdgeLeqMeans(a: Edge, b: Edge)
    ensures EdgeLeq(a, b) <==> NamesLeq([a.importer, a.imported, if a.typeOnly then "1" else "0"],
                                        [b.importer, b.imported, if b.typeOnly then "1" else "0"])
  {
    NameOrders();
    assert NameLeq("0", "1") && !NameLeq("1", "0");
    var x, y := [a.importer, a.imported, if a.typeOnly then "1" else "0"],
                [b.importer, b.imported, if b.typeOnly then "1" else "0"];
    assert NamesLeq(x, y) <==> if x[0] != y[0] then NameLeq(x[0], y[0]) else LexLeq(NameLeq, x[1..], y[1..]);
    var x', y' := x[1..], y[1..];
    assert x' == [x[1], x[2]] && y' == [y[1], y[2]];
    assert LexLeq(NameLeq, x', y') <==>
      if x'[0] != y'[0] then NameLeq(x'[0], y'[0]) else LexLeq(NameLeq, x'[1..], y'[1..]);
    assert x'[1..] == [x[2]] && y'[1..] == [y[2]];
    assert LexLeq(NameLeq, [x[2]], [y[2]]) <==> NameLeq(x[2], y[2]) by {
      assert [x[2]][1..] == [] && [y[2]][1..] == [];
    }
  }

  lemma EdgeOrder()
    ensures TotalOrder(EdgeLeq)
  {
    NameOrders();
  }

  /** The edges of one module: one for each module it mentions other than itself, marked
      type-only exactly when the running tree does not mention it. */
  ghost predicate EdgesOf(importer: Name, tree: seq<Stmt>, known: set<Name>, edges: seq<Edge>) {
    && Sorted(EdgeLeq, edges) && NoDuplicates(edges)
    && forall e :: e in edges <==>
         && e.importer == importer
         && e.imported in AllTargets(tree, known) - {importer}
         && e.typeOnly == (e.imported !in AllTargets(AllRunning(tree), known))
  }

  /** The fold of the occurrences: a module stays type-only while every occurrence is. */
  method FoldModes(occurrences: seq<Occurrence>) returns (keys: seq<Name>, modes: map<Name, bool>)
    ensures NoDuplicates(keys) && Elements(keys) == modes.Keys == Recorded(occurrences)
    ensures forall a :: a in modes ==> modes[a] == (a !in RecordedRuntime(occurrences))
  {
    keys, modes := [], map[];
    for i := 0 to |occurrences|
      invariant NoDuplicates(keys) && Elements(keys) == modes.Keys == Recorded(occurrences[..i])
      invariant forall a :: a in modes ==> modes[a] == (a !in RecordedRuntime(occurrences[..i]))
    {
      var (imported, typeOnly) := occurrences[i];
      assert occurrences[..i + 1] == occurrences[..i] + [occurrences[i]];
      RecordedGrows(occurrences[..i], occurrences[i]);
      assert forall a :: a in keys <==> a in Elements(keys);
      if imported !in modes { keys := keys + [imported]; }
      modes := modes[imported := (if imported in modes then modes[imported] else true) && typeOnly];
    }
    assert occurrences[..|occurrences|] == occurrences;
  }

  lemma RecordedGrows(occurrences: seq<Occurrence>, o: Occurrence)
    ensures Recorded(occurrences + [o]) == Recorded(occurrences) + {o.0}
    ensures RecordedRuntime(occurrences + [o]) == RecordedRuntime(occurrences) + (if o.1 then {} else {o.0})
  {
    assert forall p :: p in occurrences + [o] <==> p in occurrences || p == o;
  }

  method ImportsFromSource(importer: Name, tree: seq<Stmt>, known: set<Name>) returns (edges: seq<Edge>)
    ensures EdgesOf(importer, tree, known, edges)
  {
    hide SortBy, Sorted, EdgeLeq, AllTargets, AllRunning;
    var visitor := new ImportVisitor(importer, known);
    visitor.VisitAll(tree);
    var keys, modes := FoldModes(visitor.occurrences);
    assert forall a :: a in keys <==> a in Elements(keys);
    var unsorted := seq(|keys|, i requires 0 <= i < |keys| => Edge(importer, keys[i], modes[keys[i]]));
    edges := SortBy(EdgeLeq, unsorted);
    EdgeOrder();
    UnsortedEdges(importer, keys, modes, unsorted);
    SortByLists(EdgeLeq, unsorted);
  }

  lemma UnsortedEdges(importer: Name, keys: seq<Name>, modes: map<Name, bool>, unsorted: seq<Edge>)
    requires NoDuplicates(keys) && (forall a :: a in keys <==> a in modes)
    requires |unsorted| == |keys| && forall i :: 0 <= i < |keys| ==>
      unsorted[i] == Edge(importer, keys[i], modes[keys[i]])
    ensures NoDuplicates(unsorted)
    ensures forall e :: e in unsorted <==>
      e.importer == importer && e.imported in modes && e.typeOnly == modes[e.imported]
  {
    forall i, j | 0 <= i < j < |unsorted| ensures unsorted[i] != unsorted[j] {
      assert unsorted[i].imported == keys[i] && unsorted[j].imported == keys[j];
    }
    forall e
      ensures e in unsorted <==> e.importer == importer && e.imported in modes && e.typeOnly == modes[e.imported]
    {
      if e.importer == importer && e.imported in modes && e.typeOnly == modes[e.imported] {
        var i :| 0 <= i < |keys| && keys[i] == e.imported;
        assert unsorted[i] == e;
      }
    }
  }

  /** Resolution only ever answers with a known module. */
  lemma {:induction false} TargetsKnown(stmt: Stmt, known: set<Name>)
    ensures Targets(stmt, known) <= known
    decreases stmt
  {
    match stmt
    case Import(_) =>
      forall n | n in Mentioned(stmt) ensures Resolved(n, known) <= known { ResolveIsLongest(n, known); }
    case ImportFrom(_, _) =>
      forall n | n in Mentioned(stmt) ensures Resolved(n, known) <= known { ResolveIsLongest(n, known); }
    case If(_, body, orelse) =>
      AllTargetsKnown(body, known);
      AllTargetsKnown(orelse, known);
    case Block(children) => AllTargetsKnown(children, known);
  }

  lemma {:induction false} AllTargetsKnown(stmts: seq<Stmt>, known: set<Name>)
    ensures AllTargets(stmts, known) <= known
    decreases stmts
  {
    if stmts != [] {
      TargetsKnown(stmts[0], known);
      AllTargetsKnown(stmts[1..], known);
    }
  }

  /** What runs is part of what is written. */
  lemma {:induction false} RunningTargets(stmt: Stmt, known: set<Name>)
    ensures Targets(Running(stmt), known) <= Targets(stmt, known)
    decreases stmt
  {
    match stmt
    case If(test, body, orelse) =>
      AllRunningTargets(body, known);
      AllRunningTargets(orelse, known);
    case Block(children) => AllRunningTargets(children, known);
    case _ =>
  }

  lemma {:induction false} AllRunningTargets(stmts: seq<Stmt>, known: set<Name>)
    ensures AllTargets(AllRunning(stmts), known) <= AllTargets(stmts, known)
    decreases stmts
  {
    if stmts != [] {
      RunningTargets(stmts[0], known);
      AllRunningTargets(stmts[1..], known);
      assert AllRunning(stmts)[1..] == AllRunning(stmts[1..]);
    }
  }
}
