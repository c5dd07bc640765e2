/**
 * Choosing the trees to display in file-list and standard-input mode
 * (yang.go:157-172): one module per distinct name, the first one met while
 * ranging over the model set, in ascending order of name.
 */
module Selection {
  import opened Strings
  import opened Sorting
  import opened Schema

  /** The distinct names of `modules`. */
  ghost function NameSet(modules: seq<Module>): set<string>
  {
    set i | 0 <= i < |modules| :: modules[i].name
  }

  /** The position of the first module named `n`, or `|modules|` when there is none. */
  function FirstIndex(modules: seq<Module>, n: string): (k: nat)
    ensures k <= |modules|
  {
    if modules == [] then 0
    else if modules[0].name == n then 0
    else 1 + FirstIndex(modules[1..], n)
  }

  /** `FirstIndex` finds the least position holding the name, and `|modules|` only when none does. */
  lemma {:induction false} FirstIndexIsFirst(modules: seq<Module>, n: string)
    ensures forall j :: 0 <= j < FirstIndex(modules, n) ==> modules[j].name != n
    ensures FirstIndex(modules, n) < |modules| ==> modules[FirstIndex(modules, n)].name == n
  {
    if modules != [] && modules[0].name != n {
      FirstIndexIsFirst(modules[1..], n);
    }
  }

  /** A name that occurs is found. */
  lemma FirstIndexFound(modules: seq<Module>, n: string)
    requires n in NameSet(modules)
    ensures FirstIndex(modules, n) < |modules|
  {
    FirstIndexIsFirst(modules, n);
    var i :| 0 <= i < |modules| && modules[i].name == n;
  }

  /** The module that stands for the name `n`: the first one so named. */
  ghost function Representative(modules: seq<Module>, n: string): Module
    requires n in NameSet(modules)
  {
    FirstIndexFound(modules, n);
    modules[FirstIndex(modules, n)]
  }

  /** The trees handed to the formatter: one per distinct name, in ascending name order. */
  ghost function TopLevel(modules: seq<Module>, toEntry: Module -> Entry): seq<Entry>
  {
    SortedSetIsSorted(NameSet(modules));
    assert forall n :: n in SortedSet(NameSet(modules)) ==> n in Elems(SortedSet(NameSet(modules)));
    TreesOf(modules, SortedSet(NameSet(modules)), toEntry)
  }

  /** The tree of the representative of each of `names`, in the order of `names`. */
  ghost function TreesOf(modules: seq<Module>, names: seq<string>, toEntry: Module -> Entry): (trees: seq<Entry>)
    requires forall n :: n in names ==> n in NameSet(modules)
    ensures |trees| == |names|
    ensures forall k :: 0 <= k < |names| ==> trees[k] == toEntry(Representative(modules, names[k]))
  {
    if names == [] then []
    else [toEntry(Representative(modules, names[0]))] + TreesOf(modules, names[1..], toEntry)
  }

  /**
   * yang.go:159-172.  Ranges over `modules`, keeping the first module of each
   * name in `mods` and its name in `names`; sorts `names`; and fills
   * `entries[x]` with the tree of `mods[names[x]]`.
   */
  method SelectTopLevel(modules: seq<Module>, toEntry: Module -> Entry)
    returns (names: seq<string>, mods: map<string, Module>, entries: seq<Entry>)
    ensures StrictlySorted(names) && Elems(names) == NameSet(modules)
    ensures mods.Keys == NameSet(modules)
    ensures forall n :: n in mods ==>
      FirstIndex(modules, n) < |modules| && mods[n] == modules[FirstIndex(modules, n)]
    ensures |entries| == |names|
    ensures forall i :: 0 <= i < |names| ==> names[i] in mods && entries[i] == toEntry(mods[names[i]])
    ensures names == SortedSet(NameSet(modules)) && entries == TopLevel(modules, toEntry)
  {
    var seen;
    mods, seen := FirstOfEachName(modules);
    names := SortDistinct(seen);
    assert forall n :: n in names ==> n in Elems(names);
    entries := TreesFor(mods, names, toEntry);
    EntriesAreTopLevel(modules, toEntry, names, mods, entries);
  }

  /** yang.go:162-167: the first module of each name, and the names in the order first met. */
  method FirstOfEachName(modules: seq<Module>) returns (mods: map<string, Module>, seen: seq<string>)
    ensures mods.Keys == NameSet(modules) && Elems(seen) == mods.Keys && Distinct(seen)
    ensures forall n :: n in mods ==>
      FirstIndex(modules, n) < |modules| && mods[n] == modules[FirstIndex(modules, n)]
  {
    mods := map[];
    seen := [];
    for i := 0 to |modules|
      invariant forall x :: x in modules[..i] ==> x.name in mods
      invariant forall n :: n in mods ==>
        FirstIndex(modules, n) < i && mods[n] == modules[FirstIndex(modules, n)]
      invariant Elems(seen) == mods.Keys
      invariant Distinct(seen)
    {
      var m := modules[i];
      assert modules[..i + 1] == modules[..i] + [m];
      if m.name !in mods {
        FirstIndexAt(modules, i, mods);
        AppendFresh(seen, m.name);
        KeepFirst(modules, i, mods);
        mods := mods[m.name := m];
        seen := seen + [m.name];
      }
    }
    assert modules[..|modules|] == modules;
    KeysAreNames(modules, mods);
  }

  /** A module whose name no earlier module has is the first of that name. */
  lemma FirstIndexAt(modules: seq<Module>, i: nat, mods: map<string, Module>)
    requires i < |modules|
    requires forall x :: x in modules[..i] ==> x.name in mods
    requires modules[i].name !in mods
    ensures FirstIndex(modules, modules[i].name) == i
  {
    forall j | 0 <= j < i ensures modules[j].name != modules[i].name {
      assert modules[j] in modules[..i];
    }
    FirstIndexIsFirst(modules, modules[i].name);
  }

  lemma KeepFirst(modules: seq<Module>, i: nat, mods: map<string, Module>)
    requires i < |modules| && FirstIndex(modules, modules[i].name) == i
    requires forall n :: n in mods ==>
      FirstIndex(modules, n) < i && mods[n] == modules[FirstIndex(modules, n)]
    ensures forall n :: n in mods[modules[i].name := modules[i]] ==>
      FirstIndex(modules, n) < i + 1 && mods[modules[i].name := modules[i]][n] == modules[FirstIndex(modules, n)]
  {
  }

  lemma AppendFresh(seen: seq<string>, x: string)
    requires Distinct(seen) && x !in Elems(seen)
    ensures Distinct(seen + [x]) && Elems(seen + [x]) == Elems(seen) + {x}
  {
  }

  lemma KeysAreNames(modules: seq<Module>, mods: map<string, Module>)
    requires forall x :: x in modules ==> x.name in mods
    requires forall n :: n in mods ==> FirstIndex(modules, n) < |modules|
    ensures mods.Keys == NameSet(modules)
  {
    forall n | n in mods ensures n in NameSet(modules) {
      FirstIndexIsFirst(modules, n);
      var k := FirstIndex(modules, n);
      assert modules[k].name == n;
    }
  }

  /** yang.go:169-172: `entries[x] = yang.ToEntry(mods[n])` for each `names[x]`. */
  method TreesFor(mods: map<string, Module>, names: seq<string>, toEntry: Module -> Entry)
    returns (entries: seq<Entry>)
    requires forall n :: n in names ==> n in mods
    ensures |entries| == |names|
    ensures forall i :: 0 <= i < |names| ==> entries[i] == toEntry(mods[names[i]])
  {
    var trees := new Entry[|names|];
    for x := 0 to |names|
      invariant forall j :: 0 <= j < x ==> trees[j] == toEntry(mods[names[j]])
    {
      trees[x] := toEntry(mods[names[x]]);
    }
    entries := trees[..];
  }

  lemma EntriesAreTopLevel(modules: seq<Module>, toEntry: Module -> Entry,
                           names: seq<string>, mods: map<string, Module>, entries: seq<Entry>)
    requires names == SortedSet(NameSet(modules)) && mods.Keys == NameSet(modules)
    requires forall n :: n in mods ==>
      FirstIndex(modules, n) < |modules| && mods[n] == modules[FirstIndex(modules, n)]
    requires |entries| == |names|
    requires forall j :: 0 <= j < |names| ==> names[j] in mods && entries[j] == toEntry(mods[names[j]])
    ensures entries == TopLevel(modules, toEntry)
  {
    SortedSetIsSorted(NameSet(modules));
    assert forall n :: n in names ==> n in Elems(names);
  }

  /** The number of trees is the number of distinct module names. */
  lemma TopLevelLength(modules: seq<Module>, toEntry: Module -> Entry)
    ensures |TopLevel(modules, toEntry)| == |NameSet(modules)|
  {
    SortedSetIsSorted(NameSet(modules));
  }

  /** Every module of a given name is the same module (as when a map holds one module under two keys). */
  ghost predicate NamesIdentify(modules: seq<Module>)
  {
    forall i, j :: 0 <= i < |modules| && 0 <= j < |modules| && modules[i].name == modules[j].name ==>
      modules[i] == modules[j]
  }

  /**
   * The order in which the model set is ranged over does not change the
   * output as long as no two different modules share a name.
   */
  lemma TopLevelOrderIndependent(m1: seq<Module>, m2: seq<Module>, toEntry: Module -> Entry)
    requires Elems(m1) == Elems(m2)
    requires NamesIdentify(m1)
    ensures TopLevel(m1, toEntry) == TopLevel(m2, toEntry)
  {
    assert NameSet(m1) == NameSet(m2) by {
      forall n | n in NameSet(m1) ensures n in NameSet(m2) {
        var i :| 0 <= i < |m1| && m1[i].name == n;
        assert m1[i] in Elems(m2);
      }
      forall n | n in NameSet(m2) ensures n in NameSet(m1) {
        var i :| 0 <= i < |m2| && m2[i].name == n;
        assert m2[i] in Elems(m1);
      }
    }
    forall n | n in NameSet(m1) ensures Representative(m1, n) == Representative(m2, n) {
      FirstIndexFound(m1, n);
      FirstIndexFound(m2, n);
      FirstIndexIsFirst(m1, n);
      FirstIndexIsFirst(m2, n);
      var r2 := m2[FirstIndex(m2, n)];
      assert r2 in Elems(m1);
      var j :| 0 <= j < |m1| && m1[j] == r2;
    }
    var names := SortedSet(NameSet(m1));
    SortedSetIsSorted(NameSet(m1));
    assert forall k :: 0 <= k < |names| ==> names[k] in Elems(names);
  }

  /**
   * With two different modules of one name, the one kept is the first in
   * range order, so two orders of the same model set can display different
   * trees.
   */
  lemma FirstSeenDependsOnOrder()
    ensures var older, newer := Module("a", 1), Module("a", 2);
            var tree := (m: Module) => Entry(m.id);
            TopLevel([older, newer], tree) == [Entry(1)] && TopLevel([newer, older], tree) == [Entry(2)]
  {
    var older, newer := Module("a", 1), Module("a", 2);
    assert NameSet([older, newer]) == {"a"} && NameSet([newer, older]) == {"a"} by {
      assert [older, newer][0].name == "a";
      assert [newer, older][0].name == "a";
    }
    SortedSetUnique({"a"}, ["a"]);
    var tree := (m: Module) => Entry(m.id);
    var t1, t2 := TopLevel([older, newer], tree), TopLevel([newer, older], tree);
    assert |t1| == 1 && t1[0] == tree(Representative([older, newer], "a"));
    assert |t2| == 1 && t2[0] == tree(Representative([newer, older], "a"));
  }
}
