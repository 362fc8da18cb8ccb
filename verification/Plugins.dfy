/** The order in which plugins are loaded. */
module Plugins {
  import opened Text

  /** What each configuration lists under `depends`. */
  type Depends = map<string, seq<string>>

  function DependsOn(depends: Depends, name: string): seq<string> {
    if name in depends then depends[name] else []
  }

  /** An edge to a dependency that is installed; others are only warned about. */
  predicate Edge(plugins: set<string>, depends: Depends, name: string, dep: string) {
    dep in plugins && dep in DependsOn(depends, name)
  }

  /** `b` lies in every set that holds `a` and is closed under installed dependencies. */
  ghost predicate Reaches(plugins: set<string>, depends: Depends, a: string, b: string) {
    forall s: set<string> :: a in s && (forall x, y :: x in s && Edge(plugins, depends, x, y) ==> y in s) ==> b in s
  }

  lemma ReachesStep(plugins: set<string>, depends: Depends, a: string, b: string, c: string)
    requires Reaches(plugins, depends, a, b) && Edge(plugins, depends, b, c)
    ensures Reaches(plugins, depends, a, c)
  {}

  predicate NoRepeats(s: seq<string>) {
    forall i, j :: 0 <= i < j < |s| ==> s[i] != s[j]
  }

  /** Every installed dependency of a listed plugin is listed before it, unless it reaches back to the plugin. */
  ghost predicate Ordered(plugins: set<string>, depends: Depends, order: seq<string>) {
    forall i, dep :: 0 <= i < |order| && Edge(plugins, depends, order[i], dep) ==>
      dep in order[..i] || Reaches(plugins, depends, dep, order[i])
  }

  /** `_topo_sort`: the depth-first walk and the two collections its inner `visit` shares. */
  class PluginSorter {
    const plugins: set<string>
    const depends: Depends
    var visited: set<string>
    var result: seq<string>

    constructor (plugins: set<string>, depends: Depends)
      ensures this.plugins == plugins && this.depends == depends && visited == {} && result == []
    {
      this.plugins, this.depends := plugins, depends;
      visited, result := {}, [];
    }

    /** The plugins whose visit has begun and not ended. */
    ghost function Open(): set<string> reads this { visited - set n | n in result }

    ghost predicate Valid() reads this {
      && visited <= plugins && NoRepeats(result) && (forall n :: n in result ==> n in visited)
      && Ordered(plugins, depends, result)
    }

    /** Everything still open depends, directly or not, on `name`. */
    ghost predicate OpenReach(name: string) reads this {
      forall n :: n in Open() ==> Reaches(plugins, depends, n, name)
    }

    method Visit(name: string)
      requires Valid() && name in plugins && OpenReach(name)
      modifies this
      ensures Valid() && name in visited && old(visited) <= visited && old(result) <= result
      ensures Open() == old(Open())
      decreases plugins - visited, 1, 0
    {
      if name in visited { return; }
      visited := visited + {name};
      assert Open() == old(Open()) + {name};
      VisitDependencies(name);
      Finish(name);
    }

    /** The loop over one plugin's dependencies. */
    method VisitDependencies(name: string)
      requires Valid() && name in Open() && OpenReach(name)
      modifies this
      ensures Valid() && old(visited) <= visited && old(result) <= result && Open() == old(Open())
      ensures forall dep :: Edge(plugins, depends, name, dep) ==> dep in visited
      decreases plugins - visited, 2
    {
      var deps := DependsOn(depends, name);
      for i := 0 to |deps|
        invariant Valid() && old(visited) <= visited && old(result) <= result && Open() == old(Open())
        invariant forall dep :: dep in deps[..i] && dep in plugins ==> dep in visited
      {
        assert deps[..i + 1] == deps[..i] + [deps[i]];
        if deps[i] in plugins {
          forall n | n in Open() ensures Reaches(plugins, depends, n, deps[i]) {
            ReachesStep(plugins, depends, n, name, deps[i]);
          }
          Visit(deps[i]);
        }
      }
      assert deps[..|deps|] == deps;
    }

    /** The append that ends a visit. */
    method Finish(name: string)
      requires Valid() && name in Open() && OpenReach(name)
      requires forall dep :: Edge(plugins, depends, name, dep) ==> dep in visited
      modifies this`result
      ensures Valid() && result == old(result) + [name] && Open() == old(Open()) - {name}
    {
      result := result + [name];
      forall i, dep | 0 <= i < |result| && Edge(plugins, depends, result[i], dep)
        ensures dep in result[..i] || Reaches(plugins, depends, dep, result[i])
      {
        if i < |result| - 1 {
          assert result[..i] == old(result)[..i];
        } else {
          assert result[..i] == old(result);
          assert dep in old(result) || dep in old(Open());
        }
      }
    }

    /** The loop over the sorted names. */
    method Sort() returns (order: seq<string>)
      requires Valid() && visited == {} && result == []
      modifies this
      ensures NoRepeats(order) && (forall n :: n in order <==> n in plugins)
      ensures Ordered(plugins, depends, order)
    {
      var names := SortedSeq(plugins);
      for i := 0 to |names|
        invariant Valid() && Open() == {} && forall n :: n in names[..i] ==> n in visited
      {
        assert names[..i + 1] == names[..i] + [names[i]];
        Visit(names[i]);
      }
      assert names[..|names|] == names;
      order := result;
      forall n | n in plugins ensures n in order { assert n in names && n in visited && n !in Open(); }
    }
  }

  const BASE := "base"

  /** `discover_plugins`: the built-in plugin, then the installed ones in dependency order. */
  method DiscoverPlugins(external: set<string>, depends: Depends) returns (order: seq<string>)
    ensures order != [] && order[0] == "base"
    ensures NoRepeats(order[1..]) && (forall n :: n in order[1..] <==> n in external)
    ensures Ordered(external, depends, order[1..])
  {
    order := [BASE];
    if external == {} {
      return;
    }
    var sorter := new PluginSorter(external, depends);
    var rest := sorter.Sort();
    order := order + rest;
    assert order[1..] == rest;
  }

  /** Without cycles the order is topological: every installed dependency comes first. */
  lemma AcyclicIsTopological(plugins: set<string>, depends: Depends, order: seq<string>, i: nat, dep: string)
    requires Ordered(plugins, depends, order) && i < |order| && Edge(plugins, depends, order[i], dep)
    requires forall a, b :: Edge(plugins, depends, a, b) ==> !Reaches(plugins, depends, b, a)
    ensures dep in order[..i]
  {}
}
