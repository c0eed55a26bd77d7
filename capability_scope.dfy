/**
  The `scope` object handed to the generated function: an object literal whose first property
  is an explicit `React` entry, followed by spreads of eight library namespaces.  An object
  spread copies every own property of its source and later writes win, so the literal is an
  ordered left-to-right merge of name-to-value maps.  The namespaces themselves are opaque.
*/
module CapabilityScope {
  import opened Base

  /** A binding in a library namespace: opaque, `undefined`, or a plain object. */
  datatype Value = Opaque(ref: nat) | Undefined | Object(members: map<Name, Value>)

  type Namespace = map<Name, Value>

  /** `{ ...s0, ...s1, ... }`: every source's entries, a later source overriding an earlier one. */
  function Spread(sources: seq<Namespace>): (r: Namespace)
    ensures sources == [] ==> r == map[]
    ensures |sources| == 1 ==> r == sources[0]
    ensures sources != [] ==> sources[|sources| - 1].Keys <= r.Keys
    decreases |sources|
  {
    if sources == [] then map[]
    else Spread(sources[..|sources| - 1]) + sources[|sources| - 1]
  }

  /** Source `i` is the last one in the order that defines `k`. */
  ghost predicate LastDefining(sources: seq<Namespace>, i: int, k: Name) {
    0 <= i < |sources| && k in sources[i] && forall j :: i < j < |sources| ==> k !in sources[j]
  }

  /** A name is in the merge exactly when some source defines it. */
  lemma {:induction false} SpreadKeys(sources: seq<Namespace>, k: Name)
    ensures k in Spread(sources) <==> exists i :: 0 <= i < |sources| && k in sources[i]
    decreases |sources|
  {
    if sources != [] {
      var n := |sources| - 1;
      var init := sources[..n];
      SpreadKeys(init, k);
      if k in Spread(sources) && k !in sources[n] {
        assert k in Spread(init);
        var i :| 0 <= i < |init| && k in init[i];
        assert k in sources[i];
      }
      if exists i :: 0 <= i < |sources| && k in sources[i] {
        var i :| 0 <= i < |sources| && k in sources[i];
        if i < n {
          assert k in init[i];
        }
      }
    }
  }

  /** The value the merge holds for a name is the one of the last source that defines it. */
  lemma {:induction false} SpreadLastWins(sources: seq<Namespace>, i: int, k: Name)
    requires LastDefining(sources, i, k)
    ensures k in Spread(sources) && Spread(sources)[k] == sources[i][k]
    decreases |sources|
  {
    var n := |sources| - 1;
    if i < n {
      var init := sources[..n];
      assert k !in sources[n];
      assert LastDefining(init, i, k);
      SpreadLastWins(init, i, k);
    }
  }

  /** Spreading two groups of sources in turn is spreading them all. */
  lemma {:induction false} SpreadAppend(a: seq<Namespace>, b: seq<Namespace>)
    ensures Spread(a + b) == Spread(a) + Spread(b)
    decreases |b|
  {
    if b == [] {
      assert a + b == a;
    } else {
      var n := |b| - 1;
      assert (a + b)[..|a + b| - 1] == a + b[..n];
      assert (a + b)[|a + b| - 1] == b[n];
      SpreadAppend(a, b[..n]);
    }
  }

  /** The library namespaces, in the order of their spreads. */
  datatype Libraries = Libraries(
    react: Namespace, shadcn: Namespace, phosphor: Namespace, recharts: Namespace,
    dateFns: Namespace, three: Namespace, fiber: Namespace, drei: Namespace)

  function LibrarySpreads(libs: Libraries): seq<Namespace> {
    [libs.react, libs.shadcn, libs.phosphor, libs.recharts, libs.dateFns, libs.three, libs.fiber, libs.drei]
  }

  /** A property read: `undefined` when the namespace has no such member. */
  function Get(ns: Namespace, k: Name): Value {
    if k in ns then ns[k] else Undefined
  }

  /** The hooks the `React` entry pins after spreading React. */
  const PinnedHooks: set<Name> := {"useState", "useEffect", "useRef"}

  /**
    `{ ...React, useState: React.useState, useEffect: React.useEffect, useRef: React.useRef }`.
    The pins re-read React's own members, so the entry agrees with React on every name React
    defines; a hook React lacks is present with the value `undefined`.
  */
  function ReactEntry(react: Namespace): (r: Namespace)
    ensures r.Keys == react.Keys + PinnedHooks
    ensures forall k :: k in react ==> r[k] == react[k]
    ensures forall k :: k in PinnedHooks && k !in react ==> r[k] == Undefined
  {
    var pins := map["useState" := Get(react, "useState"), "useEffect" := Get(react, "useEffect"),
                    "useRef" := Get(react, "useRef")];
    assert [react, pins][..1] == [react] && [react][..0] == [];
    assert pins.Keys == PinnedHooks;
    assert Spread([react]) == react;
    assert Spread([react, pins]) == react + pins;
    Spread([react, pins])
  }

  /** The spreads of the object literal in source order, the pinned `React` entry first. */
  function ScopeSources(libs: Libraries): seq<Namespace> {
    [map["React" := Object(ReactEntry(libs.react))]] + LibrarySpreads(libs)
  }

  /**
    The `scope` object: `React` is always bound, and the last spread, drei's namespace, wins
    every name it defines.
  */
  function Scope(libs: Libraries): (r: Namespace)
    ensures "React" in r
    ensures forall k :: k in libs.drei ==> k in r && r[k] == libs.drei[k]
  {
    var sources := ScopeSources(libs);
    assert "React" in sources[0];
    SpreadKeys(sources, "React");
    assert sources[|sources| - 1] == libs.drei;
    Spread(sources)
  }

  /** Membership in a merge headed by one extra source, stated over the remaining sources. */
  lemma SpreadKeysAfter(first: Namespace, rest: seq<Namespace>, k: Name)
    ensures k in Spread([first] + rest) <==> k in first || exists ns :: ns in rest && k in ns
  {
    var sources := [first] + rest;
    SpreadKeys(sources, k);
    if k in first {
      assert k in sources[0];
    }
    if exists ns :: ns in rest && k in ns {
      var ns :| ns in rest && k in ns;
      var j :| 0 <= j < |rest| && rest[j] == ns;
      assert sources[j + 1] == ns;
    }
    if k in Spread(sources) && k !in first {
      var i :| 0 <= i < |sources| && k in sources[i];
      assert i > 0 && sources[i] == rest[i - 1];
    }
  }

  /** The names visible to the generated code are `React` and the libraries' names, no others. */
  lemma ScopeNames(libs: Libraries, k: Name)
    ensures k in Scope(libs) <==> k == "React" || exists ns :: ns in LibrarySpreads(libs) && k in ns
  {
    SpreadKeysAfter(map["React" := Object(ReactEntry(libs.react))], LibrarySpreads(libs), k);
  }

  /** In a merge headed by one extra source, the last of the remaining sources defining a name wins. */
  lemma SpreadLastWinsAfter(first: Namespace, rest: seq<Namespace>, j: int, k: Name)
    requires LastDefining(rest, j, k)
    ensures k in Spread([first] + rest) && Spread([first] + rest)[k] == rest[j][k]
  {
    var sources := [first] + rest;
    assert LastDefining(sources, j + 1, k);
    SpreadLastWins(sources, j + 1, k);
  }

  /**
    Every library name resolves to the binding of the last library in spread order that defines
    it; when some library defines `React`, that binding replaces the explicit `React` entry.
  */
  lemma ScopeLastLibraryWins(libs: Libraries, j: int, k: Name)
    requires LastDefining(LibrarySpreads(libs), j, k)
    ensures k in Scope(libs) && Scope(libs)[k] == LibrarySpreads(libs)[j][k]
  {
    SpreadLastWinsAfter(map["React" := Object(ReactEntry(libs.react))], LibrarySpreads(libs), j, k);
  }

  /** The pinned `React` entry is what `scope.React` holds when no library defines `React`. */
  lemma ScopeReactEntry(libs: Libraries)
    requires forall ns :: ns in LibrarySpreads(libs) ==> "React" !in ns
    ensures "React" in Scope(libs) && Scope(libs)["React"] == Object(ReactEntry(libs.react))
  {
    var rest := LibrarySpreads(libs);
    var sources := ScopeSources(libs);
    assert forall m :: 0 < m < |sources| ==> sources[m] == rest[m - 1];
    assert LastDefining(sources, 0, "React");
    SpreadLastWins(sources, 0, "React");
  }
}
