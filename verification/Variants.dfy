/**
 How many graphs a search can ever meet: a path uses each slot at most once and the order
 of its mutations does not matter, so there are at most as many graphs as ways to leave
 each slot alone or give it one of its options.
 */
module Variants {
  import opened Graphs
  import opened Mutations

  function Options(mutations: set<Mutation>, slot: Slot): set<Mutation> {
    set m | m in mutations && SlotOf(m) == slot
  }

  /** The product over the slots of one plus the number of their options. */
  function VariantBound(mutations: set<Mutation>, slots: seq<Slot>): nat {
    if slots == [] then 1
    else VariantBound(mutations, slots[..|slots| - 1]) * (1 + |Options(mutations, slots[|slots| - 1])|)
  }

  /** The graphs one of the mutations makes of one of the graphs. */
  function Images(graphs: set<GraphSpec>, mutations: set<Mutation>): set<GraphSpec> {
    set g, m | g in graphs && m in mutations && Mutate(m, g).Ok? :: Mutate(m, g).value
  }

  /** Every graph reached by choosing at most one option for each slot, in slot order. */
  function VariantSet(base: GraphSpec, mutations: set<Mutation>, slots: seq<Slot>): set<GraphSpec> {
    if slots == [] then {base}
    else
      var before := VariantSet(base, mutations, slots[..|slots| - 1]);
      before + Images(before, Options(mutations, slots[|slots| - 1]))
  }

  lemma {:induction false} ImagesOfOne(g: GraphSpec, mutations: set<Mutation>)
    ensures |Images({g}, mutations)| <= |mutations|
    decreases |mutations|
  {
    if mutations != {} {
      var m :| m in mutations;
      var rest := mutations - {m};
      ImagesOfOne(g, rest);
      var one := if Mutate(m, g).Ok? then {Mutate(m, g).value} else {};
      assert Images({g}, mutations) == Images({g}, rest) + one;
    } else {
      assert Images({g}, mutations) == {};
    }
  }

  lemma ImagesOfUnion(a: set<GraphSpec>, b: set<GraphSpec>, mutations: set<Mutation>)
    ensures Images(a + b, mutations) == Images(a, mutations) + Images(b, mutations)
  {
  }

  lemma OneMore(n: nat, k: nat)
    ensures (n + 1) * k == n * k + k
  {
  }

  lemma {:induction false} ImagesSize(graphs: set<GraphSpec>, mutations: set<Mutation>)
    ensures |Images(graphs, mutations)| <= |graphs| * |mutations|
    decreases |graphs|
  {
    if graphs != {} {
      var g :| g in graphs;
      var rest := graphs - {g};
      ImagesSize(rest, mutations);
      ImagesOfOne(g, mutations);
      ImagesOfUnion(rest, {g}, mutations);
      assert graphs == rest + {g};
      OneMore(|rest|, |mutations|);
    } else {
      assert Images(graphs, mutations) == {};
    }
  }

  lemma {:induction false} VariantsBounded(base: GraphSpec, mutations: set<Mutation>, slots: seq<Slot>)
    ensures |VariantSet(base, mutations, slots)| <= VariantBound(mutations, slots)
    decreases |slots|
  {
    if slots != [] {
      var shorter, slot := slots[..|slots| - 1], slots[|slots| - 1];
      var before, options := VariantSet(base, mutations, shorter), Options(mutations, slot);
      VariantsBounded(base, mutations, shorter);
      ImagesSize(before, options);
      ProductBound(|VariantSet(base, mutations, slots)|, |before|, |options|, VariantBound(mutations, shorter));
    }
  }

  lemma ProductBound(size: nat, before: nat, options: nat, bound: nat)
    requires size <= before + before * options && before <= bound
    ensures size <= bound * (1 + options)
  {
    assert before * options <= bound * options;
  }

  /** The path stays within the mutations and the slots, and uses no slot twice. */
  predicate PathWithin(path: seq<Mutation>, mutations: set<Mutation>, slots: seq<Slot>) {
    DistinctSlots(path) && forall m | m in path :: m in mutations && SlotOf(m) in slots
  }

  lemma SplitAt(path: seq<Mutation>, i: nat, mutations: set<Mutation>, slots: seq<Slot>)
    requires slots != [] && PathWithin(path, mutations, slots) && i < |path|
    requires SlotOf(path[i]) == slots[|slots| - 1]
    ensures PathWithin(path[..i] + path[i + 1..], mutations, slots[..|slots| - 1])
    ensures path == path[..i] + [path[i]] + path[i + 1..]
    ensures forall n :: n in path[i + 1..] ==> SlotOf(n) != SlotOf(path[i])
  {
    var rest := path[..i] + path[i + 1..];
    assert slots == slots[..|slots| - 1] + [slots[|slots| - 1]];
    forall j | 0 <= j < |rest|
      ensures rest[j] in mutations && SlotOf(rest[j]) in slots[..|slots| - 1]
    {
      var k := if j < i then j else j + 1;
      assert rest[j] == path[k] && path[k] in path;
      assert SlotOf(path[k]) != SlotOf(path[i]);
    }
  }

  lemma HasMember<T>(s: seq<T>)
    requires s != []
    ensures exists x :: x in s
  {
    assert s[0] in s;
  }

  lemma EmptyWithin(path: seq<Mutation>, mutations: set<Mutation>)
    requires PathWithin(path, mutations, [])
    ensures path == []
  {
    if path != [] {
      HasMember(path);
    }
  }

  /** Every path that uses each slot at most once ends in the variant set. */
  lemma {:induction false} PathsEndInVariants(base: GraphSpec, mutations: set<Mutation>, slots: seq<Slot>,
                                              path: seq<Mutation>)
    requires PathWithin(path, mutations, slots) && MutateAll(base, path).Ok?
    ensures MutateAll(base, path).value in VariantSet(base, mutations, slots)
    decreases |slots|
  {
    if slots == [] {
      EmptyWithin(path, mutations);
    } else {
      var shorter, slot := slots[..|slots| - 1], slots[|slots| - 1];
      assert slots == shorter + [slot];
      if i :| 0 <= i < |path| && SlotOf(path[i]) == slot {
        var rest := path[..i] + path[i + 1..];
        SplitAt(path, i, mutations, slots);
        MoveToEnd(base, path[..i], path[i], path[i + 1..]);
        PrefixMutates(base, rest, path[i], rest + [path[i]]);
        PathsEndInVariants(base, mutations, shorter, rest);
        assert path[i] in path;
      } else {
        forall m | m in path ensures SlotOf(m) in shorter {
          var j :| 0 <= j < |path| && path[j] == m;
        }
        PathsEndInVariants(base, mutations, shorter, path);
      }
    }
  }

  lemma {:induction false} SubsetSize<T>(a: set<T>, b: set<T>)
    requires a <= b
    ensures |a| <= |b|
    decreases a
  {
    if a != {} {
      var x :| x in a;
      SubsetSize(a - {x}, b - {x});
    }
  }

  /** A set of graphs that slot-distinct paths lead to is no larger than the bound. */
  lemma GraphsMetBounded(base: GraphSpec, mutations: set<Mutation>, slots: seq<Slot>, met: set<GraphSpec>)
    requires forall g :: g in met ==> g in VariantSet(base, mutations, slots)
    ensures |met| <= VariantBound(mutations, slots)
  {
    SubsetSize(met, VariantSet(base, mutations, slots));
    VariantsBounded(base, mutations, slots);
  }
}
