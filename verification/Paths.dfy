/** Where relative names lead: their components, and the walk a filesystem takes along them. */
module Paths {
  function Split<C(==)>(path: seq<C>, slash: C): (r: seq<seq<C>>)
    ensures |r| > 0
  {
    if path == [] then [[]]
    else
      var rest := Split(path[1..], slash);
      if path[0] == slash then [[]] + rest else [[path[0]] + rest[0]] + rest[1..]
  }

  /** Components with slashes between them. */
  function Rejoined<C>(components: seq<seq<C>>, slash: C): seq<C> {
    if components == [] then []
    else if |components| == 1 then components[0]
    else components[0] + [slash] + Rejoined(components[1..], slash)
  }

  /** The components of a path: no slash in any of them, and the path when they are put together again. */
  lemma {:induction false} SplitMeans<C>(path: seq<C>, slash: C)
    ensures Rejoined(Split(path, slash), slash) == path
    ensures forall component :: component in Split(path, slash) ==> slash !in component
  {
    if path != [] {
      var rest := Split(path[1..], slash);
      SplitMeans(path[1..], slash);
      assert rest == [rest[0]] + rest[1..];
      assert Split(path, slash)[1..] == if path[0] == slash then rest else rest[1..];
      assert path == [path[0]] + path[1..];
    }
  }

  /** Where a path leads from a directory, component by component, as a filesystem walks it. */
  function Walk<C(==)>(dir: seq<seq<C>>, components: seq<seq<C>>, dot: C): seq<seq<C>>
    decreases |components|
  {
    if components == [] then dir
    else
      var step := components[0];
      var next :=
        if step == [] || step == [dot] then dir
        else if step == [dot, dot] then (if dir == [] then dir else dir[..|dir| - 1])
        else dir + [step];
      Walk(next, components[1..], dot)
  }

  lemma {:induction false} WalkDescends<C>(dir: seq<seq<C>>, components: seq<seq<C>>, dot: C)
    requires [dot, dot] !in components
    ensures dir <= Walk(dir, components, dot)
    decreases |components|
  {
    if components != [] {
      var step := components[0];
      assert step in components;
      WalkDescends(if step == [] || step == [dot] then dir else dir + [step], components[1..], dot);
    }
  }

  lemma {:induction false} SplitPlain<C>(path: seq<C>, slash: C)
    requires slash !in path
    ensures Split(path, slash) == [path]
  {
    if path != [] {
      SplitPlain(path[1..], slash);
      assert [path[0]] + path[1..] == path;
    }
  }

  lemma {:induction false} SplitPush<C>(c: C, path: seq<C>, slash: C)
    ensures var rest := Split(path, slash);
            Split([c] + path, slash) == if c == slash then [[]] + rest else [[c] + rest[0]] + rest[1..]
  {
    assert ([c] + path)[1..] == path;
  }

  /** Walking on past a component that leads nowhere. */
  lemma {:induction false} DottedLeadsAlike<C>(name: seq<C>, slash: C, dot: C)
    requires slash !in name && name != [] && name != [dot] && name != [dot, dot] && dot != slash
    ensures Split([dot] + ([slash] + name), slash) == [[dot], name]
    ensures Walk([], Split([dot] + ([slash] + name), slash), dot) == [name]
  {
    SplitPlain(name, slash);
    SplitPush(slash, name, slash);
    assert Split([slash] + name, slash) == [[], name];
    SplitPush(dot, [slash] + name, slash);
    assert [[], name][1..] == [name] && [dot] + [] == [dot];
    assert Split([dot] + ([slash] + name), slash) == [[dot]] + [name];
    var steps := Split([dot] + ([slash] + name), slash);
    assert steps == [[dot], name] && steps[0] == [dot] && steps[1..] == [name];
    PlainLeadsToItself(name, slash, dot);
  }

  /** A name without a slash, other than the two that name directories, leads to itself. */
  lemma {:induction false} PlainLeadsToItself<C>(name: seq<C>, slash: C, dot: C)
    requires slash !in name && name != [] && name != [dot] && name != [dot, dot]
    ensures Walk([], Split(name, slash), dot) == [name]
  {
    SplitPlain(name, slash);
    assert [name][1..] == [];
  }

  /** What follows a slash has no component that the whole path does not have. */
  lemma {:induction false} SplitSuffix<C>(path: seq<C>, slash: C, k: nat, component: seq<C>)
    requires k < |path| && path[k] == slash && component in Split(path[k + 1..], slash)
    ensures component in Split(path, slash)[1..]
  {
    var rest := Split(path[1..], slash);
    if k == 0 {
      assert Split(path, slash)[1..] == rest;
    } else {
      assert path[1..][k - 1 + 1..] == path[k + 1..];
      SplitSuffix(path[1..], slash, k - 1, component);
      assert Split(path, slash)[1..] == if path[0] == slash then rest else rest[1..];
    }
  }
}
