/**
 * library/componentset.cpp: components are loaded depth-first, through the find calls that their
 * own onLoad makes, and unloaded in reverse.
 */
module ComponentSets {

  /** What an onLoad does that matters here, in order: it looks components up, or it throws. */
  datatype Action = LookUp(name: string) | Throw

  /** The registered components and their onLoad scripts. */
  type Registry = map<string, seq<Action>>

  /** The registered components that n's onLoad looks up. Looking up an unknown name yields NULL. */
  ghost predicate DependsOn(g: Registry, n: string, d: string) {
    n in g && d in g && LookUp(d) in g[n]
  }

  ghost predicate Throws(g: Registry, n: string) {
    n in g && Throw in g[n]
  }

  /** Each name depends on the next. */
  ghost predicate IsPath(g: Registry, p: seq<string>) {
    && (forall i | 0 <= i < |p| :: p[i] in g)
    && forall i | 0 <= i < |p| - 1 :: DependsOn(g, p[i], p[i + 1])
  }

  ghost predicate IsCycle(g: Registry, p: seq<string>) {
    p != [] && IsPath(g, p) && DependsOn(g, p[|p| - 1], p[0])
  }

  ghost predicate Cyclic(g: Registry) {
    exists p :: IsCycle(g, p)
  }

  /** No dependency cycle, and no onLoad that throws by itself. */
  ghost predicate Loadable(g: Registry) {
    !Cyclic(g) && forall n | n in g :: !Throws(g, n)
  }

  ghost predicate Distinct(s: seq<string>) {
    forall i, j | 0 <= i < j < |s| :: s[i] != s[j]
  }

  /** Every component stands behind all it depends on: the list is dependency-closed and ordered. */
  ghost predicate Topological(g: Registry, stack: seq<string>) {
    && Distinct(stack)
    && (forall i | 0 <= i < |stack| :: stack[i] in g && !Throws(g, stack[i]))
    && forall i, d | 0 <= i < |stack| && DependsOn(g, stack[i], d) :: d in stack[..i]
  }

  /** A cycle cannot be put in such an order. */
  lemma TopologicalRefutesCycle(g: Registry, stack: seq<string>, p: seq<string>)
    requires Topological(g, stack) && IsCycle(g, p)
    ensures forall i | 0 <= i < |p| :: p[i] !in stack
  {
    if k :| 0 <= k < |p| && p[k] in stack {
      // from p[k] to the end of the cycle positions do not rise, and then p[0] stands lower still
      var i :| 0 <= i < |stack| && stack[i] == p[k];
      var last := PositionFalls(g, stack, p, k, i);
      var first := DependencyPosition(g, stack, last, p[0]);
      // once more around: the end of the cycle would stand at two positions
      var again := PositionFalls(g, stack, p, 0, first);
      assert false;
    }
  }

  /** A dependency of the component at position i stands at a lower position. */
  lemma DependencyPosition(g: Registry, stack: seq<string>, i: nat, d: string) returns (j: nat)
    requires Topological(g, stack) && i < |stack| && DependsOn(g, stack[i], d)
    ensures j < i && stack[j] == d
  {
    j :| j < i && stack[..i][j] == d;
  }

  lemma {:induction false} PositionFalls(g: Registry, stack: seq<string>, p: seq<string>, k: nat, i: nat) returns (last: nat)
    requires Topological(g, stack) && IsPath(g, p) && k < |p| && i < |stack| && stack[i] == p[k]
    ensures last <= i && stack[last] == p[|p| - 1]
    decreases |p| - k
  {
    if k == |p| - 1 {
      last := i;
    } else {
      var j := DependencyPosition(g, stack, i, p[k + 1]);
      last := PositionFalls(g, stack, p, k + 1, j);
    }
  }

  // ----- the class -----

  datatype Outcome = Returned | Threw

  /** An exception that leaves find or init has one of two causes. */
  ghost predicate Justified(g: Registry) {
    Cyclic(g) || exists n :: n in g && Throws(g, n)
  }

  class ComponentSet {
    const components: Registry
    const order: seq<string>          // the map's iteration order
    var started: set<string>          // isLoadingStarted
    var loadingStack: seq<string>
    ghost var calls: seq<string>      // history: every onLoad begun

    ghost predicate Valid()
      reads this
    {
      && (forall n :: n in order <==> n in components)
      && Topological(components, loadingStack)
      && (forall n | n in loadingStack :: n in started)
      && (forall n | n in started :: n in components)
      && Distinct(calls) && (forall n :: n in calls <==> n in started)
    }

    /** The onLoads under way are those of chain, each looked up by the one before. */
    ghost predicate Loading(chain: seq<string>)
      reads this
    {
      && IsPath(components, chain)
      && forall n :: n in chain <==> n in started && n !in loadingStack
    }

    constructor (components: Registry, order: seq<string>)
      requires forall n :: n in order <==> n in components
      ensures Valid() && Loading([])
      ensures this.components == components && this.order == order && loadingStack == []
    {
      this.components, this.order := components, order;
      started, loadingStack, calls := {}, [], [];
    }

    predicate IsComponentLoaded(name: string)
      reads this
    {
      name in loadingStack
    }

    /** ComponentSet::find. Loads the component first when it is not loaded yet. */
    method Find(name: string, ghost chain: seq<string>) returns (r: Outcome, found: bool)
      requires Valid() && Loading(chain)
      requires chain != [] && name in components ==> DependsOn(components, chain[|chain| - 1], name)
      modifies this
      ensures Valid() && old(loadingStack) <= loadingStack && old(started) <= started && old(calls) <= calls
      ensures found == (name in components && r == Returned)
      ensures r == Returned ==> Loading(chain) && (name in components ==> name in loadingStack)
      ensures r == Threw ==> Justified(components)
      ensures name in old(loadingStack) || name !in components ==>
                r == Returned && loadingStack == old(loadingStack) && started == old(started)
      decreases components.Keys - started, 1
    {
      r, found := Returned, false;
      if name in components {
        if !IsComponentLoaded(name) {
          r := SendOnLoad(name, chain);
          if r == Threw {
            return;
          }
        }
        found := true;
      }
    }

    /** ComponentSet::sendOnLoad. A component that is being loaded already closes a cycle. */
    method SendOnLoad(name: string, ghost chain: seq<string>) returns (r: Outcome)
      requires Valid() && Loading(chain) && name in components
      requires chain != [] ==> DependsOn(components, chain[|chain| - 1], name)
      modifies this
      ensures Valid() && old(loadingStack) <= loadingStack && old(started) <= started && old(calls) <= calls
      ensures r == Returned ==> Loading(chain) && name in loadingStack
      ensures r == Threw ==> Justified(components)
      decreases components.Keys - started, 0
    {
      if IsComponentLoaded(name) {
        return Returned;
      }
      if name in started {
        ChainClosesCycle(components, chain, name);
        return Threw;
      }
      started := started + {name};
      calls := calls + [name];
      assert components.Keys - started < components.Keys - old(started) by {
        assert name in components.Keys - old(started);
      }
      r := OnLoad(name, chain + [name]);
      if r == Threw {
        return;
      }
      PushLast(components, loadingStack, name);
      loadingStack := loadingStack + [name];
    }

    /** The component's own onLoad: its actions in order, exceptions passing through. */
    method OnLoad(name: string, ghost chain: seq<string>) returns (r: Outcome)
      requires Valid() && Loading(chain) && chain != [] && chain[|chain| - 1] == name
      modifies this
      ensures Valid() && old(loadingStack) <= loadingStack && old(started) <= started && old(calls) <= calls
      ensures r == Returned ==>
                && Loading(chain) && !Throws(components, name)
                && forall d | DependsOn(components, name, d) :: d in loadingStack
      ensures r == Threw ==> Justified(components)
      decreases components.Keys - started, 2
    {
      var actions := components[name];
      for i := 0 to |actions|
        invariant Valid() && Loading(chain)
        invariant old(loadingStack) <= loadingStack && old(started) <= started && old(calls) <= calls
        invariant Throw !in actions[..i]
        invariant forall d | d in components && LookUp(d) in actions[..i] :: d in loadingStack
      {
        match actions[i]
        case Throw =>
          assert Throws(components, name);
          return Threw;
        case LookUp(d) =>
          var found;
          r, found := Find(d, chain);
          if r == Threw {
            return;
          }
      }
      return Returned;
    }

    /** ComponentSet::sendOnLoadToComponents, the end of init. */
    method SendOnLoadToComponents() returns (r: Outcome)
      requires Valid() && Loading([])
      modifies this
      ensures Valid() && old(loadingStack) <= loadingStack
      ensures r == Returned <==> Loadable(components)
      ensures r == Returned ==> forall n :: n in loadingStack <==> n in components
    {
      for i := 0 to |order|
        invariant Valid() && Loading([])
        invariant old(loadingStack) <= loadingStack
        invariant forall n | n in order[..i] :: n in loadingStack
      {
        r := SendOnLoad(order[i], []);
        if r == Threw {
          return;
        }
      }
      r := Returned;
      assert order[..|order|] == order;
      AllLoadedIsLoadable(components, loadingStack);
    }

    /** ComponentSet::sendOnUnloadToComponents: what is unloaded, in order. */
    method SendOnUnloadToComponents() returns (log: seq<string>)
      requires Valid()
      ensures log == Reverse(loadingStack)
    {
      log := [];
      var i := |loadingStack|;
      while i > 0
        invariant 0 <= i <= |loadingStack|
        invariant log == Reverse(loadingStack[i..])
      {
        i := i - 1;
        assert loadingStack[i..] == [loadingStack[i]] + loadingStack[i + 1..];
        log := log + [loadingStack[i]];
      }
      assert loadingStack[0..] == loadingStack;
    }
  }

  function Reverse(s: seq<string>): (r: seq<string>)
    ensures |r| == |s| && forall i | 0 <= i < |s| :: r[i] == s[|s| - 1 - i]
  {
    if s == [] then [] else Reverse(s[1..]) + [s[0]]
  }

  /** Looking up a component whose onLoad is under way: the chain from there on is a cycle. */
  lemma ChainClosesCycle(g: Registry, chain: seq<string>, name: string)
    requires IsPath(g, chain) && name in chain && DependsOn(g, chain[|chain| - 1], name)
    ensures Cyclic(g)
  {
    var k :| 0 <= k < |chain| && chain[k] == name;
    assert IsCycle(g, chain[k..]);
  }

  lemma ReverseIsDistinct(s: seq<string>)
    requires Distinct(s)
    ensures Distinct(Reverse(s))
  {
    hide Reverse;
  }

  /** Unloading in reverse: no component goes before one that depends on it. */
  lemma UnloadOrder(g: Registry, stack: seq<string>, a: string, b: string)
    requires Topological(g, stack) && a in stack && DependsOn(g, a, b)
    ensures exists i, j :: 0 <= i < j < |stack| && Reverse(stack)[i] == a && Reverse(stack)[j] == b
    ensures Distinct(Reverse(stack))
  {
    hide Reverse;
    ReverseIsDistinct(stack);
    var k :| 0 <= k < |stack| && stack[k] == a;
    var l := DependencyPosition(g, stack, k, b);
    assert Reverse(stack)[|stack| - 1 - k] == a && Reverse(stack)[|stack| - 1 - l] == b;
  }

  /** A component whose dependencies are all loaded can go on top. */
  lemma PushLast(g: Registry, stack: seq<string>, name: string)
    requires Topological(g, stack) && name !in stack && name in g && !Throws(g, name)
    requires forall d | DependsOn(g, name, d) :: d in stack
    ensures Topological(g, stack + [name])
  {
    var pushed := stack + [name];
    forall i, d | 0 <= i < |pushed| && DependsOn(g, pushed[i], d)
      ensures d in pushed[..i]
    {
      assert pushed[..i] == stack[..i];
      assert stack[..|stack|] == stack;
    }
  }

  lemma AllLoadedIsLoadable(g: Registry, stack: seq<string>)
    requires Topological(g, stack) && forall n | n in g :: n in stack
    ensures Loadable(g)
  {
    forall n | n in g
      ensures !Throws(g, n)
    {
      var i :| 0 <= i < |stack| && stack[i] == n;
    }
    if p :| IsCycle(g, p) {
      TopologicalRefutesCycle(g, stack, p);
      assert false;
    }
  }
}
