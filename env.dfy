/**
 * The environment of Sources/object/Env.swift: a mutable store of bindings and an optional
 * enclosing environment fixed at construction. Lookup walks outward through the enclosing
 * environments; binding writes only to the local store. `Repr` and `depth` are the ghost
 * footprint and nesting depth of the chain, which make the outward walk terminate.
 */
module Environments {
  import opened Wrappers
  import opened Objects

  class Env {
    var store: map<string, Object>
    const outer: Env?
    ghost const Repr: set<object>
    ghost const depth: nat

    /** The chain of enclosing environments is finite and does not loop back to this one. */
    ghost predicate Valid()
      decreases depth
    {
      && this in Repr
      && (outer == null ==> Repr == {this} && depth == 0)
      && (outer != null ==>
            && Repr == {this} + outer.Repr && this !in outer.Repr
            && depth == outer.depth + 1 && outer.Valid())
    }

    /** This environment followed by its enclosing ones, innermost first. */
    ghost function Chain(): (c: seq<Env>)
      requires Valid()
      ensures |c| == depth + 1 && c[0] == this
      decreases depth
    {
      if outer == null then [this] else [this] + outer.Chain()
    }

    /** Every binding visible from here: the enclosing bindings overridden by the local ones. */
    ghost function Bindings(): map<string, Object>
      requires Valid()
      reads Repr
      decreases depth
    {
      if outer == null then store else outer.Bindings() + store
    }

    /** `init()`: an empty outermost environment. */
    constructor ()
      ensures Valid() && store == map[] && outer == null
      ensures forall name :: GetEnv(name) == None
    {
      store := map[];
      outer := null;
      Repr := {this};
      depth := 0;
    }

    /** `init(outer:)`: an empty environment inside `outer`. */
    constructor WithOuter(outer: Env)
      requires outer.Valid()
      ensures Valid() && store == map[] && this.outer == outer
      ensures forall name :: GetEnv(name) == outer.GetEnv(name)
    {
      store := map[];
      this.outer := outer;
      Repr := {this} + outer.Repr;
      depth := outer.depth + 1;
    }

    /** `getEnv(name:)`: the local binding, else the enclosing environment's answer. */
    function GetEnv(name: string): (r: Option<Object>)
      requires Valid()
      reads Repr
      ensures r.Some? <==> name in Bindings()
      ensures r.Some? ==> r.value == Bindings()[name]
      decreases depth
    {
      if name in store then Some(store[name])
      else if outer != null then outer.GetEnv(name)
      else None
    }

    /** `setEnv(name:val:)`: bind `name` locally and hand the value back. */
    method SetEnv(name: string, val: Object) returns (r: Object)
      requires Valid()
      modifies this
      ensures Valid() && store == old(store)[name := val] && r == val
      ensures GetEnv(name) == Some(val)
      ensures forall n :: n != name ==> GetEnv(n) == old(GetEnv(n))
      ensures outer != null ==> forall n :: outer.GetEnv(n) == old(outer.GetEnv(n))
    {
      store := store[name := val];
      r := val;
    }
  }

  /** A local binding hides every enclosing binding of the same name. */
  lemma LocalShadows(e: Env, name: string)
    requires e.Valid() && name in e.store
    ensures e.GetEnv(name) == Some(e.store[name])
  {
  }

  /** A name with no local binding is looked up in the enclosing environment, or is absent. */
  lemma MissingLocallyAsksOuter(e: Env, name: string)
    requires e.Valid() && name !in e.store
    ensures e.GetEnv(name) == if e.outer != null then e.outer.GetEnv(name) else None
  {
  }

  /**
   * Lookup finds a binding exactly when some environment of the chain has one, and then it
   * is the innermost such binding.
   */
  lemma {:induction false} LookupWalksOutward(e: Env, name: string)
    requires e.Valid()
    ensures e.GetEnv(name).Some? <==> exists k :: 0 <= k < |e.Chain()| && name in e.Chain()[k].store
    ensures forall k :: 0 <= k < |e.Chain()| && name in e.Chain()[k].store
                        && (forall j :: 0 <= j < k ==> name !in e.Chain()[j].store)
                        ==> e.GetEnv(name) == Some(e.Chain()[k].store[name])
    decreases e.depth
  {
    var c := e.Chain();
    if name in e.store {
      assert name in c[0].store;
    } else if e.outer != null {
      var o := e.outer;
      LookupWalksOutward(o, name);
      var c' := o.Chain();
      assert c == [e] + c';
      assert e.GetEnv(name) == o.GetEnv(name);
      if o.GetEnv(name).Some? {
        var k' :| 0 <= k' < |c'| && name in c'[k'].store;
        assert c[k' + 1] == c'[k'];
      }
      forall k | 0 <= k < |c| && name in c[k].store && (forall j :: 0 <= j < k ==> name !in c[j].store)
        ensures e.GetEnv(name) == Some(c[k].store[name])
      {
        assert k > 0 && c[k] == c'[k - 1];
        forall j | 0 <= j < k - 1
          ensures name !in c'[j].store
        {
          assert c'[j] == c[j + 1];
        }
      }
    }
  }

  /** A name bound in no environment of the chain is absent. */
  lemma UnboundIsAbsent(e: Env, name: string)
    requires e.Valid()
    requires forall k :: 0 <= k < |e.Chain()| ==> name !in e.Chain()[k].store
    ensures e.GetEnv(name) == None
  {
    LookupWalksOutward(e, name);
  }
}
