/** JavaScript truthiness and the `||` fallback chains the service uses to
    pick values out of request bodies, token claims and the environment. */
module Js {
  import opened Wrappers

  /** A string-valued property as JavaScript reads it: None is `undefined`
      or `null`. */
  type Prop = Option<string>

  /** A property bag with string values: a token payload, a query string,
      the process environment. */
  type Bag = map<string, string>

  /** `bag[name]`, undefined when the key is missing. */
  function Get(bag: Bag, name: string): Prop {
    if name in bag then Some(bag[name]) else None
  }

  /** The value of a destructured property with a default: the default
      applies only when the property is undefined. */
  function ValueOr(v: Prop, default: string): string {
    if v.Some? then v.value else default
  }

  /** Truthiness of a string property: present and not empty. */
  predicate Truthy(v: Prop) {
    v.Some? && v.value != ""
  }

  /** `a || b`. */
  function Or(a: Prop, b: Prop): Prop {
    if Truthy(a) then a else b
  }

  /** `vs[0] || vs[1] || ... || vs[n-1]`: the first truthy value, or the last
      value when none is truthy. */
  function Chain(vs: seq<Prop>): (r: Prop)
    requires |vs| >= 1
    ensures Truthy(r) <==> exists i :: 0 <= i < |vs| && Truthy(vs[i])
    ensures forall i :: 0 <= i < |vs| && Truthy(vs[i]) && (forall j :: 0 <= j < i ==> !Truthy(vs[j]))
              ==> r == vs[i]
    ensures (forall i :: 0 <= i < |vs| ==> !Truthy(vs[i])) ==> r == vs[|vs| - 1]
  {
    if |vs| == 1 then vs[0]
    else
      var rest := Chain(vs[1..]);
      assert forall i :: 1 <= i < |vs| ==> vs[i] == vs[1..][i - 1];
      Or(vs[0], rest)
  }

  /** The values of the named properties of a bag, in the given order. */
  function Lookups(bag: Bag, names: seq<string>): (vs: seq<Prop>)
    ensures |vs| == |names|
    ensures forall i :: 0 <= i < |names| ==> vs[i] == Get(bag, names[i])
  {
    seq(|names|, i requires 0 <= i < |names| => Get(bag, names[i]))
  }

  /** `bag.n0 || bag.n1 || ...`: the value of the first name whose property is
      truthy. */
  function FirstTruthy(bag: Bag, names: seq<string>): Prop
    requires |names| >= 1
  {
    Chain(Lookups(bag, names))
  }

  /** The chain over a bag picks the first truthy property, and is falsy
      exactly when every property is. */
  lemma {:induction false} FirstTruthyPicksFirst(bag: Bag, names: seq<string>, k: nat)
    requires k < |names|
    requires Truthy(Get(bag, names[k]))
    requires forall j :: 0 <= j < k ==> !Truthy(Get(bag, names[j]))
    ensures FirstTruthy(bag, names) == Get(bag, names[k])
  {
    var vs := Lookups(bag, names);
    assert Truthy(vs[k]);
  }

  /** The chain over a bag is falsy when no named property is truthy. */
  lemma {:induction false} NoneTruthy(bag: Bag, names: seq<string>)
    requires |names| >= 1
    requires forall k :: 0 <= k < |names| ==> names[k] !in bag || bag[names[k]] == ""
    ensures !Truthy(FirstTruthy(bag, names))
  {
    var vs := Lookups(bag, names);
    assert forall k :: 0 <= k < |vs| ==> !Truthy(vs[k]);
  }
}
