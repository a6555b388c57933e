/**
 * The parameter server (linien-sim/linien_sim/parameters.py): the clamping setter, the
 * per-client change queues, and the fetch that drops superseded changes.
 */
module ParameterServer {
  import opened Common

  /** Parameter names and client ids only matter as identities. */
  type Name = nat
  type ClientId = nat
  type Value = real

  /** `collapsed`: only the newest change is worth sending. */
  datatype Spec = Spec(min: Option<Value>, max: Option<Value>, wrap: bool, collapsed: bool)

  datatype Change = Change(name: Name, value: Value)

  /** What the value setter stores for `value`. The upper check looks at the outcome of the lower one. */
  function Stored(spec: Spec, value: Value): Value {
    var v1 := if spec.min.Some? && value < spec.min.value
              then if spec.wrap && spec.max.Some? then spec.max.value else spec.min.value
              else value;
    if spec.max.Some? && v1 > spec.max.value
    then if spec.wrap && spec.min.Some? then spec.min.value else spec.max.value
    else v1
  }

  predicate InRange(spec: Spec, v: Value) {
    (spec.min.Some? ==> spec.min.value <= v) && (spec.max.Some? ==> v <= spec.max.value)
  }

  /** A declared range is not inverted. */
  predicate Proper(spec: Spec) {
    spec.min.Some? && spec.max.Some? ==> spec.min.value <= spec.max.value
  }

  /** The setter keeps every stored value in range and leaves an in-range value alone, so echoing a stored value changes nothing. */
  lemma SetterIsIdempotent(spec: Spec, value: Value)
    requires Proper(spec)
    ensures InRange(spec, Stored(spec, value))
    ensures Stored(spec, value) == value <==> InRange(spec, value)
    ensures Stored(spec, Stored(spec, value)) == Stored(spec, value)
  {
  }

  /**
   * Which end is stored for a value out of range: of all values in range the one nearest to it, unless the
   * parameter wraps and both ends are declared; then the one farthest from it.
   */
  lemma OutOfRangeGoesTo(spec: Spec, value: Value, other: Value)
    requires Proper(spec) && !InRange(spec, value) && InRange(spec, other)
    ensures var stored := Stored(spec, value);
            if spec.wrap && spec.min.Some? && spec.max.Some? then Abs(other - value) <= Abs(stored - value)
            else Abs(stored - value) <= Abs(other - value)
  {
  }

  // ---------------------------------------------------------------------------
  // Dropping superseded changes
  // ---------------------------------------------------------------------------

  predicate Mentions(queue: seq<Change>, name: Name) {
    exists k :: 0 <= k < |queue| && queue[k].name == name
  }

  /** The newest value queued for `name`. */
  function Latest(queue: seq<Change>, name: Name): Option<Value> {
    if queue == [] then None
    else if queue[|queue| - 1].name == name then Some(queue[|queue| - 1].value)
    else Latest(queue[..|queue| - 1], name)
  }

  /** A collapsed parameter keeps its newest change only; every other change stays, in order. */
  function Collapse(collapsed: set<Name>, queue: seq<Change>): seq<Change> {
    if queue == [] then []
    else
      var rest := Collapse(collapsed, queue[1..]);
      if queue[0].name in collapsed && Mentions(queue[1..], queue[0].name) then rest else [queue[0]] + rest
  }

  lemma MentionsTail(queue: seq<Change>, name: Name)
    requires queue != []
    ensures Mentions(queue, name) <==> queue[0].name == name || Mentions(queue[1..], name)
  {
    if Mentions(queue, name) && queue[0].name != name {
      var k :| 0 <= k < |queue| && queue[k].name == name;
      assert queue[1..][k - 1].name == name;
    }
    if Mentions(queue[1..], name) {
      var k :| 0 <= k < |queue[1..]| && queue[1..][k].name == name;
      assert queue[k + 1].name == name;
    }
  }

  lemma {:induction false} LatestOfPrepend(c: Change, rest: seq<Change>, name: Name)
    ensures Latest([c] + rest, name) ==
            if Latest(rest, name).Some? then Latest(rest, name) else if c.name == name then Some(c.value) else None
    decreases |rest|
  {
    var all := [c] + rest;
    if rest == [] {
      assert all[..|all| - 1] == [];
    } else {
      assert all[..|all| - 1] == [c] + rest[..|rest| - 1];
      LatestOfPrepend(c, rest[..|rest| - 1], name);
    }
  }

  lemma {:induction false} LatestIffMentioned(queue: seq<Change>, name: Name)
    ensures Latest(queue, name).Some? <==> Mentions(queue, name)
    decreases |queue|
  {
    if queue != [] {
      LatestIffMentioned(queue[1..], name);
      assert queue == [queue[0]] + queue[1..];
      LatestOfPrepend(queue[0], queue[1..], name);
      MentionsTail(queue, name);
    }
  }

  /** Collapsing loses no parameter's newest value and invents none. */
  lemma {:induction false} CollapseKeepsLatest(collapsed: set<Name>, queue: seq<Change>, name: Name)
    ensures Latest(Collapse(collapsed, queue), name) == Latest(queue, name)
    decreases |queue|
  {
    if queue != [] {
      var c, rest := queue[0], queue[1..];
      CollapseKeepsLatest(collapsed, rest, name);
      assert queue == [c] + rest;
      LatestOfPrepend(c, rest, name);
      LatestOfPrepend(c, Collapse(collapsed, rest), name);
      LatestIffMentioned(rest, name);
    }
  }

  /** The changes queued for one parameter, in order. */
  function Of(queue: seq<Change>, name: Name): seq<Value> {
    if queue == [] then []
    else (if queue[0].name == name then [queue[0].value] else []) + Of(queue[1..], name)
  }

  lemma {:induction false} OfIsEmptyIffUnmentioned(queue: seq<Change>, name: Name)
    ensures Of(queue, name) == [] <==> !Mentions(queue, name)
    decreases |queue|
  {
    if queue != [] {
      MentionsTail(queue, name);
      OfIsEmptyIffUnmentioned(queue[1..], name);
    }
  }

  /** Seen per parameter: a collapsed one shrinks to its last change, any other keeps its whole history. */
  lemma {:induction false} CollapsePerParameter(collapsed: set<Name>, queue: seq<Change>, name: Name)
    ensures var before, after := Of(queue, name), Of(Collapse(collapsed, queue), name);
            after == if name in collapsed && before != [] then [before[|before| - 1]] else before
    decreases |queue|
  {
    hide Mentions;
    if queue != [] {
      var c, rest := queue[0], queue[1..];
      CollapsePerParameter(collapsed, rest, name);
      OfIsEmptyIffUnmentioned(rest, name);
      if !(c.name in collapsed && Mentions(rest, c.name)) {
        assert ([c] + Collapse(collapsed, rest))[1..] == Collapse(collapsed, rest);
      }
    }
  }

  /** The scan runs backwards, so that deleting an entry leaves the indices still to visit in place. */
  method DropSuperseded(collapsed: set<Name>, all: seq<Change>) returns (queue: seq<Change>)
    ensures queue == Collapse(collapsed, all)
  {
    hide Mentions, Collapse;
    NothingToCollapse(collapsed);
    queue := all;
    var alreadyHasValue: set<Name> := {};
    var idx := |queue|;
    assert all[idx..] == [];
    while idx > 0
      invariant 0 <= idx <= |all|
      invariant queue == all[..idx] + Collapse(collapsed, all[idx..])
      invariant forall n :: n in alreadyHasValue <==> n in collapsed && Mentions(all[idx..], n)
    {
      idx := idx - 1;
      var name := queue[idx].name;
      CollapseStep(collapsed, all, idx);
      if name in collapsed {
        if name in alreadyHasValue {
          queue := queue[..idx] + queue[idx + 1..];
        } else {
          alreadyHasValue := alreadyHasValue + {name};
        }
      }
    }
    assert all[0..] == all;
  }

  lemma NothingToCollapse(collapsed: set<Name>)
    ensures Collapse(collapsed, []) == [] && forall n :: !Mentions([], n)
  {
  }

  lemma CollapseStep(collapsed: set<Name>, all: seq<Change>, idx: nat)
    requires idx < |all|
    ensures var later := all[idx + 1..];
            Collapse(collapsed, all[idx..]) ==
            (if all[idx].name in collapsed && Mentions(later, all[idx].name) then [] else [all[idx]]) + Collapse(collapsed, later)
    ensures forall n :: Mentions(all[idx..], n) <==> all[idx].name == n || Mentions(all[idx + 1..], n)
  {
    assert all[idx..][1..] == all[idx + 1..];
    forall n ensures Mentions(all[idx..], n) <==> all[idx].name == n || Mentions(all[idx + 1..], n) {
      MentionsTail(all[idx..], n);
    }
  }

  // ---------------------------------------------------------------------------
  // The server object
  // ---------------------------------------------------------------------------

  class SimParameters {
    const specs: map<Name, Spec>
    /** A parameter that has never been given a value is missing here. */
    var values: map<Name, Value>
    var queues: map<ClientId, seq<Change>>
    var listeners: map<ClientId, set<Name>>

    ghost predicate Valid()
      reads this
    {
      && values.Keys <= specs.Keys
      && listeners.Keys <= queues.Keys
      && (forall c :: c in listeners ==> listeners[c] <= specs.Keys)
    }

    predicate Listening(client: ClientId, name: Name)
      reads this
    {
      client in listeners && name in listeners[client]
    }

    function CollapsedNames(): set<Name> {
      set n | n in specs && specs[n].collapsed
    }

    constructor (specs: map<Name, Spec>, start: map<Name, Value>)
      requires start.Keys <= specs.Keys
      ensures Valid() && this.specs == specs && values == start && queues == map[] && listeners == map[]
    {
      this.specs, values, queues, listeners := specs, start, map[], map[];
    }

    /** Stores the clamped value and queues it for every client that listens to the parameter, and for no other. */
    method SetValue(name: Name, value: Value)
      requires Valid() && name in specs
      modifies this`values, this`queues
      ensures Valid()
      ensures values == old(values)[name := Stored(specs[name], value)]
      ensures queues.Keys == old(queues.Keys)
      ensures forall c :: c in queues ==>
                queues[c] == old(queues[c]) +
                             (if Listening(c, name) then [Change(name, Stored(specs[name], value))] else [])
    {
      var stored := Stored(specs[name], value);
      values := values[name := stored];
      var waiting := listeners.Keys;
      while waiting != {}
        invariant waiting <= listeners.Keys && queues.Keys == old(queues.Keys)
        invariant Valid() && values == old(values)[name := stored]
        invariant forall c :: c in queues ==>
                    queues[c] == old(queues[c]) +
                                 (if c !in waiting && Listening(c, name) then [Change(name, stored)] else [])
      {
        var c :| c in waiting;
        if name in listeners[c] {
          queues := queues[c := queues[c] + [Change(name, stored)]];
        }
        waiting := waiting - {c};
      }
    }

    /** A new listener starts with the current value, if there is one, in its queue; registering twice changes nothing. */
    method RegisterRemoteListener(client: ClientId, name: Name)
      requires Valid() && name in specs
      modifies this`queues, this`listeners
      ensures Valid() && Listening(client, name)
      ensures forall c, n :: Listening(c, n) <==> old(Listening(c, n)) || (c == client && n == name)
      ensures var was := if client in old(queues) then old(queues)[client] else [];
              queues == old(queues)[client := if old(Listening(client, name)) || name !in values then was
                                             else was + [Change(name, values[name])]]
    {
      if client !in queues {
        queues := queues[client := []];
      }
      if client !in listeners {
        listeners := listeners[client := {}];
      }
      if name !in listeners[client] {
        if name in values {
          queues := queues[client := queues[client] + [Change(name, values[name])]];
        }
        listeners := listeners[client := listeners[client] + {name}];
      }
    }

    method UnregisterRemoteListeners(client: ClientId)
      requires Valid()
      modifies this`queues, this`listeners
      ensures Valid() && queues == old(queues) - {client} && listeners == old(listeners) - {client}
    {
      queues, listeners := queues - {client}, listeners - {client};
    }

    /** Hands out and empties the client's queue, less the superseded changes. */
    method GetChangedParametersQueue(client: ClientId) returns (queue: seq<Change>)
      requires Valid()
      modifies this`queues
      ensures Valid()
      ensures queue == Collapse(CollapsedNames(), if client in old(queues) then old(queues)[client] else [])
      ensures queues == old(queues)[client := []]
    {
      queue := if client in queues then queues[client] else [];
      queues := queues[client := []];
      queue := DropSuperseded(CollapsedNames(), queue);
    }
  }
}
