/** Triggers read in a cycle, grouped by location: one upstream call per group. */
module Grouping {
  import opened Location

  datatype Trigger = Trigger(id: nat, latitude: real, longitude: real) {
    function Key(): string { LocationKey(latitude, longitude) }
  }

  // The triggers at one location, in reading order.
  function At(triggers: seq<Trigger>, key: string): seq<Trigger> {
    if triggers == [] then []
    else
      var last := triggers[|triggers| - 1];
      At(triggers[..|triggers| - 1], key) + if last.Key() == key then [last] else []
  }

  ghost predicate NoRepeats(keys: seq<string>) {
    forall i, j :: 0 <= i < j < |keys| ==> keys[i] != keys[j]
  }

  // A Map in insertion order: `order` lists the keys as they were first set.
  ghost predicate GroupsOf(order: seq<string>, groups: map<string, seq<Trigger>>, triggers: seq<Trigger>) {
    && NoRepeats(order)
    && (forall key :: key in order <==> key in groups)
    && (forall key :: key in groups ==> groups[key] != [] && groups[key] == At(triggers, key))
    && (forall t :: t in triggers ==> t.Key() in groups)
  }

  method GroupByLocation(triggers: seq<Trigger>) returns (order: seq<string>, groups: map<string, seq<Trigger>>)
    ensures GroupsOf(order, groups, triggers)
  {
    order, groups := [], map[];
    for i := 0 to |triggers|
      invariant GroupsOf(order, groups, triggers[..i])
    {
      var t := triggers[i];
      var key := t.Key();
      assert triggers[..i + 1] == triggers[..i] + [t];
      OneMore(triggers[..i], t);
      if key in groups {
        groups := groups[key := groups[key] + [t]];
      } else {
        NobodyAt(triggers[..i], key);
        groups := groups[key := [t]];
        order := order + [key];
      }
    }
    assert triggers[..|triggers|] == triggers;
  }

  lemma OneMore(triggers: seq<Trigger>, t: Trigger)
    ensures forall key :: At(triggers + [t], key) == At(triggers, key) + if t.Key() == key then [t] else []
  {
    assert (triggers + [t])[..|triggers|] == triggers;
  }

  lemma {:induction false} NobodyAt(triggers: seq<Trigger>, key: string)
    requires forall t :: t in triggers ==> t.Key() != key
    ensures At(triggers, key) == []
  {
    if triggers != [] { NobodyAt(triggers[..|triggers| - 1], key); }
  }

  lemma {:induction false} AtIff(triggers: seq<Trigger>, key: string, t: Trigger)
    ensures t in At(triggers, key) <==> t in triggers && t.Key() == key
  {
    if triggers != [] {
      AtIff(triggers[..|triggers| - 1], key, t);
      assert triggers == triggers[..|triggers| - 1] + [triggers[|triggers| - 1]];
    }
  }

  // The groups handed to the pool, one after another.
  function Flattened(order: seq<string>, triggers: seq<Trigger>): seq<Trigger> {
    if order == [] then []
    else Flattened(order[..|order| - 1], triggers) + At(triggers, order[|order| - 1])
  }

  lemma {:induction false} FlattenedOneMore(order: seq<string>, triggers: seq<Trigger>, t: Trigger)
    requires NoRepeats(order)
    ensures multiset(Flattened(order, triggers + [t]))
         == multiset(Flattened(order, triggers)) + if t.Key() in order then multiset{t} else multiset{}
  {
    if order != [] {
      var front, last := order[..|order| - 1], order[|order| - 1];
      assert order == front + [last];
      FlattenedOneMore(front, triggers, t);
      OneMore(triggers, t);
      assert last !in front;
    }
  }

  lemma {:induction false} FlattenedNone(order: seq<string>)
    ensures Flattened(order, []) == []
  {
    if order != [] { FlattenedNone(order[..|order| - 1]); }
  }

  lemma {:induction false} FlattenedAll(order: seq<string>, triggers: seq<Trigger>)
    requires NoRepeats(order) && forall t :: t in triggers ==> t.Key() in order
    ensures multiset(Flattened(order, triggers)) == multiset(triggers)
  {
    if triggers == [] {
      FlattenedNone(order);
    } else {
      var front, last := triggers[..|triggers| - 1], triggers[|triggers| - 1];
      assert triggers == front + [last];
      FlattenedAll(order, front);
      FlattenedOneMore(order, front, last);
    }
  }

  /** The groups partition the triggers read: walking every group once visits every trigger as often
      as it was read, and two triggers are in the same group exactly when their coordinates snap to
      the same point. */
  lemma GroupsPartition(order: seq<string>, groups: map<string, seq<Trigger>>, triggers: seq<Trigger>)
    requires GroupsOf(order, groups, triggers)
    ensures multiset(Flattened(order, triggers)) == multiset(triggers)
    ensures forall t, u, key :: t in triggers && u in triggers && key in groups && t in groups[key] ==>
              (u in groups[key] <==> Snap(t.latitude) == Snap(u.latitude) && Snap(t.longitude) == Snap(u.longitude))
  {
    FlattenedAll(order, triggers);
    forall t, u, key | t in triggers && u in triggers && key in groups && t in groups[key]
      ensures u in groups[key] <==> Snap(t.latitude) == Snap(u.latitude) && Snap(t.longitude) == Snap(u.longitude)
    {
      AtIff(triggers, key, t);
      AtIff(triggers, key, u);
      KeyIffSnapped(t.latitude, t.longitude, u.latitude, u.longitude);
    }
  }
}
