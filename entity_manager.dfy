/**
 * The entity manager: entities grouped by type in insertion-ordered sets,
 * additions and removals broadcast on the event bus, and per-frame update
 * and final cleanup walks over every group.
 */
module EntityManagement {
  import opened JsValues
  import opened Events

  /** A managed entity: its identity and whether it has `update` and `destroy` methods. */
  datatype Entity = Entity(id: nat, hasUpdate: bool, hasDestroy: bool)

  datatype Hook = UpdateHook | DestroyHook

  predicate Has(e: Entity, h: Hook)
  {
    if h == UpdateHook then e.hasUpdate else e.hasDestroy
  }

  /** The entities of a run that have the hook, in order. */
  function Having(s: seq<Entity>, h: Hook): (r: seq<Entity>)
    ensures |r| <= |s|
    ensures forall e :: e in r <==> e in s && Has(e, h)
  {
    if s == [] then []
    else Having(s[..|s| - 1], h) + (if Has(s[|s| - 1], h) then [s[|s| - 1]] else [])
  }

  lemma {:induction false} HavingConcat(a: seq<Entity>, b: seq<Entity>, h: Hook)
    ensures Having(a + b, h) == Having(a, h) + Having(b, h)
    decreases |b|
  {
    if b != [] {
      var b' := b[..|b| - 1];
      assert (a + b)[..|a + b| - 1] == a + b';
      assert (a + b)[|a + b| - 1] == b[|b| - 1];
      HavingConcat(a, b', h);
    } else {
      assert a + b == a;
    }
  }

  /** Every group's members, group by group in the order the types were first used. */
  function Members(order: seq<string>, groups: map<string, seq<Entity>>): (r: seq<Entity>)
    requires forall i :: 0 <= i < |order| ==> order[i] in groups
    ensures forall i :: 0 <= i < |order| ==> |groups[order[i]]| <= |r|
    ensures forall e :: e in r <==> exists i :: 0 <= i < |order| && e in groups[order[i]]
  {
    if order == [] then []
    else Members(order[..|order| - 1], groups) + groups[order[|order| - 1]]
  }

  /** Group k's members follow, in their own order, right after those of the groups before it. */
  lemma {:induction false} MembersGroupByGroup(order: seq<string>, groups: map<string, seq<Entity>>, k: nat)
    requires k < |order| && forall i :: 0 <= i < |order| ==> order[i] in groups
    ensures Members(order[..k], groups) + groups[order[k]] <= Members(order, groups)
  {
    var init := order[..|order| - 1];
    if k == |order| - 1 {
      assert order[..k] == init;
    } else {
      assert init[..k] == order[..k] && init[k] == order[k];
      MembersGroupByGroup(init, groups, k);
    }
  }

  lemma MembersStep(order: seq<string>, i: nat, groups: map<string, seq<Entity>>)
    requires i < |order| && forall k :: 0 <= k < |order| ==> order[k] in groups
    ensures Members(order[..i + 1], groups) == Members(order[..i], groups) + groups[order[i]]
  {
    assert order[..i + 1][..i] == order[..i];
  }

  /** `order` lists the keys of `groups` once each, and every group is a set. */
  predicate Indexed(order: seq<string>, groups: map<string, seq<Entity>>)
  {
    && NoDuplicates(order)
    && (forall i :: 0 <= i < |order| ==> order[i] in groups)
    && (forall t :: t in groups ==> t in order && NoDuplicates(groups[t]))
  }

  /** Adding to a group, created and listed on first use, keeps the index. */
  lemma AddKeepsIndexed(order: seq<string>, groups: map<string, seq<Entity>>, t: string, e: Entity)
    requires Indexed(order, groups)
    ensures var members := if t in groups then groups[t] else [];
      Indexed(if t in groups then order else order + [t], groups[t := SetAdd(members, e)])
  {
    if t !in groups {
      var order' := order + [t];
      forall i, j | 0 <= i < j < |order'|
        ensures order'[i] != order'[j]
      {
        if j == |order| {
          assert order'[i] == order[i] && order[i] in groups;
        }
      }
    }
  }

  function EventPayload(e: Entity, entityType: string): Value
  {
    Obj(map["entity" := Num(e.id as real), "type" := Str(entityType)])
  }

  class EntityManager {
    const bus: EventBus
    var groups: map<string, seq<Entity>>
    /** The keys of `groups` in insertion order, which is the order a Map iterates in. */
    var typeOrder: seq<string>
    /** Every `update()` call made on an entity, oldest first. */
    var updateCalls: seq<Entity>
    /** Every `destroy()` call made on an entity, oldest first. */
    var destroyCalls: seq<Entity>

    ghost predicate Valid()
      reads this, bus
    {
      bus.Valid() && Indexed(typeOrder, groups)
    }

    constructor (bus: EventBus)
      requires bus.Valid()
      ensures Valid() && this.bus == bus
      ensures groups == map[] && typeOrder == [] && updateCalls == [] && destroyCalls == []
    {
      this.bus := bus;
      groups := map[];
      typeOrder := [];
      updateCalls := [];
      destroyCalls := [];
    }

    /** `add`: into the type's set (created on first use), then `entityAdded` on the bus. */
    method Add(e: Entity, entityType: string)
      requires Valid()
      modifies this, bus`deliveries
      ensures Valid()
      ensures groups == old(groups)[entityType := SetAdd(if entityType in old(groups) then old(groups)[entityType] else [], e)]
      ensures typeOrder == if entityType in old(groups) then old(typeOrder) else old(typeOrder) + [entityType]
      ensures bus.deliveries == old(bus.deliveries) + Deliveries(bus.listeners, "entityAdded", EventPayload(e, entityType))
      ensures updateCalls == old(updateCalls) && destroyCalls == old(destroyCalls)
    {
      AddKeepsIndexed(typeOrder, groups, entityType, e);
      var members := if entityType in groups then groups[entityType] else [];
      if entityType !in groups {
        typeOrder := typeOrder + [entityType];
      }
      groups := groups[entityType := SetAdd(members, e)];
      bus.Emit("entityAdded", EventPayload(e, entityType));
    }

    /** `remove`: only a type that has a set is touched and announced with `entityRemoved`. */
    method Remove(e: Entity, entityType: string)
      requires Valid()
      modifies this, bus`deliveries
      ensures Valid()
      ensures entityType in old(groups) ==>
        && groups == old(groups)[entityType := JsValues.Remove(old(groups)[entityType], e)]
        && bus.deliveries == old(bus.deliveries) + Deliveries(bus.listeners, "entityRemoved", EventPayload(e, entityType))
      ensures entityType !in old(groups) ==> groups == old(groups) && bus.deliveries == old(bus.deliveries)
      ensures typeOrder == old(typeOrder) && updateCalls == old(updateCalls) && destroyCalls == old(destroyCalls)
    {
      if entityType in groups {
        groups := groups[entityType := JsValues.Remove(groups[entityType], e)];
        bus.Emit("entityRemoved", EventPayload(e, entityType));
      }
    }

    /** `getAll`: the type's entities in insertion order, or none. */
    method GetAll(entityType: string) returns (r: seq<Entity>)
      requires Valid()
      ensures entityType in groups ==> r == groups[entityType]
      ensures entityType !in groups ==> r == []
      ensures NoDuplicates(r)
    {
      r := if entityType in groups then groups[entityType] else [];
    }

    /** `update`: calls `update()` on every entity that has it, group by group. */
    method Update()
      requires Valid()
      modifies this`updateCalls
      ensures updateCalls == old(updateCalls) + Having(Members(typeOrder, groups), UpdateHook)
    {
      var calls := CallAllHooks(typeOrder, groups, UpdateHook);
      updateCalls := updateCalls + calls;
    }

    /** `cleanup`: calls `destroy()` on every entity that has it, then forgets every group. */
    method Cleanup()
      requires Valid()
      modifies this`destroyCalls, this`groups, this`typeOrder
      ensures Valid() && groups == map[] && typeOrder == []
      ensures destroyCalls == old(destroyCalls) + Having(Members(old(typeOrder), old(groups)), DestroyHook)
    {
      var calls := CallAllHooks(typeOrder, groups, DestroyHook);
      destroyCalls := destroyCalls + calls;
      groups := map[];
      typeOrder := [];
    }
  }

  /** The outer walk over the groups in type order: the entities whose hook gets called, in order. */
  method CallAllHooks(order: seq<string>, groups: map<string, seq<Entity>>, h: Hook) returns (calls: seq<Entity>)
    requires forall k :: 0 <= k < |order| ==> order[k] in groups
    ensures calls == Having(Members(order, groups), h)
  {
    calls := [];
    var i := 0;
    while i < |order|
      invariant 0 <= i <= |order|
      invariant calls == Having(Members(order[..i], groups), h)
    {
      var groupCalls := CallHooks(groups[order[i]], h);
      MembersStep(order, i, groups);
      HavingConcat(Members(order[..i], groups), groups[order[i]], h);
      calls := calls + groupCalls;
      i := i + 1;
    }
    assert order[..i] == order;
  }

  /** The inner walk over one group: the entities whose hook gets called, in order. */
  method CallHooks(group: seq<Entity>, h: Hook) returns (calls: seq<Entity>)
    ensures calls == Having(group, h)
  {
    calls := [];
    var j := 0;
    while j < |group|
      invariant 0 <= j <= |group|
      invariant calls == Having(group[..j], h)
    {
      assert group[..j + 1][..j] == group[..j];
      if Has(group[j], h) {
        calls := calls + [group[j]];
      }
      j := j + 1;
    }
    assert group[..j] == group;
  }

  /** An entity added under a type is among that type's entities until it is removed. */
  lemma AddedIsListed(groups: map<string, seq<Entity>>, e: Entity, t: string)
    ensures e in SetAdd(if t in groups then groups[t] else [], e)
    ensures e !in JsValues.Remove(SetAdd(if t in groups then groups[t] else [], e), e)
  {
  }
}
