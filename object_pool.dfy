/**
 * The generic object pool: inactive objects wait in a stack, objects handed
 * out are tracked in an insertion-ordered set, and released objects go back
 * on the stack.
 */
module ObjectPools {
  import opened JsValues

  /** A pooled game object, with the flags the pool sets on it. */
  class GameObject {
    var active: bool
    var visible: bool
    var destroyed: bool

    /** What a subclass's `createNewObject` returns: a new, live object. */
    constructor ()
      ensures !destroyed
    {
      active := true;
      visible := true;
      destroyed := false;
    }
  }

  /** Deleting a value just appended to a sequence that lacked it gives the sequence back. */
  lemma {:induction false} RemoveAppended<T>(s: seq<T>, x: T)
    requires x !in s
    ensures Remove(s + [x], x) == s
  {
    if s != [] {
      assert (s + [x])[1..] == s[1..] + [x];
      RemoveAppended(s[1..], x);
    }
  }

  /**
   * Taking a pooled object that is not active and releasing it again gives
   * back the pool and the active set it started from.
   */
  lemma GetThenReleaseRestores<T>(pool: seq<T>, active: seq<T>)
    requires |pool| > 0 && pool[|pool| - 1] !in active
    ensures var obj := pool[|pool| - 1];
      && pool[..|pool| - 1] + [obj] == pool
      && Remove(SetAdd(active, obj), obj) == active
  {
    RemoveAppended(active, pool[|pool| - 1]);
  }

  class ObjectPool {
    /** Inactive objects ready for reuse; the last one is handed out first. */
    var pool: seq<GameObject>
    /** Objects currently handed out, in the order they were first added. */
    var active: seq<GameObject>
    const initialSize: nat

    ghost predicate Valid()
      reads this
    {
      NoDuplicates(active)
    }

    /** The constructor and `initialize`: `initialSize` new objects, inactive and hidden. */
    constructor (initialSize: nat)
      ensures Valid()
      ensures |pool| == initialSize && NoDuplicates(pool) && active == []
      ensures forall i :: 0 <= i < |pool| ==> fresh(pool[i]) && !pool[i].active && !pool[i].visible && !pool[i].destroyed
      ensures this.initialSize == initialSize
    {
      this.initialSize := initialSize;
      pool := [];
      active := [];
      new;
      var i := 0;
      while i < initialSize
        invariant 0 <= i <= initialSize && |pool| == i && active == []
        invariant NoDuplicates(pool)
        invariant forall j :: 0 <= j < i ==> fresh(pool[j]) && !pool[j].active && !pool[j].visible && !pool[j].destroyed
      {
        var obj := new GameObject();
        obj.active := false;
        obj.visible := false;
        pool := pool + [obj];
        i := i + 1;
      }
    }

    /** Pops the most recently released object, or creates one when the pool is empty, and activates it. */
    method Get() returns (obj: GameObject)
      requires Valid()
      modifies this`pool, this`active, if |pool| > 0 then {pool[|pool| - 1]} else {}
      ensures Valid()
      ensures old(|pool|) > 0 ==> obj == old(pool[|pool| - 1]) && pool == old(pool[..|pool| - 1])
      ensures old(|pool|) == 0 ==> fresh(obj) && pool == [] && !obj.destroyed
      ensures obj.active && obj.visible
      ensures active == SetAdd(old(active), obj)
    {
      if |pool| > 0 {
        obj := pool[|pool| - 1];
        pool := pool[..|pool| - 1];
      } else {
        obj := new GameObject();
      }
      obj.active := true;
      obj.visible := true;
      active := SetAdd(active, obj);
    }

    /**
     * Deactivates the object and pushes it onto the stack. A missing object
     * is ignored; an object that is already in the pool is pushed again.
     */
    method Release(obj: GameObject?)
      requires Valid()
      modifies this`pool, this`active, obj
      ensures Valid()
      ensures obj == null ==> pool == old(pool) && active == old(active)
      ensures obj != null ==>
        && !obj.active && !obj.visible && obj.destroyed == old(obj.destroyed)
        && active == Remove(old(active), obj)
        && pool == old(pool) + [obj]
    {
      if obj == null {
        return;
      }
      obj.active := false;
      obj.visible := false;
      active := Remove(active, obj);
      pool := pool + [obj];
    }

    /** Releases every active object, in the order they became active, then clears the active set. */
    method ReleaseAll()
      requires Valid()
      modifies this`pool, this`active, active
      ensures Valid()
      ensures pool == old(pool) + old(active) && active == []
      ensures forall o :: o in old(active) ==> !o.active && !o.visible && o.destroyed == old(o.destroyed)
    {
      var snapshot := active;
      var i := 0;
      while i < |snapshot|
        invariant 0 <= i <= |snapshot|
        invariant active == snapshot[i..] && Valid()
        invariant pool == old(pool) + snapshot[..i]
        invariant forall j :: 0 <= j < i ==> !snapshot[j].active && !snapshot[j].visible
        invariant forall o :: o in snapshot ==> o.destroyed == old(o.destroyed)
      {
        RemoveFirst<GameObject?>(active);
        assert snapshot[i..][1..] == snapshot[i + 1..];
        Release(snapshot[i]);
        assert snapshot[..i + 1] == snapshot[..i] + [snapshot[i]];
        i := i + 1;
      }
      assert snapshot[..i] == snapshot;
      active := [];
    }

    /** Destroys every pooled and every active object and empties both collections. */
    method Destroy()
      requires Valid()
      modifies this`pool, this`active, pool, active
      ensures Valid() && pool == [] && active == []
      ensures forall o :: o in old(pool) || o in old(active) ==>
        o.destroyed && o.active == old(o.active) && o.visible == old(o.visible)
    {
      var all := pool + active;
      var i := 0;
      while i < |all|
        invariant 0 <= i <= |all|
        invariant forall o :: o in all[..i] ==> o.destroyed
        invariant forall o :: o in all ==> o.active == old(o.active) && o.visible == old(o.visible)
      {
        all[i].destroyed := true;
        assert all[..i + 1] == all[..i] + [all[i]];
        i := i + 1;
      }
      assert all[..i] == all;
      pool := [];
      active := [];
    }
  }
}
