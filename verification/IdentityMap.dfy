/** The identity map: objects by type and primary key, and back. */
module IdentityMap {
  import opened Common
  import opened Values

  /** An object, by its address; it knows its type. */
  datatype Object = Object(address: nat, gtype: nat)

  datatype Key = Key(gtype: nat, primaryKey: Value)

  // ---------------------------------------------------------------- equality of keys

  predicate KeyEqual(a: Key, b: Key) {
    a.gtype == b.gtype &&
    match (a.primaryKey, b.primaryKey)
    case (Integer(m), Integer(n)) => m == n
    case (Text(s), Text(t)) => s == t
    case (Null, Null) => true
    case _ => false
  }

  /** The keys that equal themselves. */
  predicate Comparable(key: Key) {
    key.primaryKey.Integer? || key.primaryKey.Text? || key.primaryKey.Null?
  }

  /** Only comparable keys equal themselves, and nothing else equals them. */
  lemma EqualityOfKeys(a: Key, b: Key)
    ensures KeyEqual(a, b) <==> a == b && Comparable(a)
  {
  }

  // ---------------------------------------------------------------- the two tables

  datatype Entry = Entry(key: Key, item: Object)

  /**
   The tables share allocated keys, named here by numbers.  A key is alive while it is in
   `entries`; `reverse` may come to hold a key that has been freed.
   */
  datatype Tables = Tables(entries: map<nat, Entry>, reverse: map<Object, nat>, next: nat)

  predicate Finds(t: Tables, key: Key, id: nat) {
    id in t.entries && KeyEqual(t.entries[id].key, key)
  }

  ghost predicate Has(t: Tables, key: Key) {
    exists id :: Finds(t, key, id)
  }

  ghost function IdOf(t: Tables, key: Key): (id: nat)
    requires Has(t, key)
    ensures Finds(t, key, id)
  {
    var id :| Finds(t, key, id);
    id
  }

  /** An insertion into a hash table keeps the key that is there and frees the one that is passed. */
  ghost function Added(t: Tables, key: Key, item: Object): Tables {
    if Has(t, key) then
      var id := IdOf(t, key);
      Tables(t.entries[id := Entry(t.entries[id].key, item)], t.reverse[item := t.next], t.next + 1)
    else
      Tables(t.entries[t.next := Entry(key, item)], t.reverse[item := t.next], t.next + 1)
  }

  ghost function Removed(t: Tables, key: Key): Tables {
    if Has(t, key) then
      var id := IdOf(t, key);
      Tables(t.entries - {id}, t.reverse - {t.entries[id].item}, t.next)
    else t
  }

  /** Whether removing an object looks at a key that has been freed. */
  predicate Dangles(t: Tables, item: Object) {
    item in t.reverse && t.reverse[item] !in t.entries
  }

  ghost function ObjectRemoved(t: Tables, item: Object): Tables
    requires !Dangles(t, item)
  {
    if item !in t.reverse then t else
      var key := t.entries[t.reverse[item]].key;
      Tables(if Has(t, key) then t.entries - {IdOf(t, key)} else t.entries, t.reverse - {item}, t.next)
  }

  predicate Distinct(t: Tables) {
    forall i, j | i in t.entries && j in t.entries && i != j :: !KeyEqual(t.entries[i].key, t.entries[j].key)
  }

  predicate Below(t: Tables) {
    forall i | i in t.entries :: i < t.next
  }

  predicate Inverse(t: Tables) {
    && (forall o | o in t.reverse :: t.reverse[o] in t.entries && t.entries[t.reverse[o]].item == o)
    && (forall i | i in t.entries :: t.entries[i].item in t.reverse && t.reverse[t.entries[i].item] == i)
  }

  predicate AllComparable(t: Tables) {
    forall i | i in t.entries :: Comparable(t.entries[i].key)
  }

  ghost predicate Valid(t: Tables) {
    Distinct(t) && Below(t) && Inverse(t) && AllComparable(t)
  }

  /** The plain map that valid tables stand for. */
  ghost function View(t: Tables): (view: map<Key, Object>)
    requires Valid(t)
    ensures forall i | i in t.entries :: t.entries[i].key in view && view[t.entries[i].key] == t.entries[i].item
    ensures forall key | key in view :: Has(t, key)
  {
    KeysAreDistinct(t);
    map i | i in t.entries :: t.entries[i].key := t.entries[i].item
  }

  lemma KeysAreDistinct(t: Tables)
    requires Valid(t)
    ensures forall i, j | i in t.entries && j in t.entries && t.entries[i].key == t.entries[j].key :: i == j
    ensures forall i | i in t.entries :: Has(t, t.entries[i].key)
  {
    hide KeyEqual, Inverse;
    forall i, j | i in t.entries && j in t.entries && t.entries[i].key == t.entries[j].key ensures i == j {
      EqualityOfKeys(t.entries[i].key, t.entries[j].key);
    }
    forall i | i in t.entries ensures Has(t, t.entries[i].key) {
      EqualityOfKeys(t.entries[i].key, t.entries[i].key);
      assert Finds(t, t.entries[i].key, i);
    }
  }

  // ---------------------------------------------------------------- the map object

  class IdentityMap {
    var objects: map<nat, Entry>
    var objectToKey: map<Object, nat>
    var nextKey: nat

    function Contents(): Tables
      reads this
    {
      Tables(objects, objectToKey, nextKey)
    }

    constructor ()
      ensures Contents() == Tables(map[], map[], 0)
    {
      objects, objectToKey, nextKey := map[], map[], 0;
    }

    method Add(key: Key, item: Object)
      requires Distinct(Contents()) && Below(Contents())
      modifies this
      ensures Contents() == Added(old(Contents()), key, item)
      ensures Distinct(Contents()) && Below(Contents())
    {
      hide KeyEqual;
      AddKeepsDistinct(Contents(), key, item);
      var id := nextKey;
      if found :| found in objects && KeyEqual(objects[found].key, key) {
        assert Finds(Contents(), key, found);
        OneFound(Contents(), key, found);
        objects := objects[found := Entry(objects[found].key, item)];
      } else {
        assert !Has(Contents(), key);
        objects := objects[id := Entry(key, item)];
      }
      objectToKey := objectToKey[item := id];
      nextKey := nextKey + 1;
    }

    method Get(key: Key) returns (r: Option<Object>)
      requires Distinct(Contents())
      ensures r == if Has(Contents(), key) then Some(objects[IdOf(Contents(), key)].item) else None
    {
      hide KeyEqual;
      if found :| found in objects && KeyEqual(objects[found].key, key) {
        assert Finds(Contents(), key, found);
        OneFound(Contents(), key, found);
        return Some(objects[found].item);
      }
      assert !Has(Contents(), key);
      return None;
    }

    method Remove(key: Key) returns (removed: bool)
      requires Distinct(Contents())
      modifies this
      ensures Contents() == Removed(old(Contents()), key)
      ensures removed == old(Has(Contents(), key))
    {
      hide KeyEqual;
      removed := false;
      if found :| found in objects && KeyEqual(objects[found].key, key) {
        assert Finds(Contents(), key, found);
        OneFound(Contents(), key, found);
        objectToKey := objectToKey - {objects[found].item};
        objects := objects - {found};
        removed := true;
      } else {
        assert !Has(Contents(), key);
      }
    }

    method RemoveObject(item: Object) returns (removed: bool)
      requires Distinct(Contents()) && !Dangles(Contents(), item)
      modifies this
      ensures Contents() == ObjectRemoved(old(Contents()), item)
      ensures removed == old(item in objectToKey && Has(Contents(), objects[objectToKey[item]].key))
    {
      hide KeyEqual;
      if item !in objectToKey {
        return false;
      }
      var key := objects[objectToKey[item]].key;
      ghost var before := Contents();
      objectToKey := objectToKey - {item};
      removed := false;
      if found :| found in objects && KeyEqual(objects[found].key, key) {
        assert Finds(before, key, found);
        OneFound(before, key, found);
        objects := objects - {found};
        removed := true;
      } else {
        assert !Has(before, key);
      }
    }

    method Clear()
      modifies this
      ensures Contents() == Tables(map[], map[], old(nextKey))
    {
      objects, objectToKey := map[], map[];
    }
  }

  lemma OneFound(t: Tables, key: Key, id: nat)
    requires Distinct(t) && Finds(t, key, id)
    ensures Has(t, key) && IdOf(t, key) == id
  {
    var other := IdOf(t, key);
    EqualityOfKeys(t.entries[id].key, key);
    EqualityOfKeys(t.entries[other].key, key);
    EqualityOfKeys(t.entries[id].key, t.entries[other].key);
  }

  lemma AddKeepsDistinct(t: Tables, key: Key, item: Object)
    requires Distinct(t) && Below(t)
    ensures Distinct(Added(t, key, item)) && Below(Added(t, key, item))
  {
    hide KeyEqual;
    if !Has(t, key) {
      forall i | i in t.entries ensures !KeyEqual(t.entries[i].key, key) && !KeyEqual(key, t.entries[i].key) {
        assert !Finds(t, key, i);
        EqualityOfKeys(t.entries[i].key, key);
        EqualityOfKeys(key, t.entries[i].key);
      }
    }
  }

  // ---------------------------------------------------------------- against a plain map

  lemma LookupAgrees(t: Tables, key: Key)
    requires Valid(t)
    ensures Has(t, key) <==> key in View(t)
    ensures Has(t, key) ==> View(t)[key] == t.entries[IdOf(t, key)].item
  {
    hide KeyEqual;
    if Has(t, key) {
      EqualityOfKeys(t.entries[IdOf(t, key)].key, key);
    }
  }

  lemma ObjectsAgree(t: Tables, item: Object)
    requires Valid(t)
    ensures item in t.reverse <==> item in View(t).Values
    ensures item in t.reverse ==> t.entries[t.reverse[item]].key in View(t)
    ensures item in t.reverse ==> forall key | key in View(t) ::
                                      View(t)[key] == item <==> key == t.entries[t.reverse[item]].key
  {
    hide KeyEqual;
    forall key | key in View(t) ensures View(t)[key] in t.reverse {
      LookupAgrees(t, key);
    }
    if item in t.reverse {
      forall key | key in View(t)
        ensures View(t)[key] == item <==> key == t.entries[t.reverse[item]].key
      {
        LookupAgrees(t, key);
        EqualityOfKeys(t.entries[IdOf(t, key)].key, key);
      }
    }
  }

  predicate Fresh(view: map<Key, Object>, key: Key, item: Object) {
    key !in view && item !in view.Values
  }

  lemma FreshAdd(t: Tables, key: Key, item: Object)
    requires Valid(t) && Comparable(key) && Fresh(View(t), key, item)
    ensures Valid(Added(t, key, item)) && View(Added(t, key, item)) == View(t)[key := item]
  {
    hide View, Has, Finds, Added, Valid;
    var u := Added(t, key, item);
    LookupAgrees(t, key);
    ObjectsAgree(t, item);
    FreshAddIsValid(t, key, item);
    forall other
      ensures other in View(u) <==> other in View(t)[key := item]
      ensures other in View(u) ==> View(u)[other] == View(t)[key := item][other]
    {
      LookupAgrees(u, other);
      LookupAgrees(t, other);
      SameLookup(t, key, item, other);
    }
  }

  lemma FreshAddIsValid(t: Tables, key: Key, item: Object)
    requires Valid(t) && Comparable(key) && !Has(t, key) && item !in t.reverse
    ensures Valid(Added(t, key, item))
  {
    hide KeyEqual, Distinct, Has, IdOf;
    AddKeepsDistinct(t, key, item);
  }

  lemma StaleAdd(t: Tables, key: Key, item: Object)
    requires Valid(t) && (Has(t, key) || item in t.reverse)
    ensures !Inverse(Added(t, key, item))
  {
    hide KeyEqual, Distinct;
    var u := Added(t, key, item);
    assert t.next !in t.entries && u.reverse[item] == t.next;
    if !Has(t, key) {
      assert u.entries[t.reverse[item]].item == item;
    }
  }

  /**
   Adding keeps the two tables inverse if and only if neither the key nor the object is there
   already; and then it adds to the plain map.
   */
  lemma AddIsExact(t: Tables, key: Key, item: Object)
    requires Valid(t) && Comparable(key)
    ensures Inverse(Added(t, key, item)) <==> Fresh(View(t), key, item)
    ensures Fresh(View(t), key, item) ==>
              Valid(Added(t, key, item)) && View(Added(t, key, item)) == View(t)[key := item]
  {
    hide Added, Valid, View;
    LookupAgrees(t, key);
    ObjectsAgree(t, item);
    if Fresh(View(t), key, item) {
      FreshAdd(t, key, item);
      ValidIsInverse(Added(t, key, item));
    } else {
      StaleAdd(t, key, item);
    }
  }

  lemma ValidIsInverse(t: Tables)
    requires Valid(t)
    ensures Inverse(t)
  {
  }

  lemma SameLookup(t: Tables, key: Key, item: Object, other: Key)
    requires Valid(t) && Comparable(key) && !Has(t, key)
    ensures var u := Added(t, key, item);
            && (Has(u, other) <==> other == key || Has(t, other))
            && (Has(u, other) ==>
                  u.entries[IdOf(u, other)].item
                  == if other == key then item else t.entries[IdOf(t, other)].item)
  {
    hide KeyEqual;
    var u := Added(t, key, item);
    AddKeepsDistinct(t, key, item);
    EqualityOfKeys(key, other);
    if other == key {
      OneFound(u, key, t.next);
    } else if Has(t, other) {
      assert Finds(u, other, IdOf(t, other));
      OneFound(u, other, IdOf(t, other));
    } else {
      forall id | Finds(u, other, id) ensures Finds(t, other, id) {
      }
    }
  }

  lemma RemoveView(t: Tables, key: Key)
    requires Valid(t)
    ensures Valid(Removed(t, key)) && View(Removed(t, key)) == View(t) - {key}
  {
    hide View, Has, Finds, Removed, Valid;
    var u := Removed(t, key);
    RemoveIsValid(t, key);
    forall other
      ensures other in View(u) <==> other in View(t) - {key}
      ensures other in View(u) ==> View(u)[other] == View(t)[other]
    {
      LookupAgrees(u, other);
      LookupAgrees(t, other);
      LookupAgrees(t, key);
      SameLookupElsewhere(t, key, other);
    }
  }

  lemma RemoveIsValid(t: Tables, key: Key)
    requires Valid(t)
    ensures Valid(Removed(t, key))
  {
    hide KeyEqual, Has, IdOf, Comparable;
  }

  lemma SameLookupElsewhere(t: Tables, key: Key, other: Key)
    requires Valid(t)
    ensures var u := Removed(t, key);
            && (Has(u, other) <==> other != key && Has(t, other))
            && (Has(u, other) ==> u.entries[IdOf(u, other)].item == t.entries[IdOf(t, other)].item)
  {
    hide KeyEqual;
    var u := Removed(t, key);
    RemoveIsValid(t, key);
    forall id | Finds(t, other, id)
      ensures other != key ==> Finds(u, other, id) && IdOf(u, other) == id && IdOf(t, other) == id
    {
      OneFound(t, other, id);
      if other != key {
        if Has(t, key) {
          EqualityOfKeys(t.entries[id].key, other);
          EqualityOfKeys(t.entries[IdOf(t, key)].key, key);
        }
        OneFound(u, other, id);
      }
    }
    forall id | Finds(u, other, id) ensures Finds(t, other, id) && other != key {
      OneFound(t, other, id);
    }
  }

  lemma ObjectRemovedIsRemoved(t: Tables, item: Object)
    requires Valid(t)
    ensures !Dangles(t, item)
    ensures ObjectRemoved(t, item) == if item in t.reverse then Removed(t, t.entries[t.reverse[item]].key) else t
    ensures item in t.reverse ==> Has(t, t.entries[t.reverse[item]].key)
  {
    hide KeyEqual;
    if item in t.reverse {
      var id := t.reverse[item];
      EqualityOfKeys(t.entries[id].key, t.entries[id].key);
      OneFound(t, t.entries[id].key, id);
    }
  }

  // ---------------------------------------------------------------- whole runs

  datatype Operation = Add(key: Key, item: Object) | Remove(key: Key) | RemoveObject(item: Object) | Clear

  /** No result means that a freed key was looked at. */
  ghost function Apply(t: Tables, op: Operation): Option<Tables> {
    match op
    case Add(key, item) => Some(Added(t, key, item))
    case Remove(key) => Some(Removed(t, key))
    case RemoveObject(item) => if Dangles(t, item) then None else Some(ObjectRemoved(t, item))
    case Clear => Some(Tables(map[], map[], t.next))
  }

  ghost function Run(t: Tables, ops: seq<Operation>): Option<Tables>
    decreases |ops|
  {
    if ops == [] then Some(t) else
      var u := Apply(t, ops[0]);
      if u.None? then None else Run(u.value, ops[1..])
  }

  function Without(view: map<Key, Object>, item: Object): map<Key, Object> {
    map key | key in view && view[key] != item :: view[key]
  }

  ghost function PlainApply(view: map<Key, Object>, op: Operation): map<Key, Object> {
    match op
    case Add(key, item) => view[key := item]
    case Remove(key) => view - {key}
    case RemoveObject(item) => Without(view, item)
    case Clear => map[]
  }

  ghost function PlainRun(view: map<Key, Object>, ops: seq<Operation>): map<Key, Object>
    decreases |ops|
  {
    if ops == [] then view else PlainRun(PlainApply(view, ops[0]), ops[1..])
  }

  /** Every add is of a comparable key, and of a key and an object that are not there. */
  ghost predicate Careful(view: map<Key, Object>, ops: seq<Operation>)
    decreases |ops|
  {
    ops == []
    || ((ops[0].Add? ==> Comparable(ops[0].key) && Fresh(view, ops[0].key, ops[0].item))
        && Careful(PlainApply(view, ops[0]), ops[1..]))
  }

  lemma RemoveObjectView(t: Tables, item: Object)
    requires Valid(t)
    ensures !Dangles(t, item) && Valid(ObjectRemoved(t, item))
    ensures View(ObjectRemoved(t, item)) == Without(View(t), item)
  {
    hide Has, View, Removed, ObjectRemoved, Valid, Without;
    ObjectRemovedIsRemoved(t, item);
    ObjectsAgree(t, item);
    if item in t.reverse {
      RemoveView(t, t.entries[t.reverse[item]].key);
      WithoutOne(View(t), t.entries[t.reverse[item]].key, item);
    } else {
      WithoutNone(View(t), item);
    }
  }

  lemma WithoutOne(view: map<Key, Object>, key: Key, item: Object)
    requires forall k | k in view :: view[k] == item <==> k == key
    ensures Without(view, item) == view - {key}
  {
  }

  lemma WithoutNone(view: map<Key, Object>, item: Object)
    requires item !in view.Values
    ensures Without(view, item) == view
  {
    assert forall key | key in view :: view[key] in view.Values;
  }

  lemma StepRefines(t: Tables, op: Operation)
    requires Valid(t) && (op.Add? ==> Comparable(op.key) && Fresh(View(t), op.key, op.item))
    ensures Apply(t, op).Some? && Valid(Apply(t, op).value)
    ensures View(Apply(t, op).value) == PlainApply(View(t), op)
  {
    hide KeyEqual, View, Added, Removed, ObjectRemoved, Valid, Dangles, Fresh, Comparable;
    match op {
      case Add(key, item) => FreshAdd(t, key, item);
      case Remove(key) => RemoveView(t, key);
      case RemoveObject(item) => RemoveObjectView(t, item);
      case Clear =>
        EmptyView(t.next);
    }
  }

  lemma EmptyView(next: nat)
    ensures Valid(Tables(map[], map[], next)) && View(Tables(map[], map[], next)) == map[]
  {
  }

  /**
   Over any run of careful adds, removes and clears the tables stay inverse, never look at a
   freed key, and stand for what a plain map would hold.
   */
  lemma {:induction false} RunRefines(t: Tables, ops: seq<Operation>)
    requires Valid(t) && Careful(View(t), ops)
    ensures Run(t, ops).Some? && Valid(Run(t, ops).value)
    ensures View(Run(t, ops).value) == PlainRun(View(t), ops)
    decreases |ops|
  {
    hide Valid, View, Apply, PlainApply, Fresh, Comparable;
    if ops != [] {
      StepRefines(t, ops[0]);
      RunRefines(Apply(t, ops[0]).value, ops[1..]);
    }
  }

  /** Adding, and then removing the object, looks at a freed key if and only if the added key was taken. */
  lemma TakenKeyDangles(t: Tables, key: Key, item: Object)
    requires Valid(t)
    ensures Run(t, [Add(key, item), RemoveObject(item)]).None? <==> Has(t, key)
  {
    hide KeyEqual, Distinct, Inverse, AllComparable;
    var u := Added(t, key, item);
    var ops := [Add(key, item), RemoveObject(item)];
    assert t.next !in t.entries && u.reverse[item] == t.next;
    assert Dangles(u, item) <==> Has(t, key);
    assert ops[1..] == [RemoveObject(item)] && ops[1..][1..] == [];
    assert Run(t, ops) == Run(u, ops[1..]);
    assert Run(u, ops[1..]).None? <==> Dangles(u, item);
  }

  /** What was added under a fresh key is found under it if and only if the key is comparable. */
  lemma FoundIfComparable(t: Tables, key: Key, item: Object)
    requires Valid(t) && !Has(t, key)
    ensures Has(Added(t, key, item), key) <==> Comparable(key)
  {
    hide KeyEqual;
    var u := Added(t, key, item);
    EqualityOfKeys(key, key);
    if Comparable(key) {
      assert Finds(u, key, t.next);
    } else {
      forall id | id in u.entries ensures !Finds(u, key, id) {
        EqualityOfKeys(u.entries[id].key, key);
      }
    }
  }

  /** Under a key of another type an object is never found, and removing it leaves its entry behind. */
  lemma IncomparableIsLost(t: Tables, key: Key, item: Object)
    requires Valid(t) && !Comparable(key) && item !in t.reverse
    ensures var u := Added(t, key, item);
            && !Has(u, key) && !Dangles(u, item)
            && ObjectRemoved(u, item).entries == u.entries && u.entries != t.entries
            && !Inverse(ObjectRemoved(u, item))
  {
    hide KeyEqual;
    var u := Added(t, key, item);
    forall id ensures !Finds(t, key, id) && !Finds(u, key, id) {
      if id in u.entries {
        EqualityOfKeys(u.entries[id].key, key);
      }
      if id in t.entries {
        EqualityOfKeys(t.entries[id].key, key);
      }
    }
    assert t.next in u.entries && t.next !in t.entries;
  }
}
