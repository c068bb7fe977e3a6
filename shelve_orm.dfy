/**
 * The friends directory of shelveorm.py: one shelf holds an entry id ->
 * name per friend and, under the reserved key "indices", a dictionary
 * name -> id kept as its inverse. `Store` is the shelf's content as a value,
 * with the step functions of each operation; `Sorm` is the object the
 * program uses, whose methods update the two dictionaries in place.
 */
module ShelveOrm {
  import opened Wrappers
  import opened Strings

  /** The shelf key under which the name index is stored. */
  const IndicesKey: string := "indices"

  /** The shelf: the friend entries (every key but "indices") and the name index. */
  datatype Store = Store(friends: map<string, string>, indices: map<string, string>)

  /** What `buscar_amigo` returns: nothing, a name, an id, or the index dictionary itself. */
  datatype Found = NotFound | FoundName(name: string) | FoundId(id: string) | FoundIndex(index: map<string, string>)

  /** `str(id) in self.db`: the reserved key is always a key of the shelf. */
  predicate InShelf(s: Store, id: string) {
    id == IndicesKey || id in s.friends
  }

  /** The index is exactly the inverse of the friend entries, and no friend uses the reserved key. */
  ghost predicate Valid(s: Store) {
    IndicesKey !in s.friends &&
    (forall id :: id in s.friends ==> s.friends[id] in s.indices && s.indices[s.friends[id]] == id) &&
    (forall n :: n in s.indices ==> s.indices[n] in s.friends && s.friends[s.indices[n]] == n)
  }

  /** A shelf opened for the first time: `__init__` stores an empty index. */
  const Empty: Store := Store(map[], map[])

  /** `agregar_amigo`: refused when the id is a shelf key or the name is indexed. */
  function Add(s: Store, id: string, name: string): Store {
    if InShelf(s, id) || name in s.indices then s
    else Store(s.friends[id := name], s.indices[name := id])
  }

  /**
   * `modificar_amigo`. An id that is not a shelf key changes nothing. For
   * the reserved key the stored value is the index itself, which cannot be
   * a dictionary key; an old name missing from the index fails the `del`.
   */
  function Modify(s: Store, id: string, newName: string): Result<Store> {
    if !InShelf(s, id) then Ok(s)
    else if id == IndicesKey then Err("TypeError: unhashable type: 'dict'")
    else if s.friends[id] !in s.indices then Err("KeyError")
    else Ok(Store(s.friends[id := newName], (s.indices - {s.friends[id]})[newName := id]))
  }

  /** `eliminar_amigo`, with the same two failures as `modificar_amigo`. */
  function Delete(s: Store, id: string): Result<Store> {
    if !InShelf(s, id) then Ok(s)
    else if id == IndicesKey then Err("TypeError: unhashable type: 'dict'")
    else if s.friends[id] !in s.indices then Err("KeyError")
    else Ok(Store(s.friends - {id}, s.indices - {s.friends[id]}))
  }

  /** `buscar_amigo(id, nombre)`: by id when the id is truthy, else by name when that is truthy. */
  function Lookup(s: Store, id: Option<string>, name: Option<string>): Found {
    if Truthy(id) then
      if !InShelf(s, id.value) then NotFound
      else if id.value == IndicesKey then FoundIndex(s.indices)
      else FoundName(s.friends[id.value])
    else if Truthy(name) then
      if name.value in s.indices then FoundId(s.indices[name.value]) else NotFound
    else NotFound
  }

  /** The line `listar_amigos` prints and returns for one entry. */
  function EntryLine(id: string, name: string): string {
    "ID: " + id + ", Nombre: " + name
  }

  /** `order` lists every shelf key exactly once: the shelf's iteration order. */
  ghost predicate Enumerates(s: Store, order: seq<string>) {
    (forall k :: k in order <==> InShelf(s, k)) &&
    (forall i, j :: 0 <= i < j < |order| ==> order[i] != order[j])
  }

  /** `listar_amigos`: the line of the first entry in iteration order that is not the index. */
  function FirstEntry(s: Store, order: seq<string>): (r: Option<string>)
    requires forall i :: 0 <= i < |order| ==> InShelf(s, order[i])
  {
    if order == [] then None
    else if order[0] != IndicesKey then
      assert InShelf(s, order[0]);
      Some(EntryLine(order[0], s.friends[order[0]]))
    else FirstEntry(s, order[1..])
  }

  // ------------------------------------------------------------ properties

  /**
   * An add with an id that is already a shelf key (the reserved key
   * included) or a name already indexed changes nothing; any other add
   * records exactly id -> name and name -> id.
   */
  lemma AddEffect(s: Store, id: string, name: string)
    ensures InShelf(s, id) || name in s.indices ==> Add(s, id, name) == s
    ensures !(InShelf(s, id) || name in s.indices) ==>
              Add(s, id, name).friends == s.friends[id := name] &&
              Add(s, id, name).indices == s.indices[name := id] &&
              id !in s.friends && name !in s.indices
  {
  }

  /**
   * The reserved key can never become a friend: adding under it is refused
   * because the shelf always holds it, and no operation brings it into the
   * friend entries.
   */
  lemma IndicesKeyNeverAdded(s: Store, id: string, name: string)
    ensures Add(s, IndicesKey, name) == s
    ensures IndicesKey !in s.friends ==> IndicesKey !in Add(s, id, name).friends
    ensures IndicesKey !in s.friends && Modify(s, id, name).Ok? ==> IndicesKey !in Modify(s, id, name).value.friends
    ensures IndicesKey !in s.friends && Delete(s, id).Ok? ==> IndicesKey !in Delete(s, id).value.friends
  {
  }

  /** Adding keeps the index the inverse of the entries. */
  lemma AddPreservesValid(s: Store, id: string, name: string)
    requires Valid(s)
    ensures Valid(Add(s, id, name))
  {
  }

  /** Deleting keeps the index the inverse of the entries, and never fails on a valid shelf but for the reserved key. */
  lemma DeletePreservesValid(s: Store, id: string)
    requires Valid(s)
    ensures Delete(s, id).Err? <==> id == IndicesKey
    ensures Delete(s, id).Ok? ==> Valid(Delete(s, id).value)
  {
    if id in s.friends {
      var r := Delete(s, id).value;
      forall n | n in r.indices
        ensures r.indices[n] in r.friends && r.friends[r.indices[n]] == n
      {
        assert s.indices[n] != id;
      }
    }
  }

  /**
   * Deleting an absent id changes nothing; deleting a friend removes its
   * entry and its name from the index and nothing else.
   */
  lemma DeleteEffect(s: Store, id: string)
    requires Valid(s) && id != IndicesKey
    ensures id !in s.friends ==> Delete(s, id) == Ok(s)
    ensures id in s.friends ==>
              Delete(s, id) == Ok(Store(s.friends - {id}, s.indices - {s.friends[id]})) &&
              (forall k :: k in s.friends && k != id ==> k in Delete(s, id).value.friends) &&
              (forall n :: n in s.indices && n != s.friends[id] ==> n in Delete(s, id).value.indices)
  {
  }

  /** Deleting a friend just added restores the shelf. */
  lemma DeleteUndoesAdd(s: Store, id: string, name: string)
    requires Valid(s)
    requires !InShelf(s, id) && name !in s.indices
    ensures Delete(Add(s, id, name), id) == Ok(s)
  {
    var a := Add(s, id, name);
    assert a.friends - {id} == s.friends;
    assert a.indices - {name} == s.indices;
  }

  /**
   * Renaming a friend keeps the index the inverse of the entries exactly
   * when the new name is free or already the friend's own: nothing checks
   * for a name held by another friend.
   */
  lemma ModifyPreservesValidIff(s: Store, id: string, newName: string)
    requires Valid(s) && id in s.friends
    ensures Modify(s, id, newName).Ok?
    ensures Valid(Modify(s, id, newName).value) <==> newName !in s.indices || s.indices[newName] == id
  {
    var r := Modify(s, id, newName).value;
    var oldName := s.friends[id];
    if newName !in s.indices || s.indices[newName] == id {
      forall n | n in r.indices
        ensures r.indices[n] in r.friends && r.friends[r.indices[n]] == n
      {
        if n != newName {
          assert n in s.indices && n != oldName;
          assert s.indices[n] != id;
        }
      }
      forall k | k in r.friends
        ensures r.friends[k] in r.indices && r.indices[r.friends[k]] == k
      {
        if k != id {
          assert s.friends[k] != oldName;
          assert s.friends[k] != newName;
        }
      }
    } else {
      var other := s.indices[newName];
      assert other in r.friends && r.friends[other] == newName;
      assert r.indices[newName] == id;
    }
  }

  /** A friend just added is found by its id and by its name. */
  lemma LookupAfterAdd(s: Store, id: string, name: string)
    requires !InShelf(s, id) && name !in s.indices && id != "" && name != ""
    ensures Lookup(Add(s, id, name), Some(id), None) == FoundName(name)
    ensures Lookup(Add(s, id, name), None, Some(name)) == FoundId(id)
  {
  }

  /** On a valid shelf, looking up by id and looking up by name are inverse. */
  lemma LookupInverse(s: Store, id: string, name: string)
    requires Valid(s) && id != "" && name != "" && id != IndicesKey
    ensures Lookup(s, Some(id), None) == FoundName(name) <==> Lookup(s, None, Some(name)) == FoundId(id)
  {
  }

  /** `listar_amigos` returns nothing exactly when the shelf holds no friend. */
  lemma {:induction false} FirstEntryNoneIff(s: Store, order: seq<string>)
    requires Enumerates(s, order) && IndicesKey !in s.friends
    ensures FirstEntry(s, order).None? <==> s.friends == map[]
  {
    if s.friends != map[] {
      var k :| k in s.friends;
      assert InShelf(s, k) && k in order;
      FirstEntryFinds(s, order, k);
    }
    NoneOnlyIndices(s, order);
  }

  lemma {:induction false} FirstEntryFinds(s: Store, order: seq<string>, k: string)
    requires forall i :: 0 <= i < |order| ==> InShelf(s, order[i])
    requires k in order && k != IndicesKey
    ensures FirstEntry(s, order).Some?
    decreases |order|
  {
    if order[0] == IndicesKey {
      assert k in order[1..];
      FirstEntryFinds(s, order[1..], k);
    }
  }

  lemma {:induction false} NoneOnlyIndices(s: Store, order: seq<string>)
    requires forall i :: 0 <= i < |order| ==> InShelf(s, order[i])
    ensures FirstEntry(s, order).Some? ==> exists k :: k in order && k in s.friends
    decreases |order|
  {
    if order != [] && order[0] == IndicesKey {
      NoneOnlyIndices(s, order[1..]);
      if FirstEntry(s, order).Some? {
        var k :| k in order[1..] && k in s.friends;
        assert k in order;
      }
    } else if order != [] {
      assert order[0] in order && order[0] in s.friends;
    }
  }

  // ------------------------------------------------------------ the object

  /** `SORM`: the opened shelf, its entries and its index updated in place. */
  class Sorm {
    var friends: map<string, string>
    var indices: map<string, string>

    function Contents(): Store
      reads this
    {
      Store(friends, indices)
    }

    /** `__init__` on a shelf holding `stored` entries and, unless absent, the index `storedIndex`. */
    constructor (stored: map<string, string>, storedIndex: Option<map<string, string>>)
      requires IndicesKey !in stored
      ensures Contents() == Store(stored, if storedIndex.Some? then storedIndex.value else map[])
    {
      friends := stored;
      if storedIndex.None? {
        indices := map[];
      } else {
        indices := storedIndex.value;
      }
    }

    /** `agregar_amigo`; reports whether the friend was recorded. */
    method AddFriend(id: string, name: string) returns (added: bool)
      modifies this
      ensures Contents() == Add(old(Contents()), id, name)
      ensures added <==> !InShelf(old(Contents()), id) && name !in old(indices)
    {
      if id == IndicesKey || id in friends || name in indices {
        return false;
      }
      friends := friends[id := name];
      indices := indices[name := id];
      return true;
    }

    /** `modificar_amigo`; the error is the exception it raises. */
    method ModifyFriend(id: string, newName: string) returns (error: Option<string>)
      modifies this
      ensures Modify(old(Contents()), id, newName).Ok? ==>
                error == None && Contents() == Modify(old(Contents()), id, newName).value
      ensures Modify(old(Contents()), id, newName).Err? ==>
                error == Some(Modify(old(Contents()), id, newName).error) && Contents() == old(Contents())
    {
      if id != IndicesKey && id !in friends {
        return None;
      }
      if id == IndicesKey {
        return Some("TypeError: unhashable type: 'dict'");
      }
      var oldName := friends[id];
      if oldName !in indices {
        return Some("KeyError");
      }
      indices := indices - {oldName};
      friends := friends[id := newName];
      indices := indices[newName := id];
      return None;
    }

    /** `eliminar_amigo`; the error is the exception it raises. */
    method DeleteFriend(id: string) returns (error: Option<string>)
      modifies this
      ensures Delete(old(Contents()), id).Ok? ==>
                error == None && Contents() == Delete(old(Contents()), id).value
      ensures Delete(old(Contents()), id).Err? ==>
                error == Some(Delete(old(Contents()), id).error) && Contents() == old(Contents())
    {
      if id != IndicesKey && id !in friends {
        return None;
      }
      if id == IndicesKey {
        return Some("TypeError: unhashable type: 'dict'");
      }
      var name := friends[id];
      if name !in indices {
        return Some("KeyError");
      }
      indices := indices - {name};
      friends := friends - {id};
      return None;
    }

    /** `buscar_amigo`. */
    method FindFriend(id: Option<string>, name: Option<string>) returns (r: Found)
      ensures r == Lookup(Contents(), id, name)
    {
      if id.Some? && id.value != "" {
        if id.value != IndicesKey && id.value !in friends {
          return NotFound;
        }
        if id.value == IndicesKey {
          return FoundIndex(indices);
        }
        return FoundName(friends[id.value]);
      } else if name.Some? && name.value != "" {
        if name.value !in indices {
          return NotFound;
        }
        return FoundId(indices[name.value]);
      }
      return NotFound;
    }

    /** `listar_amigos`, walking the shelf in the iteration order `order`. */
    method ListFriends(order: seq<string>) returns (r: Option<string>)
      requires Enumerates(Contents(), order) && IndicesKey !in friends
      ensures r == FirstEntry(Contents(), order)
      ensures r.None? <==> friends == map[]
    {
      FirstEntryNoneIff(Contents(), order);
      var i := 0;
      while i < |order|
        invariant 0 <= i <= |order|
        invariant FirstEntry(Contents(), order[i..]) == FirstEntry(Contents(), order)
      {
        assert order[i..][1..] == order[i + 1..];
        if order[i] != IndicesKey {
          assert InShelf(Contents(), order[i]);
          return Some(EntryLine(order[i], friends[order[i]]));
        }
        i := i + 1;
      }
      return None;
    }
  }
}
