/** The pure list updates the stores apply once a backend call has
    returned: `filter` on the id (delete) and `map` replacing the item with
    a given id (answer). Items are generic; `key` reads an item's id. */
module Lists {

  /** `items.filter(x => x.id !== id)` */
  function RemoveById<T>(items: seq<T>, key: T -> string, id: string): (r: seq<T>)
    ensures |r| <= |items|
    ensures forall x :: x in r ==> x in items && key(x) != id
    ensures forall x :: x in items && key(x) != id ==> x in r
  {
    if items == [] then []
    else if key(items[0]) != id then [items[0]] + RemoveById(items[1..], key, id)
    else RemoveById(items[1..], key, id)
  }

  /** `items.map(x => x.id === id ? updated : x)` */
  function ReplaceById<T>(items: seq<T>, key: T -> string, id: string, updated: T): (r: seq<T>)
    ensures |r| == |items|
  {
    if items == [] then []
    else [if key(items[0]) == id then updated else items[0]] + ReplaceById(items[1..], key, id, updated)
  }

  /** The ids of a list, in order. */
  function Ids<T>(items: seq<T>, key: T -> string): (ks: seq<string>)
    ensures |ks| == |items|
  {
    if items == [] then [] else [key(items[0])] + Ids(items[1..], key)
  }

  /** Filtering keeps every other item with its multiplicity and drops every
      item with the id. */
  lemma {:induction false} RemoveByIdCounts<T>(items: seq<T>, key: T -> string, id: string, x: T)
    ensures multiset(RemoveById(items, key, id))[x] == if key(x) == id then 0 else multiset(items)[x]
  {
    if items != [] {
      RemoveByIdCounts(items[1..], key, id, x);
      assert items == [items[0]] + items[1..];
    }
  }

  /** Filtering distributes over concatenation, so the kept items stay in
      their relative order. */
  lemma {:induction false} RemoveByIdAppend<T>(a: seq<T>, b: seq<T>, key: T -> string, id: string)
    ensures RemoveById(a + b, key, id) == RemoveById(a, key, id) + RemoveById(b, key, id)
  {
    if a == [] {
      assert a + b == b;
    } else {
      assert (a + b)[1..] == a[1..] + b;
      RemoveByIdAppend(a[1..], b, key, id);
    }
  }

  /** A list with no item carrying the id is left as it is. */
  lemma {:induction false} RemoveByIdAbsent<T>(items: seq<T>, key: T -> string, id: string)
    requires forall i :: 0 <= i < |items| ==> key(items[i]) != id
    ensures RemoveById(items, key, id) == items
  {
    if items != [] {
      RemoveByIdAbsent(items[1..], key, id);
    }
  }

  /** Deleting twice is deleting once. */
  lemma RemoveByIdIdempotent<T>(items: seq<T>, key: T -> string, id: string)
    ensures RemoveById(RemoveById(items, key, id), key, id) == RemoveById(items, key, id)
  {
    var r := RemoveById(items, key, id);
    forall i | 0 <= i < |r| ensures key(r[i]) != id {
      assert r[i] in r;
    }
    RemoveByIdAbsent(r, key, id);
  }

  /** Deleting the id of an item just added undoes the addition, unless the
      old list already held that id. */
  lemma RemoveByIdAfterPrepend<T>(items: seq<T>, key: T -> string, x: T)
    ensures RemoveById([x] + items, key, key(x)) == RemoveById(items, key, key(x))
  {
    assert ([x] + items)[1..] == items;
  }

  /** The map replaces exactly the positions whose id matches. */
  lemma {:induction false} ReplaceByIdAt<T>(items: seq<T>, key: T -> string, id: string, updated: T, i: nat)
    requires i < |items|
    ensures ReplaceById(items, key, id, updated)[i] == if key(items[i]) == id then updated else items[i]
  {
    if i > 0 {
      ReplaceByIdAt(items[1..], key, id, updated, i - 1);
    }
  }

  /** When the replacement carries the id it replaces (as the answered prayer
      the backend returns does), the list's ids are unchanged. */
  lemma {:induction false} ReplaceByIdKeepsIds<T>(items: seq<T>, key: T -> string, id: string, updated: T)
    requires key(updated) == id
    ensures Ids(ReplaceById(items, key, id, updated), key) == Ids(items, key)
  {
    if items != [] {
      ReplaceByIdKeepsIds(items[1..], key, id, updated);
    }
  }

  /** A replacement whose id matches no item changes nothing. */
  lemma {:induction false} ReplaceByIdAbsent<T>(items: seq<T>, key: T -> string, id: string, updated: T)
    requires forall i :: 0 <= i < |items| ==> key(items[i]) != id
    ensures ReplaceById(items, key, id, updated) == items
  {
    if items != [] {
      ReplaceByIdAbsent(items[1..], key, id, updated);
    }
  }

  /** Answering the same id twice with the same value is answering once. */
  lemma {:induction false} ReplaceByIdIdempotent<T>(items: seq<T>, key: T -> string, id: string, updated: T)
    ensures ReplaceById(ReplaceById(items, key, id, updated), key, id, updated)
         == ReplaceById(items, key, id, updated)
  {
    if items != [] {
      ReplaceByIdIdempotent(items[1..], key, id, updated);
    }
  }
}
