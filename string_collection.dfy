/** The StringCollection substitute: an ordered, mutable list of strings that
    forwards every operation to the list it inherits, plus the typed
    enumerator that `foreach` uses over it. */
module Specialized {
  import opened BackingList

  class StringCollection {
    /** The inherited `CollectionBase.List`, in insertion order. */
    var list: seq<string>
    /** The inner ArrayList's modification count: every change to the list
        advances it, and a live enumerator notices. */
    ghost var version: nat

    function Count(): nat
      reads this
    {
      |list|
    }

    /** The empty collection. */
    constructor ()
      ensures list == []
    {
      list, version := [], 0;
    }

    /** A collection holding the elements of `items`, in order. */
    constructor FromArray(items: array<string>)
      ensures list == items[..]
    {
      list, version := [], 0;
      new;
      AddRangeArray(items);
    }

    /** A collection holding the elements of `items`, in order. The new
        collection owns its own list: `items` is not changed, now or by any
        later mutation of the copy, since every mutator modifies only its own
        receiver. */
    constructor FromCollection(items: StringCollection)
      ensures list == items.list
      ensures items.list == old(items.list)
    {
      list, version := [], 0;
      new;
      AddRangeCollection(items);
    }

    /** Appends the elements of `items` one by one, in order. */
    method AddRangeArray(items: array<string>)
      modifies this
      ensures list == old(list) + items[..]
      ensures version == old(version) + items.Length
    {
      for i := 0 to items.Length
        invariant list == old(list) + items[..i]
        invariant version == old(version) + i
      {
        list, version := list + [items[i]], version + 1;
      }
    }

    /** Appends the elements of `items` one by one, in the order its
        enumerator yields them. Enumerating a collection while appending to
        it is not allowed, so `items` is another collection. */
    method AddRangeCollection(items: StringCollection)
      requires items != this
      modifies this
      ensures list == old(list) + items.list
      ensures version == old(version) + |items.list|
    {
      var e := items.GetEnumerator();
      var more := e.MoveNext();
      while more
        invariant fresh(e) && e.Valid() && e.collection == items
        invariant more ==> 0 <= e.index < |items.list|
        invariant !more ==> e.index == |items.list|
        invariant list == old(list) + items.list[..e.index]
        invariant version == old(version) + e.index
        decreases |items.list| - e.index
      {
        list, version := list + [e.Current()], version + 1;
        more := e.MoveNext();
      }
    }

    /** Appends `value` at the end. */
    method Add(value: string)
      modifies this
      ensures list == old(list) + [value]
      ensures version == old(version) + 1
    {
      list := list + [value];
      version := version + 1;
    }

    /** Whether some element equals `value`; the same as finding it. */
    function Contains(value: string): (b: bool)
      reads this
      ensures b <==> value in list
      ensures b <==> IndexOf(value) >= 0
    {
      ContainsSeq(list, value)
    }

    /** The position of the first element equal to `value`, or -1. */
    function IndexOf(value: string): (i: int)
      reads this
      ensures -1 <= i < Count()
      ensures i >= 0 ==> list[i] == value
      ensures forall j :: 0 <= j < Count() && list[j] == value ==> 0 <= i <= j
      ensures i == -1 <==> value !in list
    {
      IndexOfSeq(list, value)
    }

    /** Inserts `value` at `index`; the end position is allowed and appends. */
    method Insert(index: int, value: string)
      requires 0 <= index <= Count()
      modifies this
      ensures list == InsertSeq(old(list), index, value)
      ensures version == old(version) + 1
    {
      list := InsertSeq(list, index, value);
      version := version + 1;
    }

    /** Indexer get: the element at `index`, which is where `IndexOf` finds
        that value or after it. */
    function Get(index: int): (value: string)
      reads this
      requires 0 <= index < Count()
      ensures value == list[index]
      ensures 0 <= IndexOf(value) <= index
    {
      list[index]
    }

    /** Indexer set: replaces the element at `index`. */
    method Set(index: int, value: string)
      requires 0 <= index < Count()
      modifies this
      ensures list == SetSeq(old(list), index, value)
      ensures version == old(version) + 1
    {
      list := SetSeq(list, index, value);
      version := version + 1;
    }

    /** `Remove` as written: `List.Remove` goes through the collection's
        `IList` view, which throws `ArgumentException` (`thrown`) when no
        element equals `value`, leaving the list as it was. */
    method RemoveAsWritten(value: string) returns (thrown: bool)
      modifies this
      ensures thrown <==> value !in old(list)
      ensures list == RemoveSeq(old(list), value)
      ensures version == if thrown then old(version) else old(version) + 1
    {
      match CollectionRemove(list, value)
      case Failure(_) =>
        thrown := true;
      case Success(rest) =>
        list, version := rest, version + 1;
        thrown := false;
    }

    /** `Remove` as the framework's StringCollection behaves, which this class
        substitutes for: removes the first element equal to `value`, and does
        nothing when there is none. */
    method Remove(value: string)
      modifies this
      ensures list == RemoveSeq(old(list), value)
      ensures version == if value in old(list) then old(version) + 1 else old(version)
    {
      if ContainsSeq(list, value) {
        version := version + 1;
      }
      list := RemoveSeq(list, value);
    }

    /** A fresh enumerator positioned before the first element. */
    method GetEnumerator() returns (e: Enumerator)
      ensures fresh(e) && e.Valid()
      ensures e.collection == this && e.Elements == list && e.Version == version
      ensures e.BeforeFirst()
    {
      e := new Enumerator(this);
    }
  }

  /** A forward cursor over a collection. `index` is -1 before the first
      element, the position of the current element while on one, and the
      element count once exhausted. The collection must not change while the
      enumerator is in use: `Valid` ties it to the version and the contents it
      started on, so any mutation, even one that stores an equal value,
      invalidates it. */
  class Enumerator {
    const collection: StringCollection
    ghost const Elements: seq<string>
    ghost const Version: nat
    var index: int

    ghost predicate Valid()
      reads this, collection
    {
      collection.version == Version && collection.list == Elements &&
      -1 <= index <= |Elements|
    }

    ghost predicate BeforeFirst()
      reads this
    {
      index == -1
    }

    ghost predicate OnElement()
      reads this
    {
      0 <= index < |Elements|
    }

    ghost predicate Exhausted()
      reads this
    {
      index == |Elements|
    }

    constructor (c: StringCollection)
      ensures Valid() && BeforeFirst()
      ensures collection == c && Elements == c.list && Version == c.version
    {
      collection := c;
      Elements, Version := c.list, c.version;
      index := -1;
    }

    /** The element under the cursor; only defined while on an element. */
    function Current(): (value: string)
      reads this, collection
      requires Valid() && OnElement()
      ensures value == Elements[index]
    {
      collection.list[index]
    }

    /** Advances to the next element and reports whether there is one. Past
        the last element the cursor is exhausted, and stays so. */
    method MoveNext() returns (more: bool)
      requires Valid()
      modifies this
      ensures Valid()
      ensures more <==> old(index) + 1 < |Elements|
      ensures more ==> index == old(index) + 1 && OnElement()
      ensures !more ==> Exhausted()
    {
      if index < |collection.list| - 1 {
        index := index + 1;
        more := true;
      } else {
        index := |collection.list|;
        more := false;
      }
    }

    /** Rewinds to before the first element. */
    method Reset()
      requires Valid()
      modifies this
      ensures Valid() && BeforeFirst()
    {
      index := -1;
    }
  }

  /** Enumerating a collection yields `true` from `MoveNext` exactly once per
      element, with `Current` the elements in order, then `false`. */
  method Enumerate(c: StringCollection) returns (seen: seq<string>, steps: nat)
    ensures seen == c.list
    ensures steps == c.Count()
  {
    var e := c.GetEnumerator();
    seen, steps := [], 0;
    var more := e.MoveNext();
    while more
      invariant fresh(e) && e.Valid() && e.collection == c
      invariant more ==> 0 <= e.index < |c.list|
      invariant !more ==> e.index == |c.list|
      invariant steps == e.index && seen == c.list[..e.index]
      decreases |c.list| - e.index
    {
      seen := seen + [e.Current()];
      steps := steps + 1;
      more := e.MoveNext();
    }
  }

  /** A worked example: fill from an array, look up, insert, then remove the
      inserted value again. */
  method ExampleEdit() returns (l: StringCollection)
    ensures fresh(l) && l.list == ["a", "b", "c"]
  {
    var a := new string[3]["a", "b", "c"];
    l := new StringCollection.FromArray(a);
    assert l.list == ["a", "b", "c"];
    assert l.Count() == 3 && l.Get(1) == "b";
    assert l.IndexOf("c") == 2;
    ghost var before := l.list;
    l.Insert(1, "x");
    assert l.list == ["a", "x", "b", "c"];
    InsertThenRemove(before, 1, "x");
    l.Remove("x");
  }

  /** A worked example: changing a copy leaves the original alone,
      enumerating the original yields its elements in order, storing an equal
      value still invalidates a live enumerator, and the as-written `Remove`
      of an absent value throws. */
  method ExampleCopy()
  {
    var l := ExampleEdit();
    var copy := new StringCollection.FromCollection(l);
    copy.Add("d");
    copy.Set(0, "z");
    assert l.list == ["a", "b", "c"];
    var seen, steps := Enumerate(l);
    assert seen == ["a", "b", "c"] && steps == 3;
    var e := l.GetEnumerator();
    l.Set(0, l.Get(0));
    assert l.list == ["a", "b", "c"] && !e.Valid();
    var thrown := l.RemoveAsWritten("zz");
    assert thrown && l.list == ["a", "b", "c"];
  }
}
