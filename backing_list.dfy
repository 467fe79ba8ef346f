/** The untyped, insertion-ordered list behind StringCollection, restricted
    to string elements. `CollectionBase.List` is the collection's own `IList`
    view; it checks its arguments and hands the work to `InnerList`, an
    ArrayList. Each function gives the effect of one such list operation as a
    value: the contents before the call in, the result or the contents after
    the call out. Element equality is plain string equality, i.e. ordinal
    `String.Equals`. */
module BackingList {

  /** The exception `CollectionBase`'s `IList.Remove` raises when no element
      matches. */
  datatype Error = ArgumentException

  datatype Result<T> = Success(value: T) | Failure(error: Error)

  /** `List.IndexOf(v)`: the position of the first element equal to `v`,
      or -1 when there is none. */
  function IndexOfSeq(s: seq<string>, v: string): (r: int)
    ensures -1 <= r < |s|
    ensures r >= 0 ==> s[r] == v
    ensures forall j :: 0 <= j < |s| && s[j] == v ==> 0 <= r <= j
    ensures r == -1 <==> v !in s
  {
    if |s| == 0 then -1
    else if s[0] == v then 0
    else
      var k := IndexOfSeq(s[1..], v);
      assert s == [s[0]] + s[1..];
      if k == -1 then -1 else k + 1
  }

  /** `List.Contains(v)`: a front-to-back scan for an element equal to `v`. */
  function ContainsSeq(s: seq<string>, v: string): (b: bool)
    ensures b <==> v in s
  {
    if |s| == 0 then false
    else
      assert s == [s[0]] + s[1..];
      s[0] == v || ContainsSeq(s[1..], v)
  }

  /** `List.Insert(i, v)`: `v` lands at position `i` and everything from
      position `i` on moves up by one. */
  function InsertSeq(s: seq<string>, i: int, v: string): (r: seq<string>)
    requires 0 <= i <= |s|
    ensures |r| == |s| + 1
    ensures r[i] == v
    ensures forall j :: 0 <= j < i ==> r[j] == s[j]
    ensures forall j :: i <= j < |s| ==> r[j + 1] == s[j]
  {
    s[..i] + [v] + s[i..]
  }

  /** `List[i] = v`: position `i` holds `v`, every other position and the
      length are as before. */
  function SetSeq(s: seq<string>, i: int, v: string): (r: seq<string>)
    requires 0 <= i < |s|
    ensures |r| == |s|
    ensures r[i] == v
    ensures forall j :: 0 <= j < |s| && j != i ==> r[j] == s[j]
  {
    s[i := v]
  }

  /** `ArrayList.Remove(v)`, i.e. `InnerList.Remove(v)`: deletes the first
      element equal to `v`; when there is none the list is left as it is.
      Exactly one copy of `v` goes, so later duplicates stay. */
  function RemoveSeq(s: seq<string>, v: string): (r: seq<string>)
    ensures v !in s ==> r == s
    ensures v in s ==> |r| == |s| - 1
    ensures v in s ==> multiset(r) == multiset(s) - multiset{v}
    ensures v in s ==> forall j :: 0 <= j < IndexOfSeq(s, v) ==> r[j] == s[j]
    ensures v in s ==> forall j :: IndexOfSeq(s, v) <= j < |r| ==> r[j] == s[j + 1]
  {
    var k := IndexOfSeq(s, v);
    if k == -1 then s
    else
      var r := s[..k] + s[k + 1..];
      DropAt(s, k, r);
      r
  }

  /** `List.Remove(v)` as the collection's `IList` view does it: it looks `v`
      up in the inner list, throws when it is absent, and otherwise removes
      the first match from the inner list. */
  function CollectionRemove(s: seq<string>, v: string): (r: Result<seq<string>>)
    ensures r.Failure? <==> v !in s
    ensures r.Success? ==> |r.value| == |s| - 1
    ensures r.Success? ==> multiset(r.value) == multiset(s) - multiset{v}
  {
    if IndexOfSeq(s, v) < 0 then Failure(ArgumentException) else Success(RemoveSeq(s, v))
  }

  /** The collection's `Remove` agrees with the ArrayList's exactly when the
      value is present; for an absent value it throws where the ArrayList
      leaves the list as it is. */
  lemma CollectionRemoveDiverges(s: seq<string>, v: string)
    ensures CollectionRemove(s, v) == Success(RemoveSeq(s, v)) <==> v in s
    ensures v !in s ==> RemoveSeq(s, v) == s && CollectionRemove(s, v) == Failure(ArgumentException)
  {
  }

  /** A concrete case: removing "zz" from ["a"]. */
  lemma RemoveAbsentThrows()
    ensures CollectionRemove(["a"], "zz") == Failure(ArgumentException)
    ensures RemoveSeq(["a"], "zz") == ["a"]
  {
  }

  /** Cutting out position `k` removes one copy of `s[k]` and shifts the tail
      down by one. */
  lemma DropAt(s: seq<string>, k: int, r: seq<string>)
    requires 0 <= k < |s| && r == s[..k] + s[k + 1..]
    ensures multiset(r) == multiset(s) - multiset{s[k]}
    ensures forall j :: k <= j < |r| ==> r[j] == s[j + 1]
  {
    assert s == s[..k] + [s[k]] + s[k + 1..];
  }

  /** Inserting `v` where no earlier copy of it exists makes that position the
      first occurrence, so removing `v` afterwards gives back the original
      contents. */
  lemma InsertThenRemove(s: seq<string>, i: int, v: string)
    requires 0 <= i <= |s|
    requires v !in s[..i]
    ensures IndexOfSeq(InsertSeq(s, i, v), v) == i
    ensures RemoveSeq(InsertSeq(s, i, v), v) == s
  {
  }

  /** Inserting at the end position is the same as appending. */
  lemma InsertAtEndIsAppend(s: seq<string>, v: string)
    ensures InsertSeq(s, |s|, v) == s + [v]
  {
  }

  /** Appending a value that was absent and then removing it gives back the
      original contents. */
  lemma AddThenRemove(s: seq<string>, v: string)
    requires v !in s
    ensures RemoveSeq(s + [v], v) == s
  {
  }

  /** After appending `v` it is found: at its old first position when it was
      already present, at the old length otherwise. */
  lemma IndexOfAfterAppend(s: seq<string>, v: string)
    ensures IndexOfSeq(s + [v], v) == if v in s then IndexOfSeq(s, v) else |s|
    ensures ContainsSeq(s + [v], v)
  {
    var t := s + [v];
    assert t[|s|] == v;
    if v in s {
      var i := IndexOfSeq(s, v);
      assert t[i] == v;
    }
  }
}
