/**
 * `ContiguousArrayList<T>` of the org.libsdl binding: a fixed-length,
 * non-empty `java.util.List` over an array of JNA structures that lie in one
 * block of native memory. It can be read and iterated; every structural
 * change throws.
 *
 * Java's `null` is None and `Object.equals` is Dafny equality on `T`.
 */
module ContiguousList {
  import opened Wrappers
  import opened Wire

  /** The exceptions the list and its iterators throw. */
  datatype Error = IllegalArgument | IndexOutOfBounds | NoSuchElement | UnsupportedOperation

  const INT32_MIN: int := -0x8000_0000
  const INT32_MAX: int := 0x7FFF_FFFF

  /** The structural changes of `java.util.List` that this list refuses. */
  datatype Mutation<T> =
    | Add(e: Option<T>)
    | Remove(o: Option<T>)
    | AddAll(c: seq<Option<T>>)
    | AddAllAt(index: int32, c: seq<Option<T>>)
    | RemoveAll(c: seq<Option<T>>)
    | RetainAll(c: seq<Option<T>>)
    | Clear
    | Set(index: int32, e: Option<T>)
    | AddAt(index: int32, e: Option<T>)
    | RemoveAt(index: int32)
    | SubList(fromIndex: int32, toIndex: int32)

  /** The changes of `ListIterator` that the list's iterators refuse. */
  datatype IteratorMutation<T> = RemoveLast | SetLast(e: Option<T>) | AddHere(e: Option<T>)

  /** Reference definition: the first position of `x` in `s`, or -1. */
  function FirstIndex<X(==)>(s: seq<X>, x: X): (i: int)
    ensures -1 <= i < |s|
    ensures i == -1 <==> x !in s
    ensures 0 <= i ==> s[i] == x && forall j :: 0 <= j < i ==> s[j] != x
  {
    if s == [] then -1
    else if s[0] == x then 0
    else
      var j := FirstIndex(s[1..], x);
      if j == -1 then -1 else j + 1
  }

  /** Reference definition: the last position of `x` in `s`, or -1. */
  function LastIndex<X(==)>(s: seq<X>, x: X): (i: int)
    ensures -1 <= i < |s|
    ensures i == -1 <==> x !in s
    ensures 0 <= i ==> s[i] == x && forall j :: i < j < |s| ==> s[j] != x
  {
    if s == [] then -1
    else if s[|s| - 1] == x then |s| - 1
    else
      var j := LastIndex(s[..|s| - 1], x);
      if j == -1 then
        assert s == s[..|s| - 1] + [s[|s| - 1]];
        -1
      else j
  }

  /** What `lastIndexOf` computes: a null argument gives -1 whatever the list holds. */
  function LastIndexAsWritten<X(==)>(s: seq<Option<X>>, o: Option<X>): int {
    if o.None? then -1 else LastIndex(s, o)
  }

  /** The first and the last position of a present value bracket every other position of it. */
  lemma FirstLastBracket<X>(s: seq<X>, x: X, k: int)
    requires 0 <= k < |s| && s[k] == x
    ensures FirstIndex(s, x) <= k <= LastIndex(s, x)
  {
  }

  /** `lastIndexOf(null)` misses a null slot that `indexOf(null)` finds. */
  lemma LastIndexOfNullMissesNull<X>(s: seq<Option<X>>)
    requires None in s
    ensures FirstIndex(s, None) >= 0
    ensures LastIndex(s, None) >= FirstIndex(s, None)
    ensures LastIndexAsWritten(s, None) == -1
  {
    FirstLastBracket(s, None, FirstIndex(s, None));
  }

  /** The state a `forEach` consumer ends in after accepting the elements of `s` in order. */
  function FoldLeft<A, B>(f: (A, B) -> A, init: A, s: seq<B>): A {
    if s == [] then init else FoldLeft(f, f(init, s[0]), s[1..])
  }

  lemma {:induction false} FoldLeftSnoc<A, B>(f: (A, B) -> A, init: A, s: seq<B>, e: B)
    ensures FoldLeft(f, init, s + [e]) == f(FoldLeft(f, init, s), e)
  {
    if s != [] {
      assert (s + [e])[1..] == s[1..] + [e];
      FoldLeftSnoc(f, f(init, s[0]), s[1..], e);
    }
  }

  class ContiguousArrayList<T(==)> {
    /** The wrapped Java array (the field `T[] array`); its slots may be null. */
    const data: array<Option<T>>

    /** The constructors admit only arrays of length at least 1, and a Java array has an `int` length. */
    ghost predicate Valid() {
      1 <= data.Length <= INT32_MAX
    }

    /** The list's elements: the array as it is now (callers may change the structures in it). */
    function Elements(): seq<Option<T>>
      reads data
    {
      data[..]
    }

    /** `ContiguousArrayList(T[] array)` past its length check: wraps the caller's array itself, without copying. */
    constructor Wrap(wrapped: array<Option<T>>)
      requires 1 <= wrapped.Length <= INT32_MAX
      ensures Valid() && data == wrapped
    {
      data := wrapped;
    }

    /** `size()`: the fixed length of the array, never below 1. */
    function Size(): (n: int)
      reads data
      requires Valid()
      ensures n == |Elements()|
      ensures 1 <= n <= INT32_MAX
    {
      data.Length
    }

    /** `isEmpty()`: always false, since the constructors reject an empty array. */
    function IsEmpty(): (b: bool)
      requires Valid()
      ensures !b
    {
      data.Length == 0
    }

    /** `get(index)`: the element at `index`; an index outside the array throws. */
    function Get(index: int): (r: Result<Option<T>, Error>)
      reads data
      ensures r.Success? <==> 0 <= index < |Elements()|
      ensures r.Success? ==> r.value == Elements()[index]
      ensures r.Failure? ==> r.error == IndexOutOfBounds
    {
      if 0 <= index < data.Length then Success(data[index]) else Failure(IndexOutOfBounds)
    }

    /** `indexOf(o)`: the first position holding `o` (the first null slot for a null `o`), or -1. */
    method IndexOf(o: Option<T>) returns (r: int)
      requires Valid()
      ensures r == FirstIndex(Elements(), o)
    {
      var a := data;
      if o.None? {
        for i := 0 to a.Length
          invariant forall k :: 0 <= k < i ==> a[k] != None
        {
          if a[i] == None {
            return i;
          }
        }
      } else {
        for i := 0 to a.Length
          invariant forall k :: 0 <= k < i ==> a[k] != o
        {
          if o == a[i] {
            return i;
          }
        }
      }
      return -1;
    }

    /** `contains(o)`: whether some slot holds `o`. */
    method Contains(o: Option<T>) returns (b: bool)
      requires Valid()
      ensures b <==> o in Elements()
    {
      var i := IndexOf(o);
      b := i >= 0;
    }

    /**
     * `lastIndexOf(o)`: the last position holding a non-null `o`, or -1;
     * for a null `o` it returns -1 even when a slot is null.
     */
    method LastIndexOf(o: Option<T>) returns (r: int)
      requires Valid()
      ensures r == LastIndexAsWritten(Elements(), o)
      ensures o.None? ==> r == -1
      ensures o.Some? ==> (r == -1 <==> o !in Elements())
      ensures 0 <= r ==> Elements()[r] == o && forall k :: r < k < Size() ==> Elements()[k] != o
    {
      if o.None? {
        return -1;
      }
      var i := data.Length - 1;
      while i >= 0
        invariant -1 <= i < data.Length
        invariant forall k :: i < k < data.Length ==> data[k] != o
      {
        if o == data[i] {
          FirstLastBracket(Elements(), o, i);
          return i;
        }
        i := i - 1;
      }
      assert o !in Elements();
      return -1;
    }

    /** `containsAll(c)`: whether every element of `c` is in the list. */
    method ContainsAll(c: seq<Option<T>>) returns (b: bool)
      requires Valid()
      ensures b <==> forall e :: e in c ==> e in Elements()
    {
      for i := 0 to |c|
        invariant forall k :: 0 <= k < i ==> c[k] in Elements()
      {
        var found := Contains(c[i]);
        if !found {
          return false;
        }
      }
      return true;
    }

    /** `toArray()`: a fresh array holding the elements in order. */
    method ToArray() returns (r: array<Option<T>>)
      requires Valid()
      ensures fresh(r) && r[..] == Elements()
    {
      r := new Option<T>[data.Length](i reads data requires 0 <= i < data.Length => data[i]);
    }

    /**
     * `toArray(a)`: when `a` is too short, a fresh array of the elements;
     * otherwise the elements are copied into the front of `a`, the slot just
     * after them (if any) is set to null, and `a` itself is returned.
     */
    method ToArrayInto(a: array<Option<T>>) returns (r: array<Option<T>>)
      requires Valid()
      modifies a
      ensures a.Length < Size() ==> fresh(r) && r[..] == old(Elements()) && a[..] == old(a[..])
      ensures a.Length >= Size() ==> r == a && r[..Size()] == old(Elements())
      ensures a.Length > Size() ==> r[Size()] == None && r[Size() + 1..] == old(a[Size() + 1..])
    {
      var size := data.Length;
      if a.Length < size {
        r := new Option<T>[size](i reads data requires 0 <= i < size => data[i]);
        return;
      }
      for i := 0 to size
        invariant forall k :: 0 <= k < i ==> a[k] == old(data[k])
        invariant forall k :: i <= k < size ==> data[k] == old(data[k])
        invariant forall k :: size <= k < a.Length ==> a[k] == old(a[k])
      {
        a[i] := data[i];
      }
      if a.Length > size {
        a[size] := None;
      }
      r := a;
    }

    /** `forEach(action)`: the consumer accepts every element once, in order. */
    method ForEach<S>(action: (S, Option<T>) -> S, init: S) returns (s: S)
      requires Valid()
      ensures s == FoldLeft(action, init, Elements())
    {
      s := init;
      for i := 0 to data.Length
        invariant s == FoldLeft(action, init, data[..i])
      {
        FoldLeftSnoc(action, init, data[..i], data[i]);
        assert data[..i + 1] == data[..i] + [data[i]];
        s := action(s, data[i]);
      }
      assert data[..data.Length] == Elements();
    }

    /** `add`, `remove`, `addAll`, `removeAll`, `retainAll`, `clear`, `set`, `subList`: always throw, changing nothing. */
    method Mutate(m: Mutation<T>) returns (r: Outcome<Error>)
      requires Valid()
      ensures r == Fail(UnsupportedOperation)
      ensures Elements() == old(Elements())
    {
      r := Fail(UnsupportedOperation);
    }

    /** `iterator()`: a forward iterator at the first element. */
    method Iterator() returns (it: Itr<T>)
      requires Valid()
      ensures fresh(it) && it.Valid() && it.list == this
      ensures it.cursor == 0 && it.lastRet == -1
    {
      it := new Itr(this);
    }

    /** `listIterator(index)` (and `listIterator()` with `index` 0); `index` is not checked. */
    method ListIterator(index: int32) returns (it: ListItr<T>)
      requires Valid()
      ensures fresh(it) && it.list == this
      ensures it.cursor == index && it.lastRet == -1
    {
      it := new ListItr(this, index);
    }
  }

  /** `ContiguousArrayList(Class<T>, size)`: a list of `size` new structures; a size below 1 throws. */
  method Allocate<T(==)>(size: int32, item: nat -> T) returns (r: Result<ContiguousArrayList<T>, Error>)
    ensures r.Failure? <==> size < 1
    ensures r.Failure? ==> r.error == IllegalArgument
    ensures r.Success? ==> fresh(r.value) && fresh(r.value.data) && r.value.Valid()
    ensures r.Success? ==> r.value.Elements() == seq(size, i requires 0 <= i => Some(item(i)))
  {
    if size < 1 {
      return Failure(IllegalArgument);
    }
    var a := new Option<T>[size](i requires 0 <= i => Some(item(i)));
    var list := new ContiguousArrayList.Wrap(a);
    return Success(list);
  }

  /** `ContiguousArrayList(T[] array)`: wraps the caller's array; an empty array throws. */
  method FromArray<T(==)>(wrapped: array<Option<T>>) returns (r: Result<ContiguousArrayList<T>, Error>)
    requires wrapped.Length <= INT32_MAX
    ensures r.Failure? <==> wrapped.Length < 1
    ensures r.Failure? ==> r.error == IllegalArgument
    ensures r.Success? ==> fresh(r.value) && r.value.Valid() && r.value.data == wrapped
  {
    if wrapped.Length < 1 {
      return Failure(IllegalArgument);
    }
    var list := new ContiguousArrayList.Wrap(wrapped);
    return Success(list);
  }

  /** The forward iterator `Itr`: `cursor` is the index of the next element, `lastRet` that of the last one returned. */
  class Itr<T(==)> {
    const list: ContiguousArrayList<T>
    var cursor: int32
    var lastRet: int32

    /** Starting at 0 and moving only forward within the list, the cursor stays in [0, size]. */
    ghost predicate Valid()
      reads this
    {
      list.Valid() && 0 <= cursor <= list.data.Length && -1 <= lastRet < list.data.Length
    }

    constructor (list: ContiguousArrayList<T>)
      requires list.Valid()
      ensures Valid() && this.list == list && cursor == 0 && lastRet == -1
    {
      this.list := list;
      cursor := 0;
      lastRet := -1;
    }

    /** `hasNext()`: the cursor is not at the end, which for a valid iterator means `next()` succeeds. */
    function HasNext(): (b: bool)
      reads this, list.data
      requires list.Valid()
      ensures b <==> cursor != list.Size()
      ensures Valid() ==> (b <==> list.Get(cursor).Success?)
    {
      cursor != list.data.Length
    }

    /** `next()`: the element at the cursor, which moves one forward; past the end it throws and nothing moves. */
    method Next() returns (r: Result<Option<T>, Error>)
      requires list.Valid()
      modifies this
      ensures old(Valid()) ==> Valid()
      ensures 0 <= old(cursor) < list.Size() ==>
        r == Success(list.Elements()[old(cursor)]) && cursor == old(cursor) + 1 && lastRet == old(cursor)
      ensures !(0 <= old(cursor) < list.Size()) ==>
        r == Failure(NoSuchElement) && cursor == old(cursor) && lastRet == old(lastRet)
    {
      var i := cursor;
      var got := list.Get(i);
      if got.Failure? {
        return Failure(NoSuchElement);
      }
      lastRet := i;
      cursor := i + 1;
      return Success(got.value);
    }

    /** `remove()`: always throws. */
    method Remove() returns (r: Outcome<Error>)
      ensures r == Fail(UnsupportedOperation)
    {
      r := Fail(UnsupportedOperation);
    }
  }

  /** The list iterator `ListItr`: `Itr` extended with backward moves; its start index is not checked. */
  class ListItr<T(==)> {
    const list: ContiguousArrayList<T>
    var cursor: int32
    var lastRet: int32

    constructor (list: ContiguousArrayList<T>, index: int32)
      requires list.Valid()
      ensures this.list == list && cursor == index && lastRet == -1
    {
      this.list := list;
      cursor := index;
      lastRet := -1;
    }

    /** `hasNext()`: the cursor is not at the end; within [0, size] that means `next()` succeeds. */
    function HasNext(): (b: bool)
      reads this, list.data
      requires list.Valid()
      ensures b <==> cursor != list.Size()
      ensures 0 <= cursor <= list.Size() ==> (b <==> list.Get(cursor).Success?)
    {
      cursor != list.data.Length
    }

    /** `next()`, inherited from `Itr`. */
    method Next() returns (r: Result<Option<T>, Error>)
      requires list.Valid()
      modifies this
      ensures 0 <= old(cursor) < list.Size() ==>
        r == Success(list.Elements()[old(cursor)]) && cursor == old(cursor) + 1 && lastRet == old(cursor)
      ensures !(0 <= old(cursor) < list.Size()) ==>
        r == Failure(NoSuchElement) && cursor == old(cursor) && lastRet == old(lastRet)
    {
      var i := cursor;
      var got := list.Get(i);
      if got.Failure? {
        return Failure(NoSuchElement);
      }
      lastRet := i;
      cursor := i + 1;
      return Success(got.value);
    }

    /** `hasPrevious()`: the cursor is not at 0; within [0, size] that means `previous()` succeeds. */
    function HasPrevious(): (b: bool)
      reads this, list.data
      requires list.Valid()
      ensures b <==> cursor != 0
      ensures 0 <= cursor <= list.Size() ==> (b <==> list.Get(cursor - 1).Success?)
    {
      cursor != 0
    }

    /** `previous()`: the cursor moves one back and the element there is returned; before the start it throws and nothing moves. */
    method Previous() returns (r: Result<Option<T>, Error>)
      requires list.Valid()
      modifies this
      ensures 0 < old(cursor) <= list.Size() ==>
        r == Success(list.Elements()[old(cursor) - 1]) && cursor == old(cursor) - 1 && lastRet == cursor
      ensures !(0 < old(cursor) <= list.Size()) ==>
        r == Failure(NoSuchElement) && cursor == old(cursor) && lastRet == old(lastRet)
    {
      // Java's `cursor - 1` wraps for Integer.MIN_VALUE; `get` rejects that index as well.
      var i: int := cursor - 1;
      var got := list.Get(i);
      if got.Failure? {
        return Failure(NoSuchElement);
      }
      cursor := i;
      lastRet := i;
      return Success(got.value);
    }

    /** `nextIndex()`: the index `next()` would return the element of. */
    function NextIndex(): (i: int32)
      reads this, list.data
      requires list.Valid()
      ensures i == cursor
    {
      cursor
    }

    /** `previousIndex()`: `cursor - 1` in 32-bit arithmetic, so Integer.MIN_VALUE wraps to Integer.MAX_VALUE. */
    function PreviousIndex(): (i: int32)
      reads this
      ensures cursor != INT32_MIN ==> i == cursor - 1
      ensures cursor == INT32_MIN ==> i == INT32_MAX
    {
      if cursor == INT32_MIN then INT32_MAX else cursor - 1
    }

    /** `remove()`, `set(e)` and `add(e)`: always throw. */
    method Mutate(m: IteratorMutation<T>) returns (r: Outcome<Error>)
      ensures r == Fail(UnsupportedOperation)
    {
      r := Fail(UnsupportedOperation);
    }

    /** `next()` then `previous()` returns the same element twice and puts the cursor back. */
    method NextThenPrevious() returns (forward: Result<Option<T>, Error>, backward: Result<Option<T>, Error>)
      requires list.Valid()
      modifies this
      ensures 0 <= old(cursor) < list.Size() ==>
        forward.Success? && backward == forward && cursor == old(cursor) && lastRet == cursor
    {
      forward := Next();
      backward := Previous();
    }
  }

  /** Iterating with `hasNext()`/`next()` from `iterator()` visits the elements once each, in order. */
  method CollectForward<T(==)>(list: ContiguousArrayList<T>) returns (s: seq<Option<T>>)
    requires list.Valid()
    ensures s == list.Elements()
  {
    var it := list.Iterator();
    s := [];
    while it.HasNext()
      invariant it.Valid() && it.list == list
      invariant s == list.Elements()[..it.cursor]
      decreases list.Size() - it.cursor
    {
      var r := it.Next();
      s := s + [r.value];
    }
  }

  /** Iterating with `hasPrevious()`/`previous()` from `listIterator(size())` visits the elements once each, last first. */
  method CollectBackward<T(==)>(list: ContiguousArrayList<T>) returns (s: seq<Option<T>>)
    requires list.Valid()
    ensures |s| == list.Size()
    ensures forall k :: 0 <= k < |s| ==> s[k] == list.Elements()[|s| - 1 - k]
  {
    var it := list.ListIterator(list.Size() as int32);
    s := [];
    while it.HasPrevious()
      invariant it.list == list && 0 <= it.cursor <= list.Size()
      invariant |s| == list.Size() - it.cursor
      invariant forall k :: 0 <= k < |s| ==> s[k] == list.Elements()[list.Size() - 1 - k]
      decreases it.cursor
    {
      var r := it.Previous();
      s := s + [r.value];
    }
  }
}
