/**
 * The vector of vector/version03/vector.cpp over raw storage. A cell is raw memory, a live element, or an
 * element that has been moved from and still has to be destroyed. Construction needs a raw cell, assignment
 * and destruction a constructed one, and memory is given back only when every cell of it is raw; these are the
 * preconditions of the storage operations below, so every method of the vector keeps to them.
 */
module Vector {
  datatype Cell<T> = Raw | Live(value: T) | MovedFrom

  // ---------------------------------------------------------------- storage

  method Allocate<T>(n: nat) returns (a: array<Cell<T>>)
    ensures fresh(a) && a.Length == n && forall i :: 0 <= i < n ==> a[i].Raw?
  {
    a := new Cell<T>[n](_ => Raw);
  }

  method Deallocate<T>(a: array<Cell<T>>)
    requires forall i :: 0 <= i < a.Length ==> a[i].Raw?
  {
  }

  method Construct<T>(a: array<Cell<T>>, i: nat, value: T)
    requires i < a.Length && a[i].Raw?
    modifies a
    ensures a[..] == old(a[..])[i := Live(value)]
  {
    a[i] := Live(value);
  }

  /** `construct(a + i, std::move(b[j]))`. */
  method MoveConstruct<T>(a: array<Cell<T>>, i: nat, b: array<Cell<T>>, j: nat)
    requires i < a.Length && a[i].Raw? && j < b.Length && b[j].Live?
    modifies a, b
    ensures a != b ==> a[..] == old(a[..])[i := old(b[j])] && b[..] == old(b[..])[j := MovedFrom]
    ensures a == b ==> a[..] == old(a[..])[i := old(b[j])][j := MovedFrom]
  {
    var value := b[j].value;
    b[j] := MovedFrom;
    Construct(a, i, value);
  }

  /** `a[i] = std::move(a[j])`. */
  method MoveAssign<T>(a: array<Cell<T>>, i: nat, j: nat)
    requires i < a.Length && !a[i].Raw? && j < a.Length && a[j].Live? && i != j
    modifies a
    ensures a[..] == old(a[..])[i := old(a[j])][j := MovedFrom]
  {
    a[i], a[j] := a[j], MovedFrom;
  }

  method DestroyAt<T>(a: array<Cell<T>>, i: nat)
    requires i < a.Length && !a[i].Raw?
    modifies a
    ensures a[..] == old(a[..])[i := Raw]
  {
    a[i] := Raw;
  }

  // ---------------------------------------------------------------- the algorithms of <memory> and <algorithm>

  /** `std::destroy`. */
  method Destroy<T>(a: array<Cell<T>>, lo: nat, hi: nat)
    requires lo <= hi <= a.Length && forall i :: lo <= i < hi ==> !a[i].Raw?
    modifies a
    ensures forall i :: 0 <= i < a.Length ==> a[i] == if lo <= i < hi then Raw else old(a[i])
  {
    for k := lo to hi
      invariant forall i :: 0 <= i < a.Length ==> a[i] == if lo <= i < k then Raw else old(a[i])
    {
      DestroyAt(a, k);
    }
  }

  /** `std::uninitialized_fill`. */
  method UninitializedFill<T>(a: array<Cell<T>>, lo: nat, hi: nat, value: T)
    requires lo <= hi <= a.Length && forall i :: lo <= i < hi ==> a[i].Raw?
    modifies a
    ensures forall i :: 0 <= i < a.Length ==> a[i] == if lo <= i < hi then Live(value) else old(a[i])
  {
    for k := lo to hi
      invariant forall i :: 0 <= i < a.Length ==> a[i] == if lo <= i < k then Live(value) else old(a[i])
    {
      Construct(a, k, value);
    }
  }

  /** `std::uninitialized_move` of the first `n` elements into fresh memory. */
  method UninitializedMove<T>(a: array<Cell<T>>, n: nat, to: array<Cell<T>>)
    requires a != to && n <= a.Length && n <= to.Length
    requires forall i :: 0 <= i < n ==> a[i].Live? && to[i].Raw?
    modifies a, to
    ensures forall i :: 0 <= i < a.Length ==> a[i] == if i < n then MovedFrom else old(a[i])
    ensures forall i :: 0 <= i < to.Length ==> to[i] == if i < n then old(a[i]) else old(to[i])
  {
    for k := 0 to n
      invariant forall i :: 0 <= i < a.Length ==> a[i] == if i < k then MovedFrom else old(a[i])
      invariant forall i :: 0 <= i < to.Length ==> to[i] == if i < k then old(a[i]) else old(to[i])
    {
      MoveConstruct(to, k, a, k);
    }
  }

  /** `std::move` of the elements in [lo, hi) down `down` places; what they leave behind stays constructed. */
  method MoveDown<T>(a: array<Cell<T>>, lo: nat, hi: nat, down: nat)
    requires 0 < down <= lo <= hi <= a.Length && forall i :: lo - down <= i < hi ==> a[i].Live?
    modifies a
    ensures forall i :: 0 <= i < a.Length && !(lo - down <= i < hi) ==> a[i] == old(a[i])
    ensures forall i :: lo - down <= i < hi - down ==> a[i] == old(a[i + down])
    ensures forall i :: hi - down <= i < hi ==> !a[i].Raw?
  {
    for k := lo to hi
      invariant forall i :: 0 <= i < a.Length && (i < lo - down || i >= k) ==> a[i] == old(a[i])
      invariant forall i :: lo - down <= i < k - down ==> a[i] == old(a[i + down])
      invariant forall i :: k - down <= i < k ==> !a[i].Raw?
    {
      MoveAssign(a, k - down, k);
    }
  }

  /** `std::move_backward` of the elements in [lo, hi) up by one place. */
  method MoveUp<T>(a: array<Cell<T>>, lo: nat, hi: nat)
    requires lo <= hi < a.Length && (forall i :: lo <= i < hi ==> a[i].Live?) && !a[hi].Raw?
    modifies a
    ensures forall i :: 0 <= i < a.Length && !(lo <= i <= hi) ==> a[i] == old(a[i])
    ensures forall i :: lo < i <= hi ==> a[i] == old(a[i - 1])
    ensures !a[lo].Raw?
  {
    for k := hi downto lo
      invariant forall i :: 0 <= i < a.Length && !(k <= i <= hi) ==> a[i] == old(a[i])
      invariant forall i :: k < i <= hi ==> a[i] == old(a[i - 1])
      invariant !a[k].Raw?
    {
      MoveAssign(a, k + 1, k);
    }
  }

  /** The shifting part of `emplace`: the elements from `pos` on move up by one, leaving raw memory at `pos`. */
  method OpenGap<T>(a: array<Cell<T>>, pos: nat, size: nat)
    requires pos < size < a.Length && (forall i :: 0 <= i < size ==> a[i].Live?) && a[size].Raw?
    modifies a
    ensures forall i :: 0 <= i < a.Length && !(pos <= i <= size) ==> a[i] == old(a[i])
    ensures forall i :: pos < i <= size ==> a[i] == old(a[i - 1])
    ensures a[pos].Raw?
  {
    MoveConstruct(a, size, a, size - 1);
    MoveUp(a, pos, size - 1);
    DestroyAt(a, pos);
  }

  // ---------------------------------------------------------------- the vector

  class Vector<T> {
    var data: array?<Cell<T>>
    var size: nat
    var capacity: nat
    ghost var moved: nat        // elements moved to new memory so far

    /** The first `size` cells are the elements and the rest is raw. */
    ghost predicate Valid()
      reads this, data
    {
      if data == null then size == 0 && capacity == 0
      else
        && size <= capacity == data.Length
        && forall i :: 0 <= i < capacity ==> (i < size <==> data[i].Live?) && (i >= size <==> data[i].Raw?)
    }

    ghost function Contents(): (s: seq<T>)
      reads this, data
      requires Valid()
      ensures |s| == size
      ensures forall i :: 0 <= i < |s| ==> data != null && data[i] == Live(s[i])
    {
      if data == null then [] else seq(size, i requires 0 <= i < size && Valid() reads this, data => data[i].value)
    }

    /** Cells that hold `s` and are raw beyond it make a vector of these contents. */
    lemma ContentsAre(s: seq<T>)
      requires data != null && |s| == size <= capacity == data.Length
      requires forall i :: 0 <= i < capacity ==> data[i] == if i < size then Live(s[i]) else Raw
      ensures Valid() && Contents() == s
    {
    }

    constructor ()
      ensures Valid() && Contents() == [] && capacity == 0 && moved == 0 && data == null
    {
      data, size, capacity, moved := null, 0, 0, 0;
    }

    method Reallocate(newCapacity: nat)
      requires Valid() && size <= newCapacity
      modifies this`data, this`capacity, this`moved, data
      ensures Valid() && Contents() == old(Contents()) && capacity == newCapacity && moved == old(moved) + size
      ensures data != null && fresh(data)
    {
      var newData := Allocate<T>(newCapacity);
      if data != null {
        UninitializedMove(data, size, newData);
        Destroy(data, 0, size);
        Deallocate(data);
        moved := moved + size;
      }
      data, capacity := newData, newCapacity;
    }

    method Reserve(newCapacity: nat)
      requires Valid()
      modifies this`data, this`capacity, this`moved, data
      ensures Valid() && Contents() == old(Contents())
      ensures capacity == if newCapacity > old(capacity) then newCapacity else old(capacity)
    {
      if newCapacity > capacity {
        Reallocate(newCapacity);
      }
    }

    method ShrinkToFit()
      requires Valid()
      modifies this`data, this`capacity, this`moved, data
      ensures Valid() && Contents() == old(Contents()) && capacity == size
    {
      if size < capacity {
        Reallocate(size);
      }
    }

    method Clear()
      requires Valid()
      modifies this`size, data
      ensures Valid() && Contents() == [] && capacity == old(capacity)
    {
      if data != null {
        Destroy(data, 0, size);
        size := 0;
      }
    }

    /** The destructor: all memory is raw when it goes. */
    method Delete()
      requires Valid()
      modifies this`size, data
      ensures data != null ==> forall cell <- data[..] :: cell.Raw?
    {
      Clear();
      if data != null {
        Deallocate(data);
      }
    }

    /** Doubles full storage. */
    method Grow()
      requires Valid()
      modifies this`data, this`capacity, this`moved, data
      ensures Valid() && Contents() == old(Contents()) && size < capacity
      ensures data != null && (data == old(data) || fresh(data))
      ensures old(size < capacity) ==> capacity == old(capacity) && moved == old(moved)
      ensures old(size >= capacity) ==>
                && capacity == (if old(capacity) == 0 then 1 else 2 * old(capacity))
                && moved == old(moved) + size
    {
      if size >= capacity {
        Reallocate(if capacity == 0 then 1 else capacity * 2);
      }
    }

    method EmplaceBack(value: T)
      requires Valid()
      modifies this, data
      ensures Valid() && Contents() == old(Contents()) + [value] && (data == old(data) || fresh(data))
      ensures old(size < capacity) ==> capacity == old(capacity) && moved == old(moved)
      ensures old(size >= capacity) ==>
                && capacity == (if old(capacity) == 0 then 1 else 2 * old(capacity))
                && moved == old(moved) + old(size)
    {
      Grow();
      Construct(data, size, value);
      size := size + 1;
    }

    /** `emplace` and `insert`. */
    method Emplace(pos: nat, value: T)
      requires Valid() && pos <= size
      modifies this, data
      ensures Valid() && Contents() == old(Contents()[..pos] + [value] + Contents()[pos..])
    {
      ghost var s := Contents();
      if pos == size {
        EmplaceBack(value);
        return;
      }
      Grow();
      OpenGap(data, pos, size);
      Construct(data, pos, value);
      size := size + 1;
      ContentsAre(s[..pos] + [value] + s[pos..]);
    }

    method Erase(pos: nat)
      requires Valid() && pos < size
      modifies this`size, data
      ensures Valid() && Contents() == old(Contents()[..pos] + Contents()[pos + 1..]) && capacity == old(capacity)
    {
      ghost var s := Contents();
      MoveDown(data, pos + 1, size, 1);
      size := size - 1;
      DestroyAt(data, size);
      ContentsAre(s[..pos] + s[pos + 1..]);
    }

    method EraseRange(first: nat, last: nat)
      requires Valid() && first <= last <= size
      modifies this`size, data
      ensures Valid() && Contents() == old(Contents()[..first] + Contents()[last..]) && capacity == old(capacity)
    {
      if first == last {
        return;
      }
      var n := last - first;
      ghost var s := Contents();
      MoveDown(data, last, size, n);
      Destroy(data, size - n, size);
      size := size - n;
      ContentsAre(s[..first] + s[last..]);
    }

    method PopBack()
      requires Valid()
      modifies this`size, data
      ensures Valid() && Contents() == old(if size > 0 then Contents()[..size - 1] else []) && capacity == old(capacity)
    {
      if size > 0 {
        size := size - 1;
        DestroyAt(data, size);
      }
    }

    method Resize(newSize: nat, value: T)
      requires Valid()
      modifies this, data
      ensures Valid() && size == newSize
      ensures newSize <= old(size) ==> Contents() == old(Contents())[..newSize] && capacity == old(capacity)
      ensures newSize > old(size) ==> Contents() == old(Contents()) + seq(newSize - old(size), _ => value)
    {
      if newSize > size {
        if newSize > capacity {
          Reallocate(newSize);
        }
        UninitializedFill(data, size, newSize, value);
      } else if newSize < size {
        Destroy(data, newSize, size);
      }
      size := newSize;
    }

    /** Pushing `n` elements onto an empty vector moves fewer than 2n of them to new memory. */
    method PushAll(values: seq<T>)
      requires Valid() && data == null && moved == 0
      modifies this
      ensures Valid() && Contents() == values
      ensures values != [] ==> moved < 2 * |values|
    {
      for i := 0 to |values|
        invariant Valid() && Contents() == values[..i] && (data == null || fresh(data))
        invariant if i == 0 then capacity == 0 && moved == 0 else moved + 1 == capacity < 2 * i
      {
        EmplaceBack(values[i]);
        assert values[..i + 1] == values[..i] + [values[i]];
      }
      assert values[..|values|] == values;
    }
  }
}
