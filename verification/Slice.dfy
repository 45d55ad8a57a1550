/**
  A Go slice that owns its backing array: contents in data[..len], and every slot past
  the length zeroed so that removed payloads are not kept reachable.
 */
module Slices {
  class Slice<T(0)> {
    ghost var contents: seq<T>
    const zero: T
    var data: array<T>
    var len: nat

    ghost predicate Valid()
      reads this, data
    {
      && len <= data.Length
      && data[..len] == contents
      && (forall i :: len <= i < data.Length ==> data[i] == zero)
    }

    constructor (zero: T, xs: seq<T>)
      ensures Valid() && fresh(data) && contents == xs && this.zero == zero
    {
      this.zero := zero;
      data := new T[|xs|](i requires 0 <= i < |xs| => xs[i]);
      len := |xs|;
      contents := xs;
      new;
      assert data[..len] == xs;
    }

    method At(i: nat) returns (x: T)
      requires Valid() && i < |contents|
      ensures x == contents[i]
    {
      x := data[i];
      assert x == data[..len][i];
    }

    method Append(x: T)
      requires Valid()
      modifies this, data
      ensures Valid() && (data == old(data) || fresh(data))
      ensures contents == old(contents) + [x]
    {
      if len == data.Length {
        var grown := new T[2 * len + 1](_ => zero);
        forall i | 0 <= i < len { grown[i] := data[i]; }
        data := grown;
        assert data[..len] == contents;
      }
      data[len] := x;
      len := len + 1;
      contents := contents + [x];
      assert data[..len] == contents;
    }

    method Set(i: nat, x: T)
      requires Valid() && i < |contents|
      modifies this`contents, data
      ensures Valid()
      ensures contents == old(contents)[i := x]
    {
      data[i] := x;
      contents := contents[i := x];
    }

    /** Tail-shift over position i, then zero the slot that is now spare (buffer_delete.go:30-40). */
    method RemoveAt(i: nat)
      requires Valid() && i < |contents|
      modifies this, data
      ensures Valid() && data == old(data)
      ensures contents == old(contents)[..i] + old(contents)[i + 1..]
    {
      ghost var kept := contents[..i] + contents[i + 1..];
      forall k | i <= k < len - 1 { data[k] := data[k + 1]; }
      data[len - 1] := zero;
      len := len - 1;
      contents := kept;
      forall j | 0 <= j < len ensures data[j] == kept[j] {
        assert old(data[..len])[j] == old(contents)[j];
        if j >= i { assert old(data[..len])[j + 1] == old(contents)[j + 1]; }
      }
    }

    /** The kept suffix moves to a fresh array, so the old prefix is not pinned (buffer_delete.go:162-170). */
    method DropPrefix(k: nat)
      requires Valid() && k <= |contents|
      modifies this
      ensures Valid() && fresh(data)
      ensures contents == old(contents)[k..]
    {
      var rest := new T[len - k](_ => zero);
      forall i | 0 <= i < len - k { rest[i] := data[k + i]; }
      assert rest[..] == data[k..len];
      contents := contents[k..];
      len := len - k;
      data := rest;
    }
  }
}
