/**
 The list of a setting's children: a block of pointers that is reallocated only when the length
 is a multiple of 16, and closed up in place when a child is removed.
 */
module ChildLists {
  import opened Settings
  import opened TreeInvariant

  const CHUNK_SIZE := 16

  /** The next multiple of the chunk size. */
  function RoundUp(n: nat): (c: nat)
    ensures n <= c < n + CHUNK_SIZE && c % CHUNK_SIZE == 0
  {
    (n + (CHUNK_SIZE - 1)) / CHUNK_SIZE * CHUNK_SIZE
  }

  /** Only a length that is a multiple of 16 needs a larger block for one more element. */
  lemma OneMoreFits(n: nat)
    ensures RoundUp(n) % 16 == 0 && n <= RoundUp(n) < n + 16
    ensures RoundUp(n + 1) == if n % 16 == 0 then n + 16 else RoundUp(n)
  {
  }

  lemma FewerFit(n: nat)
    requires n > 0
    ensures RoundUp(n - 1) <= RoundUp(n)
  {
  }

  class ChildList {
    var elements: array?<Id>
    var length: nat

    /** The block has room for the length, rounded up to whole chunks. */
    ghost predicate Valid()
      reads this, elements
    {
      if elements == null then length == 0 else RoundUp(length) <= elements.Length
    }

    ghost function Repr(): set<object>
      reads this
    {
      if elements == null then {this} else {this, elements}
    }

    ghost function Contents(): (s: seq<Id>)
      requires Valid()
      reads this, elements
      ensures |s| == length
    {
      if elements == null then [] else elements[..length]
    }

    constructor ()
      ensures Valid() && fresh(Repr()) && Contents() == []
    {
      elements, length := null, 0;
    }

    /** `realloc`: a block of another size with the same contents; it can also be smaller. */
    method Realloc(size: nat)
      requires Valid() && length < size && RoundUp(length) <= size
      modifies this`elements
      ensures elements != null && fresh(elements) && elements.Length == size
      ensures Valid() && Contents() == old(Contents())
    {
      var block := new Id[size](_ => NULL);
      for i := 0 to length
        modifies block
        invariant elements != null ==> block[..i] == elements[..i]
      {
        block[i] := elements[i];
      }
      elements := block;
    }

    /** `__config_list_add`. */
    method Add(setting: Id)
      requires Valid()
      modifies Repr()
      ensures Valid() && fresh(Repr() - old(Repr()))
      ensures Contents() == old(Contents()) + [setting]
      ensures if old(length) % 16 == 0 then elements.Length == old(length) + 16 && fresh(elements)
              else elements == old(elements)
    {
      OneMoreFits(length);
      if length % CHUNK_SIZE == 0 {
        Realloc(length + CHUNK_SIZE);
      }
      elements[length] := setting;
      length := length + 1;
    }

    /** `__config_list_remove`: the later elements move down by one. */
    method Remove(idx: nat) returns (removed: Id)
      requires Valid() && idx < length
      modifies Repr()
      ensures Valid() && Repr() == old(Repr())
      ensures removed == old(Contents())[idx] && Contents() == Without(old(Contents()), idx)
    {
      FewerFit(length);
      removed := elements[idx];
      for i := idx to length - 1
        modifies elements
        invariant forall j :: 0 <= j < length ==>
                    elements[j] == if idx <= j < i then old(elements[j + 1]) else old(elements[j])
      {
        elements[i] := elements[i + 1];
      }
      length := length - 1;
    }
  }
}
