/**
 The growable buffer under every string token: a NUL-terminated block whose capacity is a
 multiple of 64.
 */
module StringBuffers {
  import opened Patterns

  const STRING_BLOCK_SIZE := 64

  /** The next multiple of the block size; in C the mask `~63` after adding 63. */
  function RoundUp(n: nat): (c: nat)
    ensures n <= c < n + STRING_BLOCK_SIZE && c % STRING_BLOCK_SIZE == 0
  {
    (n + (STRING_BLOCK_SIZE - 1)) / STRING_BLOCK_SIZE * STRING_BLOCK_SIZE
  }

  /** The length of the C string that starts at the front of `text`. */
  method StrLen(text: string) returns (n: nat)
    ensures n <= |text| && text[..n] == CString(text)
    ensures n < |text| ==> text[n] == '\0'
  {
    n := 0;
    while n < |text| && text[n] != '\0'
      invariant n <= |text| && CString(text) == text[..n] + CString(text[n..])
    {
      assert text[n..][1..] == text[n + 1..];
      assert text[..n + 1] == text[..n] + [text[n]];
      n := n + 1;
    }
  }

  lemma {:induction false} CStringHasNoNul(text: string)
    ensures |CString(text)| <= |text| && '\0' !in CString(text)
  {
    if text != [] && text[0] != '\0' {
      CStringHasNoNul(text[1..]);
    }
  }

  /** `strcpy` of the first `len` characters and a NUL to position `at`. */
  method StrCpy(block: array<char>, at: nat, s: string, len: nat)
    requires len <= |s| && at + len < block.Length
    modifies block
    ensures block[..at + len] == old(block[..at]) + s[..len] && block[at + len] == '\0'
  {
    for i := 0 to len
      invariant block[..at + i] == old(block[..at]) + s[..i]
    {
      block[at + i] := s[i];
    }
    block[at + len] := '\0';
  }

  class StrBuf {
    var text: array?<char>
    var length: nat
    var capacity: nat

    ghost predicate Valid()
      reads this, text
    {
      if text == null then length == 0 && capacity == 0
      else
        && text.Length == capacity && capacity % STRING_BLOCK_SIZE == 0
        && length < capacity && text[length] == '\0' && '\0' !in text[..length]
    }

    ghost function Repr(): set<object>
      reads this
    {
      if text == null then {this} else {this, text}
    }

    /** The characters collected so far. */
    ghost function Contents(): (s: string)
      requires Valid()
      reads this, text
      ensures '\0' !in s
    {
      if text == null then [] else text[..length]
    }

    constructor ()
      ensures Valid() && fresh(Repr()) && Contents() == []
    {
      text, length, capacity := null, 0, 0;
    }

    /** `strbuf_append`: the C string in `s` goes to the end. */
    method Append(s: string)
      requires Valid()
      modifies Repr()
      ensures Valid() && fresh(Repr() - old(Repr()))
      ensures Contents() == old(Contents()) + CString(s)
      ensures capacity == if old(length) + |CString(s)| + 1 > old(capacity)
                          then (old(length) + |CString(s)| + 64) / 64 * 64 else old(capacity)
    {
      ghost var was := Contents();
      CStringHasNoNul(s);
      var len := StrLen(s);
      var newlen := length + len + 1;
      if newlen > capacity {
        Grow(RoundUp(newlen));
      }
      StrCpy(text, length, s, len);
      length := length + len;
    }

    /** `realloc`: a larger block with the same contents. */
    method Grow(newCapacity: nat)
      requires Valid() && newCapacity > capacity && newCapacity % STRING_BLOCK_SIZE == 0
      modifies this
      ensures text != null && fresh(text) && text.Length == capacity == newCapacity && capacity % STRING_BLOCK_SIZE == 0
      ensures length == old(length) && text[..length] == old(Contents())
    {
      var block := new char[newCapacity](_ => '\0');
      for i := 0 to length
        modifies block
        invariant text != null ==> block[..i] == text[..i]
      {
        block[i] := text[i];
      }
      text, capacity := block, newCapacity;
    }

    /** `strbuf_release`, and the copy of `""` that `scanctx_take_string` makes of NULL. */
    method Take() returns (s: string)
      requires Valid()
      modifies this
      ensures Valid() && text == null && fresh(Repr() - old(Repr()))
      ensures s == old(Contents()) && Contents() == []
    {
      s := if text == null then "" else text[..length];
      text, length, capacity := null, 0, 0;
    }
  }
}
