/** The growable string: a text of max + 1 bytes, of which `length` are used and the next one is NUL. */
module RcStrings {
  import opened JsonTree

  const INCSTEP: nat := 5
  const DEFAULT: nat := 8

  class RcString {
    var text: array<char>
    var length: nat
    var max: nat

    ghost predicate Valid()
      reads this, text
    {
      && text.Length == max + 1 && length <= max && text[length] == '\0'
      && forall i :: 0 <= i < length ==> 0 < text[i] as int < 256
    }

    ghost function Contents(): Text
      requires Valid()
      reads this, text
    {
      text[..length]
    }

    /** rcs_create. */
    constructor (size: nat)
      ensures Valid() && Contents() == [] && max == size && fresh(text)
    {
      max := size;
      length := 0;
      text := new char[size + 1];
      new;
      text[0] := '\0';
    }

    /** rcs_resize, to a size that the contents fit. */
    method Resize(size: nat)
      requires Valid() && length <= size
      modifies this`text, this`max
      ensures Valid() && Contents() == old(Contents()) && max == size && fresh(text)
    {
      var temp := new char[size + 1];
      forall i | 0 <= i <= length {
        temp[i] := text[i];
      }
      text := temp;
      max := size;
      text[size] := '\0';
    }

    /** rcs_catcs. */
    method CatCs(s: Text)
      requires Valid()
      modifies this, text
      ensures Valid() && Contents() == old(Contents()) + s
      ensures text == old(text) || fresh(text)
      ensures max == if old(max) < old(length) + |s| then old(length) + |s| + INCSTEP else old(max)
    {
      if max < length + |s| {
        Resize(length + |s| + INCSTEP);
      }
      ghost var before := Contents();
      forall i | 0 <= i < |s| {
        text[length + i] := s[i];
      }
      text[length + |s|] := '\0';
      length := length + |s|;
      assert text[..length] == before + s;
    }

    /** rcs_catc. */
    method CatC(c: Char)
      requires Valid()
      modifies this, text
      ensures Valid() && Contents() == old(Contents()) + [c]
      ensures text == old(text) || fresh(text)
      ensures max == if old(max) <= old(length) then old(max) + INCSTEP else old(max)
    {
      if max <= length {
        Resize(max + INCSTEP);
      }
      ghost var before := Contents();
      text[length] := c;
      length := length + 1;
      text[length] := '\0';
      assert text[..length] == before + [c];
    }

    /** rcs_unwrap: the bytes up to the first NUL, which are the contents. */
    method Unwrap() returns (out: Text)
      requires Valid()
      ensures out == Contents()
    {
      var n := 0;
      while text[n] != '\0'
        invariant n <= length
        decreases length - n
      {
        n := n + 1;
      }
      out := text[..n];
    }
  }
}
