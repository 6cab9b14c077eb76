/** NUL-terminated strings and the search for one inside another. */
module CString {
  import opened Bytes

  /** The string in memory that starts with `data`: everything before the first NUL. */
  function Text(data: seq<Byte>): (t: seq<Byte>)
    ensures t <= data && 0 !in t
    ensures |t| < |data| ==> data[|t|] == 0
  {
    if data == [] || data[0] == 0 then [] else [data[0]] + Text(data[1..])
  }

  /** A NUL after the data, and whatever memory follows it, leaves the string as it is. */
  lemma {:induction false} TerminatedText(data: seq<Byte>, rest: seq<Byte>)
    ensures Text(data + [0] + rest) == Text(data)
  {
    if data == [] || data[0] == 0 {
      assert (data + [0] + rest)[0] == 0;
    } else {
      assert (data + [0] + rest)[1..] == data[1..] + [0] + rest;
      TerminatedText(data[1..], rest);
    }
  }

  predicate OccursAt(text: seq<Byte>, pattern: seq<Byte>, i: nat) {
    i + |pattern| <= |text| && text[i..i + |pattern|] == pattern
  }

  /** `i` is where `pattern` first occurs in `text`, or -1 when it does not occur. */
  ghost predicate IsFirst(text: seq<Byte>, pattern: seq<Byte>, i: int) {
    if i < 0 then i == -1 && forall j: nat :: !OccursAt(text, pattern, j)
    else OccursAt(text, pattern, i) && forall j: nat :: j < i ==> !OccursAt(text, pattern, j)
  }

  /** In other words: no two strings around the pattern make up the text; or they do so first at
      `i`. */
  lemma FirstInText(text: seq<Byte>, pattern: seq<Byte>, i: int)
    requires IsFirst(text, pattern, i)
    ensures i < 0 ==> i == -1 && forall a: seq<Byte>, b: seq<Byte> :: a + pattern + b != text
    ensures i >= 0 ==>
              && i + |pattern| <= |text| && text[..i] + pattern + text[i + |pattern|..] == text
              && forall a: seq<Byte>, b: seq<Byte> :: a + pattern + b == text ==> i <= |a|
  {
    forall a: seq<Byte>, b: seq<Byte> | a + pattern + b == text
      ensures OccursAt(text, pattern, |a|)
    {
      assert (a + pattern + b)[|a|..|a| + |pattern|] == pattern;
    }
  }

  /** `strstr` on the memory `data`. */
  method StrStr(data: seq<Byte>, pattern: seq<Byte>) returns (i: int)
    ensures IsFirst(Text(data), pattern, i)
  {
    var text := Text(data);
    i := 0;
    while i + |pattern| <= |text|
      invariant 0 <= i
      invariant forall j: nat :: j < i ==> !OccursAt(text, pattern, j)
    {
      if text[i..i + |pattern|] == pattern {
        return;
      }
      i := i + 1;
    }
    i := -1;
  }
}
