/** Bounded building of NUL-terminated strings in place. */
module SafeString {
  import opened Bytes
  import opened CString

  /** What fits a buffer of `n` bytes, the last of which is the NUL. */
  function Fit(t: seq<Byte>, n: nat): (r: seq<Byte>)
    requires 0 < n
  {
    if |t| < n then t else t[..n - 1]
  }

  /** `r` is `t` cut to fewer than `n` characters, and all of it exactly when `ok`. */
  predicate IsCut(r: seq<Byte>, t: seq<Byte>, n: nat, ok: bool) {
    r <= t && (ok <==> |t| < n) && |r| == if ok then |t| else n - 1
  }

  /** It is the longest prefix that is short enough. */
  lemma CutIsLongest(r: seq<Byte>, t: seq<Byte>, n: nat, ok: bool)
    requires 0 < n
    ensures IsCut(r, t, n, ok) <==>
            && r <= t && |r| < n && (forall s: seq<Byte> :: s <= t && |s| < n ==> |s| <= |r|)
            && (ok <==> r == t)
  {
    FitIsCut(t, n);
    assert Fit(t, n) <= t;
  }

  lemma FitIsCut(t: seq<Byte>, n: nat)
    requires 0 < n
    ensures IsCut(Fit(t, n), t, n, |t| < n)
  {
  }

  /** A string that ends before `n`, wherever the rest of the buffer came from. */
  lemma {:induction false} TextOf(data: seq<Byte>, t: seq<Byte>)
    requires t <= data && |t| < |data| && data[|t|] == 0 && 0 !in t
    ensures Text(data) == t
  {
    TerminatedText(t, data[|t| + 1..]);
    assert data == t + [0] + data[|t| + 1..];
    TextIsAll(t);
  }

  lemma {:induction false} TextIsAll(t: seq<Byte>)
    requires 0 !in t
    ensures Text(t) == t
  {
    if t != [] {
      TextIsAll(t[1..]);
    }
  }

  method CiStrLen(s: array<Byte>) returns (length: nat)
    requires 0 in s[..]
    ensures length == |Text(s[..])|
  {
    length := 0;
    while s[length] != 0
      invariant length < s.Length && 0 !in s[..length] && 0 in s[length..]
      decreases s.Length - length
    {
      assert s[length..] == [s[length]] + s[length + 1..];
      length := length + 1;
    }
    TextOf(s[..], s[..length]);
  }

  /** The copying loop and the terminator: `source` goes to `at` in a buffer of `n` bytes as
      far as it fits. `length` is the length of the whole string that was asked for. */
  method CopyFrom(dest: array<Byte>, at: nat, source: array<Byte>, n: nat) returns (ok: bool, length: nat)
    requires dest != source && 0 in source[..]
    requires 1 <= n <= dest.Length && at < dest.Length && 0 !in dest[..at]
    modifies dest
    ensures Text(dest[..]) == Fit(old(dest[..at]) + old(Text(source[..])), n)
    ensures length == at + |old(Text(source[..]))| && ok == (length < n)
  {
    ghost var head, text := dest[..at], Text(source[..]);
    assert |text| < source.Length;
    var i := 0;
    while source[i] != 0
      invariant i <= |text|
      invariant forall j :: 0 <= j < at ==> dest[j] == head[j]
      invariant forall j :: at <= j < at + i && j < n ==> dest[j] == text[j - at]
      decreases |text| - i
    {
      if i + at < n {
        dest[at + i] := source[i];
      }
      i := i + 1;
    }
    assert i == |text|;
    length := at + i;
    ok := length < n;
    dest[if ok then length else n - 1] := 0;
    CopiedText(dest[..], head, text, n);
  }

  lemma CopiedText(data: seq<Byte>, head: seq<Byte>, text: seq<Byte>, n: nat)
    requires 1 <= n <= |data| && 0 !in head && 0 !in text
    requires var end := if |head| + |text| < n then |head| + |text| else n - 1;
             && data[end] == 0
             && (forall j :: 0 <= j < end && j < |head| ==> data[j] == head[j])
             && (forall j :: |head| <= j < end ==> data[j] == text[j - |head|])
    ensures Text(data) == Fit(head + text, n)
  {
    var r := Fit(head + text, n);
    forall j | 0 <= j < |r|
      ensures data[j] == r[j] && r[j] != 0
    {
      assert r[j] == (head + text)[j];
    }
    assert r <= data;
    TextOf(data, r);
  }

  /** Copies `source` into a buffer of `n` bytes, cutting it to fit. */
  method CiStrCpy(dest: array?<Byte>, source: array?<Byte>, n: nat) returns (ok: bool, tried: nat)
    requires source != null ==> 0 in source[..]
    requires dest != null && source != null ==> dest != source && 1 <= n <= dest.Length
    modifies if dest == null then {} else {dest}
    ensures dest == null || source == null ==> !ok
    ensures tried == if source == null then 0 else |old(Text(source[..]))|
    ensures dest != null && source != null ==>
            Text(dest[..]) == Fit(old(Text(source[..])), n) && ok == (tried < n)
    ensures dest != null && source != null ==> IsCut(Text(dest[..]), old(Text(source[..])), n, ok)
    ensures dest != null && source == null ==> dest[..] == old(dest[..])
  {
    if dest == null || source == null {
      if source == null {
        return false, 0;
      }
      tried := CiStrLen(source);
      return false, tried;
    }
    ok, tried := CopyFrom(dest, 0, source, n);
    assert old(dest[..0]) + old(Text(source[..])) == old(Text(source[..]));
    FitIsCut(old(Text(source[..])), n);
  }

  /** Appends `source` to the string in a buffer of `n` bytes, cutting the whole to fit. */
  method CiStrCat(dest: array?<Byte>, source: array?<Byte>, n: nat) returns (ok: bool, tried: nat)
    requires source != null ==> 0 in source[..]
    requires dest != null ==> 0 in dest[..]
    requires dest != null && source != null ==> dest != source && 1 <= n <= dest.Length
    modifies if dest == null then {} else {dest}
    ensures dest == null || source == null ==> !ok
    ensures tried == (if dest == null then 0 else |old(Text(dest[..]))|)
                   + (if source == null then 0 else |old(Text(source[..]))|)
    ensures dest != null && source != null ==>
            Text(dest[..]) == Fit(old(Text(dest[..]) + Text(source[..])), n) && ok == (tried < n)
    ensures dest != null && source != null ==> IsCut(Text(dest[..]), old(Text(dest[..]) + Text(source[..])), n, ok)
    ensures dest != null && source == null ==> dest[..] == old(dest[..])
  {
    if dest == null || source == null {
      tried := 0;
      if dest != null {
        tried := CiStrLen(dest);
      } else if source != null {
        tried := CiStrLen(source);
      }
      return false, tried;
    }
    var at := CiStrLen(dest);
    assert dest[..at] == Text(dest[..]);
    ok, tried := CopyFrom(dest, at, source, n);
    FitIsCut(old(Text(dest[..]) + Text(source[..])), n);
  }

  // ----- Any sequence of calls -----

  function Concat(parts: seq<seq<Byte>>): seq<Byte> {
    if parts == [] then [] else Concat(parts[..|parts| - 1]) + parts[|parts| - 1]
  }

  /** The buffer after a `CiStrCpy` of `first` and a `CiStrCat` of each of `parts`, and
      whether every call reported success. */
  function Build(first: seq<Byte>, parts: seq<seq<Byte>>, n: nat): (r: (seq<Byte>, bool))
    requires 0 < n
    decreases |parts|
  {
    if parts == [] then (Fit(first, n), |first| < n)
    else
      var (text, ok) := Build(first, parts[..|parts| - 1], n);
      var part := parts[|parts| - 1];
      (Fit(text + part, n), ok && |text| + |part| < n)
  }

  /** However often it was cut on the way, the buffer holds the whole concatenation cut to
      fit once, and all calls succeed exactly when nothing had to be cut. */
  lemma {:induction false} BuildIsFitOfConcat(first: seq<Byte>, parts: seq<seq<Byte>>, n: nat)
    requires 0 < n
    ensures var whole := first + Concat(parts);
            Build(first, parts, n) == (Fit(whole, n), |whole| < n)
    decreases |parts|
  {
    if parts == [] {
      assert first + Concat(parts) == first;
    } else {
      var init, last := parts[..|parts| - 1], parts[|parts| - 1];
      BuildIsFitOfConcat(first, init, n);
      CutTwice(first + Concat(init), last, n);
      Associate(first, Concat(init), last);
    }
  }

  lemma Associate(a: seq<Byte>, b: seq<Byte>, c: seq<Byte>)
    ensures a + (b + c) == (a + b) + c
  {
  }

  lemma BuildIsCut(first: seq<Byte>, parts: seq<seq<Byte>>, n: nat)
    requires 0 < n
    ensures var (r, ok) := Build(first, parts, n); IsCut(r, first + Concat(parts), n, ok)
  {
    BuildIsFitOfConcat(first, parts, n);
    FitIsCut(first + Concat(parts), n);
  }

  lemma CutTwice(a: seq<Byte>, b: seq<Byte>, n: nat)
    requires 0 < n
    ensures Fit(Fit(a, n) + b, n) == Fit(a + b, n)
  {
  }

  /** The strings in a sequence of buffers. */
  ghost function Texts(sources: seq<array<Byte>>): (r: seq<seq<Byte>>)
    reads sources
    ensures |r| == |sources| && forall i :: 0 <= i < |r| ==> r[i] == Text(sources[i][..])
  {
    if sources == [] then []
    else Texts(sources[..|sources| - 1]) + [Text(sources[|sources| - 1][..])]
  }

  lemma {:induction false} ShortTextEnds(data: seq<Byte>)
    requires |Text(data)| < |data|
    ensures 0 in data
  {
    if data[0] != 0 {
      ShortTextEnds(data[1..]);
    }
  }

  lemma OneMore(parts: seq<seq<Byte>>, i: nat)
    requires i < |parts|
    ensures parts[..i + 1] == parts[..i] + [parts[i]]
  {
  }

  /** One more part, when the buffer holds what `parts` make of it. */
  method CatNext(dest: array<Byte>, source: array<Byte>, n: nat, ok: bool,
                 ghost head: seq<Byte>, ghost parts: seq<seq<Byte>>)
    returns (still: bool)
    requires dest != source && 0 in source[..] && 0 in dest[..] && 1 <= n <= dest.Length
    requires (Text(dest[..]), ok) == Build(head, parts, n)
    modifies dest
    ensures 0 in dest[..] && (Text(dest[..]), still) == Build(head, parts + [Text(source[..])], n)
  {
    ghost var text, part := Text(dest[..]), Text(source[..]);
    var fits, tried := CiStrCat(dest, source, n);
    still := ok && fits;
    assert (parts + [part])[..|parts|] == parts;
    ShortTextEnds(dest[..]);
  }

  /** Any number of calls of `CiStrCat`, each given the size of the buffer. */
  method CatAll(dest: array<Byte>, rest: seq<array<Byte>>, n: nat, ok: bool, ghost head: seq<Byte>)
    returns (still: bool)
    requires 1 <= n <= dest.Length && dest !in rest && forall s <- rest :: 0 in s[..]
    requires 0 in dest[..] && (Text(dest[..]), ok) == Build(head, [], n)
    modifies dest
    ensures (Text(dest[..]), still) == Build(head, old(Texts(rest)), n)
  {
    ghost var parts := Texts(rest);
    still := ok;
    for i := 0 to |rest|
      invariant 0 in dest[..] && (Text(dest[..]), still) == Build(head, parts[..i], n)
    {
      assert rest[i] in rest && rest[i][..] == old(rest[i][..]);
      OneMore(parts, i);
      still := CatNext(dest, rest[i], n, still, head, parts[..i]);
    }
    assert parts[..|rest|] == parts;
  }

  /** A `CiStrCpy` and then calls of `CiStrCat`. */
  method BuildString(dest: array<Byte>, first: array<Byte>, rest: seq<array<Byte>>, n: nat) returns (ok: bool)
    requires 1 <= n <= dest.Length && dest != first && dest !in rest
    requires 0 in first[..] && forall s <- rest :: 0 in s[..]
    modifies dest
    ensures IsCut(Text(dest[..]), old(Text(first[..]) + Concat(Texts(rest))), n, ok)
  {
    ghost var head, parts := Text(first[..]), Texts(rest);
    var tried;
    ok, tried := CiStrCpy(dest, first, n);
    ShortTextEnds(dest[..]);
    ok := CatAll(dest, rest, n, ok, head);
    BuildIsCut(head, parts, n);
  }
}
