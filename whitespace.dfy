/**
 * Python's `str.strip()` with no argument: removes every leading and
 * trailing whitespace character, where whitespace is what `str.isspace`
 * accepts.
 */
module Whitespace {

  /** The code points for which Python's `str.isspace` is true. */
  predicate IsSpace(c: char) {
    var n := c as int;
    || (0x09 <= n <= 0x0D)
    || (0x1C <= n <= 0x20)
    || n == 0x85
    || n == 0xA0
    || n == 0x1680
    || (0x2000 <= n <= 0x200A)
    || n == 0x2028
    || n == 0x2029
    || n == 0x202F
    || n == 0x205F
    || n == 0x3000
  }

  predicate AllSpace(s: string) {
    forall i :: 0 <= i < |s| ==> IsSpace(s[i])
  }

  /** Neither the first nor the last character is whitespace. */
  predicate NoSurroundingSpace(s: string) {
    s == [] || (!IsSpace(s[0]) && !IsSpace(s[|s| - 1]))
  }

  /** `name` is what is left of `raw` once whitespace runs at both ends are cut off. */
  ghost predicate StrippedFrom(raw: string, name: string) {
    && NoSurroundingSpace(name)
    && exists front, back :: AllSpace(front) && AllSpace(back) && raw == front + name + back
  }

  /** Drops the leading whitespace: the result is the longest suffix not starting with whitespace. */
  function TrimStart(s: string): (r: string)
    ensures |r| <= |s| && r == s[|s| - |r|..]
    ensures forall i :: 0 <= i < |s| - |r| ==> IsSpace(s[i])
    ensures r == [] || !IsSpace(r[0])
  {
    if |s| > 0 && IsSpace(s[0]) then TrimStart(s[1..]) else s
  }

  /** Drops the trailing whitespace: the result is the longest prefix not ending with whitespace. */
  function TrimEnd(s: string): (r: string)
    ensures |r| <= |s| && r == s[..|r|]
    ensures forall i :: |r| <= i < |s| ==> IsSpace(s[i])
    ensures r == [] || !IsSpace(r[|r| - 1])
  {
    if |s| > 0 && IsSpace(s[|s| - 1]) then TrimEnd(s[..|s| - 1]) else s
  }

  /** `s.strip()` */
  function Strip(s: string): (r: string)
    ensures |r| <= |s|
    ensures NoSurroundingSpace(r)
  {
    var tail := TrimStart(s);
    var r := TrimEnd(tail);
    assert r == [] || r[0] == tail[0];
    r
  }

  /** The stripped name is a contiguous piece of the raw one, with only whitespace cut off around it. */
  lemma StripDecomposes(s: string)
    ensures StrippedFrom(s, Strip(s))
  {
    var tail := TrimStart(s);
    var r := TrimEnd(tail);
    FrontIsSpace(s, tail);
    BackIsSpace(tail, r);
    SuffixThenPrefix(s, tail, r);
    StrippedFromWitness(s, s[..|s| - |tail|], r, tail[|r|..]);
  }

  /** A prefix `r` of a suffix `tail` of `s` splits `s` into three pieces. */
  lemma SuffixThenPrefix(s: string, tail: string, r: string)
    requires |tail| <= |s| && tail == s[|s| - |tail|..]
    requires |r| <= |tail| && r == tail[..|r|]
    ensures s == s[..|s| - |tail|] + r + tail[|r|..]
  {
    assert tail == r + tail[|r|..];
    assert s == s[..|s| - |tail|] + tail;
  }

  lemma StrippedFromWitness(s: string, front: string, name: string, back: string)
    requires AllSpace(front) && AllSpace(back) && NoSurroundingSpace(name)
    requires s == front + name + back
    ensures StrippedFrom(s, name)
  {
  }

  lemma FrontIsSpace(s: string, tail: string)
    requires tail == TrimStart(s)
    ensures AllSpace(s[..|s| - |tail|])
  {
  }

  lemma BackIsSpace(tail: string, r: string)
    requires r == TrimEnd(tail)
    ensures AllSpace(tail[|r|..])
  {
    var back := tail[|r|..];
    forall i | 0 <= i < |back| ensures IsSpace(back[i]) {
      assert back[i] == tail[|r| + i];
    }
  }

  lemma {:induction false} TrimStartSkipsSpace(front: string, rest: string)
    requires AllSpace(front)
    requires rest == [] || !IsSpace(rest[0])
    ensures TrimStart(front + rest) == rest
  {
    if front != [] {
      assert (front + rest)[1..] == front[1..] + rest;
      TrimStartSkipsSpace(front[1..], rest);
    }
  }

  lemma {:induction false} TrimEndSkipsSpace(rest: string, back: string)
    requires AllSpace(back)
    requires rest == [] || !IsSpace(rest[|rest| - 1])
    ensures TrimEnd(rest + back) == rest
  {
    if back != [] {
      var s := rest + back;
      assert s[..|s| - 1] == rest + back[..|back| - 1];
      TrimEndSkipsSpace(rest, back[..|back| - 1]);
    }
  }

  /**
   * Strip is the only way to cut whitespace off both ends so that no
   * whitespace is left at either end: together with StripDecomposes this
   * determines Strip completely.
   */
  lemma StripUnique(raw: string, name: string)
    requires StrippedFrom(raw, name)
    ensures Strip(raw) == name
  {
    var front, back :| AllSpace(front) && AllSpace(back) && raw == front + name + back;
    if name == [] {
      assert raw == front + back;
      assert AllSpace(front + back);
      TrimStartSkipsSpace(front + back, []);
      assert TrimStart(raw) == [];
    } else {
      assert raw == front + (name + back);
      TrimStartSkipsSpace(front, name + back);
      TrimEndSkipsSpace(name, back);
    }
  }

  /** A name is left alone by Strip exactly when it has no surrounding whitespace. */
  lemma StripFixedPoint(s: string)
    ensures Strip(s) == s <==> NoSurroundingSpace(s)
  {
    if NoSurroundingSpace(s) {
      var none: string := [];
      assert AllSpace(none) && s == none + s + none;
      StripUnique(s, s);
    }
  }

  /** Stripping a second time changes nothing. */
  lemma StripIdempotent(s: string)
    ensures Strip(Strip(s)) == Strip(s)
  {
    StripFixedPoint(Strip(s));
  }
}
