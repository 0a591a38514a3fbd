/** The string operations the components use: `trim`, `split` on one
    character and `join`. Strings are sequences of code points. */
module Text {

  /** The characters `String.prototype.trim` removes: ECMAScript WhiteSpace
      and LineTerminator code points. */
  predicate IsSpace(c: char) {
    var n := c as int;
    (0x09 <= n <= 0x0D) || n == 0x20 || n == 0xA0 || n == 0x1680 ||
    (0x2000 <= n <= 0x200A) || n == 0x2028 || n == 0x2029 || n == 0x202F ||
    n == 0x205F || n == 0x3000 || n == 0xFEFF
  }

  /** Neither end of `s` is whitespace. */
  predicate IsTrimmed(s: string) {
    |s| == 0 || (!IsSpace(s[0]) && !IsSpace(s[|s| - 1]))
  }

  /** Every character of `s` is whitespace (so `s.trim()` is falsy). */
  predicate IsBlank(s: string) {
    forall i :: 0 <= i < |s| ==> IsSpace(s[i])
  }

  /** `s` with its leading whitespace removed. */
  function TrimStart(s: string): (r: string)
    ensures |r| <= |s| && r == s[|s| - |r|..]
    ensures forall i :: 0 <= i < |s| - |r| ==> IsSpace(s[i])
    ensures |r| == 0 || !IsSpace(r[0])
  {
    if |s| > 0 && IsSpace(s[0]) then TrimStart(s[1..]) else s
  }

  /** `s` with its trailing whitespace removed. */
  function TrimEnd(s: string): (r: string)
    ensures |r| <= |s| && r == s[..|r|]
    ensures forall i :: |r| <= i < |s| ==> IsSpace(s[i])
    ensures |r| == 0 || !IsSpace(r[|r| - 1])
  {
    if |s| > 0 && IsSpace(s[|s| - 1]) then TrimEnd(s[..|s| - 1]) else s
  }

  /** `String.prototype.trim`. */
  function Trim(s: string): (r: string)
    ensures IsTrimmed(r)
    ensures |r| <= |s|
    ensures r == "" <==> IsBlank(s)
  {
    var t := TrimStart(s);
    var r := TrimEnd(t);
    assert |r| > 0 ==> r[0] == t[0];
    assert r == "" ==> t == "";
    r
  }

  /** `s.trim()` is `s` with a whitespace prefix and a whitespace suffix cut off. */
  lemma TrimCutsEnds(s: string)
    ensures exists a, b ::
      && 0 <= a <= b <= |s| && Trim(s) == s[a..b]
      && (forall k :: 0 <= k < a ==> IsSpace(s[k]))
      && (forall k :: b <= k < |s| ==> IsSpace(s[k]))
  {
    var t := TrimStart(s);
    SliceBetweenSpaces(s, t, TrimEnd(t));
  }

  /** Cutting a whitespace prefix off `s`, giving `t`, and then a whitespace
      suffix off `t`, giving `r`, cuts `r` out of the middle of `s`. */
  lemma SliceBetweenSpaces(s: string, t: string, r: string)
    requires |t| <= |s| && t == s[|s| - |t|..] && forall i :: 0 <= i < |s| - |t| ==> IsSpace(s[i])
    requires |r| <= |t| && r == t[..|r|] && forall i :: |r| <= i < |t| ==> IsSpace(t[i])
    ensures exists a, b ::
      && 0 <= a <= b <= |s| && r == s[a..b]
      && (forall k :: 0 <= k < a ==> IsSpace(s[k]))
      && (forall k :: b <= k < |s| ==> IsSpace(s[k]))
  {
    var a, b := |s| - |t|, |s| - |t| + |r|;
    assert r == s[a..b];
    forall k | b <= k < |s|
      ensures IsSpace(s[k])
    {
      assert s[k] == t[k - a];
    }
  }

  /** Trimming a string that is already trimmed changes nothing. */
  lemma TrimTrimmed(s: string)
    requires IsTrimmed(s)
    ensures Trim(s) == s
  {
    assert TrimStart(s) == s;
  }

  /** Trimming is idempotent. */
  lemma TrimIdempotent(s: string)
    ensures Trim(Trim(s)) == Trim(s)
  {
    TrimTrimmed(Trim(s));
  }

  /** A space put in front of a trimmed string is trimmed away again. */
  lemma TrimAfterSpace(t: string)
    requires IsTrimmed(t)
    ensures Trim(" " + t) == t
  {
    assert (" " + t)[1..] == t;
    assert TrimStart(" " + t) == TrimStart(t);
    TrimTrimmed(t);
  }

  /** A space put after a non-empty trimmed string is trimmed away again. */
  lemma TrimBeforeSpace(t: string)
    requires IsTrimmed(t) && t != ""
    ensures Trim(t + " ") == t
  {
    var s := t + " ";
    assert s[0] == t[0];
    assert TrimStart(s) == s;
    assert s[..|s| - 1] == t;
    assert TrimEnd(s) == TrimEnd(t);
    assert TrimEnd(t) == t;
  }

  /** `s.split(c)`: the pieces between occurrences of `c`, at least one. */
  function Split(s: string, c: char): (r: seq<string>)
    ensures |r| >= 1
    ensures forall i :: 0 <= i < |r| ==> c !in r[i]
  {
    if |s| == 0 then [""]
    else
      var rest := Split(s[1..], c);
      if s[0] == c then [""] + rest
      else [[s[0]] + rest[0]] + rest[1..]
  }

  /** `xs.join(sep)`. */
  function Join(xs: seq<string>, sep: string): string {
    if |xs| == 0 then ""
    else if |xs| == 1 then xs[0]
    else xs[0] + sep + Join(xs[1..], sep)
  }

  /** A piece without the separator, followed by the separator, splits off as one piece. */
  lemma {:induction false} SplitPiece(x: string, c: char, t: string)
    requires c !in x
    ensures Split(x + [c] + t, c) == [x] + Split(t, c)
  {
    if |x| == 0 {
      assert x + [c] + t == [c] + t;
      assert ([c] + t)[1..] == t;
    } else {
      var s := x + [c] + t;
      assert s[0] == x[0];
      assert s[1..] == x[1..] + [c] + t;
      SplitPiece(x[1..], c, t);
      assert [x[0]] + x[1..] == x;
    }
  }

  /** A string without the separator splits into itself. */
  lemma {:induction false} SplitNone(x: string, c: char)
    requires c !in x
    ensures Split(x, c) == [x]
  {
    if |x| > 0 {
      SplitNone(x[1..], c);
      assert [x[0]] + x[1..] == x;
    }
  }

  /** Splitting undoes joining when no piece contains the separator. */
  lemma {:induction false} SplitJoin(xs: seq<string>, c: char)
    requires |xs| >= 1
    requires forall i :: 0 <= i < |xs| ==> c !in xs[i]
    ensures Split(Join(xs, [c]), c) == xs
  {
    if |xs| == 1 {
      SplitNone(xs[0], c);
    } else {
      SplitJoin(xs[1..], c);
      SplitPiece(xs[0], c, Join(xs[1..], [c]));
      assert [xs[0]] + xs[1..] == xs;
    }
  }

  /** A leading space joins the first piece. */
  lemma SplitAfterSpace(s: string, c: char)
    requires c != ' '
    ensures Split(" " + s, c) == [" " + Split(s, c)[0]] + Split(s, c)[1..]
  {
    assert (" " + s)[1..] == s;
  }

  /** Splitting a list joined with `c` and a space gives the pieces back,
      every piece after the first with the space in front. */
  lemma {:induction false} SplitJoinSpaced(xs: seq<string>, c: char)
    requires |xs| >= 1 && c != ' '
    requires forall i :: 0 <= i < |xs| ==> c !in xs[i]
    ensures |Split(Join(xs, [c, ' ']), c)| == |xs|
    ensures Split(Join(xs, [c, ' ']), c)[0] == xs[0]
    ensures forall i :: 1 <= i < |xs| ==> Split(Join(xs, [c, ' ']), c)[i] == " " + xs[i]
  {
    if |xs| == 1 {
      SplitNone(xs[0], c);
    } else {
      var rest := Join(xs[1..], [c, ' ']);
      assert Join(xs, [c, ' ']) == xs[0] + [c] + (" " + rest);
      SplitPiece(xs[0], c, " " + rest);
      SplitAfterSpace(rest, c);
      SplitJoinSpaced(xs[1..], c);
    }
  }
}
