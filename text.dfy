/**
 * The few Python string operations the research assistant relies on:
 * `str.strip()`, `str.split('\n')`, `str.startswith` and `"".join`.
 */
module Text {

  /** Python's `str.isspace()` for one character (ASCII and Unicode whitespace). */
  predicate IsSpace(c: char)
  {
    var n := c as int;
    (9 <= n <= 13) || (28 <= n <= 32) || n == 0x85 || n == 0xA0 || n == 0x1680 ||
    (0x2000 <= n <= 0x200A) || n == 0x2028 || n == 0x2029 || n == 0x202F ||
    n == 0x205F || n == 0x3000
  }

  /** The index of the first non-whitespace character of `s` at or after `i`, or `|s|` when there is none. */
  function SkipSpace(s: string, i: nat): (k: nat)
    requires i <= |s|
    ensures i <= k <= |s|
    decreases |s| - i
  {
    if i < |s| && IsSpace(s[i]) then SkipSpace(s, i + 1) else i
  }

  lemma {:induction false} SkipSpaceSpec(s: string, i: nat)
    requires i <= |s|
    ensures var k := SkipSpace(s, i);
      (forall j :: i <= j < k ==> IsSpace(s[j])) && (k == |s| || !IsSpace(s[k]))
    decreases |s| - i
  {
    if i < |s| && IsSpace(s[i]) {
      SkipSpaceSpec(s, i + 1);
    }
  }

  /** The end of `s[..j]` once its trailing whitespace is dropped. */
  function BackSpace(s: string, j: nat): (k: nat)
    requires j <= |s|
    ensures k <= j
  {
    if j > 0 && IsSpace(s[j - 1]) then BackSpace(s, j - 1) else j
  }

  lemma {:induction false} BackSpaceSpec(s: string, j: nat)
    requires j <= |s|
    ensures var k := BackSpace(s, j);
      (forall m :: k <= m < j ==> IsSpace(s[m])) && (k == 0 || !IsSpace(s[k - 1]))
  {
    if j > 0 && IsSpace(s[j - 1]) {
      BackSpaceSpec(s, j - 1);
    }
  }

  /** `s.lstrip()`. */
  function TrimStart(s: string): string
  {
    s[SkipSpace(s, 0)..]
  }

  /** `lstrip()` drops exactly the longest all-whitespace prefix. */
  lemma TrimStartSpec(s: string)
    ensures var r := TrimStart(s);
      |r| <= |s| && r == s[|s| - |r|..] &&
      (forall i :: 0 <= i < |s| - |r| ==> IsSpace(s[i])) &&
      (r == [] || !IsSpace(r[0]))
  {
    SkipSpaceSpec(s, 0);
  }

  /** `s.rstrip()`. */
  function TrimEnd(s: string): string
  {
    s[..BackSpace(s, |s|)]
  }

  /** `rstrip()` drops exactly the longest all-whitespace suffix. */
  lemma TrimEndSpec(s: string)
    ensures var r := TrimEnd(s);
      |r| <= |s| && r == s[..|r|] &&
      (forall i :: |r| <= i < |s| ==> IsSpace(s[i])) &&
      (r == [] || !IsSpace(r[|r| - 1]))
  {
    BackSpaceSpec(s, |s|);
  }

  /** `s.strip()`. */
  function Strip(s: string): string
  {
    TrimEnd(TrimStart(s))
  }

  /** What `strip()` returns: a slice of `s` cut only at whitespace, with no whitespace at either end. */
  lemma StripSlice(s: string)
    ensures var r, lo := Strip(s), |s| - |TrimStart(s)|;
      0 <= lo && lo + |r| <= |s| && r == s[lo..lo + |r|] &&
      (forall i :: 0 <= i < lo ==> IsSpace(s[i])) &&
      (forall i :: lo + |r| <= i < |s| ==> IsSpace(s[i])) &&
      (r == [] || (!IsSpace(r[0]) && !IsSpace(r[|r| - 1])))
  {
    var t := TrimStart(s);
    var r := TrimEnd(t);
    TrimStartSpec(s);
    TrimEndSpec(t);
    var lo := |s| - |t|;
    assert t == s[lo..];
    assert r == t[..|r|];
    forall i | lo + |r| <= i < |s| ensures IsSpace(s[i]) {
      assert s[i] == t[i - lo];
    }
    if r != [] {
      assert r[0] == t[0];
    }
  }

  /** A string without whitespace at its ends is left alone by `strip()`. */
  lemma StripKeeps(s: string)
    requires s == [] || (!IsSpace(s[0]) && !IsSpace(s[|s| - 1]))
    ensures Strip(s) == s
  {
  }

  /** `strip()` is idempotent. */
  lemma StripIdempotent(s: string)
    ensures Strip(Strip(s)) == Strip(s)
  {
    StripSlice(s);
    StripKeeps(Strip(s));
  }

  /** `s.split('\n')`: the pieces between newline characters; always at least one piece. */
  function SplitLines(s: string): (lines: seq<string>)
    ensures |lines| >= 1
    ensures forall l <- lines :: '\n' !in l
  {
    if s == [] then [""]
    else
      var rest := SplitLines(s[1..]);
      if s[0] == '\n' then [""] + rest
      else [[s[0]] + rest[0]] + rest[1..]
  }

  /** `'\n'.join(lines)`. */
  function JoinLines(lines: seq<string>): string
    requires |lines| >= 1
  {
    if |lines| == 1 then lines[0] else lines[0] + "\n" + JoinLines(lines[1..])
  }

  /** Splitting on newlines loses nothing: joining the pieces gives back the text. */
  lemma {:induction false} JoinSplit(s: string)
    ensures JoinLines(SplitLines(s)) == s
  {
    if s != [] {
      var rest := SplitLines(s[1..]);
      JoinSplit(s[1..]);
      if s[0] == '\n' {
        assert SplitLines(s) == [""] + rest;
        assert JoinLines([""] + rest) == "" + "\n" + JoinLines(rest);
        assert s == "\n" + s[1..];
      } else {
        var lines := [[s[0]] + rest[0]] + rest[1..];
        assert SplitLines(s) == lines;
        if |rest| == 1 {
          assert JoinLines(lines) == [s[0]] + rest[0];
          assert s == [s[0]] + s[1..];
        } else {
          assert lines[1..] == rest[1..];
          assert JoinLines(rest) == rest[0] + "\n" + JoinLines(rest[1..]);
          assert JoinLines(lines) == [s[0]] + rest[0] + "\n" + JoinLines(rest[1..]);
          assert s == [s[0]] + s[1..];
        }
      }
    }
  }

  /** A piece without a newline is glued to the first piece of what follows it. */
  lemma {:induction false} SplitPrefix(l: string, t: string)
    requires '\n' !in l
    ensures SplitLines(l + t) == [l + SplitLines(t)[0]] + SplitLines(t)[1..]
  {
    if l != [] {
      assert (l + t)[1..] == l[1..] + t;
      assert (l + t)[0] == l[0];
      SplitPrefix(l[1..], t);
      assert [l[0]] + (l[1..] + SplitLines(t)[0]) == l + SplitLines(t)[0];
    } else {
      var rest := SplitLines(t);
      assert l + t == t && l + rest[0] == rest[0];
      assert [rest[0]] + rest[1..] == rest;
    }
  }

  /** Joining newline-free pieces and splitting again gives back the pieces. */
  lemma {:induction false} SplitJoin(lines: seq<string>)
    requires |lines| >= 1
    requires forall l <- lines :: '\n' !in l
    ensures SplitLines(JoinLines(lines)) == lines
  {
    if |lines| == 1 {
      SplitPrefix(lines[0], "");
      assert lines[0] + "" == lines[0];
    } else {
      var t := JoinLines(lines[1..]);
      SplitJoin(lines[1..]);
      assert "\n" + t != [] && ("\n" + t)[0] == '\n' && ("\n" + t)[1..] == t;
      assert SplitLines("\n" + t) == [""] + lines[1..];
      SplitPrefix(lines[0], "\n" + t);
      assert lines[0] + "\n" + t == lines[0] + ("\n" + t);
      assert lines[0] + "" == lines[0];
    }
  }

  /** `s.startswith(p)`. */
  predicate StartsWith(s: string, p: string)
  {
    |p| <= |s| && s[..|p|] == p
  }

  /** `str(i)` for a single decimal digit `i`. */
  function DigitText(i: int): (t: string)
    requires 0 <= i <= 9
    ensures |t| == 1 && '0' <= t[0] <= '9'
  {
    [('0' as int + i) as char]
  }

  /** `any(t.startswith(str(i)) for i in range(from, 10))`. */
  predicate StartsWithDigitFrom(t: string, from: int)
    requires 0 <= from <= 10
    decreases 10 - from
  {
    from < 10 && (StartsWith(t, DigitText(from)) || StartsWithDigitFrom(t, from + 1))
  }

  /** The list-marker test `any(t.startswith(str(i)) for i in range(1, 10))`. */
  predicate IsListMarker(t: string)
  {
    StartsWithDigitFrom(t, 1)
  }

  lemma {:induction false} StartsWithDigitFromIff(t: string, from: int)
    requires 0 <= from <= 10
    ensures StartsWithDigitFrom(t, from) <==> |t| > 0 && '0' as int + from <= t[0] as int <= '9' as int
    decreases 10 - from
  {
    if from < 10 {
      StartsWithDigitFromIff(t, from + 1);
      assert StartsWith(t, DigitText(from)) <==> |t| > 0 && t[0] as int == '0' as int + from;
    }
  }

  /** The list-marker test holds exactly when the first character is one of '1'..'9'. */
  lemma ListMarkerIff(t: string)
    ensures IsListMarker(t) <==> |t| > 0 && '1' <= t[0] <= '9'
  {
    StartsWithDigitFromIff(t, 1);
  }

  /** `"".join(parts)`. */
  function Concat(parts: seq<string>): string
  {
    if parts == [] then "" else parts[0] + Concat(parts[1..])
  }

  /** Joining is compatible with appending one more part. */
  lemma {:induction false} ConcatAppend(parts: seq<string>, p: string)
    ensures Concat(parts + [p]) == Concat(parts) + p
  {
    if parts != [] {
      assert (parts + [p])[1..] == parts[1..] + [p];
      ConcatAppend(parts[1..], p);
    } else {
      assert Concat([p]) == p + Concat([]);
    }
  }
}
