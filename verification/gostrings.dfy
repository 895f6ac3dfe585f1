/**
 * The two functions of Go's `strings` package that the dispatcher relies on:
 * `strings.Split` with a one-character separator (empty fields are kept) and
 * `strings.TrimSpace`. Strings are sequences of Unicode scalar values; the
 * UTF-8 decoding Go performs on raw bytes is not modelled.
 */
module GoStrings {

  /** The Unicode White_Space property, which Go's `unicode.IsSpace` tests. */
  const WhiteSpace: set<char> := {
    '\t', '\n', '\U{000B}', '\U{000C}', '\r', ' ', '\U{0085}', '\U{00A0}', '\U{1680}',
    '\U{2000}', '\U{2001}', '\U{2002}', '\U{2003}', '\U{2004}', '\U{2005}',
    '\U{2006}', '\U{2007}', '\U{2008}', '\U{2009}', '\U{200A}',
    '\U{2028}', '\U{2029}', '\U{202F}', '\U{205F}', '\U{3000}'
  }

  predicate IsSpace(c: char) {
    c in WhiteSpace
  }

  predicate AllSpace(s: string) {
    forall i :: 0 <= i < |s| ==> IsSpace(s[i])
  }

  /** Neither starts nor ends with white space. */
  predicate Bare(s: string) {
    s == [] || (!IsSpace(s[0]) && !IsSpace(s[|s| - 1]))
  }

  lemma AllSpaceConcat(a: string, b: string)
    ensures AllSpace(a + b) <==> AllSpace(a) && AllSpace(b)
  {
    if AllSpace(a) && AllSpace(b) {
      forall k | 0 <= k < |a + b| ensures IsSpace((a + b)[k]) {
        if k < |a| { assert (a + b)[k] == a[k]; } else { assert (a + b)[k] == b[k - |a|]; }
      }
    }
    if AllSpace(a + b) {
      forall k | 0 <= k < |a| ensures IsSpace(a[k]) { assert (a + b)[k] == a[k]; }
      forall k | 0 <= k < |b| ensures IsSpace(b[k]) { assert (a + b)[|a| + k] == b[k]; }
    }
  }

  /** Number of white-space characters `s` starts with. */
  function LeadingSpaces(s: string): (n: nat)
    ensures n <= |s|
    ensures forall i :: 0 <= i < n ==> IsSpace(s[i])
    ensures n < |s| ==> !IsSpace(s[n])
  {
    if |s| > 0 && IsSpace(s[0]) then
      var n := 1 + LeadingSpaces(s[1..]);
      assert forall i :: 1 <= i < n ==> s[i] == s[1..][i - 1];
      n
    else 0
  }

  /** Number of white-space characters `s` ends with. */
  function TrailingSpaces(s: string): (n: nat)
    ensures n <= |s|
    ensures forall i :: |s| - n <= i < |s| ==> IsSpace(s[i])
    ensures n < |s| ==> !IsSpace(s[|s| - 1 - n])
  {
    if |s| > 0 && IsSpace(s[|s| - 1]) then
      var n := 1 + TrailingSpaces(s[..|s| - 1]);
      assert forall i :: |s| - n <= i < |s| - 1 ==> s[i] == s[..|s| - 1][i];
      n
    else 0
  }

  /** Drops the leading white space: the result is the longest suffix that starts with a non-space. */
  function TrimLeftSpace(s: string): (r: string)
    ensures |r| <= |s| && r == s[|s| - |r|..]
    ensures AllSpace(s[..|s| - |r|])
    ensures r == [] || !IsSpace(r[0])
  {
    s[LeadingSpaces(s)..]
  }

  /** Drops the trailing white space: the result is the longest prefix that ends with a non-space. */
  function TrimRightSpace(s: string): (r: string)
    ensures |r| <= |s| && r == s[..|r|]
    ensures AllSpace(s[|r|..])
    ensures r == [] || !IsSpace(r[|r| - 1])
  {
    s[..|s| - TrailingSpaces(s)]
  }

  /** `r` is an infix of `s` and everything around it is white space. */
  ghost predicate CutFrom(s: string, r: string) {
    exists i :: 0 <= i <= |s| - |r| && r == s[i..i + |r|] && AllSpace(s[..i]) && AllSpace(s[i + |r|..])
  }

  /** Go's `strings.TrimSpace`: cuts the leading and the trailing white space. */
  function TrimSpace(s: string): (r: string)
    ensures |r| <= |s|
    ensures Bare(r)
  {
    TrimRightSpace(TrimLeftSpace(s))
  }

  /**
   * What TrimSpace keeps: a bare infix of `s` such that everything cut away
   * on either side is white space; it is empty exactly when `s` is all
   * white space.
   */
  lemma TrimSpaceShape(s: string)
    ensures var r := TrimSpace(s);
      && CutFrom(s, r)
      && (r == [] <==> AllSpace(s))
  {
    var left := TrimLeftSpace(s);
    var r := TrimSpace(s);
    assert r == TrimRightSpace(left);
    assert r == [] || !IsSpace(r[0]) by {
      if r != [] { assert r[0] == left[0]; }
    }
    CutShape(s, left, r);
  }

  /** A bare-headed core cut out of `s` by removing white space on both sides. */
  lemma CutShape(s: string, left: string, r: string)
    requires |left| <= |s| && left == s[|s| - |left|..] && AllSpace(s[..|s| - |left|])
    requires |r| <= |left| && r == left[..|r|] && AllSpace(left[|r|..])
    requires r == [] || !IsSpace(r[0])
    ensures CutFrom(s, r)
    ensures r == [] <==> AllSpace(s)
  {
    var i := |s| - |left|;
    var lead, trail := s[..i], left[|r|..];
    assert s == lead + left;
    assert left == r + trail;
    assert s[i..i + |r|] == r && s[i + |r|..] == trail;
    AllSpaceConcat(r, trail);
    AllSpaceConcat(lead, left);
  }

  lemma {:induction false} TrimLeftPadded(pad: string, rest: string)
    requires AllSpace(pad)
    requires rest == [] || !IsSpace(rest[0])
    ensures TrimLeftSpace(pad + rest) == rest
    decreases |pad|
  {
    if pad == [] {
      assert pad + rest == rest;
    } else {
      assert (pad + rest)[0] == pad[0];
      assert (pad + rest)[1..] == pad[1..] + rest;
      TrimLeftPadded(pad[1..], rest);
    }
  }

  lemma {:induction false} TrimRightPadded(rest: string, pad: string)
    requires AllSpace(pad)
    requires rest == [] || !IsSpace(rest[|rest| - 1])
    ensures TrimRightSpace(rest + pad) == rest
    decreases |pad|
  {
    if pad == [] {
      assert rest + pad == rest;
    } else {
      var s := rest + pad;
      assert s[|s| - 1] == pad[|pad| - 1];
      assert s[..|s| - 1] == rest + pad[..|pad| - 1];
      TrimRightPadded(rest, pad[..|pad| - 1]);
    }
  }

  /**
   * TrimSpace undoes any white-space padding of a bare string: a root path
   * printed with a trailing newline comes back exactly.
   */
  lemma {:induction false} TrimSpacePadded(lead: string, core: string, trail: string)
    requires AllSpace(lead) && AllSpace(trail)
    requires Bare(core)
    ensures TrimSpace(lead + core + trail) == core
  {
    var s := lead + core + trail;
    assert s == lead + (core + trail);
    if core == [] {
      assert core + trail == trail;
      assert AllSpace(s) by {
        forall k | 0 <= k < |s| ensures IsSpace(s[k]) {
          if k < |lead| { assert s[k] == lead[k]; } else { assert s[k] == trail[k - |lead|]; }
        }
      }
    } else {
      assert (core + trail)[0] == core[0];
      TrimLeftPadded(lead, core + trail);
      TrimRightPadded(core, trail);
    }
  }

  /** Trimming twice is trimming once. */
  lemma TrimSpaceIdempotent(s: string)
    ensures TrimSpace(TrimSpace(s)) == TrimSpace(s)
  {
    var r := TrimSpace(s);
    assert TrimLeftSpace(r) == r;
    assert TrimRightSpace(r) == r;
  }

  /** Number of occurrences of `c` in `s`. */
  function Count(s: string, c: char): nat {
    if s == [] then 0 else (if s[0] == c then 1 else 0) + Count(s[1..], c)
  }

  lemma {:induction false} CountPositive(s: string, c: char)
    ensures c in s <==> Count(s, c) > 0
  {
    if s != [] {
      CountPositive(s[1..], c);
      assert c in s <==> s[0] == c || c in s[1..] by {
        assert s == [s[0]] + s[1..];
      }
    }
  }

  /**
   * Go's `strings.Split(s, sep)` for a one-character separator: one field
   * per separator plus one, no field contains the separator, and empty
   * fields are kept.
   */
  function Split(s: string, sep: char): (fields: seq<string>)
    ensures |fields| == Count(s, sep) + 1
    ensures forall k :: 0 <= k < |fields| ==> sep !in fields[k]
  {
    if s == [] then [""]
    else
      var rest := Split(s[1..], sep);
      if s[0] == sep then [""] + rest
      else [[s[0]] + rest[0]] + rest[1..]
  }

  /** Go's `strings.Join`. */
  function Join(fields: seq<string>, sep: char): string {
    if |fields| == 0 then ""
    else if |fields| == 1 then fields[0]
    else fields[0] + [sep] + Join(fields[1..], sep)
  }

  /** Joining the fields of a split with the same separator gives back the input. */
  lemma {:induction false} JoinSplit(s: string, sep: char)
    ensures Join(Split(s, sep), sep) == s
  {
    if s != [] {
      var rest := Split(s[1..], sep);
      JoinSplit(s[1..], sep);
      if s[0] == sep {
        assert ([""] + rest)[1..] == rest;
      } else {
        var fields := [[s[0]] + rest[0]] + rest[1..];
        assert fields[1..] == rest[1..];
        if |rest| == 1 {
          assert Join(rest, sep) == rest[0];
        } else {
          assert Join(rest, sep) == rest[0] + [sep] + Join(rest[1..], sep);
        }
      }
    }
  }

  lemma {:induction false} SplitFreePrefix(f: string, t: string, sep: char)
    requires sep !in f
    ensures Split(f + t, sep) == [f + Split(t, sep)[0]] + Split(t, sep)[1..]
    decreases |f|
  {
    if f == [] {
      assert f + t == t;
      var fs := Split(t, sep);
      assert f + fs[0] == fs[0];
      assert [f + fs[0]] + fs[1..] == fs;
    } else {
      var s := f + t;
      assert s[0] == f[0];
      assert s[1..] == f[1..] + t;
      SplitFreePrefix(f[1..], t, sep);
      assert [f[0]] + (f[1..] + Split(t, sep)[0]) == f + Split(t, sep)[0];
    }
  }

  /** Splitting a join of separator-free fields gives back the fields. */
  lemma {:induction false} SplitJoin(fields: seq<string>, sep: char)
    requires |fields| >= 1
    requires forall k :: 0 <= k < |fields| ==> sep !in fields[k]
    ensures Split(Join(fields, sep), sep) == fields
  {
    if |fields| == 1 {
      SplitFreePrefix(fields[0], [], sep);
      assert fields[0] + [] == fields[0];
      assert [fields[0] + ""] == fields;
    } else {
      var tail := Join(fields[1..], sep);
      SplitJoin(fields[1..], sep);
      var t := [sep] + tail;
      assert t[0] == sep && t[1..] == tail;
      assert Split(t, sep) == [""] + fields[1..];
      SplitFreePrefix(fields[0], t, sep);
      assert fields[0] + [sep] + tail == fields[0] + t;
      assert fields[0] + "" == fields[0];
      assert [fields[0] + ""] + fields[1..] == fields;
    }
  }
}
