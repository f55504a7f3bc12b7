/** The Python `str` operations the launcher relies on: `startswith`, `replace`,
    `split` with an explicit separator, `join`, `strip`, and POSIX `os.path.join`. */
module Text {

  /** `s.startswith(p)`. */
  predicate StartsWith(s: string, p: string)
  {
    |p| <= |s| && s[..|p|] == p
  }

  /** `k in s` for strings: `k` occurs in `s` as a contiguous substring. */
  predicate Occurs(k: string, s: string)
    decreases |s|
  {
    StartsWith(s, k) || (s != [] && Occurs(k, s[1..]))
  }

  /** `s.replace(key, value)`: every non-overlapping occurrence of `key`, scanning
      from the left, is replaced by `value`. */
  function Replace(s: string, key: string, value: string): (r: string)
    requires key != []
    ensures !Occurs(key, s) ==> r == s
    decreases |s|
  {
    if StartsWith(s, key) then value + Replace(s[|key|..], key, value)
    else if s == [] then []
    else [s[0]] + Replace(s[1..], key, value)
  }

  /** A key whose first character is absent from `s` does not occur in it. */
  lemma {:induction false} FirstCharAbsent(k: string, s: string)
    requires k != []
    ensures k[0] !in s ==> !Occurs(k, s)
    decreases |s|
  {
    if s != [] && k[0] !in s {
      assert s[0] in s;
      assert forall c :: c in s[1..] ==> c in s;
      FirstCharAbsent(k, s[1..]);
    }
  }

  /** `s.split(sep)` with an explicit separator: the pieces between non-overlapping
      occurrences of `sep`, scanning from the left; never an empty list. */
  function Split(s: string, sep: string): (parts: seq<string>)
    requires sep != []
    ensures |parts| >= 1
    decreases |s|
  {
    if StartsWith(s, sep) then [[]] + Split(s[|sep|..], sep)
    else if s == [] then [[]]
    else
      var rest := Split(s[1..], sep);
      [[s[0]] + rest[0]] + rest[1..]
  }

  /** The pieces of a split hold no separator, and the first piece is where `s`
      begins. */
  lemma {:induction false} SplitPieces(s: string, sep: string)
    requires sep != []
    ensures var parts := Split(s, sep);
      && |parts[0]| <= |s| && s[..|parts[0]|] == parts[0]
      && forall i :: 0 <= i < |parts| ==> !Occurs(sep, parts[i])
    decreases |s|
  {
    var parts := Split(s, sep);
    if StartsWith(s, sep) {
      var rest := Split(s[|sep|..], sep);
      SplitPieces(s[|sep|..], sep);
      assert forall i :: 1 <= i < |parts| ==> parts[i] == rest[i - 1];
    } else if s != [] {
      var rest := Split(s[1..], sep);
      SplitPieces(s[1..], sep);
      var piece := [s[0]] + rest[0];
      assert parts == [piece] + rest[1..];
      assert piece[1..] == rest[0];
      assert piece == s[..|piece|];
      assert forall i :: 1 <= i < |parts| ==> parts[i] == rest[i];
    }
  }

  /** `sep.join(parts)`. */
  function Join(sep: string, parts: seq<string>): string
  {
    if |parts| == 0 then []
    else if |parts| == 1 then parts[0]
    else parts[0] + sep + Join(sep, parts[1..])
  }

  /** A join of no parts is empty; otherwise it starts with the first part and ends
      with the last. */
  lemma {:induction false} JoinEnds(sep: string, parts: seq<string>)
    ensures parts == [] ==> Join(sep, parts) == []
    ensures parts != [] ==> StartsWith(Join(sep, parts), parts[0])
    ensures parts != [] ==> var r, last := Join(sep, parts), parts[|parts| - 1];
      |last| <= |r| && r[|r| - |last|..] == last
  {
    if |parts| > 1 {
      JoinEnds(sep, parts[1..]);
      var rest := Join(sep, parts[1..]);
      assert Join(sep, parts) == (parts[0] + sep) + rest;
      assert parts[1..][|parts[1..]| - 1] == parts[|parts| - 1];
    }
  }

  lemma {:induction false} JoinConsChar(sep: string, c: char, parts: seq<string>)
    requires |parts| >= 1
    ensures Join(sep, [[c] + parts[0]] + parts[1..]) == [c] + Join(sep, parts)
  {
    var q := [[c] + parts[0]] + parts[1..];
    assert q[1..] == parts[1..];
    if |parts| > 1 {
      calc {
        Join(sep, q);
        ([c] + parts[0]) + sep + Join(sep, parts[1..]);
        [c] + (parts[0] + sep + Join(sep, parts[1..]));
      }
    }
  }

  lemma JoinConsEmpty(sep: string, parts: seq<string>)
    requires |parts| >= 1
    ensures Join(sep, [[]] + parts) == sep + Join(sep, parts)
  {
    assert ([[]] + parts)[1..] == parts;
  }

  /** Python's `s.replace(k, v)` is `v.join(s.split(k))`: the scanning replacement
      agrees with splitting on the key and joining with the value. */
  lemma {:induction false} ReplaceIsJoinOfSplit(s: string, key: string, value: string)
    requires key != []
    ensures Replace(s, key, value) == Join(value, Split(s, key))
    decreases |s|
  {
    if StartsWith(s, key) {
      var rest := Split(s[|key|..], key);
      ReplaceIsJoinOfSplit(s[|key|..], key, value);
      JoinConsEmpty(value, rest);
    } else if s != [] {
      var rest := Split(s[1..], key);
      ReplaceIsJoinOfSplit(s[1..], key, value);
      JoinConsChar(value, s[0], rest);
    }
  }

  /** Replacing a key by itself changes nothing. */
  lemma {:induction false} ReplaceSelf(s: string, key: string)
    requires key != []
    ensures Replace(s, key, key) == s
    decreases |s|
  {
    if StartsWith(s, key) {
      ReplaceSelf(s[|key|..], key);
      assert s == key + s[|key|..];
    } else if s != [] {
      ReplaceSelf(s[1..], key);
      assert s == [s[0]] + s[1..];
    }
  }

  /** Splitting and joining again with the same separator gives back the string. */
  lemma JoinOfSplit(s: string, sep: string)
    requires sep != []
    ensures Join(sep, Split(s, sep)) == s
  {
    ReplaceIsJoinOfSplit(s, sep, sep);
    ReplaceSelf(s, sep);
  }

  lemma {:induction false} SplitWithoutSeparator(p: string, sep: string)
    requires |sep| == 1 && sep[0] !in p
    ensures Split(p, sep) == [p]
    decreases |p|
  {
    if p != [] {
      SplitWithoutSeparator(p[1..], sep);
      assert [p[0]] + p[1..] == p;
    }
  }

  lemma {:induction false} SplitAfterPiece(p: string, sep: string, t: string)
    requires |sep| == 1 && sep[0] !in p
    ensures Split(p + sep + t, sep) == [p] + Split(t, sep)
    decreases |p|
  {
    var s := p + sep + t;
    if p == [] {
      assert StartsWith(s, sep) && s[|sep|..] == t;
    } else {
      assert s[0] == p[0] != sep[0];
      assert s[1..] == p[1..] + sep + t;
      SplitAfterPiece(p[1..], sep, t);
      assert [p[0]] + p[1..] == p;
    }
  }

  /** Joining pieces that do not contain a one-character separator and splitting
      the result on it gives back the pieces. */
  lemma {:induction false} SplitOfJoin(parts: seq<string>, sep: string)
    requires |sep| == 1 && |parts| >= 1
    requires forall i :: 0 <= i < |parts| ==> sep[0] !in parts[i]
    ensures Split(Join(sep, parts), sep) == parts
    decreases |parts|
  {
    if |parts| == 1 {
      SplitWithoutSeparator(parts[0], sep);
    } else {
      SplitOfJoin(parts[1..], sep);
      SplitAfterPiece(parts[0], sep, Join(sep, parts[1..]));
      assert [parts[0]] + parts[1..] == parts;
    }
  }

  /** The characters Python's `str.isspace` accepts, which `strip()` removes. */
  predicate IsSpace(c: char)
  {
    var n := c as int;
    (0x09 <= n <= 0x0D) || (0x1C <= n <= 0x20) || n == 0x85 || n == 0xA0 || n == 0x1680 ||
    (0x2000 <= n <= 0x200A) || n == 0x2028 || n == 0x2029 || n == 0x202F || n == 0x205F || n == 0x3000
  }

  /** Every character of `s` is whitespace (the empty string included). */
  predicate Blank(s: string)
  {
    forall i :: 0 <= i < |s| ==> IsSpace(s[i])
  }

  /** `s.lstrip()`: the suffix of `s` left after dropping its leading whitespace. */
  function StripLeft(s: string): (r: string)
    ensures |r| <= |s| && r == s[|s| - |r|..]
    ensures Blank(s[..|s| - |r|])
    ensures r != [] ==> !IsSpace(r[0])
    decreases |s|
  {
    if s != [] && IsSpace(s[0]) then StripLeft(s[1..]) else s
  }

  /** `s.rstrip()`: the prefix of `s` left after dropping its trailing whitespace. */
  function StripRight(s: string): (r: string)
    ensures |r| <= |s| && r == s[..|r|]
    ensures Blank(s[|r|..])
    ensures r != [] ==> !IsSpace(r[|r| - 1])
    decreases |s|
  {
    if s != [] && IsSpace(s[|s| - 1]) then
      var r := StripRight(s[..|s| - 1]);
      assert s[|r|..] == s[..|s| - 1][|r|..] + [s[|s| - 1]];
      r
    else s
  }

  /** `s.strip()`: the stretch of `s` left between its leading and its trailing
      whitespace. */
  function Strip(s: string): (r: string)
    ensures StrippedFrom(s, r)
  {
    StripKeepsInfix(s);
    StripRight(StripLeft(s))
  }

  /** `rstrip(lstrip(s))` keeps the stretch of `s` between its outer whitespace. */
  lemma StripKeepsInfix(s: string)
    ensures StrippedFrom(s, StripRight(StripLeft(s)))
  {
    var l := StripLeft(s);
    StripInfix(s, l, StripRight(l));
  }

  /** `r` is a stretch of `s` with only whitespace before and after it, and it neither
      starts nor ends with whitespace. */
  predicate StrippedFrom(s: string, r: string)
  {
    && |r| <= |s|
    && (exists i :: 0 <= i <= |s| - |r| && r == s[i..i + |r|] && Blank(s[..i]) && Blank(s[i + |r|..]))
    && (r != [] ==> !IsSpace(r[0]) && !IsSpace(r[|r| - 1]))
  }

  /** The part `strip` keeps sits between the whitespace `lstrip` and `rstrip` cut. */
  lemma StripInfix(s: string, l: string, r: string)
    requires |l| <= |s| && l == s[|s| - |l|..] && Blank(s[..|s| - |l|])
    requires l != [] ==> !IsSpace(l[0])
    requires |r| <= |l| && r == l[..|r|] && Blank(l[|r|..])
    requires r != [] ==> !IsSpace(r[|r| - 1])
    ensures StrippedFrom(s, r)
  {
    var i := |s| - |l|;
    SliceOfSuffix(s, i, |r|);
    assert r == s[i..i + |r|] && Blank(s[..i]) && Blank(s[i + |r|..]);
    if r != [] {
      assert r[0] == l[0];
    }
  }

  /** Slices of a suffix are slices of the whole string. */
  lemma SliceOfSuffix(s: string, i: nat, n: nat)
    requires i + n <= |s|
    ensures s[i..][..n] == s[i..i + n] && s[i..][n..] == s[i + n..]
  {
  }

  /** `s.strip()` is falsy exactly when `s` holds nothing but whitespace. */
  lemma StripEmptyIffBlank(s: string)
    ensures Strip(s) == [] <==> Blank(s)
  {
    var l := StripLeft(s);
    if l == [] {
      assert s[..|s|] == s;
    } else {
      assert l[0] == s[|s| - |l|];
      assert l[0..] == l;
    }
  }

  /** Whether `c` is an ASCII capital letter. */
  predicate IsUpper(c: char)
  {
    'A' <= c <= 'Z'
  }

  /** `s.lower()` on ASCII letters (platform names are ASCII): each capital becomes
      the small letter at the same place in the alphabet, every other character is
      kept, and no capital remains. */
  function Lower(s: string): (r: string)
    ensures |r| == |s|
    ensures forall i :: 0 <= i < |r| ==> !IsUpper(r[i])
    ensures forall i :: 0 <= i < |s| && !IsUpper(s[i]) ==> r[i] == s[i]
    ensures forall i :: 0 <= i < |s| && IsUpper(s[i]) ==>
      'a' <= r[i] <= 'z' && r[i] as int - 'a' as int == s[i] as int - 'A' as int
  {
    seq(|s|, i requires 0 <= i < |s| => if IsUpper(s[i]) then (s[i] as int + 32) as char else s[i])
  }

  /** Lower-casing twice is lower-casing once. */
  lemma LowerIdempotent(s: string)
    ensures Lower(Lower(s)) == Lower(s)
  {
    var r := Lower(s);
    assert forall i :: 0 <= i < |r| ==> Lower(r)[i] == r[i];
  }

  /** POSIX `os.path.join(a, b)`: an absolute `b` replaces `a`; otherwise a `/` is
      inserted unless `a` is empty or already ends with one. */
  function JoinPath(a: string, b: string): (r: string)
    ensures StartsWith(b, "/") ==> r == b
    ensures !StartsWith(b, "/") ==> StartsWith(r, a) && |b| <= |r| && r[|r| - |b|..] == b
  {
    if StartsWith(b, "/") then b
    else if a == [] || a[|a| - 1] == '/' then a + b
    else a + "/" + b
  }
}
