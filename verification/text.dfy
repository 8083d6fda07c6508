/** The JavaScript string operations the application uses: `trim`,
    `toLowerCase`, `includes`, `split` on a one-character separator and
    `Array.prototype.join`. */
module Text {

  /** The characters `String.prototype.trim` strips: the ECMAScript
      WhiteSpace and LineTerminator code points. */
  predicate IsSpace(c: char) {
    || c == '\t' || c == '\n' || c == '\U{000B}' || c == '\U{000C}' || c == '\r'
    || c == ' ' || c == '\U{00A0}' || c == '\U{1680}'
    || ('\U{2000}' <= c <= '\U{200A}')
    || c == '\U{2028}' || c == '\U{2029}' || c == '\U{202F}' || c == '\U{205F}'
    || c == '\U{3000}' || c == '\U{FEFF}'
  }

  /** Only whitespace (vacuously true of the empty string). */
  predicate IsBlank(s: string) {
    forall i :: 0 <= i < |s| ==> IsSpace(s[i])
  }

  function LowerChar(c: char): char {
    if 'A' <= c <= 'Z' then (c as int + 32) as char else c
  }

  /** `s.toLowerCase()`, restricted to the ASCII letters. */
  function Lower(s: string): (r: string)
    ensures |r| == |s|
    ensures forall i :: 0 <= i < |s| ==> r[i] == LowerChar(s[i])
  {
    seq(|s|, i requires 0 <= i < |s| => LowerChar(s[i]))
  }

  /** `q` occurs in `s` starting at position `i`. */
  predicate OccursAt(s: string, q: string, i: int) {
    0 <= i && i + |q| <= |s| && s[i..i + |q|] == q
  }

  /** `s.includes(q)`. */
  predicate Includes(s: string, q: string)
    decreases |s|
  {
    q <= s || (|s| > 0 && Includes(s[1..], q))
  }

  function TrimStart(s: string): (t: string)
    ensures |t| <= |s| && t == s[|s| - |t|..]
    ensures IsBlank(s[..|s| - |t|])
    ensures |t| > 0 ==> !IsSpace(t[0])
    decreases |s|
  {
    if |s| > 0 && IsSpace(s[0]) then TrimStart(s[1..]) else s
  }

  function TrimEnd(s: string): (t: string)
    ensures |t| <= |s| && t == s[..|t|]
    ensures IsBlank(s[|t|..])
    ensures |t| > 0 ==> !IsSpace(t[|t| - 1])
    decreases |s|
  {
    if |s| > 0 && IsSpace(s[|s| - 1]) then TrimEnd(s[..|s| - 1]) else s
  }

  /** `s.trim()`: leading and trailing whitespace removed (see
      `TrimIsSlice` for where the result sits inside `s`). */
  function Trim(s: string): (t: string)
    ensures |t| <= |s|
    ensures |t| > 0 ==> !IsSpace(t[0]) && !IsSpace(t[|t| - 1])
  {
    TrimEnd(TrimStart(s))
  }

  /** The trimmed string is the slice of `s` between a blank prefix and a
      blank suffix. */
  lemma TrimIsSlice(s: string)
    ensures exists i :: 0 <= i <= |s| - |Trim(s)| && Trim(s) == s[i..i + |Trim(s)|]
                        && IsBlank(s[..i]) && IsBlank(s[i + |Trim(s)|..])
  {
    var a := TrimStart(s);
    var t := TrimEnd(a);
    var i := |s| - |a|;
    assert t == Trim(s);
    assert s[i..i + |t|] == t by {
      assert a == s[i..];
      assert t == a[..|t|];
    }
    assert IsBlank(s[i + |t|..]) by {
      assert s[i + |t|..] == a[|t|..];
    }
    assert IsBlank(s[..i]);
  }

  /** `String(s).split(sep)` for a one-character separator: the maximal
      runs between separators; the result always has at least one part. */
  function Split(s: string, sep: char): (parts: seq<string>)
    ensures |parts| >= 1
    ensures forall k :: 0 <= k < |parts| ==> sep !in parts[k]
    decreases |s|
  {
    if |s| == 0 then [""]
    else
      var rest := Split(s[1..], sep);
      if s[0] == sep then [""] + rest
      else [[s[0]] + rest[0]] + rest[1..]
  }

  /** `xs.join(sep)`. */
  function Join(xs: seq<string>, sep: string): string
    decreases |xs|
  {
    if |xs| == 0 then ""
    else if |xs| == 1 then xs[0]
    else xs[0] + sep + Join(xs[1..], sep)
  }

  /** Number of occurrences of `c` in `s`. */
  function Count(s: string, c: char): nat
    decreases |s|
  {
    if |s| == 0 then 0 else (if s[0] == c then 1 else 0) + Count(s[1..], c)
  }

  /** An occurrence at position `i` is found by `includes`. */
  lemma {:induction false} OccursIncludes(s: string, q: string, i: int)
    requires OccursAt(s, q, i)
    ensures Includes(s, q)
    decreases i
  {
    if i == 0 {
      assert s[..|q|] == q;
    } else {
      assert s[1..][i - 1..i - 1 + |q|] == s[i..i + |q|];
      OccursIncludes(s[1..], q, i - 1);
    }
  }

  /** Where `includes` succeeds there is an occurrence. */
  lemma {:induction false} IncludesOccurs(s: string, q: string) returns (i: int)
    requires Includes(s, q)
    ensures OccursAt(s, q, i)
    decreases |s|
  {
    if q <= s {
      i := 0;
      assert s[..|q|] == q;
    } else {
      var j := IncludesOccurs(s[1..], q);
      assert s[1..][j..j + |q|] == s[j + 1..j + 1 + |q|];
      i := j + 1;
    }
  }

  /** `includes` is the textbook substring relation. */
  lemma IncludesIffOccurs(s: string, q: string)
    ensures Includes(s, q) <==> exists i :: OccursAt(s, q, i)
  {
    if Includes(s, q) {
      var i := IncludesOccurs(s, q);
    }
    forall i | OccursAt(s, q, i)
      ensures Includes(s, q)
    {
      OccursIncludes(s, q, i);
    }
  }

  /** A string is blank exactly when trimming it leaves nothing. */
  lemma TrimEmptyIffBlank(s: string)
    ensures Trim(s) == "" <==> IsBlank(s)
  {
    var a := TrimStart(s);
    var i := |s| - |a|;
    if |a| > 0 {
      assert a[0] == s[i];
      assert !IsSpace(s[i]);
    }
    if TrimEnd(a) == "" {
      assert a[0..] == a;
      assert |a| == 0;
      assert s[..i] == s;
    }
  }

  /** Trimming a trimmed string changes nothing. */
  lemma TrimIdempotent(s: string)
    ensures Trim(Trim(s)) == Trim(s)
  {
    var t := Trim(s);
    if |t| > 0 {
      assert TrimStart(t) == t;
      assert TrimEnd(t) == t;
    }
  }

  /** Lower-casing twice is lower-casing once. */
  lemma LowerIdempotent(s: string)
    ensures Lower(Lower(s)) == Lower(s)
  {
  }

  /** Joining the parts of a split with the separator restores the string. */
  lemma {:induction false} JoinSplit(s: string, sep: char)
    ensures Join(Split(s, sep), [sep]) == s
    decreases |s|
  {
    if |s| > 0 {
      var rest := Split(s[1..], sep);
      JoinSplit(s[1..], sep);
      if s[0] == sep {
        assert Split(s, sep) == [""] + rest;
        assert ([""] + rest)[1..] == rest;
      } else if |rest| == 1 {
        assert Split(s, sep) == [[s[0]] + rest[0]];
      } else {
        var parts := Split(s, sep);
        assert parts == [[s[0]] + rest[0]] + rest[1..];
        assert parts[1..] == rest[1..];
        assert Join(rest, [sep]) == rest[0] + [sep] + Join(rest[1..], [sep]);
      }
    }
  }

  /** A text with a non-space character has a part, when split on a space
      character, that is not blank; `k` is its position. */
  lemma {:induction false} NonBlankPart(s: string, sep: char) returns (k: nat)
    requires !IsBlank(s) && IsSpace(sep)
    ensures k < |Split(s, sep)| && !IsBlank(Split(s, sep)[k])
    decreases |s|
  {
    var rest := Split(s[1..], sep);
    if !IsSpace(s[0]) {
      k := 0;
      assert Split(s, sep)[0] == [s[0]] + rest[0];
      assert Split(s, sep)[0][0] == s[0];
    } else {
      assert !IsBlank(s[1..]) by {
        var i :| 0 <= i < |s| && !IsSpace(s[i]);
        assert s[1..][i - 1] == s[i];
      }
      var j := NonBlankPart(s[1..], sep);
      if s[0] == sep {
        k := j + 1;
        assert Split(s, sep) == [""] + rest;
      } else if j == 0 {
        k := 0;
        var part := Split(s, sep)[0];
        assert part == [s[0]] + rest[0];
        var i :| 0 <= i < |rest[0]| && !IsSpace(rest[0][i]);
        assert part[i + 1] == rest[0][i];
      } else {
        k := j;
        assert Split(s, sep) == [[s[0]] + rest[0]] + rest[1..];
      }
    }
  }

  /** Splitting on a separator no part contains undoes a join. */
  lemma {:induction false} SplitJoin(xs: seq<string>, sep: char)
    requires |xs| >= 1
    requires forall k :: 0 <= k < |xs| ==> sep !in xs[k]
    ensures Split(Join(xs, [sep]), sep) == xs
    decreases |xs|
  {
    if |xs| == 1 {
      SplitNoSeparator(xs[0], sep);
    } else {
      SplitJoin(xs[1..], sep);
      SplitAfterPrefix(xs[0], Join(xs[1..], [sep]), sep);
      assert Join(xs, [sep]) == xs[0] + ([sep] + Join(xs[1..], [sep]));
    }
  }

  /** A string without the separator splits into itself. */
  lemma {:induction false} SplitNoSeparator(s: string, sep: char)
    requires sep !in s
    ensures Split(s, sep) == [s]
    decreases |s|
  {
    if |s| > 0 {
      SplitNoSeparator(s[1..], sep);
      assert [s[0]] + s[1..] == s;
    }
  }

  /** A separator-free prefix followed by the separator becomes one part. */
  lemma {:induction false} SplitAfterPrefix(a: string, b: string, sep: char)
    requires sep !in a
    ensures Split(a + ([sep] + b), sep) == [a] + Split(b, sep)
    decreases |a|
  {
    var s := a + ([sep] + b);
    if |a| == 0 {
      assert s == [sep] + b;
      assert s[1..] == b;
    } else {
      assert s[1..] == a[1..] + ([sep] + b);
      SplitAfterPrefix(a[1..], b, sep);
      assert [a[0]] + a[1..] == a;
    }
  }

  /** The number of parts is one more than the number of separators. */
  lemma {:induction false} SplitCount(s: string, sep: char)
    ensures |Split(s, sep)| == Count(s, sep) + 1
    decreases |s|
  {
    if |s| > 0 {
      SplitCount(s[1..], sep);
    }
  }
  /** `s.length`: the number of UTF-16 code units, where a character
      outside the Basic Multilingual Plane counts twice. */
  function Utf16Length(s: string): (n: nat)
    ensures |s| <= n <= 2 * |s|
    decreases |s|
  {
    if |s| == 0 then 0 else (if s[0] as int >= 0x1_0000 then 2 else 1) + Utf16Length(s[1..])
  }

  /** Every item with a space put in front. */
  function Prefixed(xs: seq<string>): (ys: seq<string>)
    ensures |ys| == |xs|
    ensures forall i :: 0 <= i < |xs| ==> ys[i] == " " + xs[i]
  {
    seq(|xs|, i requires 0 <= i < |xs| => " " + xs[i])
  }

  /** The items of `xs` with a space put in front of every item but the first. */
  function Spaced(xs: seq<string>): (ys: seq<string>)
    ensures |ys| == |xs|
    ensures |xs| > 0 ==> ys[0] == xs[0]
    ensures forall i :: 0 < i < |xs| ==> ys[i] == " " + xs[i]
  {
    if |xs| == 0 then [] else [xs[0]] + Prefixed(xs[1..])
  }

  lemma JoinCons(a: string, rest: seq<string>, sep: string)
    ensures Join([a] + rest, sep) == a + (if |rest| == 0 then "" else sep + Join(rest, sep))
  {
    assert ([a] + rest)[1..] == rest;
  }

  lemma PrefixedJoin(ys: seq<string>)
    requires |ys| >= 1
    ensures Join(Prefixed(ys), ",") == " " + Join(Spaced(ys), ",")
  {
    assert Prefixed(ys) == [" " + ys[0]] + Prefixed(ys[1..]);
    JoinCons(" " + ys[0], Prefixed(ys[1..]), ",");
    JoinCons(ys[0], Prefixed(ys[1..]), ",");
  }

  /** `xs.join(", ")` is the ","-join of the spaced items. */
  lemma {:induction false} JoinCommaSpace(xs: seq<string>)
    ensures Join(xs, ", ") == Join(Spaced(xs), ",")
    decreases |xs|
  {
    if |xs| > 1 {
      JoinCommaSpace(xs[1..]);
      JoinCons(xs[0], xs[1..], ", ");
      JoinCons(xs[0], Prefixed(xs[1..]), ",");
      PrefixedJoin(xs[1..]);
      assert [xs[0]] + xs[1..] == xs;
    }
  }

  /** Splitting a ", "-joined list on "," gives back the items, every one
      after the first with its leading space. */
  lemma SplitCommaJoined(xs: seq<string>)
    requires |xs| >= 1
    requires forall k :: 0 <= k < |xs| ==> ',' !in xs[k]
    ensures Split(Join(xs, ", "), ',') == Spaced(xs)
  {
    JoinCommaSpace(xs);
    var ys := Spaced(xs);
    forall k | 0 <= k < |ys|
      ensures ',' !in ys[k]
    {
      if k > 0 {
        NoCommaAfterSpace(xs[k]);
      }
    }
    SplitJoin(ys, ',');
  }

  lemma NoCommaAfterSpace(x: string)
    requires ',' !in x
    ensures ',' !in " " + x
  {
    assert forall i :: 0 < i < |" " + x| ==> (" " + x)[i] == x[i - 1];
  }

  /** Including a one-character string is membership of the character. */
  lemma IncludesChar(s: string, c: char)
    ensures Includes(s, [c]) <==> c in s
  {
    IncludesIffOccurs(s, [c]);
    if c in s {
      var i :| 0 <= i < |s| && s[i] == c;
      assert OccursAt(s, [c], i);
    }
    if Includes(s, [c]) {
      var i :| OccursAt(s, [c], i);
      assert s[i..i + 1][0] == s[i];
    }
  }
}
