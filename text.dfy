/** The JavaScript string operations the services use: `trim`, ASCII
    `toLowerCase`, `includes`, `startsWith`/`endsWith`, whitespace-run
    collapsing (`replace(/\s+/g, ' ')`), `join`, and decimal formatting and
    parsing of non-negative integers. */
module Text {

  /** The ECMAScript WhiteSpace and LineTerminator code points: what `trim()`
      removes and what the regular-expression class `\s` matches. */
  predicate IsSpace(c: char)
  {
    var n := c as int;
    n == 0x09 || n == 0x0A || n == 0x0B || n == 0x0C || n == 0x0D || n == 0x20 ||
    n == 0xA0 || n == 0x1680 || (0x2000 <= n <= 0x200A) || n == 0x2028 ||
    n == 0x2029 || n == 0x202F || n == 0x205F || n == 0x3000 || n == 0xFEFF
  }

  predicate AllSpace(s: string)
  {
    forall i :: 0 <= i < |s| ==> IsSpace(s[i])
  }

  /** Neither the first nor the last character is whitespace. */
  predicate Unpadded(s: string)
  {
    s == [] || (!IsSpace(s[0]) && !IsSpace(s[|s| - 1]))
  }

  /** `s.trimStart()`: the suffix of `s` left after its leading whitespace. */
  function TrimStart(s: string): (r: string)
    ensures |r| <= |s|
    ensures r == [] || !IsSpace(r[0])
  {
    if s != [] && IsSpace(s[0]) then TrimStart(s[1..]) else s
  }

  /** What `trimStart` leaves is a suffix of the text. */
  lemma {:induction false} TrimStartSuffix(s: string)
    ensures TrimStart(s) == s[|s| - |TrimStart(s)|..]
    decreases |s|
  {
    if s != [] && IsSpace(s[0]) {
      TrimStartSuffix(s[1..]);
    }
  }

  /** What `trimStart` removes is whitespace. */
  lemma {:induction false} TrimStartRemovesSpace(s: string)
    ensures AllSpace(s[..|s| - |TrimStart(s)|])
    decreases |s|
  {
    if s != [] && IsSpace(s[0]) {
      var r := TrimStart(s[1..]);
      TrimStartRemovesSpace(s[1..]);
      assert s[..|s| - |r|] == [s[0]] + s[1..][..|s| - 1 - |r|];
    }
  }

  /** `s.trimEnd()`: the prefix of `s` left after its trailing whitespace. */
  function TrimEnd(s: string): (r: string)
    ensures |r| <= |s|
    ensures r == [] || !IsSpace(r[|r| - 1])
  {
    if s != [] && IsSpace(s[|s| - 1]) then TrimEnd(s[..|s| - 1]) else s
  }

  /** What `trimEnd` leaves is a prefix of the text. */
  lemma {:induction false} TrimEndPrefix(s: string)
    ensures TrimEnd(s) == s[..|TrimEnd(s)|]
    decreases |s|
  {
    if s != [] && IsSpace(s[|s| - 1]) {
      TrimEndPrefix(s[..|s| - 1]);
    }
  }

  /** What `trimEnd` removes is whitespace. */
  lemma {:induction false} TrimEndRemovesSpace(s: string)
    ensures AllSpace(s[|TrimEnd(s)|..])
    decreases |s|
  {
    if s != [] && IsSpace(s[|s| - 1]) {
      var r := TrimEnd(s[..|s| - 1]);
      TrimEndRemovesSpace(s[..|s| - 1]);
      assert s[|r|..] == s[..|s| - 1][|r|..] + [s[|s| - 1]];
    }
  }

  /** `s.trim()`. */
  function Trim(s: string): (r: string)
    ensures |r| <= |s|
    ensures Unpadded(r)
  {
    var front := TrimStart(s);
    var r := TrimEnd(front);
    TrimEndPrefix(front);
    assert r != [] ==> r[0] == front[0];
    r
  }

  /** Trimming leaves nothing exactly when the text is all whitespace. */
  lemma TrimEmpty(s: string)
    ensures Trim(s) == [] <==> AllSpace(s)
  {
    var front := TrimStart(s);
    var r := TrimEnd(front);
    TrimStartSuffix(s);
    TrimEndPrefix(front);
    TrimStartRemovesSpace(s);
    TrimEndRemovesSpace(front);
    if r == [] {
      assert s == s[..|s| - |front|] + front[|r|..];
    } else {
      assert s[|s| - |front|] == r[0];
    }
  }

  /** Trimming removes exactly the whitespace around a core that neither
      starts nor ends with whitespace. */
  lemma TrimAround(pre: string, core: string, post: string)
    requires AllSpace(pre) && AllSpace(post)
    requires Unpadded(core)
    ensures Trim(pre + core + post) == core
  {
    TrimPadding(pre, core, post);
    UnpaddedTrim(core);
  }

  /** A string without whitespace at its ends is its own trim. */
  lemma UnpaddedTrim(s: string)
    requires Unpadded(s)
    ensures Trim(s) == s
  {
    if s != [] {
      assert TrimStart(s) == s;
      assert TrimEnd(s) == s;
    }
  }

  lemma TrimIdempotent(s: string)
    ensures Trim(Trim(s)) == Trim(s)
  {
    UnpaddedTrim(Trim(s));
  }

  /** ASCII case folding of `toLowerCase()`. */
  function LowerChar(c: char): (d: char)
    ensures IsSpace(d) == IsSpace(c)
  {
    if 'A' <= c <= 'Z' then (c as int + 32) as char else c
  }

  function ToLower(s: string): (r: string)
    ensures |r| == |s|
    ensures forall i :: 0 <= i < |s| ==> r[i] == LowerChar(s[i])
  {
    seq(|s|, i requires 0 <= i < |s| => LowerChar(s[i]))
  }

  lemma ToLowerAppend(a: string, b: string)
    ensures ToLower(a + b) == ToLower(a) + ToLower(b)
  {
  }

  /** Lowercasing twice is lowercasing once. */
  lemma ToLowerIdempotent(s: string)
    ensures ToLower(ToLower(s)) == ToLower(s)
  {
  }

  lemma ToLowerKeepsSpace(s: string)
    requires AllSpace(s)
    ensures AllSpace(ToLower(s))
  {
  }

  /** Leading whitespace added in front does not survive `trimStart`. */
  lemma {:induction false} TrimStartPad(pre: string, y: string)
    requires AllSpace(pre)
    ensures TrimStart(pre + y) == TrimStart(y)
    decreases |pre|
  {
    if pre != [] {
      assert (pre + y)[1..] == pre[1..] + y;
      TrimStartPad(pre[1..], y);
    } else {
      assert pre + y == y;
    }
  }

  /** Trailing whitespace added behind does not survive `trimEnd`. */
  lemma {:induction false} TrimEndPad(y: string, post: string)
    requires AllSpace(post)
    ensures TrimEnd(y + post) == TrimEnd(y)
    decreases |post|
  {
    if post != [] {
      assert (y + post)[..|y + post| - 1] == y + post[..|post| - 1];
      TrimEndPad(y, post[..|post| - 1]);
    } else {
      assert y + post == y;
    }
  }

  /** Once a visible character is reached, `trimStart` keeps the rest. */
  lemma {:induction false} TrimStartAppend(x: string, post: string)
    requires !AllSpace(x)
    ensures TrimStart(x + post) == TrimStart(x) + post
    decreases |x|
  {
    assert x != [];
    if IsSpace(x[0]) {
      assert !AllSpace(x[1..]) by {
        var i :| 0 <= i < |x| && !IsSpace(x[i]);
        assert x[1..][i - 1] == x[i];
      }
      assert (x + post)[1..] == x[1..] + post;
      TrimStartAppend(x[1..], post);
    }
  }

  lemma AllSpaceAppend(a: string, b: string)
    requires AllSpace(a) && AllSpace(b)
    ensures AllSpace(a + b)
  {
  }

  /** Whitespace added around a string does not survive trimming. */
  lemma TrimPadding(pre: string, x: string, post: string)
    requires AllSpace(pre) && AllSpace(post)
    ensures Trim(pre + x + post) == Trim(x)
  {
    assert pre + x + post == pre + (x + post);
    TrimStartPad(pre, x + post);
    if AllSpace(x) {
      AllSpaceAppend(x, post);
      TrimEmpty(x + post);
      TrimEmpty(x);
    } else {
      TrimStartAppend(x, post);
      TrimEndPad(TrimStart(x), post);
    }
  }

  /** `s.includes(q)`. */
  predicate Includes(s: string, q: string)
  {
    exists i | 0 <= i <= |s| - |q| :: OccursAt(s, q, i)
  }

  /** `q` occurs in `s` starting at index `i`. */
  predicate OccursAt(s: string, q: string, i: int)
  {
    0 <= i && i + |q| <= |s| && s[i..i + |q|] == q
  }

  /** `s.startsWith(p)`. */
  predicate StartsWith(s: string, p: string)
  {
    |p| <= |s| && s[..|p|] == p
  }

  /** `s.endsWith(p)`. */
  predicate EndsWith(s: string, p: string)
  {
    |p| <= |s| && s[|s| - |p|..] == p
  }

  /** A prefix of `s` occurs in `s`. */
  lemma PrefixIncluded(s: string, p: string)
    requires StartsWith(s, p)
    ensures Includes(s, p)
  {
    assert OccursAt(s, p, 0);
  }

  /** The characters of `s` that are not whitespace, in order. */
  function Visible(s: string): string
  {
    if s == [] then [] else (if IsSpace(s[0]) then [] else [s[0]]) + Visible(s[1..])
  }

  /** `s.replace(/\s+/g, ' ')`: every maximal run of whitespace becomes one
      space. A whitespace character followed by another is dropped; the last
      one of a run becomes a plain space. */
  function CollapseSpaces(s: string): (r: string)
    ensures |r| <= |s|
    ensures r == [] <==> s == []
    decreases |s|
  {
    if s == [] then []
    else
      var tail := CollapseSpaces(s[1..]);
      if IsSpace(s[0]) && |s| > 1 && IsSpace(s[1]) then tail
      else [if IsSpace(s[0]) then ' ' else s[0]] + tail
  }

  /** Collapsing keeps whether the text starts and whether it ends with
      whitespace. */
  lemma {:induction false} CollapseEnds(s: string)
    ensures var r := CollapseSpaces(s);
      && (r != [] ==> (IsSpace(r[0]) <==> IsSpace(s[0])))
      && (r != [] ==> (IsSpace(r[|r| - 1]) <==> IsSpace(s[|s| - 1])))
    decreases |s|
  {
    if s != [] {
      var tail := CollapseSpaces(s[1..]);
      CollapseEnds(s[1..]);
      if !(IsSpace(s[0]) && |s| > 1 && IsSpace(s[1])) {
        var c := if IsSpace(s[0]) then ' ' else s[0];
        var r := [c] + tail;
        assert tail != [] ==> r[|r| - 1] == tail[|tail| - 1] && s[|s| - 1] == s[1..][|s| - 2];
      }
    }
  }

  /** Collapsing leaves every whitespace run a single plain space. */
  lemma {:induction false} CollapseMakesSingleSpaced(s: string)
    ensures SingleSpaced(CollapseSpaces(s))
    decreases |s|
  {
    if s != [] {
      var tail := CollapseSpaces(s[1..]);
      CollapseMakesSingleSpaced(s[1..]);
      if !(IsSpace(s[0]) && |s| > 1 && IsSpace(s[1])) {
        CollapseEnds(s[1..]);
        ConsSingleSpaced(if IsSpace(s[0]) then ' ' else s[0], tail);
      }
    }
  }

  predicate NoSpace(s: string)
  {
    forall i :: 0 <= i < |s| ==> !IsSpace(s[i])
  }

  /** Characters other than whitespace are copied as they are. */
  lemma {:induction false} CollapseWord(v: string, rest: string)
    requires NoSpace(v)
    ensures CollapseSpaces(v + rest) == v + CollapseSpaces(rest)
    decreases |v|
  {
    if v == [] {
      assert v + rest == rest;
    } else {
      assert (v + rest)[1..] == v[1..] + rest;
      CollapseWord(v[1..], rest);
      assert v == [v[0]] + v[1..];
    }
  }

  /** A whole whitespace run becomes one space. */
  lemma {:induction false} CollapseSpaceRun(sp: string, rest: string)
    requires sp != [] && AllSpace(sp)
    requires rest == [] || !IsSpace(rest[0])
    ensures CollapseSpaces(sp + rest) == [' '] + CollapseSpaces(rest)
    decreases |sp|
  {
    assert (sp + rest)[1..] == sp[1..] + rest;
    if |sp| > 1 {
      CollapseSpaceRun(sp[1..], rest);
    } else {
      assert sp[1..] + rest == rest;
    }
  }

  /** Every whitespace character is a plain space standing alone. */
  predicate SingleSpaced(s: string)
    decreases |s|
  {
    s == [] ||
    ((IsSpace(s[0]) ==> s[0] == ' ' && (|s| == 1 || !IsSpace(s[1]))) && SingleSpaced(s[1..]))
  }

  /** A character in front of a single-spaced string keeps it single-spaced
      when it is visible, or a plain space followed by a visible character. */
  lemma ConsSingleSpaced(c: char, tail: string)
    requires SingleSpaced(tail)
    requires IsSpace(c) ==> c == ' ' && (tail == [] || !IsSpace(tail[0]))
    ensures SingleSpaced([c] + tail)
  {
    assert ([c] + tail)[1..] == tail;
  }

  /** A string as `sanitizeString` leaves it: no whitespace at either end and
      every inner whitespace run a single space. */
  predicate Normalized(s: string)
  {
    Unpadded(s) && SingleSpaced(s)
  }

  /** Collapsing leaves a string whose runs are already single spaces as it is. */
  lemma {:induction false} CollapseSingleSpaces(s: string)
    requires SingleSpaced(s)
    ensures CollapseSpaces(s) == s
    decreases |s|
  {
    if s != [] {
      CollapseSingleSpaces(s[1..]);
      assert s == [s[0]] + s[1..];
    }
  }

  lemma {:induction false} VisibleAppend(a: string, b: string)
    ensures Visible(a + b) == Visible(a) + Visible(b)
    decreases |a|
  {
    if a == [] {
      assert a + b == b;
    } else {
      assert (a + b)[1..] == a[1..] + b;
      VisibleAppend(a[1..], b);
    }
  }

  /** Collapsing keeps the visible characters and their order. */
  lemma {:induction false} CollapseKeepsVisible(s: string)
    ensures Visible(CollapseSpaces(s)) == Visible(s)
    decreases |s|
  {
    if s != [] {
      CollapseKeepsVisible(s[1..]);
      var tail := CollapseSpaces(s[1..]);
      if !(IsSpace(s[0]) && |s| > 1 && IsSpace(s[1])) {
        var c := if IsSpace(s[0]) then ' ' else s[0];
        assert ([c] + tail)[1..] == tail;
      }
    }
  }

  /** Leading whitespace contributes no visible characters. */
  lemma {:induction false} SpaceFreeVisible(pre: string, rest: string)
    requires AllSpace(pre)
    ensures Visible(pre + rest) == Visible(rest)
    decreases |pre|
  {
    if pre != [] {
      assert (pre + rest)[1..] == pre[1..] + rest;
      SpaceFreeVisible(pre[1..], rest);
    } else {
      assert pre + rest == rest;
    }
  }

  /** Trimming keeps the visible characters. */
  lemma TrimKeepsVisible(s: string)
    ensures Visible(Trim(s)) == Visible(s)
  {
    var front := TrimStart(s);
    var r := TrimEnd(front);
    var pre, post := s[..|s| - |front|], front[|r|..];
    TrimStartSuffix(s);
    TrimEndPrefix(front);
    TrimStartRemovesSpace(s);
    TrimEndRemovesSpace(front);
    assert Visible(s) == Visible(front) by {
      assert s == pre + front;
      SpaceFreeVisible(pre, front);
    }
    assert Visible(front) == Visible(r) by {
      assert front == r + post;
      VisibleAppend(r, post);
      AllSpaceInvisible(post);
      assert Visible(r) + [] == Visible(r);
    }
  }

  lemma {:induction false} AllSpaceInvisible(s: string)
    requires AllSpace(s)
    ensures Visible(s) == []
    decreases |s|
  {
    if s != [] {
      AllSpaceInvisible(s[1..]);
    }
  }

  /** `parts.join(sep)`. */
  function Join(parts: seq<string>, sep: string): (r: string)
  {
    if |parts| == 0 then ""
    else if |parts| == 1 then parts[0]
    else parts[0] + sep + Join(parts[1..], sep)
  }

  /** The joined text begins with the first part. */
  lemma {:induction false} JoinStartsWithFirst(parts: seq<string>, sep: string)
    requires parts != []
    ensures StartsWith(Join(parts, sep), parts[0])
  {
    if |parts| > 1 {
      assert Join(parts, sep) == parts[0] + (sep + Join(parts[1..], sep));
    }
  }

  /** Text that occurs in `b` still occurs once something is put in front. */
  lemma IncludesAfter(a: string, b: string, q: string)
    requires Includes(b, q)
    ensures Includes(a + b, q)
  {
    var i :| 0 <= i <= |b| - |q| && OccursAt(b, q, i);
    assert (a + b)[|a| + i..|a| + i + |q|] == b[i..i + |q|];
    assert OccursAt(a + b, q, |a| + i);
  }

  /** Every part occurs in the joined text. */
  lemma {:induction false} JoinIncludes(parts: seq<string>, sep: string, k: int)
    requires 0 <= k < |parts|
    ensures Includes(Join(parts, sep), parts[k])
    decreases |parts|
  {
    if k == 0 {
      JoinStartsWithFirst(parts, sep);
      PrefixIncluded(Join(parts, sep), parts[0]);
    } else {
      JoinIncludes(parts[1..], sep, k - 1);
      IncludesAfter(parts[0] + sep, Join(parts[1..], sep), parts[k]);
    }
  }

  predicate IsDigit(c: char)
  {
    '0' <= c <= '9'
  }

  function DigitChar(d: nat): (c: char)
    requires d < 10
    ensures IsDigit(c)
  {
    ('0' as int + d) as char
  }

  predicate AllDigits(s: string)
  {
    forall i :: 0 <= i < |s| ==> IsDigit(s[i])
  }

  /** The value of a string of decimal digits (0 for the empty string). */
  function DigitsValue(s: string): nat
    requires AllDigits(s)
  {
    if s == [] then 0
    else DigitsValue(s[..|s| - 1]) * 10 + (s[|s| - 1] as int - '0' as int)
  }

  /** The shortest decimal form of `n`, as `${n}` gives it. */
  function NatToString(n: nat): (r: string)
    ensures r != [] && AllDigits(r)
    ensures |r| > 1 ==> r[0] != '0'
    ensures DigitsValue(r) == n
  {
    if n < 10 then [DigitChar(n)]
    else
      var r := NatToString(n / 10) + [DigitChar(n % 10)];
      assert r[..|r| - 1] == NatToString(n / 10);
      r
  }

  function Pow10(w: nat): (p: nat)
    ensures p >= 1
  {
    if w == 0 then 1 else 10 * Pow10(w - 1)
  }

  /** `n` written with exactly `w` digits, zero-padded on the left. */
  function PadDigits(n: nat, w: nat): (r: string)
    requires n < Pow10(w)
    ensures |r| == w && AllDigits(r)
    ensures DigitsValue(r) == n
  {
    if w == 0 then []
    else
      var r := PadDigits(n / 10, w - 1) + [DigitChar(n % 10)];
      assert r[..|r| - 1] == PadDigits(n / 10, w - 1);
      r
  }
}
