/** String operations of JavaScript that the pages use, on `seq<char>`. */
module Text {

  /** `s.includes(sub)`: `sub` is a prefix of some suffix of `s`. */
  predicate Contains(s: string, sub: string)
    decreases |s|
  {
    sub <= s || (|s| > 0 && Contains(s[1..], sub))
  }

  lemma {:induction false} ContainsAt(s: string, sub: string, i: nat)
    requires i <= |s| && sub <= s[i..]
    ensures Contains(s, sub)
    decreases i
  {
    if i > 0 {
      assert s[1..][i - 1..] == s[i..];
      ContainsAt(s[1..], sub, i - 1);
    }
  }

  lemma {:induction false} ContainsWitness(s: string, sub: string) returns (i: nat)
    requires Contains(s, sub)
    ensures i <= |s| && sub <= s[i..]
    decreases |s|
  {
    if sub <= s {
      i := 0;
    } else {
      var j := ContainsWitness(s[1..], sub);
      assert s[1..][j..] == s[j + 1..];
      i := j + 1;
    }
  }

  /** Containment is transitive. */
  lemma ContainsTransitive(s: string, mid: string, sub: string)
    requires Contains(s, mid) && Contains(mid, sub)
    ensures Contains(s, sub)
  {
    var i := ContainsWitness(s, mid);
    var j := ContainsWitness(mid, sub);
    assert s[i..][j..] == s[i + j..];
    assert sub <= s[i + j..] by {
      assert mid <= s[i..];
      assert sub == mid[j..j + |sub|];
      assert s[i + j..][..|sub|] == s[i..][j..j + |sub|];
    }
    ContainsAt(s, sub, i + j);
  }

  /** A non-empty `sub` that starts at no position of `s` is not contained in it. */
  lemma {:induction false} NotContains(s: string, sub: string)
    requires |sub| > 0
    requires forall i :: 0 <= i < |s| ==> !(sub <= s[i..])
    ensures !Contains(s, sub)
    decreases |s|
  {
    if s != [] {
      assert s[0..] == s;
      forall i | 0 <= i < |s[1..]| ensures !(sub <= s[1..][i..]) {
        assert s[1..][i..] == s[i + 1..];
      }
      NotContains(s[1..], sub);
    }
  }

  /** `s.replace(/pat/g, rep)` for a literal pattern: a left-to-right scan that replaces
      every non-overlapping occurrence of `pat`. */
  function ReplaceAll(s: string, pat: string, rep: string): string
    requires |pat| > 0
    decreases |s|
  {
    if s == [] then []
    else if pat <= s then rep + ReplaceAll(s[|pat|..], pat, rep)
    else [s[0]] + ReplaceAll(s[1..], pat, rep)
  }

  /** Text in which `pat` does not occur is left as it is. */
  lemma {:induction false} ReplaceAllAbsent(s: string, pat: string, rep: string)
    requires |pat| > 0 && !Contains(s, pat)
    ensures ReplaceAll(s, pat, rep) == s
    decreases |s|
  {
    if s != [] {
      ReplaceAllAbsent(s[1..], pat, rep);
    }
  }

  /** No proper suffix of `pat` is also a prefix of it, so two occurrences never overlap. */
  ghost predicate Unbordered(pat: string)
  {
    forall k :: 0 < k < |pat| ==> pat[k..] != pat[..|pat| - k]
  }

  /** An occurrence of an unbordered pattern is always replaced, whatever surrounds it:
      the scan never consumes part of it while handling the text before it. */
  lemma {:induction false} ReplaceAllAround(x: string, pat: string, y: string, rep: string)
    requires |pat| > 0 && Unbordered(pat)
    ensures ReplaceAll(x + pat + y, pat, rep)
         == ReplaceAll(x, pat, rep) + rep + ReplaceAll(y, pat, rep)
    decreases |x|
  {
    var s := x + pat + y;
    if x == [] {
      assert s == pat + y;
      assert s[|pat|..] == y;
    } else if pat <= s {
      MatchIsWhole(x, pat, y);
      AroundMatch(x, pat, y, rep);
      ReplaceAllAround(x[|pat|..], pat, y, rep);
      Regroup(rep, ReplaceAll(x[|pat|..], pat, rep), rep, ReplaceAll(y, pat, rep));
    } else {
      AroundNoMatch(x, pat, y, rep);
      ReplaceAllAround(x[1..], pat, y, rep);
      Regroup([x[0]], ReplaceAll(x[1..], pat, rep), rep, ReplaceAll(y, pat, rep));
    }
  }

  lemma Regroup(a: string, b: string, c: string, d: string)
    ensures a + (b + c + d) == a + b + c + d
  {
  }

  /** One scan step on text starting with `pat`, with or without the rest appended. */
  lemma AroundMatch(x: string, pat: string, y: string, rep: string)
    requires 0 < |pat| <= |x| && pat <= x
    ensures ReplaceAll(x + pat + y, pat, rep) == rep + ReplaceAll(x[|pat|..] + pat + y, pat, rep)
    ensures ReplaceAll(x, pat, rep) == rep + ReplaceAll(x[|pat|..], pat, rep)
  {
    var s := x + pat + y;
    assert s[..|pat|] == x[..|pat|];
    assert s[|pat|..] == x[|pat|..] + pat + y;
  }

  /** One scan step on text not starting with `pat`, with or without the rest appended. */
  lemma AroundNoMatch(x: string, pat: string, y: string, rep: string)
    requires |pat| > 0 && x != [] && !(pat <= x + pat + y)
    ensures ReplaceAll(x + pat + y, pat, rep) == [x[0]] + ReplaceAll(x[1..] + pat + y, pat, rep)
    ensures ReplaceAll(x, pat, rep) == [x[0]] + ReplaceAll(x[1..], pat, rep)
  {
    var s := x + pat + y;
    assert s[1..] == x[1..] + pat + y;
  }

  /** An occurrence of an unbordered pattern at the start of `x + pat + y` lies within `x`. */
  lemma MatchIsWhole(x: string, pat: string, y: string)
    requires |pat| > 0 && Unbordered(pat) && x != [] && pat <= x + pat + y
    ensures |x| >= |pat| && pat <= x
  {
    if |x| < |pat| {
      OverlapIsBorder(x, pat, y);
      assert false;
    }
    assert x[..|pat|] == (x + pat + y)[..|pat|];
  }

  /** Two occurrences less than |pat| apart give `pat` a border. */
  lemma OverlapIsBorder(x: string, pat: string, y: string)
    requires 0 < |x| < |pat| && pat <= x + pat + y
    ensures pat[|x|..] == pat[..|pat| - |x|]
  {
    var s, k := x + pat + y, |x|;
    assert s[k..|pat|] == pat[k..];
    assert s[k..|pat|] == pat[..|pat| - k];
  }

  /** A prefix `t` at none of whose positions `pat` starts is copied unchanged. */
  lemma {:induction false} ReplaceAllSkip(t: string, y: string, pat: string, rep: string)
    requires |pat| > 0
    requires forall i :: 0 <= i < |t| ==> !(pat <= (t + y)[i..])
    ensures ReplaceAll(t + y, pat, rep) == t + ReplaceAll(y, pat, rep)
    decreases |t|
  {
    if t != [] {
      assert (t + y)[0..] == t + y;
      assert (t + y)[1..] == t[1..] + y;
      forall i | 0 <= i < |t[1..]| ensures !(pat <= (t[1..] + y)[i..]) {
        assert (t[1..] + y)[i..] == (t + y)[i + 1..];
      }
      ReplaceAllSkip(t[1..], y, pat, rep);
    }
  }

  /** `s.replace(pat, rep)` with a string pattern: only the first occurrence. */
  function ReplaceFirst(s: string, pat: string, rep: string): string
    decreases |s|
  {
    if pat <= s then rep + s[|pat|..]
    else if s == [] then []
    else [s[0]] + ReplaceFirst(s[1..], pat, rep)
  }

  lemma {:induction false} ReplaceFirstAbsent(s: string, pat: string, rep: string)
    requires !Contains(s, pat)
    ensures ReplaceFirst(s, pat, rep) == s
    decreases |s|
  {
    if s != [] {
      ReplaceFirstAbsent(s[1..], pat, rep);
    }
  }

  /** When the pattern's first character does not occur before it, the pattern is the first
      occurrence: it is replaced and whatever follows, later occurrences included, is kept. */
  lemma {:induction false} ReplaceFirstAfter(a: string, pat: string, b: string, rep: string)
    requires pat != [] && pat[0] !in a
    ensures ReplaceFirst(a + pat + b, pat, rep) == a + rep + b
    decreases |a|
  {
    var s := a + pat + b;
    if a == [] {
      assert s == pat + b;
      assert pat <= s;
      assert s[|pat|..] == b;
    } else {
      assert !(pat <= s) by {
        assert s[0] == a[0];
        assert a[0] != pat[0];
      }
      assert s != [];
      assert ReplaceFirst(s, pat, rep) == [s[0]] + ReplaceFirst(s[1..], pat, rep);
      assert s[1..] == a[1..] + pat + b;
      ReplaceFirstAfter(a[1..], pat, b, rep);
      assert [a[0]] + a[1..] == a;
    }
  }

  /** `s.split(sep)` for a one-character separator; always at least one part. */
  function Split(s: string, sep: char): (parts: seq<string>)
    ensures |parts| >= 1
    decreases |s|
  {
    if s == [] then [""]
    else if s[0] == sep then [""] + Split(s[1..], sep)
    else
      var rest := Split(s[1..], sep);
      [[s[0]] + rest[0]] + rest[1..]
  }

  /** A separator-free text is one part by itself. */
  lemma {:induction false} SplitNoSeparator(a: string, sep: char)
    requires sep !in a
    ensures Split(a, sep) == [a]
    decreases |a|
  {
    if a != [] {
      SplitNoSeparator(a[1..], sep);
      assert [a[0]] + a[1..] == a;
    }
  }

  /** A separator-free text followed by the separator is the first part. */
  lemma {:induction false} SplitFirstPart(a: string, sep: char, rest: string)
    requires sep !in a
    ensures Split(a + [sep] + rest, sep) == [a] + Split(rest, sep)
    decreases |a|
  {
    var s := a + [sep] + rest;
    if a == [] {
      assert s[1..] == rest;
    } else {
      assert s[1..] == a[1..] + [sep] + rest;
      SplitFirstPart(a[1..], sep, rest);
      assert [a[0]] + a[1..] == a;
    }
  }

  /** Splitting at a separator splits the two sides independently. */
  lemma {:induction false} SplitConcat(a: string, sep: char, b: string)
    ensures Split(a + [sep] + b, sep) == Split(a, sep) + Split(b, sep)
    decreases |a|
  {
    var s := a + [sep] + b;
    if a == [] {
      assert s[1..] == b;
    } else {
      assert s[1..] == a[1..] + [sep] + b;
      SplitConcat(a[1..], sep, b);
    }
  }

  /** `parts.join(sep)`. */
  function Join(parts: seq<string>, sep: string): string
  {
    if parts == [] then ""
    else if |parts| == 1 then parts[0]
    else parts[0] + sep + Join(parts[1..], sep)
  }

  /** Splitting and joining again gives the text back, and no part holds the separator. */
  lemma {:induction false} SplitJoin(s: string, sep: char)
    ensures Join(Split(s, sep), [sep]) == s
    ensures forall k :: 0 <= k < |Split(s, sep)| ==> sep !in Split(s, sep)[k]
    decreases |s|
  {
    if s != [] {
      SplitJoin(s[1..], sep);
      var rest := Split(s[1..], sep);
      if s[0] != sep {
        var parts := Split(s, sep);
        assert parts == [[s[0]] + rest[0]] + rest[1..];
        if |rest| == 1 {
          assert Join(parts, [sep]) == [s[0]] + rest[0];
        } else {
          assert parts[1..] == rest[1..];
          assert Join(rest, [sep]) == rest[0] + [sep] + Join(rest[1..], [sep]);
        }
      }
    }
  }

  /** `s.padStart(2, '0')`. */
  function PadStart2(s: string): (r: string)
    ensures |r| == if |s| >= 2 then |s| else 2
    ensures r[|r| - |s|..] == s
    ensures forall i :: 0 <= i < |r| - |s| ==> r[i] == '0'
  {
    if |s| >= 2 then s else if |s| == 1 then "0" + s else "00"
  }

  /** `String(n)` for a natural number. */
  function NatToString(n: nat): (r: string)
    ensures |r| >= 1
    ensures forall i :: 0 <= i < |r| ==> '0' <= r[i] <= '9'
  {
    if n < 10 then [Digit(n)] else NatToString(n / 10) + [Digit(n % 10)]
  }

  function Digit(d: nat): (c: char)
    requires d < 10
    ensures '0' <= c <= '9' && c as int == '0' as int + d
  {
    ('0' as int + d) as char
  }

  /** Different numbers are written differently. */
  lemma {:induction false} NatToStringInjective(a: nat, b: nat)
    requires NatToString(a) == NatToString(b)
    ensures a == b
    decreases a
  {
    if a >= 10 && b >= 10 {
      var sa, sb := NatToString(a), NatToString(b);
      assert sa == NatToString(a / 10) + [Digit(a % 10)];
      assert sb == NatToString(b / 10) + [Digit(b % 10)];
      assert sa[..|sa| - 1] == NatToString(a / 10);
      assert sb[..|sb| - 1] == NatToString(b / 10);
      assert sa[|sa| - 1] == Digit(a % 10) && sb[|sb| - 1] == Digit(b % 10);
      NatToStringInjective(a / 10, b / 10);
    }
  }

  /** `s.charAt(0).toUpperCase() + s.slice(1)`, with the case mapping given as `upper`. */
  function Capitalize(s: string, upper: string -> string): (r: string)
    ensures s == "" ==> r == ""
    ensures s != "" ==> r == upper(s[..1]) + s[1..]
  {
    if s == "" then "" else upper(s[..1]) + s[1..]
  }

  /** JavaScript's `<` on strings: lexicographic order on characters. */
  predicate LexLess(a: string, b: string)
    decreases |a|
  {
    if a == [] then b != []
    else if b == [] then false
    else if a[0] != b[0] then a[0] < b[0]
    else LexLess(a[1..], b[1..])
  }

  lemma {:induction false} LexLessIrreflexive(a: string)
    ensures !LexLess(a, a)
    decreases |a|
  {
    if a != [] {
      LexLessIrreflexive(a[1..]);
    }
  }

  lemma {:induction false} LexLessAsymmetric(a: string, b: string)
    requires LexLess(a, b)
    ensures !LexLess(b, a)
    decreases |a|
  {
    if a != [] && b != [] && a[0] == b[0] {
      LexLessAsymmetric(a[1..], b[1..]);
    }
  }

  /** Substring `s.substring(0, n)` for `n >= 0`: the first `min(n, |s|)` characters. */
  function Take(s: string, n: nat): (r: string)
    ensures |r| == if n <= |s| then n else |s|
    ensures r <= s
  {
    if n <= |s| then s[..n] else s
  }

  /** Behind prefixes of equal length, the order is decided by the prefixes first. */
  lemma {:induction false} LexLessAfterPrefix(p: string, x: string, q: string, y: string)
    requires |p| == |q|
    ensures LexLess(p + x, q + y) <==> LexLess(p, q) || (p == q && LexLess(x, y))
    decreases |p|
  {
    if p == [] {
      assert p + x == x && q + y == y;
    } else {
      assert (p + x)[1..] == p[1..] + x && (q + y)[1..] == q[1..] + y;
      assert (p + x)[0] == p[0] && (q + y)[0] == q[0];
      LexLessAfterPrefix(p[1..], x, q[1..], y);
      if p[0] == q[0] && p[1..] == q[1..] {
        assert p == [p[0]] + p[1..] && q == [q[0]] + q[1..];
      }
    }
  }

  /** Two numbers written with the same number of digits compare as text as they compare as
      numbers. */
  lemma {:induction false} NatToStringOrder(a: nat, b: nat)
    requires |NatToString(a)| == |NatToString(b)|
    ensures LexLess(NatToString(a), NatToString(b)) <==> a < b
    ensures NatToString(a) == NatToString(b) <==> a == b
    decreases a
  {
    if a >= 10 && b >= 10 {
      NatToStringOrder(a / 10, b / 10);
      LexLessAfterPrefix(NatToString(a / 10), [Digit(a % 10)], NatToString(b / 10), [Digit(b % 10)]);
      if NatToString(a) == NatToString(b) {
        assert NatToString(a)[|NatToString(a)| - 1] == Digit(a % 10);
        assert NatToString(a)[..|NatToString(a)| - 1] == NatToString(a / 10);
        assert NatToString(b)[..|NatToString(b)| - 1] == NatToString(b / 10);
      }
    }
  }
}
