/** String operations of Python that the modelled code relies on: the substring
    test `sub in s`, ASCII lower-casing, `str()` of a natural number, splitting
    and joining on a separator, and first-match tables of substring tests. */
module Text {
  import opened Wrappers

  // ---------------------------------------------------------------------------
  // Substring test: Python `sub in s`

  predicate IsPrefix(p: string, s: string) {
    |p| <= |s| && s[..|p|] == p
  }

  /** Python's `sub in s` for two strings. */
  predicate Contains(s: string, sub: string)
    decreases |s|
  {
    IsPrefix(sub, s) || (|s| > 0 && Contains(s[1..], sub))
  }

  /** `sub` occurs in `s` starting at position `i`. */
  ghost predicate OccursAt(s: string, sub: string, i: int) {
    0 <= i && i + |sub| <= |s| && s[i..i + |sub|] == sub
  }

  lemma {:induction false} OccursContains(s: string, sub: string, i: int)
    requires OccursAt(s, sub, i)
    ensures Contains(s, sub)
    decreases i
  {
    if i == 0 {
      assert s[..|sub|] == sub;
    } else {
      assert s[1..][i - 1..i - 1 + |sub|] == s[i..i + |sub|];
      OccursContains(s[1..], sub, i - 1);
    }
  }

  lemma {:induction false} ContainsOccurs(s: string, sub: string) returns (i: int)
    requires Contains(s, sub)
    ensures OccursAt(s, sub, i)
    decreases |s|
  {
    if IsPrefix(sub, s) {
      i := 0;
    } else {
      var k := ContainsOccurs(s[1..], sub);
      assert s[k + 1..k + 1 + |sub|] == s[1..][k..k + |sub|];
      i := k + 1;
    }
  }

  lemma ContainsIffOccurs(s: string, sub: string)
    ensures Contains(s, sub) <==> exists i :: OccursAt(s, sub, i)
  {
    if Contains(s, sub) {
      var i := ContainsOccurs(s, sub);
    }
    forall i | OccursAt(s, sub, i) ensures Contains(s, sub) {
      OccursContains(s, sub, i);
    }
  }

  /** Containment of strings is transitive: a name that contains a longer
      pattern also contains every pattern that the longer one contains. */
  lemma ContainsTransitive(s: string, a: string, b: string)
    requires Contains(s, a) && Contains(a, b)
    ensures Contains(s, b)
  {
    var i := ContainsOccurs(s, a);
    var j := ContainsOccurs(a, b);
    forall k | 0 <= k < |b|
      ensures s[i + j + k] == b[k]
    {
      assert a[j..j + |b|][k] == b[k];
      assert s[i..i + |a|][j + k] == a[j + k];
    }
    assert s[i + j..i + j + |b|] == b;
    OccursContains(s, b, i + j);
  }

  /** Every character of a contained string occurs in the containing one. */
  lemma ContainsChar(s: string, sub: string, c: char)
    requires Contains(s, sub) && c in sub
    ensures c in s
  {
    var i := ContainsOccurs(s, sub);
    var k :| 0 <= k < |sub| && sub[k] == c;
    assert s[i + k] == s[i..i + |sub|][k];
  }

  /** A string contains itself, and so does every string it is a part of. */
  lemma ContainsConcat(a: string, sub: string, b: string)
    ensures Contains(a + sub + b, sub)
  {
    var s := a + sub + b;
    assert s[|a|..|a| + |sub|] == sub;
    OccursContains(s, sub, |a|);
  }

  /** A string never contains a longer one. */
  lemma NotContainsLonger(s: string, sub: string)
    requires |s| < |sub|
    ensures !Contains(s, sub)
  {
    if Contains(s, sub) {
      var i := ContainsOccurs(s, sub);
    }
  }

  // ---------------------------------------------------------------------------
  // Lower-casing: str.lower() restricted to ASCII

  function LowerChar(c: char): (r: char)
    ensures 'A' <= c <= 'Z' ==> 'a' <= r <= 'z' && r as int - c as int == 'a' as int - 'A' as int
    ensures !('A' <= c <= 'Z') ==> r == c
  {
    if 'A' <= c <= 'Z' then (c as int - 'A' as int + 'a' as int) as char else c
  }

  function Lower(s: string): (r: string)
    ensures |r| == |s|
  {
    seq(|s|, i requires 0 <= i < |s| => LowerChar(s[i]))
  }

  /** Lower-casing works character by character, so it distributes over concatenation. */
  lemma LowerConcat(a: string, b: string)
    ensures Lower(a + b) == Lower(a) + Lower(b)
  {
  }

  // ---------------------------------------------------------------------------
  // Code-point order of Python strings

  /** Python's `a < b` on strings: lexicographic order on code points. */
  predicate Less(a: string, b: string)
    decreases |a|
  {
    if |b| == 0 then false
    else if |a| == 0 then true
    else if a[0] != b[0] then a[0] < b[0]
    else Less(a[1..], b[1..])
  }

  /** Python's `a <= b` on strings. */
  predicate LessEq(a: string, b: string) {
    a == b || Less(a, b)
  }

  /** Strings that share a prefix compare as their remainders do; so sorting
      sibling paths compares their final components. */
  lemma {:induction false} LessCommonPrefix(p: string, a: string, b: string)
    ensures Less(p + a, p + b) <==> Less(a, b)
    decreases |p|
  {
    if |p| > 0 {
      assert (p + a)[1..] == p[1..] + a;
      assert (p + b)[1..] == p[1..] + b;
      LessCommonPrefix(p[1..], a, b);
    } else {
      assert p + a == a;
      assert p + b == b;
    }
  }

  lemma {:induction false} LessTotal(a: string, b: string)
    ensures LessEq(a, b) || LessEq(b, a)
    decreases |a|
  {
    if |a| > 0 && |b| > 0 && a[0] == b[0] {
      LessTotal(a[1..], b[1..]);
      if a[1..] == b[1..] {
        assert a == [a[0]] + a[1..] && b == [b[0]] + b[1..];
      }
    }
  }

  lemma {:induction false} LessTransitive(a: string, b: string, c: string)
    requires LessEq(a, b) && LessEq(b, c)
    ensures LessEq(a, c)
    decreases |a|
  {
    if a != b && b != c && |a| > 0 && |b| > 0 && |c| > 0 && a[0] == b[0] && b[0] == c[0] {
      LessTransitive(a[1..], b[1..], c[1..]);
      if a[1..] == c[1..] {
        assert a == [a[0]] + a[1..] && c == [c[0]] + c[1..];
      }
    }
  }

  // ---------------------------------------------------------------------------
  // str() of a natural number, and its inverse

  predicate IsDigit(c: char) {
    '0' <= c <= '9'
  }

  function DigitChar(d: nat): (c: char)
    requires d < 10
    ensures IsDigit(c) && c as int - '0' as int == d
  {
    ('0' as int + d) as char
  }

  /** Python's `str(n)` for a natural number: its decimal digits, no leading zero. */
  function NatToString(n: nat): (r: string)
    ensures 1 <= |r|
    ensures forall i :: 0 <= i < |r| ==> IsDigit(r[i])
    ensures n < 10 <==> |r| == 1
    decreases n
  {
    if n < 10 then [DigitChar(n)] else NatToString(n / 10) + [DigitChar(n % 10)]
  }

  /** Python's `int(s)` for a non-empty string of decimal digits. */
  function ParseNat(s: string): nat
    requires forall i :: 0 <= i < |s| ==> IsDigit(s[i])
  {
    if s == [] then 0
    else
      var last := s[|s| - 1];
      assert IsDigit(last);
      ParseNat(s[..|s| - 1]) * 10 + (last as int - '0' as int)
  }

  /** Reading back the digits `str(n)` writes gives `n`. */
  lemma {:induction false} ParseNatToString(n: nat)
    ensures ParseNat(NatToString(n)) == n
    decreases n
  {
    var r := NatToString(n);
    if n >= 10 {
      assert r[..|r| - 1] == NatToString(n / 10);
      ParseNatToString(n / 10);
    }
  }

  /** Distinct numbers have distinct decimal renderings. */
  lemma NatToStringInjective(m: nat, n: nat)
    requires NatToString(m) == NatToString(n)
    ensures m == n
  {
    ParseNatToString(m);
    ParseNatToString(n);
  }

  // ---------------------------------------------------------------------------
  // Splitting and joining on a one-character separator

  /** Python's `s.split(sep)` for a one-character separator. */
  function Split(s: string, sep: char): (parts: seq<string>)
    ensures |parts| >= 1
    ensures forall k :: 0 <= k < |parts| ==> sep !in parts[k]
    decreases |s|
  {
    if |s| == 0 then [""]
    else
      var rest := Split(s[1..], sep);
      if s[0] == sep then [""] + rest else [[s[0]] + rest[0]] + rest[1..]
  }

  /** Python's `sep.join(parts)` for a one-character separator. */
  function JoinWith(parts: seq<string>, sep: char): string
    requires |parts| >= 1
    decreases |parts|
  {
    if |parts| == 1 then parts[0] else parts[0] + [sep] + JoinWith(parts[1..], sep)
  }

  /** Joining the pieces of a split gives back the split string. */
  lemma {:induction false} JoinSplit(s: string, sep: char)
    ensures JoinWith(Split(s, sep), sep) == s
    decreases |s|
  {
    if |s| > 0 {
      var rest := Split(s[1..], sep);
      JoinSplit(s[1..], sep);
      if s[0] == sep {
        assert Split(s, sep)[1..] == rest;
      } else {
        var parts := Split(s, sep);
        if |rest| == 1 {
          assert parts == [[s[0]] + rest[0]];
        } else {
          assert parts[1..] == rest[1..];
          assert JoinWith(rest, sep) == rest[0] + [sep] + JoinWith(rest[1..], sep);
        }
      }
    }
  }

  /** Joining the first `n` pieces gives a prefix of joining them all. */
  lemma {:induction false} JoinWithPrefix(parts: seq<string>, n: nat, sep: char)
    requires 1 <= n <= |parts|
    ensures IsPrefix(JoinWith(parts[..n], sep), JoinWith(parts, sep))
    decreases n
  {
    if n == |parts| {
      assert parts[..n] == parts;
    } else if n == 1 {
      assert JoinWith(parts[..1], sep) == parts[0];
      assert JoinWith(parts, sep) == parts[0] + [sep] + JoinWith(parts[1..], sep);
    } else {
      assert parts[..n][1..] == parts[1..][..n - 1];
      JoinWithPrefix(parts[1..], n - 1, sep);
      var a := JoinWith(parts[1..][..n - 1], sep);
      var b := JoinWith(parts[1..], sep);
      assert JoinWith(parts[..n], sep) == parts[0] + [sep] + a;
      assert JoinWith(parts, sep) == parts[0] + [sep] + b;
      assert b[..|a|] == a;
      assert (parts[0] + [sep] + b)[..|parts[0]| + 1 + |a|] == parts[0] + [sep] + b[..|a|];
    }
  }

  /** A join ends with its last piece. */
  lemma {:induction false} JoinWithEnds(parts: seq<string>, sep: char)
    requires |parts| >= 1
    ensures var j, last := JoinWith(parts, sep), parts[|parts| - 1];
      |last| <= |j| && j[|j| - |last|..] == last
    decreases |parts|
  {
    if |parts| > 1 {
      JoinWithEnds(parts[1..], sep);
      var rest := JoinWith(parts[1..], sep);
      var last := parts[|parts| - 1];
      assert parts[1..][|parts[1..]| - 1] == last;
      var j := parts[0] + [sep] + rest;
      assert j[|j| - |last|..] == rest[|rest| - |last|..];
    }
  }

  /** Splitting a join of separator-free pieces gives back the pieces. */
  lemma {:induction false} SplitJoin(parts: seq<string>, sep: char)
    requires |parts| >= 1
    requires forall k :: 0 <= k < |parts| ==> sep !in parts[k]
    ensures Split(JoinWith(parts, sep), sep) == parts
    decreases |parts|, |parts[0]|
  {
    if |parts| == 1 {
      SplitNoSep(parts[0], sep);
    } else if |parts[0]| == 0 {
      var rest := JoinWith(parts[1..], sep);
      assert JoinWith(parts, sep) == [sep] + rest;
      assert ([sep] + rest)[1..] == rest;
      SplitJoin(parts[1..], sep);
      assert parts == [""] + parts[1..];
    } else {
      var s := JoinWith(parts, sep);
      var p0 := parts[0];
      var shorter := [p0[1..]] + parts[1..];
      assert shorter[1..] == parts[1..];
      assert JoinWith(shorter, sep) == p0[1..] + [sep] + JoinWith(parts[1..], sep);
      assert s == [p0[0]] + JoinWith(shorter, sep);
      assert s[1..] == JoinWith(shorter, sep);
      assert p0[0] in p0;
      SplitJoin(shorter, sep);
      assert [p0[0]] + p0[1..] == p0;
    }
  }

  lemma {:induction false} SplitNoSep(s: string, sep: char)
    requires sep !in s
    ensures Split(s, sep) == [s]
    decreases |s|
  {
    if |s| > 0 {
      assert s[0] in s;
      assert forall c :: c in s[1..] ==> c in s;
      SplitNoSep(s[1..], sep);
      assert [s[0]] + s[1..] == s;
    }
  }

  // ---------------------------------------------------------------------------
  // Position of an element: Python's list.index

  /** Python's `xs.index(x)`: the first position holding `x`, or ValueError. */
  function IndexOf<X(==)>(xs: seq<X>, x: X): (r: Result<nat>)
    ensures r.Ok? <==> x in xs
    ensures r.Ok? ==> r.value < |xs| && xs[r.value] == x && x !in xs[..r.value]
    ensures r.Err? ==> r.error == ValueError
  {
    if x !in xs then Err(ValueError)
    else if xs[0] == x then Ok(0)
    else
      var k := IndexOf(xs[1..], x).value;
      assert xs[1..][..k] == xs[1..k + 1];
      assert xs[..k + 1] == [xs[0]] + xs[1..k + 1];
      Ok(k + 1)
  }

  // ---------------------------------------------------------------------------
  // Ordered substring tests: an if/elif chain of `pattern in name`

  datatype Rule<V> = Rule(pattern: string, choice: V)

  /** The position of the first rule whose pattern occurs in `name`. */
  function FirstMatch<V>(rules: seq<Rule<V>>, name: string): (r: Option<nat>)
    ensures r.Some? ==> r.value < |rules| && Contains(name, rules[r.value].pattern)
    ensures r.Some? ==> forall j :: 0 <= j < r.value ==> !Contains(name, rules[j].pattern)
    ensures r.None? <==> forall j :: 0 <= j < |rules| ==> !Contains(name, rules[j].pattern)
  {
    if |rules| == 0 then None
    else if Contains(name, rules[0].pattern) then Some(0)
    else match FirstMatch(rules[1..], name)
      case None => None
      case Some(k) => Some(k + 1)
  }

  /** The choice of the first matching rule, as an if/elif chain without an else makes it. */
  function Select<V>(rules: seq<Rule<V>>, name: string): Option<V> {
    match FirstMatch(rules, name)
    case None => None
    case Some(k) => Some(rules[k].choice)
  }

  /** A later rule whose pattern contains an earlier rule's pattern can never be
      chosen: the earlier test always fires first. This is why a chain must test
      the longer pattern ("inceptionresnet", "cnn3d2") before the shorter one. */
  lemma Shadowed<V>(rules: seq<Rule<V>>, i: nat, j: nat, name: string)
    requires i < j < |rules|
    requires Contains(rules[j].pattern, rules[i].pattern)
    ensures FirstMatch(rules, name) != Some(j)
  {
    if FirstMatch(rules, name) == Some(j) {
      ContainsTransitive(name, rules[j].pattern, rules[i].pattern);
    }
  }

  /** A rule is reachable when its own pattern, used as the name, selects it. */
  ghost predicate EveryRuleReachable<V>(rules: seq<Rule<V>>) {
    forall j :: 0 <= j < |rules| ==> FirstMatch(rules, rules[j].pattern) == Some(j)
  }

  lemma SelfContains(s: string)
    ensures Contains(s, s)
  {
    assert IsPrefix(s, s);
  }
}
