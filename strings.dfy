/**
 * The handful of Python `str` operations the program relies on: `strip`,
 * `lower`, `startswith`/`endswith`, `in`, `find`, `replace`, `split`,
 * `join`, `str(int)`, `int(str)` and the two `os.path` helpers.
 */
module Strings {
  import opened Wrappers

  /** Python's `str.isspace` for a single character. */
  predicate IsSpace(c: char) {
    c == ' ' || ('\t' <= c <= '\r') || ('\U{1c}' <= c <= '\U{1f}') ||
    c == '\U{85}' || c == '\U{a0}' || c == '\U{1680}' || ('\U{2000}' <= c <= '\U{200a}') ||
    c == '\U{2028}' || c == '\U{2029}' || c == '\U{202f}' || c == '\U{205f}' || c == '\U{3000}'
  }

  /** `s.lstrip()`: the suffix of `s` left after dropping leading whitespace. */
  function TrimStart(s: string): (r: string)
    ensures |r| <= |s| && r == s[|s| - |r|..]
    ensures r == [] || !IsSpace(r[0])
    ensures forall i :: 0 <= i < |s| - |r| ==> IsSpace(s[i])
  {
    if |s| > 0 && IsSpace(s[0]) then TrimStart(s[1..]) else s
  }

  /** `s.rstrip()`: the prefix of `s` left after dropping trailing whitespace. */
  function TrimEnd(s: string): (r: string)
    ensures |r| <= |s| && r == s[..|r|]
    ensures r == [] || !IsSpace(r[|r| - 1])
    ensures forall i :: |r| <= i < |s| ==> IsSpace(s[i])
  {
    if |s| > 0 && IsSpace(s[|s| - 1]) then TrimEnd(s[..|s| - 1]) else s
  }

  /** `s.strip()`. */
  function Strip(s: string): (r: string)
    ensures r == [] || (!IsSpace(r[0]) && !IsSpace(r[|r| - 1]))
  {
    TrimEnd(TrimStart(s))
  }

  /** A string with no whitespace at either end is its own `strip()`. */
  lemma StripOfTrimmed(s: string)
    requires s == [] || (!IsSpace(s[0]) && !IsSpace(s[|s| - 1]))
    ensures Strip(s) == s
  {
  }

  /**
   * `str.lower` on one character: ASCII capitals and the Latin-1 capitals
   * (which cover the Spanish alphabet) map to their small letters.
   */
  function LowerChar(c: char): char {
    if 'A' <= c <= 'Z' || ('\U{c0}' <= c <= '\U{de}' && c != '\U{d7}') then
      (c as int + 32) as char
    else
      c
  }

  function Lower(s: string): (r: string)
    ensures |r| == |s|
    ensures forall i :: 0 <= i < |s| ==> r[i] == LowerChar(s[i])
  {
    if s == [] then [] else [LowerChar(s[0])] + Lower(s[1..])
  }

  /** Lower-casing never turns a visible character into whitespace. */
  lemma LowerCharNotSpace(c: char)
    requires !IsSpace(c)
    ensures !IsSpace(LowerChar(c))
  {
  }

  /** Lower-casing twice is lower-casing once. */
  lemma LowerIdempotent(s: string)
    ensures Lower(Lower(s)) == Lower(s)
  {
  }

  /** Lower-casing works character by character, so it distributes over concatenation. */
  lemma LowerConcat(a: string, b: string)
    ensures Lower(a + b) == Lower(a) + Lower(b)
  {
    assert forall i :: 0 <= i < |a + b| ==> Lower(a + b)[i] == (Lower(a) + Lower(b))[i];
  }

  predicate StartsWith(s: string, prefix: string) {
    |prefix| <= |s| && s[..|prefix|] == prefix
  }

  predicate EndsWith(s: string, suffix: string) {
    |suffix| <= |s| && s[|s| - |suffix|..] == suffix
  }

  /** `sub` occurs in `s` starting at index `k`. */
  predicate OccursAt(s: string, sub: string, k: int) {
    0 <= k && k + |sub| <= |s| && s[k..k + |sub|] == sub
  }

  /** `s.find(sub, i)`: the first occurrence at or after `i`, or -1. */
  function FindFrom(s: string, sub: string, i: nat): (r: int)
    requires i <= |s|
    ensures r == -1 || (i <= r && OccursAt(s, sub, r))
    ensures r == -1 ==> forall k :: i <= k ==> !OccursAt(s, sub, k)
    ensures r >= 0 ==> forall k :: i <= k < r ==> !OccursAt(s, sub, k)
    decreases |s| - i
  {
    if i + |sub| > |s| then -1
    else if s[i..i + |sub|] == sub then i
    else FindFrom(s, sub, i + 1)
  }

  /** `s.find(sub)`. */
  function Find(s: string, sub: string): int
  {
    FindFrom(s, sub, 0)
  }

  /** The first occurrence of `sub` is where `find` reports it. */
  lemma FindFrom0(s: string, sub: string, p: nat)
    requires OccursAt(s, sub, p)
    requires forall k :: 0 <= k < p ==> !OccursAt(s, sub, k)
    ensures Find(s, sub) == p
  {
    var r := FindFrom(s, sub, 0);
    assert r != -1;
  }

  /** `sub in s`. */
  predicate Contains(s: string, sub: string) {
    Find(s, sub) >= 0
  }

  /** `s.replace(pat, rep)` for a non-empty `pat`: left to right, non-overlapping. */
  function ReplaceAll(s: string, pat: string, rep: string): (r: string)
    requires pat != []
    ensures (forall k :: !OccursAt(s, pat, k)) ==> r == s
    decreases |s|
  {
    if |s| < |pat| then s
    else if s[..|pat|] == pat then
      assert OccursAt(s, pat, 0);
      rep + ReplaceAll(s[|pat|..], pat, rep)
    else
      assert forall k :: OccursAt(s[1..], pat, k) ==> OccursAt(s, pat, k + 1);
      [s[0]] + ReplaceAll(s[1..], pat, rep)
  }

  /** `s.split(sep)` for a one-character separator: never empty, one more piece than separators. */
  function Split(s: string, sep: char): (r: seq<string>)
    ensures |r| >= 1
    ensures forall i, j :: 0 <= i < |r| && 0 <= j < |r[i]| ==> r[i][j] != sep
    decreases |s|
  {
    if s == [] then [""]
    else
      var rest := Split(s[1..], sep);
      if s[0] == sep then [""] + rest
      else [[s[0]] + rest[0]] + rest[1..]
  }

  /** `sep.join(parts)`. */
  function Join(parts: seq<string>, sep: string): string
    decreases |parts|
  {
    if parts == [] then ""
    else if |parts| == 1 then parts[0]
    else parts[0] + sep + Join(parts[1..], sep)
  }

  /** Splitting and joining on the same separator gives the string back. */
  lemma {:induction false} JoinSplit(s: string, sep: char)
    ensures Join(Split(s, sep), [sep]) == s
    decreases |s|
  {
    if s != [] {
      var rest := Split(s[1..], sep);
      JoinSplit(s[1..], sep);
      if s[0] == sep {
        assert Split(s, sep) == [""] + rest;
        assert ([""] + rest)[1..] == rest;
      } else {
        var r := Split(s, sep);
        assert r == [[s[0]] + rest[0]] + rest[1..];
        if |rest| == 1 {
          assert r == [[s[0]] + rest[0]];
        } else {
          assert r[1..] == rest[1..];
          assert Join(rest, [sep]) == rest[0] + [sep] + Join(rest[1..], [sep]);
        }
      }
    }
  }

  /** The decimal digit character for `d`. */
  function DigitChar(d: int): (c: char)
    requires 0 <= d < 10
    ensures '0' <= c <= '9'
  {
    ('0' as int + d) as char
  }

  /** `str(n)` for a natural number. */
  function NatToString(n: nat): (r: string)
    ensures |r| >= 1
    ensures forall i :: 0 <= i < |r| ==> '0' <= r[i] <= '9'
    decreases n
  {
    if n < 10 then [DigitChar(n)] else NatToString(n / 10) + [DigitChar(n % 10)]
  }

  /** `str(n)`. */
  function IntToString(n: int): string {
    if n < 0 then "-" + NatToString(-n) else NatToString(n)
  }

  /** Every character is an ASCII decimal digit. */
  predicate IsDigits(s: string) {
    forall i :: 0 <= i < |s| ==> '0' <= s[i] <= '9'
  }

  /** The number a string of decimal digits denotes. */
  function DigitsValue(s: string): nat
    requires IsDigits(s)
    decreases |s|
  {
    if s == [] then 0 else DigitsValue(s[..|s| - 1]) * 10 + (s[|s| - 1] as int - '0' as int)
  }

  /** Reading back the digits of `str(n)` gives `n`. */
  lemma {:induction false} DigitsValueOfNat(n: nat)
    ensures DigitsValue(NatToString(n)) == n
    decreases n
  {
    if n >= 10 {
      DigitsValueOfNat(n / 10);
      var s := NatToString(n);
      assert s[..|s| - 1] == NatToString(n / 10);
    }
  }

  /** `int(t)` for a `t` with no surrounding whitespace: an optional sign and ASCII digits. */
  function ParseStripped(t: string): Result<int> {
    if t == [] then Err("ValueError")
    else
      var body := if t[0] == '-' || t[0] == '+' then t[1..] else t;
      if body != [] && IsDigits(body) then
        Ok(if t[0] == '-' then -(DigitsValue(body) as int) else DigitsValue(body))
      else Err("ValueError")
  }

  /**
   * `int(s)` on the forms the program feeds it: surrounding whitespace, an
   * optional sign and ASCII digits; anything else is Python's ValueError.
   */
  function ParseInt(s: string): Result<int> {
    ParseStripped(Strip(s))
  }

  /** Digits and the minus sign are not whitespace. */
  lemma NotSpace(c: char)
    requires c == '-' || '0' <= c <= '9'
    ensures !IsSpace(c)
  {
  }

  /** `int(str(n)) == n`. */
  lemma ParseIntOfString(n: int)
    ensures ParseInt(IntToString(n)) == Ok(n)
  {
    var m: nat := if n < 0 then -n else n;
    var digits := NatToString(m);
    DigitsValueOfNat(m);
    assert IsDigits(digits);
    var s := IntToString(n);
    assert s == (if n < 0 then "-" else "") + digits;
    NotSpace(s[0]);
    NotSpace(s[|s| - 1]);
    StripOfTrimmed(s);
    if n < 0 {
      ParseSignedDigits(digits, m);
    } else {
      ParseDigits(digits, m);
    }
  }

  lemma ParseDigits(d: string, v: nat)
    requires d != [] && IsDigits(d) && DigitsValue(d) == v
    ensures ParseStripped(d) == Ok(v)
  {
    assert '0' <= d[0] <= '9';
  }

  lemma ParseSignedDigits(d: string, v: nat)
    requires d != [] && IsDigits(d) && DigitsValue(d) == v
    ensures ParseStripped("-" + d) == Ok(-(v as int))
  {
    assert ("-" + d)[1..] == d;
  }

  /** Python truthiness of an optional string: present and non-empty. */
  predicate Truthy(s: Option<string>) {
    s.Some? && s.value != ""
  }

  /** `os.path.basename`: the text after the last '/'. */
  function Basename(path: string): (r: string)
    ensures '/' !in r
    ensures EndsWith(path, r)
    decreases |path|
  {
    if path == [] then ""
    else if path[|path| - 1] == '/' then ""
    else Basename(path[..|path| - 1]) + [path[|path| - 1]]
  }

  /** `os.path.join(folder, name)` for two components. */
  function PathJoin(folder: string, name: string): string {
    if StartsWith(name, "/") then name
    else if folder == [] || folder[|folder| - 1] == '/' then folder + name
    else folder + "/" + name
  }

  /** A name without '/' is the basename of its joined path. */
  lemma {:induction false} BasenameOfJoin(folder: string, name: string)
    requires '/' !in name
    ensures Basename(PathJoin(folder, name)) == name
  {
    var p := PathJoin(folder, name);
    if name != [] {
      assert name[0] in name;
      assert !StartsWith(name, "/");
    }
    assert p[|p| - |name|..] == name;
    forall i | |p| - |name| <= i < |p|
      ensures p[i] != '/'
    {
      assert p[i] == name[i - (|p| - |name|)];
      assert p[i] in name;
    }
    BasenameSuffix(p, |name|);
  }

  /** The basename of a path whose last `k` characters are '/'-free, preceded by '/' or nothing. */
  lemma {:induction false} BasenameSuffix(p: string, k: nat)
    requires k <= |p|
    requires forall i :: |p| - k <= i < |p| ==> p[i] != '/'
    requires |p| > k ==> p[|p| - k - 1] == '/'
    ensures Basename(p) == p[|p| - k..]
    decreases k
  {
    if k == 0 {
      assert p[|p|..] == [];
      if p != [] {
        assert p[|p| - 1] == '/';
      }
    } else {
      var q := p[..|p| - 1];
      var last := p[|p| - 1];
      assert last != '/';
      assert Basename(p) == Basename(q) + [last];
      forall i | |q| - (k - 1) <= i < |q|
        ensures q[i] != '/'
      {
        assert q[i] == p[i];
      }
      if |q| > k - 1 {
        assert q[|q| - (k - 1) - 1] == p[|p| - k - 1];
      }
      BasenameSuffix(q, k - 1);
      assert p[|p| - k..] == q[|q| - (k - 1)..] + [last];
    }
  }

  /** A string without the separator splits into itself. */
  lemma {:induction false} SplitNoSep(s: string, sep: char)
    requires sep !in s
    ensures Split(s, sep) == [s]
    decreases |s|
  {
    if s != [] {
      assert s[0] in s;
      assert forall c :: c in s[1..] ==> c in s;
      SplitNoSep(s[1..], sep);
      assert [s[0]] + s[1..] == s;
    }
  }

  /** Splitting at the first separator: the piece before it, then the pieces of the rest. */
  lemma {:induction false} SplitAt(a: string, sep: char, b: string)
    requires sep !in a
    ensures Split(a + [sep] + b, sep) == [a] + Split(b, sep)
    decreases |a|
  {
    var s := a + [sep] + b;
    if a == [] {
      assert s == [sep] + b && s[1..] == b;
    } else {
      assert a[0] in a;
      assert forall c :: c in a[1..] ==> c in a;
      SplitAt(a[1..], sep, b);
      assert s[1..] == a[1..] + [sep] + b;
      assert [a[0]] + a[1..] == a;
    }
  }

  /** Trailing whitespace does not survive `strip()`. */
  lemma StripSnocSpace(s: string, c: char)
    requires IsSpace(c)
    ensures Strip(s + [c]) == Strip(s)
  {
    TrimStartSnoc(s, c);
    var t := TrimStart(s);
    if t != [] {
      assert (t + [c])[..|t|] == t;
    }
  }

  lemma {:induction false} TrimStartSnoc(s: string, c: char)
    requires IsSpace(c)
    ensures TrimStart(s + [c]) == if TrimStart(s) == [] then [] else TrimStart(s) + [c]
    decreases |s|
  {
    if s != [] {
      assert (s + [c])[1..] == s[1..] + [c];
      TrimStartSnoc(s[1..], c);
    }
  }

  /** Replacing a one-character pattern: the text before its first occurrence, the replacement, then the rest replaced. */
  lemma {:induction false} ReplaceAt(a: string, c: char, b: string, rep: string)
    requires c !in a
    ensures ReplaceAll(a + [c] + b, [c], rep) == a + rep + ReplaceAll(b, [c], rep)
    decreases |a|
  {
    var s := a + [c] + b;
    if a == [] {
      assert s[..1] == [c] && s[1..] == b;
      assert ReplaceAll(s, [c], rep) == rep + ReplaceAll(b, [c], rep);
    } else {
      assert a[0] in a;
      var t := a[1..] + [c] + b;
      assert s[1..] == t;
      assert s[..1] != [c] by { assert s[..1][0] == a[0]; }
      assert ReplaceAll(s, [c], rep) == [a[0]] + ReplaceAll(t, [c], rep);
      assert forall x :: x in a[1..] ==> x in a;
      ReplaceAt(a[1..], c, b, rep);
      ConsConcat(a, rep, ReplaceAll(b, [c], rep));
    }
  }

  lemma ConsConcat(a: string, u: string, v: string)
    requires a != []
    ensures [a[0]] + (a[1..] + u + v) == a + u + v
  {
    assert [a[0]] + a[1..] == a;
  }

  /** A string without the one-character pattern is left as it is. */
  lemma ReplaceNone(s: string, c: char, rep: string)
    requires c !in s
    ensures ReplaceAll(s, [c], rep) == s
  {
    assert forall k :: OccursAt(s, [c], k) ==> s[k] == c;
  }

  /** Three pieces joined by a separator they do not contain split back into those pieces. */
  lemma SplitThree(a: string, b: string, c: string, sep: char)
    requires sep !in a && sep !in b && sep !in c
    ensures Split(a + [sep] + b + [sep] + c, sep) == [a, b, c]
  {
    assert a + [sep] + b + [sep] + c == a + [sep] + (b + [sep] + c);
    SplitAt(a, sep, b + [sep] + c);
    SplitAt(b, sep, c);
    SplitNoSep(c, sep);
  }

  /** Replacing a one-character pattern that occurs once, between two pieces. */
  lemma ReplaceBetween(a: string, c: char, b: string, rep: string)
    requires c !in a && c !in b
    ensures ReplaceAll(a + [c] + b, [c], rep) == a + rep + b
  {
    ReplaceAt(a, c, b, rep);
    ReplaceNone(b, c, rep);
  }

  /** Deleting a pattern that occurs in `s + pat` only at the end gives `s` back. */
  lemma {:induction false} ReplaceTrailing(s: string, pat: string)
    requires pat != []
    requires forall k :: 0 <= k < |s| ==> !OccursAt(s + pat, pat, k)
    ensures ReplaceAll(s + pat, pat, "") == s
    decreases |s|
  {
    var t := s + pat;
    if s == [] {
      assert t == pat && t[..|pat|] == pat && t[|pat|..] == [];
    } else {
      assert !OccursAt(t, pat, 0);
      assert t[..|pat|] != pat;
      assert t[1..] == s[1..] + pat;
      forall k | 0 <= k < |s[1..]|
        ensures !OccursAt(s[1..] + pat, pat, k)
      {
        assert (s[1..] + pat)[k..k + |pat|] == t[k + 1..k + 1 + |pat|];
        assert !OccursAt(t, pat, k + 1);
      }
      ReplaceTrailing(s[1..], pat);
      assert [s[0]] + s[1..] == s;
    }
  }

  /** Deleting the only separator joins the two sides. */
  lemma DropBetween(a: string, c: char, b: string)
    requires c !in a && c !in b
    ensures ReplaceAll(a + [c] + b, [c], "") == a + b
  {
    ReplaceBetween(a, c, b, "");
    assert a + "" + b == a + b;
  }
}
