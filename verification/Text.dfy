/** The handful of string operations the gateway relies on, on ordinal characters. */
module Text {

  /** `string.Split(sep)`: n separators give n + 1 parts. */
  function Split(s: string, sep: char): (parts: seq<string>)
    ensures |parts| >= 1
  {
    if s == "" then [""]
    else
      var rest := Split(s[1..], sep);
      if s[0] == sep then [""] + rest
      else [[s[0]] + rest[0]] + rest[1..]
  }

  /** The inverse of `Split`. */
  function Join(parts: seq<string>, sep: char): string
    requires |parts| >= 1
  {
    if |parts| == 1 then parts[0] else parts[0] + [sep] + Join(parts[1..], sep)
  }

  predicate IsSpace(c: char) {
    c == ' ' || ('\t' <= c <= '\r') || c == '\U{85}' || c == '\U{A0}'
  }

  function TrimStart(s: string): string {
    if s != "" && IsSpace(s[0]) then TrimStart(s[1..]) else s
  }

  function TrimEnd(s: string): string {
    if s != "" && IsSpace(s[|s| - 1]) then TrimEnd(s[..|s| - 1]) else s
  }

  function Trim(s: string): string {
    TrimEnd(TrimStart(s))
  }

  function ToUpperChar(c: char): char {
    if 'a' <= c <= 'z' then c - 'a' + 'A' else c
  }

  function ToUpper(s: string): (r: string)
    ensures |r| == |s|
  {
    seq(|s|, i requires 0 <= i < |s| => ToUpperChar(s[i]))
  }

  predicate StartsWith(s: string, prefix: string) {
    |prefix| <= |s| && s[..|prefix|] == prefix
  }

  /** A text split at its first separator is determined by the whole. */
  lemma SplitAtFirst(a: string, b: string, a': string, b': string, sep: char)
    requires sep !in a && sep !in a'
    requires a + [sep] + b == a' + [sep] + b'
    ensures a == a' && b == b'
  {
    SeparatorAt(a, b, sep);
    SeparatorAt(a', b', sep);
    var whole := a + [sep] + b;
    assert |a| == |a'|;
    assert a == whole[..|a|] && a' == whole[..|a'|];
    assert b == whole[|a| + 1..] && b' == whole[|a'| + 1..];
  }

  lemma SeparatorAt(a: string, b: string, sep: char)
    ensures var whole := a + [sep] + b;
      && whole[|a|] == sep
      && (sep !in a ==> forall i :: 0 <= i < |a| ==> whole[i] != sep)
      && (sep !in b ==> forall i :: |a| < i < |whole| ==> whole[i] != sep)
  {
    var whole := a + [sep] + b;
    assert forall i :: 0 <= i < |a| ==> whole[i] == a[i];
    assert forall i :: |a| < i < |whole| ==> whole[i] == b[i - |a| - 1];
  }

  /** A text split at its last separator is determined by the whole. */
  lemma SplitAtLast(a: string, b: string, a': string, b': string, sep: char)
    requires sep !in b && sep !in b'
    requires a + [sep] + b == a' + [sep] + b'
    ensures a == a' && b == b'
  {
    SeparatorAt(a, b, sep);
    SeparatorAt(a', b', sep);
    var whole := a + [sep] + b;
    assert |a| == |a'|;
    assert a == whole[..|a|] && a' == whole[..|a'|];
    assert b == whole[|a| + 1..] && b' == whole[|a'| + 1..];
  }

  lemma {:induction false} SplitJoin(s: string, sep: char)
    ensures Join(Split(s, sep), sep) == s
    ensures forall i :: 0 <= i < |Split(s, sep)| ==> sep !in Split(s, sep)[i]
  {
    if s != "" {
      SplitJoin(s[1..], sep);
      var rest := Split(s[1..], sep);
      if s[0] == sep {
        assert ([""] + rest)[1..] == rest;
        assert Join([""] + rest, sep) == [sep] + Join(rest, sep);
      } else {
        var parts := [[s[0]] + rest[0]] + rest[1..];
        if |rest| > 1 {
          assert parts[1..] == rest[1..];
        }
        assert Join(parts, sep) == [s[0]] + Join(rest, sep);
      }
    }
  }

  lemma {:induction false} SplitNone(s: string, sep: char)
    requires sep !in s
    ensures Split(s, sep) == [s]
  {
    if s != "" {
      SplitNone(s[1..], sep);
      assert [s[0]] + s[1..] == s;
    }
  }

  lemma {:induction false} SplitHead(a: string, rest: string, sep: char)
    requires sep !in a
    ensures Split(a + [sep] + rest, sep) == [a] + Split(rest, sep)
  {
    var s := a + [sep] + rest;
    if a == "" {
      assert s[1..] == rest;
    } else {
      assert s[1..] == a[1..] + [sep] + rest;
      SplitHead(a[1..], rest, sep);
      assert [a[0]] + a[1..] == a;
      var t := [a[1..]] + Split(rest, sep);
      assert t[0] == a[1..] && t[1..] == Split(rest, sep);
    }
  }

  /** The first part of a text, and the text after its separator. */
  lemma {:induction false} SplitFirst(s: string, sep: char)
    ensures var parts := Split(s, sep);
      && sep !in parts[0]
      && (|parts| == 1 ==> s == parts[0])
      && (|parts| > 1 ==>
        && |s| > |parts[0]|
        && s == parts[0] + [sep] + s[|parts[0]| + 1..]
        && Split(s[|parts[0]| + 1..], sep) == parts[1..])
  {
    var parts := Split(s, sep);
    if s != "" {
      if s[0] == sep {
        assert parts[1..] == Split(s[1..], sep);
      } else {
        SplitFirst(s[1..], sep);
        var rest := Split(s[1..], sep);
        assert parts[0] == [s[0]] + rest[0] && parts[1..] == rest[1..];
        if |rest| > 1 {
          assert s[1..][|rest[0]| + 1..] == s[|parts[0]| + 1..];
        }
      }
    }
  }

  lemma {:induction false} JoinedChars(parts: seq<string>, sep: char, bad: char)
    requires |parts| >= 1 && bad != sep && forall i :: 0 <= i < |parts| ==> bad !in parts[i]
    ensures bad !in Join(parts, sep)
  {
    if |parts| > 1 {
      JoinedChars(parts[1..], sep, bad);
    }
  }

  // ---------- what the parts and the trimmed text are, by position ----------

  /** The text between two places is one part: separators, or the ends, stand around it and none inside. */
  ghost predicate PartAt(s: string, sep: char, i: nat, l: nat) {
    && i <= l <= |s|
    && (i == 0 || s[i - 1] == sep) && (l == |s| || s[l] == sep)
    && forall x :: i <= x < l ==> s[x] != sep
  }

  lemma PartShifted(s: string, sep: char, n: nat, i: nat, l: nat)
    requires 0 < n <= |s| && s[n - 1] == sep && PartAt(s[n..], sep, i, l)
    ensures PartAt(s, sep, i + n, l + n) && s[i + n..l + n] == s[n..][i..l]
  {
    assert forall x :: n <= x < |s| ==> s[x] == s[n..][x - n];
  }

  lemma FirstPartAt(s: string, sep: char)
    ensures var parts := Split(s, sep);
      var n := |parts[0]|;
      && PartAt(s, sep, 0, n) && s[0..n] == parts[0]
      && (|parts| > 1 ==> n < |s| && s[n] == sep && Split(s[n + 1..], sep) == parts[1..])
  {
    SplitFirst(s, sep);
    hide Split;
  }

  lemma {:induction false} PartIsAt(s: string, sep: char, p: nat) returns (i: nat, l: nat)
    requires p < |Split(s, sep)|
    ensures PartAt(s, sep, i, l) && s[i..l] == Split(s, sep)[p]
    decreases p
  {
    var parts := Split(s, sep);
    var n := |parts[0]| + 1;
    FirstPartAt(s, sep);
    hide *;
    if p == 0 {
      i, l := 0, n - 1;
    } else {
      assert parts[p] == parts[1..][p - 1];
      i, l := PartIsAt(s[n..], sep, p - 1);
      PartShifted(s, sep, n, i, l);
      i, l := i + n, l + n;
    }
  }

  lemma FirstIsPart(s: string, sep: char, l: nat)
    requires PartAt(s, sep, 0, l)
    ensures s[0..l] in Split(s, sep)
  {
    if l == |s| {
      SplitNone(s, sep);
      assert s[0..l] == s;
    } else {
      SplitHead(s[..l], s[l + 1..], sep);
      assert s == s[..l] + [sep] + s[l + 1..];
    }
  }

  lemma InTail(x: string, parts: seq<string>)
    requires |parts| >= 1 && x in parts[1..]
    ensures x in parts
  {
  }

  lemma {:induction false} AtIsPart(s: string, sep: char, i: nat, l: nat)
    requires PartAt(s, sep, i, l)
    ensures s[i..l] in Split(s, sep)
    decreases |s|
  {
    if i == 0 {
      FirstIsPart(s, sep, l);
    } else {
      SplitFirst(s, sep);
      var parts := Split(s, sep);
      var n := |parts[0]| + 1;
      PartInRest(s, sep, i, l, parts[0], parts);
      hide *;
      AtIsPart(s[n..], sep, i - n, l - n);
      InTail(s[i..l], parts);
    }
  }

  /** A part that is not the first is a part of what follows the first. */
  lemma PartInRest(s: string, sep: char, i: nat, l: nat, first: string, parts: seq<string>)
    requires PartAt(s, sep, i, l) && 0 < i && sep !in first
    requires |parts| >= 1 && (|parts| == 1 ==> s == first)
    requires |parts| > 1 ==> |s| > |first| && s == first + [sep] + s[|first| + 1..]
    ensures |parts| > 1 && |first| < i
    ensures var n := |first| + 1; PartAt(s[n..], sep, i - n, l - n) && s[n..][i - n..l - n] == s[i..l]
  {
  }

  /** The parts of a text are exactly what stands between separators. */
  lemma PartsExactly(s: string, sep: char, part: string)
    ensures part in Split(s, sep) <==> exists i: nat, l: nat :: PartAt(s, sep, i, l) && s[i..l] == part
  {
    hide Split;
    if part in Split(s, sep) {
      var p :| 0 <= p < |Split(s, sep)| && Split(s, sep)[p] == part;
      var i, l := PartIsAt(s, sep, p);
    }
    if i: nat, l: nat :| PartAt(s, sep, i, l) && s[i..l] == part {
      AtIsPart(s, sep, i, l);
    }
  }

  /** Code points 9 to 13, 32, 133 and 160. */
  predicate White(c: char) {
    c as int in {9, 10, 11, 12, 13, 32, 133, 160}
  }

  /** From one place to another a text is without its blanks at either end, which there are none left of. */
  ghost predicate TrimmedAt(s: string, j: nat, k: nat) {
    && j <= k <= |s|
    && (forall x :: 0 <= x < j ==> White(s[x])) && (forall x :: k <= x < |s| ==> White(s[x]))
    && (j < k ==> !White(s[j]) && !White(s[k - 1]))
  }

  lemma {:induction false} TrimStartAt(s: string) returns (j: nat)
    ensures j <= |s| && TrimStart(s) == s[j..] && (forall x :: 0 <= x < j ==> White(s[x]))
    ensures j < |s| ==> !White(s[j])
  {
    if s != "" && IsSpace(s[0]) {
      j := TrimStartAt(s[1..]);
      assert s[1..][j..] == s[j + 1..];
      j := j + 1;
    } else {
      j := 0;
    }
  }

  lemma {:induction false} TrimEndAt(s: string) returns (k: nat)
    ensures k <= |s| && TrimEnd(s) == s[..k] && (forall x :: k <= x < |s| ==> White(s[x]))
    ensures 0 < k ==> !White(s[k - 1])
  {
    if s != "" && IsSpace(s[|s| - 1]) {
      k := TrimEndAt(s[..|s| - 1]);
      assert s[..|s| - 1][..k] == s[..k];
    } else {
      k := |s|;
    }
  }

  /** Trimming takes away exactly the blanks at either end. */
  lemma TrimExactly(s: string, t: string)
    ensures Trim(s) == t <==> exists j: nat, k: nat :: TrimmedAt(s, j, k) && s[j..k] == t
  {
    var j := TrimStartAt(s);
    var k := TrimEndAt(s[j..]);
    assert s[j..][..k] == s[j..j + k];
    assert TrimmedAt(s, j, j + k);
    if j': nat, k': nat :| TrimmedAt(s, j', k') && s[j'..k'] == t {
      if j' < k' {
        assert j == j' && j + k == k';
      }
    }
  }

  lemma UpperExactly(c: char)
    ensures ToUpperChar(c) as int == if 97 <= c as int <= 122 then c as int - 32 else c as int
  {
  }

  // ---------- decimal numerals ----------

  function Numeral(n: nat): (s: string)
    ensures |s| >= 1
    ensures forall i :: 0 <= i < |s| ==> '0' <= s[i] <= '9'
  {
    if n < 10 then ['0' + n as char] else Numeral(n / 10) + ['0' + (n % 10) as char]
  }

  /** The value of a string of digits. */
  function DigitsValue(s: string): nat
    requires forall i :: 0 <= i < |s| ==> '0' <= s[i] <= '9'
  {
    if s == "" then 0 else 10 * DigitsValue(s[..|s| - 1]) + (s[|s| - 1] - '0') as nat
  }

  lemma {:induction false} NumeralValue(n: nat)
    ensures DigitsValue(Numeral(n)) == n
  {
    if n >= 10 {
      NumeralValue(n / 10);
      assert Numeral(n)[..|Numeral(n)| - 1] == Numeral(n / 10);
    } else {
      assert Numeral(n)[..0] == "";
    }
  }

  lemma NumeralInjective(m: nat, n: nat)
    requires Numeral(m) == Numeral(n)
    ensures m == n
  {
    NumeralValue(m);
    NumeralValue(n);
  }
}
