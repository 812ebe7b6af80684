/** Splitting and joining text the way Go's `strings` package does, with the laws
    that the path code, the line tools and the column tools all rest on. */
module Strings {

  /** The first index at which `sep` occurs in `s`, or -1. */
  function Index(s: string, sep: string): (i: int)
    ensures -1 <= i <= |s|
    ensures i >= 0 ==> i + |sep| <= |s| && s[i..i + |sep|] == sep
  {
    if sep <= s then 0
    else if s == "" then -1
    else var j := Index(s[1..], sep);
      if j < 0 then -1 else j + 1
  }

  /** It is the first: `sep` does not occur further left, and if it occurs at all it is found. */
  lemma {:induction false} IndexIsFirst(s: string, sep: string, j: nat)
    requires j + |sep| <= |s| && s[j..j + |sep|] == sep
    ensures 0 <= Index(s, sep) <= j
  {
    if !(sep <= s) {
      assert j > 0;
      assert s[1..][j - 1..j - 1 + |sep|] == s[j..j + |sep|];
      IndexIsFirst(s[1..], sep, j - 1);
    }
  }

  /** `strings.Split` for a separator that is not empty. */
  function Split(s: string, sep: string): (parts: seq<string>)
    requires sep != ""
    ensures parts != []
    decreases |s|
  {
    var i := Index(s, sep);
    if i < 0 then [s] else [s[..i]] + Split(s[i + |sep|..], sep)
  }

  /** `strings.Join`. */
  function Join(parts: seq<string>, sep: string): string
  {
    if parts == [] then ""
    else if |parts| == 1 then parts[0]
    else parts[0] + sep + Join(parts[1..], sep)
  }

  ghost predicate FreeOf(parts: seq<string>, c: char)
  {
    forall i :: 0 <= i < |parts| ==> c !in parts[i]
  }

  lemma {:induction false} JoinOfSplit(s: string, sep: string)
    requires sep != ""
    ensures Join(Split(s, sep), sep) == s
    decreases |s|
  {
    var i := Index(s, sep);
    if i >= 0 {
      JoinOfSplit(s[i + |sep|..], sep);
      var rest := Split(s[i + |sep|..], sep);
      assert ([s[..i]] + rest)[1..] == rest;
      assert s == s[..i] + s[i..i + |sep|] + s[i + |sep|..];
    }
  }

  /** With a one-character separator the first occurrence is where the character first stands. */
  lemma {:induction false} IndexOfChar(a: string, c: char, b: string)
    requires c !in a
    ensures Index(a + [c] + b, [c]) == |a|
  {
    if a == "" {
      assert [c] <= a + [c] + b;
    } else {
      IndexOfChar(a[1..], c, b);
      var s := a + [c] + b;
      assert s[0] == a[0];
      assert s[1..] == a[1..] + [c] + b;
    }
  }

  lemma {:induction false} IndexAbsent(a: string, c: char)
    requires c !in a
    ensures Index(a, [c]) == -1
  {
    if a != "" {
      assert a[0] in a;
      IndexAbsent(a[1..], c);
    }
  }

  lemma {:induction false} SplitAtFirst(a: string, c: char, b: string)
    requires c !in a
    ensures Split(a + [c] + b, [c]) == [a] + Split(b, [c])
    ensures Split(a, [c]) == [a]
  {
    IndexOfChar(a, c, b);
    IndexAbsent(a, c);
    var s := a + [c] + b;
    assert s[..|a|] == a;
    assert s[|a| + 1..] == b;
  }

  lemma {:induction false} SplitIsFree(s: string, c: char)
    ensures FreeOf(Split(s, [c]), c)
    decreases |s|
  {
    if c in s {
      var k := FirstOf(s, c);
      assert s == s[..k] + [c] + s[k + 1..];
      SplitAtFirst(s[..k], c, s[k + 1..]);
      SplitIsFree(s[k + 1..], c);
    } else {
      SplitAtFirst(s, c, "");
    }
  }

  lemma {:induction false} FirstOf(s: string, c: char) returns (k: nat)
    requires c in s
    ensures k < |s| && s[k] == c && c !in s[..k]
  {
    if s[0] == c {
      k := 0;
    } else {
      var j := FirstOf(s[1..], c);
      k := j + 1;
      assert s[..k] == [s[0]] + s[1..][..j];
    }
  }

  lemma {:induction false} SplitOfJoin(parts: seq<string>, c: char)
    requires parts != [] && FreeOf(parts, c)
    ensures Split(Join(parts, [c]), [c]) == parts
  {
    if |parts| == 1 {
      SplitAtFirst(parts[0], c, "");
    } else {
      SplitOfJoin(parts[1..], c);
      SplitAtFirst(parts[0], c, Join(parts[1..], [c]));
      assert parts == [parts[0]] + parts[1..];
    }
  }

  /** Splitting a text that is itself glued at the separator splits both halves. */
  lemma {:induction false} SplitOfConcat(a: string, c: char, b: string)
    ensures Split(a + [c] + b, [c]) == Split(a, [c]) + Split(b, [c])
    decreases |a|
  {
    if c in a {
      var k := FirstOf(a, c);
      var head, tail := a[..k], a[k + 1..];
      assert a == head + [c] + tail;
      assert a + [c] + b == head + [c] + (tail + [c] + b);
      SplitOfConcat(tail, c, b);
      calc {
        Split(head + [c] + (tail + [c] + b), [c]);
        { SplitAtFirst(head, c, tail + [c] + b); }
        [head] + Split(tail + [c] + b, [c]);
        [head] + (Split(tail, [c]) + Split(b, [c]));
        ([head] + Split(tail, [c])) + Split(b, [c]);
        { SplitAtFirst(head, c, tail); }
        Split(a, [c]) + Split(b, [c]);
      }
    } else {
      SplitAtFirst(a, c, b);
    }
  }

  lemma {:induction false} JoinOfConcat(a: seq<string>, b: seq<string>, sep: string)
    requires a != [] && b != []
    ensures Join(a + b, sep) == Join(a, sep) + sep + Join(b, sep)
  {
    if |a| == 1 {
      assert (a + b)[1..] == b;
    } else {
      JoinOfConcat(a[1..], b, sep);
      assert (a + b)[1..] == a[1..] + b;
      assert Join(a + b, sep) == a[0] + sep + (Join(a[1..], sep) + sep + Join(b, sep));
    }
  }

  /** `unicode.IsSpace`, which `strings.TrimSpace` trims. */
  predicate IsSpace(c: char)
  {
    || '\t' <= c <= '\r' || c == ' ' || c == '\U{85}' || c == '\U{a0}' || c == '\U{1680}'
    || '\U{2000}' <= c <= '\U{200a}' || '\U{2028}' <= c <= '\U{2029}'
    || c == '\U{202f}' || c == '\U{205f}' || c == '\U{3000}'
  }

  /** `strings.TrimSpace(s) == ""`. */
  predicate IsBlank(s: string)
  {
    forall i :: 0 <= i < |s| ==> IsSpace(s[i])
  }

  /** `strings.TrimSpace`. */
  function TrimSpace(s: string): (r: string)
    ensures IsBlank(s) ==> r == ""
    ensures r != "" ==> !IsSpace(r[0]) && !IsSpace(r[|r| - 1])
    decreases |s|
  {
    if s == "" then ""
    else if IsSpace(s[0]) then TrimSpace(s[1..])
    else if IsSpace(s[|s| - 1]) then TrimSpace(s[..|s| - 1])
    else s
  }

  /** The text between two places, with blanks only on both sides of it. */
  ghost predicate IsTrimmedTo(s: string, i: nat, j: nat)
  {
    i <= j <= |s| && IsBlank(s[..i]) && IsBlank(s[j..])
  }

  lemma {:induction false} TrimmedInFront(s: string, i: nat, j: nat)
    requires s != "" && IsSpace(s[0]) && IsTrimmedTo(s[1..], i, j)
    ensures IsTrimmedTo(s, i + 1, j + 1) && s[i + 1..j + 1] == s[1..][i..j]
  {
    hide IsSpace;
    assert s[..i + 1] == [s[0]] + s[1..][..i] && s[j + 1..] == s[1..][j..];
    assert forall k :: i <= k < j ==> s[1..][k] == s[k + 1];
  }

  lemma {:induction false} TrimmedBehind(s: string, i: nat, j: nat)
    requires s != "" && IsSpace(s[|s| - 1]) && IsTrimmedTo(s[..|s| - 1], i, j)
    ensures IsTrimmedTo(s, i, j) && s[i..j] == s[..|s| - 1][i..j]
  {
    hide IsSpace;
    assert s[..i] == s[..|s| - 1][..i] && s[j..] == s[..|s| - 1][j..] + [s[|s| - 1]];
  }

  /** Trimming takes blanks off both ends and keeps all that lies between. */
  lemma {:induction false} TrimKeepsMiddle(s: string) returns (i: nat, j: nat)
    ensures IsTrimmedTo(s, i, j) && TrimSpace(s) == s[i..j]
    decreases |s|
  {
    hide IsSpace, IsBlank;
    if s == "" {
      i, j := 0, 0;
      NothingToTrim(s);
    } else if IsSpace(s[0]) {
      i, j := TrimKeepsMiddle(s[1..]);
      TrimmedInFront(s, i, j);
      hide IsTrimmedTo;
      i, j := i + 1, j + 1;
    } else if IsSpace(s[|s| - 1]) {
      i, j := TrimKeepsMiddle(s[..|s| - 1]);
      TrimmedBehind(s, i, j);
    } else {
      i, j := 0, |s|;
      NothingToTrim(s);
    }
  }

  lemma {:induction false} NothingToTrim(s: string)
    ensures IsTrimmedTo(s, 0, |s|) && s[0..|s|] == s
  {
  }

  /** `strconv.Itoa` of a number that is not negative. */
  function Itoa(n: nat): (s: string)
    ensures |s| > 0
    ensures forall i :: 0 <= i < |s| ==> '0' <= s[i] <= '9'
  {
    var digit := ['0' + (n % 10) as char];
    if n < 10 then digit else Itoa(n / 10) + digit
  }

  /** The number that decimal digits stand for. */
  function DecimalValue(digits: string): int
  {
    if digits == "" then 0
    else 10 * DecimalValue(digits[..|digits| - 1]) + (digits[|digits| - 1] as int - '0' as int)
  }

  /** It is the decimal notation: the digits stand for the number, without a zero in front. */
  lemma {:induction false} ItoaIsDecimal(n: nat)
    ensures DecimalValue(Itoa(n)) == n && (Itoa(n)[0] == '0' ==> n == 0)
  {
    var digit := ['0' + (n % 10) as char];
    assert digit[..0] == "" && DecimalValue("") == 0;
    if n >= 10 {
      ItoaIsDecimal(n / 10);
      assert Itoa(n) == Itoa(n / 10) + digit && Itoa(n)[..|Itoa(n)| - 1] == Itoa(n / 10);
    } else {
      assert DecimalValue(digit) == n;
    }
  }

  lemma {:induction false} ItoaInjective(m: nat, n: nat)
    requires Itoa(m) == Itoa(n)
    ensures m == n
    decreases m
  {
    var a, b := Itoa(m), Itoa(n);
    assert a[|a| - 1] == '0' + (m % 10) as char && b[|b| - 1] == '0' + (n % 10) as char;
    assert (|a| > 1 <==> m >= 10) && (|b| > 1 <==> n >= 10);
    if m >= 10 {
      assert a[..|a| - 1] == Itoa(m / 10) && b[..|b| - 1] == Itoa(n / 10);
      ItoaInjective(m / 10, n / 10);
    }
  }
}
