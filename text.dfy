/** Text helpers shared by the model: Rust's `str::split`, `strip_suffix`,
    `String::truncate` and the decimal rendering of `format!("{}", n)`.
    Strings are sequences of characters; the byte-versus-character
    distinction of Rust strings is not modelled. */
module Text {

  /** `s.ends_with(suffix)` */
  predicate EndsWith(s: string, suffix: string) {
    |suffix| <= |s| && s[|s| - |suffix|..] == suffix
  }

  /** `s.strip_suffix(suffix)`: the text before `suffix` when `s` ends with it. */
  function StripSuffix(s: string, suffix: string): (r: string)
    ensures EndsWith(s, suffix) ==> r + suffix == s
    ensures !EndsWith(s, suffix) ==> r == s
  {
    if EndsWith(s, suffix) then s[..|s| - |suffix|] else s
  }

  /** `s.split(c)`: the pieces between occurrences of `c`, always at least one. */
  function Split(s: string, c: char): (r: seq<string>)
    ensures |r| >= 1
  {
    if s == [] then [[]]
    else
      var rest := Split(s[1..], c);
      if s[0] == c then [[]] + rest else [[s[0]] + rest[0]] + rest[1..]
  }

  /** The inverse of `Split`: the pieces glued back with `c`. */
  function Join(parts: seq<string>, c: char): string
  {
    if parts == [] then []
    else if |parts| == 1 then parts[0]
    else parts[0] + [c] + Join(parts[1..], c)
  }

  lemma {:induction false} SplitJoin(s: string, c: char)
    ensures Join(Split(s, c), c) == s
    ensures forall i :: 0 <= i < |Split(s, c)| ==> c !in Split(s, c)[i]
  {
    if s != [] {
      var rest := Split(s[1..], c);
      SplitJoin(s[1..], c);
      if s[0] == c {
        assert Split(s, c) == [[]] + rest;
        assert Split(s, c)[1..] == rest;
      } else {
        var r := Split(s, c);
        assert r == [[s[0]] + rest[0]] + rest[1..];
        if |rest| == 1 {
          assert rest[0] == s[1..];
          assert [s[0]] + s[1..] == s;
          assert r == [s];
        } else {
          assert r[1..] == rest[1..];
          assert Join(rest, c) == rest[0] + [c] + Join(rest[1..], c);
        }
        forall i | 0 <= i < |r| ensures c !in r[i] {
          if i == 0 { assert r[0] == [s[0]] + rest[0]; } else { assert r[i] == rest[i]; }
        }
      }
    }
  }

  /** A text without `c` splits into itself alone. */
  lemma {:induction false} SplitWithout(s: string, c: char)
    requires c !in s
    ensures Split(s, c) == [s]
  {
    if s != [] {
      SplitWithout(s[1..], c);
      assert [s[0]] + s[1..] == s;
    }
  }

  /** Splitting `a + [c] + b` where `a` has no `c` separates `a` first. */
  lemma {:induction false} SplitFirst(a: string, b: string, c: char)
    requires c !in a
    ensures Split(a + [c] + b, c) == [a] + Split(b, c)
  {
    if a == [] {
      assert ([c] + b)[1..] == b;
    } else {
      SplitFirst(a[1..], b, c);
      var s := a + [c] + b;
      assert s[0] == a[0] && s[1..] == a[1..] + [c] + b;
      var rest := Split(s[1..], c);
      assert rest[0] == a[1..] && rest[1..] == Split(b, c);
      assert [a[0]] + a[1..] == a;
    }
  }

  /** Joining more than one piece: the others joined, then `c`, then the last. */
  lemma {:induction false} JoinLast(parts: seq<string>, c: char)
    requires |parts| >= 2
    ensures Join(parts, c) == Join(parts[..|parts| - 1], c) + [c] + parts[|parts| - 1]
  {
    if |parts| == 2 {
      assert parts[..1] == [parts[0]];
      assert parts[1..] == [parts[1]];
    } else {
      JoinLast(parts[1..], c);
      assert parts[1..][..|parts| - 2] == parts[..|parts| - 1][1..];
      assert parts[1..][|parts| - 2] == parts[|parts| - 1];
    }
  }

  /** The last piece of `s.split(c)` holds no `c` and is the end of `s`,
      starting at the beginning of `s` or right after a `c`. */
  lemma SplitLast(s: string, c: char)
    ensures var parts := Split(s, c); var name := parts[|parts| - 1];
            && c !in name && |name| <= |s| && s[|s| - |name|..] == name
            && (|name| == |s| || s[|s| - |name| - 1] == c)
  {
    SplitJoin(s, c);
    var parts := Split(s, c);
    var name := parts[|parts| - 1];
    if |parts| >= 2 {
      JoinLast(parts, c);
      var pre := Join(parts[..|parts| - 1], c);
      assert s == pre + [c] + name;
      assert s[|s| - |name|..] == name;
    }
  }

  /** `String::truncate(n)`: keeps the first `n` characters. */
  function Truncate(s: string, n: nat): (r: string)
    ensures |r| <= n && |r| <= |s|
    ensures r == s[..|r|]
    ensures |s| <= n ==> r == s
    ensures |s| > n ==> r == s[..n]
  {
    if |s| > n then s[..n] else s
  }

  /** The decimal digit of `d`. */
  function Digit(d: nat): char
    requires d < 10
  {
    "0123456789"[d]
  }

  /** `format!("{}", n)` for a natural number. */
  function NatToString(n: nat): (r: string)
    ensures |r| >= 1
    ensures n >= 10 ==> |r| >= 2
  {
    if n < 10 then [Digit(n)] else NatToString(n / 10) + [Digit(n % 10)]
  }

  /** Distinct numbers render differently. */
  lemma {:induction false} NatToStringInjective(a: nat, b: nat)
    requires NatToString(a) == NatToString(b)
    ensures a == b
  {
    if a >= 10 && b >= 10 {
      var sa, sb := NatToString(a / 10), NatToString(b / 10);
      assert NatToString(a) == sa + [Digit(a % 10)];
      assert NatToString(b) == sb + [Digit(b % 10)];
      assert |sa| == |sb|;
      assert sa == NatToString(a)[..|sa|];
      assert Digit(a % 10) == NatToString(a)[|sa|];
      NatToStringInjective(a / 10, b / 10);
    }
  }
}
