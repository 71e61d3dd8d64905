/** String helpers shared by the report tools: Python's `str(int)` for the
    citation ordinals, `"".join`/`sep.join`, `str.split`, and ASCII upper-casing. */
module Text {

  /** The decimal digit character for `d`. */
  function Digit(d: nat): (c: char)
    requires d < 10
    ensures '0' <= c <= '9' && c as int - '0' as int == d
  {
    ('0' as int + d) as char
  }

  predicate IsDigits(s: string) {
    forall i :: 0 <= i < |s| ==> '0' <= s[i] <= '9'
  }

  /** Python's `str(n)` for a non-negative integer: its decimal digits, no sign,
      no leading zeros. */
  function Show(n: nat): (s: string)
    ensures |s| >= 1 && IsDigits(s)
    ensures s[0] == '0' ==> n == 0
  {
    if n < 10 then [Digit(n)] else Show(n / 10) + [Digit(n % 10)]
  }

  /** Reads a string of decimal digits back as a number (the inverse of Show). */
  function ParseNat(s: string): nat
    requires IsDigits(s)
  {
    if |s| == 0 then 0
    else ParseNat(s[..|s| - 1]) * 10 + (s[|s| - 1] as int - '0' as int)
  }

  lemma {:induction false} ParseShow(n: nat)
    ensures ParseNat(Show(n)) == n
  {
    if n >= 10 {
      var s := Show(n);
      assert s[..|s| - 1] == Show(n / 10);
      ParseShow(n / 10);
    }
  }

  /** Different numbers are rendered differently. */
  lemma ShowInjective(m: nat, n: nat)
    requires Show(m) == Show(n)
    ensures m == n
  {
    ParseShow(m);
    ParseShow(n);
  }

  /** The citation marker `[n]` used by every numbered listing of search results. */
  function Label(n: nat): (s: string)
    ensures |s| >= 3 && s[0] == '[' && s[|s| - 1] == ']'
  {
    "[" + Show(n) + "]"
  }

  /** No citation marker is a prefix of another one: a reader who sees `[k]` at the
      head of a line knows k, even when k and a larger ordinal share leading digits. */
  lemma LabelPrefixFree(j: nat, k: nat)
    requires j != k
    ensures !(|Label(j)| <= |Label(k)| && Label(k)[..|Label(j)|] == Label(j))
  {
    var sj, sk := Show(j), Show(k);
    if |Label(j)| <= |Label(k)| && Label(k)[..|Label(j)|] == Label(j) && |sj| == |sk| {
      assert sj == Label(j)[1..|sj| + 1];
      assert sk == Label(k)[1..|sk| + 1];
      ShowInjective(j, k);
    }
  }

  /** `"".join(parts)`: the parts, in order, with nothing between them. */
  function Concat(parts: seq<string>): (s: string)
    ensures |parts| == 0 ==> s == ""
  {
    if |parts| == 0 then "" else parts[0] + Concat(parts[1..])
  }

  lemma {:induction false} ConcatAppend(a: seq<string>, b: seq<string>)
    ensures Concat(a + b) == Concat(a) + Concat(b)
  {
    if |a| > 0 {
      assert (a + b)[1..] == a[1..] + b;
      ConcatAppend(a[1..], b);
    } else {
      assert a + b == b;
    }
  }

  /** Appending one part at the end of the list appends it to the text. */
  lemma ConcatSnoc(a: seq<string>, x: string)
    ensures Concat(a + [x]) == Concat(a) + x
  {
    ConcatAppend(a, [x]);
    assert Concat([x]) == x + Concat([]);
  }

  /** The k-th part sits in the text right after the parts before it and right
      before the parts after it. */
  lemma ConcatAt(parts: seq<string>, k: nat)
    requires k < |parts|
    ensures Concat(parts) == Concat(parts[..k]) + parts[k] + Concat(parts[k + 1..])
  {
    var pre, post := parts[..k], parts[k + 1..];
    assert Concat(parts) == Concat(pre) + Concat(parts[k..]) by {
      assert parts == pre + parts[k..];
      ConcatAppend(pre, parts[k..]);
    }
    assert Concat(parts[k..]) == parts[k] + Concat(post) by {
      assert parts[k..] == [parts[k]] + post;
      assert ([parts[k]] + post)[1..] == post;
    }
    Assoc(Concat(pre), parts[k], Concat(post));
  }

  /** Regrouping a concatenation of three strings. */
  lemma Assoc(a: string, b: string, c: string)
    ensures a + (b + c) == a + b + c
  {
  }

  /** Python's `sep.join(parts)`: the separator goes between parts only, so an
      empty list gives the empty string and one part gives that part. */
  function Join(parts: seq<string>, sep: string): string {
    if |parts| == 0 then ""
    else if |parts| == 1 then parts[0]
    else parts[0] + sep + Join(parts[1..], sep)
  }

  lemma {:induction false} JoinSnoc(parts: seq<string>, x: string, sep: string)
    requires |parts| > 0
    ensures Join(parts + [x], sep) == Join(parts, sep) + sep + x
  {
    if |parts| == 1 {
      assert (parts + [x])[1..] == [x];
    } else {
      assert (parts + [x])[1..] == parts[1..] + [x];
      JoinSnoc(parts[1..], x, sep);
    }
  }

  /** Number of occurrences of `c` in `s`. */
  function Occurrences(s: string, c: char): nat {
    multiset(s)[c]
  }

  predicate Free(s: string, c: char) {
    c !in s
  }

  /** Joining c-free parts with the one-character separator `c` puts exactly
      one `c` between consecutive parts, and nowhere else. */
  lemma {:induction false} JoinOccurrences(parts: seq<string>, c: char)
    requires |parts| > 0
    requires forall i :: 0 <= i < |parts| ==> Free(parts[i], c)
    ensures Occurrences(Join(parts, [c]), c) == |parts| - 1
  {
    if |parts| > 1 {
      JoinOccurrences(parts[1..], c);
      assert multiset(parts[0] + [c] + Join(parts[1..], [c])) ==
        multiset(parts[0]) + multiset([c]) + multiset(Join(parts[1..], [c]));
    }
  }

  /** Python's `s.split(c)` for a one-character separator: always at least one
      field; a string ending in `c` ends with an empty field. */
  function Split(s: string, c: char): (r: seq<string>)
    ensures |r| >= 1
  {
    if |s| == 0 then [""]
    else
      var rest := Split(s[1..], c);
      if s[0] == c then [""] + rest
      else [[s[0]] + rest[0]] + rest[1..]
  }

  lemma {:induction false} SplitFree(a: string, c: char)
    requires Free(a, c)
    ensures Split(a, c) == [a]
  {
    if |a| > 0 {
      SplitFree(a[1..], c);
      assert [a[0]] + a[1..] == a;
    }
  }

  /** A c-free field followed by `c` splits off as one field. */
  lemma {:induction false} SplitField(a: string, c: char, t: string)
    requires Free(a, c)
    ensures Split(a + [c] + t, c) == [a] + Split(t, c)
  {
    if |a| == 0 {
      assert a + [c] + t == [c] + t;
      assert ([c] + t)[1..] == t;
    } else {
      assert (a + [c] + t)[1..] == a[1..] + [c] + t;
      SplitField(a[1..], c, t);
      assert [a[0]] + a[1..] == a;
    }
  }

  /** Splitting undoes joining, whenever no part contains the separator. */
  lemma {:induction false} SplitJoin(parts: seq<string>, c: char)
    requires |parts| > 0
    requires forall i :: 0 <= i < |parts| ==> Free(parts[i], c)
    ensures Split(Join(parts, [c]), c) == parts
  {
    if |parts| == 1 {
      SplitFree(parts[0], c);
    } else {
      SplitField(parts[0], c, Join(parts[1..], [c]));
      SplitJoin(parts[1..], c);
    }
  }

  /** Each string followed by one newline: a text of complete lines. */
  function Lines(xs: seq<string>): string {
    if |xs| == 0 then "" else xs[0] + "\n" + Lines(xs[1..])
  }

  /** A text of newline-free lines has one newline per line, and splitting it
      at newlines gives back the lines followed by one empty field. */
  lemma {:induction false} SplitLines(xs: seq<string>)
    requires forall i :: 0 <= i < |xs| ==> Free(xs[i], '\n')
    ensures Occurrences(Lines(xs), '\n') == |xs|
    ensures Split(Lines(xs), '\n') == xs + [""]
  {
    if |xs| > 0 {
      SplitLines(xs[1..]);
      SplitField(xs[0], '\n', Lines(xs[1..]));
      assert multiset(xs[0] + "\n" + Lines(xs[1..])) ==
        multiset(xs[0]) + multiset("\n") + multiset(Lines(xs[1..]));
      assert [xs[0]] + (xs[1..] + [""]) == xs + [""];
    }
  }

  /** Appending each line with its own newline builds the same text. */
  lemma {:induction false} ConcatLines(xs: seq<string>)
    ensures Concat(seq(|xs|, k requires 0 <= k < |xs| => xs[k] + "\n")) == Lines(xs)
  {
    var parts := seq(|xs|, k requires 0 <= k < |xs| => xs[k] + "\n");
    if |xs| > 0 {
      ConcatLines(xs[1..]);
      assert parts[1..] == seq(|xs[1..]|, k requires 0 <= k < |xs[1..]| => xs[1..][k] + "\n");
    }
  }

  /** The k-th part of a join sits between the parts before and after it,
      with one separator on each side that has parts. */
  lemma {:induction false} JoinAt(parts: seq<string>, sep: string, k: nat)
    requires k < |parts|
    ensures Join(parts, sep) ==
      (if k == 0 then "" else Join(parts[..k], sep) + sep) + parts[k]
        + (if k == |parts| - 1 then "" else sep + Join(parts[k + 1..], sep))
  {
    if k > 0 {
      JoinAt(parts[1..], sep, k - 1);
      assert parts[1..][k - 1] == parts[k];
      assert parts[1..][k..] == parts[k + 1..];
      if k > 1 {
        assert parts[..k][1..] == parts[1..][..k - 1];
      } else {
        assert parts[..k] == [parts[0]];
      }
    }
  }

  /** The upper-case form of an ASCII letter; every other character is kept. */
  function UpperChar(c: char): char {
    if 'a' <= c <= 'z' then (c as int - 'a' as int + 'A' as int) as char else c
  }

  /** `str.upper()` restricted to ASCII letters. */
  function Upper(s: string): (r: string)
    ensures |r| == |s|
  {
    seq(|s|, i requires 0 <= i < |s| => UpperChar(s[i]))
  }

  /** Upper-casing leaves no lower-case ASCII letter, keeps every other
      character, and doing it twice is the same as doing it once. */
  lemma UpperNormalises(s: string)
    ensures forall i :: 0 <= i < |s| ==> !('a' <= Upper(s)[i] <= 'z')
    ensures forall i :: 0 <= i < |s| && !('a' <= s[i] <= 'z') ==> Upper(s)[i] == s[i]
    ensures Upper(Upper(s)) == Upper(s)
  {
  }
}
