/**
 * The string operations of Python that the bot's formatting code relies on:
 * `str()` of an integer, ASCII `str.lower`, `str.replace`, `str.join` and
 * `str.split`, each stated over Dafny's `seq<char>`.
 */
module Text {

  predicate IsDigit(c: char) { '0' <= c <= '9' }

  predicate AllDigits(s: string) { forall i :: 0 <= i < |s| ==> IsDigit(s[i]) }

  function DigitChar(d: nat): (c: char)
    requires d < 10
    ensures IsDigit(c) && c as int - '0' as int == d
  {
    ('0' as int + d) as char
  }

  /** Decimal rendering of a non-negative integer, as `str(n)` prints it. */
  function NatStr(n: nat): (s: string)
    ensures |s| >= 1 && AllDigits(s)
    ensures s[0] == '0' ==> n == 0 && s == "0"
    decreases n
  {
    if n < 10 then [DigitChar(n)] else NatStr(n / 10) + [DigitChar(n % 10)]
  }

  /** The value of a string of decimal digits (the inverse of NatStr). */
  function DigitsValue(s: string): nat
    requires AllDigits(s)
  {
    if s == [] then 0 else DigitsValue(s[..|s| - 1]) * 10 + (s[|s| - 1] as int - '0' as int)
  }

  /** NatStr loses nothing: reading the digits back gives the number. */
  lemma {:induction false} NatStrRoundTrip(n: nat)
    ensures DigitsValue(NatStr(n)) == n
  {
    if n >= 10 {
      var s := NatStr(n);
      assert s[..|s| - 1] == NatStr(n / 10);
      NatStrRoundTrip(n / 10);
    }
  }

  /** NatStr is injective: distinct numbers print differently. */
  lemma NatStrInjective(a: nat, b: nat)
    requires NatStr(a) == NatStr(b)
    ensures a == b
  {
    NatStrRoundTrip(a);
    NatStrRoundTrip(b);
  }

  /** `str(i)` of a Python int, with a leading '-' when it is negative. */
  function IntStr(i: int): string
  {
    if i < 0 then "-" + NatStr(-i) else NatStr(i)
  }

  /** IntStr prints the digits of |i|, after a '-' exactly when i is negative, and they read back as |i|. */
  lemma IntStrDigits(i: int)
    ensures |IntStr(i)| >= 1
    ensures i >= 0 ==> AllDigits(IntStr(i)) && DigitsValue(IntStr(i)) == i
    ensures i < 0 ==> IntStr(i)[0] == '-' && AllDigits(IntStr(i)[1..]) && DigitsValue(IntStr(i)[1..]) == -i
  {
    NatStrRoundTrip(if i < 0 then -i else i);
    if i < 0 {
      assert IntStr(i)[1..] == NatStr(-i);
    }
  }

  predicate IsUpper(c: char) { 'A' <= c <= 'Z' }

  /** No ASCII capital letter occurs in s. */
  predicate NoUpper(s: string) { forall i :: 0 <= i < |s| ==> !IsUpper(s[i]) }

  function LowerChar(c: char): (r: char)
    ensures !IsUpper(r)
    ensures !IsUpper(c) ==> r == c
    ensures IsUpper(c) ==> 'a' <= r <= 'z' && r as int == c as int + 32
  {
    if IsUpper(c) then (c as int + 32) as char else c
  }

  /** `str.lower` restricted to ASCII: capitals become small letters, every other character stays. */
  function Lower(s: string): (r: string)
    ensures |r| == |s| && NoUpper(r)
    ensures forall i :: 0 <= i < |s| && !IsUpper(s[i]) ==> r[i] == s[i]
    ensures forall i :: 0 <= i < |s| && IsUpper(s[i]) ==> r[i] as int == s[i] as int + 32
    ensures NoUpper(s) ==> r == s
  {
    seq(|s|, i requires 0 <= i < |s| => LowerChar(s[i]))
  }

  lemma LowerIdempotent(s: string)
    ensures Lower(Lower(s)) == Lower(s)
  {
  }

  /** Lowering brings in no character other than a small letter. */
  lemma LowerKeepsOut(s: string, c: char)
    requires c !in s && !('a' <= c <= 'z')
    ensures c !in Lower(s)
  {
    forall i | 0 <= i < |s| ensures Lower(s)[i] != c {
      assert Lower(s)[i] == LowerChar(s[i]);
    }
  }

  /**
   * `s.replace(pat, rep)`: every non-overlapping occurrence of pat, found from
   * left to right, is replaced by rep; an empty pat inserts rep before every
   * character and at the end, as Python does.
   */
  function Replace(s: string, pat: string, rep: string): string
    decreases |s|
  {
    if pat == [] then
      if s == [] then rep else rep + [s[0]] + Replace(s[1..], pat, rep)
    else if |s| < |pat| then s
    else if s[..|pat|] == pat then rep + Replace(s[|pat|..], pat, rep)
    else [s[0]] + Replace(s[1..], pat, rep)
  }

  /** Every character of a replacement's result comes from s or from rep. */
  lemma {:induction false} ReplaceChars(s: string, pat: string, rep: string, x: char)
    requires x in Replace(s, pat, rep)
    ensures x in s || x in rep
    decreases |s|
  {
    if pat == [] {
      if s != [] && x !in rep && x != s[0] {
        ReplaceChars(s[1..], pat, rep, x);
      }
    } else if |s| >= |pat| {
      if s[..|pat|] == pat {
        if x !in rep {
          ReplaceChars(s[|pat|..], pat, rep, x);
        }
      } else if x != s[0] {
        ReplaceChars(s[1..], pat, rep, x);
      }
    }
  }

  /** Replacing a single character by nothing removes every occurrence of it. */
  lemma {:induction false} ReplaceRemovesChar(s: string, c: char)
    ensures c !in Replace(s, [c], "")
    decreases |s|
  {
    if |s| >= 1 {
      ReplaceRemovesChar(s[1..], c);
      if s[..1] != [c] {
        assert s[0] != c;
      }
    }
  }

  /** A replacement that introduces no capital letter leaves a capital-free string capital-free. */
  lemma ReplaceKeepsNoUpper(s: string, pat: string, rep: string)
    requires NoUpper(s) && NoUpper(rep)
    ensures NoUpper(Replace(s, pat, rep))
  {
    var r := Replace(s, pat, rep);
    forall i | 0 <= i < |r| ensures !IsUpper(r[i]) {
      ReplaceChars(s, pat, rep, r[i]);
    }
  }

  /** A replacement keeps out a character that neither s nor rep holds. */
  lemma ReplaceKeepsOut(s: string, pat: string, rep: string, c: char)
    requires c !in s && c !in rep
    ensures c !in Replace(s, pat, rep)
  {
    if c in Replace(s, pat, rep) {
      ReplaceChars(s, pat, rep, c);
    }
  }

  /** Replacing a character that does not occur changes nothing. */
  lemma {:induction false} ReplaceAbsentChar(s: string, c: char, rep: string)
    requires c !in s
    ensures Replace(s, [c], rep) == s
    decreases |s|
  {
    if s != [] {
      ReplaceAbsentChar(s[1..], c, rep);
      assert [s[0]] + s[1..] == s;
    }
  }

  /** Deleting a character that occurs exactly once joins the text before it to the text after it. */
  lemma {:induction false} ReplaceCut(a: string, b: string, c: char)
    requires c !in a && c !in b
    ensures Replace(a + [c] + b, [c], "") == a + b
    decreases |a|
  {
    var s := a + [c] + b;
    if a == [] {
      assert s[..1] == [c];
      assert s[1..] == b;
      ReplaceAbsentChar(b, c, "");
    } else {
      assert s[0] == a[0] && a[0] != c;
      assert s[..1] != [c];
      assert s[1..] == a[1..] + [c] + b;
      ReplaceCut(a[1..], b, c);
      assert [a[0]] + (a[1..] + b) == a + b;
    }
  }

  /** A text that is exactly the pattern is replaced as a whole. */
  lemma ReplaceWhole(pat: string, rep: string)
    requires |pat| >= 1
    ensures Replace(pat, pat, rep) == rep
  {
    assert pat[..|pat|] == pat;
    assert pat[|pat|..] == [];
    assert rep + [] == rep;
  }

  /** Python's `sep.join(xs)`. */
  function Join(xs: seq<string>, sep: string): string
  {
    if |xs| == 0 then "" else if |xs| == 1 then xs[0] else xs[0] + sep + Join(xs[1..], sep)
  }

  lemma JoinThree(a: string, b: string, c: string, sep: string)
    ensures Join([a, b, c], sep) == a + sep + b + sep + c
  {
    assert [a, b, c][1..] == [b, c];
    assert [b, c][1..] == [c];
    assert Join([c], sep) == c;
    assert Join([b, c], sep) == b + sep + c;
  }

  /** Python's `s.split(c)` for a one-character separator: there is always at least one piece. */
  function Split(s: string, c: char): (parts: seq<string>)
    ensures |parts| >= 1
  {
    if s == [] then [""]
    else if s[0] == c then [""] + Split(s[1..], c)
    else var rest := Split(s[1..], c); [[s[0]] + rest[0]] + rest[1..]
  }

  lemma {:induction false} SplitNoSeparator(a: string, c: char)
    requires c !in a
    ensures Split(a, c) == [a]
    decreases |a|
  {
    if a != [] {
      SplitNoSeparator(a[1..], c);
      assert [a[0]] + a[1..] == a;
    }
  }

  lemma {:induction false} SplitAfterPiece(a: string, b: string, c: char)
    requires c !in a
    ensures Split(a + [c] + b, c) == [a] + Split(b, c)
    decreases |a|
  {
    if a == [] {
      assert a + [c] + b == [c] + b;
      assert ([c] + b)[1..] == b;
    } else {
      SplitAfterPiece(a[1..], b, c);
      assert (a + [c] + b)[1..] == a[1..] + [c] + b;
      assert [a[0]] + a[1..] == a;
    }
  }

  /** Splitting a join on its separator gives the pieces back when no piece holds the separator. */
  lemma {:induction false} SplitJoin(xs: seq<string>, c: char)
    requires |xs| >= 1
    requires forall k :: 0 <= k < |xs| ==> c !in xs[k]
    ensures Split(Join(xs, [c]), c) == xs
    decreases |xs|
  {
    if |xs| == 1 {
      SplitNoSeparator(xs[0], c);
    } else {
      SplitJoin(xs[1..], c);
      SplitAfterPiece(xs[0], Join(xs[1..], [c]), c);
      assert [xs[0]] + xs[1..] == xs;
    }
  }
}
