/**
 The string primitives the client's components rely on, written out over
 `seq<char>`: JavaScript whitespace (what `trim` strips and `/\s/` matches),
 ASCII case mapping, prefix and substring tests, `join`, `split(" ")`,
 `split(/\s+/)` and decimal rendering of counts.
 */
module Strings {

  /** JavaScript's WhiteSpace and LineTerminator code points. */
  predicate IsSpace(c: char) {
    || c == ' ' || c == '\t' || c == '\n' || c == '\r' || c == '\U{000B}' || c == '\U{000C}'
    || c == '\U{00A0}' || c == '\U{1680}' || ('\U{2000}' <= c <= '\U{200A}')
    || c == '\U{2028}' || c == '\U{2029}' || c == '\U{202F}' || c == '\U{205F}'
    || c == '\U{3000}' || c == '\U{FEFF}'
  }

  /** A string made only of whitespace (the empty string included). */
  predicate IsBlank(s: string) {
    forall i :: 0 <= i < |s| ==> IsSpace(s[i])
  }

  /** `s.trimStart()`: drops the leading whitespace and nothing else. */
  function TrimStart(s: string): (r: string)
    ensures |r| <= |s| && r == s[|s| - |r|..]
    ensures r == "" || !IsSpace(r[0])
    ensures forall i :: 0 <= i < |s| - |r| ==> IsSpace(s[i])
  {
    if |s| > 0 && IsSpace(s[0]) then TrimStart(s[1..]) else s
  }

  /** `s.trimEnd()`: drops the trailing whitespace and nothing else. */
  function TrimEnd(s: string): (r: string)
    ensures |r| <= |s| && r == s[..|r|]
    ensures r == "" || !IsSpace(r[|r| - 1])
    ensures forall i :: |r| <= i < |s| ==> IsSpace(s[i])
  {
    if |s| > 0 && IsSpace(s[|s| - 1]) then TrimEnd(s[..|s| - 1]) else s
  }

  /** The number of whitespace characters `trim` drops at the front. */
  function LeadingSpaces(s: string): (n: nat)
    ensures n <= |s|
    ensures forall i :: 0 <= i < n ==> IsSpace(s[i])
  {
    |s| - |TrimStart(s)|
  }

  /** `s.trim()`: the slice of `s` after its leading whitespace, with no whitespace at either end. */
  function Trim(s: string): (r: string)
    ensures LeadingSpaces(s) + |r| <= |s|
    ensures r == s[LeadingSpaces(s)..LeadingSpaces(s) + |r|]
    ensures r == "" || (!IsSpace(r[0]) && !IsSpace(r[|r| - 1]))
    ensures forall i :: LeadingSpaces(s) + |r| <= i < |s| ==> IsSpace(s[i])
  {
    var t := TrimStart(s);
    var r := TrimEnd(t);
    assert r == s[|s| - |t|..][..|r|];
    r
  }

  /** `!s.trim()` in the source: the trimmed string is empty exactly for blank input. */
  lemma {:induction false} TrimEmptyIffBlank(s: string)
    ensures Trim(s) == "" <==> IsBlank(s)
  {
    var t := TrimStart(s);
    if !IsBlank(s) {
      var i :| 0 <= i < |s| && !IsSpace(s[i]);
      assert i >= |s| - |t|;
      assert t != "" && !IsSpace(t[0]);
    }
  }

  /** Trimming is idempotent. */
  lemma TrimIdempotent(s: string)
    ensures Trim(Trim(s)) == Trim(s)
  {
  }

  /** `String.prototype.toUpperCase` restricted to ASCII letters. */
  function UpperChar(c: char): (r: char)
    ensures 'a' <= c <= 'z' ==> r as int == c as int - 32
    ensures !('a' <= c <= 'z') ==> r == c
  {
    if 'a' <= c <= 'z' then (c as int - 32) as char else c
  }

  /** `String.prototype.toLowerCase` restricted to ASCII letters. */
  function LowerChar(c: char): (r: char)
    ensures 'A' <= c <= 'Z' ==> r as int == c as int + 32
    ensures !('A' <= c <= 'Z') ==> r == c
  {
    if 'A' <= c <= 'Z' then (c as int + 32) as char else c
  }

  function Upper(s: string): (r: string)
    ensures |r| == |s|
    ensures forall i :: 0 <= i < |s| ==> r[i] == UpperChar(s[i])
  {
    seq(|s|, i requires 0 <= i < |s| => UpperChar(s[i]))
  }

  function Lower(s: string): (r: string)
    ensures |r| == |s|
    ensures forall i :: 0 <= i < |s| ==> r[i] == LowerChar(s[i])
  {
    seq(|s|, i requires 0 <= i < |s| => LowerChar(s[i]))
  }

  /** Upper-casing leaves no lower-case ASCII letter behind. */
  lemma UpperHasNoLowerCase(s: string)
    ensures forall i :: 0 <= i < |Upper(s)| ==> !('a' <= Upper(s)[i] <= 'z')
  {
  }

  predicate StartsWith(s: string, prefix: string) {
    |prefix| <= |s| && s[..|prefix|] == prefix
  }

  predicate EndsWith(s: string, suffix: string) {
    |suffix| <= |s| && s[|s| - |suffix|..] == suffix
  }

  /** `s.includes(sub)`: `sub` occurs at some position of `s`. */
  predicate Contains(s: string, sub: string)
    decreases |s|
  {
    StartsWith(s, sub) || (|s| > 0 && Contains(s[1..], sub))
  }

  /** Occurrence at an explicit position witnesses `Contains`. */
  lemma {:induction false} ContainsAt(s: string, sub: string, k: nat)
    requires k + |sub| <= |s| && s[k..k + |sub|] == sub
    ensures Contains(s, sub)
    decreases k
  {
    if k > 0 {
      assert s[1..][k - 1..k - 1 + |sub|] == sub;
      ContainsAt(s[1..], sub, k - 1);
    }
  }

  /** A string contains each of its infixes. */
  lemma ContainsInfix(a: string, b: string, c: string)
    ensures Contains(a + b + c, b)
  {
    assert (a + b + c)[|a|..|a| + |b|] == b;
    ContainsAt(a + b + c, b, |a|);
  }

  /** Every string contains the empty string, so an empty query matches everything. */
  lemma ContainsEmpty(s: string)
    ensures Contains(s, "")
  {
  }

  /** `xs.join(sep)`. */
  function Join(xs: seq<string>, sep: string): string
  {
    if |xs| == 0 then "" else if |xs| == 1 then xs[0] else xs[0] + sep + Join(xs[1..], sep)
  }

  /** Appending one more item to a joined list appends the separator and the item. */
  lemma {:induction false} JoinSnoc(xs: seq<string>, sep: string, y: string)
    requires |xs| > 0
    ensures Join(xs + [y], sep) == Join(xs, sep) + sep + y
    decreases |xs|
  {
    if |xs| == 1 {
      assert (xs + [y])[1..] == [y];
    } else {
      assert (xs + [y])[1..] == xs[1..] + [y];
      JoinSnoc(xs[1..], sep, y);
    }
  }

  /** Every joined item occurs in the joined string. */
  lemma {:induction false} JoinContainsItem(xs: seq<string>, sep: string, i: nat)
    requires i < |xs|
    ensures Contains(Join(xs, sep), xs[i])
    decreases |xs|
  {
    if |xs| == 1 {
      assert Join(xs, sep) == "" + xs[0] + "";
      ContainsInfix("", xs[0], "");
    } else if i == 0 {
      ContainsInfix("", xs[0], sep + Join(xs[1..], sep));
      assert "" + xs[0] + (sep + Join(xs[1..], sep)) == Join(xs, sep);
    } else {
      JoinContainsItem(xs[1..], sep, i - 1);
      ContainsSuffixPart(xs[0] + sep, Join(xs[1..], sep), xs[i]);
    }
  }

  /** What a suffix contains, the whole string contains. */
  lemma {:induction false} ContainsSuffixPart(a: string, b: string, sub: string)
    requires Contains(b, sub)
    ensures Contains(a + b, sub)
    decreases |a|
  {
    if |a| > 0 {
      assert (a + b)[1..] == a[1..] + b;
      ContainsSuffixPart(a[1..], b, sub);
    } else {
      assert a + b == b;
    }
  }

  /** `s.split(sep)` for a one-character separator: never empty, and "" splits to [""]. */
  function SplitOn(s: string, sep: char): (r: seq<string>)
    ensures |r| >= 1
    ensures forall i, j :: 0 <= i < |r| && 0 <= j < |r[i]| ==> r[i][j] != sep
  {
    if s == "" then [""]
    else
      var rest := SplitOn(s[1..], sep);
      if s[0] == sep then [""] + rest else [[s[0]] + rest[0]] + rest[1..]
  }

  /** Splitting and re-joining with the same separator gives back the input. */
  lemma {:induction false} SplitJoinRoundTrip(s: string, sep: char)
    ensures Join(SplitOn(s, sep), [sep]) == s
    decreases |s|
  {
    if s != "" {
      var rest := SplitOn(s[1..], sep);
      SplitJoinRoundTrip(s[1..], sep);
      if s[0] == sep {
        assert SplitOn(s, sep) == [""] + rest;
        assert ([""] + rest)[1..] == rest;
      } else {
        var parts := [[s[0]] + rest[0]] + rest[1..];
        assert SplitOn(s, sep) == parts;
        if |rest| == 1 {
          assert Join(rest, [sep]) == rest[0];
        } else {
          assert Join(rest, [sep]) == rest[0] + [sep] + Join(rest[1..], [sep]);
          assert parts[1..] == rest[1..];
        }
      }
    }
  }

  /** A separator-free prefix glues onto the first piece of the split of what follows. */
  lemma {:induction false} SplitOnPrefix(w: string, t: string, sep: char)
    requires forall j :: 0 <= j < |w| ==> w[j] != sep
    ensures SplitOn(w + t, sep) == [w + SplitOn(t, sep)[0]] + SplitOn(t, sep)[1..]
    decreases |w|
  {
    if w == "" {
      assert w + t == t;
      assert w + SplitOn(t, sep)[0] == SplitOn(t, sep)[0];
      assert [SplitOn(t, sep)[0]] + SplitOn(t, sep)[1..] == SplitOn(t, sep);
    } else {
      assert (w + t)[1..] == w[1..] + t;
      SplitOnPrefix(w[1..], t, sep);
      assert [w[0]] + (w[1..] + SplitOn(t, sep)[0]) == w + SplitOn(t, sep)[0];
    }
  }

  /** Joining separator-free pieces and splitting again gives back the pieces. */
  lemma {:induction false} JoinSplitRoundTrip(ws: seq<string>, sep: char)
    requires |ws| >= 1
    requires forall i, j :: 0 <= i < |ws| && 0 <= j < |ws[i]| ==> ws[i][j] != sep
    ensures SplitOn(Join(ws, [sep]), sep) == ws
    decreases |ws|
  {
    if |ws| == 1 {
      SplitOnPrefix(ws[0], "", sep);
      assert ws[0] + "" == ws[0];
    } else {
      var rest := Join(ws[1..], [sep]);
      JoinSplitRoundTrip(ws[1..], sep);
      assert Join(ws, [sep]) == ws[0] + ([sep] + rest);
      SplitOnPrefix(ws[0], [sep] + rest, sep);
      assert ([sep] + rest)[1..] == rest;
      assert ws[0] + "" == ws[0];
      assert ws == [ws[0]] + ws[1..];
    }
  }

  /** The longest prefix of `s` without whitespace. */
  function Run(s: string): (r: string)
    ensures |r| <= |s| && r == s[..|r|]
    ensures forall i :: 0 <= i < |r| ==> !IsSpace(r[i])
    ensures |r| == |s| || IsSpace(s[|r|])
  {
    if s == "" || IsSpace(s[0]) then "" else [s[0]] + Run(s[1..])
  }

  /** The maximal non-whitespace runs of `s`, in order. */
  function Tokens(s: string): (r: seq<string>)
    ensures forall i :: 0 <= i < |r| ==> |r[i]| > 0
    ensures forall i, j :: 0 <= i < |r| && 0 <= j < |r[i]| ==> !IsSpace(r[i][j])
    ensures s != "" && !IsSpace(s[0]) ==> |r| > 0 && r[0] == Run(s)
    decreases |s|
  {
    if s == "" then []
    else if IsSpace(s[0]) then Tokens(s[1..])
    else
      var w := Run(s);
      [w] + Tokens(s[|w|..])
  }

  /**
   `s.trim().split(/\s+/)`: the trimmed string has no whitespace at either end, so
   the regular-expression split yields its whitespace-free runs, except that an
   empty string splits into the single word "".
   */
  function Words(s: string): (r: seq<string>)
    ensures |r| >= 1
    ensures IsBlank(s) <==> r == [""]
  {
    var t := Trim(s);
    TrimEmptyIffBlank(s);
    if t == "" then [""] else Tokens(t)
  }

  function DigitChar(d: nat): (c: char)
    requires d < 10
    ensures '0' <= c <= '9'
  {
    ('0' as int + d) as char
  }

  /** Decimal rendering of a count, as template literals print numbers. */
  function NatToString(n: nat): (r: string)
    ensures |r| >= 1
    ensures forall i :: 0 <= i < |r| ==> '0' <= r[i] <= '9'
  {
    if n < 10 then [DigitChar(n)] else NatToString(n / 10) + [DigitChar(n % 10)]
  }
}
