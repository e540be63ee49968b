/** String rules shared by the store and the views: case folding, substring
    search, trimming, word capitalisation and splitting on a separator.
    Foundation's Unicode and locale behaviour is modelled by its ASCII part. */
module Text {

  /** Foundation's `.whitespaces` character set (ASCII part): space and tab. */
  const Whitespaces: set<char> := {' ', '\t'}

  /** Foundation's `.whitespacesAndNewlines` (ASCII part): adds line feed,
      carriage return, vertical tab and form feed. */
  const WhitespacesAndNewlines: set<char> := {' ', '\t', '\n', '\r', 11 as char, 12 as char}

  predicate IsUpperAscii(c: char) { 'A' <= c <= 'Z' }

  predicate IsLowerAscii(c: char) { 'a' <= c <= 'z' }

  function LowerChar(c: char): (r: char)
    ensures !IsUpperAscii(r)
  {
    if IsUpperAscii(c) then (c as int - 'A' as int + 'a' as int) as char else c
  }

  function UpperChar(c: char): (r: char)
    ensures LowerChar(r) == LowerChar(c)
  {
    if IsLowerAscii(c) then (c as int - 'a' as int + 'A' as int) as char else c
  }

  /** `lowercased()`: the one case folding used for every case-insensitive
      comparison of the app. */
  function Lower(s: string): (r: string)
    ensures |r| == |s|
    ensures forall i :: 0 <= i < |r| ==> !IsUpperAscii(r[i])
    ensures forall i :: 0 <= i < |s| ==> UpperChar(r[i]) == UpperChar(s[i])
  {
    seq(|s|, i requires 0 <= i < |s| => LowerChar(s[i]))
  }

  /** Lower's contract fixes its result: a string of the same length, with no
      capital, that agrees with s up to case is Lower(s). */
  lemma LowerDetermined(s: string, r: string)
    requires |r| == |s|
    requires forall i :: 0 <= i < |r| ==> !IsUpperAscii(r[i])
    requires forall i :: 0 <= i < |s| ==> UpperChar(r[i]) == UpperChar(s[i])
    ensures r == Lower(s)
  {
    forall i | 0 <= i < |s| ensures r[i] == Lower(s)[i] {
      var c := s[i];
      assert UpperChar(r[i]) == UpperChar(c);
    }
  }

  /** `capitalized`: the first letter of every word upper-cased, the other
      letters lower-cased. */
  function Capitalize(s: string): (r: string)
    ensures |r| == |s|
    ensures Lower(r) == Lower(s)
  {
    var r := seq(|s|, i requires 0 <= i < |s| =>
      if i == 0 || s[i - 1] in WhitespacesAndNewlines then UpperChar(s[i]) else LowerChar(s[i]));
    assert forall i :: 0 <= i < |s| ==> Lower(r)[i] == Lower(s)[i];
    r
  }

  predicate StartsWith(s: string, prefix: string) {
    |prefix| <= |s| && s[..|prefix|] == prefix
  }

  /** `hay.contains(needle)`: needle occurs as a contiguous block of hay. */
  predicate Contains(hay: string, needle: string)
    decreases |hay|
  {
    StartsWith(hay, needle) || (hay != [] && Contains(hay[1..], needle))
  }

  /** `localizedCaseInsensitiveContains`, and `lowercased().contains(lowercased())`. */
  predicate ContainsIgnoringCase(hay: string, needle: string) {
    Contains(Lower(hay), Lower(needle))
  }

  /** A needle longer than hay is never found. */
  lemma {:induction false} NotContainsLonger(hay: string, needle: string)
    requires |needle| > |hay|
    ensures !Contains(hay, needle)
    decreases |hay|
  {
    if hay != [] {
      NotContainsLonger(hay[1..], needle);
    }
  }

  /** A block found inside a part of hay is found inside hay. */
  lemma {:induction false} ContainsAt(hay: string, needle: string, i: nat)
    requires i + |needle| <= |hay| && hay[i..i + |needle|] == needle
    ensures Contains(hay, needle)
    decreases i
  {
    if i > 0 {
      assert hay[1..][i - 1..i - 1 + |needle|] == hay[i..i + |needle|];
      ContainsAt(hay[1..], needle, i - 1);
    }
  }

  /** Case-insensitive containment ignores the case of both strings. */
  lemma ContainsIgnoringCaseOfEqualFolding(hay: string, needle: string)
    requires Lower(hay) == Lower(needle)
    ensures ContainsIgnoringCase(hay, needle)
  {
    ContainsAt(Lower(hay), Lower(needle), 0);
  }

  /** The number of leading characters of s that are in ws. */
  function LeadingIn(s: string, ws: set<char>): (n: nat)
    ensures n <= |s|
    ensures forall i :: 0 <= i < n ==> s[i] in ws
    ensures n == |s| || s[n] !in ws
  {
    if s != [] && s[0] in ws then 1 + LeadingIn(s[1..], ws) else 0
  }

  /** The number of trailing characters of s that are in ws. */
  function TrailingIn(s: string, ws: set<char>): (n: nat)
    ensures n <= |s|
    ensures forall i :: |s| - n <= i < |s| ==> s[i] in ws
    ensures n == |s| || s[|s| - 1 - n] !in ws
  {
    if s != [] && s[|s| - 1] in ws then 1 + TrailingIn(s[..|s| - 1], ws) else 0
  }

  /** `trimmingCharacters(in: ws)`: the block of s between its leading and
      trailing characters from ws. */
  function Trim(s: string, ws: set<char>): (r: string)
    ensures r == [] || (r[0] !in ws && r[|r| - 1] !in ws)
    ensures forall c :: c in r ==> c in s
    ensures r == [] <==> forall i :: 0 <= i < |s| ==> s[i] in ws
    ensures r != [] ==> (exists a :: 0 <= a <= |s| - |r| && r == s[a..][..|r|] &&
                          (forall i :: 0 <= i < a ==> s[i] in ws) &&
                          (forall i :: a + |r| <= i < |s| ==> s[i] in ws))
  {
    var a := LeadingIn(s, ws);
    if a == |s| then []
    else
      var b := TrailingIn(s, ws);
      assert a < |s| - b;
      var r := s[a..|s| - b];
      assert a + |r| == |s| - b && r == s[a..][..|r|];
      r
  }

  /** Trimming a string with no leading or trailing ws leaves it unchanged. */
  lemma TrimOfTrimmed(s: string, ws: set<char>)
    requires s == [] || (s[0] !in ws && s[|s| - 1] !in ws)
    ensures Trim(s, ws) == s
  {
  }

  function Count(s: string, c: char): nat {
    if s == [] then 0 else (if s[0] == c then 1 else 0) + Count(s[1..], c)
  }

  /** `components(separatedBy: String(sep))`: the blocks between separators,
      empty blocks included. */
  function Split(s: string, sep: char): (r: seq<string>)
    ensures |r| >= 1
    ensures forall k :: 0 <= k < |r| ==> sep !in r[k]
  {
    if s == [] then [[]]
    else
      var rest := Split(s[1..], sep);
      if s[0] == sep then [[]] + rest else [[s[0]] + rest[0]] + rest[1..]
  }

  /** `joined(separator: String(sep))`. */
  function Join(parts: seq<string>, sep: char): string {
    if parts == [] then []
    else if |parts| == 1 then parts[0]
    else parts[0] + [sep] + Join(parts[1..], sep)
  }

  /** A string with k separators splits into exactly k + 1 blocks. */
  lemma {:induction false} SplitCount(s: string, sep: char)
    ensures |Split(s, sep)| == Count(s, sep) + 1
  {
    if s != [] {
      SplitCount(s[1..], sep);
    }
  }

  /** Joining the blocks with the separator gives back the string. */
  lemma {:induction false} JoinSplit(s: string, sep: char)
    ensures Join(Split(s, sep), sep) == s
  {
    if s != [] {
      var rest := Split(s[1..], sep);
      JoinSplit(s[1..], sep);
      if s[0] == sep {
        assert Split(s, sep) == [[]] + rest;
        assert ([[]] + rest)[1..] == rest;
        assert s == [sep] + s[1..];
      } else if |rest| == 1 {
        assert s == [s[0]] + s[1..];
      } else {
        var parts := [[s[0]] + rest[0]] + rest[1..];
        assert parts[1..] == rest[1..];
        calc {
          Join(parts, sep);
          [s[0]] + rest[0] + [sep] + Join(rest[1..], sep);
          [s[0]] + (rest[0] + [sep] + Join(rest[1..], sep));
          [s[0]] + Join(rest, sep);
          s;
        }
      }
    }
  }

  lemma {:induction false} SplitWithoutSeparator(p: string, sep: char)
    requires sep !in p
    ensures Split(p, sep) == [p]
  {
    if p != [] {
      SplitWithoutSeparator(p[1..], sep);
      assert p == [p[0]] + p[1..];
    }
  }

  lemma {:induction false} SplitAfterBlock(p: string, sep: char, t: string)
    requires sep !in p
    ensures Split(p + [sep] + t, sep) == [p] + Split(t, sep)
  {
    if p == [] {
      assert p + [sep] + t == [sep] + t;
      assert ([sep] + t)[1..] == t;
    } else {
      var s := p + [sep] + t;
      assert s[1..] == p[1..] + [sep] + t;
      SplitAfterBlock(p[1..], sep, t);
      assert p == [p[0]] + p[1..];
    }
  }

  /** Splitting a join of separator-free blocks gives back the blocks. */
  lemma {:induction false} SplitJoin(parts: seq<string>, sep: char)
    requires |parts| >= 1
    requires forall k :: 0 <= k < |parts| ==> sep !in parts[k]
    ensures Split(Join(parts, sep), sep) == parts
  {
    if |parts| == 1 {
      SplitWithoutSeparator(parts[0], sep);
    } else {
      SplitJoin(parts[1..], sep);
      SplitAfterBlock(parts[0], sep, Join(parts[1..], sep));
      assert parts == [parts[0]] + parts[1..];
    }
  }

  /** A trailing separator adds one empty block at the end. */
  lemma {:induction false} SplitTrailingSeparator(s: string, sep: char)
    ensures Split(s + [sep], sep) == Split(s, sep) + [[]]
  {
    if s == [] {
      assert [sep][1..] == [];
    } else {
      assert (s + [sep])[1..] == s[1..] + [sep];
      SplitTrailingSeparator(s[1..], sep);
    }
  }
}
