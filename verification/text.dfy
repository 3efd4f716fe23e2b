/**
 * The string primitives the core relies on: Python's `str.isspace` character
 * class, `str.lower` (on ASCII letters), `str.strip()` and `str.split()` with
 * no arguments.
 */
module Text {

  /**
   * The characters Python's `str.isspace` accepts, which `str.split()` and
   * `str.strip()` treat as whitespace, by code point: tab to carriage return,
   * the four information separators U+001C..U+001F, space, NEL, no-break space,
   * U+1680, U+2000..U+200A, the line and paragraph separators, U+202F, U+205F
   * and U+3000.
   */
  predicate IsSpace(c: char)
  {
    var n := c as int;
    || 0x09 <= n <= 0x0D || 0x1C <= n <= 0x20 || n == 0x85 || n == 0xA0 || n == 0x1680
    || 0x2000 <= n <= 0x200A || n == 0x2028 || n == 0x2029 || n == 0x202F || n == 0x205F || n == 0x3000
  }

  predicate IsUpper(c: char)
  {
    'A' <= c <= 'Z'
  }

  predicate AllSpace(s: string)
  {
    forall i :: 0 <= i < |s| ==> IsSpace(s[i])
  }

  predicate NoSpace(s: string)
  {
    forall i :: 0 <= i < |s| ==> !IsSpace(s[i])
  }

  /** Neither the first nor the last character is whitespace. */
  predicate NoOuterSpace(s: string)
  {
    s == [] || (!IsSpace(s[0]) && !IsSpace(s[|s| - 1]))
  }

  /** The lower-case form of one character: `A`..`Z` become `a`..`z`, every other character is kept. */
  function LowerChar(c: char): (r: char)
    ensures !IsUpper(r)
    ensures IsSpace(r) == IsSpace(c)
    ensures !IsUpper(c) ==> r == c
    ensures IsUpper(c) ==> r as int == c as int + 32
  {
    if IsUpper(c) then (c as int + 32) as char else c
  }

  /** `s.lower()`, on ASCII letters. */
  function Lower(s: string): (r: string)
    ensures |r| == |s|
    ensures forall i :: 0 <= i < |s| ==> !IsUpper(r[i]) && IsSpace(r[i]) == IsSpace(s[i])
    ensures forall i :: 0 <= i < |s| ==> r[i] == LowerChar(s[i])
  {
    seq(|s|, i requires 0 <= i < |s| => LowerChar(s[i]))
  }

  lemma LowerIdempotent(s: string)
    ensures Lower(Lower(s)) == Lower(s)
  {
  }

  /** `s.lstrip()`: drops the leading run of whitespace and nothing else. */
  function TrimStart(s: string): (r: string)
    ensures |r| <= |s| && r == s[|s| - |r|..]
    ensures AllSpace(s[..|s| - |r|])
    ensures r == [] || !IsSpace(r[0])
  {
    if s != [] && IsSpace(s[0]) then TrimStart(s[1..]) else s
  }

  /** `s.rstrip()`: drops the trailing run of whitespace and nothing else. */
  function TrimEnd(s: string): (r: string)
    ensures |r| <= |s| && r == s[..|r|]
    ensures AllSpace(s[|r|..])
    ensures r == [] || !IsSpace(r[|r| - 1])
    ensures s != [] && !IsSpace(s[0]) ==> r != [] && r[0] == s[0]
  {
    if s != [] && IsSpace(s[|s| - 1]) then TrimEnd(s[..|s| - 1]) else s
  }

  /** The length of the leading whitespace run of `s`. */
  function LeadingSpace(s: string): nat
  {
    |s| - |TrimStart(s)|
  }

  /** `s[a:a + n]` lies between a leading and a trailing run of whitespace of `s`. */
  predicate Trimmed(s: string, a: nat, n: nat)
  {
    a + n <= |s| && AllSpace(s[..a]) && AllSpace(s[a + n..])
  }

  /**
   * What `strip` promises, from what `lstrip` and `rstrip` promise: `t` is `s`
   * without its leading whitespace and `r` is `t` without its trailing whitespace.
   */
  lemma StripFacts(s: string, t: string, r: string, a: nat)
    requires |t| <= |s| && a == |s| - |t|
    requires t == s[a..] && AllSpace(s[..a]) && (t == [] || !IsSpace(t[0]))
    requires |r| <= |t| && r == t[..|r|] && AllSpace(t[|r|..]) && (r == [] || !IsSpace(r[|r| - 1]))
    requires t != [] && !IsSpace(t[0]) ==> r != [] && r[0] == t[0]
    ensures |r| <= |s|
    ensures Trimmed(s, a, |r|) && r == s[a..a + |r|]
    ensures NoOuterSpace(r)
    ensures r == [] <==> AllSpace(s)
  {
    assert s[a + |r|..] == t[|r|..];
    if r == [] {
      assert t == [];
      assert s == s[..a];
    }
  }

  /** `s.strip()`: the middle of `s`, between a leading and a trailing run of whitespace. */
  function Strip(s: string): (r: string)
    ensures |r| <= |s|
    ensures Trimmed(s, LeadingSpace(s), |r|) && r == s[LeadingSpace(s)..LeadingSpace(s) + |r|]
    ensures NoOuterSpace(r)
    ensures r == [] <==> AllSpace(s)
  {
    var t := TrimStart(s);
    var r := TrimEnd(t);
    StripFacts(s, t, r, LeadingSpace(s));
    r
  }

  /** Stripping a text without outer whitespace changes nothing. */
  lemma StripKeepsStripped(s: string)
    requires NoOuterSpace(s)
    ensures Strip(s) == s
  {
  }

  /** The length of the non-whitespace run that starts `t`. */
  function WordLength(t: string): (n: nat)
    requires t != [] && !IsSpace(t[0])
    ensures 1 <= n <= |t|
    ensures NoSpace(t[..n])
    ensures n < |t| ==> IsSpace(t[n])
  {
    if |t| == 1 || IsSpace(t[1]) then 1 else 1 + WordLength(t[1..])
  }

  /** `s.split()`: the maximal whitespace-free runs of `s`, in order. */
  function Split(s: string): (words: seq<string>)
    ensures forall i :: 0 <= i < |words| ==> words[i] != [] && NoSpace(words[i])
    ensures words == [] <==> AllSpace(s)
  {
    if s == [] then []
    else if IsSpace(s[0]) then Split(s[1..])
    else
      var n := WordLength(s);
      [s[..n]] + Split(s[n..])
  }

  /** A leading run with the properties of `WordLength` is the one `WordLength` finds. */
  lemma WordLengthUnique(t: string, n: nat)
    requires t != [] && !IsSpace(t[0])
    requires 1 <= n <= |t| && NoSpace(t[..n]) && (n < |t| ==> IsSpace(t[n]))
    ensures WordLength(t) == n
  {
    var k := WordLength(t);
    forall i | 0 <= i < n ensures !IsSpace(t[i]) {
      assert t[..n][i] == t[i];
    }
    forall i | 0 <= i < k ensures !IsSpace(t[i]) {
      assert t[..k][i] == t[i];
    }
  }

  /** A non-empty whitespace-free text is a single word. */
  lemma SplitWord(w: string)
    requires w != [] && NoSpace(w)
    ensures Split(w) == [w]
  {
    assert w[..|w|] == w;
    WordLengthUnique(w, |w|);
    assert w[|w|..] == [];
  }

  /** A whitespace character separates words: splitting at it splits the text into two independent parts. */
  lemma {:induction false} SplitAtSpace(a: string, c: char, b: string)
    requires IsSpace(c)
    ensures Split(a + [c] + b) == Split(a) + Split(b)
    decreases |a|
  {
    var s := a + [c] + b;
    if a == [] {
      assert s[1..] == b;
    } else if IsSpace(a[0]) {
      assert s[1..] == a[1..] + [c] + b;
      SplitAtSpace(a[1..], c, b);
    } else {
      var n := WordLength(a);
      assert s[..n] == a[..n];
      WordLengthUnique(s, n);
      assert s[n..] == a[n..] + [c] + b;
      SplitAtSpace(a[n..], c, b);
    }
  }

  /** The characters of `s` that are not whitespace, in order. */
  function NonSpace(s: string): string
  {
    if s == [] then []
    else if IsSpace(s[|s| - 1]) then NonSpace(s[..|s| - 1])
    else NonSpace(s[..|s| - 1]) + [s[|s| - 1]]
  }

  function Concat(words: seq<string>): string
  {
    if words == [] then [] else words[0] + Concat(words[1..])
  }

  lemma {:induction false} NonSpaceAppend(a: string, b: string)
    ensures NonSpace(a + b) == NonSpace(a) + NonSpace(b)
    decreases |b|
  {
    if b == [] {
      assert a + b == a;
    } else {
      assert (a + b)[..|a + b| - 1] == a + b[..|b| - 1];
      NonSpaceAppend(a, b[..|b| - 1]);
    }
  }

  lemma {:induction false} NonSpaceOfSpaces(s: string)
    requires AllSpace(s)
    ensures NonSpace(s) == []
  {
    if s != [] {
      NonSpaceOfSpaces(s[..|s| - 1]);
    }
  }

  lemma {:induction false} NonSpaceOfWord(s: string)
    requires NoSpace(s)
    ensures NonSpace(s) == s
  {
    if s != [] {
      NonSpaceOfWord(s[..|s| - 1]);
    }
  }

  /** A leading whitespace character contributes nothing to the non-whitespace characters. */
  lemma NonSpaceDropSpace(s: string)
    requires s != [] && IsSpace(s[0])
    ensures NonSpace(s) == NonSpace(s[1..])
  {
    assert s == s[..1] + s[1..];
    NonSpaceAppend(s[..1], s[1..]);
    NonSpaceOfSpaces(s[..1]);
  }

  /** A leading word contributes all of its characters. */
  lemma NonSpaceDropWord(s: string, n: nat)
    requires n <= |s| && NoSpace(s[..n])
    ensures NonSpace(s) == s[..n] + NonSpace(s[n..])
  {
    assert s == s[..n] + s[n..];
    NonSpaceAppend(s[..n], s[n..]);
    NonSpaceOfWord(s[..n]);
  }

  /** Gluing the words of a text that starts with a word. */
  lemma ConcatSplitWord(s: string)
    requires s != [] && !IsSpace(s[0])
    ensures Concat(Split(s)) == s[..WordLength(s)] + Concat(Split(s[WordLength(s)..]))
  {
    var words := [s[..WordLength(s)]] + Split(s[WordLength(s)..]);
    assert words[1..] == Split(s[WordLength(s)..]);
  }

  /** Splitting loses only whitespace: the words, glued together, are the non-whitespace characters of `s`. */
  lemma {:induction false} SplitKeepsEveryOtherChar(s: string)
    ensures Concat(Split(s)) == NonSpace(s)
  {
    if s == [] {
    } else if IsSpace(s[0]) {
      SplitKeepsEveryOtherChar(s[1..]);
      NonSpaceDropSpace(s);
    } else {
      var n := WordLength(s);
      SplitKeepsEveryOtherChar(s[n..]);
      NonSpaceDropWord(s, n);
      ConcatSplitWord(s);
    }
  }
}
