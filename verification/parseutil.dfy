/**
 * The string helpers of parseutil.h: tokenise, detokenise and to_upper.
 *
 * A token is what `std::istream >> std::string` extracts: a maximal run of
 * characters that the classic "C" locale does not classify as whitespace.
 */
module ParseUtil {

  /** `isspace` in the classic "C" locale. */
  predicate IsSpace(c: char)
  {
    c == ' ' || c == '\t' || c == '\n' || c == '\U{000B}' || c == '\U{000C}' || c == '\r'
  }

  /** A token: non-empty and free of whitespace. */
  predicate IsWord(w: string)
  {
    |w| > 0 && forall i :: 0 <= i < |w| ==> !IsSpace(w[i])
  }

  /** Length of the longest whitespace-free prefix of `s`. */
  function WordLength(s: string): (n: nat)
    ensures n <= |s|
  {
    if s == [] || IsSpace(s[0]) then 0 else 1 + WordLength(s[1..])
  }

  /** The word stops at the first whitespace character. */
  lemma {:induction false} WordLengthSpec(s: string)
    ensures forall i :: 0 <= i < WordLength(s) ==> !IsSpace(s[i])
    ensures WordLength(s) < |s| ==> IsSpace(s[WordLength(s)])
  {
    if s != [] && !IsSpace(s[0]) {
      WordLengthSpec(s[1..]);
    }
  }

  /** tokenise: the whitespace-separated fields of `line`, in order. */
  function Tokenise(line: string): (tokens: seq<string>)
    ensures line == [] ==> tokens == []
    decreases |line|
  {
    if line == [] then []
    else if IsSpace(line[0]) then Tokenise(line[1..])
    else
      var n := WordLength(line);
      [line[..n]] + Tokenise(line[n..])
  }

  /** `s` with every whitespace character removed. */
  function Squeeze(s: string): string
  {
    if s == [] then []
    else if IsSpace(s[0]) then Squeeze(s[1..])
    else [s[0]] + Squeeze(s[1..])
  }

  /** The tokens written one after another, with nothing in between. */
  function Concat(ts: seq<string>): string
  {
    if ts == [] then [] else ts[0] + Concat(ts[1..])
  }

  /** The tokens written one after another, separated by single spaces. */
  function Join(ts: seq<string>): string
    requires |ts| > 0
  {
    if |ts| == 1 then ts[0] else Join(ts[..|ts| - 1]) + " " + ts[|ts| - 1]
  }

  /**
   * detokenise over the iterator range [start, end). The first token is read
   * before the range is compared with its end, so `start` must name a token even when the
   * range is empty, and an empty range yields that token.
   */
  method Detokenise(tokens: seq<string>, start: nat, end: nat) returns (dtkn: string)
    requires start < |tokens| && start <= end <= |tokens|
    ensures start < end ==> dtkn == Join(tokens[start..end])
    ensures end <= start + 1 ==> dtkn == tokens[start]
  {
    dtkn := tokens[start];
    var i := start;
    if i != end {
      i := i + 1;
    }
    while i != end
      invariant start < i <= end || i == start == end
      invariant i > start ==> dtkn == Join(tokens[start..i])
      invariant i == start ==> dtkn == tokens[start]
      decreases end - i
    {
      assert tokens[start..i + 1][..i - start] == tokens[start..i];
      dtkn := dtkn + " " + tokens[i];
      i := i + 1;
    }
  }

  /** `toupper` in the classic "C" locale: only 'a'..'z' change. */
  function UpperChar(c: char): char
  {
    if 'a' <= c <= 'z' then (c as int - 'a' as int + 'A' as int) as char else c
  }

  function Upper(s: string): string
  {
    if s == [] then [] else [UpperChar(s[0])] + Upper(s[1..])
  }

  /** to_upper: a copy of `str` transformed in place, character by character. */
  method ToUpper(str: string) returns (upper: string)
    ensures upper == Upper(str)
  {
    var a := new char[|str|](i requires 0 <= i < |str| => str[i]);
    for i := 0 to a.Length
      invariant forall k :: 0 <= k < i ==> a[k] == UpperChar(str[k])
      invariant forall k :: i <= k < a.Length ==> a[k] == str[k]
    {
      a[i] := UpperChar(a[i]);
    }
    upper := a[..];
    UpperAt(str);
  }

  // ---------------------------------------------------------------------
  // Properties of to_upper

  /** to_upper keeps the length and maps each character on its own. */
  lemma {:induction false} UpperAt(s: string)
    ensures |Upper(s)| == |s|
    ensures forall i :: 0 <= i < |s| ==> Upper(s)[i] == UpperChar(s[i])
  {
    if s != [] {
      UpperAt(s[1..]);
    }
  }

  /** Lower-case letters become capitals; every other character is kept. */
  lemma UpperLetters(s: string, i: nat)
    requires i < |s|
    ensures |Upper(s)| == |s|
    ensures 'a' <= s[i] <= 'z' ==> Upper(s)[i] as int == s[i] as int - 32
    ensures !('a' <= s[i] <= 'z') ==> Upper(s)[i] == s[i]
    ensures !('a' <= Upper(s)[i] <= 'z')
  {
    UpperAt(s);
  }

  /** to_upper is idempotent. */
  lemma UpperIdempotent(s: string)
    ensures Upper(Upper(s)) == Upper(s)
  {
    UpperAt(s);
    UpperAt(Upper(s));
  }

  // ---------------------------------------------------------------------
  // Properties of tokenise and detokenise

  /** Every token is non-empty and free of whitespace. */
  lemma {:induction false} TokeniseWords(line: string)
    ensures forall k :: 0 <= k < |Tokenise(line)| ==> IsWord(Tokenise(line)[k])
    decreases |line|
  {
    if line == [] {
    } else if IsSpace(line[0]) {
      TokeniseWords(line[1..]);
    } else {
      var n := WordLength(line);
      WordLengthSpec(line);
      TokeniseWords(line[n..]);
    }
  }

  lemma {:induction false} SqueezeAppend(a: string, b: string)
    ensures Squeeze(a + b) == Squeeze(a) + Squeeze(b)
  {
    if a == [] {
      assert a + b == b;
    } else {
      assert (a + b)[1..] == a[1..] + b;
      SqueezeAppend(a[1..], b);
    }
  }

  lemma {:induction false} SqueezeWord(w: string)
    requires forall i :: 0 <= i < |w| ==> !IsSpace(w[i])
    ensures Squeeze(w) == w
  {
    if w != [] {
      SqueezeWord(w[1..]);
    }
  }

  /** The tokens, concatenated in order, are the line with its whitespace removed. */
  lemma {:induction false} TokeniseKeepsText(line: string)
    ensures Concat(Tokenise(line)) == Squeeze(line)
    decreases |line|
  {
    if line == [] {
    } else if IsSpace(line[0]) {
      TokeniseKeepsText(line[1..]);
    } else {
      var n := WordLength(line);
      WordLengthSpec(line);
      assert line == line[..n] + line[n..];
      SqueezeAppend(line[..n], line[n..]);
      SqueezeWord(line[..n]);
      TokeniseKeepsText(line[n..]);
      assert ([line[..n]] + Tokenise(line[n..]))[1..] == Tokenise(line[n..]);
    }
  }

  /** The word that starts `a` does not run past a whitespace character after `a`. */
  lemma WordLengthBeforeSpace(a: string, c: char, b: string)
    requires IsSpace(c)
    ensures WordLength(a + [c] + b) == WordLength(a)
  {
    var s := a + [c] + b;
    var n, m := WordLength(s), WordLength(a);
    WordLengthSpec(s);
    WordLengthSpec(a);
    assert m < |s| && IsSpace(s[m]);
    assert forall i :: 0 <= i < m ==> s[i] == a[i];
  }

  /** A whitespace character splits the line: tokenising each side gives the tokens of the whole. */
  lemma {:induction false} TokeniseSplitsAtSpace(a: string, c: char, b: string)
    requires IsSpace(c)
    ensures Tokenise(a + [c] + b) == Tokenise(a) + Tokenise(b)
    decreases |a|
  {
    var s := a + [c] + b;
    if a == [] {
      assert s[1..] == b;
    } else if IsSpace(a[0]) {
      assert s[1..] == a[1..] + [c] + b;
      TokeniseSplitsAtSpace(a[1..], c, b);
    } else {
      var n := WordLength(a);
      WordLengthBeforeSpace(a, c, b);
      assert s[..n] == a[..n];
      assert s[n..] == a[n..] + [c] + b;
      TokeniseSplitsAtSpace(a[n..], c, b);
    }
  }

  /** A single token tokenises to itself. */
  lemma TokeniseWord(w: string)
    requires IsWord(w)
    ensures Tokenise(w) == [w]
  {
    WordLengthSpec(w);
    assert WordLength(w) == |w|;
    assert w[..|w|] == w;
  }

  /** Joining tokens with spaces and tokenising again gives the tokens back. */
  lemma {:induction false} JoinRoundTrip(ts: seq<string>)
    requires |ts| > 0
    requires forall k :: 0 <= k < |ts| ==> IsWord(ts[k])
    ensures Tokenise(Join(ts)) == ts
  {
    var last := ts[|ts| - 1];
    TokeniseWord(last);
    if |ts| > 1 {
      var init := ts[..|ts| - 1];
      JoinRoundTrip(init);
      assert Join(ts) == Join(init) + [' '] + last;
      TokeniseSplitsAtSpace(Join(init), ' ', last);
      assert ts == init + [last];
    }
  }

  /** tokenise(detokenise(tokenise(line))) == tokenise(line) for a line with a token. */
  lemma DetokeniseRoundTrip(line: string)
    requires |Tokenise(line)| > 0
    ensures Tokenise(Join(Tokenise(line))) == Tokenise(line)
  {
    TokeniseWords(line);
    JoinRoundTrip(Tokenise(line));
  }
}
