// StringUtils: length test, pattern replacement, tokenising and whitespace stripping.
module StringUtils {
  import opened Wrappers

  /** Keeps the elements of `s` that satisfy `keep`, in order. */
  function Filter<T>(s: seq<T>, keep: T -> bool): (r: seq<T>)
    ensures |r| <= |s|
    ensures forall x :: x in r ==> x in s && keep(x)
  {
    if s == [] then [] else (if keep(s[0]) then [s[0]] else []) + Filter(s[1..], keep)
  }

  lemma {:induction false} FilterAppend<T>(a: seq<T>, b: seq<T>, keep: T -> bool)
    ensures Filter(a + b, keep) == Filter(a, keep) + Filter(b, keep)
  {
    if a == [] {
      assert a + b == b;
    } else {
      assert (a + b)[1..] == a[1..] + b;
      FilterAppend(a[1..], b, keep);
    }
  }

  /** Filtering keeps the whole sequence when every element passes. */
  lemma {:induction false} FilterKeepsAll<T>(s: seq<T>, keep: T -> bool)
    requires forall i :: 0 <= i < |s| ==> keep(s[i])
    ensures Filter(s, keep) == s
  {
    if s != [] {
      FilterKeepsAll(s[1..], keep);
      assert [s[0]] + s[1..] == s;
    }
  }

  /** Filtering twice by the same test keeps exactly what filtering once keeps. */
  lemma {:induction false} FilterIdempotent<T>(s: seq<T>, keep: T -> bool)
    ensures Filter(Filter(s, keep), keep) == Filter(s, keep)
  {
    if s != [] {
      FilterIdempotent(s[1..], keep);
      var t := Filter(s, keep);
      if keep(s[0]) {
        assert t == [s[0]] + Filter(s[1..], keep);
        assert t[1..] == Filter(s[1..], keep);
      } else {
        assert t == Filter(s[1..], keep);
      }
    }
  }

  /** `hasLength`: the string is non-null and not empty. */
  predicate HasLength(s: Option<string>)
  {
    s.Some? && |s.value| > 0
  }

  /** `Character.isWhitespace`: the ASCII and Unicode separators, without the non-breaking spaces. */
  predicate IsWhitespace(c: char)
  {
    c == ' ' || ('\t' <= c <= '\r') || ('\U{1C}' <= c <= '\U{1F}')
    || c == '\U{1680}' || ('\U{2000}' <= c <= '\U{2006}') || ('\U{2008}' <= c <= '\U{200A}')
    || c == '\U{2028}' || c == '\U{2029}' || c == '\U{205F}' || c == '\U{3000}'
  }

  /** The `hasText` test used by the editors: some character is not whitespace. */
  predicate HasText(s: Option<string>)
  {
    s.Some? && exists i :: 0 <= i < |s.value| && !IsWhitespace(s.value[i])
  }

  // ---------------------------------------------------------------- replace

  /** `p` occurs in `s` starting at position `k`. */
  predicate OccursAt(s: string, p: string, k: nat)
  {
    k + |p| <= |s| && s[k..k + |p|] == p
  }

  /** `String.indexOf(p, from)`: the first occurrence of `p` at or after `from`, or -1. */
  function IndexFrom(s: string, p: string, from: nat): (r: int)
    requires |p| > 0 && from <= |s|
    ensures r == -1 || (from <= r && OccursAt(s, p, r))
    decreases |s| - from
  {
    if from + |p| > |s| then -1
    else if s[from..from + |p|] == p then from
    else IndexFrom(s, p, from + 1)
  }

  /** `indexOf` finds the first occurrence at or after `from`, and -1 only when there is none. */
  lemma {:induction false} IndexFromIsFirst(s: string, p: string, from: nat)
    requires |p| > 0 && from <= |s|
    ensures IndexFrom(s, p, from) == -1 ==> forall k :: from <= k <= |s| ==> !OccursAt(s, p, k)
    ensures IndexFrom(s, p, from) != -1 ==> forall k :: from <= k < IndexFrom(s, p, from) ==> !OccursAt(s, p, k)
    decreases |s| - from
  {
    if from + |p| <= |s| && s[from..from + |p|] != p {
      IndexFromIsFirst(s, p, from + 1);
    }
  }

  /**
   * The text from position `pos` on, with every non-overlapping occurrence of `p`
   * replaced by `n`, scanning left to right.
   */
  function ReplaceFrom(s: string, p: string, n: string, pos: nat): string
    requires |p| > 0 && pos <= |s|
    decreases |s| - pos
  {
    if pos + |p| > |s| then s[pos..]
    else if OccursAt(s, p, pos) then n + ReplaceFrom(s, p, n, pos + |p|)
    else [s[pos]] + ReplaceFrom(s, p, n, pos + 1)
  }

  function ReplaceAll(s: string, p: string, n: string): string
    requires |p| > 0
  {
    ReplaceFrom(s, p, n, 0)
  }

  /** The number of occurrences `ReplaceFrom` substitutes. */
  function OccurrencesFrom(s: string, p: string, pos: nat): nat
    requires |p| > 0 && pos <= |s|
    decreases |s| - pos
  {
    if pos + |p| > |s| then 0
    else if OccursAt(s, p, pos) then 1 + OccurrencesFrom(s, p, pos + |p|)
    else OccurrencesFrom(s, p, pos + 1)
  }

  lemma {:induction false} ReplaceAllNoMatch(s: string, p: string, n: string, pos: nat)
    requires |p| > 0 && pos <= |s|
    requires IndexFrom(s, p, pos) == -1
    ensures ReplaceFrom(s, p, n, pos) == s[pos..]
    decreases |s| - pos
  {
    if pos + |p| <= |s| {
      ReplaceAllNoMatch(s, p, n, pos + 1);
      assert s[pos..] == [s[pos]] + s[pos + 1..];
    }
  }

  lemma {:induction false} ReplaceAllNextMatch(s: string, p: string, n: string, pos: nat, i: nat)
    requires |p| > 0 && pos <= |s|
    requires i == IndexFrom(s, p, pos)
    ensures ReplaceFrom(s, p, n, pos) == s[pos..i] + n + ReplaceFrom(s, p, n, i + |p|)
    decreases |s| - pos
  {
    if i != pos {
      SkipToMatch(s, p, pos, i);
      ReplaceAllNextMatch(s, p, n, pos + 1, i);
      ReplaceSkips(s, p, n, pos);
      ConsJoin(s, pos, i, ReplaceFrom(s, p, n, pos), ReplaceFrom(s, p, n, pos + 1), n, ReplaceFrom(s, p, n, i + |p|));
    } else {
      ReplaceMatches(s, p, n, pos);
      EmptyJoin(s, pos, n, ReplaceFrom(s, p, n, pos + |p|));
    }
  }

  /** A character put before `s[pos + 1..i] + n + tail` extends the slice to `s[pos..i]`. */
  lemma ConsJoin(s: string, pos: nat, i: nat, x: string, y: string, n: string, tail: string)
    requires pos < i <= |s|
    requires x == [s[pos]] + y && y == s[pos + 1..i] + n + tail
    ensures x == s[pos..i] + n + tail
  {
    ConsSlice(s, pos, i);
    assert [s[pos]] + (s[pos + 1..i] + n + tail) == ([s[pos]] + s[pos + 1..i]) + n + tail;
  }

  /** An empty slice adds nothing before `n + tail`. */
  lemma EmptyJoin(s: string, pos: nat, n: string, tail: string)
    requires pos <= |s|
    ensures s[pos..pos] + n + tail == n + tail
  {
    assert s[pos..pos] + n == n;
  }

  /** An occurrence found after `pos` means there is none at `pos`, and the search from the next position finds it too. */
  lemma SkipToMatch(s: string, p: string, pos: nat, i: nat)
    requires |p| > 0 && pos <= |s| && i == IndexFrom(s, p, pos) && i != pos
    ensures pos + |p| <= |s| && !OccursAt(s, p, pos) && IndexFrom(s, p, pos + 1) == i
  {
  }

  /** Where the pattern does not occur, `ReplaceFrom` keeps the character. */
  lemma ReplaceSkips(s: string, p: string, n: string, pos: nat)
    requires |p| > 0 && pos + |p| <= |s| && !OccursAt(s, p, pos)
    ensures ReplaceFrom(s, p, n, pos) == [s[pos]] + ReplaceFrom(s, p, n, pos + 1)
  {
  }

  /** Where the pattern occurs, `ReplaceFrom` substitutes it. */
  lemma ReplaceMatches(s: string, p: string, n: string, pos: nat)
    requires |p| > 0 && pos <= |s| && pos == IndexFrom(s, p, pos)
    ensures pos + |p| <= |s|
    ensures ReplaceFrom(s, p, n, pos) == n + ReplaceFrom(s, p, n, pos + |p|)
  {
  }

  lemma ConsSlice(s: string, a: nat, b: nat)
    requires a < b <= |s|
    ensures s[a..b] == [s[a]] + s[a + 1..b]
  {
  }

  /**
   * `replace`: the input comes back unchanged when it is null or empty, when the old
   * pattern is null or empty, or when the new pattern is null; otherwise every
   * non-overlapping occurrence is replaced, left to right.
   */
  method Replace(inString: Option<string>, oldPattern: Option<string>, newPattern: Option<string>)
    returns (r: Option<string>)
    ensures !HasLength(inString) || !HasLength(oldPattern) || newPattern.None? ==> r == inString
    ensures HasLength(inString) && HasLength(oldPattern) && newPattern.Some? ==>
      r == Some(ReplaceAll(inString.value, oldPattern.value, newPattern.value))
  {
    if !HasLength(inString) || !HasLength(oldPattern) || newPattern.None? {
      return inString;
    }
    var s, p, n := inString.value, oldPattern.value, newPattern.value;
    var index := IndexFrom(s, p, 0);
    if index == -1 {
      ReplaceAllNoMatch(s, p, n, 0);
      return inString;
    }
    var sb := "";
    var pos := 0;
    ghost var whole := ReplaceAll(s, p, n);
    while index >= 0
      invariant 0 <= pos <= |s|
      invariant index == IndexFrom(s, p, pos)
      invariant sb + ReplaceFrom(s, p, n, pos) == whole
      decreases |s| - pos
    {
      var next := index + |p|;
      ReplaceStep(s, p, n, sb, pos, index, whole);
      sb := sb + s[pos..index] + n;
      ghost var rest := ReplaceFrom(s, p, n, next);
      assert sb + rest == whole;
      pos := next;
      index := IndexFrom(s, p, pos);
    }
    ReplaceAllNoMatch(s, p, n, pos);
    r := Some(sb + s[pos..]);
  }

  /** One round of the `replace` loop keeps the text built so far plus the rest equal to the whole result. */
  lemma ReplaceStep(s: string, p: string, n: string, sb: string, pos: nat, index: nat, whole: string)
    requires |p| > 0 && pos <= |s| && index == IndexFrom(s, p, pos)
    requires sb + ReplaceFrom(s, p, n, pos) == whole
    ensures pos <= index && index + |p| <= |s|
    ensures (sb + s[pos..index] + n) + ReplaceFrom(s, p, n, index + |p|) == whole
  {
    ReplaceAllNextMatch(s, p, n, pos, index);
  }

  /** Without an occurrence of the pattern, replacing changes nothing. */
  lemma ReplaceWithoutOccurrence(s: string, p: string, n: string)
    requires |p| > 0 && IndexFrom(s, p, 0) == -1
    ensures ReplaceAll(s, p, n) == s
  {
    ReplaceAllNoMatch(s, p, n, 0);
  }

  /** Each of the k replaced occurrences changes the length by |n| - |p|. */
  lemma {:induction false} ReplaceAllLength(s: string, p: string, n: string, pos: nat)
    requires |p| > 0 && pos <= |s|
    ensures |ReplaceFrom(s, p, n, pos)| == |s| - pos + OccurrencesFrom(s, p, pos) * (|n| - |p|)
    decreases |s| - pos
  {
    if pos + |p| <= |s| {
      if OccursAt(s, p, pos) {
        ReplaceAllLength(s, p, n, pos + |p|);
        assert |ReplaceFrom(s, p, n, pos)| == |n| + |ReplaceFrom(s, p, n, pos + |p|)|;
        MulSucc(OccurrencesFrom(s, p, pos + |p|), |n| - |p|);
      } else {
        ReplaceAllLength(s, p, n, pos + 1);
      }
    }
  }

  lemma MulSucc(k: int, d: int)
    ensures (1 + k) * d == d + k * d
  {
  }

  /** Replacing a pattern by itself gives back the input. */
  lemma {:induction false} ReplaceAllSelf(s: string, p: string, pos: nat)
    requires |p| > 0 && pos <= |s|
    ensures ReplaceFrom(s, p, p, pos) == s[pos..]
    decreases |s| - pos
  {
    if pos + |p| <= |s| {
      var next := if OccursAt(s, p, pos) then pos + |p| else pos + 1;
      var front := s[pos..next];
      ReplaceAllSelf(s, p, next);
      assert ReplaceFrom(s, p, p, pos) == front + ReplaceFrom(s, p, p, next);
      assert s[pos..] == front + s[next..];
    }
  }

  // ---------------------------------------------------------------- trim and split

  /** `String.trim`: strips the characters at or below U+0020 from both ends. */
  function Trim(s: string): (r: string)
    ensures IsTrimmed(r)
    ensures |r| <= |s| && forall c :: c in r ==> c in s
    decreases |s|
  {
    if s == [] then s
    else if s[0] <= ' ' then Trim(s[1..])
    else if s[|s| - 1] <= ' ' then Trim(s[..|s| - 1])
    else s
  }

  /** Neither end of `s` is a character at or below U+0020. */
  predicate IsTrimmed(s: string)
  {
    s == [] || (s[0] > ' ' && s[|s| - 1] > ' ')
  }

  /** Trimming a trimmed string changes nothing, so trimming is idempotent. */
  lemma TrimOfTrimmed(s: string)
    requires IsTrimmed(s)
    ensures Trim(s) == s
  {
  }

  /** The length of the leading run of non-delimiter characters. */
  function RunLength(s: string, delimiters: string): (k: nat)
    ensures 0 <= k <= |s|
    ensures forall i :: 0 <= i < k ==> s[i] !in delimiters
    ensures k < |s| ==> s[k] in delimiters
    decreases |s|
  {
    if s == [] || s[0] in delimiters then 0 else 1 + RunLength(s[1..], delimiters)
  }

  /** The tokens a `StringTokenizer` yields: the maximal non-empty runs of non-delimiters. */
  function Tokens(s: string, delimiters: string): (r: seq<string>)
    ensures forall t :: t in r ==> t != [] && forall c :: c in t ==> c !in delimiters
    decreases |s|
  {
    if s == [] then []
    else if s[0] in delimiters then Tokens(s[1..], delimiters)
    else
      var k := RunLength(s, delimiters);
      assert forall c :: c in s[..k] ==> c !in delimiters;
      [s[..k]] + Tokens(s[k..], delimiters)
  }

  function Concat(ts: seq<string>): string
  {
    if ts == [] then [] else ts[0] + Concat(ts[1..])
  }

  function NotIn(delimiters: string): char -> bool
  {
    c => c !in delimiters
  }

  lemma {:induction false} RunFilter(s: string, delimiters: string, k: nat)
    requires k <= |s| && forall i :: 0 <= i < k ==> s[i] !in delimiters
    ensures Filter(s[..k], NotIn(delimiters)) == s[..k]
    decreases k
  {
    if k > 0 {
      assert s[..k][1..] == s[1..][..k - 1];
      RunFilter(s[1..], delimiters, k - 1);
    }
  }

  /** The tokens, read in order, are the input with its delimiter characters removed. */
  lemma {:induction false} TokensInOrder(s: string, delimiters: string)
    ensures Concat(Tokens(s, delimiters)) == Filter(s, NotIn(delimiters))
    decreases |s|
  {
    if s != [] {
      if s[0] in delimiters {
        TokensInOrder(s[1..], delimiters);
      } else {
        var k := RunLength(s, delimiters);
        TokensInOrder(s[k..], delimiters);
        assert s == s[..k] + s[k..];
        FilterAppend(s[..k], s[k..], NotIn(delimiters));
        RunFilter(s, delimiters, k);
        var ts := [s[..k]] + Tokens(s[k..], delimiters);
        assert ts[1..] == Tokens(s[k..], delimiters);
      }
    }
  }

  /** What `split` keeps of one token: trimmed when asked, dropped when empty and asked. */
  function KeepToken(token: string, trimTokens: bool, ignoreEmptyTokens: bool): (r: seq<string>)
  {
    var t := if trimTokens then Trim(token) else token;
    if ignoreEmptyTokens && |t| == 0 then [] else [t]
  }

  /** What `split` keeps of a sequence of tokens, in order. */
  function KeptTokens(tokens: seq<string>, trimTokens: bool, ignoreEmptyTokens: bool): (r: seq<string>)
    ensures |r| <= |tokens|
    ensures trimTokens ==> forall t :: t in r ==> IsTrimmed(t)
    ensures ignoreEmptyTokens ==> forall t :: t in r ==> t != []
    ensures !trimTokens ==> forall t :: t in r ==> t in tokens
    ensures forall t :: t in r ==> forall c :: c in t ==> exists u :: u in tokens && c in u
  {
    if tokens == [] then []
    else
      var last := tokens[|tokens| - 1];
      assert forall u :: u in tokens[..|tokens| - 1] ==> u in tokens;
      KeptTokens(tokens[..|tokens| - 1], trimTokens, ignoreEmptyTokens)
        + KeepToken(last, trimTokens, ignoreEmptyTokens)
  }

  /**
   * `split`: the tokenizer's tokens in order, each trimmed when asked, with empty ones
   * dropped when asked.
   */
  method Split(s: string, delimiters: string, trimTokens: bool, ignoreEmptyTokens: bool)
    returns (r: seq<string>)
    ensures r == KeptTokens(Tokens(s, delimiters), trimTokens, ignoreEmptyTokens)
  {
    var st := Tokens(s, delimiters);
    var tokens: seq<string> := [];
    var i := 0;
    while i < |st|
      invariant 0 <= i <= |st|
      invariant tokens == KeptTokens(st[..i], trimTokens, ignoreEmptyTokens)
    {
      var token := st[i];
      if trimTokens {
        token := Trim(token);
      }
      assert st[..i + 1][..i] == st[..i];
      if !(ignoreEmptyTokens && |token| == 0) {
        tokens := tokens + [token];
      }
      i := i + 1;
    }
    assert st[..i] == st;
    r := tokens;
  }

  /** No token `split` returns contains a delimiter character. */
  lemma SplitTokensHaveNoDelimiter(s: string, delimiters: string, trimTokens: bool, ignoreEmptyTokens: bool)
    ensures forall t :: t in KeptTokens(Tokens(s, delimiters), trimTokens, ignoreEmptyTokens) ==>
      forall c :: c in t ==> c !in delimiters
  {
  }

  // ---------------------------------------------------------------- trimAllWhitespace

  function NotWhitespace(): char -> bool
  {
    c => !IsWhitespace(c)
  }

  /**
   * `trimAllWhitespace`: null and "" come back unchanged; otherwise exactly the
   * non-whitespace characters are kept, in their original order.
   */
  method TrimAllWhitespace(str: Option<string>) returns (r: Option<string>)
    ensures !HasLength(str) ==> r == str
    ensures HasLength(str) ==> r == Some(Filter(str.value, NotWhitespace()))
  {
    if !HasLength(str) {
      return str;
    }
    var s := str.value;
    var sb := "";
    for i := 0 to |s|
      invariant sb == Filter(s[..i], NotWhitespace())
    {
      assert s[..i + 1] == s[..i] + [s[i]];
      FilterAppend(s[..i], [s[i]], NotWhitespace());
      assert [s[i]][1..] == [];
      if !IsWhitespace(s[i]) {
        sb := sb + [s[i]];
      }
    }
    assert s[..|s|] == s;
    r := Some(sb);
  }

  /** Stripping whitespace twice gives what stripping once gives. */
  lemma TrimAllWhitespaceIdempotent(s: string)
    ensures Filter(Filter(s, NotWhitespace()), NotWhitespace()) == Filter(s, NotWhitespace())
    ensures forall c :: c in Filter(s, NotWhitespace()) ==> !IsWhitespace(c)
  {
    FilterIdempotent(s, NotWhitespace());
  }

  /**
   * What `hasLength` says of a stripped string: it is non-empty exactly when the original
   * held a character that is not whitespace.
   */
  lemma {:induction false} StrippedHasLength(s: string)
    ensures HasLength(Some(Filter(s, NotWhitespace()))) <==> exists i :: 0 <= i < |s| && !IsWhitespace(s[i])
  {
    if s != [] {
      StrippedHasLength(s[1..]);
      assert forall i :: 1 <= i < |s| ==> s[i] == s[1..][i - 1];
    }
  }
}
