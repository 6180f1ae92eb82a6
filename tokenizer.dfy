/**
 * `JMXInvokerJob.split`: a `java.util.StringTokenizer` over a set of delimiter
 * characters, its tokens collected in order. Tokens are the maximal runs of
 * non-delimiter characters; runs of delimiters, and delimiters at either end,
 * produce no empty tokens.
 */
module Tokenizer {

  predicate NoDelimiters(s: string, delims: string) {
    forall j :: 0 <= j < |s| ==> s[j] !in delims
  }

  /** The length of the run of non-delimiters at the front of `s`. */
  function TokenLength(s: string, delims: string): (n: nat)
    ensures n <= |s|
    ensures NoDelimiters(s[..n], delims)
    ensures n < |s| ==> s[n] in delims
  {
    if s == [] || s[0] in delims then 0 else 1 + TokenLength(s[1..], delims)
  }

  /** The tokens of `s`, as `StringTokenizer` hands them out. */
  function Tokens(s: string, delims: string): seq<string>
    decreases |s|
  {
    if s == [] then []
    else if s[0] in delims then Tokens(s[1..], delims)
    else
      var n := TokenLength(s, delims);
      [s[..n]] + Tokens(s[n..], delims)
  }

  /** A non-empty delimiter-free run ending at a delimiter or at the end is the front token. */
  lemma TokenAt(s: string, delims: string, n: nat)
    requires 0 < n <= |s| && NoDelimiters(s[..n], delims) && (n < |s| ==> s[n] in delims)
    ensures Tokens(s, delims) == [s[..n]] + Tokens(s[n..], delims)
  {
  }

  /** A delimiter at `pos` contributes no token. */
  lemma SkipDelimiter(str: string, delims: string, pos: nat)
    requires pos < |str| && str[pos] in delims
    ensures Tokens(str[pos..], delims) == Tokens(str[pos + 1..], delims)
  {
    assert str[pos..][1..] == str[pos + 1..];
  }

  /** A maximal delimiter-free run `str[start..end]` is the next token. */
  lemma ScanToken(str: string, delims: string, start: nat, end: nat)
    requires start < end <= |str|
    requires forall j :: start <= j < end ==> str[j] !in delims
    requires end < |str| ==> str[end] in delims
    ensures Tokens(str[start..], delims) == [str[start..end]] + Tokens(str[end..], delims)
  {
    var s := str[start..];
    assert s[..end - start] == str[start..end];
    assert s[end - start..] == str[end..];
    TokenAt(s, delims, end - start);
  }

  /** `split(str, delims)`: scans `str` once, as `StringTokenizer` does, and collects the tokens. */
  method Split(str: string, delims: string) returns (tokens: seq<string>)
    ensures tokens == Tokens(str, delims)
  {
    tokens := [];
    var pos := 0;
    while pos < |str|
      invariant pos <= |str|
      invariant tokens + Tokens(str[pos..], delims) == Tokens(str, delims)
    {
      if str[pos] in delims {
        // skipDelimiters
        SkipDelimiter(str, delims, pos);
        pos := pos + 1;
      } else {
        // scanToken
        var start := pos;
        while pos < |str| && str[pos] !in delims
          invariant start <= pos <= |str|
          invariant forall j :: start <= j < pos ==> str[j] !in delims
        {
          pos := pos + 1;
        }
        ScanToken(str, delims, start, pos);
        tokens := tokens + [str[start..pos]];
      }
    }
    assert str[pos..] == [];
  }

  /** Every token is non-empty and holds no delimiter. */
  lemma {:induction false} TokensWellFormed(s: string, delims: string)
    ensures forall i :: 0 <= i < |Tokens(s, delims)| ==>
              Tokens(s, delims)[i] != [] && NoDelimiters(Tokens(s, delims)[i], delims)
    decreases |s|
  {
    if s != [] {
      if s[0] in delims {
        TokensWellFormed(s[1..], delims);
      } else {
        var n := TokenLength(s, delims);
        TokensWellFormed(s[n..], delims);
        var rest := Tokens(s[n..], delims);
        assert Tokens(s, delims) == [s[..n]] + rest;
        forall i | 0 <= i < |Tokens(s, delims)|
          ensures Tokens(s, delims)[i] != [] && NoDelimiters(Tokens(s, delims)[i], delims)
        {
          if i > 0 {
            assert Tokens(s, delims)[i] == rest[i - 1];
          }
        }
      }
    }
  }

  /** Delimiters in front of a string add no token: `StringTokenizer` skips them. */
  lemma {:induction false} LeadingDelimitersSkipped(lead: string, s: string, delims: string)
    requires forall j :: 0 <= j < |lead| ==> lead[j] in delims
    ensures Tokens(lead + s, delims) == Tokens(s, delims)
    decreases |lead|
  {
    if lead != [] {
      var whole := lead + s;
      assert whole != [] && whole[0] == lead[0] && whole[1..] == lead[1..] + s;
      assert Tokens(whole, delims) == Tokens(whole[1..], delims);
      LeadingDelimitersSkipped(lead[1..], s, delims);
    } else {
      assert lead + s == s;
    }
  }

  function Concat(ss: seq<string>): string {
    if ss == [] then [] else ss[0] + Concat(ss[1..])
  }

  /** `s` with every delimiter character removed. */
  function WithoutDelimiters(s: string, delims: string): string {
    if s == [] then []
    else if s[0] in delims then WithoutDelimiters(s[1..], delims)
    else [s[0]] + WithoutDelimiters(s[1..], delims)
  }

  lemma {:induction false} WithoutDelimitersAppend(a: string, b: string, delims: string)
    ensures WithoutDelimiters(a + b, delims) == WithoutDelimiters(a, delims) + WithoutDelimiters(b, delims)
  {
    if a == [] {
      assert a + b == b;
    } else {
      assert (a + b)[1..] == a[1..] + b;
      WithoutDelimitersAppend(a[1..], b, delims);
    }
  }

  lemma {:induction false} WithoutDelimitersOfToken(t: string, delims: string)
    requires NoDelimiters(t, delims)
    ensures WithoutDelimiters(t, delims) == t
  {
    if t != [] {
      WithoutDelimitersOfToken(t[1..], delims);
    }
  }

  /** The tokens, put back together, are `s` without its delimiters: no character is lost or added. */
  lemma {:induction false} TokensKeepEveryCharacter(s: string, delims: string)
    ensures Concat(Tokens(s, delims)) == WithoutDelimiters(s, delims)
    decreases |s|
  {
    if s != [] {
      if s[0] in delims {
        TokensKeepEveryCharacter(s[1..], delims);
      } else {
        var n := TokenLength(s, delims);
        TokensKeepEveryCharacter(s[n..], delims);
        var ts := Tokens(s, delims);
        assert ts == [s[..n]] + Tokens(s[n..], delims);
        assert ts[1..] == Tokens(s[n..], delims);
        assert s == s[..n] + s[n..];
        WithoutDelimitersAppend(s[..n], s[n..], delims);
        WithoutDelimitersOfToken(s[..n], delims);
      }
    }
  }

  /** Tokens joined with one delimiter character between them. */
  function Join(ts: seq<string>, separator: char): string {
    if ts == [] then []
    else if |ts| == 1 then ts[0]
    else ts[0] + [separator] + Join(ts[1..], separator)
  }

  /** Splitting undoes joining: non-empty, delimiter-free tokens joined with a delimiter come back as they were. */
  lemma {:induction false} SplitJoinRoundTrip(ts: seq<string>, separator: char, delims: string)
    requires separator in delims
    requires forall i :: 0 <= i < |ts| ==> ts[i] != [] && NoDelimiters(ts[i], delims)
    ensures Tokens(Join(ts, separator), delims) == ts
  {
    if ts == [] {
    } else if |ts| == 1 {
      var t := ts[0];
      TokenAt(t, delims, |t|);
      assert t[..|t|] == t && t[|t|..] == [];
    } else {
      var t, rest := ts[0], Join(ts[1..], separator);
      var s := t + [separator] + rest;
      assert s[..|t|] == t;
      TokenAt(s, delims, |t|);
      assert s[|t|..] == [separator] + rest;
      assert ([separator] + rest)[1..] == rest;
      SplitJoinRoundTrip(ts[1..], separator, delims);
      assert ts == [t] + ts[1..];
    }
  }
}
