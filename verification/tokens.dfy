/**
 * How the orchestrator picks the analyzer's reading out of a chunk of its
 * output: the chunk is a C string (it ends at the first NUL), `strtok` splits
 * it on the delimiters " \n\r\t", and the last token is kept.
 */
module Tokens {
  import opened Wrappers

  /** The delimiter set " \n\r\t" handed to `strtok`. */
  predicate IsDelim(c: char)
  {
    c == ' ' || c == '\n' || c == '\r' || c == '\t'
  }

  ghost predicate AllDelims(s: string)
  {
    forall i :: 0 <= i < |s| ==> IsDelim(s[i])
  }

  ghost predicate NoDelims(s: string)
  {
    forall i :: 0 <= i < |s| ==> !IsDelim(s[i])
  }

  /** The C string held in a buffer: everything before the first NUL. */
  function CString(buf: string): (r: string)
    ensures r <= buf
    ensures forall i :: 0 <= i < |r| ==> r[i] != '\0'
    ensures |r| < |buf| ==> buf[|r|] == '\0'
  {
    if buf == [] || buf[0] == '\0' then [] else [buf[0]] + CString(buf[1..])
  }

  /** A buffer without a NUL holds itself as a C string. */
  lemma CStringWhole(buf: string)
    requires '\0' !in buf
    ensures CString(buf) == buf
  {
  }

  /** What `strtok` steps over before a token: the leading delimiters. */
  function SkipDelims(s: string): (r: string)
    ensures |r| <= |s|
    ensures r == [] || !IsDelim(r[0])
  {
    if s != [] && IsDelim(s[0]) then SkipDelims(s[1..]) else s
  }

  /** What `strtok` skips is a prefix made of delimiters only; the rest is a suffix of the text. */
  lemma {:induction false} SkipDelimsSpec(s: string)
    ensures var r := SkipDelims(s); r == s[|s| - |r|..] && AllDelims(s[..|s| - |r|])
  {
    if s != [] && IsDelim(s[0]) {
      SkipDelimsSpec(s[1..]);
      var r := SkipDelims(s);
      assert s[..|s| - |r|] == [s[0]] + s[1..][..|s| - 1 - |r|];
    }
  }

  /** The token `strtok` returns from a position that is not a delimiter: the longest run of non-delimiters. */
  function TokenRun(s: string): (r: string)
    ensures |r| <= |s|
    ensures s != [] && !IsDelim(s[0]) ==> r != []
  {
    if s != [] && !IsDelim(s[0]) then [s[0]] + TokenRun(s[1..]) else []
  }

  /** The token is a prefix without delimiters, cut at a delimiter or at the end of the text. */
  lemma {:induction false} TokenRunSpec(s: string)
    ensures var r := TokenRun(s); r <= s && NoDelims(r) && (|r| < |s| ==> IsDelim(s[|r|]))
  {
    if s != [] && !IsDelim(s[0]) {
      TokenRunSpec(s[1..]);
      var r := TokenRun(s);
      assert r == [s[0]] + TokenRun(s[1..]);
      if |r| < |s| {
        assert s[|r|] == s[1..][|r| - 1];
      }
    }
  }

  /** The tokens successive `strtok` calls return, in order; none of them is empty. */
  function Tokens(s: string): seq<string>
    decreases |s|
  {
    var t := SkipDelims(s);
    if t == [] then [] else [TokenRun(t)] + Tokens(t[|TokenRun(t)|..])
  }

  /** The last token the extraction loop keeps, if there was any. */
  function LastToken(s: string): Option<string>
  {
    var ts := Tokens(s);
    if ts == [] then None else Some(ts[|ts| - 1])
  }

  /**
   * `s[i..j]` is the last maximal run of non-delimiters of `s`: it is not
   * empty, it is preceded by a delimiter (or the start) and followed only
   * by delimiters.
   */
  ghost predicate LastRun(s: string, i: int, j: int)
  {
    && 0 <= i < j <= |s|
    && (forall k :: i <= k < j ==> !IsDelim(s[k]))
    && (forall k :: j <= k < |s| ==> IsDelim(s[k]))
    && (i == 0 || IsDelim(s[i - 1]))
  }

  lemma {:induction false} TokensEmptyIff(s: string)
    ensures Tokens(s) == [] <==> AllDelims(s)
  {
    var t := SkipDelims(s);
    SkipDelimsSpec(s);
    if t != [] {
      assert s[|s| - |t|] == t[0];
    } else {
      assert s == s[..|s| - |t|];
    }
  }

  /** A last run inside a suffix that starts with a delimiter is a last run of the whole text. */
  lemma {:induction false} LastRunOfSuffix(s: string, o: nat, i: int, j: int)
    requires o < |s| && IsDelim(s[o])
    requires LastRun(s[o..], i, j)
    ensures LastRun(s, o + i, o + j)
  {
    var rest := s[o..];
    assert i != 0 by {
      assert rest[0] == s[o];
    }
    assert rest[i - 1] == s[o + i - 1];
    forall k | o + i <= k < o + j ensures !IsDelim(s[k]) {
      assert s[k] == rest[k - o];
    }
    forall k | o + j <= k < |s| ensures IsDelim(s[k]) {
      assert s[k] == rest[k - o];
    }
  }

  /** The first token, and the tokens of what follows it. */
  lemma TokensUnfold(s: string)
    ensures SkipDelims(s) == [] ==> Tokens(s) == []
    ensures var t := SkipDelims(s);
      t != [] ==> Tokens(s) == [TokenRun(t)] + Tokens(t[|TokenRun(t)|..])
  {
  }

  /** When nothing but delimiters follows the first token, that token is the last run. */
  lemma {:induction false} FirstTokenIsLastRun(s: string)
    requires SkipDelims(s) != []
    requires AllDelims(SkipDelims(s)[|TokenRun(SkipDelims(s))|..])
    ensures var k := |s| - |SkipDelims(s)|; var tok := TokenRun(SkipDelims(s));
      LastRun(s, k, k + |tok|) && s[k..k + |tok|] == tok
  {
    var t := SkipDelims(s);
    var k := |s| - |t|;
    var tok := TokenRun(t);
    SkipDelimsSpec(s);
    TokenRunSpec(t);
    assert t == s[k..];
    assert s[k..k + |tok|] == tok by {
      SliceOfSuffix(s, k, 0, |tok|);
    }
    forall m | k <= m < k + |tok| ensures !IsDelim(s[m]) {
      assert s[m] == tok[m - k];
    }
    forall m | k + |tok| <= m < |s| ensures IsDelim(s[m]) {
      assert s[m] == t[|tok|..][m - k - |tok|];
    }
    assert k == 0 || IsDelim(s[k - 1]) by {
      if k > 0 {
        assert s[k - 1] == s[..k][k - 1];
      }
    }
  }

  /** The extraction's last token is the last token after the first one, when there is one. */
  lemma LastTokenOfRest(s: string)
    requires SkipDelims(s) != []
    ensures var t := SkipDelims(s); var rest := t[|TokenRun(t)|..];
      && (LastToken(rest).None? ==> LastToken(s) == Some(TokenRun(t)))
      && (LastToken(rest).Some? ==> LastToken(s) == LastToken(rest))
  {
    TokensUnfold(s);
  }

  /** What follows the first token is a suffix of the text that starts with a delimiter, if it is not empty. */
  lemma RestAfterFirstToken(s: string)
    requires SkipDelims(s) != []
    ensures var t := SkipDelims(s); var o := |s| - |t| + |TokenRun(t)|;
      && o <= |s| && s[o..] == t[|TokenRun(t)|..]
      && (o < |s| ==> IsDelim(s[o]))
  {
    var t := SkipDelims(s);
    var k := |s| - |t|;
    var tok := TokenRun(t);
    SkipDelimsSpec(s);
    TokenRunSpec(t);
    assert t == s[k..];
    if |tok| < |t| {
      assert s[k + |tok|] == t[|tok|];
    }
  }

  /** The last token of the text after the first token, when there is one, is the last token of the whole text. */
  lemma LastTokenFromRest(s: string, i': int, j': int)
    requires SkipDelims(s) != []
    requires var t := SkipDelims(s); var rest := t[|TokenRun(t)|..];
      0 <= i' <= j' <= |rest| && LastToken(rest) == Some(rest[i'..j'])
    ensures var t := SkipDelims(s); var o := |s| - |t| + |TokenRun(t)|;
      LastToken(s) == Some(s[o + i'..o + j'])
  {
    var t := SkipDelims(s);
    var rest := t[|TokenRun(t)|..];
    var o := |s| - |t| + |TokenRun(t)|;
    LastTokenOfRest(s);
    RestAfterFirstToken(s);
    SliceOfSuffix(s, o, i', j');
  }

  /** When no token follows the first one, the first token is the last token and the last run. */
  lemma OnlyTokenIsLastRun(s: string)
    requires SkipDelims(s) != []
    requires var t := SkipDelims(s); LastToken(t[|TokenRun(t)|..]).None?
    ensures var t := SkipDelims(s); var k := |s| - |t|; var n := |TokenRun(t)|;
      LastRun(s, k, k + n) && LastToken(s) == Some(s[k..k + n])
  {
    var t := SkipDelims(s);
    LastTokenOfRest(s);
    TokensEmptyIff(t[|TokenRun(t)|..]);
    FirstTokenIsLastRun(s);
  }

  /** Whatever the last token is, it is the last maximal run of non-delimiters, `s[i..j]`. */
  lemma {:induction false} LastTokenIsLastRun(s: string) returns (i: int, j: int)
    requires LastToken(s).Some?
    ensures LastRun(s, i, j) && LastToken(s) == Some(s[i..j])
    decreases |s|
  {
    var t := SkipDelims(s);
    assert t != [] by {
      TokensUnfold(s);
    }
    var rest := t[|TokenRun(t)|..];
    if LastToken(rest).None? {
      OnlyTokenIsLastRun(s);
      i, j := |s| - |t|, |s| - |t| + |TokenRun(t)|;
    } else {
      var i', j' := LastTokenIsLastRun(rest);
      var o := |s| - |t| + |TokenRun(t)|;
      LastTokenFromRest(s, i', j');
      RestAfterFirstToken(s);
      LastRunOfSuffix(s, o, i', j');
      i, j := o + i', o + j';
    }
  }

  lemma {:induction false} SliceOfSuffix(s: string, o: nat, a: nat, b: nat)
    requires o <= |s| && a <= b <= |s| - o
    ensures s[o..][a..b] == s[o + a..o + b]
  {
  }

  /** There is only one last maximal run of non-delimiters. */
  lemma {:induction false} LastRunUnique(s: string, i: int, j: int, i': int, j': int)
    requires LastRun(s, i, j) && LastRun(s, i', j')
    ensures i == i' && j == j'
  {
    assert !IsDelim(s[j - 1]) && !IsDelim(s[j' - 1]);
  }

  /**
   * The extraction finds no token exactly when the text holds nothing but
   * delimiters, and otherwise finds the last maximal run of non-delimiters.
   */
  lemma {:induction false} LastTokenSpec(s: string)
    ensures LastToken(s).None? <==> AllDelims(s)
    ensures forall i, j :: LastRun(s, i, j) ==> LastToken(s) == Some(s[i..j])
  {
    TokensEmptyIff(s);
    if LastToken(s).Some? {
      var i0, j0 := LastTokenIsLastRun(s);
      forall i, j | LastRun(s, i, j) ensures LastToken(s) == Some(s[i..j]) {
        LastRunUnique(s, i, j, i0, j0);
      }
    } else {
      forall i, j | LastRun(s, i, j) ensures !IsDelim(s[i]) {
      }
    }
  }
}
