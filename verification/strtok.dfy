/**
 * The comma tokenizer both record parsers rely on: the C library's `strtok`
 * called with the delimiter set ",". A token is a maximal non-empty run of
 * characters holding no comma, so empty fields vanish and runs of commas
 * collapse into one separator.
 */
module Strtok {

  import opened Wrappers

  /** A value `strtok` can hand out. */
  predicate IsToken(t: string) {
    t != [] && ',' !in t
  }

  /** Two runs of tokens put together are a run of tokens. */
  lemma AllTokensAppend(a: seq<string>, b: seq<string>)
    requires forall i :: 0 <= i < |a| ==> IsToken(a[i])
    requires forall i :: 0 <= i < |b| ==> IsToken(b[i])
    ensures forall i :: 0 <= i < |a + b| ==> IsToken((a + b)[i])
  {
    forall i | |a| <= i < |a + b|
      ensures IsToken((a + b)[i])
    {
      assert (a + b)[i] == b[i - |a|];
    }
  }

  /** The longest prefix of `s` holding no comma. */
  function Run(s: string): (r: string)
    ensures |r| <= |s| && r == s[..|r|]
    ensures ',' !in r
    ensures |r| < |s| ==> s[|r|] == ','
  {
    if s == [] || s[0] == ',' then [] else [s[0]] + Run(s[1..])
  }

  /** Every token successive `strtok` calls return for `s`, in order. */
  function Tokens(s: string): (ts: seq<string>)
    ensures forall i :: 0 <= i < |ts| ==> IsToken(ts[i])
    decreases |s|
  {
    if s == [] then []
    else if s[0] == ',' then Tokens(s[1..])
    else
      var t := Run(s);
      [t] + Tokens(s[|t|..])
  }

  /** Tokens written back with a single comma between neighbours. */
  function Join(ts: seq<string>): string
  {
    if ts == [] then []
    else if |ts| == 1 then ts[0]
    else ts[0] + "," + Join(ts[1..])
  }

  /** Each token of a join but the last is followed by a comma. */
  lemma JoinFrom(ts: seq<string>, k: nat)
    requires k + 1 < |ts|
    ensures Join(ts[k..]) == ts[k] + "," + Join(ts[k + 1..])
  {
    assert ts[k..][1..] == ts[k + 1..];
  }

  /** The last token of a join ends it. */
  lemma JoinLast(ts: seq<string>)
    requires ts != []
    ensures Join(ts[|ts| - 1..]) == ts[|ts| - 1]
  {
  }

  /** Two joins put side by side with a comma between them make one join. */
  lemma {:induction false} JoinAppend(a: seq<string>, b: seq<string>)
    requires a != [] && b != []
    ensures Join(a) + "," + Join(b) == Join(a + b)
  {
    if |a| == 1 {
      assert (a + b)[1..] == b;
    } else {
      assert (a + b)[1..] == a[1..] + b;
      JoinAppend(a[1..], b);
    }
  }

  /** A comma-free text followed by a comma (or by nothing) is one run. */
  lemma {:induction false} RunOfCommaFree(t: string, rest: string)
    requires ',' !in t
    requires rest == [] || rest[0] == ','
    ensures Run(t + rest) == t
  {
    if t == [] {
      assert t + rest == rest;
    } else {
      assert (t + rest)[1..] == t[1..] + rest;
      RunOfCommaFree(t[1..], rest);
    }
  }

  /** Tokenizing a comma-joined list of tokens gives the list back. */
  lemma {:induction false} TokensOfJoin(ts: seq<string>)
    requires forall i :: 0 <= i < |ts| ==> IsToken(ts[i])
    ensures Tokens(Join(ts)) == ts
  {
    if |ts| == 1 {
      RunOfCommaFree(ts[0], []);
      assert ts[0] + [] == ts[0];
      assert ts[0][|ts[0]|..] == [];
    } else if |ts| > 1 {
      var rest := "," + Join(ts[1..]);
      assert Join(ts) == ts[0] + rest;
      RunOfCommaFree(ts[0], rest);
      assert (ts[0] + rest)[|ts[0]|..] == rest;
      assert rest[1..] == Join(ts[1..]);
      TokensOfJoin(ts[1..]);
    }
  }

  /** Tokenizing a comma-joined list of tokens followed by a comma and more text. */
  lemma {:induction false} TokensOfJoinThen(ts: seq<string>, s: string)
    requires ts != [] && forall i :: 0 <= i < |ts| ==> IsToken(ts[i])
    ensures Tokens(Join(ts) + "," + s) == ts + Tokens(s)
  {
    if |ts| == 1 {
      assert Join(ts) == ts[0];
      TokenThen(ts[0], s);
    } else {
      var j := Join(ts[1..]);
      var more := j + "," + s;
      assert Join(ts) == ts[0] + "," + j;
      assert (ts[0] + "," + j) + "," + s == ts[0] + "," + more;
      TokenThen(ts[0], more);
      TokensOfJoinThen(ts[1..], s);
      assert [ts[0]] + (ts[1..] + Tokens(s)) == ts + Tokens(s);
    }
  }

  /** One token, a comma and more text: the token, then the tokens of the text. */
  lemma TokenThen(t: string, s: string)
    requires IsToken(t)
    ensures Tokens(t + "," + s) == [t] + Tokens(s)
  {
    var rest := "," + s;
    assert t + "," + s == t + rest;
    RunOfCommaFree(t, rest);
    assert (t + rest)[|t|..] == rest;
    assert rest[1..] == s;
  }

  /** A comma before the scan position is skipped. */
  lemma SkipDelimiter(s: string, p: nat)
    requires p < |s| && s[p] == ','
    ensures Tokens(s[p..]) == Tokens(s[p + 1..])
  {
    assert s[p..][1..] == s[p + 1..];
  }

  /** The comma-free stretch `s[p..e]` ending at a comma or the end is the next token. */
  lemma {:induction false} TakeToken(s: string, p: nat, e: nat)
    requires p < e <= |s|
    requires ',' !in s[p..e]
    requires e == |s| || s[e] == ','
    ensures Tokens(s[p..]) == [s[p..e]] + Tokens(s[e..])
  {
    assert s[p..] == s[p..e] + s[e..];
    RunOfCommaFree(s[p..e], s[e..]);
    assert s[p..][e - p..] == s[e..];
  }

  /** The first scan of `strtok`: past the delimiters at `p`, which hold no token. */
  method SkipDelimiters(s: string, p: nat) returns (q: nat)
    requires p <= |s|
    ensures p <= q <= |s| && (q == |s| || s[q] != ',')
    ensures Tokens(s[q..]) == Tokens(s[p..])
  {
    q := p;
    while q < |s| && s[q] == ','
      invariant p <= q <= |s|
      invariant Tokens(s[q..]) == Tokens(s[p..])
    {
      SkipDelimiter(s, q);
      q := q + 1;
    }
  }

  /** The second scan of `strtok`: from a token's first character to the delimiter or end after it. */
  method ScanToken(s: string, p: nat) returns (e: nat)
    requires p < |s|
    ensures p <= e <= |s| && ',' !in s[p..e] && (e == |s| || s[e] == ',')
  {
    e := p;
    while e < |s| && s[e] != ','
      invariant p <= e <= |s|
      invariant ',' !in s[p..e]
    {
      assert s[p..e + 1] == s[p..e] + [s[e]];
      e := e + 1;
    }
  }

  /**
   * The hidden state of `strtok`: the string handed to the first call and
   * the position the next call resumes from. The ghost fields record every
   * token of the string and how many have been handed out.
   */
  class Tokenizer {
    var text: string
    var pos: nat
    ghost var all: seq<string>
    ghost var taken: nat

    ghost predicate Valid()
      reads this
    {
      && pos <= |text|
      && all == Tokens(text)
      && taken <= |all|
      && Tokens(text[pos..]) == all[taken..]
    }

    /** `strtok(csv, ",")`: remember the string to scan. */
    constructor (s: string)
      ensures Valid() && text == s && taken == 0
    {
      text := s;
      pos := 0;
      all := Tokens(s);
      taken := 0;
      new;
      assert text[0..] == text;
    }

    /** One `strtok` call: the next token, or None (NULL) when none is left. */
    method Next() returns (tok: Option<string>)
      requires Valid()
      modifies this
      ensures Valid() && text == old(text) && all == old(all)
      ensures tok.None? ==> old(taken) == taken == |all|
      ensures tok.Some? ==> old(taken) < |all| && tok.value == all[old(taken)] && taken == old(taken) + 1
    {
      var p := SkipDelimiters(text, pos);
      if p == |text| {
        assert text[p..] == [];
        assert all[taken..] == [];
        pos := p;
        return None;
      }
      var e := ScanToken(text, p);
      tok := Some(text[p..e]);
      TakeToken(text, p, e);
      assert all[taken..][1..] == all[taken + 1..];
      pos := e;
      taken := taken + 1;
    }

    /**
     * `n` consecutive `strtok` calls, as a parser makes them one column after
     * another: the next `n` tokens, or None when a call returns NULL first.
     */
    method Take(n: nat) returns (toks: Option<seq<string>>)
      requires Valid()
      modifies this
      ensures Valid() && text == old(text) && all == old(all)
      ensures toks.Some? <==> old(taken) + n <= |all|
      ensures toks.Some? ==> toks.value == all[old(taken)..old(taken) + n] && taken == old(taken) + n
    {
      var got: seq<string> := [];
      while |got| < n
        invariant Valid() && text == old(text) && all == old(all)
        invariant taken == old(taken) + |got| && |got| <= n
        invariant got == all[old(taken)..taken]
      {
        var tok := Next();
        if tok.None? {
          return None;
        }
        got := got + [tok.value];
      }
      return Some(got);
    }
  }
}
