/** String splitting on single spaces, as JavaScript's `s.split(" ")` does it:
    every space is a separator, so doubled, leading or trailing spaces give
    empty tokens, and the empty string splits into one empty token. */
module Tokens {

  /** Index of the first space of `s`. */
  function FirstSpace(s: string): (i: nat)
    requires ' ' in s
    ensures i < |s| && s[i] == ' '
    ensures ' ' !in s[..i]
  {
    if s[0] == ' ' then 0
    else
      var j := FirstSpace(s[1..]);
      assert s[..1 + j] == [s[0]] + s[1..][..j];
      1 + j
  }

  /** `s.split(" ")`. */
  function Split(s: string): (tokens: seq<string>)
    ensures |tokens| > 0
    ensures forall t | t in tokens :: ' ' !in t
    decreases |s|
  {
    if ' ' !in s then [s]
    else
      var i := FirstSpace(s);
      [s[..i]] + Split(s[i + 1..])
  }

  /** `tokens.join(" ")`. */
  function Join(tokens: seq<string>): string
  {
    if tokens == [] then ""
    else if |tokens| == 1 then tokens[0]
    else tokens[0] + " " + Join(tokens[1..])
  }

  /** `s.split(' ', 1)[0]`: everything before the first space. */
  function FirstToken(s: string): (t: string)
    ensures t == Split(s)[0]
    ensures ' ' !in t && t <= s
    ensures t == s || s[|t|] == ' '
  {
    if ' ' in s then s[..FirstSpace(s)] else s
  }

  /** Joining the tokens of a split gives the string back. */
  lemma {:induction false} JoinSplit(s: string)
    ensures Join(Split(s)) == s
    decreases |s|
  {
    if ' ' in s {
      var i := FirstSpace(s);
      var rest := s[i + 1..];
      JoinSplit(rest);
      assert Split(s) == [s[..i]] + Split(rest);
      assert Split(s)[1..] == Split(rest);
      assert s == s[..i] + " " + rest;
    }
  }

  /** The first space of `a + " " + b` is the one after `a` when `a` has none. */
  lemma FirstSpaceAfter(a: string, b: string)
    requires ' ' !in a
    ensures ' ' in a + " " + b
    ensures FirstSpace(a + " " + b) == |a|
  {
    var s := a + " " + b;
    assert s[|a|] == ' ';
    var i := FirstSpace(s);
    assert forall k | 0 <= k < |a| :: s[k] == a[k] && a[k] in a;
    assert i >= |a|;
    assert forall k | 0 <= k < i :: s[..i][k] == s[k];
    assert i <= |a|;
  }

  /** Splitting a join of space-free tokens gives the tokens back. */
  lemma {:induction false} SplitJoin(tokens: seq<string>)
    requires |tokens| > 0
    requires forall t | t in tokens :: ' ' !in t
    ensures Split(Join(tokens)) == tokens
    decreases |tokens|
  {
    var a := tokens[0];
    assert a in tokens;
    if |tokens| > 1 {
      var rest := tokens[1..];
      assert forall t | t in rest :: t in tokens;
      SplitJoin(rest);
      var s := a + " " + Join(rest);
      assert Join(tokens) == s;
      FirstSpaceAfter(a, Join(rest));
      assert s[..|a|] == a;
      assert s[|a| + 1..] == Join(rest);
      assert Split(s) == [a] + Split(Join(rest));
      assert tokens == [a] + rest;
    } else {
      assert Join(tokens) == a;
      assert Split(a) == [a];
    }
  }
}
