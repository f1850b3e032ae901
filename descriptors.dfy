/** Parsing of the element descriptor: `".tag #id class1 class2 ..."`. */
module Descriptors {
  import opened Tokens

  const DefaultTag: string := "div"

  /** `token[0] === mark`; an empty token starts with no mark. */
  predicate Marked(token: string, mark: char) {
    |token| > 0 && token[0] == mark
  }

  predicate IsClassToken(token: string) {
    !Marked(token, '.') && !Marked(token, '#')
  }

  /** The state of the descriptor loop: the tag and the id chosen so far, and
      the class string with one space in front of every class token. */
  datatype Scan = Scan(tag: string, id: string, classes: string)

  /** One iteration of the descriptor loop. */
  function Step(s: Scan, token: string): Scan {
    if Marked(token, '.') then s.(tag := token[1..])
    else if Marked(token, '#') then s.(id := token[1..])
    else s.(classes := s.classes + " " + token)
  }

  /** The loop state after the given tokens, left to right. */
  function ScanTokens(tokens: seq<string>): Scan {
    if tokens == [] then Scan(DefaultTag, "", "")
    else Step(ScanTokens(tokens[..|tokens| - 1]), tokens[|tokens| - 1])
  }

  /** `s.slice(1)`. */
  function DropFirst(s: string): string {
    if s == [] then s else s[1..]
  }

  datatype Descriptor = Descriptor(tag: string, id: string, className: string)

  /** What the descriptor loop and the removal of the leading separator yield. */
  function Parse(desc: string): Descriptor {
    var s := ScanTokens(Split(desc));
    Descriptor(s.tag, s.id, DropFirst(s.classes))
  }

  method ParseDescriptor(desc: string) returns (d: Descriptor)
    ensures d == Parse(desc)
  {
    var tokens := Split(desc);
    var tag, id, classes := DefaultTag, "", "";
    var k := 0;
    while k < |tokens|
      invariant 0 <= k <= |tokens|
      invariant Scan(tag, id, classes) == ScanTokens(tokens[..k])
    {
      var token := tokens[k];
      if |token| > 0 && token[0] == '.' {
        tag := token[1..];
      } else if |token| > 0 && token[0] == '#' {
        id := token[1..];
      } else {
        classes := classes + " " + token;
      }
      assert tokens[..k + 1][..k] == tokens[..k];
      k := k + 1;
    }
    assert tokens[..k] == tokens;
    d := Descriptor(tag, id, DropFirst(classes));
  }

  /** The field a mark selects: `.` the tag, `#` the id. */
  function Chosen(s: Scan, mark: char): string {
    if mark == '.' then s.tag else s.id
  }

  /** The tag (or id) is the rest of the last token carrying its mark. */
  lemma {:induction false} LastMarkWins(tokens: seq<string>, mark: char, i: nat)
    requires mark == '.' || mark == '#'
    requires i < |tokens| && Marked(tokens[i], mark)
    requires forall j | i < j < |tokens| :: !Marked(tokens[j], mark)
    ensures Chosen(ScanTokens(tokens), mark) == tokens[i][1..]
    decreases |tokens|
  {
    var n := |tokens| - 1;
    var before := tokens[..n];
    assert tokens[n] == tokens[|tokens| - 1];
    if i < n {
      assert before[i] == tokens[i];
      assert forall j | i < j < n :: before[j] == tokens[j];
      LastMarkWins(before, mark, i);
    }
  }

  /** Without a token carrying its mark, the tag is `div` and the id is empty. */
  lemma {:induction false} UnmarkedDefault(tokens: seq<string>, mark: char)
    requires mark == '.' || mark == '#'
    requires forall j | 0 <= j < |tokens| :: !Marked(tokens[j], mark)
    ensures Chosen(ScanTokens(tokens), mark) == if mark == '.' then DefaultTag else ""
    decreases |tokens|
  {
    if tokens != [] {
      var n := |tokens| - 1;
      assert forall j | 0 <= j < n :: tokens[..n][j] == tokens[j];
      UnmarkedDefault(tokens[..n], mark);
    }
  }

  /** The tag is the rest of the last token of the descriptor that starts
      with `.`. */
  lemma ParseTagLast(desc: string, i: nat)
    requires i < |Split(desc)| && Marked(Split(desc)[i], '.')
    requires forall j | i < j < |Split(desc)| :: !Marked(Split(desc)[j], '.')
    ensures Parse(desc).tag == Split(desc)[i][1..]
  {
    LastMarkWins(Split(desc), '.', i);
  }

  /** Without a token starting with `.`, the tag is `div`. */
  lemma ParseTagDefault(desc: string)
    requires forall t | t in Split(desc) :: !Marked(t, '.')
    ensures Parse(desc).tag == DefaultTag
  {
    var tokens := Split(desc);
    assert forall j | 0 <= j < |tokens| :: tokens[j] in tokens;
    UnmarkedDefault(tokens, '.');
  }

  /** The id is the rest of the last token of the descriptor that starts
      with `#`. */
  lemma ParseIdLast(desc: string, i: nat)
    requires i < |Split(desc)| && Marked(Split(desc)[i], '#')
    requires forall j | i < j < |Split(desc)| :: !Marked(Split(desc)[j], '#')
    ensures Parse(desc).id == Split(desc)[i][1..]
  {
    LastMarkWins(Split(desc), '#', i);
  }

  /** Without a token starting with `#`, the id is empty. */
  lemma ParseIdDefault(desc: string)
    requires forall t | t in Split(desc) :: !Marked(t, '#')
    ensures Parse(desc).id == ""
  {
    var tokens := Split(desc);
    assert forall j | 0 <= j < |tokens| :: tokens[j] in tokens;
    UnmarkedDefault(tokens, '#');
  }

  /** The class tokens, in their original order. */
  function ClassTokens(tokens: seq<string>): seq<string> {
    if tokens == [] then []
    else (if IsClassToken(tokens[0]) then [tokens[0]] else []) + ClassTokens(tokens[1..])
  }

  lemma {:induction false} ClassTokensSnoc(tokens: seq<string>, t: string)
    ensures ClassTokens(tokens + [t]) == ClassTokens(tokens) + (if IsClassToken(t) then [t] else [])
    decreases |tokens|
  {
    if tokens != [] {
      assert (tokens + [t])[1..] == tokens[1..] + [t];
      ClassTokensSnoc(tokens[1..], t);
    }
  }

  lemma {:induction false} JoinSnoc(ts: seq<string>, t: string)
    requires ts != []
    ensures Join(ts + [t]) == Join(ts) + " " + t
    decreases |ts|
  {
    if |ts| > 1 {
      assert (ts + [t])[1..] == ts[1..] + [t];
      JoinSnoc(ts[1..], t);
    }
  }

  /** Class tokens with one space in front of each. */
  function Spaced(cs: seq<string>): string {
    if cs == [] then "" else " " + Join(cs)
  }

  lemma SpacedSnoc(cs: seq<string>, t: string)
    ensures Spaced(cs + [t]) == Spaced(cs) + " " + t
  {
    if cs == [] {
      assert cs + [t] == [t];
    } else {
      JoinSnoc(cs, t);
    }
  }

  /** One loop step adds `" " + t` to the class string exactly for a class token. */
  lemma ScanClassesStep(tokens: seq<string>)
    requires tokens != []
    ensures var n := |tokens| - 1;
      ScanTokens(tokens).classes ==
        if IsClassToken(tokens[n]) then ScanTokens(tokens[..n]).classes + " " + tokens[n]
        else ScanTokens(tokens[..n]).classes
  {
  }

  /** The loop's class string is the class tokens, each with a space in front. */
  lemma {:induction false} ScanClasses(tokens: seq<string>)
    ensures ScanTokens(tokens).classes == Spaced(ClassTokens(tokens))
    decreases |tokens|
  {
    if tokens != [] {
      var n := |tokens| - 1;
      var t := tokens[n];
      var before := tokens[..n];
      ScanClasses(before);
      ScanClassesStep(tokens);
      assert before + [t] == tokens;
      ClassTokensSnoc(before, t);
      if IsClassToken(t) {
        assert ClassTokens(tokens) == ClassTokens(before) + [t];
        SpacedSnoc(ClassTokens(before), t);
      } else {
        assert ClassTokens(tokens) == ClassTokens(before) + [];
        assert ClassTokens(before) + [] == ClassTokens(before);
      }
    }
  }

  /** The class name is the class tokens joined by single spaces (empty tokens
      included), or empty when there are none. */
  lemma ParseClassName(desc: string)
    ensures Parse(desc).className == Join(ClassTokens(Split(desc)))
  {
    ScanClasses(Split(desc));
  }

  /** A descriptor with neither a `.` nor a `#` token is a `div` whose class
      name is the descriptor itself. */
  lemma PlainDescriptor(desc: string)
    requires forall t | t in Split(desc) :: IsClassToken(t)
    ensures Parse(desc) == Descriptor(DefaultTag, "", desc)
  {
    var tokens := Split(desc);
    assert forall j | 0 <= j < |tokens| :: tokens[j] in tokens;
    UnmarkedDefault(tokens, '.');
    UnmarkedDefault(tokens, '#');
    AllClassTokens(tokens);
    ParseClassName(desc);
    JoinSplit(desc);
  }

  lemma {:induction false} AllClassTokens(tokens: seq<string>)
    requires forall t | t in tokens :: IsClassToken(t)
    ensures ClassTokens(tokens) == tokens
    decreases |tokens|
  {
    if tokens != [] {
      assert tokens[0] in tokens;
      assert forall t | t in tokens[1..] :: t in tokens;
      AllClassTokens(tokens[1..]);
    }
  }
}
