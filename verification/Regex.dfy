/** The matcher of user/grep.c against a declarative meaning of its patterns: a match is a stretch of the
    text that can be cut into one piece per item of the pattern. */
module Regex {
  /** A character, or a starred one; '.' stands for any character. */
  datatype Item = One(c: char) | Many(c: char)

  datatype Pattern = Pattern(items: seq<Item>, toEnd: bool)

  predicate Fits(c: char, x: char) {
    c == '.' || c == x
  }

  // ----- the declarative meaning

  predicate PieceOk(item: Item, piece: string) {
    match item
    case One(c) => |piece| == 1 && Fits(c, piece[0])
    case Many(c) => forall i :: 0 <= i < |piece| ==> Fits(c, piece[i])
  }

  /** text[cuts[i]..cuts[i+1]] is the piece for item i. */
  predicate CutInto(items: seq<Item>, text: string, cuts: seq<nat>) {
    && |cuts| == |items| + 1 && cuts[0] == 0
    && (forall i :: 0 <= i < |items| ==> PieceAt(items, text, cuts, i))
  }

  predicate PieceAt(items: seq<Item>, text: string, cuts: seq<nat>, i: nat)
    requires |cuts| == |items| + 1 && i < |items|
  {
    cuts[i] <= cuts[i + 1] <= |text| && PieceOk(items[i], text[cuts[i]..cuts[i + 1]])
  }

  predicate CutsWork(p: Pattern, text: string, cuts: seq<nat>) {
    CutInto(p.items, text, cuts) && (p.toEnd ==> cuts[|p.items|] == |text|)
  }

  /** A beginning of text, all of it if the pattern ends in '$', is what the pattern describes. */
  ghost predicate MatchesStart(p: Pattern, text: string) {
    exists cuts: seq<nat> :: CutsWork(p, text, cuts)
  }

  /** The items of a pattern string: a character before '*' is starred, a final '$' is the anchor. */
  function Parse(re: string): Pattern {
    if re == "" then Pattern([], false)
    else if |re| > 1 && re[1] == '*' then Parse(re[2..]).(items := [Many(re[0])] + Parse(re[2..]).items)
    else if re == "$" then Pattern([], true)
    else Parse(re[1..]).(items := [One(re[0])] + Parse(re[1..]).items)
  }

  /** What grep promises: some stretch of the text matches, at the start if the pattern begins with '^'. */
  ghost predicate Matches(re: string, text: string) {
    if re != "" && re[0] == '^' then MatchesStart(Parse(re[1..]), text)
    else exists k :: 0 <= k <= |text| && MatchesStart(Parse(re), text[k..])
  }

  // ----- one item at a time

  lemma EmptyPattern(toEnd: bool, text: string)
    ensures MatchesStart(Pattern([], toEnd), text) <==> (toEnd ==> text == "")
  {
    var p := Pattern([], toEnd);
    if toEnd ==> text == "" {
      assert CutsWork(p, text, [0]);
    }
  }

  /** Cuts for the rest of the text, moved k to the right behind a first piece of length k. */
  function Shifted(cuts: seq<nat>, k: nat): (r: seq<nat>)
    ensures |r| == |cuts| + 1 && r[0] == 0 && forall i :: 0 < i < |r| ==> r[i] == cuts[i - 1] + k
  {
    [0] + seq(|cuts|, i requires 0 <= i < |cuts| => cuts[i] + k)
  }

  lemma PutPiece(item: Item, rest: seq<Item>, toEnd: bool, text: string, k: nat, cuts: seq<nat>)
    requires k <= |text| && PieceOk(item, text[..k]) && CutsWork(Pattern(rest, toEnd), text[k..], cuts)
    ensures MatchesStart(Pattern([item] + rest, toEnd), text)
  {
    var items, all := [item] + rest, Shifted(cuts, k);
    forall i | 0 <= i < |items| ensures PieceAt(items, text, all, i) {
      if i == 0 {
        assert text[0..k] == text[..k];
      } else {
        assert PieceAt(rest, text[k..], cuts, i - 1);
        assert text[all[i]..all[i + 1]] == text[k..][cuts[i - 1]..cuts[i]];
      }
    }
    assert CutsWork(Pattern(items, toEnd), text, all);
  }

  lemma TakePiece(item: Item, rest: seq<Item>, toEnd: bool, text: string, cuts: seq<nat>)
    requires CutsWork(Pattern([item] + rest, toEnd), text, cuts)
    ensures |cuts| > 1 && cuts[1] <= |text| && PieceOk(item, text[..cuts[1]])
    ensures MatchesStart(Pattern(rest, toEnd), text[cuts[1]..])
  {
    var items, k := [item] + rest, cuts[1];
    assert PieceAt(items, text, cuts, 0);
    assert text[0..k] == text[..k];
    Rising(items, text, cuts, 1);
    var less := seq(|rest| + 1, i requires 0 <= i < |rest| + 1 => cuts[i + 1] - k);
    forall i | 0 <= i < |rest| ensures PieceAt(rest, text[k..], less, i) {
      assert PieceAt(items, text, cuts, i + 1);
      assert text[cuts[i + 1]..cuts[i + 2]] == text[k..][less[i]..less[i + 1]];
    }
    assert CutsWork(Pattern(rest, toEnd), text[k..], less);
  }

  lemma {:induction false} Rising(items: seq<Item>, text: string, cuts: seq<nat>, i: nat)
    requires CutInto(items, text, cuts) && i <= |items|
    ensures forall j :: i <= j <= |items| ==> cuts[i] <= cuts[j]
    decreases |items| - i
  {
    if i < |items| {
      assert PieceAt(items, text, cuts, i);
      Rising(items, text, cuts, i + 1);
    }
  }

  lemma OnePattern(c: char, rest: seq<Item>, toEnd: bool, text: string)
    ensures MatchesStart(Pattern([One(c)] + rest, toEnd), text) <==>
      (text != "" && Fits(c, text[0]) && MatchesStart(Pattern(rest, toEnd), text[1..]))
  {
    var p := Pattern([One(c)] + rest, toEnd);
    if MatchesStart(p, text) {
      var cuts :| CutsWork(p, text, cuts);
      TakePiece(One(c), rest, toEnd, text, cuts);
      assert |text[..cuts[1]]| == 1;
    }
    if text != "" && Fits(c, text[0]) && MatchesStart(Pattern(rest, toEnd), text[1..]) {
      var cuts :| CutsWork(Pattern(rest, toEnd), text[1..], cuts);
      PutPiece(One(c), rest, toEnd, text, 1, cuts);
    }
  }

  predicate AllFit(c: char, s: string) {
    forall i :: 0 <= i < |s| ==> Fits(c, s[i])
  }

  /** Skipping the first k characters, which all fit c, lets the rest match. */
  ghost predicate StarAt(c: char, p: Pattern, text: string, k: nat) {
    k <= |text| && AllFit(c, text[..k]) && MatchesStart(p, text[k..])
  }

  ghost predicate StarMatches(c: char, p: Pattern, text: string) {
    exists k: nat :: StarAt(c, p, text, k)
  }

  lemma ManyPattern(c: char, rest: seq<Item>, toEnd: bool, text: string)
    ensures MatchesStart(Pattern([Many(c)] + rest, toEnd), text) <==> StarMatches(c, Pattern(rest, toEnd), text)
  {
    var p := Pattern([Many(c)] + rest, toEnd);
    if MatchesStart(p, text) {
      var cuts :| CutsWork(p, text, cuts);
      TakePiece(Many(c), rest, toEnd, text, cuts);
      assert StarAt(c, Pattern(rest, toEnd), text, cuts[1]);
    }
    forall k: nat | StarAt(c, Pattern(rest, toEnd), text, k) ensures MatchesStart(p, text) {
      var cuts :| CutsWork(Pattern(rest, toEnd), text[k..], cuts);
      PutPiece(Many(c), rest, toEnd, text, k, cuts);
    }
  }

  // ----- the matcher

  /** match: look for re anywhere in text, or only at its start after '^'. */
  method Match(re: string, text: string) returns (found: bool)
    ensures found <==> Matches(re, text)
  {
    if re != "" && re[0] == '^' {
      found := MatchHere(re[1..], text);
      return;
    }
    var k := 0;
    assert text[0..] == text;
    while true
      invariant 0 <= k <= |text|
      invariant forall j :: 0 <= j < k ==> !MatchesStart(Parse(re), text[j..])
      decreases |text| - k
    {
      found := MatchHere(re, text[k..]);
      if found {
        return;
      }
      if k == |text| {
        break;
      }
      k := k + 1;
    }
    found := false;
  }

  /** matchhere: look for re at the start of text. */
  method MatchHere(re: string, text: string) returns (found: bool)
    ensures found <==> MatchesStart(Parse(re), text)
    decreases |re|, 0
  {
    if re == "" {
      EmptyPattern(false, text);
      return true;
    }
    if |re| > 1 && re[1] == '*' {
      var rest := Parse(re[2..]);
      ManyPattern(re[0], rest.items, rest.toEnd, text);
      assert Parse(re) == Pattern([Many(re[0])] + rest.items, rest.toEnd) && Pattern(rest.items, rest.toEnd) == rest;
      found := MatchStar(re[0], re[2..], text);
      return;
    }
    if re[0] == '$' && |re| == 1 {
      EmptyPattern(true, text);
      return text == "";
    }
    var rest := Parse(re[1..]);
    OnePattern(re[0], rest.items, rest.toEnd, text);
    if text != "" && (re[0] == '.' || re[0] == text[0]) {
      found := MatchHere(re[1..], text[1..]);
      return;
    }
    found := false;
  }

  /** matchstar: look for any number of characters that fit c, and then re. */
  method MatchStar(c: char, re: string, text: string) returns (found: bool)
    ensures found <==> StarMatches(c, Parse(re), text)
    decreases |re|, 1
  {
    var k := 0;
    while true
      invariant 0 <= k <= |text| && AllFit(c, text[..k])
      invariant forall j: nat :: j < k ==> !StarAt(c, Parse(re), text, j)
      decreases |text| - k
    {
      found := MatchHere(re, text[k..]);
      if found {
        assert StarAt(c, Parse(re), text, k);
        return;
      }
      if !(k < |text| && (text[k] == c || c == '.')) {
        NoFurther(c, Parse(re), text, k);
        return false;
      }
      k := k + 1;
    }
  }

  /** Once a character does not fit, no longer run of fitting ones exists. */
  lemma NoFurther(c: char, p: Pattern, text: string, k: nat)
    requires k <= |text| && !(k < |text| && Fits(c, text[k]))
    requires forall j: nat :: j < k ==> !StarAt(c, p, text, j)
    requires !MatchesStart(p, text[k..])
    ensures !StarMatches(c, p, text)
  {
    forall j: nat ensures !StarAt(c, p, text, j) {
      if k < j <= |text| {
        assert text[..j][k] == text[k];
      }
    }
  }
}
