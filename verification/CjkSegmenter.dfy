/**
  Splitting a documentation search query: runs of Chinese characters are cut off from the rest, and each run is
  segmented by taking the longest dictionary word at every position.  Text is a sequence of UTF-16 code units.
 */
module CjkSegmenter {

  type Text = seq<nat>

  predicate IsCjk(unit: nat) {
    0x4e00 <= unit <= 0x9fff || 0x3400 <= unit <= 0x4dbf || 0xf900 <= unit <= 0xfaff
  }

  // --------------------------------------------------------------------------------- runs of one class

  function Concat(parts: seq<Text>): Text {
    if parts == [] then [] else Concat(parts[..|parts| - 1]) + parts[|parts| - 1]
  }

  predicate OneClass(part: Text, cjk: bool) {
    forall i :: 0 <= i < |part| ==> IsCjk(part[i]) == cjk
  }

  /** A non-empty run, of the class of its first unit. */
  predicate Run(part: Text) {
    part != [] && OneClass(part, IsCjk(part[0]))
  }

  /** Runs whose classes alternate. */
  ghost predicate Alternating(parts: seq<Text>) {
    && (forall i :: 0 <= i < |parts| ==> Run(parts[i]))
    && (forall i :: 0 < i < |parts| ==> IsCjk(parts[i - 1][0]) != IsCjk(parts[i][0]))
  }

  lemma ConcatAppend(parts: seq<Text>, part: Text)
    ensures Concat(parts + [part]) == Concat(parts) + part
  {
    assert (parts + [part])[..|parts|] == parts;
  }

  /** `text` is cut into `parts` and a last run `current`, still growing, of class `isCjk`. */
  ghost predicate Cut(parts: seq<Text>, current: Text, isCjk: bool, text: Text) {
    && Alternating(parts) && Concat(parts) + current == text && OneClass(current, isCjk)
    && (current == [] ==> parts == [])
    && (parts != [] ==> IsCjk(parts[|parts| - 1][0]) != isCjk)
  }

  lemma CutEnds(parts: seq<Text>, current: Text, isCjk: bool, text: Text)
    requires Cut(parts, current, isCjk, text) && current != []
    ensures Alternating(parts + [current]) && Concat(parts + [current]) == text
  {
    ConcatAppend(parts, current);
    assert IsCjk(current[0]) == isCjk;
  }

  lemma CutGrows(parts: seq<Text>, current: Text, isCjk: bool, text: Text, ch: nat)
    requires Cut(parts, current, isCjk, text) && IsCjk(ch) == isCjk
    ensures Cut(parts, current + [ch], isCjk, text + [ch])
  {
    assert Concat(parts) + (current + [ch]) == (Concat(parts) + current) + [ch];
  }

  lemma CutTurns(parts: seq<Text>, current: Text, isCjk: bool, text: Text, ch: nat)
    requires Cut(parts, current, isCjk, text) && IsCjk(ch) != isCjk && current != []
    ensures Cut(parts + [current], [ch], IsCjk(ch), text + [ch])
  {
    CutEnds(parts, current, isCjk, text);
    assert IsCjk(current[0]) == isCjk;
  }

  method ExtractCjkFromRaw(text: Text) returns (parts: seq<Text>)
    ensures Alternating(parts) && Concat(parts) == text
  {
    hide Cut, Alternating, Concat;
    parts := [];
    var current: Text := [];
    var isCjk := |text| > 0 && IsCjk(text[0]);
    NothingCut(isCjk);
    for i := 0 to |text|
      invariant Cut(parts, current, isCjk, text[..i]) && (current == [] <==> i == 0)
      invariant i == 0 && |text| > 0 ==> isCjk == IsCjk(text[0])
    {
      var ch := text[i];
      assert text[..i + 1] == text[..i] + [ch];
      if IsCjk(ch) != isCjk {
        CutTurns(parts, current, isCjk, text[..i], ch);
        if current != [] { parts := parts + [current]; }
        current, isCjk := [ch], IsCjk(ch);
      } else {
        CutGrows(parts, current, isCjk, text[..i], ch);
        current := current + [ch];
      }
    }
    assert text[..|text|] == text;
    if current != [] {
      CutEnds(parts, current, isCjk, text);
      parts := parts + [current];
    } else {
      EmptyCut(parts, isCjk, text);
    }
  }

  lemma EmptyCut(parts: seq<Text>, isCjk: bool, text: Text)
    requires Cut(parts, [], isCjk, text)
    ensures Alternating(parts) && Concat(parts) == text
  {
  }

  lemma NothingCut(isCjk: bool)
    ensures Cut([], [], isCjk, []) && Alternating([]) && Concat([]) == []
  {
  }

  /** The first part is the longest prefix of one class. */
  lemma {:induction false} FirstPart(parts: seq<Text>)
    requires Alternating(parts) && parts != []
    ensures var text := Concat(parts);
      && |parts[0]| <= |text| && text[..|parts[0]|] == parts[0]
      && (|parts| == 1 ==> text == parts[0])
      && (|parts| > 1 ==> |parts[0]| < |text| && IsCjk(text[|parts[0]|]) != IsCjk(text[0]))
  {
    var front := parts[..|parts| - 1];
    if front != [] {
      FirstPart(front);
      if |parts| > 2 { assert front[0] == parts[0]; }
    } else {
      assert Concat(front) == [];
    }
  }

  lemma {:induction false} ConcatFront(parts: seq<Text>)
    requires parts != []
    ensures Concat(parts) == parts[0] + Concat(parts[1..])
  {
    if |parts| > 1 {
      ConcatFront(parts[..|parts| - 1]);
      assert parts[..|parts| - 1][1..] == parts[1..][..|parts| - 2];
    }
  }

  lemma AlternatingTail(parts: seq<Text>)
    requires Alternating(parts) && parts != []
    ensures Alternating(parts[1..])
  {
    var rest := parts[1..];
    forall i | 0 < i < |rest| ensures IsCjk(rest[i - 1][0]) != IsCjk(rest[i][0]) {
      assert rest[i] == parts[i + 1] && rest[i - 1] == parts[i];
    }
  }

  lemma FirstPartsAgree(a: seq<Text>, b: seq<Text>)
    requires Alternating(a) && Alternating(b) && a != [] && b != [] && Concat(a) == Concat(b)
    ensures a[0] == b[0]
  {
    FirstPart(a);
    FirstPart(b);
    NotLonger(a, b);
    NotLonger(b, a);
  }

  lemma NotLonger(a: seq<Text>, b: seq<Text>)
    requires Alternating(a) && Alternating(b) && a != [] && b != [] && Concat(a) == Concat(b)
    ensures |a[0]| <= |b[0]|
  {
    hide Alternating;
    FirstPart(a);
    FirstPart(b);
    if |b[0]| < |a[0]| { ClassHolds(a, |b[0]|); }
  }

  lemma ClassHolds(parts: seq<Text>, n: nat)
    requires Alternating(parts) && parts != [] && n < |parts[0]|
    ensures n < |Concat(parts)| && IsCjk(Concat(parts)[n]) == IsCjk(Concat(parts)[0])
  {
    FirstPart(parts);
    assert Run(parts[0]) && Concat(parts)[n] == parts[0][n] && Concat(parts)[0] == parts[0][0];
  }

  /** There is only one way to cut a text into alternating runs. */
  lemma {:induction false} CutIsUnique(a: seq<Text>, b: seq<Text>)
    requires Alternating(a) && Alternating(b) && Concat(a) == Concat(b)
    ensures a == b
  {
    if a == [] || b == [] {
      if a != [] { FirstPart(a); }
      if b != [] { FirstPart(b); }
    } else {
      FirstPartsAgree(a, b);
      ConcatFront(a);
      ConcatFront(b);
      AlternatingTail(a);
      AlternatingTail(b);
      assert Concat(a[1..]) == Concat(a)[|a[0]|..] && Concat(b[1..]) == Concat(b)[|b[0]|..];
      CutIsUnique(a[1..], b[1..]);
      assert a == [a[0]] + a[1..] && b == [b[0]] + b[1..];
    }
  }

  // ------------------------------------------------------------------------------------- characters

  predicate HighSurrogate(unit: nat) {
    0xd800 <= unit <= 0xdbff
  }

  predicate LowSurrogate(unit: nat) {
    0xdc00 <= unit <= 0xdfff
  }

  /** The units of each character in turn: a surrogate pair is one character. */
  function Characters(text: Text): (chars: seq<Text>)
    ensures forall i :: 0 <= i < |chars| ==> chars[i] != []
  {
    if text == [] then []
    else if |text| > 1 && HighSurrogate(text[0]) && LowSurrogate(text[1]) then [text[..2]] + Characters(text[2..])
    else [text[..1]] + Characters(text[1..])
  }

  /** The characters from place `a` up to `b`, joined. */
  function Join(chars: seq<Text>, a: nat, b: nat): Text
    requires b <= |chars|
    decreases b
  {
    if a >= b then [] else Join(chars, a, b - 1) + chars[b - 1]
  }

  lemma {:induction false} JoinAdds(chars: seq<Text>, a: nat, b: nat, c: nat)
    requires a <= b <= c <= |chars|
    ensures Join(chars, a, c) == Join(chars, a, b) + Join(chars, b, c)
    decreases c
  {
    if b < c { JoinAdds(chars, a, b, c - 1); }
  }

  lemma {:induction false} JoinShift(chars: seq<Text>, first: Text, n: nat)
    requires n <= |chars|
    ensures Join([first] + chars, 0, n + 1) == first + Join(chars, 0, n)
  {
    if n > 0 { JoinShift(chars, first, n - 1); }
  }

  lemma {:induction false} CharactersJoin(text: Text)
    ensures Join(Characters(text), 0, |Characters(text)|) == text
  {
    if text != [] {
      var k := if |text| > 1 && HighSurrogate(text[0]) && LowSurrogate(text[1]) then 2 else 1;
      CharactersJoin(text[k..]);
      JoinShift(Characters(text[k..]), text[..k], |Characters(text[k..])|);
      assert text == text[..k] + text[k..];
    }
  }

  /** A run of Chinese characters has one unit to a character. */
  lemma {:induction false} CjkCharacters(text: Text, i: nat)
    requires OneClass(text, true)
    ensures |Characters(text)| == |text| && (i < |text| ==> Characters(text)[i] == [text[i]])
  {
    if text != [] {
      assert IsCjk(text[0]) && text[..1] == [text[0]];
      CjkCharacters(text[1..], if i == 0 then 0 else i - 1);
    }
  }

  // ------------------------------------------------------------------------------------ longest match

  /** What to take at `pos` ends at `end`: a dictionary word longer than any other there, or else one character. */
  ghost predicate LongestMatch(chars: seq<Text>, dict: set<Text>, pos: nat, end: nat) {
    && pos < end <= |chars|
    && (end > pos + 1 ==> Join(chars, pos, end) in dict)
    && (forall e :: end < e <= |chars| ==> Join(chars, pos, e) !in dict)
  }

  /** `segs` cuts the characters from `pos` on by taking the longest match each time. */
  ghost predicate Canonical(segs: seq<Text>, chars: seq<Text>, dict: set<Text>, pos: nat)
    decreases |segs|
  {
    if segs == [] then pos == |chars|
    else exists end: nat :: LongestMatch(chars, dict, pos, end) && segs[0] == Join(chars, pos, end)
                            && Canonical(segs[1..], chars, dict, end)
  }

  lemma MatchIsUnique(chars: seq<Text>, dict: set<Text>, pos: nat, a: nat, b: nat)
    requires LongestMatch(chars, dict, pos, a) && LongestMatch(chars, dict, pos, b)
    ensures a == b
  {
  }

  /** There is one canonical segmentation at most. */
  lemma {:induction false} CanonicalIsUnique(a: seq<Text>, b: seq<Text>, chars: seq<Text>, dict: set<Text>, pos: nat)
    requires Canonical(a, chars, dict, pos) && Canonical(b, chars, dict, pos)
    ensures a == b
    decreases |a|
  {
    hide Join;
    if a != [] && b != [] {
      var m: nat :| LongestMatch(chars, dict, pos, m) && a[0] == Join(chars, pos, m)
                    && Canonical(a[1..], chars, dict, m);
      var n: nat :| LongestMatch(chars, dict, pos, n) && b[0] == Join(chars, pos, n)
                    && Canonical(b[1..], chars, dict, n);
      MatchIsUnique(chars, dict, pos, m, n);
      CanonicalIsUnique(a[1..], b[1..], chars, dict, m);
      assert a == [a[0]] + a[1..] && b == [b[0]] + b[1..];
    }
  }

  /** Segments join back to the text, and each is a dictionary word or a single character. */
  lemma {:induction false} CanonicalIsLossless(segs: seq<Text>, chars: seq<Text>, dict: set<Text>, pos: nat)
    requires Canonical(segs, chars, dict, pos) && pos <= |chars|
    ensures Concat(segs) == Join(chars, pos, |chars|)
    ensures forall i :: 0 <= i < |segs| ==> segs[i] in dict || segs[i] in chars
    decreases |segs|
  {
    if segs != [] {
      var end: nat :| LongestMatch(chars, dict, pos, end) && segs[0] == Join(chars, pos, end)
                      && Canonical(segs[1..], chars, dict, end);
      CanonicalIsLossless(segs[1..], chars, dict, end);
      ConcatFront(segs);
      JoinAdds(chars, pos, end, |chars|);
      assert end == pos + 1 ==> segs[0] == chars[pos];
      assert forall i :: 0 < i < |segs| ==> segs[i] == segs[1..][i - 1];
    }
  }

  /** One more segment at the end. */
  lemma {:induction false} CanonicalUpTo(segs: seq<Text>, next: Text, chars: seq<Text>, dict: set<Text>,
                                         from: nat, pos: nat, end: nat)
    requires Leads(segs, chars, dict, from, pos) && LongestMatch(chars, dict, pos, end) && next == Join(chars, pos, end)
    ensures Leads(segs + [next], chars, dict, from, end)
    decreases |segs|
  {
    var more := segs + [next];
    if segs == [] {
      assert more[1..] == [] && Leads(more[1..], chars, dict, end, end);
    } else {
      var m: nat :| LongestMatch(chars, dict, from, m) && segs[0] == Join(chars, from, m)
                    && Leads(segs[1..], chars, dict, m, pos);
      CanonicalUpTo(segs[1..], next, chars, dict, m, pos, end);
      assert more[1..] == segs[1..] + [next] && more[0] == segs[0];
    }
  }

  /** `segs` are the longest matches that lead from `from` to `pos`. */
  ghost predicate Leads(segs: seq<Text>, chars: seq<Text>, dict: set<Text>, from: nat, pos: nat)
    decreases |segs|
  {
    if segs == [] then from == pos
    else exists end: nat :: LongestMatch(chars, dict, from, end) && segs[0] == Join(chars, from, end)
                            && Leads(segs[1..], chars, dict, end, pos)
  }

  lemma {:induction false} LeadsToEnd(segs: seq<Text>, chars: seq<Text>, dict: set<Text>, from: nat)
    requires Leads(segs, chars, dict, from, |chars|)
    ensures Canonical(segs, chars, dict, from)
    decreases |segs|
  {
    if segs != [] {
      var m: nat :| LongestMatch(chars, dict, from, m) && segs[0] == Join(chars, from, m)
                    && Leads(segs[1..], chars, dict, m, |chars|);
      LeadsToEnd(segs[1..], chars, dict, m);
    }
  }

  /** No word of the dictionary is longer than `maxLen`. */
  ghost predicate Bounds(maxLen: nat, dict: set<Text>) {
    forall w :: w in dict ==> |w| <= maxLen
  }

  lemma {:induction false} JoinIsLong(chars: seq<Text>, a: nat, b: nat)
    requires a <= b <= |chars| && forall i :: 0 <= i < |chars| ==> chars[i] != []
    ensures |Join(chars, a, b)| >= b - a
    decreases b
  {
    if a < b { JoinIsLong(chars, a, b - 1); }
  }

  lemma TooLongForDict(chars: seq<Text>, dict: set<Text>, maxLen: nat, pos: nat, end: nat)
    requires Bounds(maxLen, dict) && pos + maxLen < end <= |chars|
    requires forall i :: 0 <= i < |chars| ==> chars[i] != []
    ensures Join(chars, pos, end) !in dict
  {
    JoinIsLong(chars, pos, end);
  }

  method MaxLength(words: seq<Text>) returns (maxLen: nat)
    ensures Bounds(maxLen, set w | w in words)
    ensures maxLen == 0 || exists i :: 0 <= i < |words| && |words[i]| == maxLen
  {
    maxLen := 0;
    for i := 0 to |words|
      invariant forall j :: 0 <= j < i ==> |words[j]| <= maxLen
      invariant maxLen == 0 || exists j :: 0 <= j < i && |words[j]| == maxLen
    {
      if |words[i]| > maxLen { maxLen := |words[i]|; }
    }
  }

  /** The inner loop: the length of the longest match at `pos`. */
  method MatchAt(chars: seq<Text>, dict: set<Text>, maxLen: nat, pos: nat) returns (len: nat)
    requires Bounds(maxLen, dict) && pos < |chars| && forall i :: 0 <= i < |chars| ==> chars[i] != []
    ensures LongestMatch(chars, dict, pos, pos + len)
  {
    len := if maxLen < |chars| - pos then maxLen else |chars| - pos;
    forall e | pos + len < e <= |chars| ensures Join(chars, pos, e) !in dict {
      TooLongForDict(chars, dict, maxLen, pos, e);
    }
    while len >= 2
      invariant pos + len <= |chars|
      invariant forall e :: pos + len < e <= |chars| && pos + 1 < e ==> Join(chars, pos, e) !in dict
    {
      if Join(chars, pos, pos + len) in dict { return; }
      len := len - 1;
    }
    len := 1;
  }

  lemma LeadsNowhere(chars: seq<Text>, dict: set<Text>)
    ensures Leads([], chars, dict, 0, 0)
  {
  }

  lemma MatchAdvances(chars: seq<Text>, dict: set<Text>, pos: nat, end: nat)
    requires LongestMatch(chars, dict, pos, end)
    ensures pos < end <= |chars|
  {
  }

  method SegmentCjk(text: Text, dict: set<Text>, maxLen: nat) returns (segments: seq<Text>)
    requires Bounds(maxLen, dict)
    ensures Canonical(segments, Characters(text), dict, 0) && Concat(segments) == text
  {
    hide Join, LongestMatch, Canonical, Concat, Characters;
    var chars := Characters(text);
    segments := [];
    LeadsNowhere(chars, dict);
    hide Leads;
    var pos := 0;
    while pos < |chars|
      invariant pos <= |chars| && Leads(segments, chars, dict, 0, pos)
    {
      var len := MatchAt(chars, dict, maxLen, pos);
      MatchAdvances(chars, dict, pos, pos + len);
      CanonicalUpTo(segments, Join(chars, pos, pos + len), chars, dict, 0, pos, pos + len);
      segments := segments + [Join(chars, pos, pos + len)];
      pos := pos + len;
    }
    LeadsToEnd(segments, chars, dict, 0);
    CanonicalIsLossless(segments, chars, dict, 0);
    CharactersJoin(text);
  }

  // ------------------------------------------------------------------------------------ the whole query

  /** The Chinese characters of a text, in order. */
  function CjkOnly(text: Text): Text {
    if text == [] then []
    else CjkOnly(text[..|text| - 1]) + if IsCjk(text[|text| - 1]) then [text[|text| - 1]] else []
  }

  lemma {:induction false} CjkOnlyConcat(a: Text, b: Text)
    ensures CjkOnly(a + b) == CjkOnly(a) + CjkOnly(b)
  {
    if b == [] {
      assert a + b == a;
    } else {
      CjkOnlyConcat(a, b[..|b| - 1]);
      assert (a + b)[..|a + b| - 1] == a + b[..|b| - 1];
    }
  }

  lemma {:induction false} NoCjk(text: Text)
    requires OneClass(text, false)
    ensures CjkOnly(text) == []
  {
    if text != [] { NoCjk(text[..|text| - 1]); }
  }

  lemma {:induction false} ConcatConcat(a: seq<Text>, b: seq<Text>)
    ensures Concat(a + b) == Concat(a) + Concat(b)
  {
    if b == [] {
      assert a + b == a;
    } else {
      ConcatConcat(a, b[..|b| - 1]);
      assert (a + b)[..|a + b| - 1] == a + b[..|b| - 1];
    }
  }

  /** The pattern occurs somewhere. */
  predicate HasCjk(part: Text) {
    exists i :: 0 <= i < |part| && IsCjk(part[i])
  }

  /** In a run the pattern occurs everywhere or nowhere. */
  lemma AllOrNone(part: Text)
    requires Run(part)
    ensures OneClass(part, HasCjk(part))
  {
    assert IsCjk(part[0]) ==> HasCjk(part);
  }

  /** The tokenizer that was there before never makes up Chinese characters. */
  ghost predicate AddsNoCjk(original: Text -> seq<Text>) {
    forall p, i :: OneClass(p, false) && 0 <= i < |original(p)| ==> OneClass(original(p)[i], false)
  }

  /** The tokens of one part. */
  method TokensOf(part: Text, dict: set<Text>, maxLen: nat, original: Text -> seq<Text>) returns (tokens: seq<Text>)
    requires Run(part) && Bounds(maxLen, dict) && AddsNoCjk(original)
    ensures CjkOnly(Concat(tokens)) == CjkOnly(part)
    ensures HasCjk(part) ==> Canonical(tokens, Characters(part), dict, 0)
  {
    AllOrNone(part);
    if HasCjk(part) {
      tokens := SegmentCjk(part, dict, maxLen);
    } else {
      var nonCjk := original(part);
      tokens := [];
      for j := 0 to |nonCjk|
        invariant CjkOnly(Concat(tokens)) == []
      {
        if nonCjk[j] != [] {
          ConcatAppend(tokens, nonCjk[j]);
          CjkOnlyConcat(Concat(tokens), nonCjk[j]);
          NoCjk(nonCjk[j]);
          tokens := tokens + [nonCjk[j]];
        }
      }
      NoCjk(part);
    }
  }

  /** No Chinese character of the query is lost, repeated or moved. */
  method SplitQuery(query: Text, words: seq<Text>, original: Text -> seq<Text>) returns (result: seq<Text>)
    requires AddsNoCjk(original)
    ensures CjkOnly(Concat(result)) == CjkOnly(query)
  {
    hide Concat, CjkOnly, AddsNoCjk;
    var maxLen := MaxLength(words);
    var dict := set w | w in words;
    var parts := ExtractCjkFromRaw(query);
    result := [];
    assert parts[..0] == [];
    for i := 0 to |parts|
      invariant CjkOnly(Concat(result)) == CjkOnly(Concat(parts[..i]))
    {
      var tokens := TokensOf(parts[i], dict, maxLen, original);
      ConcatConcat(result, tokens);
      CjkOnlyConcat(Concat(result), Concat(tokens));
      assert parts[..i + 1] == parts[..i] + [parts[i]];
      ConcatAppend(parts[..i], parts[i]);
      CjkOnlyConcat(Concat(parts[..i]), parts[i]);
      result := result + tokens;
    }
    assert parts[..|parts|] == parts;
  }
}
