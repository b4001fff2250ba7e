/** What both front ends do to a raw source line before parsing it: cut the comment
    off (the two `strip_comments` loops, compiler/parser.py and compiler/compiler.py,
    compute the same function, specified here) and split the rest into words
    (`tokenize`, a wrapper over Python's `shlex`, modelled in a simplified form). */
module Lexer {
  import opened Results
  import opened Text
  import opened Syntax

  const COMMENT_MARKERS: seq<string> := ["//", "#", ";"]

  /** `any(line.startswith(marker, idx) for marker in COMMENT_MARKERS)`. */
  predicate MarkerAt(line: string, idx: nat) {
    StartsWithAt(line, COMMENT_MARKERS[0], idx) ||
    StartsWithAt(line, COMMENT_MARKERS[1], idx) ||
    StartsWithAt(line, COMMENT_MARKERS[2], idx)
  }

  /** The position where the comment starts, scanning from `idx` with quote state
      `inQuote`: every `"` toggles the state, and a marker counts only outside quotes;
      `|line|` when there is none. */
  function CutFrom(line: string, idx: nat, inQuote: bool): (k: nat)
    requires idx <= |line|
    ensures idx <= k <= |line|
    decreases |line| - idx
  {
    if idx == |line| then |line|
    else if line[idx] == '"' then CutFrom(line, idx + 1, !inQuote)
    else if inQuote then CutFrom(line, idx + 1, inQuote)
    else if MarkerAt(line, idx) then idx
    else CutFrom(line, idx + 1, inQuote)
  }

  function CommentCut(line: string): nat {
    CutFrom(line, 0, false)
  }

  /** `strip_comments(line)`: the line up to its first comment marker outside
      double quotes, without trailing whitespace. */
  function StripComments(line: string): string {
    RStrip(line[..CommentCut(line)])
  }

  /** The number of `"` characters in `s`. */
  function QuoteCount(s: string): nat {
    if |s| == 0 then 0 else QuoteCount(s[..|s| - 1]) + (if s[|s| - 1] == '"' then 1 else 0)
  }

  /** Position `i` of `line` lies inside a double-quoted span: an odd number of `"`
      precede it. */
  predicate InQuotes(line: string, i: nat)
    requires i <= |line|
  {
    QuoteCount(line[..i]) % 2 == 1
  }

  /** A comment starts at `i`: a marker there, outside quotes. */
  predicate CommentAt(line: string, i: nat)
    requires i <= |line|
  {
    !InQuotes(line, i) && MarkerAt(line, i)
  }

  lemma {:induction false} CutFromCharacterized(line: string, idx: nat, inQuote: bool)
    requires idx <= |line| && inQuote == InQuotes(line, idx)
    ensures var k := CutFrom(line, idx, inQuote);
      (k == |line| || CommentAt(line, k)) &&
      forall i :: idx <= i < k ==> !CommentAt(line, i)
    decreases |line| - idx
  {
    if idx < |line| {
      assert line[..idx + 1][..idx] == line[..idx];
      var next := InQuotes(line, idx + 1);
      assert next == if line[idx] == '"' then !inQuote else inQuote;
      if line[idx] == '"' || inQuote || !MarkerAt(line, idx) {
        CutFromCharacterized(line, idx + 1, next);
      }
    }
  }

  /** The comment is cut at the first marker that lies outside double quotes, and
      only there: no marker outside quotes precedes the cut, and the cut is either
      such a marker or the end of the line. */
  lemma CommentCutCharacterized(line: string)
    ensures var k := CommentCut(line);
      (k == |line| || CommentAt(line, k)) &&
      forall i :: 0 <= i < k ==> !CommentAt(line, i)
  {
    CutFromCharacterized(line, 0, false);
  }

  /** A line with no `/`, `#` or `;` has no comment to strip. */
  lemma {:induction false} CutFromPlain(line: string, idx: nat, inQuote: bool)
    requires idx <= |line| && forall i :: idx <= i < |line| ==> line[i] != '/' && line[i] != '#' && line[i] != ';'
    ensures CutFrom(line, idx, inQuote) == |line|
    decreases |line| - idx
  {
    if idx < |line| {
      CutFromPlain(line, idx + 1, if line[idx] == '"' then !inQuote else inQuote);
    }
  }

  /** `strip_comments` returns a prefix of its input, without trailing whitespace;
      on a line with no comment outside quotes it is `line.rstrip()`. */
  lemma StripCommentsPrefix(line: string)
    ensures StripComments(line) <= line
    ensures var r := StripComments(line); |r| == 0 || !IsSpace(r[|r| - 1])
    ensures (forall i :: 0 <= i <= |line| ==> !CommentAt(line, i)) ==> StripComments(line) == RStrip(line)
  {
    var cut := line[..CommentCut(line)];
    assert StripComments(line) == RStrip(cut) && RStrip(cut) <= cut && cut <= line;
    if forall i :: 0 <= i <= |line| ==> !CommentAt(line, i) {
      CommentCutCharacterized(line);
      assert cut == line;
    }
  }

  lemma {:induction false} CutOfPrefix(line: string, r: string, idx: nat, inQuote: bool)
    requires r <= line && idx <= |r| <= CutFrom(line, idx, inQuote)
    ensures CutFrom(r, idx, inQuote) == |r|
    decreases |r| - idx
  {
    if idx < |r| {
      assert r[idx] == line[idx];
      if MarkerAt(r, idx) {
        assert line[..|r|] == r;
        assert forall m :: 0 <= m < 3 && StartsWithAt(r, COMMENT_MARKERS[m], idx) ==>
          line[idx..idx + |COMMENT_MARKERS[m]|] == r[idx..idx + |COMMENT_MARKERS[m]|];
      }
      CutOfPrefix(line, r, idx + 1, if r[idx] == '"' then !inQuote else inQuote);
    }
  }

  /** Stripping comments twice is the same as stripping them once. */
  lemma StripCommentsIdempotent(line: string)
    ensures StripComments(StripComments(line)) == StripComments(line)
  {
    var r := StripComments(line);
    CutOfPrefix(line, r, 0, false);
    assert r[..CommentCut(r)] == r;
  }

  // ----- tokenize: shlex.shlex(line, posix=True) with whitespace_split -----

  /** The characters shlex splits on. */
  predicate IsShlexSpace(c: char) {
    c == ' ' || c == '\t' || c == '\r' || c == '\n'
  }

  /** The scan shlex performs: `acc` holds the finished words, `cur` the word being
      read (`inWord` once any character or quote of it was seen), `inQuote` whether a
      `"` is open; quotes are dropped and group their content into the word. */
  function Scan(rest: string, acc: seq<string>, cur: string, inWord: bool, inQuote: bool): Result<seq<string>, ParseError>
    decreases |rest|
  {
    if |rest| == 0 then
      if inQuote then Err(UnclosedQuote) else Ok(if inWord then acc + [cur] else acc)
    else
      var c := rest[0];
      if inQuote then
        if c == '"' then Scan(rest[1..], acc, cur, true, false)
        else Scan(rest[1..], acc, cur + [c], true, true)
      else if c == '"' then Scan(rest[1..], acc, cur, true, true)
      else if IsShlexSpace(c) then
        if inWord then Scan(rest[1..], acc + [cur], "", false, false)
        else Scan(rest[1..], acc, cur, false, false)
      else Scan(rest[1..], acc, cur + [c], true, false)
  }

  /** `tokenize(line)`: the words of the line, or the error for an unclosed quote. */
  function Tokenize(line: string): Result<seq<string>, ParseError> {
    Scan(line, [], "", false, false)
  }

  /** A word that tokenizes to itself: non-empty, no separator and no quote. */
  predicate PlainWord(w: string) {
    |w| > 0 && forall i :: 0 <= i < |w| ==> !IsShlexSpace(w[i]) && w[i] != '"'
  }

  /** `" ".join(words)`. */
  function JoinSpaces(words: seq<string>): string {
    if |words| == 0 then "" else if |words| == 1 then words[0] else words[0] + " " + JoinSpaces(words[1..])
  }

  lemma {:induction false} ScanWord(w: string, rest: string, acc: seq<string>, cur: string, inWord: bool)
    requires forall i :: 0 <= i < |w| ==> !IsShlexSpace(w[i]) && w[i] != '"'
    requires |w| > 0 || inWord
    ensures Scan(w + rest, acc, cur, inWord, false) == Scan(rest, acc, cur + w, true, false)
    decreases |w|
  {
    if |w| > 0 {
      assert (w + rest)[0] == w[0] && (w + rest)[1..] == w[1..] + rest;
      ScanWord(w[1..], rest, acc, cur + [w[0]], true);
      assert cur + [w[0]] + w[1..] == cur + w;
    } else {
      assert w + rest == rest && cur + w == cur;
    }
  }

  lemma {:induction false} ScanJoined(words: seq<string>, acc: seq<string>)
    requires |words| > 0 && forall k :: 0 <= k < |words| ==> PlainWord(words[k])
    ensures Scan(JoinSpaces(words), acc, "", false, false) == Ok(acc + words)
    decreases |words|
  {
    if |words| == 1 {
      ScanWord(words[0], "", acc, "", false);
      assert words[0] + "" == words[0] && "" + words[0] == words[0];
      assert words == [words[0]];
    } else {
      var tail := JoinSpaces(words[1..]);
      assert JoinSpaces(words) == words[0] + (" " + tail);
      ScanWord(words[0], " " + tail, acc, "", false);
      assert "" + words[0] == words[0];
      assert (" " + tail)[0] == ' ' && (" " + tail)[1..] == tail;
      assert Scan(" " + tail, acc, words[0], true, false) == Scan(tail, acc + [words[0]], "", false, false);
      ScanJoined(words[1..], acc + [words[0]]);
      assert acc + [words[0]] + words[1..] == acc + words;
    }
  }

  /** Joining plain words with spaces and tokenizing the result gives the words back. */
  lemma TokenizeJoin(words: seq<string>)
    requires forall k :: 0 <= k < |words| ==> PlainWord(words[k])
    ensures Tokenize(JoinSpaces(words)) == Ok(words)
  {
    if |words| > 0 {
      assert [] + words == words;
      ScanJoined(words, []);
    }
  }

  // ----- no line break survives from a physical line into a token -----

  /** The cleaned text of a line without `\n` has no `\n` either. */
  lemma CleanedHasNoNewline(raw: string)
    requires '\n' !in raw
    ensures '\n' !in Strip(StripComments(raw))
  {
    var cut := raw[..CommentCut(raw)];
    NoNewlineInSlice(raw, 0, |cut|);
    var r := RStrip(cut);
    assert r == cut[..|r|];
    NoNewlineInSlice(cut, 0, |r|);
    var r2 := RStrip(r);
    assert r2 == r[..|r2|];
    NoNewlineInSlice(r, 0, |r2|);
    var t := LStrip(r2);
    NoNewlineInSlice(r2, |r2| - |t|, |r2|);
  }

  /** A slice of a text without `\n` has none either. */
  lemma NoNewlineInSlice(s: string, a: nat, b: nat)
    requires '\n' !in s && a <= b <= |s|
    ensures '\n' !in s[a..b]
  {
    forall i | 0 <= i < b - a ensures s[a..b][i] != '\n' {
      assert s[a..b][i] == s[a + i];
    }
  }

  lemma {:induction false} ScanHasNoNewline(rest: string, acc: seq<string>, cur: string, inWord: bool, inQuote: bool)
    requires '\n' !in rest && '\n' !in cur && forall w :: w in acc ==> '\n' !in w
    ensures var r := Scan(rest, acc, cur, inWord, inQuote);
      r.Ok? ==> forall w :: w in r.value ==> '\n' !in w
    decreases |rest|
  {
    if |rest| > 0 {
      var c := rest[0];
      assert c in rest && forall x :: x in rest[1..] ==> x in rest;
      forall w | w in acc + [cur] ensures '\n' !in w {
      }
      if c != '"' && !(!inQuote && IsShlexSpace(c)) {
        assert '\n' !in cur + [c];
      }
      if inQuote {
        if c == '"' {
          ScanHasNoNewline(rest[1..], acc, cur, true, false);
        } else {
          ScanHasNoNewline(rest[1..], acc, cur + [c], true, true);
        }
      } else if c == '"' {
        ScanHasNoNewline(rest[1..], acc, cur, true, true);
      } else if IsShlexSpace(c) {
        if inWord {
          ScanHasNoNewline(rest[1..], acc + [cur], "", false, false);
        } else {
          ScanHasNoNewline(rest[1..], acc, cur, false, false);
        }
      } else {
        ScanHasNoNewline(rest[1..], acc, cur + [c], true, false);
      }
    } else {
      forall w | w in acc + [cur] ensures '\n' !in w {
      }
    }
  }

  /** The words of a line without `\n` contain no `\n`. */
  lemma TokensHaveNoNewline(line: string)
    requires '\n' !in line
    ensures Tokenize(line).Ok? ==> forall w :: w in Tokenize(line).value ==> '\n' !in w
  {
    ScanHasNoNewline(line, [], "", false, false);
  }
}
