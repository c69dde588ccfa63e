/** `wrap_title` of scripts/render_live_ai_brand_media_factory.py: the greedy wrap of a title,
    cut after three lines. */
module TitleWrap {

  // ------------------------------------------------------------------- words

  /** Python's `str.isspace` for one character. */
  predicate IsSpace(c: char) {
    || '\t' <= c <= '\r' || '\U{1c}' <= c <= ' ' || c == '\U{85}' || c == '\U{a0}' || c == '\U{1680}'
    || '\U{2000}' <= c <= '\U{200a}' || c == '\U{2028}' || c == '\U{2029}' || c == '\U{202f}' || c == '\U{205f}'
    || c == '\U{3000}'
  }

  predicate IsWord(w: string) {
    w != "" && forall i :: 0 <= i < |w| ==> !IsSpace(w[i])
  }

  predicate AreWords(words: seq<string>) {
    forall i :: 0 <= i < |words| ==> IsWord(words[i])
  }

  function LeadingWord(s: string): (n: nat)
    ensures n <= |s| && forall i :: 0 <= i < n ==> !IsSpace(s[i])
    ensures n < |s| ==> IsSpace(s[n])
  {
    if s == "" || IsSpace(s[0]) then 0 else 1 + LeadingWord(s[1..])
  }

  /** `str.split()`. */
  function Split(s: string): (words: seq<string>)
    ensures AreWords(words)
  {
    if s == "" then []
    else if IsSpace(s[0]) then Split(s[1..])
    else
      var n := LeadingWord(s);
      [s[..n]] + Split(s[n..])
  }

  function StripLeft(s: string): string {
    if s == "" || !IsSpace(s[0]) then s else StripLeft(s[1..])
  }

  function StripRight(s: string): string {
    if s == "" || !IsSpace(s[|s| - 1]) then s else StripRight(s[..|s| - 1])
  }

  /** `str.strip()`. */
  function Strip(s: string): string {
    StripRight(StripLeft(s))
  }

  /** `" ".join(words)`. */
  function Join(words: seq<string>): string {
    if words == [] then ""
    else if |words| == 1 then words[0]
    else words[0] + " " + Join(words[1..])
  }

  /** The text of the lines, `"\n"` between them. */
  function Text(lines: seq<seq<string>>): string {
    if lines == [] then ""
    else if |lines| == 1 then Join(lines[0])
    else Join(lines[0]) + "\n" + Text(lines[1..])
  }

  function JoinLines(lines: seq<string>): string {
    if lines == [] then ""
    else if |lines| == 1 then lines[0]
    else lines[0] + "\n" + JoinLines(lines[1..])
  }

  // ------------------------------------------------------------------- breakings

  function Flatten(lines: seq<seq<string>>): seq<string> {
    if lines == [] then [] else lines[0] + Flatten(lines[1..])
  }

  /** Consecutive non-empty lines that hold exactly `words`, in order. */
  predicate Breaks(lines: seq<seq<string>>, words: seq<string>) {
    Flatten(lines) == words && forall i :: 0 <= i < |lines| ==> lines[i] != []
  }

  predicate LineFits(line: seq<string>, limit: int) {
    |line| == 1 || |Join(line)| <= limit
  }

  /** Only single-word lines exceed the limit. */
  predicate Legal(lines: seq<seq<string>>, limit: int) {
    forall i :: 0 <= i < |lines| ==> LineFits(lines[i], limit)
  }

  /** No line has room for the first word of the next. */
  predicate Maximal(lines: seq<seq<string>>, limit: int) {
    forall i :: 0 <= i < |lines| - 1 && lines[i + 1] != [] ==> |Join(lines[i] + [lines[i + 1][0]])| > limit
  }

  /** How many words the greedy first line takes once it holds the first `k`. */
  function Take(words: seq<string>, k: nat, limit: int): (n: nat)
    requires 1 <= k <= |words|
    ensures k <= n <= |words|
    decreases |words| - k
  {
    if k == |words| || |Join(words[..k + 1])| > limit then k else Take(words, k + 1, limit)
  }

  /** The greedy breaking: each line takes as many words as fit, and at least one. */
  function Wrap(words: seq<string>, limit: int): seq<seq<string>>
    decreases |words|
  {
    if words == [] then []
    else
      var n := Take(words, 1, limit);
      [words[..n]] + Wrap(words[n..], limit)
  }

  // ------------------------------------------------------------------- lengths

  lemma {:induction false} JoinAppend(a: seq<string>, b: seq<string>)
    requires a != [] && b != []
    ensures Join(a + b) == Join(a) + " " + Join(b)
  {
    if |a| == 1 {
      assert (a + b)[1..] == b;
    } else {
      assert (a + b)[1..] == a[1..] + b;
      JoinAppend(a[1..], b);
    }
  }

  lemma LongerPrefix(words: seq<string>, j: nat, k: nat)
    requires 1 <= j <= k <= |words|
    ensures |Join(words[..j])| <= |Join(words[..k])|
  {
    if j < k {
      assert words[..k] == words[..j] + words[j..k];
      JoinAppend(words[..j], words[j..k]);
    }
  }

  lemma LongerSuffix(words: seq<string>, j: nat)
    requires j < |words|
    ensures |Join(words[j..])| <= |Join(words)|
  {
    if j > 0 {
      assert words == words[..j] + words[j..];
      JoinAppend(words[..j], words[j..]);
    }
  }

  // ------------------------------------------------------------------- greedy is legal and maximal

  lemma {:induction false} TakeExactly(words: seq<string>, k: nat, limit: int)
    requires 1 <= k <= |words| && LineFits(words[..k], limit)
    ensures
      var n := Take(words, k, limit);
      LineFits(words[..n], limit) && (n < |words| ==> |Join(words[..n + 1])| > limit)
    decreases |words| - k
  {
    if k < |words| && |Join(words[..k + 1])| <= limit {
      TakeExactly(words, k + 1, limit);
    }
  }

  lemma PrependLine(n: nat, rest: seq<seq<string>>, words: seq<string>, limit: int)
    requires 1 <= n <= |words| && Breaks(rest, words[n..]) && Legal(rest, limit) && Maximal(rest, limit)
    requires LineFits(words[..n], limit) && (n < |words| ==> |Join(words[..n + 1])| > limit)
    ensures
      var lines := [words[..n]] + rest;
      Breaks(lines, words) && Legal(lines, limit) && Maximal(lines, limit)
  {
    var lines := [words[..n]] + rest;
    assert words == words[..n] + words[n..] && lines[1..] == rest;
    if rest != [] {
      FirstWord(rest, words[n..]);
      assert words[..n] + [words[n]] == words[..n + 1];
    }
    hide Join, LineFits;
  }

  lemma {:induction false} WrapIsLegalAndMaximal(words: seq<string>, limit: int)
    ensures Breaks(Wrap(words, limit), words) && Legal(Wrap(words, limit), limit) && Maximal(Wrap(words, limit), limit)
    decreases |words|
  {
    if words != [] {
      var n := Take(words, 1, limit);
      TakeExactly(words, 1, limit);
      WrapIsLegalAndMaximal(words[n..], limit);
      PrependLine(n, Wrap(words[n..], limit), words, limit);
      hide Breaks, Legal, Maximal;
    }
  }

  lemma FirstWord(lines: seq<seq<string>>, words: seq<string>)
    requires Breaks(lines, words) && lines != []
    ensures words != [] && lines[0][0] == words[0] && lines[0] == words[..|lines[0]|]
    ensures Breaks(lines[1..], words[|lines[0]|..])
  {
    var first := lines[0];
    assert words == first + Flatten(lines[1..]);
    assert words[|first|..] == Flatten(lines[1..]);
  }

  lemma RestOfLines(lines: seq<seq<string>>, limit: int)
    requires lines != []
    ensures Legal(lines, limit) ==> Legal(lines[1..], limit)
    ensures Maximal(lines, limit) ==> Maximal(lines[1..], limit)
  {
    hide Join, LineFits;
    assert forall i :: 0 <= i < |lines[1..]| ==> lines[1..][i] == lines[i + 1];
  }

  /** The first line of such a breaking takes exactly the words the greedy one takes. */
  lemma FirstLineIsGreedy(lines: seq<seq<string>>, words: seq<string>, limit: int)
    requires Breaks(lines, words) && Legal(lines, limit) && Maximal(lines, limit) && lines != []
    ensures words != [] && |lines[0]| == Take(words, 1, limit)
  {
    FirstWord(lines, words);
    var n, k := |lines[0]|, Take(words, 1, limit);
    TakeExactly(words, 1, limit);
    hide Take;
    assert |lines| == 1 ==> n == |words| by {
      assert |lines| == 1 ==> Flatten(lines[1..]) == [];
    }
    if n < k {
      FirstWord(lines[1..], words[n..]);
      assert lines[0] + [lines[1][0]] == words[..n + 1];
      LongerPrefix(words, n + 1, k);
    }
    if k < n {
      LongerPrefix(words, k + 1, n);
    }
  }

  /** A legal breaking in which no line has room for the next word is the greedy one. */
  lemma {:induction false} MaximalIsWrap(lines: seq<seq<string>>, words: seq<string>, limit: int)
    requires Breaks(lines, words) && Legal(lines, limit) && Maximal(lines, limit)
    ensures lines == Wrap(words, limit)
    decreases |lines|
  {
    if lines != [] {
      hide Breaks, Legal, Maximal, Take, Join, LineFits;
      FirstLineIsGreedy(lines, words, limit);
      FirstWord(lines, words);
      RestOfLines(lines, limit);
      MaximalIsWrap(lines[1..], words[|lines[0]|..], limit);
      assert lines == [lines[0]] + lines[1..];
    }
  }

  // ------------------------------------------------------------------- greedy is optimal

  /** The breaking without its first `j` words. */
  function Drop(lines: seq<seq<string>>, j: nat): seq<seq<string>> {
    if j == 0 || lines == [] then lines
    else if |lines[0]| <= j then Drop(lines[1..], j - |lines[0]|)
    else [lines[0][j..]] + lines[1..]
  }

  lemma {:induction false} DropStaysLegal(lines: seq<seq<string>>, words: seq<string>, limit: int, j: nat)
    requires Breaks(lines, words) && Legal(lines, limit) && j <= |words|
    ensures Breaks(Drop(lines, j), words[j..]) && Legal(Drop(lines, j), limit) && |Drop(lines, j)| <= |lines|
  {
    if j > 0 && lines != [] {
      FirstWord(lines, words);
      var n := |lines[0]|;
      assert forall i :: 0 <= i < |lines[1..]| ==> lines[1..][i] == lines[i + 1];
      if n <= j {
        DropStaysLegal(lines[1..], words[n..], limit, j - n);
        assert words[n..][j - n..] == words[j..];
      } else {
        ShorterFirstLine(lines, words, limit, j);
      }
    }
  }

  lemma ShorterFirstLine(lines: seq<seq<string>>, words: seq<string>, limit: int, j: nat)
    requires lines != [] && Breaks(lines, words) && Legal(lines, limit) && 0 < j < |lines[0]|
    ensures
      var shorter := [lines[0][j..]] + lines[1..];
      j <= |words| && Breaks(shorter, words[j..]) && Legal(shorter, limit)
  {
    LongerSuffix(lines[0], j);
    assert |lines[0]| > 1 && |Join(lines[0][j..])| <= limit;
    hide Join;
    var shorter := [lines[0][j..]] + lines[1..];
    assert shorter[1..] == lines[1..];
    assert words == lines[0] + Flatten(lines[1..]);
    assert words[j..] == lines[0][j..] + Flatten(lines[1..]);
  }

  lemma FirstLineIsNoLonger(lines: seq<seq<string>>, words: seq<string>, limit: int)
    requires Breaks(lines, words) && Legal(lines, limit) && words != []
    ensures lines != [] && |lines[0]| <= Take(words, 1, limit)
  {
    if lines != [] {
      FirstWord(lines, words);
      TakeExactly(words, 1, limit);
      if Take(words, 1, limit) < |lines[0]| {
        LongerPrefix(words, Take(words, 1, limit) + 1, |lines[0]|);
      }
    }
  }

  /** No legal breaking has fewer lines than the greedy one. */
  lemma {:induction false} GreedyUsesFewestLines(lines: seq<seq<string>>, words: seq<string>, limit: int)
    requires Breaks(lines, words) && Legal(lines, limit)
    ensures |Wrap(words, limit)| <= |lines|
    decreases |words|
  {
    if words != [] {
      hide Breaks, Legal, Take, Join, LineFits;
      FirstLineIsNoLonger(lines, words, limit);
      FirstWord(lines, words);
      RestOfLines(lines, limit);
      var m, n := |lines[0]|, Take(words, 1, limit);
      assert n - m <= |words[m..]| && words[m..][n - m..] == words[n..];
      DropStaysLegal(lines[1..], words[m..], limit, n - m);
      GreedyUsesFewestLines(Drop(lines[1..], n - m), words[n..], limit);
    }
  }

  // ------------------------------------------------------------------- reading the text back

  lemma {:induction false} LeadingWordOf(w: string, rest: string)
    requires (forall i :: 0 <= i < |w| ==> !IsSpace(w[i])) && (rest == "" || IsSpace(rest[0]))
    ensures LeadingWord(w + rest) == |w|
  {
    if w != "" {
      assert (w + rest)[1..] == w[1..] + rest;
      LeadingWordOf(w[1..], rest);
    } else {
      assert w + rest == rest;
    }
  }

  lemma SplitWord(w: string, rest: string)
    requires IsWord(w) && (rest == "" || IsSpace(rest[0]))
    ensures Split(w + rest) == [w] + Split(rest)
  {
    LeadingWordOf(w, rest);
    assert (w + rest)[..|w|] == w && (w + rest)[|w|..] == rest;
  }

  lemma SplitSpace(c: char, rest: string)
    requires IsSpace(c)
    ensures Split([c] + rest) == Split(rest)
  {
    assert ([c] + rest)[1..] == rest;
  }

  lemma {:induction false} SplitJoin(words: seq<string>, rest: string)
    requires AreWords(words) && words != [] && (rest == "" || IsSpace(rest[0]))
    ensures Split(Join(words) + rest) == words + Split(rest)
  {
    hide IsWord, Split;
    if |words| == 1 {
      SplitWord(words[0], rest);
    } else {
      assert IsSpace(' ');
      hide IsSpace;
      var tail := Join(words[1..]) + rest;
      assert Join(words) + rest == words[0] + ([' '] + tail);
      hide Join;
      SplitWord(words[0], [' '] + tail);
      SplitSpace(' ', tail);
      SplitJoin(words[1..], rest);
      assert words == [words[0]] + words[1..];
    }
  }

  lemma {:induction false} SplitText(lines: seq<seq<string>>)
    requires forall i :: 0 <= i < |lines| ==> lines[i] != [] && AreWords(lines[i])
    ensures Split(Text(lines)) == Flatten(lines)
  {
    if |lines| == 1 {
      SplitJoin(lines[0], "");
      assert Join(lines[0]) + "" == Join(lines[0]);
    } else if |lines| > 1 {
      var tail := Text(lines[1..]);
      assert Text(lines) == Join(lines[0]) + (['\n'] + tail);
      SplitJoin(lines[0], ['\n'] + tail);
      SplitSpace('\n', tail);
      SplitText(lines[1..]);
    }
  }

  lemma {:induction false} LinesHoldWords(lines: seq<seq<string>>, words: seq<string>, i: nat)
    requires Breaks(lines, words) && AreWords(words) && i < |lines|
    ensures AreWords(lines[i])
  {
    FirstWord(lines, words);
    if i > 0 {
      assert lines[1..][i - 1] == lines[i];
      LinesHoldWords(lines[1..], words[|lines[0]|..], i - 1);
    }
  }

  lemma {:induction false} FlattenSplits(lines: seq<seq<string>>, n: nat)
    requires n <= |lines|
    ensures Flatten(lines) == Flatten(lines[..n]) + Flatten(lines[n..])
  {
    if n > 0 {
      assert lines[..n][1..] == lines[1..][..n - 1] && lines[1..][n - 1..] == lines[n..];
      FlattenSplits(lines[1..], n - 1);
    }
  }

  // ------------------------------------------------------------------- the title

  /** What `wrap_title` returns: the first three greedy lines. */
  function Kept(title: string, limit: int): seq<seq<string>> {
    var lines := Wrap(Split(title), limit);
    if |lines| <= 3 then lines else lines[..3]
  }

  /** The words of the wrapped title are the first words of the title, in order. */
  lemma KeepsWordsInOrder(title: string, limit: int)
    ensures Split(Text(Kept(title, limit))) == Flatten(Kept(title, limit)) <= Split(title)
    ensures Legal(Kept(title, limit), limit) && |Kept(title, limit)| <= 3
  {
    var words, lines, kept := Split(title), Wrap(Split(title), limit), Kept(title, limit);
    WrapIsLegalAndMaximal(words, limit);
    FlattenSplits(lines, |kept|);
    assert lines[..|kept|] == kept;
    forall i | 0 <= i < |kept|
      ensures kept[i] != [] && AreWords(kept[i])
    {
      LinesHoldWords(lines, words, i);
    }
    SplitText(kept);
  }

  lemma {:induction false} LinesAreNotEmpty(lines: seq<seq<string>>, words: seq<string>)
    requires Breaks(lines, words) && words == []
    ensures lines == []
  {
    if lines != [] {
      FirstWord(lines, words);
    }
  }

  ghost predicate HasThreeLineBreaking(words: seq<string>, limit: int) {
    exists lines :: Breaks(lines, words) && Legal(lines, limit) && |lines| <= 3
  }

  /** The three-line cut keeps the whole title exactly when some legal breaking has at most
      three lines. */
  lemma CutLosesOnlyWhenItMust(title: string, limit: int)
    ensures Split(Text(Kept(title, limit))) == Split(title) <==> HasThreeLineBreaking(Split(title), limit)
  {
    var words, lines, kept := Split(title), Wrap(Split(title), limit), Kept(title, limit);
    KeepsWordsInOrder(title, limit);
    WrapIsLegalAndMaximal(words, limit);
    if HasThreeLineBreaking(words, limit) {
      var other :| Breaks(other, words) && Legal(other, limit) && |other| <= 3;
      GreedyUsesFewestLines(other, words, limit);
    }
    if |lines| > 3 {
      FlattenSplits(lines, 3);
      assert lines[3..][0] == lines[3];
      assert Flatten(lines[3..]) != [];
    }
  }

  // ------------------------------------------------------------------- the loop

  lemma {:induction false} JoinEnds(words: seq<string>)
    requires AreWords(words) && words != []
    ensures Join(words) != "" && !IsSpace(Join(words)[0]) && !IsSpace(Join(words)[|Join(words)| - 1])
  {
    if |words| > 1 {
      JoinEnds(words[1..]);
    }
  }

  /** `f"{current} {word}".strip()` for a current line of the loop. */
  lemma ProposedLine(line: seq<string>, word: string)
    requires AreWords(line) && IsWord(word)
    ensures Strip(Join(line) + " " + word) == Join(line + [word])
    ensures Join(line) == "" <==> line == []
  {
    JoinEnds(line + [word]);
    if line == [] {
      var s := "" + " " + word;
      assert s[1..] == word && StripLeft(s) == StripLeft(word) == word;
    } else {
      JoinEnds(line);
      JoinAppend(line, [word]);
    }
  }

  lemma {:induction false} FlattenOneMore(lines: seq<seq<string>>, line: seq<string>)
    ensures Flatten(lines + [line]) == Flatten(lines) + line
  {
    if lines != [] {
      assert (lines + [line])[1..] == lines[1..] + [line];
      FlattenOneMore(lines[1..], line);
    } else {
      assert (lines + [line])[1..] == [];
    }
  }

  lemma {:induction false} JoinLinesIsText(lines: seq<string>, groups: seq<seq<string>>)
    requires |lines| == |groups| && forall i :: 0 <= i < |lines| ==> lines[i] == Join(groups[i])
    ensures JoinLines(lines) == Text(groups)
  {
    if |lines| > 1 {
      JoinLinesIsText(lines[1..], groups[1..]);
    }
  }

  /** The state of the loop: closed lines, legal and maximal, then the line being filled. */
  ghost predicate Wrapping(groups: seq<seq<string>>, line: seq<string>, words: seq<string>, limit: int) {
    && |line| <= |words| && line == words[|words| - |line|..] && Breaks(groups, words[..|words| - |line|])
    && Legal(groups, limit) && Maximal(groups + [line], limit)
    && (line != [] ==> LineFits(line, limit))
    && (line == [] ==> words == [])
  }

  ghost predicate Rendered(lines: seq<string>, groups: seq<seq<string>>) {
    |lines| == |groups| && forall k :: 0 <= k < |lines| ==> lines[k] == Join(groups[k])
  }

  lemma RenderedOneMore(lines: seq<string>, groups: seq<seq<string>>, line: seq<string>)
    requires Rendered(lines, groups)
    ensures Rendered(lines + [Join(line)], groups + [line])
  {
  }

  /** The loop's variables once it has read `words`. */
  ghost predicate Reading(
      lines: seq<string>, current: string, groups: seq<seq<string>>, line: seq<string>, words: seq<string>, limit: int)
  {
    Wrapping(groups, line, words, limit) && Rendered(lines, groups) && AreWords(line) && current == Join(line)
  }

  lemma NothingRead(limit: int)
    ensures Reading([], "", [], [], [], limit)
  {
  }

  /** One more word: it closes the line exactly when the line is not empty and has no room. */
  lemma ReadsOn(
      lines: seq<string>, current: string, groups: seq<seq<string>>, line: seq<string>, words: seq<string>,
      word: string,
      limit: int)
    requires Reading(lines, current, groups, line, words, limit) && IsWord(word)
    ensures
      var proposed := Strip(current + " " + word);
      if current != "" && |proposed| > limit then
        Reading(lines + [current], word, groups + [line], [word], words + [word], limit)
      else Reading(lines, proposed, groups, line + [word], words + [word], limit)
  {
    hide Wrapping, Rendered, Strip, IsWord;
    ProposedLine(line, word);
    if current != "" && |Strip(current + " " + word)| > limit {
      CloseLine(groups, line, words, word, limit);
      RenderedOneMore(lines, groups, line);
    } else {
      ExtendLine(groups, line, words, word, limit);
    }
  }

  lemma OneMoreWord(words: seq<string>, i: nat)
    requires AreWords(words) && i < |words|
    ensures words[..i] + [words[i]] == words[..i + 1] && IsWord(words[i])
  {
  }

  method WrapTitle(title: string, maxCharacters: int) returns (wrapped: string)
    ensures wrapped == Text(Kept(title, maxCharacters))
  {
    hide *;
    var words := Split(title);
    var lines: seq<string>, current := [], "";
    ghost var groups: seq<seq<string>>, line: seq<string> := [], [];
    NothingRead(maxCharacters);
    var i := 0;
    while i < |words|
      invariant 0 <= i <= |words|
      invariant Reading(lines, current, groups, line, words[..i], maxCharacters)
    {
      OneMoreWord(words, i);
      ReadsOn(lines, current, groups, line, words[..i], words[i], maxCharacters);
      var proposed := Strip(current + " " + words[i]);
      if current != "" && |proposed| > maxCharacters {
        lines, groups := lines + [current], groups + [line];
        current, line := words[i], [words[i]];
      } else {
        current, line := proposed, line + [words[i]];
      }
      i := i + 1;
    }
    assert words[..i] == words;
    Ending(title, maxCharacters, lines, current, groups, line);
    if current != "" {
      lines := lines + [current];
    }
    wrapped := JoinLines(if |lines| <= 3 then lines else lines[..3]);
  }

  /** The last line, if any, completes the greedy breaking, and three lines of it are shown. */
  lemma Ending(
      title: string, limit: int, lines: seq<string>, current: string, groups: seq<seq<string>>, line: seq<string>)
    requires Reading(lines, current, groups, line, Split(title), limit)
    ensures
      var all := if current == "" then lines else lines + [current];
      JoinLines(if |all| <= 3 then all else all[..3]) == Text(Kept(title, limit))
  {
    JoinEmptyExactly(line);
    hide Wrapping, Split, Wrap, Text, Kept, JoinLines, Rendered, Breaks, Legal, Maximal, Join, AreWords;
    var all := if line == [] then lines else lines + [Join(line)];
    var whole := if line == [] then groups else groups + [line];
    LastLine(groups, line, Split(title), limit);
    RenderedOneMore(lines, groups, line);
    if line == [] {
      NothingToWrap(limit);
    }
    MaximalIsWrap(whole, Split(title), limit);
    ShownLines(title, limit, all, whole, if |all| <= 3 then all else all[..3]);
  }

  lemma NothingToWrap(limit: int)
    ensures Breaks([], []) && Legal([], limit) && Maximal([], limit)
  {
  }

  lemma JoinEmptyExactly(line: seq<string>)
    requires AreWords(line)
    ensures Join(line) == "" <==> line == []
  {
    if line != [] {
      JoinEnds(line);
    }
  }

  lemma ShownLines(title: string, limit: int, lines: seq<string>, groups: seq<seq<string>>, shown: seq<string>)
    requires groups == Wrap(Split(title), limit) && Rendered(lines, groups)
    requires shown == if |lines| <= 3 then lines else lines[..3]
    ensures JoinLines(shown) == Text(Kept(title, limit))
  {
    JoinLinesIsText(shown, Kept(title, limit));
  }

  lemma CloseLine(groups: seq<seq<string>>, line: seq<string>, words: seq<string>, word: string, limit: int)
    requires Wrapping(groups, line, words, limit) && line != [] && |Join(line + [word])| > limit
    ensures Wrapping(groups + [line], [word], words + [word], limit)
  {
    FlattenOneMore(groups, line);
    var next := words + [word];
    assert next[..|next| - 1] == words == words[..|words| - |line|] + line;
    var before, after := groups + [line], groups + [line] + [[word]];
    assert forall k :: 0 <= k < |before| ==> after[k] == before[k];
  }

  lemma ExtendLine(groups: seq<seq<string>>, line: seq<string>, words: seq<string>, word: string, limit: int)
    requires Wrapping(groups, line, words, limit)
    requires line == [] || |Join(line + [word])| <= limit
    ensures Wrapping(groups, line + [word], words + [word], limit)
  {
    var next, longer := words + [word], line + [word];
    assert next[..|next| - |longer|] == words[..|words| - |line|];
    if line == [] {
      LinesAreNotEmpty(groups, words[..|words| - |line|]);
    } else {
      var before, after := groups + [line], groups + [longer];
      assert forall k :: 0 <= k < |groups| ==> after[k] == before[k];
      assert after[|groups|][0] == before[|groups|][0];
    }
  }

  lemma LastLine(groups: seq<seq<string>>, line: seq<string>, words: seq<string>, limit: int)
    requires Wrapping(groups, line, words, limit)
    ensures line != [] ==>
              && Breaks(groups + [line], words)
              && Legal(groups + [line], limit) && Maximal(groups + [line], limit)
    ensures line == [] ==> groups == [] && words == []
  {
    FlattenOneMore(groups, line);
    if line == [] {
      LinesAreNotEmpty(groups, words[..|words| - |line|]);
    } else {
      assert words == words[..|words| - |line|] + line;
    }
  }
}
