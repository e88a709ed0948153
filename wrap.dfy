/** `wrapText` of the gold renderer: the words of a text gathered greedily into lines
    whose estimated width, `length * charWidth`, stays under `maxWidth`. The source
    estimates `charWidth` as `fontSize * 0.6`; here it is a parameter. */
module Wrap {
  import opened Text

  /** The first word of a line: everything before its first space. */
  function FirstWord(line: string): string
  {
    Split(line, ' ')[0]
  }

  lemma FirstWordExtend(a: string, b: string)
    ensures FirstWord(a + [' '] + b) == FirstWord(a)
  {
    SplitConcat(a, b, ' ');
  }

  lemma FirstWordOfWord(w: string)
    requires ' ' !in w
    ensures FirstWord(w) == w
  {
    SplitWithout(w, ' ');
  }

  /** The width the source estimates for `chars` characters. */
  function EstimatedWidth(chars: int, charWidth: real): real
  {
    (chars as real) * charWidth
  }

  /** `line` was closed because the next word would not have fitted behind it. */
  predicate Full(line: string, next: string, maxWidth: real, charWidth: real)
  {
    EstimatedWidth(|line| + 1 + |FirstWord(next)|, charWidth) >= maxWidth
  }

  /** An estimated width that stays under the limit. */
  predicate Fits(line: string, maxWidth: real, charWidth: real)
  {
    EstimatedWidth(|line|, charWidth) < maxWidth
  }

  /** What the loop keeps of the closed `lines` and the open `current` line: lines
      with a space fit, and every closed line was closed only because the next word
      did not fit behind it. */
  predicate Wrapped(lines: seq<string>, current: string, maxWidth: real, charWidth: real)
  {
    && (forall j :: 0 <= j < |lines| && ' ' in lines[j] ==> Fits(lines[j], maxWidth, charWidth))
    && (' ' in current ==> Fits(current, maxWidth, charWidth))
    && (forall j :: 0 <= j < |lines| - 1 ==> Full(lines[j], lines[j + 1], maxWidth, charWidth))
    && (|lines| > 0 ==> Full(lines[|lines| - 1], current, maxWidth, charWidth))
  }

  /** Appending a word that fits to the open line keeps the invariant. */
  lemma WrappedExtend(lines: seq<string>, current: string, word: string, maxWidth: real, charWidth: real)
    requires Wrapped(lines, current, maxWidth, charWidth)
    requires EstimatedWidth(|current| + |word| + 1, charWidth) < maxWidth
    ensures Wrapped(lines, current + [' '] + word, maxWidth, charWidth)
  {
    var longer := current + [' '] + word;
    assert |longer| == |current| + |word| + 1;
    FirstWordExtend(current, word);
  }

  /** Closing the open line when a space-free word does not fit keeps the invariant. */
  lemma WrappedBreak(lines: seq<string>, current: string, word: string, maxWidth: real, charWidth: real)
    requires Wrapped(lines, current, maxWidth, charWidth)
    requires ' ' !in word
    requires EstimatedWidth(|current| + |word| + 1, charWidth) >= maxWidth
    ensures Wrapped(lines + [current], word, maxWidth, charWidth)
  {
    FirstWordOfWord(word);
    var grown := lines + [current];
    assert Full(grown[|grown| - 1], word, maxWidth, charWidth);
    forall j | 0 <= j < |grown| - 1
      ensures Full(grown[j], grown[j + 1], maxWidth, charWidth)
    {
      if j < |lines| - 1 {
        assert grown[j] == lines[j] && grown[j + 1] == lines[j + 1];
      }
    }
  }

  /** Closing the last line: the invariant is then a statement about all the lines. */
  lemma WrappedClose(lines: seq<string>, current: string, maxWidth: real, charWidth: real)
    requires Wrapped(lines, current, maxWidth, charWidth)
    ensures var all := lines + [current];
      && (forall j :: 0 <= j < |all| && ' ' in all[j] ==> Fits(all[j], maxWidth, charWidth))
      && (forall j :: 0 <= j < |all| - 1 ==> Full(all[j], all[j + 1], maxWidth, charWidth))
  {
    var all := lines + [current];
    forall j | 0 <= j < |all| - 1
      ensures Full(all[j], all[j + 1], maxWidth, charWidth)
    {
      if j < |lines| - 1 {
        assert all[j] == lines[j] && all[j + 1] == lines[j + 1];
      }
    }
  }

  /** Appending a word to the open line appends it, after a space, to the text. */
  lemma JoinExtend(lines: seq<string>, current: string, word: string)
    ensures Join(lines + [current + [' '] + word], ' ') == Join(lines + [current], ' ') + [' '] + word
  {
    JoinSnoc(lines, current, ' ');
    JoinSnoc(lines, current + [' '] + word, ' ');
  }

  /** One turn of the loop over `words[i]`, in both branches: the lines still join
      to the words read so far and still meet the wrapping invariant. */
  lemma WrapStep(words: seq<string>, i: nat, lines: seq<string>, current: string, maxWidth: real, charWidth: real)
    requires Free(words, ' ') && 1 <= i < |words|
    requires Join(lines + [current], ' ') == Join(words[..i], ' ')
    requires Wrapped(lines, current, maxWidth, charWidth)
    ensures var word := words[i];
      EstimatedWidth(|current| + |word| + 1, charWidth) < maxWidth ==>
        && Join(lines + [current + [' '] + word], ' ') == Join(words[..i + 1], ' ')
        && Wrapped(lines, current + [' '] + word, maxWidth, charWidth)
    ensures var word := words[i];
      EstimatedWidth(|current| + |word| + 1, charWidth) >= maxWidth ==>
        && Join(lines + [current] + [word], ' ') == Join(words[..i + 1], ' ')
        && Wrapped(lines + [current], word, maxWidth, charWidth)
  {
    var word := words[i];
    assert words[..i + 1] == words[..i] + [word];
    JoinSnoc(words[..i], word, ' ');
    if EstimatedWidth(|current| + |word| + 1, charWidth) < maxWidth {
      WrappedExtend(lines, current, word, maxWidth, charWidth);
      JoinExtend(lines, current, word);
    } else {
      assert ' ' !in word;
      WrappedBreak(lines, current, word, maxWidth, charWidth);
      JoinSnoc(lines + [current], word, ' ');
    }
  }

  method WrapText(text: string, maxWidth: real, charWidth: real) returns (lines: seq<string>)
    ensures |lines| >= 1
    ensures Join(lines, ' ') == text
    ensures |lines| <= |Split(text, ' ')|
    ensures forall j :: 0 <= j < |lines| && ' ' in lines[j] ==> Fits(lines[j], maxWidth, charWidth)
    ensures forall j :: 0 <= j < |lines| - 1 ==> Full(lines[j], lines[j + 1], maxWidth, charWidth)
  {
    var words := Split(text, ' ');
    SplitFree(text, ' ');
    var current := words[0];
    lines := [];
    assert words[..1] == [current];
    var i := 1;
    while i < |words|
      invariant 1 <= i <= |words|
      invariant |lines| < i
      invariant Join(lines + [current], ' ') == Join(words[..i], ' ')
      invariant Wrapped(lines, current, maxWidth, charWidth)
    {
      var word := words[i];
      var width := EstimatedWidth(|current| + |word| + 1, charWidth);
      WrapStep(words, i, lines, current, maxWidth, charWidth);
      if width < maxWidth {
        current := current + [' '] + word;
      } else {
        lines := lines + [current];
        current := word;
      }
      i := i + 1;
    }
    assert words[..i] == words;
    JoinSplit(text, ' ');
    WrappedClose(lines, current, maxWidth, charWidth);
    lines := lines + [current];
  }
}
