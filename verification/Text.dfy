/** Splitting text the way the modelled programs do. */
module Text {

  /** The parts between occurrences of a separator; always at least one. */
  function SplitOn(s: string, separator: char): (parts: seq<string>)
    ensures parts != []
  {
    if s == "" then [""]
    else
      var parts, last := SplitOn(s[..|s| - 1], separator), s[|s| - 1];
      if last == separator then parts + [""]
      else parts[..|parts| - 1] + [parts[|parts| - 1] + [last]]
  }

  function JoinWith(parts: seq<string>, separator: char): string
    requires parts != []
  {
    if |parts| == 1 then parts[0]
    else JoinWith(parts[..|parts| - 1], separator) + [separator] + parts[|parts| - 1]
  }

  ghost predicate SplitsInto(s: string, separator: char, parts: seq<string>) {
    && parts != [] && JoinWith(parts, separator) == s
    && forall i :: 0 <= i < |parts| ==> separator !in parts[i]
  }

  lemma SplitAtSeparator(s: string, separator: char, parts: seq<string>)
    requires SplitsInto(s, separator, parts)
    ensures SplitsInto(s + [separator], separator, parts + [""])
  {
    assert (parts + [""])[..|parts|] == parts;
    assert s + [separator] + "" == s + [separator];
  }

  lemma SplitElsewhere(s: string, separator: char, parts: seq<string>, c: char)
    requires SplitsInto(s, separator, parts) && c != separator
    ensures SplitsInto(s + [c], separator, parts[..|parts| - 1] + [parts[|parts| - 1] + [c]])
  {
    var front, last := parts[..|parts| - 1], parts[|parts| - 1];
    assert (front + [last + [c]])[..|front|] == front;
    if front != [] {
      var joined := JoinWith(front, separator) + [separator];
      assert joined + (last + [c]) == (joined + last) + [c];
    }
  }

  /** Splitting loses nothing, and no part contains the separator. */
  lemma {:induction false} SplitJoins(s: string, separator: char)
    ensures SplitsInto(s, separator, SplitOn(s, separator))
  {
    if s == "" {
    } else {
      var front, last := s[..|s| - 1], s[|s| - 1];
      SplitJoins(front, separator);
      assert s == front + [last];
      if last == separator {
        SplitAtSeparator(front, separator, SplitOn(front, separator));
      } else {
        SplitElsewhere(front, separator, SplitOn(front, separator), last);
      }
    }
  }

  function Concat(lines: seq<string>): string {
    if lines == [] then "" else Concat(lines[..|lines| - 1]) + lines[|lines| - 1]
  }

  lemma {:induction false} ConcatAppends(a: seq<string>, b: seq<string>)
    ensures Concat(a + b) == Concat(a) + Concat(b)
  {
    if b == [] {
      assert a + b == a;
    } else {
      ConcatAppends(a, b[..|b| - 1]);
      assert (a + b)[..|a + b| - 1] == a + b[..|b| - 1];
    }
  }

  /** Where Python ends a line. */
  predicate IsBreak(c: char) {
    c in {'\n', '\r', '\U{0B}', '\U{0C}', '\U{1C}', '\U{1D}', '\U{1E}', '\U{85}', '\U{2028}', '\U{2029}'}
  }

  /** What Python strips and splits on by default. */
  predicate IsSpace(c: char) {
    || IsBreak(c)
    || c in {'\t', ' ', '\U{1F}', '\U{A0}', '\U{1680}', '\U{202F}', '\U{205F}', '\U{3000}'}
    || '\U{2000}' <= c <= '\U{200A}'
  }

  /** The length of the first line, its terminator included; a carriage return takes a following newline along. */
  function LineLength(s: string): (n: nat)
    requires s != ""
    ensures 1 <= n <= |s|
  {
    if IsBreak(s[0]) then (if s[0] == '\r' && |s| > 1 && s[1] == '\n' then 2 else 1)
    else if |s| == 1 then 1
    else 1 + LineLength(s[1..])
  }

  function SplitLines(s: string): seq<string> {
    if s == "" then [] else [s[..LineLength(s)]] + SplitLines(s[LineLength(s)..])
  }

  lemma {:induction false} LinesConcat(s: string)
    ensures Concat(SplitLines(s)) == s
  {
    if s == "" {
    } else {
      var n := LineLength(s);
      LinesConcat(s[n..]);
      ConcatAppends([s[..n]], SplitLines(s[n..]));
      assert Concat([s[..n]]) == s[..n];
    }
  }

  /** The maximal runs of characters that are not white space. */
  function Fields(s: string): (fields: seq<string>)
    ensures s == "" ==> fields == []
    ensures s != "" && !IsSpace(s[|s| - 1]) ==> fields != []
  {
    if s == "" then []
    else
      var front, last := s[..|s| - 1], s[|s| - 1];
      var fields := Fields(front);
      if IsSpace(last) then fields
      else if front == "" || IsSpace(front[|front| - 1]) then fields + [[last]]
      else fields[..|fields| - 1] + [fields[|fields| - 1] + [last]]
  }

  /** A text without white space. */
  predicate Word(s: string) {
    s != "" && forall i :: 0 <= i < |s| ==> !IsSpace(s[i])
  }

  predicate EndsInSpace(s: string) {
    s != "" ==> IsSpace(s[|s| - 1])
  }

  lemma {:induction false} FieldsWord(s: string, word: string)
    requires EndsInSpace(s) && Word(word)
    ensures Fields(s + word) == Fields(s) + [word]
  {
    var front, last := word[..|word| - 1], word[|word| - 1];
    assert (s + word)[..|s + word| - 1] == s + front;
    if front == "" {
      assert s + front == s && word == [last];
    } else {
      FieldsWord(s, front);
      assert (s + front)[|s + front| - 1] == front[|front| - 1];
      assert front + [last] == word;
    }
  }

  lemma FieldsSpace(s: string, space: char)
    requires IsSpace(space)
    ensures Fields(s + [space]) == Fields(s)
  {
    assert (s + [space])[..|s|] == s;
  }

  /** The words one after the other, a blank behind each. */
  function Row(words: seq<string>): string {
    if words == [] then "" else Row(words[..|words| - 1]) + words[|words| - 1] + " "
  }

  lemma RowStep(s: string, word: string)
    requires EndsInSpace(s) && Word(word)
    ensures Fields(s + word + " ") == Fields(s) + [word] && EndsInSpace(s + word + " ")
  {
    FieldsWord(s, word);
    FieldsSpace(s + word, ' ');
  }

  lemma {:induction false} RowFields(words: seq<string>)
    requires forall i :: 0 <= i < |words| ==> Word(words[i])
    ensures Fields(Row(words)) == words && EndsInSpace(Row(words))
  {
    hide Fields, IsSpace, Word;
    if words == [] {
    } else {
      var front, last := words[..|words| - 1], words[|words| - 1];
      RowFields(front);
      RowStep(Row(front), last);
    }
  }

  predicate NoBreak(s: string) {
    forall i :: 0 <= i < |s| ==> !IsBreak(s[i])
  }

  lemma {:induction false} RowUnbroken(words: seq<string>)
    requires forall i :: 0 <= i < |words| ==> Word(words[i])
    ensures NoBreak(Row(words))
  {
    if words == [] {
    } else {
      RowUnbroken(words[..|words| - 1]);
      assert Word(words[|words| - 1]);
    }
  }

  lemma {:induction false} SplitNowhere(s: string, separator: char)
    requires separator !in s
    ensures SplitOn(s, separator) == [s]
  {
    if s == "" {
    } else {
      SplitNowhere(s[..|s| - 1], separator);
      assert s == s[..|s| - 1] + [s[|s| - 1]];
    }
  }

  lemma {:induction false} WholeLine(s: string)
    requires s != "" && NoBreak(s[..|s| - 1])
    ensures LineLength(s) == |s|
  {
    if |s| == 1 {
    } else {
      assert !IsBreak(s[..|s| - 1][0]);
      assert s[1..][..|s| - 2] == s[..|s| - 1][1..];
      WholeLine(s[1..]);
    }
  }

  /** A text with no line end before its last character is one line. */
  lemma OneLine(s: string)
    requires s != "" && NoBreak(s[..|s| - 1])
    ensures SplitLines(s) == [s]
  {
    WholeLine(s);
    assert s[..|s|] == s && s[|s|..] == "";
  }
}
