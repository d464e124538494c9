/** A model of the shell-word splitter the parser calls (`shlex::split`, a
 *  foreign crate whose source is not part of this model). The rules below are
 *  those of that crate as documented: words are separated by space, tab and
 *  newline; single quotes keep their contents literally; double quotes keep
 *  their contents except that a backslash escapes `$`, backquote, `"`,
 *  backslash and newline; an unquoted backslash escapes the next character;
 *  a `#` where a word could start begins a comment running to the end of the
 *  line. An unterminated quote or a trailing backslash makes the whole split
 *  fail. What the parser does with the result is proved for every outcome of
 *  the splitter, not only for the outcomes of these rules. */
module Shlex {
  import opened Common

  predicate IsSeparator(c: char)
  {
    c == ' ' || c == '\t' || c == '\n'
  }

  /** Characters that mean something to the splitter inside a word. */
  predicate IsSpecial(c: char)
  {
    IsSeparator(c) || c == '\'' || c == '"' || c == '\\'
  }

  /** Where the splitter is: between words, inside an unquoted part of a
   *  word, inside single or double quotes, or inside a comment. */
  datatype Mode = Between | Word | Single | Double | Comment
  {
    predicate InWord() { Word? || Single? || Double? }
  }

  /** What a backslash followed by `c` contributes inside double quotes. */
  function DoubleQuotedEscape(c: char): string
  {
    if c == '$' || c == '`' || c == '"' || c == '\\' then [c]
    else if c == '\n' then []
    else ['\\', c]
  }

  /** Splits the rest `s` of the line, in `mode`, with the word read so far
   *  `cur` and the finished words `acc`. */
  function Lex(s: string, mode: Mode, cur: string, acc: seq<string>): Option<seq<string>>
    decreases |s|, if mode.Between? then 1 else 0
  {
    if s == [] then
      match mode
      case Between => Some(acc)
      case Comment => Some(acc)
      case Word => Some(acc + [cur])
      case Single => None
      case Double => None
    else
      var c := s[0];
      match mode
      case Between =>
        if IsSeparator(c) then Lex(s[1..], Between, [], acc)
        else if c == '#' then Lex(s[1..], Comment, [], acc)
        else Lex(s, Word, [], acc)
      case Comment =>
        if c == '\n' then Lex(s[1..], Between, [], acc) else Lex(s[1..], Comment, [], acc)
      case Word =>
        if IsSeparator(c) then Lex(s[1..], Between, [], acc + [cur])
        else if c == '\'' then Lex(s[1..], Single, cur, acc)
        else if c == '"' then Lex(s[1..], Double, cur, acc)
        else if c == '\\' then
          if |s| == 1 then None
          else Lex(s[2..], Word, if s[1] == '\n' then cur else cur + [s[1]], acc)
        else Lex(s[1..], Word, cur + [c], acc)
      case Single =>
        if c == '\'' then Lex(s[1..], Word, cur, acc) else Lex(s[1..], Single, cur + [c], acc)
      case Double =>
        if c == '"' then Lex(s[1..], Word, cur, acc)
        else if c == '\\' then
          if |s| == 1 then None
          else Lex(s[2..], Double, cur + DoubleQuotedEscape(s[1]), acc)
        else Lex(s[1..], Double, cur + [c], acc)
  }

  /** `shlex::split`: the words of `s`, or `None` when `s` cannot be split. */
  function Split(s: string): Option<seq<string>>
  {
    Lex(s, Between, [], [])
  }

  /** Splitting only ever appends words: the words already finished stay as
   *  they are, and a word being read is finished with what was read of it
   *  as its beginning. */
  lemma {:induction false} LexExtends(s: string, mode: Mode, cur: string, acc: seq<string>)
    requires Lex(s, mode, cur, acc).Some?
    ensures var r := Lex(s, mode, cur, acc).value;
      && |acc| <= |r| && r[..|acc|] == acc
      && (mode.InWord() ==> |acc| < |r| && |cur| <= |r[|acc|]| && r[|acc|][..|cur|] == cur)
    decreases |s|, if mode.Between? then 1 else 0
  {
    if s == [] {
      return;
    }
    var c := s[0];
    var r := Lex(s, mode, cur, acc).value;
    match mode
    case Between =>
      if IsSeparator(c) { LexExtends(s[1..], Between, [], acc); }
      else if c == '#' { LexExtends(s[1..], Comment, [], acc); }
      else { LexExtends(s, Word, [], acc); }
    case Comment =>
      if c == '\n' { LexExtends(s[1..], Between, [], acc); } else { LexExtends(s[1..], Comment, [], acc); }
    case Word =>
      if IsSeparator(c) {
        LexExtends(s[1..], Between, [], acc + [cur]);
        assert r[..|acc| + 1] == acc + [cur];
        assert r[..|acc|] == (acc + [cur])[..|acc|];
      } else if c == '\'' {
        LexExtends(s[1..], Single, cur, acc);
      } else if c == '"' {
        LexExtends(s[1..], Double, cur, acc);
      } else if c == '\\' {
        var cur' := if s[1] == '\n' then cur else cur + [s[1]];
        LexExtends(s[2..], Word, cur', acc);
        assert r[|acc|][..|cur|] == r[|acc|][..|cur'|][..|cur|];
      } else {
        LexExtends(s[1..], Word, cur + [c], acc);
        assert r[|acc|][..|cur|] == r[|acc|][..|cur| + 1][..|cur|];
      }
    case Single =>
      if c == '\'' {
        LexExtends(s[1..], Word, cur, acc);
      } else {
        LexExtends(s[1..], Single, cur + [c], acc);
        assert r[|acc|][..|cur|] == r[|acc|][..|cur| + 1][..|cur|];
      }
    case Double =>
      if c == '"' {
        LexExtends(s[1..], Word, cur, acc);
      } else if c == '\\' {
        var cur' := cur + DoubleQuotedEscape(s[1]);
        LexExtends(s[2..], Double, cur', acc);
        assert r[|acc|][..|cur|] == r[|acc|][..|cur'|][..|cur|];
      } else {
        LexExtends(s[1..], Double, cur + [c], acc);
        assert r[|acc|][..|cur|] == r[|acc|][..|cur| + 1][..|cur|];
      }
  }

  /** A line that starts with `/` either fails to split or splits into at
   *  least one word, the first of which starts with `/`. */
  lemma SlashLineFirstWord(s: string)
    requires s != [] && s[0] == '/'
    requires Split(s).Some?
    ensures var words := Split(s).value; words != [] && words[0] != [] && words[0][0] == '/'
  {
    assert Split(s) == Lex(s, Word, [], []);
    assert [] + ['/'] == ['/'];
    assert Split(s) == Lex(s[1..], Word, ['/'], []);
    LexExtends(s[1..], Word, ['/'], []);
  }

  /** A word the splitter returns unchanged: not empty, free of special
   *  characters, and not starting a comment. */
  predicate PlainWord(w: string)
  {
    w != [] && w[0] != '#' && forall i :: 0 <= i < |w| ==> !IsSpecial(w[i])
  }

  /** The words joined with single spaces. */
  function JoinWords(words: seq<string>): string
    decreases |words|
  {
    if words == [] then []
    else if |words| == 1 then words[0]
    else words[0] + " " + JoinWords(words[1..])
  }

  /** Reading plain characters inside a word just adds them to the word. */
  lemma {:induction false} LexPlainRun(w: string, rest: string, cur: string, acc: seq<string>)
    requires forall i :: 0 <= i < |w| ==> !IsSpecial(w[i])
    ensures Lex(w + rest, Word, cur, acc) == Lex(rest, Word, cur + w, acc)
    decreases |w|
  {
    if w != [] {
      assert (w + rest)[0] == w[0];
      assert (w + rest)[1..] == w[1..] + rest;
      LexPlainRun(w[1..], rest, cur + [w[0]], acc);
      assert cur + [w[0]] + w[1..] == cur + w;
    } else {
      assert w + rest == rest;
      assert cur + w == cur;
    }
  }

  /** A plain word at the start of what is left is read whole. */
  lemma LexPlainWord(w: string, rest: string, acc: seq<string>)
    requires PlainWord(w)
    ensures Lex(w + rest, Between, [], acc) == Lex(rest, Word, w, acc)
  {
    assert (w + rest)[0] == w[0];
    assert Lex(w + rest, Between, [], acc) == Lex(w + rest, Word, [], acc);
    LexPlainRun(w, rest, [], acc);
    assert [] + w == w;
  }

  /** A space ends the word being read. */
  lemma LexSpace(t: string, cur: string, acc: seq<string>)
    ensures Lex(" " + t, Word, cur, acc) == Lex(t, Between, [], acc + [cur])
  {
    assert (" " + t)[0] == ' ';
    assert (" " + t)[1..] == t;
  }

  /** Joining plain words with spaces and splitting the result gives the
   *  words back. */
  lemma {:induction false} LexJoinWords(words: seq<string>, acc: seq<string>)
    requires forall k :: 0 <= k < |words| ==> PlainWord(words[k])
    ensures Lex(JoinWords(words), Between, [], acc) == Some(acc + words)
    decreases |words|
  {
    if words == [] {
      assert acc + words == acc;
      return;
    }
    var w := words[0];
    if |words| == 1 {
      LexPlainWord(w, [], acc);
      assert w + [] == w;
      assert acc + words == acc + [w];
    } else {
      var t := JoinWords(words[1..]);
      assert JoinWords(words) == w + (" " + t);
      LexPlainWord(w, " " + t, acc);
      LexSpace(t, w, acc);
      LexJoinWords(words[1..], acc + [w]);
      assert acc + [w] + words[1..] == acc + words;
    }
  }

  lemma SplitJoinWords(words: seq<string>)
    requires forall k :: 0 <= k < |words| ==> PlainWord(words[k])
    ensures Split(JoinWords(words)) == Some(words)
  {
    LexJoinWords(words, []);
    assert [] + words == words;
  }

  /** Inside double quotes, a line that ends before any closing quote or
   *  backslash cannot be split. */
  lemma {:induction false} UnterminatedDoubleQuote(s: string, cur: string, acc: seq<string>)
    requires forall i :: 0 <= i < |s| ==> s[i] != '"' && s[i] != '\\'
    ensures Lex(s, Double, cur, acc) == None
    decreases |s|
  {
    if s != [] {
      UnterminatedDoubleQuote(s[1..], cur + [s[0]], acc);
    }
  }

  /** A plain word followed by a double quote that is never closed cannot
   *  be split. */
  lemma UnterminatedQuoteFails(w: string, t: string)
    requires PlainWord(w)
    requires forall i :: 0 <= i < |t| ==> t[i] != '"' && t[i] != '\\'
    ensures Split(w + " \"" + t) == None
  {
    assert w + " \"" + t == w + (" " + ("\"" + t));
    LexPlainWord(w, " " + ("\"" + t), []);
    LexSpace("\"" + t, w, []);
    assert [] + [w] == [w];
    assert ("\"" + t)[0] == '"' && ("\"" + t)[1..] == t;
    assert Lex("\"" + t, Between, [], [w]) == Lex(t, Double, [], [w]);
    UnterminatedDoubleQuote(t, [], [w]);
  }
}
