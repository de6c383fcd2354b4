/** Words of an ssh configuration line: quotes, escapes and comments. Characters are
    ASCII. */
module SshArguments {
  import opened Basics

  // ---- what a line means --------------------------------------------------------------

  predicate IsSpace(c: char) {
    c == ' ' || c == '\t' || c == '\n' || c == '\r' || c as int == 11 || c as int == 12
  }

  function TrimLeft(s: string): string {
    if s != [] && IsSpace(s[0]) then TrimLeft(s[1..]) else s
  }

  function TrimRight(s: string): string {
    if s != [] && IsSpace(s[|s| - 1]) then TrimRight(s[..|s| - 1]) else s
  }

  function Trim(s: string): string {
    TrimRight(TrimLeft(s))
  }

  function Lower(s: string): (r: string)
    ensures |r| == |s|
  {
    seq(|s|, i requires 0 <= i < |s| => if 'A' <= s[i] <= 'Z' then s[i] - 'A' + 'a' else s[i])
  }

  /** The length of the first word of a trimmed line, None if nothing follows it. */
  function Separator(line: string): Option<nat> {
    if line == [] then None
    else if line[0] == ' ' || line[0] == '\t' || line[0] == '=' then Some(0)
    else
      match Separator(line[1..])
      case None => None
      case Some(n) => Some(n + 1)
  }

  /** Directive in lower case, and what follows it. */
  function SplitDirective(line: string): Option<(string, string)> {
    match Separator(line)
    case None => None
    case Some(n) =>
      if n > |line| then None
      else
        var directive := Lower(Trim(line[..n]));
        var rest := Trim(line[n..]);
        var remainder := if rest != [] && rest[0] == '=' then Trim(rest[1..]) else rest;
        if directive == "" then None else Some((directive, remainder))
  }

  /** Where the scan stands: words found, the word being read, and the two flags. */
  datatype Scan = Scan(words: seq<string>, word: Option<string>, quoted: bool, escaped: bool)

  const Start := Scan([], None, false, false)

  function Text(word: Option<string>): string {
    if word.Some? then word.value else ""
  }

  function Flush(s: Scan): Scan {
    if s.word.Some? then s.(words := s.words + [s.word.value], word := None) else s
  }

  /** One character; None at the start of a comment. */
  function Next(s: Scan, c: char): Option<Scan> {
    if s.escaped then Some(s.(word := Some(Text(s.word) + [c]), escaped := false))
    else if c == '\\' then Some(s.(word := Some(Text(s.word)), escaped := true))
    else if c == '"' then Some(s.(word := Some(Text(s.word)), quoted := !s.quoted))
    else if !s.quoted && c == '#' then None
    else if !s.quoted && (c == ' ' || c == '\t') then Some(Flush(s))
    else Some(s.(word := Some(Text(s.word) + [c])))
  }

  /** The words from scan `s` on; None for an unfinished escape or quote. */
  function Words(s: Scan, value: string): Option<seq<string>>
    decreases |value|
  {
    if value == [] then
      if s.escaped || s.quoted then None else Some(Flush(s).words)
    else
      match Next(s, value[0])
      case None => Some(Flush(s).words)
      case Some(t) => Words(t, value[1..])
  }

  /** The character loop computes exactly that. */
  method Arguments(value: string) returns (r: Option<seq<string>>)
    ensures r == Words(Start, value)
  {
    var arguments, argument: string := [], "";
    var inQuote, escaped, hasArgument := false, false, false;
    for index := 0 to |value|
      invariant hasArgument || argument == ""
      invariant Words(Start, value) ==
                  Words(Scan(arguments, if hasArgument then Some(argument) else None, inQuote, escaped), value[index..])
    {
      var character := value[index];
      assert value[index..][0] == character && value[index..][1..] == value[index + 1..];
      if escaped {
        argument, hasArgument, escaped := argument + [character], true, false;
      } else if character == '\\' {
        escaped, hasArgument := true, true;
      } else if character == '"' {
        inQuote, hasArgument := !inQuote, true;
      } else if !inQuote && character == '#' {
        if hasArgument {
          arguments := arguments + [argument];
        }
        return Some(arguments);
      } else if !inQuote && (character == ' ' || character == '\t') {
        if hasArgument {
          arguments, argument, hasArgument := arguments + [argument], "", false;
        }
      } else {
        argument, hasArgument := argument + [character], true;
      }
    }
    if escaped || inQuote {
      return None;
    }
    if hasArgument {
      arguments := arguments + [argument];
    }
    return Some(arguments);
  }

  // ---- quoting ------------------------------------------------------------------------

  function EscapeCharacter(c: char): string {
    if c == '"' || c == '\\' then ['\\', c] else [c]
  }

  function Escape(word: string): string {
    if word == [] then "" else EscapeCharacter(word[0]) + Escape(word[1..])
  }

  function Quote(word: string): string {
    "\"" + Escape(word) + "\""
  }

  function QuoteAll(words: seq<string>): string {
    if words == [] then "" else Quote(words[0]) + " " + QuoteAll(words[1..])
  }

  lemma OneCharacter(s: Scan, c: char, tail: string)
    requires Next(s, c).Some?
    ensures Words(s, [c] + tail) == Words(Next(s, c).value, tail)
  {
    assert ([c] + tail)[1..] == tail;
  }

  lemma EscapedCharacter(s: Scan, c: char, tail: string)
    requires s.quoted && !s.escaped && s.word.Some?
    ensures Words(s, EscapeCharacter(c) + tail) == Words(s.(word := Some(s.word.value + [c])), tail)
  {
    if c == '"' || c == '\\' {
      assert ['\\', c] + tail == ['\\'] + ([c] + tail);
      OneCharacter(s, '\\', [c] + tail);
      OneCharacter(s.(escaped := true), c, tail);
    } else {
      OneCharacter(s, c, tail);
    }
  }

  /** Inside quotes an escaped text adds exactly itself to the current word. */
  lemma {:induction false} EscapedText(s: Scan, word: string, rest: string)
    requires s.quoted && !s.escaped && s.word.Some?
    ensures Words(s, Escape(word) + rest) == Words(s.(word := Some(s.word.value + word)), rest)
    decreases |word|
  {
    if word == [] {
      assert Escape(word) + rest == rest && s.word.value + word == s.word.value;
    } else {
      var t := s.(word := Some(s.word.value + [word[0]]));
      assert Escape(word) + rest == EscapeCharacter(word[0]) + (Escape(word[1..]) + rest);
      EscapedCharacter(s, word[0], Escape(word[1..]) + rest);
      EscapedText(t, word[1..], rest);
      assert s.word.value + [word[0]] + word[1..] == s.word.value + word;
    }
  }

  lemma QuotedWord(s: Scan, word: string, rest: string)
    requires s.word.None? && !s.quoted && !s.escaped
    ensures Words(s, Quote(word) + " " + rest) == Words(s.(words := s.words + [word]), rest)
  {
    var open := s.(word := Some(""), quoted := true);
    var tail := "\" " + rest;
    assert Quote(word) + " " + rest == "\"" + (Escape(word) + tail);
    assert ("\"" + (Escape(word) + tail))[1..] == Escape(word) + tail;
    EscapedText(open, word, tail);
    assert "" + word == word;
    var full := open.(word := Some(word));
    assert tail[1..] == " " + rest && (" " + rest)[1..] == rest;
    assert Words(full, tail) == Words(full.(quoted := false), " " + rest);
  }

  /** Any list of words whatever, quoted, reads back as itself. */
  lemma {:induction false} QuotesReadBack(s: Scan, words: seq<string>)
    requires s.word.None? && !s.quoted && !s.escaped
    ensures Words(s, QuoteAll(words)) == Some(s.words + words)
    decreases |words|
  {
    if words == [] {
      assert s.words + words == s.words;
    } else {
      var t := s.(words := s.words + [words[0]]);
      assert QuoteAll(words) == Quote(words[0]) + " " + QuoteAll(words[1..]);
      QuotedWord(s, words[0], QuoteAll(words[1..]));
      QuotesReadBack(t, words[1..]);
      assert s.words + [words[0]] + words[1..] == s.words + words;
    }
  }
}
