/**
 Quoting an argument for a shell command line (crates/vinpst-cli/src/paths.rs), read back by
 the quoting rules of the POSIX Shell Command Language: 2.2.1 (backslash) and 2.2.2 (single
 quotes). In a D-Bus service file the escapes of the Desktop Entry Specification, "Possible
 value types", are undone first.
 */
module ExecQuoting {
  import opened Wrappers

  predicate IsPlain(c: char) {
    || 'a' <= c <= 'z' || 'A' <= c <= 'Z' || '0' <= c <= '9'
    || c in {'/', '.', '_', '-', ':', '='}
  }

  predicate AllPlain(s: string) {
    forall i :: 0 <= i < |s| ==> IsPlain(s[i])
  }

  /** Every single quote becomes: close the quotes, an escaped quote, open them again. */
  function EscapeQuotes(value: string): string {
    if value == "" then ""
    else (if value[0] == '\'' then "'\\''" else [value[0]]) + EscapeQuotes(value[1..])
  }

  function QuoteExecArg(value: string): string {
    if value == "" then "''"
    else if AllPlain(value) then value
    else "'" + EscapeQuotes(value) + "'"
  }

  // ---- The reader ----

  /** Characters with a meaning outside quotes, other than quoting and blanks. */
  predicate IsSpecial(c: char) {
    c in {'|', '&', ';', '<', '>', '(', ')', '$', '`', '"', '*', '?', '[', ']', '#', '~', '%', '!', '{', '}', '^'}
  }

  predicate IsSeparator(c: char) {
    c == ' ' || c == '\t' || c == '\n'
  }

  /**
   Reading a line into words. `word` is the word under way, if one has begun. `None` is a
   line that ends inside quotes, or uses something other than the two kinds of quoting.
   */
  function Read(s: string, i: nat, quoted: bool, word: Option<string>, words: seq<string>): Option<seq<string>>
    requires i <= |s|
    decreases |s| - i
  {
    var sofar := if word.Some? then word.value else "";
    if i == |s| then
      if quoted then None else Some(if word.Some? then words + [sofar] else words)
    else if quoted then
      if s[i] == '\'' then Read(s, i + 1, false, word, words)
      else Read(s, i + 1, true, Some(sofar + [s[i]]), words)
    else if s[i] == '\'' then Read(s, i + 1, true, Some(sofar), words)
    else if s[i] == '\\' then
      if i + 1 == |s| then None
      else if s[i + 1] == '\n' then Read(s, i + 2, false, word, words)
      else Read(s, i + 2, false, Some(sofar + [s[i + 1]]), words)
    else if IsSeparator(s[i]) then
      Read(s, i + 1, false, None, if word.Some? then words + [sofar] else words)
    else if IsSpecial(s[i]) then None
    else Read(s, i + 1, false, Some(sofar + [s[i]]), words)
  }

  function Words(line: string): Option<seq<string>> {
    Read(line, 0, false, None, [])
  }

  lemma {:induction false} PlainReadsAsItself(s: string, i: nat, n: nat, sofar: string, words: seq<string>)
    requires i + n <= |s| && forall k :: i <= k < i + n ==> IsPlain(s[k])
    ensures Read(s, i, false, Some(sofar), words) == Read(s, i + n, false, Some(sofar + s[i..i + n]), words)
    decreases n
  {
    if n == 0 {
      assert sofar + s[i..i] == sofar;
    } else {
      PlainReadsAsItself(s, i + 1, n - 1, sofar + [s[i]], words);
      assert sofar + [s[i]] + s[i + 1..i + n] == sofar + s[i..i + n];
    }
  }

  /** Inside quotes the escaped text reads as the text, up to the quote that closes it. */
  lemma {:induction false} EscapedReadsAsItself(
    s: string, i: nat, value: string, after: string, sofar: string, words: seq<string>)
    requires i <= |s| && s[i..] == EscapeQuotes(value) + "'" + after
    ensures Read(s, i, true, Some(sofar), words) ==
            Read(s, i + |EscapeQuotes(value)| + 1, false, Some(sofar + value), words)
    decreases |value|
  {
    if value == "" {
      assert s[i] == s[i..][0];
      assert sofar + value == sofar;
    } else {
      var c, rest := value[0], value[1..];
      var tail := EscapeQuotes(rest) + "'" + after;
      assert sofar + [c] + rest == sofar + value;
      if c == '\'' {
        assert s[i..] == "'\\''" + tail;
        assert s[i] == s[i..][0] && s[i + 1] == s[i..][1] && s[i + 2] == s[i..][2] && s[i + 3] == s[i..][3];
        assert s[i + 4..] == s[i..][4..] == tail;
        EscapedReadsAsItself(s, i + 4, rest, after, sofar + [c], words);
        assert Read(s, i + 1, false, Some(sofar), words) == Read(s, i + 3, false, Some(sofar + [c]), words);
      } else {
        assert s[i..] == [c] + tail;
        assert s[i] == s[i..][0];
        assert s[i + 1..] == s[i..][1..] == tail;
        EscapedReadsAsItself(s, i + 1, rest, after, sofar + [c], words);
      }
    }
  }

  lemma PlainArgument(s: string, i: nat, n: nat, words: seq<string>)
    requires 0 < n && i + n <= |s| && forall k :: i <= k < i + n ==> IsPlain(s[k])
    ensures Read(s, i, false, None, words) == Read(s, i + n, false, Some(s[i..i + n]), words)
  {
    PlainReadsAsItself(s, i + 1, n - 1, [s[i]], words);
    assert [] + [s[i]] == [s[i]];
    assert [s[i]] + s[i + 1..i + n] == s[i..i + n];
  }

  lemma QuotedArgument(s: string, i: nat, value: string, after: string, words: seq<string>)
    requires i <= |s| && s[i..] == "'" + EscapeQuotes(value) + "'" + after
    ensures Read(s, i, false, None, words) == Read(s, i + |EscapeQuotes(value)| + 2, false, Some(value), words)
  {
    assert s[i] == s[i..][0] == '\'';
    assert s[i + 1..] == s[i..][1..] == EscapeQuotes(value) + "'" + after;
    EscapedReadsAsItself(s, i + 1, value, after, "", words);
    assert "" + value == value;
  }

  /** Wherever a word may begin, the quoted argument is read as the value, and reading goes on outside quotes. */
  lemma QuotedReadsAsTheValue(s: string, i: nat, value: string, after: string, words: seq<string>)
    requires i <= |s| && s[i..] == QuoteExecArg(value) + after
    ensures Read(s, i, false, None, words) == Read(s, i + |QuoteExecArg(value)|, false, Some(value), words)
  {
    if value == "" || !AllPlain(value) {
      assert QuoteExecArg(value) == "'" + EscapeQuotes(value) + "'";
      QuotedArgument(s, i, value, after, words);
    } else {
      var n := |value|;
      assert s[i..i + n] == s[i..][..n] == value;
      forall k | i <= k < i + n
        ensures IsPlain(s[k])
      {
        assert s[k] == s[i..i + n][k - i];
      }
      PlainArgument(s, i, n, words);
    }
  }

  // ---- A command line ----

  /** The quoted arguments with a blank between them. */
  function CommandLine(args: seq<string>): string
    requires args != []
  {
    if |args| == 1 then QuoteExecArg(args[0]) else QuoteExecArg(args[0]) + " " + CommandLine(args[1..])
  }

  /** After a prefix and a blank stands the rest. */
  lemma AfterPrefix(s: string, i: nat, prefix: string, rest: string)
    requires i <= |s| && s[i..] == prefix + " " + rest
    ensures var j := i + |prefix|;
            j < |s| && s[j] == ' ' && s[j + 1..] == rest
  {
    var tail := s[i..];
    assert tail[|prefix|] == ' ' && tail[|prefix| + 1..] == rest;
    assert s[i + |prefix| + 1..] == tail[|prefix| + 1..];
  }

  /** One argument and the blank after it: the word is complete and the next one may begin. */
  lemma ArgumentAndBlank(s: string, i: nat, arg: string, rest: string, words: seq<string>)
    requires i <= |s| && s[i..] == QuoteExecArg(arg) + " " + rest
    ensures var next := i + |QuoteExecArg(arg)| + 1;
            && next <= |s| && s[next..] == rest
            && Read(s, i, false, None, words) == Read(s, next, false, None, words + [arg])
  {
    AfterPrefix(s, i, QuoteExecArg(arg), rest);
    assert QuoteExecArg(arg) + " " + rest == QuoteExecArg(arg) + (" " + rest);
    QuotedReadsAsTheValue(s, i, arg, " " + rest, words);
  }

  lemma LastArgument(s: string, i: nat, arg: string, words: seq<string>)
    requires i <= |s| && s[i..] == QuoteExecArg(arg)
    ensures Read(s, i, false, None, words) == Some(words + [arg])
  {
    assert QuoteExecArg(arg) == QuoteExecArg(arg) + "";
    QuotedReadsAsTheValue(s, i, arg, "", words);
  }

  lemma {:induction false} CommandLineReadsFrom(s: string, i: nat, args: seq<string>, words: seq<string>)
    requires args != [] && i <= |s| && s[i..] == CommandLine(args)
    ensures Read(s, i, false, None, words) == Some(words + args)
    decreases |args|
  {
    if |args| == 1 {
      LastArgument(s, i, args[0], words);
      assert [args[0]] == args;
    } else {
      ArgumentAndBlank(s, i, args[0], CommandLine(args[1..]), words);
      CommandLineReadsFrom(s, i + |QuoteExecArg(args[0])| + 1, args[1..], words + [args[0]]);
      assert words + [args[0]] + args[1..] == words + args;
    }
  }

  /** Reading the command line gives back the list of arguments, each one word, whatever they contain. */
  lemma CommandLineReadsAsItsArguments(args: seq<string>)
    requires args != []
    ensures Words(CommandLine(args)) == Some(args)
  {
    CommandLineReadsFrom(CommandLine(args), 0, args, []);
    assert [] + args == args;
  }

  /** One quoted argument is exactly one word, and that word is the value. */
  lemma QuotedArgumentIsOneWord(value: string)
    ensures Words(QuoteExecArg(value)) == Some([value])
  {
    CommandLineReadsAsItsArguments([value]);
  }

  // ---- When the command line is one line ----

  lemma {:induction false} EscapingKeepsLineBreaks(value: string)
    ensures '\n' in EscapeQuotes(value) <==> '\n' in value
  {
    if value != "" {
      EscapingKeepsLineBreaks(value[1..]);
      assert value == [value[0]] + value[1..];
    }
  }

  lemma QuotingKeepsLineBreaks(value: string)
    ensures '\n' in QuoteExecArg(value) <==> '\n' in value
  {
    EscapingKeepsLineBreaks(value);
  }

  /** Quoting does not take line breaks away: the command fits on one line exactly when no argument has one. */
  lemma {:induction false} OneLineIffNoLineBreak(args: seq<string>)
    requires args != []
    ensures '\n' in CommandLine(args) <==> exists i :: 0 <= i < |args| && '\n' in args[i]
  {
    QuotingKeepsLineBreaks(args[0]);
    if |args| > 1 {
      OneLineIffNoLineBreak(args[1..]);
      assert forall i :: 0 < i < |args| ==> args[i] == args[1..][i - 1];
    }
  }

  // ---- The command as the value of a key in a service file ----

  function Escape(c: char): Option<char> {
    match c
    case 's' => Some(' ')
    case 'n' => Some('\n')
    case 't' => Some('\t')
    case 'r' => Some('\r')
    case '\\' => Some('\\')
    case _ => None
  }

  function Prefixed(prefix: string, text: Option<string>): Option<string> {
    if text.Some? then Some(prefix + text.value) else None
  }

  /** A value with its escapes undone; a backslash before anything else, or at the end, is an error. */
  function Unescape(s: string): Option<string> {
    if s == "" then Some("")
    else if s[0] != '\\' then Prefixed([s[0]], Unescape(s[1..]))
    else if |s| == 1 || Escape(s[1]).None? then None
    else Prefixed([Escape(s[1]).value], Unescape(s[2..]))
  }

  /** The arguments a service gets from a file that holds them in its `Exec` key. */
  function ServiceArguments(line: string): Option<seq<string>> {
    if '\n' in line || Unescape(line).None? then None else Words(Unescape(line).value)
  }

  lemma PrefixedTwice(a: string, b: string, text: Option<string>)
    ensures Prefixed(a, Prefixed(b, text)) == Prefixed(a + b, text)
  {
    assert text.Some? ==> a + (b + text.value) == a + b + text.value;
  }

  lemma UnescapeOfCons(c: char, s: string)
    requires c != '\\'
    ensures Unescape([c] + s) == Prefixed([c], Unescape(s))
  {
    assert ([c] + s)[1..] == s;
  }

  /** The escapes of a text are those of its parts, and a quote does not complete an escape. */
  lemma {:induction false} UnescapeOfConcat(a: string, b: string)
    ensures Unescape(a).Some? ==> Unescape(a + b) == Prefixed(Unescape(a).value, Unescape(b))
    ensures Unescape(a).None? && b != "" && b[0] == '\'' ==> Unescape(a + b).None?
  {
    if a == "" {
      assert a + b == b;
      assert Unescape(b).Some? ==> "" + Unescape(b).value == Unescape(b).value;
    } else if a[0] != '\\' {
      UnescapeOfConcat(a[1..], b);
      assert (a + b)[1..] == a[1..] + b;
      if Unescape(a).Some? {
        PrefixedTwice([a[0]], Unescape(a[1..]).value, Unescape(b));
      }
    } else if |a| == 1 {
      assert b != "" ==> (a + b)[1] == b[0];
    } else {
      UnescapeOfConcat(a[2..], b);
      assert (a + b)[1] == a[1] && (a + b)[2..] == a[2..] + b;
      if Unescape(a).Some? {
        PrefixedTwice([Escape(a[1]).value], Unescape(a[2..]).value, Unescape(b));
      }
    }
  }

  /** The backslash that is written for a quote is no escape of a value. */
  lemma {:induction false} WrittenQuoteIsNoEscape(value: string, after: string)
    requires '\'' in value
    ensures Unescape(EscapeQuotes(value) + after).None?
    decreases |value|
  {
    var rest := EscapeQuotes(value[1..]) + after;
    if value[0] == '\'' {
      assert EscapeQuotes(value) + after == "'\\''" + rest;
      assert ("'\\''" + rest)[1..] == "\\''" + rest;
    } else {
      assert EscapeQuotes(value) + after == [value[0]] + rest;
      if value[0] != '\\' {
        WrittenQuoteIsNoEscape(value[1..], after);
        assert ([value[0]] + rest)[1..] == rest;
      } else if value[1] == '\'' {
        assert rest[0] == '\'';
      } else {
        WrittenQuoteIsNoEscape(value[2..], after);
        assert ([value[0]] + rest)[2..] == EscapeQuotes(value[2..]) + after;
      }
    }
  }

  lemma AllPlainOfCons(c: char, s: string)
    ensures AllPlain([c] + s) <==> IsPlain(c) && AllPlain(s)
  {
    var t := [c] + s;
    assert t[0] == c;
    assert forall i :: 0 <= i < |s| ==> t[i + 1] == s[i];
  }

  /** Undoing escapes neither makes nor takes away quotes and characters that need quoting. */
  lemma {:induction false} UnescapedNeedsTheSameQuoting(s: string)
    requires Unescape(s).Some?
    ensures AllPlain(Unescape(s).value) <==> AllPlain(s)
    ensures '\'' in Unescape(s).value <==> '\'' in s
    ensures Unescape(s).value == "" <==> s == ""
  {
    if s != "" {
      var n := if s[0] == '\\' then 2 else 1;
      UnescapedNeedsTheSameQuoting(s[n..]);
      assert s == s[..n] + s[n..];
      if n == 1 {
        AllPlainOfCons(s[0], s[1..]);
        AllPlainOfCons(s[0], Unescape(s[1..]).value);
      } else {
        AllPlainOfCons(s[0], s[1..]);
        AllPlainOfCons(Escape(s[1]).value, Unescape(s[2..]).value);
      }
    }
  }

  lemma {:induction false} UnescapedIsShorterIffEscaped(s: string)
    requires Unescape(s).Some?
    ensures |Unescape(s).value| <= |s|
    ensures |Unescape(s).value| < |s| || Unescape(s).value == s
    ensures Unescape(s).value == s <==> '\\' !in s
  {
    if s != "" {
      var n := if s[0] == '\\' then 2 else 1;
      UnescapedIsShorterIffEscaped(s[n..]);
      assert s == s[..n] + s[n..];
    }
  }

  lemma {:induction false} NothingToEscape(value: string)
    requires '\'' !in value
    ensures EscapeQuotes(value) == value
  {
    if value != "" {
      NothingToEscape(value[1..]);
    }
  }

  /** What is left of one argument: nothing if it has a quote or a bad escape, else its value without escapes. */
  function LeftOf(arg: string): Option<string> {
    if '\'' in arg then None else Unescape(arg)
  }

  lemma QuotedUnescapes(arg: string, after: string)
    requires '\'' !in arg
    ensures Unescape("'" + EscapeQuotes(arg) + "'" + after) ==
            if Unescape(arg).None? then None else Prefixed("'" + Unescape(arg).value + "'", Unescape(after))
  {
    var closed := "'" + after;
    NothingToEscape(arg);
    assert "'" + EscapeQuotes(arg) + "'" + after == ['\''] + (arg + closed);
    UnescapeOfCons('\'', arg + closed);
    UnescapeOfConcat(arg, closed);
    UnescapeOfCons('\'', after);
    if Unescape(arg).Some? {
      var v := Unescape(arg).value;
      PrefixedTwice(v, "'", Unescape(after));
      PrefixedTwice("'", v + "'", Unescape(after));
      assert "'" + (v + "'") == "'" + v + "'";
    }
  }

  lemma ArgumentUnescapes(arg: string, after: string)
    ensures Unescape(QuoteExecArg(arg) + after) ==
            if LeftOf(arg).None? then None else Prefixed(QuoteExecArg(LeftOf(arg).value), Unescape(after))
  {
    if '\'' in arg {
      QuoteIsLost(arg, after);
    } else if arg != "" && AllPlain(arg) {
      PlainUnescapes(arg);
      UnescapeOfConcat(arg, after);
    } else {
      assert QuoteExecArg(arg) == "'" + EscapeQuotes(arg) + "'";
      QuotedUnescapes(arg, after);
      if Unescape(arg).Some? {
        var v := Unescape(arg).value;
        UnescapedNeedsTheSameQuoting(arg);
        NothingToEscape(v);
        assert QuoteExecArg(v) == "'" + v + "'";
      }
    }
  }

  lemma QuoteIsLost(arg: string, after: string)
    requires '\'' in arg
    ensures Unescape(QuoteExecArg(arg) + after).None?
  {
    var i :| 0 <= i < |arg| && arg[i] == '\'';
    assert !IsPlain(arg[i]);
    var rest := EscapeQuotes(arg) + ("'" + after);
    WrittenQuoteIsNoEscape(arg, "'" + after);
    assert QuoteExecArg(arg) == "'" + EscapeQuotes(arg) + "'";
    assert QuoteExecArg(arg) + after == ['\''] + rest;
    UnescapeOfCons('\'', rest);
  }

  lemma {:induction false} PlainUnescapes(s: string)
    requires AllPlain(s)
    ensures Unescape(s) == Some(s)
  {
    if s != "" {
      PlainUnescapes(s[1..]);
      assert s == [s[0]] + s[1..];
    }
  }

  /** What is left of a list of arguments. */
  function LeftOfAll(args: seq<string>): (r: Option<seq<string>>)
    ensures r.Some? ==> |r.value| == |args|
  {
    if args == [] then Some([])
    else
      var first, others := LeftOf(args[0]), LeftOfAll(args[1..]);
      if first.None? || others.None? then None else Some([first.value] + others.value)
  }

  lemma ArgumentAndBlankUnescape(arg: string, rest: string)
    ensures Unescape(QuoteExecArg(arg) + " " + rest) ==
            if LeftOf(arg).None? then None else Prefixed(QuoteExecArg(LeftOf(arg).value) + " ", Unescape(rest))
  {
    ArgumentUnescapes(arg, [' '] + rest);
    UnescapeOfCons(' ', rest);
    assert QuoteExecArg(arg) + " " + rest == QuoteExecArg(arg) + ([' '] + rest);
    if LeftOf(arg).Some? {
      PrefixedTwice(QuoteExecArg(LeftOf(arg).value), " ", Unescape(rest));
    }
  }

  lemma LastArgumentUnescapes(arg: string)
    ensures Unescape(QuoteExecArg(arg)) ==
            if LeftOf(arg).None? then None else Some(QuoteExecArg(LeftOf(arg).value))
  {
    ArgumentUnescapes(arg, "");
    assert QuoteExecArg(arg) + "" == QuoteExecArg(arg);
    assert LeftOf(arg).Some? ==> QuoteExecArg(LeftOf(arg).value) + "" == QuoteExecArg(LeftOf(arg).value);
  }

  lemma {:induction false} CommandLineUnescapes(args: seq<string>)
    requires args != []
    ensures Unescape(CommandLine(args)) ==
            if LeftOfAll(args).None? then None else Some(CommandLine(LeftOfAll(args).value))
    decreases |args|
  {
    if |args| == 1 {
      LastArgumentUnescapes(args[0]);
    } else {
      CommandLineUnescapes(args[1..]);
      ArgumentAndBlankUnescape(args[0], CommandLine(args[1..]));
      if LeftOfAll(args).Some? {
        var v, vs := LeftOf(args[0]).value, LeftOfAll(args[1..]).value;
        assert ([v] + vs)[1..] == vs;
      }
    }
  }

  /**
   What a service gets from the file, for all arguments: what is left of each, or nothing at
   all if one has a quote, a backslash that begins no escape, or a line break.
   */
  lemma ServiceGetsWhatIsLeft(args: seq<string>)
    requires args != []
    ensures ServiceArguments(CommandLine(args)) ==
            if exists i :: 0 <= i < |args| && '\n' in args[i] then None else LeftOfAll(args)
  {
    OneLineIffNoLineBreak(args);
    CommandLineUnescapes(args);
    if LeftOfAll(args).Some? {
      CommandLineReadsAsItsArguments(LeftOfAll(args).value);
    }
  }

  predicate NeedsNoEscape(arg: string) {
    '\'' !in arg && '\\' !in arg && '\n' !in arg
  }

  lemma {:induction false} AllIsLeftIffNothingToEscape(args: seq<string>)
    ensures LeftOfAll(args) == Some(args) <==> forall i :: 0 <= i < |args| ==> '\'' !in args[i] && '\\' !in args[i]
  {
    if args != [] {
      var first, rest := args[0], args[1..];
      AllIsLeftIffNothingToEscape(rest);
      assert args == [first] + rest;
      assert forall i :: 0 < i < |args| ==> args[i] == rest[i - 1];
      if Unescape(first).Some? {
        UnescapedIsShorterIffEscaped(first);
      } else {
        HasABackslash(first);
      }
    }
  }

  lemma {:induction false} HasABackslash(s: string)
    requires Unescape(s).None?
    ensures '\\' in s
  {
    if s[0] != '\\' {
      HasABackslash(s[1..]);
    }
  }

  /** A service gets its arguments exactly when none has a quote, a backslash or a line break. */
  lemma ServiceGetsItsArgumentsIffNothingToEscape(args: seq<string>)
    requires args != []
    ensures ServiceArguments(CommandLine(args)) == Some(args) <==>
            forall i :: 0 <= i < |args| ==> NeedsNoEscape(args[i])
  {
    ServiceGetsWhatIsLeft(args);
    AllIsLeftIffNothingToEscape(args);
  }
}
