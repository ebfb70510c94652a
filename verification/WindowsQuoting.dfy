/** Quoting an argument list for a Windows command line, and the documented rules for taking it apart. */
module WindowsQuoting {
  import opened Replies

  function Backslashes(n: nat): string {
    seq(n, _ => '\\')
  }

  // ----- the writer

  predicate NeedsQuotes(arg: string) {
    arg == [] || exists i :: 0 <= i < |arg| && arg[i] in {' ', '\t', '\n', '\r', '\"'}
  }

  /** The rest of a quoted argument when `pending` backslashes have been read and not yet written. */
  function Escaped(arg: string, pending: nat): string
    decreases |arg|
  {
    if arg == [] then Backslashes(2 * pending)
    else if arg[0] == '\\' then Escaped(arg[1..], pending + 1)
    else if arg[0] == '\"' then Backslashes(2 * pending + 1) + "\"" + Escaped(arg[1..], 0)
    else Backslashes(pending) + [arg[0]] + Escaped(arg[1..], 0)
  }

  function QuotedArg(arg: string): string {
    if NeedsQuotes(arg) then "\"" + Escaped(arg, 0) + "\"" else arg
  }

  /** An argument is passed on as it is exactly if it is not empty and has no blank, tab, line end or quote. */
  lemma BareUnlessNeeded(arg: string)
    ensures QuotedArg(arg) == arg <==>
            |arg| > 0 && forall i :: 0 <= i < |arg| ==>
                           arg[i] != ' ' && arg[i] != '\t' && arg[i] != '\n' && arg[i] != '\r' && arg[i] != '\"'
  {
    if NeedsQuotes(arg) {
      EscapedIsNoShorter(arg, 0);
    }
  }

  lemma {:induction false} EscapedIsNoShorter(arg: string, pending: nat)
    ensures |Escaped(arg, pending)| >= |arg| + pending
    decreases |arg|
  {
    if arg != [] {
      EscapedIsNoShorter(arg[1..], if arg[0] == '\\' then pending + 1 else 0);
    }
  }

  /** quote_windows_arg: one pass with a count of backslashes not yet written */
  method QuoteWindowsArg(arg: string) returns (quoted: string)
    ensures quoted == QuotedArg(arg)
  {
    if !NeedsQuotes(arg) {
      return arg;
    }
    quoted := "\"";
    var backslashes := 0;
    var i := 0;
    while i < |arg|
      invariant 0 <= i <= |arg|
      invariant quoted + Escaped(arg[i..], backslashes) == "\"" + Escaped(arg, 0)
    {
      ghost var rest := Escaped(arg[i..], backslashes);
      assert arg[i..][1..] == arg[i + 1..];
      if arg[i] == '\\' {
        backslashes := backslashes + 1;
      } else if arg[i] == '\"' {
        assert quoted + rest == quoted + Backslashes(2 * backslashes + 1) + "\"" + Escaped(arg[i + 1..], 0);
        quoted := quoted + Backslashes(2 * backslashes + 1);
        quoted := quoted + "\"";
        backslashes := 0;
      } else {
        assert quoted + rest == quoted + Backslashes(backslashes) + [arg[i]] + Escaped(arg[i + 1..], 0);
        quoted := quoted + Backslashes(backslashes);
        backslashes := 0;
        quoted := quoted + [arg[i]];
      }
      i := i + 1;
    }
    assert arg[i..] == [];
    quoted := quoted + Backslashes(2 * backslashes);
    quoted := quoted + "\"";
  }

  function Join(words: seq<string>): string {
    if words == [] then []
    else if |words| == 1 then words[0]
    else words[0] + " " + Join(words[1..])
  }

  function QuotedArgs(args: seq<string>): seq<string> {
    seq(|args|, i requires 0 <= i < |args| => QuotedArg(args[i]))
  }

  function CommandLine(args: seq<string>): string {
    Join(QuotedArgs(args))
  }

  /** windows_command_line */
  method WindowsCommandLine(args: seq<string>) returns (line: string)
    ensures line == CommandLine(args)
  {
    var words: seq<string> := [];
    for i := 0 to |args|
      invariant words == QuotedArgs(args)[..i]
    {
      var quoted := QuoteWindowsArg(args[i]);
      words := words + [quoted];
    }
    assert words == QuotedArgs(args);
    return Join(words);
  }

  // ----- the reader: the parsing rules of the Microsoft C runtime

  function Text(word: Option<string>): string {
    if word.Some? then word.value else []
  }

  /** Reads with `pending` backslashes before the current position, inside quotes or not. A quote after 2n
      backslashes stands for n backslashes and opens or closes (two quotes inside quotes are one literal
      quote); after 2n+1 it stands for n backslashes and a literal quote. Other backslashes are literal. */
  function Parse(s: string, pending: nat, inQuotes: bool, word: Option<string>): seq<string>
    decreases |s|
  {
    if s == [] then
      if word.Some? || pending > 0 then [Text(word) + Backslashes(pending)] else []
    else if s[0] == '\\' then Parse(s[1..], pending + 1, inQuotes, word)
    else if s[0] == '\"' then
      var half := Text(word) + Backslashes(pending / 2);
      if pending % 2 == 1 then Parse(s[1..], 0, inQuotes, Some(half + "\""))
      else if inQuotes && |s| > 1 && s[1] == '\"' then Parse(s[2..], 0, true, Some(half + "\""))
      else Parse(s[1..], 0, !inQuotes, Some(half))
    else if (s[0] == ' ' || s[0] == '\t') && !inQuotes then
      (if word.Some? || pending > 0 then [Text(word) + Backslashes(pending)] else []) + Parse(s[1..], 0, false, None)
    else Parse(s[1..], 0, inQuotes, Some(Text(word) + Backslashes(pending) + [s[0]]))
  }

  // ----- reading back what was written

  lemma {:induction false} ParseBackslashes(n: nat, rest: string, pending: nat, inQuotes: bool, word: Option<string>)
    ensures Parse(Backslashes(n) + rest, pending, inQuotes, word) == Parse(rest, pending + n, inQuotes, word)
  {
    if n == 0 {
      assert Backslashes(0) + rest == rest;
    } else {
      var t := Backslashes(n) + rest;
      assert t[0] == '\\' && t[1..] == Backslashes(n - 1) + rest;
      ParseBackslashes(n - 1, rest, pending + 1, inQuotes, word);
    }
  }

  /** What may follow an argument: nothing, or a blank. */
  predicate Ends(rest: string) {
    rest == [] || rest[0] == ' '
  }

  /** The closing quote, after doubled backslashes */
  lemma ParseClosing(pending: nat, rest: string, word: string)
    requires Ends(rest)
    ensures Parse(Backslashes(2 * pending) + "\"" + rest, 0, true, Some(word))
            == Parse(rest, 0, false, Some(word + Backslashes(pending)))
  {
    var q := "\"" + rest;
    assert Backslashes(2 * pending) + "\"" + rest == Backslashes(2 * pending) + q;
    ParseBackslashes(2 * pending, q, 0, true, Some(word));
    assert q[1..] == rest && q[0] == '\"';
    assert (2 * pending) / 2 == pending && (2 * pending) % 2 == 0;
  }

  lemma ParseLiteralQuote(pending: nat, after: string, word: string)
    ensures Parse(Backslashes(2 * pending + 1) + ("\"" + after), 0, true, Some(word))
            == Parse(after, 0, true, Some(word + Backslashes(pending) + "\""))
  {
    var q := "\"" + after;
    ParseBackslashes(2 * pending + 1, q, 0, true, Some(word));
    assert q[1..] == after && q[0] == '\"';
    assert (2 * pending + 1) / 2 == pending && (2 * pending + 1) % 2 == 1;
  }

  lemma ParseOrdinary(pending: nat, c: char, after: string, word: string)
    requires c != '\\' && c != '\"'
    ensures Parse(Backslashes(pending) + ([c] + after), 0, true, Some(word))
            == Parse(after, 0, true, Some(word + Backslashes(pending) + [c]))
  {
    var q := [c] + after;
    ParseBackslashes(pending, q, 0, true, Some(word));
    assert q[1..] == after && q[0] == c;
  }

  lemma {:induction false} ParseEscaped(arg: string, pending: nat, rest: string, word: string)
    requires Ends(rest)
    ensures Parse(Escaped(arg, pending) + "\"" + rest, 0, true, Some(word))
            == Parse(rest, 0, false, Some(word + Backslashes(pending) + arg))
    decreases |arg|
  {
    if arg == [] {
      ParseClosing(pending, rest, word);
      assert word + Backslashes(pending) + arg == word + Backslashes(pending);
    } else {
      var tail := arg[1..];
      assert arg == [arg[0]] + tail;
      if arg[0] == '\\' {
        ParseEscaped(tail, pending + 1, rest, word);
        assert word + Backslashes(pending + 1) + tail == word + Backslashes(pending) + arg;
      } else if arg[0] == '\"' {
        var after := Escaped(tail, 0) + "\"" + rest;
        assert Escaped(arg, pending) + "\"" + rest == Backslashes(2 * pending + 1) + ("\"" + after);
        ParseLiteralQuote(pending, after, word);
        ParseEscaped(tail, 0, rest, word + Backslashes(pending) + "\"");
        assert word + Backslashes(pending) + "\"" + Backslashes(0) + tail == word + Backslashes(pending) + arg;
      } else {
        var after := Escaped(tail, 0) + "\"" + rest;
        assert Escaped(arg, pending) + "\"" + rest == Backslashes(pending) + ([arg[0]] + after);
        ParseOrdinary(pending, arg[0], after, word);
        ParseEscaped(tail, 0, rest, word + Backslashes(pending) + [arg[0]]);
        assert word + Backslashes(pending) + [arg[0]] + Backslashes(0) + tail == word + Backslashes(pending) + arg;
      }
    }
  }

  lemma ParseOneBare(c: char, pending: nat, after: string, word: Option<string>)
    requires c !in {' ', '\t', '\"'}
    ensures Parse([c] + after, pending, false, word) ==
              if c == '\\' then Parse(after, pending + 1, false, word)
              else Parse(after, 0, false, Some(Text(word) + Backslashes(pending) + [c]))
  {
    var t := [c] + after;
    assert t[0] == c && t[1..] == after;
  }

  lemma {:induction false} ParseBare(arg: string, pending: nat, rest: string, word: Option<string>)
    requires Ends(rest) && forall i :: 0 <= i < |arg| ==> arg[i] !in {' ', '\t', '\n', '\r', '\"'}
    requires word.Some? || pending > 0 || arg != []
    ensures Parse(arg + rest, pending, false, word) == Parse(rest, 0, false,
                                                             Some(Text(word) + Backslashes(pending) + arg))
    decreases |arg|
  {
    if arg == [] {
      ParseBareEnd(pending, rest, word);
      NothingAdded(arg, rest);
      NothingBehind(Text(word) + Backslashes(pending), arg);
    } else {
      var tail := arg[1..];
      FirstAndTail(arg, rest);
      ParseOneBare(arg[0], pending, tail + rest, word);
      if arg[0] == '\\' {
        ParseBare(tail, pending + 1, rest, word);
        OneMoreBackslash(Text(word), pending, tail);
      } else {
        ParseBare(tail, 0, rest, Some(Text(word) + Backslashes(pending) + [arg[0]]));
        OneMoreLetter(Text(word) + Backslashes(pending), arg[0], tail);
      }
    }
  }

  /** At the end the pending backslashes are literal. */
  lemma ParseBareEnd(pending: nat, rest: string, word: Option<string>)
    requires Ends(rest) && (word.Some? || pending > 0)
    ensures Parse(rest, pending, false, word) == Parse(rest, 0, false, Some(Text(word) + Backslashes(pending)))
  {
    NothingBehind(Text(word) + Backslashes(pending), Backslashes(0));
  }

  lemma NothingAdded(none: string, rest: string)
    requires none == []
    ensures none + rest == rest
  {
  }

  lemma NothingBehind(all: string, none: string)
    requires none == []
    ensures all + none == all
  {
  }

  lemma FirstAndTail(arg: string, rest: string)
    requires arg != []
    ensures arg == [arg[0]] + arg[1..] && arg + rest == [arg[0]] + (arg[1..] + rest)
    ensures forall i :: 0 <= i < |arg[1..]| ==> arg[1..][i] == arg[i + 1]
  {
  }

  lemma OneMoreBackslash(text: string, pending: nat, tail: string)
    ensures text + Backslashes(pending + 1) + tail == text + Backslashes(pending) + (['\\'] + tail)
  {
    BackslashesSnoc(pending);
    assert text + (Backslashes(pending) + ['\\']) + tail == text + Backslashes(pending) + (['\\'] + tail);
  }

  lemma {:induction false} BackslashesSnoc(n: nat)
    ensures Backslashes(n + 1) == Backslashes(n) + ['\\']
  {
  }

  lemma OneMoreLetter(text: string, c: char, tail: string)
    ensures text + [c] + Backslashes(0) + tail == text + ([c] + tail)
  {
    NothingBehind(text + [c], Backslashes(0));
  }

  lemma ParseArg(arg: string, rest: string)
    requires Ends(rest)
    ensures Parse(QuotedArg(arg) + rest, 0, false, None) == Parse(rest, 0, false, Some(arg))
  {
    if NeedsQuotes(arg) {
      var inner := Escaped(arg, 0) + "\"" + rest;
      var t := QuotedArg(arg) + rest;
      assert t == "\"" + inner && t[1..] == inner && t[0] == '\"';
      assert [] + Backslashes(0) == [];
      ParseEscaped(arg, 0, rest, []);
      assert [] + Backslashes(0) + arg == arg;
    } else {
      ParseBare(arg, 0, rest, None);
      assert Text(None) + Backslashes(0) + arg == arg;
    }
  }

  /** The C runtime takes the command line apart into exactly the arguments, whatever they contain. */
  lemma {:induction false} CommandLineRoundTrip(args: seq<string>)
    ensures Parse(CommandLine(args), 0, false, None) == args
    decreases |args|
  {
    if args == [] {
    } else if |args| == 1 {
      ParseArg(args[0], []);
      assert CommandLine(args) == QuotedArg(args[0]) + [];
      assert args[0] + Backslashes(0) == args[0];
    } else {
      var rest := CommandLine(args[1..]);
      var t := " " + rest;
      assert QuotedArgs(args)[1..] == QuotedArgs(args[1..]);
      assert CommandLine(args) == QuotedArg(args[0]) + t;
      ParseArg(args[0], t);
      assert t[0] == ' ' && t[1..] == rest;
      assert args[0] + Backslashes(0) == args[0];
      CommandLineRoundTrip(args[1..]);
      assert [args[0]] + args[1..] == args;
    }
  }
}
