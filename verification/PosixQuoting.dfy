/** Quoting an argument list for the shell, and a reader of shell text to take it apart again. */
module PosixQuoting {
  import opened Replies

  // ----- the writer

  predicate IsAlphanumeric(c: char) {
    'a' <= c <= 'z' || 'A' <= c <= 'Z' || '0' <= c <= '9'
  }

  /** The characters an argument may have to be passed on bare. */
  predicate IsPlain(c: char) {
    IsAlphanumeric(c) || c in {'-', '_', '.', '/', ':', '=', '+'}
  }

  predicate AllPlain(s: string) {
    forall i :: 0 <= i < |s| ==> IsPlain(s[i])
  }

  function EscapeQuotes(s: string): string {
    if s == [] then []
    else (if s[0] == '\'' then "'\\''" else [s[0]]) + EscapeQuotes(s[1..])
  }

  function ShellQuote(s: string): string {
    "'" + EscapeQuotes(s) + "'"
  }

  function ShellWord(arg: string): string {
    if arg != [] && AllPlain(arg) then arg else ShellQuote(arg)
  }

  /** An argument is passed on as it is exactly if it is not empty and has only letters, digits and seven other
      characters; any other stands between single quotes. */
  lemma BareIfPlain(arg: string)
    ensures ShellWord(arg) == arg <==> |arg| > 0 && forall i :: 0 <= i < |arg| ==> PassesBare(arg[i])
    ensures ShellWord(arg) != arg ==> ShellWord(arg)[0] == '\'' && ShellWord(arg)[|ShellWord(arg)| - 1] == '\''
  {
    EscapedIsNoShorter(arg);
    assert AllPlain(arg) <==> forall i :: 0 <= i < |arg| ==> PassesBare(arg[i]);
  }

  ghost predicate PassesBare(c: char) {
    || 'a' <= c <= 'z' || 'A' <= c <= 'Z' || '0' <= c <= '9'
    || c == '-' || c == '_' || c == '.' || c == '/' || c == ':' || c == '=' || c == '+'
  }

  lemma {:induction false} EscapedIsNoShorter(s: string)
    ensures |EscapeQuotes(s)| >= |s|
  {
    if s != [] {
      EscapedIsNoShorter(s[1..]);
    }
  }

  function ShellJoin(args: seq<string>): string {
    if args == [] then []
    else if |args| == 1 then ShellWord(args[0])
    else ShellWord(args[0]) + " " + ShellJoin(args[1..])
  }

  // ----- the reader: token recognition with backslash and single-quote quoting,
  // ----- sections 2.2.1, 2.2.2 and 2.3 of POSIX.1-2017 Shell Command Language

  datatype Token = Word(text: string) | AndIf

  /** Characters that mean something to the shell when they stand unquoted. The reader gives up on all of
      them but `&&`, so whatever it accepts is free of expansions, redirections and other operators. */
  predicate IsSpecial(c: char) {
    c in {'|', '&', ';', '<', '>', '(', ')', '$', '`', '\"', '\n', '*', '?', '[', ']', '#', '~', '%', '!', '{', '}'}
  }

  function Flush(word: Option<string>): seq<Token> {
    if word.Some? then [Word(word.value)] else []
  }

  function Text(word: Option<string>): string {
    if word.Some? then word.value else []
  }

  function Prepend(tokens: seq<Token>, rest: Option<seq<Token>>): Option<seq<Token>> {
    if rest.Some? then Some(tokens + rest.value) else None
  }

  /** Reads `s` with the current word so far, inside single quotes or not. */
  function Read(s: string, quoted: bool, word: Option<string>): Option<seq<Token>>
    decreases |s|
  {
    if quoted then
      if s == [] then None
      else if s[0] == '\'' then Read(s[1..], false, Some(Text(word)))
      else Read(s[1..], true, Some(Text(word) + [s[0]]))
    else if s == [] then Some(Flush(word))
    else if s[0] == '\\' then
      if |s| == 1 then None
      else if s[1] == '\n' then Read(s[2..], false, word)
      else Read(s[2..], false, Some(Text(word) + [s[1]]))
    else if s[0] == '\'' then Read(s[1..], true, Some(Text(word)))
    else if s[0] == ' ' || s[0] == '\t' then Prepend(Flush(word), Read(s[1..], false, None))
    else if s[0] == '&' && |s| > 1 && s[1] == '&' then Prepend(Flush(word) + [AndIf], Read(s[2..], false, None))
    else if IsSpecial(s[0]) then None
    else Read(s[1..], false, Some(Text(word) + [s[0]]))
  }

  function Tokenize(s: string): Option<seq<Token>> {
    Read(s, false, None)
  }

  function Words(args: seq<string>): seq<Token> {
    seq(|args|, i requires 0 <= i < |args| => Word(args[i]))
  }

  // ----- reading back what was written

  /** A plain character is read as itself. */
  lemma PlainIsOrdinary(c: char)
    requires IsPlain(c)
    ensures !IsSpecial(c) && c != '\\' && c != '\'' && c != ' ' && c != '\t' && c != '&'
  {
  }

  lemma {:induction false} ReadPlain(a: string, rest: string, word: Option<string>)
    requires AllPlain(a)
    ensures Read(a + rest, false, word) == Read(rest, false, if a == [] then word else Some(Text(word) + a))
    decreases |a|
  {
    if a == [] {
      assert a + rest == rest;
    } else {
      assert (a + rest)[0] == a[0] && (a + rest)[1..] == a[1..] + rest;
      PlainIsOrdinary(a[0]);
      var next := Some(Text(word) + [a[0]]);
      assert Read(a + rest, false, word) == Read(a[1..] + rest, false, next);
      ReadPlain(a[1..], rest, next);
      assert Text(word) + [a[0]] + a[1..] == Text(word) + a;
      if a[1..] == [] {
        assert a == [a[0]];
      }
    }
  }

  lemma {:induction false} ReadEscaped(v: string, rest: string, word: string)
    ensures Read(EscapeQuotes(v) + "'" + rest, true, Some(word)) == Read(rest, false, Some(word + v))
    decreases |v|
  {
    if v == [] {
      assert EscapeQuotes(v) + "'" + rest == "'" + rest;
      assert ("'" + rest)[1..] == rest;
      assert word + v == word;
    } else {
      var tail := EscapeQuotes(v[1..]) + "'" + rest;
      ReadEscaped(v[1..], rest, word + [v[0]]);
      assert word + [v[0]] + v[1..] == word + v;
      if v[0] == '\'' {
        assert EscapeQuotes(v) + "'" + rest == "'\\''" + tail;
        ReadEscapedQuote(tail, word);
      } else {
        assert EscapeQuotes(v) + "'" + rest == [v[0]] + tail;
        assert ([v[0]] + tail)[1..] == tail;
      }
    }
  }

  /** A closing quote, an escaped one and an opening one are one literal quote. */
  lemma ReadEscapedQuote(tail: string, word: string)
    ensures Read("'\\''" + tail, true, Some(word)) == Read(tail, true, Some(word + ['\'']))
  {
    var t := "'\\''" + tail;
    assert t[0] == '\'' && t[1..][0] == '\\' && t[1..][1] == '\'' && t[1..][2..][0] == '\'' && t[1..][2..][1..] == tail;
    assert Read(t, true, Some(word)) == Read(t[1..], false, Some(word));
    assert Read(t[1..], false, Some(word)) == Read(t[1..][2..], false, Some(word + ['\'']));
    assert Read(t[1..][2..], false, Some(word + ['\''])) == Read(tail, true, Some(word + ['\'']));
  }

  lemma ReadWord(arg: string, rest: string)
    ensures Read(ShellWord(arg) + rest, false, None) == Read(rest, false, Some(arg))
  {
    if arg != [] && AllPlain(arg) {
      ReadPlain(arg, rest, None);
      assert Text(None) + arg == arg;
    } else {
      ReadQuote(arg, rest);
    }
  }

  lemma ReadQuote(arg: string, rest: string)
    ensures Read(ShellQuote(arg) + rest, false, None) == Read(rest, false, Some(arg))
  {
    var inner := EscapeQuotes(arg) + "'" + rest;
    assert ShellQuote(arg) + rest == "'" + inner;
    assert ("'" + inner)[1..] == inner;
    ReadEscaped(arg, rest, []);
    assert [] + arg == arg;
  }

  lemma TokenizeFirst(arg: string, rest: string)
    ensures Tokenize(ShellWord(arg) + (" " + rest)) == Prepend([Word(arg)], Tokenize(rest))
  {
    var t := " " + rest;
    ReadWord(arg, t);
    assert t[0] == ' ' && t[1..] == rest;
  }

  /** The shell takes a joined argument list apart into exactly the arguments, whatever they contain. */
  lemma {:induction false} JoinRoundTrip(args: seq<string>)
    ensures Tokenize(ShellJoin(args)) == Some(Words(args))
    decreases |args|
  {
    if args == [] {
      assert Words(args) == [];
    } else if |args| == 1 {
      JoinOne(args);
    } else {
      JoinRoundTrip(args[1..]);
      TokenizeFirst(args[0], ShellJoin(args[1..]));
      JoinFirst(args);
      WordsFirst(args);
    }
  }

  lemma JoinOne(args: seq<string>)
    requires |args| == 1
    ensures Tokenize(ShellJoin(args)) == Some(Words(args))
  {
    ReadWord(args[0], []);
    assert ShellWord(args[0]) + [] == ShellWord(args[0]);
    assert Words(args) == [Word(args[0])];
  }

  lemma JoinFirst(args: seq<string>)
    requires |args| > 1
    ensures ShellJoin(args) == ShellWord(args[0]) + (" " + ShellJoin(args[1..]))
  {
  }

  lemma WordsFirst(args: seq<string>)
    requires args != []
    ensures Words(args) == [Word(args[0])] + Words(args[1..])
  {
    assert Words(args) == [Word(args[0])] + Words(args[1..]);
  }

  /** No two argument lists are joined to the same text. */
  lemma JoinIsInjective(a: seq<string>, b: seq<string>)
    requires ShellJoin(a) == ShellJoin(b)
    ensures a == b
  {
    JoinRoundTrip(a);
    JoinRoundTrip(b);
    assert |Words(a)| == |Words(b)|;
    forall i | 0 <= i < |a| ensures a[i] == b[i] {
      assert Words(a)[i] == Words(b)[i];
    }
  }

  // ----- the nested command of a child session

  const TRANSCRIPT_DIR: string := "/var/log/agent-forkd/sessions"

  function TranscriptPath(session: string): string {
    TRANSCRIPT_DIR + "/" + session + ".log"
  }

  /** What the child's shell runs before it becomes the user's command. */
  function Redirection(session: string): string {
    "exec > >(tee -a " + ShellQuote(TranscriptPath(session)) + ") 2>&1; "
  }

  function InnerCommand(session: string, command: seq<string>): string {
    Redirection(session) + "exec " + ShellJoin(command)
  }

  function WrappedCommand(session: string, command: seq<string>): string {
    ShellJoin(["/bin/bash", "-lc", InnerCommand(session, command)])
  }

  /** child_create_command */
  function ChildCreateCommand(session: string, command: seq<string>): string {
    TmuxCall(ShellQuote(session) + " " + ShellQuote(WrappedCommand(session, command)))
  }

  /** `mkdir -p DIRECTORY && tmux new-session -d -s` in front of the session name and command */
  function TmuxCall(arguments: string): string {
    MakeDirectoryThen(TRANSCRIPT_DIR, NewSession(arguments))
  }

  function MakeDirectoryThen(directory: string, call: string): string {
    "mkdir" + " " + ("-p" + " " + (directory + " " + ("&& " + call)))
  }

  function NewSession(arguments: string): string {
    "tmux" + " " + ("new-session" + " " + ("-d" + " " + ("-s" + " " + arguments)))
  }

  lemma ReadPlainWord(a: string, rest: string, tokens: seq<Token>)
    requires AllPlain(a) && a != [] && Read(rest, false, None) == Some(tokens)
    ensures Read(a + " " + rest, false, None) == Some([Word(a)] + tokens)
  {
    assert a + " " + rest == a + (" " + rest);
    ReadPlain(a, " " + rest, None);
    assert Text(None) + a == a;
    assert (" " + rest)[1..] == rest;
  }

  lemma ReadAndIf(rest: string, tokens: seq<Token>)
    requires Read(rest, false, None) == Some(tokens)
    ensures Read("&& " + rest, false, None) == Some([AndIf] + tokens)
  {
    var t := "&& " + rest;
    var u := " " + rest;
    assert t[2..] == u && t[0] == '&' && t[1] == '&';
    assert u[1..] == rest;
    assert Read(u, false, None) == Some(tokens) by {
      assert [] + tokens == tokens;
    }
    assert Read(t, false, None) == Prepend(Flush(None) + [AndIf], Read(u, false, None));
    assert [] + [AndIf] == [AndIf];
  }

  lemma QuotedPair(session: string, wrapped: string)
    ensures Read(ShellQuote(session) + " " + ShellQuote(wrapped), false, None) == Some([Word(session), Word(wrapped)])
  {
    var last := ShellQuote(wrapped);
    assert ShellQuote(session) + " " + last == ShellQuote(session) + (" " + last);
    ReadQuote(session, " " + last);
    assert (" " + last)[1..] == last;
    ReadQuote(wrapped, []);
    assert last + [] == last;
    assert Read(last, false, None) == Some([Word(wrapped)]);
    assert Read(" " + last, false, Some(session)) == Prepend([Word(session)], Read(last, false, None));
    assert [Word(session)] + [Word(wrapped)] == [Word(session), Word(wrapped)];
  }

  /** The words of the tmux call come out one by one. */
  lemma TmuxTokens(arguments: string, tokens: seq<Token>)
    requires Read(arguments, false, None) == Some(tokens)
    ensures Read(NewSession(arguments), false, None)
            == Some([Word("tmux"), Word("new-session"), Word("-d"), Word("-s")] + tokens)
  {
    FourWords("tmux", "new-session", "-d", "-s", arguments, tokens);
  }

  lemma FourWords(a: string, b: string, c: string, d: string, rest: string, tokens: seq<Token>)
    requires AllPlain(a) && a != [] && AllPlain(b) && b != [] && AllPlain(c) && c != [] && AllPlain(d) && d != []
    requires Read(rest, false, None) == Some(tokens)
    ensures Read(a + " " + (b + " " + (c + " " + (d + " " + rest))), false, None)
            == Some([Word(a), Word(b), Word(c), Word(d)] + tokens)
  {
    ReadPlainWord(d, rest, tokens);
    ReadPlainWord(c, d + " " + rest, [Word(d)] + tokens);
    ReadPlainWord(b, c + " " + (d + " " + rest), [Word(c)] + ([Word(d)] + tokens));
    ReadPlainWord(a, b + " " + (c + " " + (d + " " + rest)), [Word(b)] + ([Word(c)] + ([Word(d)] + tokens)));
    FourInFront(Word(a), Word(b), Word(c), Word(d), tokens);
  }

  lemma FourInFront(a: Token, b: Token, c: Token, d: Token, tokens: seq<Token>)
    ensures [a] + ([b] + ([c] + ([d] + tokens))) == [a, b, c, d] + tokens
  {
  }

  /** So do the words in front of it. */
  lemma MkdirTokens(directory: string, call: string, tokens: seq<Token>)
    requires AllPlain(directory) && directory != [] && Read(call, false, None) == Some(tokens)
    ensures Read(MakeDirectoryThen(directory, call), false, None)
            == Some([Word("mkdir"), Word("-p"), Word(directory), AndIf] + tokens)
  {
    ReadAndIf(call, tokens);
    ReadPlainWord(directory, "&& " + call, [AndIf] + tokens);
    var r1, t1 := directory + " " + ("&& " + call), [Word(directory)] + ([AndIf] + tokens);
    ReadPlainWord("-p", r1, t1);
    ReadPlainWord("mkdir", "-p" + " " + r1, [Word("-p")] + t1);
    assert [Word("mkdir")] + ([Word("-p")] + t1)
        == [Word("mkdir"), Word("-p"), Word(directory), AndIf] + tokens;
  }

  lemma OuterTokens(session: string, wrapped: string)
    ensures Tokenize(TmuxCall(ShellQuote(session) + " " + ShellQuote(wrapped)))
            == Some([Word("mkdir"), Word("-p"), Word(TRANSCRIPT_DIR), AndIf] +
                    ([Word("tmux"), Word("new-session"), Word("-d"), Word("-s")] + [Word(session), Word(wrapped)]))
  {
    QuotedPair(session, wrapped);
    var arguments := ShellQuote(session) + " " + ShellQuote(wrapped);
    TmuxTokens(arguments, [Word(session), Word(wrapped)]);
    DirectoryIsPlain();
    MkdirTokens(TRANSCRIPT_DIR, NewSession(arguments),
                [Word("tmux"), Word("new-session"), Word("-d"), Word("-s")] + [Word(session), Word(wrapped)]);
  }

  lemma DirectoryIsPlain()
    ensures AllPlain(TRANSCRIPT_DIR) && TRANSCRIPT_DIR != []
  {
  }

  /** Whatever the session and the command: the outer shell makes the transcripts' directory and has tmux open a
      session of that name; what tmux is given makes a login shell run a text, which sends all output to the
      session's transcript and then becomes the user's command with exactly the user's arguments. */
  lemma NestedRoundTrip(session: string, command: seq<string>)
    returns (wrapped: string, inner: string, transcript: string, last: string)
    ensures Tokenize(ChildCreateCommand(session, command))
            == Some([Word("mkdir"), Word("-p"), Word("/var/log/agent-forkd/sessions"), AndIf,
                     Word("tmux"), Word("new-session"), Word("-d"), Word("-s"), Word(session), Word(wrapped)])
    ensures Tokenize(wrapped) == Some([Word("/bin/bash"), Word("-lc"), Word(inner)])
    ensures inner == "exec > >(tee -a " + transcript + ") 2>&1; " + last
    ensures Tokenize(transcript) == Some([Word("/var/log/agent-forkd/sessions/" + session + ".log")])
    ensures Tokenize(last) == Some([Word("exec")] + Words(command))
  {
    wrapped, inner := WrappedCommand(session, command), InnerCommand(session, command);
    transcript, last := ShellQuote(TranscriptPath(session)), "exec" + " " + ShellJoin(command);
    OuterTokens(session, wrapped);
    TenTokens(Word("mkdir"), Word("-p"), Word(TRANSCRIPT_DIR), AndIf, Word("tmux"), Word("new-session"), Word("-d"),
              Word("-s"), Word(session), Word(wrapped));
    JoinRoundTrip(["/bin/bash", "-lc", inner]);
    assert Words(["/bin/bash", "-lc", inner]) == [Word("/bin/bash"), Word("-lc"), Word(inner)];
    assert inner == "exec > >(tee -a " + transcript + ") 2>&1; " + last;
    TranscriptToken(session);
    JoinRoundTrip(command);
    ReadPlainWord("exec", ShellJoin(command), Words(command));
  }

  lemma TenTokens(a: Token, b: Token, c: Token, d: Token, e: Token, f: Token, g: Token, h: Token, i: Token, j: Token)
    ensures [a, b, c, d] + ([e, f, g, h] + [i, j]) == [a, b, c, d, e, f, g, h, i, j]
  {
  }

  lemma TranscriptToken(session: string)
    ensures Tokenize(ShellQuote(TranscriptPath(session)))
            == Some([Word("/var/log/agent-forkd/sessions/" + session + ".log")])
  {
    var path := TranscriptPath(session);
    ReadQuote(path, []);
    assert ShellQuote(path) + [] == ShellQuote(path);
    assert path == "/var/log/agent-forkd/sessions/" + session + ".log";
  }
}
