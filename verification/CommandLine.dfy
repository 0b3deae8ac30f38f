/**
 The Windows command-line printer of services/elevation.go (buildArgString, quoteWindowsArg) and its
 partner: the splitter of the C runtime, written from the rules of Microsoft's "Parsing C++
 Command-Line Arguments" (C language reference, for the arguments after the program name).
 */
module CommandLine {

  const NUL := '\0'

  /** n backslashes. */
  function Slashes(n: nat): string {
    seq(n, _ => '\\')
  }

  // ----- the printer -----

  predicate NeedsQuotes(arg: string) {
    arg == "" || exists c | c in arg :: c in " \t\n\U{000B}\""
  }

  /** The quoted text of the rest of an argument after n backslashes not yet written, with the closing
      quote. */
  function QuoteRest(rest: string, n: nat): string {
    if rest == "" then Slashes(2 * n) + "\""
    else if rest[0] == '\\' then QuoteRest(rest[1..], n + 1)
    else if rest[0] == '"' then Slashes(2 * n + 1) + "\"" + QuoteRest(rest[1..], 0)
    else Slashes(n) + [rest[0]] + QuoteRest(rest[1..], 0)
  }

  function Quote(arg: string): string {
    if NeedsQuotes(arg) then "\"" + QuoteRest(arg, 0) else arg
  }

  method QuoteWindowsArg(arg: string) returns (text: string)
    ensures text == Quote(arg)
  {
    if arg != "" && !NeedsQuotes(arg) {
      return arg;
    }
    text := "\"";
    var backslashes := 0;
    for i := 0 to |arg|
      invariant text + QuoteRest(arg[i..], backslashes) == "\"" + QuoteRest(arg, 0)
    {
      ghost var before, pending := text, backslashes;
      var c := arg[i];
      assert arg[i..][1..] == arg[i + 1..];
      if c == '\\' {
        backslashes := backslashes + 1;
      } else if c == '"' {
        text := text + Slashes(backslashes * 2 + 1);
        text := text + "\"";
        backslashes := 0;
        assert text + QuoteRest(arg[i + 1..], 0) == before + QuoteRest(arg[i..], pending);
      } else {
        text := text + Slashes(backslashes);
        backslashes := 0;
        text := text + [c];
        assert text + QuoteRest(arg[i + 1..], 0) == before + QuoteRest(arg[i..], pending);
      }
    }
    text := text + Slashes(backslashes * 2);
    text := text + "\"";
  }

  /** The command line from argument i on, with the space that precedes it. */
  function RenderFrom(args: seq<string>, i: nat): string
    requires i <= |args|
    decreases |args| - i
  {
    if i == |args| then ""
    else (if i > 0 then " " else "") + Quote(args[i]) + RenderFrom(args, i + 1)
  }

  function Render(args: seq<string>): string {
    RenderFrom(args, 0)
  }

  method BuildArgString(args: seq<string>) returns (text: string)
    ensures text == Render(args)
  {
    text := "";
    for i := 0 to |args|
      invariant text + RenderFrom(args, i) == Render(args)
    {
      RenderStep(text, args, i);
      if i > 0 {
        text := text + " ";
      }
      var quoted := QuoteWindowsArg(args[i]);
      text := text + quoted;
    }
  }

  lemma RenderStep(text: string, args: seq<string>, i: nat)
    requires i < |args|
    ensures text + RenderFrom(args, i) ==
            (if i > 0 then text + " " else text) + Quote(args[i]) + RenderFrom(args, i + 1)
  {
    var q, rest := Quote(args[i]), RenderFrom(args, i + 1);
    if i > 0 {
      assert text + (" " + q + rest) == text + " " + q + rest;
    } else {
      assert text + ("" + q + rest) == text + q + rest;
    }
  }

  // ----- the splitter -----

  predicate Blank(c: char) {
    c == ' ' || c == '\t'
  }

  predicate AtEnd(s: string) {
    s == "" || s[0] == NUL
  }

  function SkipBlanks(s: string): (t: string)
    ensures |t| <= |s|
    ensures t == "" || !Blank(t[0])
  {
    if s != "" && Blank(s[0]) then SkipBlanks(s[1..]) else s
  }

  /** Reads one argument; n backslashes have been seen and not yet written. 2n backslashes and a quote
      stand for n backslashes and a delimiter, 2n+1 backslashes and a quote for n backslashes and a
      quote, other backslashes for themselves; inside quotes a doubled quote stands for one. An
      unquoted blank or the end of the text ends the argument. */
  function ReadArg(s: string, quoted: bool, n: nat, read: string): (r: (string, string))
    ensures |r.1| <= |s|
    decreases |s|
  {
    if AtEnd(s) then (read + Slashes(n), s)
    else if s[0] == '\\' then ReadArg(s[1..], quoted, n + 1, read)
    else if s[0] == '"' then
      if n % 2 == 1 then ReadArg(s[1..], quoted, 0, read + Slashes(n / 2) + "\"")
      else if quoted && |s| > 1 && s[1] == '"' then ReadArg(s[2..], quoted, 0, read + Slashes(n / 2) + "\"")
      else ReadArg(s[1..], !quoted, 0, read + Slashes(n / 2))
    else if !quoted && Blank(s[0]) then (read + Slashes(n), s)
    else ReadArg(s[1..], quoted, 0, read + Slashes(n) + [s[0]])
  }

  lemma ReadArgAdvances(s: string)
    requires !AtEnd(s) && !Blank(s[0])
    ensures |ReadArg(s, false, 0, "").1| < |s|
  {
  }

  function Split(s: string): seq<string>
    decreases |s|
  {
    var t := SkipBlanks(s);
    if AtEnd(t) then []
    else
      ReadArgAdvances(t);
      var (arg, rest) := ReadArg(t, false, 0, "");
      [arg] + Split(rest)
  }

  // ----- the round trip -----

  predicate NulFree(arg: string) {
    NUL !in arg
  }

  /** What may follow a printed argument: nothing, or the separating space. */
  predicate Separated(rest: string) {
    rest == "" || rest[0] == ' '
  }

  lemma {:induction false} ReadSlashes(k: nat, s: string, quoted: bool, n: nat, read: string)
    ensures ReadArg(Slashes(k) + s, quoted, n, read) == ReadArg(s, quoted, n + k, read)
  {
    if k == 0 {
      assert Slashes(0) + s == s;
    } else {
      assert (Slashes(k) + s)[1..] == Slashes(k - 1) + s;
      ReadSlashes(k - 1, s, quoted, n + 1, read);
    }
  }

  /** How many backslashes are printed before a character that n of them precede. */
  function SlashesBefore(c: char, n: nat): nat {
    if c == '"' then 2 * n + 1 else n
  }

  lemma QuoteRestOfChar(arg: string, n: nat, rest: string)
    requires arg != "" && arg[0] != '\\'
    ensures QuoteRest(arg, n) + rest == Slashes(SlashesBefore(arg[0], n)) + ([arg[0]] + (QuoteRest(arg[1..], 0) + rest))
  {
    var slashes, tail := Slashes(SlashesBefore(arg[0], n)), QuoteRest(arg[1..], 0);
    assert QuoteRest(arg, n) == slashes + [arg[0]] + tail;
    assert slashes + [arg[0]] + tail + rest == slashes + ([arg[0]] + (tail + rest));
  }

  /** One character of an argument, as it is printed inside quotes. */
  lemma ReadPrinted(arg: string, n: nat, rest: string, read: string)
    requires arg != "" && arg[0] != NUL
    ensures var c := arg[0];
            ReadArg(QuoteRest(arg, n) + rest, true, 0, read) ==
            if c == '\\' then ReadArg(QuoteRest(arg[1..], n + 1) + rest, true, 0, read)
            else ReadArg(QuoteRest(arg[1..], 0) + rest, true, 0, read + Slashes(n) + [c])
  {
    var c, tail := arg[0], QuoteRest(arg[1..], 0) + rest;
    if c != '\\' {
      QuoteRestOfChar(arg, n, rest);
      ReadSlashes(SlashesBefore(c, n), [c] + tail, true, 0, read);
      ReadAfterSlashes(c, tail, n, read);
    }
  }

  lemma ReadAfterSlashes(c: char, tail: string, n: nat, read: string)
    requires c != NUL && c != '\\'
    ensures ReadArg([c] + tail, true, SlashesBefore(c, n), read) == ReadArg(tail, true, 0, read + Slashes(n) + [c])
  {
    assert ([c] + tail)[1..] == tail;
    assert (2 * n + 1) / 2 == n;
  }

  /** The closing quote, at the end of the line or before a space. */
  lemma ReadClosing(n: nat, rest: string, read: string)
    requires Separated(rest)
    ensures ReadArg(Slashes(2 * n) + "\"" + rest, true, 0, read) == (read + Slashes(n), rest)
  {
    var t := "\"" + rest;
    assert Slashes(2 * n) + "\"" + rest == Slashes(2 * n) + t;
    ReadSlashes(2 * n, t, true, 0, read);
    assert t[1..] == rest;
    assert ReadArg(t, true, 2 * n, read) == ReadArg(rest, false, 0, read + Slashes(n));
    assert read + Slashes(n) + Slashes(0) == read + Slashes(n);
  }

  /** Inside quotes, the printed text of an argument reads back as the argument. */
  lemma {:induction false} ReadQuoted(arg: string, n: nat, rest: string, read: string)
    requires NulFree(arg) && Separated(rest)
    ensures ReadArg(QuoteRest(arg, n) + rest, true, 0, read) == (read + Slashes(n) + arg, rest)
    decreases |arg|
  {
    if arg == "" {
      ReadClosing(n, rest, read);
      assert read + Slashes(n) + arg == read + Slashes(n);
    } else {
      ReadPrinted(arg, n, rest, read);
      var c, more := arg[0], arg[1..];
      var read' := if c == '\\' then read else read + Slashes(n) + [c];
      var n' := if c == '\\' then n + 1 else 0;
      ReadQuoted(more, n', rest, read');
      assert read' + Slashes(n') + more == read + Slashes(n) + arg;
    }
  }

  /** An argument printed without quotes reads back as itself. */
  lemma {:induction false} ReadPlain(arg: string, rest: string, n: nat, read: string)
    requires NulFree(arg) && Separated(rest)
    requires forall c | c in arg :: !Blank(c) && c != '"'
    ensures ReadArg(arg + rest, false, n, read) == (read + Slashes(n) + arg, rest)
    decreases |arg|
  {
    if arg == "" {
      assert arg + rest == rest && read + Slashes(n) + arg == read + Slashes(n);
    } else {
      var c, more := arg[0], arg[1..];
      assert c in arg && (arg + rest)[1..] == more + rest;
      var read' := if c == '\\' then read else read + Slashes(n) + [c];
      var n' := if c == '\\' then n + 1 else 0;
      ReadPlain(more, rest, n', read');
      assert read' + Slashes(n') + more == read + Slashes(n) + arg;
    }
  }

  lemma ReadOne(arg: string, rest: string)
    requires NulFree(arg) && Separated(rest)
    ensures Quote(arg) != "" && Quote(arg)[0] != NUL && !Blank(Quote(arg)[0])
    ensures ReadArg(Quote(arg) + rest, false, 0, "") == (arg, rest)
  {
    assert "" + Slashes(0) + arg == arg;
    if NeedsQuotes(arg) {
      var tail := QuoteRest(arg, 0) + rest;
      assert Quote(arg) + rest == "\"" + tail;
      assert ("\"" + tail)[1..] == tail && "" + Slashes(0) == "";
      ReadQuoted(arg, 0, rest, "");
    } else {
      var special := " \t\n\U{000B}\"";
      assert ' ' == special[0] && '\t' == special[1] && '"' == special[4];
      assert forall c | c in arg :: c !in special;
      assert arg[0] in arg;
      ReadPlain(arg, rest, 0, "");
    }
  }

  lemma SplitOne(arg: string, rest: string, blank: string)
    requires NulFree(arg) && Separated(rest) && (blank == "" || blank == " ")
    ensures Split(blank + Quote(arg) + rest) == [arg] + Split(rest)
  {
    ReadOne(arg, rest);
    var text := Quote(arg) + rest;
    assert blank + Quote(arg) + rest == blank + text;
    if blank == " " {
      assert (blank + text)[1..] == text;
    } else {
      assert blank + text == text;
    }
    assert SkipBlanks(blank + text) == text;
  }

  lemma {:induction false} SplitRenderFrom(args: seq<string>, i: nat)
    requires i <= |args| && forall a | a in args :: NulFree(a)
    ensures i > 0 ==> Separated(RenderFrom(args, i))
    ensures Split(RenderFrom(args, i)) == args[i..]
    decreases |args| - i
  {
    if i < |args| {
      SplitRenderFrom(args, i + 1);
      SplitOne(args[i], RenderFrom(args, i + 1), if i > 0 then " " else "");
      assert args[i..] == [args[i]] + args[i + 1..];
    }
  }

  lemma {:induction false} ReadsNoNul(s: string, quoted: bool, n: nat, read: string)
    requires NulFree(read)
    ensures NulFree(ReadArg(s, quoted, n, read).0)
    decreases |s|
  {
    if AtEnd(s) {
    } else if s[0] == '\\' {
      ReadsNoNul(s[1..], quoted, n + 1, read);
    } else if s[0] == '"' {
      if n % 2 == 1 {
        ReadsNoNul(s[1..], quoted, 0, read + Slashes(n / 2) + "\"");
      } else if quoted && |s| > 1 && s[1] == '"' {
        ReadsNoNul(s[2..], quoted, 0, read + Slashes(n / 2) + "\"");
      } else {
        ReadsNoNul(s[1..], !quoted, 0, read + Slashes(n / 2));
      }
    } else if !quoted && Blank(s[0]) {
    } else {
      ReadsNoNul(s[1..], quoted, 0, read + Slashes(n) + [s[0]]);
    }
  }

  lemma {:induction false} SplitsToNulFree(s: string)
    ensures forall a | a in Split(s) :: NulFree(a)
    decreases |s|
  {
    var t := SkipBlanks(s);
    if !AtEnd(t) {
      ReadArgAdvances(t);
      var (arg, rest) := ReadArg(t, false, 0, "");
      ReadsNoNul(t, false, 0, "");
      SplitsToNulFree(rest);
    }
  }

  /** The C runtime splits the printed command line back into the arguments, if and only if none of
      them contains a NUL. */
  lemma RoundTrip(args: seq<string>)
    ensures Split(Render(args)) == args <==> forall a | a in args :: NulFree(a)
  {
    if forall a | a in args :: NulFree(a) {
      SplitRenderFrom(args, 0);
      assert args[0..] == args;
    } else {
      SplitsToNulFree(Render(args));
    }
  }

  /** An argument is left as it is if and only if it is not empty and holds no blank, line end or quote. */
  lemma QuotedIff(arg: string)
    ensures Quote(arg) == arg <==> arg != "" && forall c | c in arg :: c !in " \t\n\U{0B}\""
  {
    if NeedsQuotes(arg) {
      QuoteGrows(arg, 0);
    }
  }

  lemma {:induction false} QuoteGrows(rest: string, n: nat)
    ensures |QuoteRest(rest, n)| > |rest| + n
  {
    if rest != "" {
      QuoteGrows(rest[1..], if rest[0] == '\\' then n + 1 else 0);
    }
  }
}
