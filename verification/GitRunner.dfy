/**
 Command lines. Quote writes an argument so that the Microsoft C runtime's rules ("Parsing C command-line arguments") read
 it back; the command line of a whole argument list is read back as that list.
 */
module GitRunner {
  import opened Utf16
  import opened Wrappers
  import opened Sequences

  predicate IsBlank(u: Unit) {
    u == SPACE || u == TAB
  }

  predicate HasBlank(s: Text) {
    exists i :: 0 <= i < |s| && IsBlank(s[i])
  }

  function Slashes(n: nat): (s: Text)
    ensures |s| == n
  {
    if n == 0 then [] else [BACKSLASH] + Slashes(n - 1)
  }

  lemma {:induction false} SlashesJoin(m: nat, n: nat)
    ensures Slashes(m) + Slashes(n) == Slashes(m + n)
  {
    if m == 0 {
      assert [] + Slashes(n) == Slashes(n);
    } else {
      SlashesJoin(m - 1, n);
      assert Slashes(m) + Slashes(n) == [BACKSLASH] + (Slashes(m - 1) + Slashes(n));
    }
  }

  lemma {:induction false} OneMore(n: nat)
    ensures Slashes(n) + [BACKSLASH] == Slashes(n + 1)
  {
    assert Slashes(1) == [BACKSLASH] + Slashes(0);
    SlashesJoin(n, 1);
  }

  // ----- Quoting

  /** What the loop appends for the rest of an argument after `backslashes` of them, with the closing quote. */
  function Escaped(s: Text, backslashes: nat): Text
    decreases |s|
  {
    if s == [] then Slashes(backslashes * 2) + [QUOTE]
    else if s[0] == BACKSLASH then Escaped(s[1..], backslashes + 1)
    else Slashes(if s[0] == QUOTE then backslashes * 2 + 1 else backslashes) + ([s[0]] + Escaped(s[1..], 0))
  }

  function Quoted(argument: Text): Text {
    if argument == [] then [QUOTE, QUOTE]
    else if !HasBlank(argument) && QUOTE !in argument then argument
    else if QUOTE !in argument && BACKSLASH !in argument then [QUOTE] + (argument + [QUOTE])
    else [QUOTE] + Escaped(argument, 0)
  }

  method Quote(argument: Text) returns (r: Text)
    ensures r == Quoted(argument)
  {
    if |argument| == 0 { return [QUOTE, QUOTE]; }
    if !HasBlank(argument) && QUOTE !in argument { return argument; }
    if QUOTE !in argument && BACKSLASH !in argument { return [QUOTE] + (argument + [QUOTE]); }
    var quoted := [QUOTE];
    var backslashes := 0;
    assert argument[0..] == argument;
    for i := 0 to |argument|
      invariant backslashes >= 0
      invariant quoted + Escaped(argument[i..], backslashes) == [QUOTE] + Escaped(argument, 0)
    {
      var character := argument[i];
      ghost var rest := argument[i + 1..];
      assert argument[i..][1..] == rest;
      if character == BACKSLASH {
        backslashes := backslashes + 1;
        continue;
      }
      var slashes := Slashes(if character == QUOTE then backslashes * 2 + 1 else backslashes);
      Associate(quoted, slashes, [character] + Escaped(rest, 0));
      Associate(quoted + slashes, [character], Escaped(rest, 0));
      quoted := quoted + slashes + [character];
      backslashes := 0;
    }
    assert argument[|argument|..] == [];
    Associate(quoted, Slashes(backslashes * 2), [QUOTE]);
    return quoted + Slashes(backslashes * 2) + [QUOTE];
  }

  /** string.Join(' ', ...) of the quoted arguments, each after a space. */
  function Spaced(arguments: seq<Text>): Text {
    if arguments == [] then [] else [SPACE] + (Quoted(arguments[0]) + Spaced(arguments[1..]))
  }

  /** The command line; nothing when an argument holds a NUL character, which the source refuses. */
  function CommandLine(application: Text, arguments: seq<Text>): Option<Text> {
    if exists i :: 0 <= i < |arguments| && NUL in arguments[i] then None
    else Some(Quoted(application) + Spaced(arguments))
  }

  method Command(application: Text, arguments: seq<Text>) returns (r: Option<Text>)
    ensures r == CommandLine(application, arguments)
  {
    for i := 0 to |arguments|
      invariant forall k :: 0 <= k < i ==> NUL !in arguments[k]
    {
      if NUL in arguments[i] { return None; }
    }
    var line := Quote(application);
    assert arguments[0..] == arguments;
    for i := 0 to |arguments|
      invariant line + Spaced(arguments[i..]) == Quoted(application) + Spaced(arguments)
    {
      var quoted := Quote(arguments[i]);
      assert arguments[i..][1..] == arguments[i + 1..];
      Associate(line, [SPACE], quoted + Spaced(arguments[i + 1..]));
      Associate(line + [SPACE], quoted, Spaced(arguments[i + 1..]));
      line := line + [SPACE] + quoted;
    }
    assert arguments[|arguments|..] == [] && line + [] == line;
    return Some(line);
  }

  // ----- The rules of the C runtime

  /** One argument from `s`, in quotes or not, after `argument` and so many backslashes: the argument and what follows it.
      With `doubled`, two quotes inside quotes are a quote, as in newer versions of the runtime. */
  function Scan(doubled: bool, s: Text, quoted: bool, argument: Text, backslashes: nat): (Text, Text)
    decreases |s|
  {
    if s == [] then (argument + Slashes(backslashes), [])
    else if s[0] == BACKSLASH then Scan(doubled, s[1..], quoted, argument, backslashes + 1)
    else if s[0] == QUOTE then
      if backslashes % 2 == 1 then Scan(doubled, s[1..], quoted, argument + Slashes(backslashes / 2) + [QUOTE], 0)
      else if doubled && quoted && |s| > 1 && s[1] == QUOTE then
        Scan(doubled, s[2..], true, argument + Slashes(backslashes / 2) + [QUOTE], 0)
      else Scan(doubled, s[1..], !quoted, argument + Slashes(backslashes / 2), 0)
    else if IsBlank(s[0]) && !quoted then (argument + Slashes(backslashes), s)
    else Scan(doubled, s[1..], quoted, argument + Slashes(backslashes) + [s[0]], 0)
  }

  lemma {:induction false} ScanShrinks(doubled: bool, s: Text, quoted: bool, argument: Text, backslashes: nat)
    ensures |Scan(doubled, s, quoted, argument, backslashes).1| <= |s|
    ensures s != [] && !IsBlank(s[0]) ==> |Scan(doubled, s, quoted, argument, backslashes).1| < |s|
    decreases |s|
  {
    if s != [] {
      if s[0] == BACKSLASH {
        ScanShrinks(doubled, s[1..], quoted, argument, backslashes + 1);
      } else if s[0] == QUOTE {
        ScanShrinks(doubled, s[1..], quoted, argument + Slashes(backslashes / 2) + [QUOTE], 0);
        ScanShrinks(doubled, s[1..], !quoted, argument + Slashes(backslashes / 2), 0);
        if |s| > 1 {
          ScanShrinks(doubled, s[2..], true, argument + Slashes(backslashes / 2) + [QUOTE], 0);
        }
      } else if !(IsBlank(s[0]) && !quoted) {
        ScanShrinks(doubled, s[1..], quoted, argument + Slashes(backslashes) + [s[0]], 0);
      }
    }
  }

  /** The arguments after argv[0]. */
  function Arguments(doubled: bool, s: Text): seq<Text>
    decreases |s|
  {
    if s == [] then []
    else if IsBlank(s[0]) then Arguments(doubled, s[1..])
    else
      var (argument, rest) := Scan(doubled, s, false, [], 0);
      ScanShrinks(doubled, s, false, [], 0);
      [argument] + Arguments(doubled, rest)
  }

  /** argv[0]: quotes only group, and backslashes are themselves. */
  function ScanFirst(s: Text, quoted: bool): (Text, Text) {
    if s == [] then ([], [])
    else if s[0] == QUOTE then ScanFirst(s[1..], !quoted)
    else if IsBlank(s[0]) && !quoted then ([], s)
    else
      var (first, rest) := ScanFirst(s[1..], quoted);
      ([s[0]] + first, rest)
  }

  // ----- Arguments are read back

  /** What may follow an argument: nothing, or a blank. */
  predicate Ends(tail: Text) {
    tail == [] || IsBlank(tail[0])
  }

  lemma {:induction false} ScanSlashes(doubled: bool, n: nat, s: Text, quoted: bool, argument: Text, m: nat)
    ensures Scan(doubled, Slashes(n) + s, quoted, argument, m) == Scan(doubled, s, quoted, argument, m + n)
  {
    if n == 0 {
      assert Slashes(0) + s == s;
    } else {
      var t := Slashes(n) + s;
      assert t[0] == BACKSLASH && t[1..] == Slashes(n - 1) + s;
      ScanSlashes(doubled, n - 1, s, quoted, argument, m + 1);
    }
  }

  lemma {:induction false} ScanEnd(doubled: bool, tail: Text, argument: Text, m: nat)
    requires Ends(tail)
    ensures Scan(doubled, tail, false, argument, m) == (argument + Slashes(m), tail)
  {
  }

  /** A closing quote after an even run of backslashes. */
  lemma {:induction false} ScanClose(doubled: bool, tail: Text, argument: Text, k: nat)
    requires Ends(tail)
    ensures Scan(doubled, Slashes(k * 2) + ([QUOTE] + tail), true, argument, 0) == (argument + Slashes(k), tail)
  {
    var s := [QUOTE] + tail;
    ScanSlashes(doubled, k * 2, s, true, argument, 0);
    assert s[1..] == tail && (|s| > 1 ==> s[1] == tail[0]);
    assert Slashes(k) + Slashes(0) == Slashes(k);
    ScanEnd(doubled, tail, argument + Slashes(k), 0);
    assert (argument + Slashes(k)) + Slashes(0) == argument + Slashes(k);
  }

  lemma {:induction false} ScanPlain(doubled: bool, u: Unit, n: nat, s: Text, argument: Text)
    requires u != BACKSLASH && u != QUOTE
    ensures Scan(doubled, Slashes(n) + ([u] + s), true, argument, 0) == Scan(doubled, s, true, argument + Slashes(n) + [u], 0)
  {
    ScanSlashes(doubled, n, [u] + s, true, argument, 0);
    assert ([u] + s)[1..] == s;
  }

  lemma {:induction false} ScanQuote(doubled: bool, k: nat, s: Text, argument: Text)
    ensures Scan(doubled, Slashes(k * 2 + 1) + ([QUOTE] + s), true, argument, 0)
         == Scan(doubled, s, true, argument + Slashes(k) + [QUOTE], 0)
  {
    ScanSlashes(doubled, k * 2 + 1, [QUOTE] + s, true, argument, 0);
    assert ([QUOTE] + s)[1..] == s;
    assert (k * 2 + 1) % 2 == 1 && (k * 2 + 1) / 2 == k;
  }

  lemma {:induction false} EscapedThen(s: Text, k: nat, tail: Text)
    requires s != [] && s[0] != BACKSLASH
    ensures Escaped(s, k) + tail
         == Slashes(if s[0] == QUOTE then k * 2 + 1 else k) + ([s[0]] + (Escaped(s[1..], 0) + tail))
  {
    var slashes := Slashes(if s[0] == QUOTE then k * 2 + 1 else k);
    Associate([s[0]], Escaped(s[1..], 0), tail);
    Associate(slashes, [s[0]] + Escaped(s[1..], 0), tail);
  }

  lemma {:induction false} Regroup(argument: Text, slashes: Text, u: Unit, rest: Text)
    ensures (argument + slashes + [u]) + rest == argument + (slashes + ([u] + rest))
  {
  }

  /** Inside quotes, the escaped rest of an argument is read as that rest. */
  lemma {:induction false} ScanEscaped(doubled: bool, s: Text, k: nat, tail: Text, argument: Text)
    requires Ends(tail)
    ensures Scan(doubled, Escaped(s, k) + tail, true, argument, 0) == (argument + (Slashes(k) + s), tail)
    decreases |s|
  {
    if s == [] {
      Associate(Slashes(k * 2), [QUOTE], tail);
      ScanClose(doubled, tail, argument, k);
      assert Slashes(k) + [] == Slashes(k);
    } else if s[0] == BACKSLASH {
      ScanEscaped(doubled, s[1..], k + 1, tail, argument);
      OneMore(k);
      Associate(Slashes(k), [BACKSLASH], s[1..]);
      assert s == [BACKSLASH] + s[1..];
    } else {
      var rest := Escaped(s[1..], 0) + tail;
      var next := argument + Slashes(k) + [s[0]];
      EscapedThen(s, k, tail);
      if s[0] == QUOTE {
        ScanQuote(doubled, k, rest, argument);
      } else {
        ScanPlain(doubled, s[0], k, rest, argument);
      }
      ScanEscaped(doubled, s[1..], 0, tail, next);
      assert Slashes(0) + s[1..] == s[1..];
      Regroup(argument, Slashes(k), s[0], s[1..]);
      assert s == [s[0]] + s[1..];
    }
  }

  /** Without quotes, an argument without blanks is read as itself. */
  lemma {:induction false} ScanBare(doubled: bool, s: Text, tail: Text, argument: Text, m: nat)
    requires Ends(tail) && forall i :: 0 <= i < |s| ==> !IsBlank(s[i]) && s[i] != QUOTE
    ensures Scan(doubled, s + tail, false, argument, m) == (argument + (Slashes(m) + s), tail)
    decreases |s|
  {
    var t := s + tail;
    if s == [] {
      assert t == tail;
      ScanEnd(doubled, tail, argument, m);
      assert Slashes(m) + [] == Slashes(m);
    } else {
      assert t[0] == s[0] && t[1..] == s[1..] + tail;
      assert s == [s[0]] + s[1..];
      if s[0] == BACKSLASH {
        ScanBare(doubled, s[1..], tail, argument, m + 1);
        OneMore(m);
        Associate(Slashes(m), [BACKSLASH], s[1..]);
      } else {
        ScanBare(doubled, s[1..], tail, argument + Slashes(m) + [s[0]], 0);
        assert Slashes(0) + s[1..] == s[1..];
        Regroup(argument, Slashes(m), s[0], s[1..]);
      }
    }
  }

  /** An argument without backslashes and quotes is escaped as itself. */
  lemma {:induction false} EscapedPlain(s: Text)
    requires QUOTE !in s && BACKSLASH !in s
    ensures Escaped(s, 0) == s + [QUOTE]
  {
    if s == [] {
      assert Slashes(0) + [QUOTE] == [QUOTE];
    } else {
      assert s[0] in s;
      EscapedPlain(s[1..]);
      assert Slashes(0) + ([s[0]] + (s[1..] + [QUOTE])) == s + [QUOTE];
    }
  }

  /** Quoting in the three forms that begin with a quote is one form. */
  lemma {:induction false} QuotedIsEscaped(argument: Text)
    requires argument == [] || HasBlank(argument) || QUOTE in argument
    ensures Quoted(argument) == [QUOTE] + Escaped(argument, 0)
  {
    if QUOTE !in argument && BACKSLASH !in argument {
      EscapedPlain(argument);
      assert argument == [] ==> [QUOTE] + (argument + [QUOTE]) == [QUOTE, QUOTE];
    }
  }

  lemma {:induction false} ScanInQuotes(doubled: bool, argument: Text, tail: Text)
    requires Ends(tail)
    ensures Scan(doubled, [QUOTE] + (Escaped(argument, 0) + tail), false, [], 0) == (argument, tail)
  {
    var inner := Escaped(argument, 0) + tail;
    assert ([QUOTE] + inner)[1..] == inner;
    assert [] + Slashes(0) == [];
    ScanEscaped(doubled, argument, 0, tail, []);
    assert [] + (Slashes(0) + argument) == argument;
  }

  /** One quoted argument is read back. */
  lemma {:induction false} ScanQuoted(doubled: bool, argument: Text, tail: Text)
    requires Ends(tail)
    ensures Scan(doubled, Quoted(argument) + tail, false, [], 0) == (argument, tail)
  {
    if argument == [] || HasBlank(argument) || QUOTE in argument {
      QuotedIsEscaped(argument);
      Associate([QUOTE], Escaped(argument, 0), tail);
      ScanInQuotes(doubled, argument, tail);
    } else {
      ScanBare(doubled, argument, tail, [], 0);
      assert [] + (Slashes(0) + argument) == argument;
    }
  }

  lemma {:induction false} QuotedStarts(argument: Text)
    ensures Quoted(argument) != [] && !IsBlank(Quoted(argument)[0])
  {
  }

  lemma {:induction false} ArgumentsStep(doubled: bool, s: Text, argument: Text, rest: Text)
    requires s != [] && !IsBlank(s[0]) && Scan(doubled, s, false, [], 0) == (argument, rest)
    ensures Arguments(doubled, [SPACE] + s) == [argument] + Arguments(doubled, rest)
  {
    assert ([SPACE] + s)[1..] == s;
  }

  /** The joined arguments are read back, by the rules of either version. */
  lemma {:induction false} ArgumentsReadBack(doubled: bool, arguments: seq<Text>)
    ensures Arguments(doubled, Spaced(arguments)) == arguments
    decreases |arguments|
  {
    if arguments != [] {
      var rest := Spaced(arguments[1..]);
      var s := Quoted(arguments[0]) + rest;
      QuotedStarts(arguments[0]);
      assert s[0] == Quoted(arguments[0])[0];
      ScanQuoted(doubled, arguments[0], rest);
      ArgumentsStep(doubled, s, arguments[0], rest);
      ArgumentsReadBack(doubled, arguments[1..]);
      assert arguments == [arguments[0]] + arguments[1..];
    }
  }

  // ----- argv[0]

  predicate EndsWithBackslash(s: Text) {
    s != [] && s[|s| - 1] == BACKSLASH
  }

  /** An application whose quoted form the rule for argv[0] reads back: no quote, and no blank before a last backslash. */
  predicate IsRunnable(application: Text) {
    QUOTE !in application && !(HasBlank(application) && EndsWithBackslash(application))
  }

  lemma {:induction false} FirstBare(s: Text, tail: Text)
    requires Ends(tail) && QUOTE !in s && !HasBlank(s)
    ensures ScanFirst(s + tail, false) == (s, tail)
  {
    if s == [] {
      assert s + tail == tail;
    } else {
      assert (s + tail)[0] == s[0] && (s + tail)[1..] == s[1..] + tail;
      assert s[0] in s && !IsBlank(s[0]);
      assert s == [s[0]] + s[1..];
      assert forall i :: 0 <= i < |s[1..]| ==> s[1..][i] == s[i + 1];
      FirstBare(s[1..], tail);
    }
  }

  lemma {:induction false} FirstInQuotes(s: Text, tail: Text)
    requires Ends(tail) && QUOTE !in s
    ensures ScanFirst(s + ([QUOTE] + tail), true) == (s, tail)
  {
    var t := s + ([QUOTE] + tail);
    if s == [] {
      assert t[0] == QUOTE && t[1..] == tail;
    } else {
      assert t[0] == s[0] && t[1..] == s[1..] + ([QUOTE] + tail);
      assert s[0] in s && s == [s[0]] + s[1..];
      FirstInQuotes(s[1..], tail);
    }
  }

  /** Without quotes, only the backslashes at the end are doubled. */
  lemma {:induction false} EscapedNoQuote(s: Text, k: nat)
    requires QUOTE !in s
    ensures Escaped(s, k) == Slashes(k) + (s + (Slashes(Trailing(s, k)) + [QUOTE]))
    decreases |s|
  {
    if s == [] {
      SlashesJoin(k, k);
      Associate(Slashes(k), Slashes(k), [QUOTE]);
      assert s + (Slashes(k) + [QUOTE]) == Slashes(k) + [QUOTE];
    } else {
      var end := Slashes(Trailing(s, k)) + [QUOTE];
      assert s[0] in s;
      assert s == [s[0]] + s[1..];
      Associate([s[0]], s[1..], end);
      if s[0] == BACKSLASH {
        EscapedNoQuote(s[1..], k + 1);
        OneMore(k);
        Associate(Slashes(k), [BACKSLASH], s[1..] + end);
      } else {
        EscapedNoQuote(s[1..], 0);
        assert Slashes(0) + (s[1..] + end) == s[1..] + end;
      }
    }
  }

  /** How many backslashes come last, after `k` of them. */
  function Trailing(s: Text, k: nat): nat
    decreases |s|
  {
    if s == [] then k else if s[0] == BACKSLASH then Trailing(s[1..], k + 1) else Trailing(s[1..], 0)
  }

  lemma {:induction false} TrailingZero(s: Text, k: nat)
    ensures Trailing(s, k) == 0 <==> if s == [] then k == 0 else !EndsWithBackslash(s)
    decreases |s|
  {
    if s != [] {
      TrailingZero(s[1..], if s[0] == BACKSLASH then k + 1 else 0);
    }
  }

  lemma {:induction false} FirstOpens(spelled: Text, tail: Text)
    requires Ends(tail) && QUOTE !in spelled
    ensures ScanFirst(([QUOTE] + (spelled + [QUOTE])) + tail, false) == (spelled, tail)
  {
    var s := ([QUOTE] + (spelled + [QUOTE])) + tail;
    assert s[0] == QUOTE && s[1..] == spelled + ([QUOTE] + tail);
    FirstInQuotes(spelled, tail);
  }

  /** What the rule for argv[0] makes of an application without quotes. */
  lemma {:induction false} FirstOfQuoted(application: Text, tail: Text)
    requires Ends(tail) && QUOTE !in application
    ensures ScanFirst(Quoted(application) + tail, false)
         == (application + Slashes(if HasBlank(application) then Trailing(application, 0) else 0), tail)
  {
    if application != [] && !HasBlank(application) {
      FirstBare(application, tail);
      assert application + Slashes(0) == application;
    } else {
      var slashes := Slashes(Trailing(application, 0));
      QuotedIsEscaped(application);
      EscapedNoQuote(application, 0);
      Associate(application, slashes, [QUOTE]);
      assert Slashes(0) + ((application + slashes) + [QUOTE]) == (application + slashes) + [QUOTE];
      NoQuote(application, Trailing(application, 0));
      FirstOpens(application + slashes, tail);
    }
  }

  lemma {:induction false} NoQuote(s: Text, n: nat)
    requires QUOTE !in s
    ensures QUOTE !in s + Slashes(n)
  {
    if n > 0 {
      NoQuote(s, n - 1);
      OneMore(n - 1);
      assert s + Slashes(n) == (s + Slashes(n - 1)) + [BACKSLASH];
    }
  }

  lemma {:induction false} FirstHasNoQuote(s: Text, quoted: bool)
    ensures QUOTE !in ScanFirst(s, quoted).0
  {
    if s != [] {
      FirstHasNoQuote(s[1..], quoted);
      FirstHasNoQuote(s[1..], !quoted);
    }
  }

  /** The application is read back from the command line exactly when it is runnable. */
  lemma {:induction false} ApplicationReadsBack(application: Text, arguments: seq<Text>)
    ensures ScanFirst(Quoted(application) + Spaced(arguments), false).0 == application <==> IsRunnable(application)
  {
    var tail := Spaced(arguments);
    if QUOTE in application {
      FirstHasNoQuote(Quoted(application) + tail, false);
    } else {
      FirstOfQuoted(application, tail);
      TrailingZero(application, 0);
    }
  }

  /** " \\", a blank and a last backslash, is read back with the backslash twice, whatever the arguments. */
  lemma {:induction false} BlankAndSlashGoWrong(arguments: seq<Text>)
    ensures ScanFirst(Quoted([SPACE, BACKSLASH]) + Spaced(arguments), false).0 == [SPACE, BACKSLASH, BACKSLASH]
  {
    FirstOfQuoted([SPACE, BACKSLASH], Spaced(arguments));
    assert IsBlank([SPACE, BACKSLASH][0]);
    assert [SPACE, BACKSLASH][1..] == [BACKSLASH] && [BACKSLASH][1..] == [];
    assert Trailing([BACKSLASH], 0) == Trailing([], 1) == 1;
    assert Slashes(1) == [BACKSLASH];
  }

  /** A runnable application and any arguments without NUL characters are read back as they were given. */
  lemma {:induction false} CommandReadsBack(doubled: bool, application: Text, arguments: seq<Text>)
    requires IsRunnable(application) && forall i :: 0 <= i < |arguments| ==> NUL !in arguments[i]
    ensures CommandLine(application, arguments).Some?
    ensures var (first, rest) := ScanFirst(CommandLine(application, arguments).value, false);
      first == application && Arguments(doubled, rest) == arguments
  {
    FirstOfQuoted(application, Spaced(arguments));
    TrailingZero(application, 0);
    assert application + Slashes(0) == application;
    ArgumentsReadBack(doubled, arguments);
  }
}
