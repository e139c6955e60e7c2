/** Arguments quoted for an `ExecStart=` line, and the splitter that takes the line apart
    again. What systemd expands after splitting is not looked at. */
module SystemdCommand {
  import opened TomlStrings
  import opened Wrappers

  /** The characters that make the printer quote an argument. */
  predicate Special(c: char) {
    c == ' ' || c == '\t' || c == '\n' || c == '"' || c == '\\' || c == '$'
  }

  predicate AnySpecial(s: string) { exists i :: 0 <= i < |s| && Special(s[i]) }

  predicate NeedsQuotes(arg: string) { arg == "" || AnySpecial(arg) }

  function Escape(s: string): string {
    if s == "" then ""
    else (if s[0] == '\\' then "\\\\" else if s[0] == '"' then "\\\"" else [s[0]]) + Escape(s[1..])
  }

  /** `_systemd_quote` */
  function Quote(arg: string): (r: string)
    ensures r != ""
  {
    if NeedsQuotes(arg) then
      "\"" + Replace(Replace(arg, '\\', "\\\\"), '"', "\\\"") + "\""
    else arg
  }

  /** The two replacements are one map per character. */
  lemma {:induction false} TwoReplacesAreOneMap(s: string)
    ensures Replace(Replace(s, '\\', "\\\\"), '"', "\\\"") == Escape(s)
  {
    if s != "" {
      var first := if s[0] == '\\' then "\\\\" else [s[0]];
      ReplaceBoth(first, Replace(s[1..], '\\', "\\\\"), '"', "\\\"");
      ReplaceOne(s[0], '"', "\\\"");
      ReplaceTwo('\\', '\\', '"', "\\\"");
      TwoReplacesAreOneMap(s[1..]);
    }
  }

  /** `_systemd_exec_start` */
  function ExecStart(argv: seq<string>): string {
    if argv == [] then "" else if |argv| == 1 then Quote(argv[0]) else Quote(argv[0]) + " " + ExecStart(argv[1..])
  }

  // ----------------------------------------------------------- the splitter

  predicate Blank(c: char) { c == ' ' || c == '\t' || c == '\r' }

  function Unescape(c: char): Option<char> {
    if c == '\\' || c == '"' || c == '\'' then Some(c)
    else if c == 's' then Some(' ') else if c == 't' then Some('\t')
    else if c == 'n' then Some('\n') else if c == 'r' then Some('\r') else None
  }

  function Prepend(c: char, r: Option<(string, string)>): Option<(string, string)> {
    if r.None? then None else Some(([c] + r.value.0, r.value.1))
  }

  /** An item from just after its opening quote: its text and what follows the closing
      quote. A line ends at a newline, quoted or not. */
  function QuotedItem(t: string, quote: char): (r: Option<(string, string)>)
    ensures r.Some? ==> |r.value.0| + |r.value.1| < |t|
  {
    if t == "" || t[0] == '\n' then None
    else if t[0] == quote then Some(("", t[1..]))
    else if t[0] == '\\' then
      if |t| < 2 || Unescape(t[1]).None? then None else Prepend(Unescape(t[1]).value, QuotedItem(t[2..], quote))
    else Prepend(t[0], QuotedItem(t[1..], quote))
  }

  /** An item without quotes: up to the next blank. A quote may only open an item. */
  function BareItem(t: string): (r: Option<(string, string)>)
    ensures r.Some? ==> |r.value.0| + |r.value.1| == |t|
  {
    if t == "" || Blank(t[0]) then Some(("", t))
    else if t[0] == '\n' || t[0] == '"' || t[0] == '\'' || t[0] == '\\' then None
    else Prepend(t[0], BareItem(t[1..]))
  }

  /** The items of a line. A closing quote is followed by a blank or the end; a semicolon
      by itself would begin another command. */
  function Items(t: string): Option<seq<string>>
    decreases |t|
  {
    if t == "" then Some([])
    else if Blank(t[0]) then Items(t[1..])
    else
      var quoted := t[0] == '"' || t[0] == '\'';
      var item := if quoted then QuotedItem(t[1..], t[0]) else BareItem(t);
      if item.None? || |item.value.1| >= |t| then None
      else if quoted && item.value.1 != "" && !Blank(item.value.1[0]) then None
      else if !quoted && item.value.0 == ";" then None
      else
        var rest := Items(item.value.1);
        if rest.None? then None else Some([item.value.0] + rest.value)
  }

  // ------------------------------------------------------------- round trip

  /** An argument that survives: on one line, and unless the printer quotes it, without a
      carriage return or a single quote and not a lone semicolon. */
  predicate Survives(arg: string) {
    && (forall i :: 0 <= i < |arg| ==> arg[i] != '\n')
    && (NeedsQuotes(arg) || (arg != ";" && forall i :: 0 <= i < |arg| ==> arg[i] != '\r' && arg[i] != '\''))
  }

  lemma {:induction false} QuotedReadsBack(arg: string, rest: string)
    ensures QuotedItem(Escape(arg) + "\"" + rest, '"')
         == if forall i :: 0 <= i < |arg| ==> arg[i] != '\n' then Some((arg, rest)) else None
  {
    if arg == "" {
      assert Escape(arg) + "\"" + rest == "\"" + rest;
      assert ("\"" + rest)[1..] == rest;
    } else {
      var tail := Escape(arg[1..]) + "\"" + rest;
      var e := if arg[0] == '\\' then "\\\\" else if arg[0] == '"' then "\\\"" else [arg[0]];
      assert Escape(arg) + "\"" + rest == e + tail;
      QuotedOne(arg[0], e, tail);
      QuotedReadsBack(arg[1..], rest);
      assert arg == [arg[0]] + arg[1..];
      assert (forall i :: 0 <= i < |arg| ==> arg[i] != '\n')
        <==> arg[0] != '\n' && forall i :: 0 <= i < |arg[1..]| ==> arg[1..][i] != '\n';
    }
  }

  lemma QuotedOne(c: char, e: string, tail: string)
    requires e == if c == '\\' then "\\\\" else if c == '"' then "\\\"" else [c]
    ensures QuotedItem(e + tail, '"') == if c == '\n' then None else Prepend(c, QuotedItem(tail, '"'))
  {
    assert (e + tail)[|e|..] == tail;
    assert (e + tail)[0] == e[0];
    if |e| == 2 {
      assert (e + tail)[1] == e[1];
    }
  }

  predicate Plain(arg: string) {
    forall i :: 0 <= i < |arg| ==>
      !Blank(arg[i]) && arg[i] != '\n' && arg[i] != '"' && arg[i] != '\'' && arg[i] != '\\'
  }

  lemma {:induction false} BareReadsBack(arg: string, rest: string)
    requires Plain(arg) && (rest == "" || Blank(rest[0]))
    ensures BareItem(arg + rest) == Some((arg, rest))
  {
    if arg == "" {
      assert arg + rest == rest;
    } else {
      assert (arg + rest)[1..] == arg[1..] + rest;
      BareReadsBack(arg[1..], rest);
      assert arg == [arg[0]] + arg[1..];
    }
  }

  lemma QuotedIsFirst(arg: string, rest: string)
    requires (forall i :: 0 <= i < |arg| ==> arg[i] != '\n') && (rest == "" || Blank(rest[0]))
    ensures Items("\"" + Escape(arg) + "\"" + rest) ==
              if Items(rest).None? then None else Some([arg] + Items(rest).value)
  {
    var t := "\"" + Escape(arg) + "\"" + rest;
    QuotedReadsBack(arg, rest);
    assert t == "\"" + (Escape(arg) + "\"" + rest);
    assert t[1..] == Escape(arg) + "\"" + rest;
  }

  lemma BareIsFirst(arg: string, rest: string)
    requires Plain(arg) && arg != "" && arg != ";" && (rest == "" || Blank(rest[0]))
    ensures Items(arg + rest) == if Items(rest).None? then None else Some([arg] + Items(rest).value)
  {
    BareReadsBack(arg, rest);
    assert (arg + rest)[0] == arg[0];
  }

  /** One surviving argument at the start of a line is its first item. */
  lemma FirstItem(arg: string, rest: string)
    requires Survives(arg) && (rest == "" || Blank(rest[0]))
    ensures Items(Quote(arg) + rest) ==
              if Items(rest).None? then None else Some([arg] + Items(rest).value)
  {
    if NeedsQuotes(arg) {
      TwoReplacesAreOneMap(arg);
      QuotedIsFirst(arg, rest);
    } else {
      forall i | 0 <= i < |arg| ensures !Special(arg[i]) {
      }
      BareIsFirst(arg, rest);
    }
  }

  lemma {:induction false} BareIsPlain(t: string)
    requires BareItem(t).Some?
    ensures Plain(BareItem(t).value.0)
  {
    if t != "" && !Blank(t[0]) {
      BareIsPlain(t[1..]);
    }
  }

  // ------------------------------------------------------------- whole commands

  function Tail(argv: seq<string>): string { if argv == [] then "" else " " + ExecStart(argv) }

  lemma ExecStartIs(argv: seq<string>)
    requires argv != []
    ensures ExecStart(argv) == Quote(argv[0]) + Tail(argv[1..])
  {
    if |argv| == 1 {
      assert Quote(argv[0]) + "" == Quote(argv[0]);
    } else {
      assert Quote(argv[0]) + " " + ExecStart(argv[1..]) == Quote(argv[0]) + (" " + ExecStart(argv[1..]));
    }
  }

  /** An argument the printer leaves bare although a bare item cannot hold it. */
  predicate Mangled(arg: string) {
    arg != "" && !AnySpecial(arg) && exists i :: 0 <= i < |arg| && (arg[i] == '\r' || arg[i] == '\'')
  }

  /** The arguments that do not survive, by how they fail. */
  lemma LostArguments(arg: string)
    requires !Survives(arg)
    ensures (NeedsQuotes(arg) && exists i :: 0 <= i < |arg| && arg[i] == '\n') || arg == ";" || Mangled(arg)
  {
    if i :| 0 <= i < |arg| && arg[i] == '\n' {
      assert Special(arg[i]);
    }
  }

  /** Single-quoted text without a backslash, up to its closing quote: if that comes before
      a blank does, the item holds neither; otherwise it holds the blank. */
  lemma {:induction false} SingleQuoted(z: string, rest: string)
    requires !AnySpecial(z) && (rest == "" || rest[0] == ' ')
    ensures var item := QuotedItem(z + rest, '\'');
            item.Some? ==>
              (HasSpace(item.value.0) && !HasQuote(z))
              || (!HasQuote(item.value.0) && |item.value.0| < |z| && item.value.1 == z[|item.value.0| + 1..] + rest)
  {
    var t := z + rest;
    if z == "" {
      assert t == rest;
      if rest != "" && QuotedItem(t, '\'').Some? {
        assert QuotedItem(t, '\'').value.0[0] == ' ';
      }
    } else {
      assert t[1..] == z[1..] + rest && t[0] == z[0] && !Special(z[0]);
      forall i | 0 <= i < |z[1..]| ensures !Special(z[1..][i]) {
        assert z[1..][i] == z[i + 1];
      }
      if z[0] != '\'' {
        SingleQuoted(z[1..], rest);
        if QuotedItem(t, '\'').Some? {
          PrependedHas(z[0], QuotedItem(z[1..] + rest, '\'').value.0);
          if !HasQuote(z[1..]) {
            assert !HasQuote(z);
          }
        }
      }
    }
  }

  predicate HasSpace(s: string) { exists i :: 0 <= i < |s| && s[i] == ' ' }

  predicate HasQuote(s: string) { exists i :: 0 <= i < |s| && s[i] == '\'' }

  lemma PrependedHas(c: char, s: string)
    ensures HasSpace([c] + s) <==> c == ' ' || HasSpace(s)
    ensures HasQuote([c] + s) <==> c == '\'' || HasQuote(s)
  {
    var t := [c] + s;
    assert t[0] == c && forall i :: 0 <= i < |s| ==> t[i + 1] == s[i];
    if i :| 0 <= i < |s| && s[i] == ' ' {
      assert t[i + 1] == ' ';
    }
    if i :| 0 <= i < |s| && s[i] == '\'' {
      assert t[i + 1] == '\'';
    }
    if i :| 0 <= i < |t| && t[i] == ' ' {
      assert i > 0 ==> s[i - 1] == ' ';
    }
    if i :| 0 <= i < |t| && t[i] == '\'' {
      assert i > 0 ==> s[i - 1] == '\'';
    }
  }

  lemma MangledIsLost(arg: string)
    requires Mangled(arg)
    ensures !Survives(arg) && Quote(arg) == arg && !HasSpace(arg) && !Plain(arg)
  {
    if i :| 0 <= i < |arg| && arg[i] == ' ' {
      assert Special(arg[i]);
    }
  }

  lemma SuffixNotSpecial(z: string, n: nat)
    requires !AnySpecial(z) && n <= |z|
    ensures !AnySpecial(z[n..])
    ensures HasQuote(z[n..]) ==> HasQuote(z)
  {
    forall i | 0 <= i < |z[n..]| ensures !Special(z[n..][i]) {
      assert z[n..][i] == z[n + i];
    }
    if i :| 0 <= i < |z[n..]| && z[n..][i] == '\'' {
      assert z[n + i] == '\'';
    }
  }

  /** Not the items: `expected` is not what the splitter finds. */
  ghost predicate Differs(t: string, expected: seq<string>) { Items(t) != Some(expected) }

  /** No text left of an unquoted argument, with a command behind it, is split into lost
      arguments followed by that command's arguments. */
  lemma {:induction false} NeverSplitsInto(z: string, rest: seq<string>, lost: seq<string>)
    requires !AnySpecial(z) && lost != [] && forall i :: 0 <= i < |lost| ==> Mangled(lost[i])
    requires HasQuote(z) ==> HasQuote(lost[|lost| - 1])
    ensures Differs(z + Tail(rest), lost + rest)
    decreases |rest|, |z|, 1
  {
    if z == "" {
      assert z + Tail(rest) == Tail(rest);
      if rest != [] {
        NextArgument(rest, lost);
      } else {
        assert lost + rest == lost;
      }
    } else if z[0] == '\r' {
      SuffixNotSpecial(z, 1);
      NeverSplitsInto(z[1..], rest, lost);
      HeadTail(z, Tail(rest));
      BlankIsSkipped(z[1..] + Tail(rest), '\r');
    } else if z[0] == '\'' {
      SuffixNotSpecial(z, 1);
      HeadTail(z, Tail(rest));
      OpenedQuote(z[1..], rest, lost);
    } else {
      BareStart(z, Tail(rest), lost + rest);
    }
  }

  lemma HeadTail(z: string, tail: string)
    requires z != ""
    ensures z + tail == [z[0]] + (z[1..] + tail)
  {
  }

  lemma BlankIsSkipped(t: string, c: char)
    requires Blank(c)
    ensures Items([c] + t) == Items(t)
  {
    assert ([c] + t)[1..] == t;
  }

  /** The text starts with the command itself. */
  lemma {:induction false} NextArgument(rest: seq<string>, lost: seq<string>)
    requires rest != [] && lost != [] && forall i :: 0 <= i < |lost| ==> Mangled(lost[i])
    ensures Differs(Tail(rest), lost + rest)
    decreases |rest|, 0, 0
  {
    var (arg, tail) := (rest[0], Tail(rest[1..]));
    ExecStartIs(rest);
    BlankIsSkipped(ExecStart(rest), ' ');
    MangledIsLost(lost[0]);
    assert (lost + rest)[0] == lost[0];
    if Survives(arg) {
      FirstItem(arg, tail);
    } else {
      LostArguments(arg);
      if Mangled(arg) {
        MangledIsLost(arg);
        assert (lost + [arg]) + rest[1..] == lost + rest;
        NeverSplitsInto(arg, rest[1..], lost + [arg]);
      } else {
        NothingIsRead(arg, tail);
      }
    }
  }

  lemma NothingIsRead(arg: string, tail: string)
    requires arg == ";" || (NeedsQuotes(arg) && exists i :: 0 <= i < |arg| && arg[i] == '\n')
    requires tail == "" || tail[0] == ' '
    ensures Items(Quote(arg) + tail) == None
  {
    if NeedsQuotes(arg) {
      TwoReplacesAreOneMap(arg);
      BrokenLine(arg, tail);
    } else {
      SemicolonAlone(tail);
    }
  }

  lemma BrokenLine(arg: string, tail: string)
    requires exists i :: 0 <= i < |arg| && arg[i] == '\n'
    ensures Items("\"" + Escape(arg) + "\"" + tail) == None
  {
    var t := "\"" + Escape(arg) + "\"" + tail;
    QuotedReadsBack(arg, tail);
    assert t == "\"" + (Escape(arg) + "\"" + tail);
    assert t[1..] == Escape(arg) + "\"" + tail;
  }

  lemma SemicolonAlone(tail: string)
    requires tail == "" || tail[0] == ' '
    ensures Items(";" + tail) == None
  {
    BareReadsBack(";", tail);
  }

  /** A bare item holds no carriage return and no quote, so it is no lost argument. */
  lemma BareStart(z: string, tail: string, expected: seq<string>)
    requires z != "" && !AnySpecial(z) && !Blank(z[0]) && z[0] != '\''
    requires expected != [] && Mangled(expected[0])
    ensures Differs(z + tail, expected)
  {
    var t := z + tail;
    assert t[0] == z[0] && !Special(z[0]);
    MangledIsLost(expected[0]);
    if BareItem(t).Some? {
      BareIsPlain(t);
    }
  }

  /** An item without a blank that starts with a single quote ends with the next one. */
  lemma QuotedFirst(z: string, tail: string, items: seq<string>)
    requires !AnySpecial(z) && (tail == "" || tail[0] == ' ')
    requires Items("'" + (z + tail)) == Some(items) && items != [] && !HasSpace(items[0])
    ensures !HasQuote(items[0]) && |items[0]| < |z|
    ensures Items(z[|items[0]| + 1..] + tail) == Some(items[1..])
  {
    QuoteOpens(z + tail);
    SingleQuoted(z, tail);
    assert QuotedItem(z + tail, '\'').value.0 == items[0];
  }

  lemma LostButFirst(lost: seq<string>, rest: seq<string>)
    requires |lost| >= 2 && forall i :: 0 <= i < |lost| ==> Mangled(lost[i])
    ensures (lost + rest)[1..] == lost[1..] + rest && lost[1..][|lost| - 2] == lost[|lost| - 1]
    ensures forall i :: 0 <= i < |lost[1..]| ==> Mangled(lost[1..][i])
  {
  }

  /** The text behind an opening single quote. */
  lemma {:induction false} OpenedQuote(z: string, rest: seq<string>, lost: seq<string>)
    requires !AnySpecial(z) && lost != [] && forall i :: 0 <= i < |lost| ==> Mangled(lost[i])
    requires HasQuote(lost[|lost| - 1])
    ensures Differs("'" + (z + Tail(rest)), lost + rest)
    decreases |rest|, |z|, 2
  {
    if !Differs("'" + (z + Tail(rest)), lost + rest) {
      assert (lost + rest)[0] == lost[0];
      MangledIsLost(lost[0]);
      QuotedFirst(z, Tail(rest), lost + rest);
      SuffixNotSpecial(z, |lost[0]| + 1);
      LostButFirst(lost, rest);
      NeverSplitsInto(z[|lost[0]| + 1..], rest, lost[1..]);
    }
  }

  lemma QuoteOpens(t: string)
    ensures Items("'" + t).Some? ==>
              var item := QuotedItem(t, '\'');
              item.Some? && Items(item.value.1).Some?
              && Items("'" + t) == Some([item.value.0] + Items(item.value.1).value)
  {
    assert ("'" + t)[1..] == t;
  }

  /** A command is split back into exactly its arguments if and only if each of them
      survives. */
  lemma {:induction false} SplitsBackIff(argv: seq<string>)
    ensures Items(ExecStart(argv)) == Some(argv) <==> forall i :: 0 <= i < |argv| ==> Survives(argv[i])
  {
    if argv != [] {
      var (arg, tail) := (argv[0], Tail(argv[1..]));
      ExecStartIs(argv);
      assert argv == [arg] + argv[1..];
      if Survives(arg) {
        FirstItem(arg, tail);
        SplitsBackIff(argv[1..]);
        if argv[1..] != [] {
          BlankIsSkipped(ExecStart(argv[1..]), ' ');
        }
        assert (forall i :: 0 <= i < |argv| ==> Survives(argv[i]))
          <==> Survives(arg) && forall i :: 0 <= i < |argv[1..]| ==> Survives(argv[1..][i]);
      } else {
        LostArguments(arg);
        if Mangled(arg) {
          MangledIsLost(arg);
          NeverSplitsInto(arg, argv[1..], [arg]);
        } else {
          NothingIsRead(arg, tail);
        }
      }
    }
  }

  /** Every command whose arguments survive is split back into exactly its arguments. */
  lemma SplitsBack(argv: seq<string>)
    requires forall i :: 0 <= i < |argv| ==> Survives(argv[i])
    ensures Items(ExecStart(argv)) == Some(argv)
  {
    SplitsBackIff(argv);
  }

  /** A single argument comes back exactly when it survives. */
  lemma OneArgumentIff(arg: string)
    ensures Items(ExecStart([arg])) == Some([arg]) <==> Survives(arg)
  {
    SplitsBackIff([arg]);
  }
}
