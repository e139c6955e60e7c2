/** Values written as TOML basic strings, and the reader that gets them back. */
module TomlStrings {
  import opened Wrappers

  /** `str.replace` with a single character to look for. */
  function Replace(s: string, c: char, put: string): string {
    if s == "" then "" else (if s[0] == c then put else [s[0]]) + Replace(s[1..], c, put)
  }

  /** `_toml_string`: five replacements in a row, then quotes. */
  function TomlString(value: string): string {
    "\"" + Replace(Replace(Replace(Replace(Replace(value, '\\', "\\\\"), '"', "\\\""), '\n', "\\n"), '\r', "\\r"), '\t', "\\t")
    + "\""
  }

  // ---------------------------------------------------- one map per character

  function Escape(c: char): string {
    if c == '\\' then "\\\\" else if c == '"' then "\\\"" else if c == '\n' then "\\n"
    else if c == '\r' then "\\r" else if c == '\t' then "\\t" else [c]
  }

  function EscapeAll(s: string): string {
    if s == "" then "" else Escape(s[0]) + EscapeAll(s[1..])
  }

  lemma {:induction false} ReplaceBoth(s: string, t: string, c: char, put: string)
    ensures Replace(s + t, c, put) == Replace(s, c, put) + Replace(t, c, put)
  {
    if s == "" {
      assert s + t == t;
    } else {
      assert (s + t)[1..] == s[1..] + t;
      ReplaceBoth(s[1..], t, c, put);
    }
  }

  /** The five replacements, in this order, never touch each other's output. */
  lemma {:induction false} FiveReplacesAreOneMap(s: string)
    ensures TomlString(s) == "\"" + EscapeAll(s) + "\""
  {
    ReplacesEscape(s);
  }

  function Replaces(s: string): string {
    Replace(Replace(Replace(Replace(Replace(s, '\\', "\\\\"), '"', "\\\""), '\n', "\\n"), '\r', "\\r"), '\t', "\\t")
  }

  lemma {:induction false} ReplacesEscape(s: string)
    ensures Replaces(s) == EscapeAll(s)
  {
    if s != "" {
      assert s == [s[0]] + s[1..];
      ReplacesBoth([s[0]], s[1..]);
      ReplacesOne(s[0]);
      ReplacesEscape(s[1..]);
    }
  }

  lemma ReplacesBoth(s: string, t: string)
    ensures Replaces(s + t) == Replaces(s) + Replaces(t)
  {
    var (s1, t1) := (Replace(s, '\\', "\\\\"), Replace(t, '\\', "\\\\"));
    ReplaceBoth(s, t, '\\', "\\\\");
    var (s2, t2) := (Replace(s1, '"', "\\\""), Replace(t1, '"', "\\\""));
    ReplaceBoth(s1, t1, '"', "\\\"");
    var (s3, t3) := (Replace(s2, '\n', "\\n"), Replace(t2, '\n', "\\n"));
    ReplaceBoth(s2, t2, '\n', "\\n");
    ReplaceBoth(s3, t3, '\r', "\\r");
    ReplaceBoth(Replace(s3, '\r', "\\r"), Replace(t3, '\r', "\\r"), '\t', "\\t");
  }

  lemma ReplaceOne(a: char, c: char, put: string)
    ensures Replace([a], c, put) == if a == c then put else [a]
  {
    assert [a][1..] == "";
  }

  lemma ReplaceTwo(a: char, b: char, c: char, put: string)
    ensures Replace([a, b], c, put) == (if a == c then put else [a]) + (if b == c then put else [b])
  {
    assert [a, b][1..] == [b];
    ReplaceOne(b, c, put);
  }

  lemma ReplacesOne(c: char)
    ensures Replaces([c]) == Escape(c)
  {
    ReplaceOne(c, '\\', "\\\\");
    ReplaceOne(c, '"', "\\\"");
    ReplaceOne(c, '\n', "\\n");
    ReplaceOne(c, '\r', "\\r");
    ReplaceOne(c, '\t', "\\t");
    var e := Escape(c);
    if |e| == 2 {
      Settled(e[1]);
    }
  }

  /** Once written, an escape is left alone by the replacements that follow. */
  lemma Settled(b: char)
    requires b != '\n' && b != '\r' && b != '\t'
    ensures b != '"' ==> Replace(['\\', b], '"', "\\\"") == ['\\', b]
    ensures Replace(['\\', b], '\n', "\\n") == ['\\', b]
    ensures Replace(['\\', b], '\r', "\\r") == ['\\', b] && Replace(['\\', b], '\t', "\\t") == ['\\', b]
  {
    ReplaceTwo('\\', b, '"', "\\\"");
    ReplaceTwo('\\', b, '\n', "\\n");
    ReplaceTwo('\\', b, '\r', "\\r");
    ReplaceTwo('\\', b, '\t', "\\t");
  }

  // ------------------------------------------------------------- the reader

  /** The short escapes of section "String" of TOML v1.0.0; the numeric ones, which are
      never written here, are not read either. */
  function Unescape(c: char): Option<char> {
    if c == '\\' then Some('\\') else if c == '"' then Some('"') else if c == 'n' then Some('\n')
    else if c == 'r' then Some('\r') else if c == 't' then Some('\t')
    else if c == 'b' then Some(8 as char) else if c == 'f' then Some(12 as char) else None
  }

  /** Characters a basic string may not hold as they are. */
  predicate Forbidden(c: char) { (c as int < 0x20 && c != '\t') || c as int == 0x7F }

  /** The value up to the closing quote, and what follows the quote. */
  function Read(t: string): Option<(string, string)> {
    if t == "" then None
    else if t[0] == '"' then Some(("", t[1..]))
    else if t[0] == '\\' then
      if |t| < 2 || Unescape(t[1]).None? then None else Prepend(Unescape(t[1]).value, Read(t[2..]))
    else if Forbidden(t[0]) then None
    else Prepend(t[0], Read(t[1..]))
  }

  function Prepend(c: char, r: Option<(string, string)>): Option<(string, string)> {
    if r.None? then None else Some(([c] + r.value.0, r.value.1))
  }

  /** A basic string at the start of the text; three quotes open another kind of string. */
  function ReadString(t: string): Option<(string, string)> {
    if t == "" || t[0] != '"' || (|t| >= 3 && t[1] == '"' && t[2] == '"') then None else Read(t[1..])
  }

  /** Characters that are neither written as an escape nor allowed as they are. */
  predicate Unwritable(c: char) { Forbidden(c) && c != '\n' && c != '\r' }

  ghost predicate Writable(s: string) { forall i :: 0 <= i < |s| ==> !Unwritable(s[i]) }

  lemma ReadOne(c: char, tail: string)
    ensures Read(Escape(c) + tail) == if Unwritable(c) then None else Prepend(c, Read(tail))
  {
    var e := Escape(c);
    assert (e + tail)[|e|..] == tail;
    assert (e + tail)[0] == e[0];
    if |e| == 2 {
      assert (e + tail)[1] == e[1];
    }
  }

  lemma {:induction false} ReadEscaped(v: string, rest: string)
    ensures Read(EscapeAll(v) + "\"" + rest) == if Writable(v) then Some((v, rest)) else None
  {
    if v == "" {
      assert EscapeAll(v) + "\"" + rest == "\"" + rest;
      assert ("\"" + rest)[1..] == rest;
    } else {
      var tail := EscapeAll(v[1..]) + "\"" + rest;
      assert EscapeAll(v) + "\"" + rest == Escape(v[0]) + tail;
      ReadOne(v[0], tail);
      ReadEscaped(v[1..], rest);
      assert v == [v[0]] + v[1..];
      assert Writable(v) <==> !Unwritable(v[0]) && Writable(v[1..]);
    }
  }

  /** A written value is read back whole, and the text after its literal is left alone,
      exactly when the value has no control character but tab, newline and carriage
      return; an empty value also needs not to be followed by a quote. */
  lemma ReadsBackIff(v: string, rest: string)
    ensures ReadString(TomlString(v) + rest) == Some((v, rest))
       <==> Writable(v) && !(v == "" && rest != "" && rest[0] == '"')
  {
    FiveReplacesAreOneMap(v);
    var body := EscapeAll(v) + "\"" + rest;
    assert TomlString(v) + rest == "\"" + body;
    assert ("\"" + body)[1..] == body;
    ReadEscaped(v, rest);
    if v != "" {
      assert body[0] == Escape(v[0])[0];
    } else {
      assert body == "\"" + rest;
    }
  }
}
