/** How a POSIX shell reads one word made of quoted and unquoted pieces
    (POSIX.1-2017, XCU section 2.2.2 "Single-Quotes" and section 2.2.3
    "Double-Quotes"), and the single-quote escaping that keeps any command one
    literal word.

    The reader covers a safe subset: inside single quotes every character is
    literal up to the next single quote; inside double quotes every character is
    literal up to the next double quote, except that `$`, backquote and backslash
    (which would trigger expansion or escaping) are outside the subset; outside
    quotes only plain characters are read, and anything that would end the word
    or be expanded is outside the subset. `None` means "not read as one literal
    word by this subset". */
module Shell {
  import opened Wrappers

  datatype Mode = Unquoted | InSingle | InDouble

  /** Characters that stand for themselves outside quotes. */
  predicate IsPlain(c: char) {
    ('a' <= c <= 'z') || ('A' <= c <= 'Z') || ('0' <= c <= '9')
    || c == '-' || c == '_' || c == '.' || c == '/' || c == ':' || c == '@' || c == ',' || c == '+'
  }

  /** Text the shell takes literally wherever it stands in a word: no
      whitespace, quote, `$`, backquote, backslash, `;`, `|`, `&`, `<`, `>`,
      parenthesis, glob or comment character. */
  predicate PlainText(s: string) {
    forall k :: 0 <= k < |s| ==> IsPlain(s[k])
  }

  function Cons(c: char, r: Option<string>): Option<string> {
    if r.Some? then Some([c] + r.value) else None
  }

  /** The literal text of `s` read from state `mode` to the end of the input;
      the input must end outside quotes. */
  function Read(s: string, mode: Mode): Option<string>
    decreases |s|
  {
    if s == [] then (if mode == Unquoted then Some([]) else None)
    else
      var c := s[0];
      match mode
      case InSingle =>
        if c == '\'' then Read(s[1..], Unquoted) else Cons(c, Read(s[1..], InSingle))
      case InDouble =>
        if c == '"' then Read(s[1..], Unquoted)
        else if c == '$' || c == '`' || c == '\\' then None
        else Cons(c, Read(s[1..], InDouble))
      case Unquoted =>
        if c == '\'' then Read(s[1..], InSingle)
        else if c == '"' then Read(s[1..], InDouble)
        else if IsPlain(c) then Cons(c, Read(s[1..], Unquoted))
        else None
  }

  /** The single word the shell reads from `s`, if `s` is one word of the subset. */
  function ReadWord(s: string): Option<string> {
    if s == [] then None else Read(s, Unquoted)
  }

  /** `cmd.replace("'", "'\"'\"'")`: each single quote closes the quoted
      text, appears inside double quotes, and reopens single quotes. */
  function Escape(cmd: string): (e: string)
    ensures |e| >= |cmd|
    decreases |cmd|
  {
    if cmd == [] then []
    else (if cmd[0] == '\'' then "'\"'\"'" else [cmd[0]]) + Escape(cmd[1..])
  }

  /** `format!("'{}'", escaped)`. */
  function Quote(cmd: string): string {
    "'" + Escape(cmd) + "'"
  }

  /** The four characters that follow an escaped quote's closing quote
      produce that one quote and reopen single quotes. */
  lemma ReadEscapedQuote(rest: string)
    ensures Read("'\"'\"'" + rest, InSingle) == Cons('\'', Read(rest, InSingle))
  {
    var s := "'\"'\"'" + rest;
    var s1, s2, s3, s4 := s[1..], s[2..], s[3..], s[4..];
    assert s[0] == '\'' && s1[0] == '"' && s2[0] == '\'' && s3[0] == '"' && s4[0] == '\'';
    assert s1 == s[1..] && s1[1..] == s2 && s2[1..] == s3 && s3[1..] == s4 && s4[1..] == rest;
    assert Read(s4, Unquoted) == Read(rest, InSingle);
    assert Read(s3, InDouble) == Read(s4, Unquoted);
    assert Read(s2, InDouble) == Cons('\'', Read(s3, InDouble));
    assert Read(s1, Unquoted) == Read(s2, InDouble);
  }

  lemma {:induction false} EscapedReadsBack(cmd: string)
    ensures Read(Escape(cmd) + "'", InSingle) == Some(cmd)
    decreases |cmd|
  {
    if cmd == [] {
      assert Escape(cmd) + "'" == "'";
      assert Read("'", InSingle) == Read([], Unquoted);
    } else {
      var rest := Escape(cmd[1..]) + "'";
      EscapedReadsBack(cmd[1..]);
      if cmd[0] == '\'' {
        assert Escape(cmd) + "'" == "'\"'\"'" + rest;
        ReadEscapedQuote(rest);
      } else {
        var s := [cmd[0]] + rest;
        assert Escape(cmd) + "'" == s;
        assert s[0] == cmd[0] && s[1..] == rest;
        assert Read(s, InSingle) == Cons(cmd[0], Read(rest, InSingle));
      }
      assert [cmd[0]] + cmd[1..] == cmd;
    }
  }

  /** Escaping then single-quoting makes the shell read back exactly the
      original command as one word, whatever characters it holds. */
  lemma QuoteRoundTrip(cmd: string)
    ensures ReadWord(Quote(cmd)) == Some(cmd)
  {
    EscapedReadsBack(cmd);
    assert Quote(cmd)[1..] == Escape(cmd) + "'";
  }

  /** Reading never lengthens the text: closing quotes are consumed, and text
      with a quote character in it loses at least one pair of quotes. */
  lemma {:induction false} ReadShrinks(s: string, mode: Mode)
    ensures Read(s, mode).Some? && mode != Unquoted ==> |Read(s, mode).value| <= |s| - 1
    ensures Read(s, mode).Some? && mode == Unquoted ==> |Read(s, mode).value| <= |s|
    ensures Read(s, mode).Some? && mode == Unquoted && ('\'' in s || '"' in s) ==> |Read(s, mode).value| <= |s| - 2
    decreases |s|
  {
    if s != [] {
      ReadShrinks(s[1..], InSingle);
      ReadShrinks(s[1..], InDouble);
      ReadShrinks(s[1..], Unquoted);
      if mode == Unquoted && IsPlain(s[0]) && ('\'' in s || '"' in s) {
        assert '\'' in s[1..] || '"' in s[1..];
      }
    }
  }

  lemma {:induction false} ReadSingleQuotedPrefix(u: string, v: string)
    requires '\'' !in u
    ensures Read(v, InSingle).None? ==> Read(u + v, InSingle).None?
    ensures Read(v, InSingle).Some? ==> Read(u + v, InSingle) == Some(u + Read(v, InSingle).value)
    decreases |u|
  {
    if u != [] {
      assert (u + v)[0] == u[0];
      assert (u + v)[1..] == u[1..] + v;
      ReadSingleQuotedPrefix(u[1..], v);
      assert Read(u + v, InSingle) == Cons(u[0], Read(u[1..] + v, InSingle));
      if Read(v, InSingle).Some? {
        assert [u[0]] + (u[1..] + Read(v, InSingle).value) == u + Read(v, InSingle).value;
      }
    } else {
      assert u + v == v;
      if Read(v, InSingle).Some? {
        assert u + Read(v, InSingle).value == Read(v, InSingle).value;
      }
    }
  }

  function FirstIndex(s: string, c: char): (i: nat)
    requires c in s
    ensures i < |s| && s[i] == c && c !in s[..i]
    decreases |s|
  {
    if s[0] == c then 0 else 1 + FirstIndex(s[1..], c)
  }

  lemma {:induction false} UnquotedNoQuoteReadsBack(cmd: string)
    requires '\'' !in cmd
    ensures ReadWord("'" + cmd + "'") == Some(cmd)
  {
    var w := "'" + cmd + "'";
    assert w[1..] == cmd + "'";
    ReadSingleQuotedPrefix(cmd, "'");
    assert Read("'", InSingle) == Some([]);
    assert cmd + [] == cmd;
  }

  lemma {:induction false} UnquotedWithQuoteMisread(cmd: string)
    requires '\'' in cmd
    ensures ReadWord("'" + cmd + "'") != Some(cmd)
  {
    var w := "'" + cmd + "'";
    assert w[1..] == cmd + "'";
    var p := FirstIndex(cmd, '\'');
    var v := cmd[p + 1..] + "'";
    assert cmd + "'" == cmd[..p] + ("'" + v);
    ReadSingleQuotedPrefix(cmd[..p], "'" + v);
    assert ("'" + v)[1..] == v;
    assert Read("'" + v, InSingle) == Read(v, Unquoted);
    ReadShrinks(v, Unquoted);
    assert v[|v| - 1] == '\'';
    assert '\'' in v;
  }

  /** Wrapping in single quotes WITHOUT escaping (`format!("'{}'", cmd)`)
      reads back as the original command exactly when the command has no
      single quote of its own. */
  lemma UnescapedQuoteReadsBackIff(cmd: string)
    ensures ReadWord("'" + cmd + "'") == Some(cmd) <==> '\'' !in cmd
  {
    if '\'' !in cmd {
      UnquotedNoQuoteReadsBack(cmd);
    } else {
      UnquotedWithQuoteMisread(cmd);
    }
  }
}
