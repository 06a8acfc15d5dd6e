/** The three quoting functions of the repository, read back by a POSIX shell tokenizer.

    The tokenizer follows sections 2.2 and 2.3 of the POSIX.1-2017 Shell Command Language: quoting and quote
    removal, blanks, newlines and control operators. Text that would need an expansion or open a comment when
    unquoted is not understood and yields None. */
module ShellWords {
  import opened Text

  datatype Mode = Unquoted | Single | Double

  /** The characters of a word up to where it ends, quotes removed, and the text after it. */
  datatype Reading = Reading(word: string, rest: string)

  function Prepend(prefix: string, r: Option<Reading>): Option<Reading> {
    match r
    case None => None
    case Some(reading) => Some(Reading(prefix + reading.word, reading.rest))
  }

  lemma PrependTwice(a: string, b: string, r: Option<Reading>)
    ensures Prepend(a, Prepend(b, r)) == Prepend(a + b, r)
  {
    if r.Some? {
      assert a + (b + r.value.word) == a + b + r.value.word;
    }
  }

  lemma PrependNothing(r: Option<Reading>)
    ensures Prepend("", r) == r
  {
    if r.Some? {
      assert "" + r.value.word == r.value.word;
    }
  }

  predicate IsBlank(c: char) {
    c == ' ' || c == '\t'
  }

  predicate IsOperatorChar(c: char) {
    c in "|&;<>()\n"
  }

  predicate EndsWord(s: string) {
    s == [] || IsBlank(s[0]) || IsOperatorChar(s[0])
  }

  /** Characters that stand for themselves when unquoted. */
  predicate IsPlain(c: char) {
    !IsBlank(c) && !IsOperatorChar(c) && c !in "'\"\\$`*?[~#"
  }

  /** Section 2.2: escape character, single quotes, double quotes. */
  function ReadFrom(s: string, mode: Mode): (r: Option<Reading>)
    ensures r.Some? ==> |r.value.rest| <= |s|
    ensures r.Some? && (mode != Unquoted || !EndsWord(s)) ==> |r.value.rest| < |s|
    decreases |s|
  {
    match mode
    case Unquoted =>
      if EndsWord(s) then Some(Reading([], s))
      else if s[0] == '\'' then ReadFrom(s[1..], Single)
      else if s[0] == '"' then ReadFrom(s[1..], Double)
      else if s[0] == '\\' then
        if |s| == 1 then None
        else if s[1] == '\n' then ReadFrom(s[2..], Unquoted)
        else Prepend([s[1]], ReadFrom(s[2..], Unquoted))
      else if IsPlain(s[0]) then Prepend([s[0]], ReadFrom(s[1..], Unquoted))
      else None
    case Single =>
      if s == [] then None
      else if s[0] == '\'' then ReadFrom(s[1..], Unquoted)
      else Prepend([s[0]], ReadFrom(s[1..], Single))
    case Double =>
      if s == [] then None
      else if s[0] == '"' then ReadFrom(s[1..], Unquoted)
      else if s[0] == '$' || s[0] == '`' then None
      else if s[0] == '\\' && |s| > 1 && s[1] == '\n' then ReadFrom(s[2..], Double)
      else if s[0] == '\\' && |s| > 1 && s[1] in "$`\"\\" then Prepend([s[1]], ReadFrom(s[2..], Double))
      else Prepend([s[0]], ReadFrom(s[1..], Double))
  }

  /** Words, operators, and the number directly in front of a redirection. */
  datatype Token = Word(text: string) | Op(text: string) | IoNumber(text: string)

  /** Section 2.10.1: digits alone, delimited by a redirection operator. */
  predicate IsIoNumber(raw: string, rest: string) {
    raw != [] && (forall c :: c in raw ==> IsDigit(c)) && rest != [] && rest[0] in "<>"
  }

  /** The longest operator s starts with; 0 when it starts with none. */
  function OperatorLength(s: string): (n: nat)
    ensures n <= |s|
  {
    if s == [] || !IsOperatorChar(s[0]) then 0
    else if |s| > 1 && s[..2] in ["&&", "||", ";;", "<<", ">>"] then 2
    else 1
  }

  function PrependToken(t: Token, ts: Option<seq<Token>>): Option<seq<Token>> {
    match ts
    case None => None
    case Some(tokens) => Some([t] + tokens)
  }

  /** Section 2.3: token recognition. */
  function Tokenize(s: string): Option<seq<Token>>
    decreases |s|
  {
    if s == [] then Some([])
    else if IsBlank(s[0]) then Tokenize(s[1..])
    else if OperatorLength(s) > 0 then
      PrependToken(Op(s[..OperatorLength(s)]), Tokenize(s[OperatorLength(s)..]))
    else
      match ReadFrom(s, Unquoted)
      case None => None
      case Some(reading) =>
        var raw := s[..|s| - |reading.rest|];
        var token := if IsIoNumber(raw, reading.rest) then IoNumber(raw) else Word(reading.word);
        PrependToken(token, Tokenize(reading.rest))
  }

  // ---------- the quoting functions ----------

  /** `shellQuote` of the command runtime and `shellEscape` of the worktree library: one and the same text. */
  function ShellQuote(value: string): string {
    "'" + ReplaceChar(value, '\'', "'\"'\"'") + "'"
  }

  /** `quoteShellValue` of the env command. */
  function QuoteShellValue(value: string): string {
    if value == "" then "\"\"" else "'" + ReplaceChar(value, '\'', "'\\''") + "'"
  }

  /** One step of the reader in each mode, as far as the quoting functions use it. */
  lemma Step(c: char, rest: string)
    ensures c == '\'' ==> ReadFrom([c] + rest, Unquoted) == ReadFrom(rest, Single)
    ensures c == '"' ==> ReadFrom([c] + rest, Unquoted) == ReadFrom(rest, Double)
    ensures IsPlain(c) ==> ReadFrom([c] + rest, Unquoted) == Prepend([c], ReadFrom(rest, Unquoted))
    ensures ReadFrom([c] + rest, Single)
            == if c == '\'' then ReadFrom(rest, Unquoted) else Prepend([c], ReadFrom(rest, Single))
    ensures c == '"' ==> ReadFrom([c] + rest, Double) == ReadFrom(rest, Unquoted)
    ensures c == '\'' ==> ReadFrom([c] + rest, Double) == Prepend([c], ReadFrom(rest, Double))
  {
    assert ([c] + rest)[0] == c && ([c] + rest)[1..] == rest;
  }

  lemma StepEscaped(c: char, rest: string)
    requires c != '\n'
    ensures ReadFrom(['\\', c] + rest, Unquoted) == Prepend([c], ReadFrom(rest, Unquoted))
  {
    var s := ['\\', c] + rest;
    assert s[0] == '\\' && s[1] == c && s[2..] == rest;
  }

  /** Inside single quotes, the escaped body and its closing quote read back as the value. */
  lemma {:induction false} QuotedBody(value: string, esc: string, rest: string)
    requires esc == "'\"'\"'" || esc == "'\\''"
    ensures ReadFrom(ReplaceChar(value, '\'', esc) + "'" + rest, Single) == Prepend(value, ReadFrom(rest, Unquoted))
  {
    hide ReadFrom, Prepend;
    var text := ReplaceChar(value, '\'', esc) + "'" + rest;
    if value == [] {
      assert text == ['\''] + rest;
      Step('\'', rest);
      PrependNothing(ReadFrom(rest, Unquoted));
    } else {
      var c, tail := value[0], ReplaceChar(value[1..], '\'', esc) + "'" + rest;
      QuotedBody(value[1..], esc, rest);
      PrependTwice([c], value[1..], ReadFrom(rest, Unquoted));
      assert value == [c] + value[1..];
      if c != '\'' {
        assert text == [c] + tail;
        Step(c, tail);
      } else {
        assert text == esc + tail;
        QuoteEscape(esc, tail);
      }
    }
  }

  /** Both escapes close the quote, put down one quote character and open the quote again. */
  lemma QuoteEscape(esc: string, tail: string)
    requires esc == "'\"'\"'" || esc == "'\\''"
    ensures ReadFrom(esc + tail, Single) == Prepend("'", ReadFrom(tail, Single))
  {
    hide ReadFrom, Prepend;
    var reopened := ['\''] + tail;
    Step('\'', tail);
    if esc == "'\"'\"'" {
      var closing := ['"'] + reopened;
      var inner := ['\''] + closing;
      var opening := ['"'] + inner;
      assert esc + tail == ['\''] + opening;
      Step('"', reopened);
      Step('\'', closing);
      Step('"', inner);
      Step('\'', opening);
    } else {
      var escaped := ['\\', '\''] + reopened;
      assert esc + tail == ['\''] + escaped;
      Step('\'', escaped);
      StepEscaped('\'', reopened);
    }
  }

  /** The shell reads back a quoted value as that value, wherever in a word it stands. */
  lemma ShellQuoteReadsBack(value: string, rest: string)
    ensures ReadFrom(ShellQuote(value) + rest, Unquoted) == Prepend(value, ReadFrom(rest, Unquoted))
  {
    var body := ReplaceChar(value, '\'', "'\"'\"'");
    assert ShellQuote(value) + rest == ['\''] + (body + "'" + rest);
    Step('\'', body + "'" + rest);
    QuotedBody(value, "'\"'\"'", rest);
  }

  lemma QuoteShellValueReadsBack(value: string, rest: string)
    ensures ReadFrom(QuoteShellValue(value) + rest, Unquoted) == Prepend(value, ReadFrom(rest, Unquoted))
  {
    if value == "" {
      assert QuoteShellValue(value) + rest == ['"'] + (['"'] + rest);
      Step('"', ['"'] + rest);
      Step('"', rest);
      PrependNothing(ReadFrom(rest, Unquoted));
    } else {
      var body := ReplaceChar(value, '\'', "'\\''");
      assert QuoteShellValue(value) + rest == ['\''] + (body + "'" + rest);
      Step('\'', body + "'" + rest);
      QuotedBody(value, "'\\''", rest);
    }
  }

  lemma {:induction false} PlainReadsBack(w: string, rest: string)
    requires forall c :: c in w ==> IsPlain(c)
    ensures ReadFrom(w + rest, Unquoted) == Prepend(w, ReadFrom(rest, Unquoted))
  {
    if w == [] {
      assert w + rest == rest;
      PrependNothing(ReadFrom(rest, Unquoted));
    } else {
      PlainReadsBack(w[1..], rest);
      assert IsPlain(w[0]);
      hide IsPlain, ReadFrom, Prepend;
      assert w == [w[0]] + w[1..];
      ConcatAssoc([w[0]], w[1..], rest);
      Step(w[0], w[1..] + rest);
      PrependTwice([w[0]], w[1..], ReadFrom(rest, Unquoted));
    }
  }

  // ---------- tokens of a composed script ----------

  lemma BlankSkipped(rest: string)
    ensures Tokenize(" " + rest) == Tokenize(rest)
  {
    assert (" " + rest)[1..] == rest;
  }

  lemma OperatorToken(op: string, rest: string)
    requires op in ["&&", "|", "<", ">", ">>", "\n"]
    requires |op| == 1 && rest != [] ==> rest[0] != op[0] || op == "\n"
    ensures Tokenize(op + rest) == PrependToken(Op(op), Tokenize(rest))
  {
    var s := op + rest;
    assert s[0] == op[0] && s[..|op|] == op && s[|op|..] == rest;
    assert OperatorLength(s) == |op| by {
      if |op| == 1 && rest != [] {
        assert s[..2] == [op[0], rest[0]];
      }
    }
  }

  /** A prefix that reads as `value` whatever follows, closed by a word end, is one word token. */
  lemma WordToken(text: string, value: string, rest: string)
    requires text != [] && !EndsWord(text) && EndsWord(rest) && !IsIoNumber(text, rest)
    requires ReadFrom(text + rest, Unquoted) == Prepend(value, ReadFrom(rest, Unquoted))
    ensures Tokenize(text + rest) == PrependToken(Word(value), Tokenize(rest))
  {
    assert (text + rest)[0] == text[0] && (text + rest)[..|text|] == text;
    assert value + [] == value;
  }

  lemma IoNumberToken(n: string, rest: string)
    requires IsIoNumber(n, rest)
    ensures Tokenize(n + rest) == PrependToken(IoNumber(n), Tokenize(rest))
  {
    forall c | c in n
      ensures IsPlain(c)
    {
      assert IsDigit(c);
    }
    PlainReadsBack(n, rest);
    assert IsPlain(n[0]);
    assert (n + rest)[0] == n[0] && (n + rest)[..|n|] == n;
  }

  lemma PlainToken(w: string, rest: string)
    requires w != [] && (forall c :: c in w ==> IsPlain(c)) && EndsWord(rest) && !IsIoNumber(w, rest)
    ensures Tokenize(w + rest) == PrependToken(Word(w), Tokenize(rest))
  {
    PlainReadsBack(w, rest);
    assert IsPlain(w[0]);
    WordToken(w, w, rest);
  }

  lemma QuotedToken(value: string, rest: string)
    requires EndsWord(rest)
    ensures Tokenize(ShellQuote(value) + rest) == PrependToken(Word(value), Tokenize(rest))
  {
    ShellQuoteReadsBack(value, rest);
    assert ShellQuote(value)[0] == '\'' && ShellQuote(value)[0] in ShellQuote(value);
    WordToken(ShellQuote(value), value, rest);
  }

  /** A name directly followed by a quoted value is one word. */
  lemma NamedToken(name: string, value: string, rest: string)
    requires name != [] && (forall c :: c in name ==> IsPlain(c)) && !IsDigit(name[0]) && EndsWord(rest)
    ensures Tokenize(name + ShellQuote(value) + rest) == PrependToken(Word(name + value), Tokenize(rest))
  {
    var quoted := ShellQuote(value);
    PlainReadsBack(name, quoted + rest);
    ShellQuoteReadsBack(value, rest);
    hide ShellQuote, ReadFrom, Tokenize;
    PrependTwice(name, value, ReadFrom(rest, Unquoted));
    ConcatAssoc(name, quoted, rest);
    assert (name + quoted)[0] == name[0] && name[0] in name && name[0] in name + quoted;
    WordToken(name + quoted, name + value, rest);
  }

  // ---------- export blocks ----------

  datatype Entry = Entry(key: string, value: string)

  /** Section 3.235 of the Base Definitions: letters, digits and underscores, not led by a digit. */
  predicate IsName(s: string) {
    s != []
    && (forall c :: c in s ==> c == '_' || 'a' <= c <= 'z' || 'A' <= c <= 'Z' || '0' <= c <= '9')
    && !('0' <= s[0] <= '9')
  }

  /** The operand of `export` cut at its first equals sign. */
  function ReadOperand(word: string): (e: Option<Entry>)
    ensures e.Some? ==> IsName(e.value.key)
  {
    var at := IndexOf(word, "=");
    if 0 <= at < |word| && IsName(word[..at]) then Some(Entry(word[..at], word[at + 1..])) else None
  }

  /** Reads a script of newline-separated `export name=value` commands and nothing else. */
  function ReadExportTokens(ts: seq<Token>): (es: Option<seq<Entry>>)
    ensures es.Some? ==> forall e :: e in es.value ==> IsName(e.key)
  {
    if ts == [] then Some([])
    else if ts[0] == Op("\n") then ReadExportTokens(ts[1..])
    else if |ts| >= 2 && ts[0] == Word("export") && ts[1].Word? && (|ts| == 2 || ts[2] == Op("\n")) then
      match (ReadOperand(ts[1].text), ReadExportTokens(ts[2..]))
      case (Some(e), Some(es)) => Some([e] + es)
      case (_, _) => None
    else None
  }

  function ReadExports(script: string): (es: Option<seq<Entry>>)
    ensures es.Some? ==> forall e :: e in es.value ==> IsName(e.key)
  {
    match Tokenize(script)
    case None => None
    case Some(tokens) => ReadExportTokens(tokens)
  }

  /** How an export block quotes its values. */
  datatype Style = WorktreeStyle | EnvStyle

  function Quote(style: Style, value: string): string {
    if style == WorktreeStyle then ShellQuote(value) else QuoteShellValue(value)
  }

  function ExportLine(style: Style, e: Entry): string {
    "export " + e.key + "=" + Quote(style, e.value)
  }

  function ExportLines(style: Style, es: seq<Entry>): seq<string> {
    if es == [] then [] else [ExportLine(style, es[0])] + ExportLines(style, es[1..])
  }

  function Kept(es: seq<Entry>): seq<Entry> {
    if es == [] then []
    else (if Trim(es[0].value) != [] then [es[0]] else []) + Kept(es[1..])
  }

  /** The worktree library's export block: blank values are dropped. */
  function FormatShellExports(es: seq<Entry>): string {
    Join(ExportLines(WorktreeStyle, Kept(es)), '\n')
  }

  /** The env command's export block: every row of the de-duplicated list. */
  function EnvExportBlock(rows: seq<Entry>): string {
    Join(ExportLines(EnvStyle, rows), '\n')
  }

  lemma OperandReadsBack(e: Entry)
    requires IsName(e.key)
    ensures ReadOperand(e.key + "=" + e.value) == Some(e)
  {
    var word := e.key + "=" + e.value;
    forall i | 0 <= i < |e.key|
      ensures !OccursAt(word, "=", i)
    {
      assert word[i] == e.key[i] && e.key[i] in e.key;
    }
    assert OccursAt(word, "=", |e.key|);
    IndexOfIsFirst(word, "=", |e.key|);
    assert word[..|e.key|] == e.key && word[|e.key| + 1..] == e.value;
  }

  lemma QuoteReadsBack(style: Style, value: string, rest: string)
    ensures ReadFrom(Quote(style, value) + rest, Unquoted) == Prepend(value, ReadFrom(rest, Unquoted))
  {
    if style == WorktreeStyle {
      ShellQuoteReadsBack(value, rest);
    } else {
      QuoteShellValueReadsBack(value, rest);
    }
  }

  lemma NameIsPlain(key: string)
    requires IsName(key)
    ensures forall c :: c in key + "=" ==> IsPlain(c)
  {
    forall c | c in key + "="
      ensures IsPlain(c)
    {
      assert c in key || c == '=';
    }
  }

  lemma OperandWord(style: Style, e: Entry, rest: string)
    requires IsName(e.key) && EndsWord(rest)
    ensures Tokenize(e.key + "=" + Quote(style, e.value) + rest)
            == PrependToken(Word(e.key + "=" + e.value), Tokenize(rest))
  {
    var name, quoted := e.key + "=", Quote(style, e.value);
    NameIsPlain(e.key);
    PlainReadsBack(name, quoted + rest);
    QuoteReadsBack(style, e.value, rest);
    PrependTwice(name, e.value, ReadFrom(rest, Unquoted));
    assert name + (quoted + rest) == name + quoted + rest;
    assert (name + quoted)[0] == e.key[0] && e.key[0] in name && e.key[0] in name + quoted;
    WordToken(name + quoted, name + e.value, rest);
  }

  lemma ExportLineTokens(style: Style, e: Entry, rest: string)
    requires IsName(e.key) && EndsWord(rest)
    ensures Tokenize(ExportLine(style, e) + rest)
            == PrependToken(Word("export"), PrependToken(Word(e.key + "=" + e.value), Tokenize(rest)))
  {
    hide Tokenize, Quote, ReadFrom;
    var operand := e.key + "=" + Quote(style, e.value) + rest;
    assert ExportLine(style, e) + rest == "export" + (" " + operand);
    PlainToken("export", " " + operand);
    BlankSkipped(operand);
    OperandWord(style, e, rest);
  }

  lemma ScriptStart(rest: string)
    requires rest == [] || rest[0] == '\n'
    requires Tokenize(rest).Some?
    ensures Tokenize(rest).value == [] || Tokenize(rest).value[0] == Op("\n")
  {
    if rest != [] {
      assert rest == "\n" + rest[1..];
      OperatorToken("\n", rest[1..]);
    }
  }

  /** One exported line in front of a readable script puts its entry in front of the script's. */
  lemma ExportLineReadsBack(style: Style, e: Entry, rest: string, es: seq<Entry>)
    requires IsName(e.key) && (rest == [] || rest[0] == '\n')
    requires ReadExports(rest) == Some(es)
    ensures ReadExports(ExportLine(style, e) + rest) == Some([e] + es)
  {
    hide Tokenize, ReadOperand, ExportLine;
    ExportLineTokens(style, e, rest);
    OperandReadsBack(e);
    var tokens := Tokenize(rest).value;
    var all := [Word("export")] + ([Word(e.key + "=" + e.value)] + tokens);
    assert Tokenize(ExportLine(style, e) + rest) == Some(all);
    assert all[2..] == tokens;
    ScriptStart(rest);
  }

  lemma NewlineReadsBack(rest: string, es: seq<Entry>)
    requires ReadExports(rest) == Some(es)
    ensures ReadExports("\n" + rest) == Some(es)
  {
    OperatorToken("\n", rest);
    assert ([Op("\n")] + Tokenize(rest).value)[1..] == Tokenize(rest).value;
  }

  lemma BlockText(style: Style, es: seq<Entry>)
    requires es != []
    ensures Join(ExportLines(style, es), '\n')
            == ExportLine(style, es[0]) + if |es| == 1 then [] else "\n" + Join(ExportLines(style, es[1..]), '\n')
  {
    hide ExportLine;
    var lines, first := ExportLines(style, es), ExportLine(style, es[0]);
    assert lines == [first] + ExportLines(style, es[1..]);
    assert lines[1..] == ExportLines(style, es[1..]);
    if |es| == 1 {
      assert first + [] == first;
    } else {
      ConcatAssoc(first, "\n", Join(lines[1..], '\n'));
    }
  }

  lemma NoExports()
    ensures ReadExports([]) == Some([])
  {
  }

  lemma {:induction false} BlockReadsBack(style: Style, es: seq<Entry>)
    requires forall e :: e in es ==> IsName(e.key)
    ensures ReadExports(Join(ExportLines(style, es), '\n')) == Some(es)
  {
    if es != [] {
      var e, more := es[0], Join(ExportLines(style, es[1..]), '\n');
      BlockReadsBack(style, es[1..]);
      hide Join, ExportLine, ReadExports, IsName, ExportLines;
      assert es == [e] + es[1..];
      BlockText(style, es);
      if |es| == 1 {
        NoExports();
        ExportLineReadsBack(style, e, [], []);
      } else {
        NewlineReadsBack(more, es[1..]);
        ExportLineReadsBack(style, e, "\n" + more, es[1..]);
      }
    }
  }

  /** A shell that runs the worktree export block sets exactly the kept entries, in order, whatever characters
      their values hold, newlines included; and this holds exactly when every kept key is a shell name. */
  lemma ShellExportsReadBack(es: seq<Entry>)
    ensures ReadExports(FormatShellExports(es)) == Some(Kept(es)) <==> forall e :: e in Kept(es) ==> IsName(e.key)
  {
    if forall e :: e in Kept(es) ==> IsName(e.key) {
      BlockReadsBack(WorktreeStyle, Kept(es));
    }
  }

  lemma EnvExportBlockReadsBack(rows: seq<Entry>)
    ensures ReadExports(EnvExportBlock(rows)) == Some(rows) <==> forall e :: e in rows ==> IsName(e.key)
  {
    if forall e :: e in rows ==> IsName(e.key) {
      BlockReadsBack(EnvStyle, rows);
    }
  }

  // ---------- uniqueByKey ----------

  function Keys(rows: seq<Entry>): set<string> {
    set e | e in rows :: e.key
  }

  /** The rows that are the first to carry their key. */
  function FirstOfEachKey(rows: seq<Entry>): seq<Entry> {
    if rows == [] then []
    else
      var before, last := rows[..|rows| - 1], rows[|rows| - 1];
      FirstOfEachKey(before) + (if last.key in Keys(before) then [] else [last])
  }

  /** Row i is the first with its key. */
  predicate IsFirst(rows: seq<Entry>, i: int) {
    0 <= i < |rows| && rows[i].key !in Keys(rows[..i])
  }

  lemma KeysOfAppended(rows: seq<Entry>, last: Entry)
    ensures Keys(rows + [last]) == Keys(rows) + {last.key}
  {
    assert forall e :: e in rows + [last] <==> e in rows || e == last;
    assert last in rows + [last];
  }

  lemma {:induction false} FirstOfEachKeyIsUnique(rows: seq<Entry>)
    ensures var kept := FirstOfEachKey(rows);
            Keys(kept) == Keys(rows) && forall i, j :: 0 <= i < j < |kept| ==> kept[i].key != kept[j].key
  {
    hide Keys;
    if rows != [] {
      var before, last := rows[..|rows| - 1], rows[|rows| - 1];
      FirstOfEachKeyIsUnique(before);
      assert rows == before + [last];
      var kept := FirstOfEachKey(before);
      assert kept + [] == kept;
      KeysOfAppended(before, last);
      KeysOfAppended(kept, last);
      forall i | 0 <= i < |kept|
        ensures kept[i].key in Keys(kept)
      {
        KeyIn(kept, i);
      }
    }
  }

  lemma KeyIn(rows: seq<Entry>, i: nat)
    requires i < |rows|
    ensures rows[i].key in Keys(rows)
  {
  }

  lemma FirstSoFar(rows: seq<Entry>, i: nat)
    requires i < |rows| - 1
    ensures IsFirst(rows[..|rows| - 1], i) <==> IsFirst(rows, i)
  {
    assert rows[..|rows| - 1][..i] == rows[..i];
  }

  /** The kept rows are exactly the first ones to carry their key. */
  lemma {:induction false} FirstOfEachKeyIsFirst(rows: seq<Entry>, e: Entry)
    ensures e in FirstOfEachKey(rows) <==> exists i :: IsFirst(rows, i) && rows[i] == e
  {
    hide Keys;
    if rows != [] {
      var n := |rows| - 1;
      var before := rows[..n];
      FirstOfEachKeyIsFirst(before, e);
      forall i | 0 <= i < n
        ensures IsFirst(before, i) <==> IsFirst(rows, i)
      {
        FirstSoFar(rows, i);
      }
      assert IsFirst(rows, n) <==> rows[n].key !in Keys(before);
    }
  }

  lemma FirstOfEachKeyStep(rows: seq<Entry>, k: nat)
    requires k < |rows|
    ensures Keys(rows[..k + 1]) == Keys(rows[..k]) + {rows[k].key}
    ensures FirstOfEachKey(rows[..k + 1])
            == FirstOfEachKey(rows[..k]) + (if rows[k].key in Keys(rows[..k]) then [] else [rows[k]])
  {
    assert rows[..k + 1] == rows[..k] + [rows[k]] && rows[..k + 1][..k] == rows[..k];
    KeysOfAppended(rows[..k], rows[k]);
    hide Keys;
  }

  method UniqueByKey(rows: seq<Entry>) returns (result: seq<Entry>)
    ensures result == FirstOfEachKey(rows)
  {
    var seen := {};
    result := [];
    assert Keys(rows[..0]) == {} && FirstOfEachKey(rows[..0]) == [];
    hide Keys, FirstOfEachKey;
    for k := 0 to |rows|
      invariant seen == Keys(rows[..k])
      invariant result == FirstOfEachKey(rows[..k])
    {
      var row := rows[k];
      FirstOfEachKeyStep(rows, k);
      if row.key in seen {
        assert seen + {row.key} == seen && result + [] == result;
        continue;
      }
      seen := seen + {row.key};
      result := result + [row];
    }
    assert rows[..|rows|] == rows;
  }
}
