/** packages/adapter-utils/src/command-managed-runtime.ts: moving files in and out of a sandbox through shell
    commands that may fail, or be reported as failed, at any point.

    A script is a list of small commands joined by `&&`. The runner decides, command by command, whether the
    script succeeds; a failed script may have stopped anywhere and may leave anything in the file it was
    decoding into. Renaming is atomic, and a decoder that reports success has read its whole input. */
module RemoteFiles {
  import opened Text
  import opened Base64
  import opened ShellWords

  type Files = map<string, Bytes>

  const SINGLE_STREAM_MAX_BASE64_BYTES: nat := 96 * 1024 * 1024
  const FALLBACK_BASE64_CHUNK_SIZE: nat := 4 * 1024 * 1024
  const DECODED_CHUNK_SIZE: nat := FALLBACK_BASE64_CHUNK_SIZE / 4 * 3

  // ---------- scripts: their text, and what a shell makes of it ----------

  datatype Command =
    | MakeDir(path: string)
    | DecodeTo(path: string)
    | DecodeAppend(path: string)
    | Remove(path: string)
    | Truncate(path: string)
    | Move(path: string, target: string)
    | CountBytes(path: string)
    | ReadBlock(path: string, block: nat)

  /** The blank-separated pieces of a script's text; a named operand is a name and a quoted value in one word. */
  datatype Piece =
    | Plain(word: string)
    | Symbol(op: string)
    | Path(value: string)
    | Named(name: string, value: string)
    | DropErrors

  predicate WellFormed(p: Piece) {
    match p
    case Plain(w) => w != [] && forall c :: c in w ==> IsPlain(c)
    case Symbol(op) => op in ["&&", ">", ">>", "<", "|"]
    case Path(_) => true
    case Named(n, _) => n != [] && (forall c :: c in n ==> IsPlain(c)) && !IsDigit(n[0])
    case DropErrors => true
  }

  function PieceText(p: Piece): string {
    match p
    case Plain(w) => w
    case Symbol(op) => op
    case Path(v) => ShellQuote(v)
    case Named(n, v) => n + ShellQuote(v)
    case DropErrors => "2>/dev/null"
  }

  function PieceTokens(p: Piece): seq<Token> {
    match p
    case Plain(w) => [Word(w)]
    case Symbol(op) => [Op(op)]
    case Path(v) => [Word(v)]
    case Named(n, v) => [Word(n + v)]
    case DropErrors => [IoNumber("2"), Op(">"), Word("/dev/null")]
  }

  const BLOCK_OPERAND: string := "bs=" + Decimal(DECODED_CHUNK_SIZE)

  function CommandPieces(c: Command): seq<Piece> {
    match c
    case MakeDir(p) => [Plain("mkdir"), Plain("-p"), Path(p)]
    case DecodeTo(p) => [Plain("base64"), Plain("-d"), Symbol(">"), Path(p)]
    case DecodeAppend(p) => [Plain("base64"), Plain("-d"), Symbol(">>"), Path(p)]
    case Remove(p) => [Plain("rm"), Plain("-f"), Path(p)]
    case Truncate(p) => [Plain(":"), Symbol(">"), Path(p)]
    case Move(p, t) => [Plain("mv"), Plain("-f"), Path(p), Path(t)]
    case CountBytes(p) => [Plain("wc"), Plain("-c"), Symbol("<"), Path(p)]
    case ReadBlock(p, k) =>
      [Plain("dd"), Named("if=", p), Plain(BLOCK_OPERAND), Plain("skip=" + Decimal(k)), Plain("count=1"), DropErrors,
       Symbol("|"), Plain("base64")]
  }

  function ScriptPieces(cs: seq<Command>): seq<Piece> {
    if cs == [] then []
    else if |cs| == 1 then CommandPieces(cs[0])
    else CommandPieces(cs[0]) + [Symbol("&&")] + ScriptPieces(cs[1..])
  }

  function Texts(ps: seq<Piece>): string {
    if ps == [] then ""
    else if |ps| == 1 then PieceText(ps[0])
    else PieceText(ps[0]) + (" " + Texts(ps[1..]))
  }

  function Tokens(ps: seq<Piece>): seq<Token> {
    if ps == [] then [] else PieceTokens(ps[0]) + Tokens(ps[1..])
  }

  function PrependTokens(ts: seq<Token>, r: Option<seq<Token>>): Option<seq<Token>> {
    match r
    case None => None
    case Some(tokens) => Some(ts + tokens)
  }

  lemma DropErrorsTokenized(rest: string)
    requires EndsWord(rest)
    ensures Tokenize("2>/dev/null" + rest) == PrependTokens(PieceTokens(DropErrors), Tokenize(rest))
  {
    hide Tokenize;
    var target := "/dev/null" + rest;
    assert "2>/dev/null" + rest == "2" + (">" + target);
    IoNumberToken("2", ">" + target);
    OperatorToken(">", target);
    WordIsPlain("/dev/null");
    assert "/dev/null"[0] == '/' && !IsDigit("/dev/null"[0]) && "/dev/null"[0] in "/dev/null";
    PlainToken("/dev/null", rest);
    var tail := Tokenize(rest);
    if tail.Some? {
      var words := [Word("/dev/null")] + tail.value;
      assert [IoNumber("2")] + ([Op(">")] + words) == PieceTokens(DropErrors) + tail.value;
    }
  }

  lemma PieceTokenized(p: Piece, rest: string)
    requires WellFormed(p) && (rest == [] || rest[0] == ' ')
    ensures Tokenize(PieceText(p) + rest) == PrependTokens(PieceTokens(p), Tokenize(rest))
  {
    hide Tokenize, ShellQuote;
    match p
    case Plain(w) => PlainToken(w, rest);
    case Symbol(op) => OperatorToken(op, rest);
    case Path(v) => QuotedToken(v, rest);
    case Named(n, v) => NamedToken(n, v, rest);
    case DropErrors => DropErrorsTokenized(rest);
  }

  lemma {:induction false} PiecesTokenized(ps: seq<Piece>)
    requires forall p :: p in ps ==> WellFormed(p)
    ensures Tokenize(Texts(ps)) == Some(Tokens(ps))
  {
    if |ps| == 1 {
      PieceTokenized(ps[0], "");
      assert PieceText(ps[0]) + "" == PieceText(ps[0]);
    } else if |ps| > 1 {
      PiecesTokenized(ps[1..]);
      hide Tokenize, PieceText, PieceTokens, WellFormed;
      BlankSkipped(Texts(ps[1..]));
      PieceTokenized(ps[0], " " + Texts(ps[1..]));
    }
  }

  predicate IsWordChar(c: char) {
    'a' <= c <= 'z' || '0' <= c <= '9' || c in "-:=/"
  }

  lemma WordIsPlain(w: string)
    requires w != [] && forall k :: 0 <= k < |w| ==> IsWordChar(w[k])
    ensures WellFormed(Plain(w))
  {
    forall c | c in w
      ensures IsPlain(c)
    {
      assert IsWordChar(c);
    }
  }

  lemma NumberIsPlain(name: string, n: nat)
    requires forall k :: 0 <= k < |name| ==> IsWordChar(name[k])
    ensures WellFormed(Plain(name + Decimal(n)))
  {
    hide Decimal;
    var w := name + Decimal(n);
    forall k | 0 <= k < |w|
      ensures IsWordChar(w[k])
    {
      if k >= |name| {
        assert w[k] == Decimal(n)[k - |name|];
        assert IsDigit(w[k]);
      }
    }
    WordIsPlain(w);
  }

  lemma ReadBlockWellFormed(path: string, block: nat)
    ensures var ps := CommandPieces(ReadBlock(path, block)); forall k :: 0 <= k < |ps| ==> WellFormed(ps[k])
  {
    hide IsPlain, Decimal;
    WordIsPlain("dd");
    WordIsPlain("if=");
    WordIsPlain("count=1");
    WordIsPlain("base64");
    NumberIsPlain("bs=", DECODED_CHUNK_SIZE);
    NumberIsPlain("skip=", block);
  }

  lemma CommandPiecesWellFormed(c: Command)
    ensures forall k :: 0 <= k < |CommandPieces(c)| ==> WellFormed(CommandPieces(c)[k])
  {
    if c.ReadBlock? {
      ReadBlockWellFormed(c.path, c.block);
    } else {
      hide IsPlain;
      WordIsPlain("mkdir");
      WordIsPlain("-p");
      WordIsPlain("base64");
      WordIsPlain("-d");
      WordIsPlain("rm");
      WordIsPlain("-f");
      WordIsPlain(":");
      WordIsPlain("mv");
      WordIsPlain("wc");
      WordIsPlain("-c");
    }
  }

  lemma {:induction false} ScriptPiecesWellFormed(cs: seq<Command>)
    ensures forall k :: 0 <= k < |ScriptPieces(cs)| ==> WellFormed(ScriptPieces(cs)[k])
  {
    if cs != [] {
      CommandPiecesWellFormed(cs[0]);
      ScriptPiecesWellFormed(cs[1..]);
    }
  }

  function ScriptText(cs: seq<Command>): string {
    Texts(ScriptPieces(cs))
  }

  /** Whatever characters the paths hold, the shell sees exactly the words and operators meant. */
  lemma ScriptTokenized(cs: seq<Command>)
    ensures Tokenize(ScriptText(cs)) == Some(Tokens(ScriptPieces(cs)))
  {
    ScriptPiecesWellFormed(cs);
    PiecesTokenized(ScriptPieces(cs));
  }

  // ---------- the commands a shell runs ----------

  /** What follows the name in an operand such as `if=…`. */
  function Operand(name: string, t: Token): Option<string> {
    if t.Word? && name <= t.text then Some(t.text[|name|..]) else None
  }

  function ParseNumber(s: string): Option<nat> {
    if s != [] && forall c :: c in s ==> IsDigit(c) then Some(DigitsValue(s)) else None
  }

  function ParseReadBlock(ts: seq<Token>): Option<Command>
    requires |ts| == 10
  {
    if ts[0] == Word("dd") && Operand("if=", ts[1]).Some? && ts[2] == Word(BLOCK_OPERAND)
       && Operand("skip=", ts[3]).Some? && ParseNumber(Operand("skip=", ts[3]).value).Some?
       && ts[4] == Word("count=1") && ts[5..8] == PieceTokens(DropErrors) && ts[8] == Op("|") && ts[9] == Word("base64")
    then Some(ReadBlock(Operand("if=", ts[1]).value, ParseNumber(Operand("skip=", ts[3]).value).value))
    else None
  }

  /** The command that a list of tokens without `&&` is; None for one that is not modelled. */
  function ParseCommand(ts: seq<Token>): Option<Command> {
    if |ts| == 3 && ts[2].Word? then
      if ts[0] == Word("mkdir") && ts[1] == Word("-p") then Some(MakeDir(ts[2].text))
      else if ts[0] == Word("rm") && ts[1] == Word("-f") then Some(Remove(ts[2].text))
      else if ts[0] == Word(":") && ts[1] == Op(">") then Some(Truncate(ts[2].text))
      else None
    else if |ts| == 4 && ts[3].Word? then
      if ts[0] == Word("base64") && ts[1] == Word("-d") && ts[2] == Op(">") then Some(DecodeTo(ts[3].text))
      else if ts[0] == Word("base64") && ts[1] == Word("-d") && ts[2] == Op(">>") then Some(DecodeAppend(ts[3].text))
      else if ts[0] == Word("wc") && ts[1] == Word("-c") && ts[2] == Op("<") then Some(CountBytes(ts[3].text))
      else if ts[0] == Word("mv") && ts[1] == Word("-f") && ts[2].Word? then Some(Move(ts[2].text, ts[3].text))
      else None
    else if |ts| == 10 then ParseReadBlock(ts)
    else None
  }

  /** The tokens in front of the first `&&`. */
  function FirstCommand(ts: seq<Token>): (first: seq<Token>)
    ensures first <= ts
  {
    if ts == [] || ts[0] == Op("&&") then [] else [ts[0]] + FirstCommand(ts[1..])
  }

  function ParseCommands(ts: seq<Token>): Option<seq<Command>>
    decreases |ts|
  {
    var first := FirstCommand(ts);
    match ParseCommand(first)
    case None => None
    case Some(c) =>
      if |first| == |ts| then Some([c])
      else
        match ParseCommands(ts[|first| + 1..])
        case None => None
        case Some(cs) => Some([c] + cs)
  }

  /** The `&&` list a shell makes of a text; an empty script is an empty list. */
  function ReadScript(text: string): Option<seq<Command>> {
    match Tokenize(text)
    case None => None
    case Some(ts) => if ts == [] then Some([]) else ParseCommands(ts)
  }

  function CommandTokens(c: Command): seq<Token> {
    match c
    case MakeDir(p) => [Word("mkdir"), Word("-p"), Word(p)]
    case DecodeTo(p) => [Word("base64"), Word("-d"), Op(">"), Word(p)]
    case DecodeAppend(p) => [Word("base64"), Word("-d"), Op(">>"), Word(p)]
    case Remove(p) => [Word("rm"), Word("-f"), Word(p)]
    case Truncate(p) => [Word(":"), Op(">"), Word(p)]
    case Move(p, t) => [Word("mv"), Word("-f"), Word(p), Word(t)]
    case CountBytes(p) => [Word("wc"), Word("-c"), Op("<"), Word(p)]
    case ReadBlock(p, k) =>
      [Word("dd"), Word("if=" + p), Word(BLOCK_OPERAND), Word("skip=" + Decimal(k)), Word("count=1"), IoNumber("2"),
       Op(">"), Word("/dev/null"), Op("|"), Word("base64")]
  }

  lemma {:induction false} TokensConcat(ps: seq<Piece>, qs: seq<Piece>)
    ensures Tokens(ps + qs) == Tokens(ps) + Tokens(qs)
  {
    if ps == [] {
      assert ps + qs == qs;
    } else {
      TokensConcat(ps[1..], qs);
      hide Tokens, PieceTokens;
      TokensOf(ps[0], ps[1..]);
      TokensOf(ps[0], ps[1..] + qs);
      assert ps == [ps[0]] + ps[1..];
      ConcatAssoc([ps[0]], ps[1..], qs);
      ConcatAssoc(PieceTokens(ps[0]), Tokens(ps[1..]), Tokens(qs));
    }
  }

  lemma TokensOf(p: Piece, ps: seq<Piece>)
    ensures Tokens([p] + ps) == PieceTokens(p) + Tokens(ps)
  {
    assert ([p] + ps)[1..] == ps;
  }

  /** Each of these pieces is one token. */
  lemma {:induction false} TokenPerPiece(ps: seq<Piece>)
    requires DropErrors !in ps
    ensures |Tokens(ps)| == |ps| && forall k :: 0 <= k < |ps| ==> [Tokens(ps)[k]] == PieceTokens(ps[k])
  {
    if ps != [] {
      TokenPerPiece(ps[1..]);
    }
  }

  lemma ReadBlockTokenized(path: string, block: nat)
    ensures Tokens(CommandPieces(ReadBlock(path, block))) == CommandTokens(ReadBlock(path, block))
  {
    hide Tokens, Decimal;
    var c := ReadBlock(path, block);
    var ps, ts := CommandPieces(c), CommandTokens(c);
    var front, back := ps[..5], ps[6..];
    assert ps == front + ([DropErrors] + back);
    TokensConcat(front, [DropErrors] + back);
    TokensOf(DropErrors, back);
    TokenPerPiece(front);
    TokenPerPiece(back);
    assert Tokens(front) == ts[..5];
    assert Tokens(back) == ts[8..];
    assert PieceTokens(DropErrors) == ts[5..8];
  }

  lemma CommandTokenized(c: Command)
    ensures Tokens(CommandPieces(c)) == CommandTokens(c)
  {
    hide Tokens;
    if c.ReadBlock? {
      ReadBlockTokenized(c.path, c.block);
    } else {
      TokenPerPiece(CommandPieces(c));
    }
  }

  lemma CommandParsed(c: Command)
    ensures ParseCommand(CommandTokens(c)) == Some(c)
  {
    if c.ReadBlock? {
      ReadBlockParsed(c.path, c.block);
    }
  }

  lemma ReadBlockParsed(path: string, block: nat)
    ensures ParseReadBlock(CommandTokens(ReadBlock(path, block))) == Some(ReadBlock(path, block))
  {
    hide Decimal, DigitsValue;
    var ts := CommandTokens(ReadBlock(path, block));
    DecimalReadsBack(block);
    assert ts[1].text[3..] == path && ts[3].text[5..] == Decimal(block);
    assert ts[5..8] == PieceTokens(DropErrors);
  }

  lemma {:induction false} FirstCommandOf(ts: seq<Token>, rest: seq<Token>)
    requires forall k :: 0 <= k < |ts| ==> ts[k] != Op("&&")
    requires rest == [] || rest[0] == Op("&&")
    ensures FirstCommand(ts + rest) == ts
  {
    if ts == [] {
      assert ts + rest == rest;
    } else {
      assert (ts + rest)[1..] == ts[1..] + rest;
      FirstCommandOf(ts[1..], rest);
    }
  }

  lemma ParsedOne(c: Command)
    ensures ParseCommands(CommandTokens(c)) == Some([c])
  {
    hide CommandTokens, ParseCommand, FirstCommand;
    var first := CommandTokens(c);
    CommandParsed(c);
    CommandHasNoAnd(c);
    FirstCommandOf(first, []);
    assert first + [] == first;
  }

  lemma ParsedMore(c: Command, ts: seq<Token>, cs: seq<Command>)
    requires ParseCommands(ts) == Some(cs)
    ensures ParseCommands(CommandTokens(c) + ([Op("&&")] + ts)) == Some([c] + cs)
  {
    hide CommandTokens, ParseCommand, FirstCommand;
    var first, rest := CommandTokens(c), [Op("&&")] + ts;
    CommandParsed(c);
    CommandHasNoAnd(c);
    FirstCommandOf(first, rest);
    assert (first + rest)[|first| + 1..] == ts;
  }

  lemma {:induction false} ScriptParsed(cs: seq<Command>)
    requires cs != []
    ensures ParseCommands(Tokens(ScriptPieces(cs))) == Some(cs)
  {
    hide CommandPieces, CommandTokens, Tokens, ParseCommands;
    CommandTokenized(cs[0]);
    if |cs| == 1 {
      ParsedOne(cs[0]);
      assert cs == [cs[0]];
    } else {
      var more := ScriptPieces(cs[1..]);
      ScriptParsed(cs[1..]);
      ParsedMore(cs[0], Tokens(more), cs[1..]);
      assert CommandPieces(cs[0]) + [Symbol("&&")] + more == CommandPieces(cs[0]) + ([Symbol("&&")] + more);
      TokensConcat(CommandPieces(cs[0]), [Symbol("&&")] + more);
      TokensOf(Symbol("&&"), more);
      assert cs == [cs[0]] + cs[1..];
    }
  }

  lemma CommandHasNoAnd(c: Command)
    ensures forall k :: 0 <= k < |CommandTokens(c)| ==> CommandTokens(c)[k] != Op("&&")
    ensures CommandTokens(c) != []
  {
  }

  lemma EmptyIsNoCommand()
    ensures ParseCommands([]) == None
  {
  }

  /** A shell reads the text of a script as exactly its commands, whatever characters the paths hold. */
  lemma ScriptReadsBack(cs: seq<Command>)
    ensures ReadScript(ScriptText(cs)) == Some(cs)
  {
    hide Tokenize, ScriptText, ParseCommand;
    ScriptTokenized(cs);
    if cs != [] {
      ScriptParsed(cs);
      EmptyIsNoCommand();
    }
  }

  // ---------- what scripts do to the files ----------

  /** A faulty run stops in command number `stage`, or is only reported as failed when the script is shorter. */
  datatype Fault = Healthy | Faulty(stage: nat, left: Option<Bytes>)

  /** The completed effect of a command, or None when it fails by itself. A pipeline reports its last command, so
      a failing `dd` goes unnoticed. */
  function Effect(c: Command, stdin: string, files: Files): Option<Files> {
    match c
    case MakeDir(_) => Some(files)
    case DecodeTo(p) => if StrictDecode(stdin).Some? then Some(files[p := StrictDecode(stdin).value]) else None
    case DecodeAppend(p) =>
      if StrictDecode(stdin).Some? then
        Some(files[p := (if p in files then files[p] else []) + StrictDecode(stdin).value])
      else None
    case Remove(p) => Some(files - {p})
    case Truncate(p) => Some(files[p := []])
    case Move(p, t) => if p in files then Some((files - {p})[t := files[p]]) else None
    case CountBytes(p) => if p in files then Some(files) else None
    case ReadBlock(_, _) => Some(files)
  }

  /** An interrupted decoder may leave anything in its file; the other commands happen or do not. */
  function Interrupted(c: Command, files: Files, left: Option<Bytes>): Files {
    if (c.DecodeTo? || c.DecodeAppend?) && left.Some? then files[c.path := left.value] else files
  }

  datatype Outcome = Outcome(files: Files, ok: bool)

  function RunScript(cs: seq<Command>, stdin: string, files: Files, fault: Fault): Outcome {
    if cs == [] then Outcome(files, fault.Healthy?)
    else if fault.Faulty? && fault.stage == 0 then Outcome(Interrupted(cs[0], files, fault.left), false)
    else
      match Effect(cs[0], stdin, files)
      case None => Outcome(files, false)
      case Some(next) =>
        RunScript(cs[1..], stdin, next, if fault.Faulty? then Faulty(fault.stage - 1, fault.left) else Healthy)
  }

  /** What a shell that is given the text does to the files. */
  function RunText(text: string, stdin: string, files: Files, fault: Fault): Outcome {
    match ReadScript(text)
    case None => Outcome(files, false)
    case Some(cs) => RunScript(cs, stdin, files, fault)
  }

  // ---------- upload ----------

  function TempPath(remotePath: string): (temp: string)
    ensures temp != remotePath
  {
    remotePath + ".paperclip-upload"
  }

  function UploadScript(dir: string, remotePath: string): seq<Command> {
    [MakeDir(dir), DecodeTo(TempPath(remotePath)), Move(TempPath(remotePath), remotePath)]
  }

  function ResetScript(dir: string, remotePath: string): seq<Command> {
    [MakeDir(dir), Remove(TempPath(remotePath)), Truncate(TempPath(remotePath))]
  }

  /** One upload attempt as seen from outside: it replaces the file and leaves no temporary file, or it fails
      having touched nothing but the temporary file, except that the replacement itself may have happened. */
  ghost predicate Attempt(before: Files, after: Files, remotePath: string, buffer: Bytes, ok: bool) {
    var temp := TempPath(remotePath);
    var replaced := (before - {temp})[remotePath := buffer];
    if ok then after == replaced else after - {temp} == before - {temp} || after == replaced
  }

  /** Midway through the fallback upload: the temporary file holds a prefix and nothing else has changed. */
  ghost predicate Uploading(before: Files, files: Files, remotePath: string, prefix: Bytes) {
    var temp := TempPath(remotePath);
    temp in files && files[temp] == prefix && files - {temp} == before - {temp}
  }

  /** What is left of a fault once one command has completed. */
  function Later(fault: Fault): Fault {
    if fault.Faulty? && fault.stage > 0 then Faulty(fault.stage - 1, fault.left) else fault
  }

  lemma RunFirst(c: Command, rest: seq<Command>, stdin: string, files: Files, fault: Fault)
    ensures var o := RunScript([c] + rest, stdin, files, fault);
            if fault.Faulty? && fault.stage == 0 then o == Outcome(Interrupted(c, files, fault.left), false)
            else if Effect(c, stdin, files).None? then o == Outcome(files, false)
            else o == RunScript(rest, stdin, Effect(c, stdin, files).value, Later(fault))
  {
    assert ([c] + rest)[1..] == rest;
  }

  lemma RunNone(stdin: string, files: Files, fault: Fault)
    ensures RunScript([], stdin, files, fault) == Outcome(files, fault.Healthy?)
  {
  }

  lemma RunThree(a: Command, b: Command, c: Command, stdin: string, files: Files, fault: Fault)
    ensures var o := RunScript([a, b, c], stdin, files, fault);
            o == RunScript([a] + ([b] + ([c] + [])), stdin, files, fault)
  {
    assert [a, b, c] == [a] + ([b] + ([c] + []));
  }

  lemma SingleUpload(dir: string, remotePath: string, buffer: Bytes, files: Files, fault: Fault)
    ensures var o := RunScript(UploadScript(dir, remotePath), Encode(Standard, buffer), files, fault);
            o.ok == fault.Healthy? && Attempt(files, o.files, remotePath, buffer, o.ok)
  {
    hide RunScript, Encode, StrictDecode;
    StrictDecodesEncoded(buffer);
    var stdin, temp := Encode(Standard, buffer), TempPath(remotePath);
    var decoded := files[temp := buffer];
    var makeDir, decode, move := MakeDir(dir), DecodeTo(temp), Move(temp, remotePath);
    RunThree(makeDir, decode, move, stdin, files, fault);
    RunFirst(makeDir, [decode] + ([move] + []), stdin, files, fault);
    RunFirst(decode, [move] + [], stdin, files, Later(fault));
    RunFirst(move, [], stdin, decoded, Later(Later(fault)));
    RunNone(stdin, (files - {temp})[remotePath := buffer], Later(Later(Later(fault))));
    assert decoded - {temp} == files - {temp};
    assert (files - {temp})[remotePath := buffer] - {temp} == (files - {temp})[remotePath := buffer];
    if fault.Faulty? {
      InterruptedTouchesOnlyTemp(decode, files, fault);
    }
  }

  lemma InterruptedTouchesOnlyTemp(c: Command, files: Files, fault: Fault)
    requires fault.Faulty?
    ensures Interrupted(c, files, fault.left) - {c.path} == files - {c.path}
  {
  }

  lemma ResetRun(dir: string, remotePath: string, buffer: Bytes, files: Files, fault: Fault)
    ensures var o := RunScript(ResetScript(dir, remotePath), "", files, fault);
            o.ok == fault.Healthy?
            && (if o.ok then Uploading(files, o.files, remotePath, [])
                else Attempt(files, o.files, remotePath, buffer, false))
  {
    var temp := TempPath(remotePath);
    var makeDir, remove, truncate := MakeDir(dir), Remove(temp), Truncate(temp);
    RunThree(makeDir, remove, truncate, "", files, fault);
    RunFirst(makeDir, [remove] + ([truncate] + []), "", files, fault);
    RunFirst(remove, [truncate] + [], "", files, Later(fault));
    RunFirst(truncate, [], "", files - {temp}, Later(Later(fault)));
    assert (files - {temp})[temp := []] - {temp} == files - {temp};
    assert (files - {temp}) - {temp} == files - {temp};
  }

  lemma AppendRun(before: Files, remotePath: string, buffer: Bytes, prefix: Bytes, chunk: Bytes, files: Files,
                  fault: Fault)
    requires Uploading(before, files, remotePath, prefix)
    ensures var o := RunScript([DecodeAppend(TempPath(remotePath))], Encode(Standard, chunk), files, fault);
            o.ok == fault.Healthy?
            && (if o.ok then Uploading(before, o.files, remotePath, prefix + chunk)
                else Attempt(before, o.files, remotePath, buffer, false))
  {
    StrictDecodesEncoded(chunk);
    var temp := TempPath(remotePath);
    assert [DecodeAppend(temp)] == [DecodeAppend(temp)] + [];
    RunFirst(DecodeAppend(temp), [], Encode(Standard, chunk), files, fault);
    assert files[temp := files[temp] + chunk] - {temp} == files - {temp};
    if fault.Faulty? {
      InterruptedTouchesOnlyTemp(DecodeAppend(temp), files, fault);
    }
  }

  lemma RenameRun(before: Files, remotePath: string, buffer: Bytes, files: Files, fault: Fault)
    requires Uploading(before, files, remotePath, buffer)
    ensures var o := RunScript([Move(TempPath(remotePath), remotePath)], "", files, fault);
            o.ok == fault.Healthy? && Attempt(before, o.files, remotePath, buffer, o.ok)
  {
    var move := Move(TempPath(remotePath), remotePath);
    assert [move] == [move] + [];
    RunFirst(move, [], "", files, fault);
  }

  function Min(a: nat, b: nat): nat {
    if a <= b then a else b
  }

  /** The chunks of the fallback upload, in order. */
  function Chunks(buffer: Bytes): seq<Bytes>
    decreases |buffer|
  {
    if buffer == [] then []
    else
      var n := Min(|buffer|, DECODED_CHUNK_SIZE);
      [buffer[..n]] + Chunks(buffer[n..])
  }

  function Bodies(chunks: seq<Bytes>): seq<string> {
    if chunks == [] then [] else [Encode(Standard, chunks[0])] + Bodies(chunks[1..])
  }

  function Concat<T>(parts: seq<seq<T>>): seq<T> {
    if parts == [] then [] else parts[0] + Concat(parts[1..])
  }

  lemma {:induction false} ChunksCover(buffer: Bytes)
    ensures Concat(Chunks(buffer)) == buffer
    decreases |buffer|
  {
    if buffer != [] {
      var n := Min(|buffer|, DECODED_CHUNK_SIZE);
      ChunksCover(buffer[n..]);
      assert buffer == buffer[..n] + buffer[n..];
    }
  }

  lemma {:induction false} ChunkSizes(buffer: Bytes)
    ensures forall k :: 0 <= k < |Chunks(buffer)| ==> 0 < |Chunks(buffer)[k]| <= DECODED_CHUNK_SIZE
    ensures forall k :: 0 <= k < |Chunks(buffer)| - 1 ==> |Chunks(buffer)[k]| % 3 == 0
    decreases |buffer|
  {
    if buffer != [] {
      var n := Min(|buffer|, DECODED_CHUNK_SIZE);
      ChunkSizes(buffer[n..]);
      assert n < |buffer| ==> n % 3 == 0;
    }
  }

  lemma {:induction false} BodiesConcat(chunks: seq<Bytes>)
    requires forall k :: 0 <= k < |chunks| - 1 ==> |chunks[k]| % 3 == 0
    ensures Concat(Bodies(chunks)) == Encode(Standard, Concat(chunks))
  {
    if chunks != [] {
      BodiesConcat(chunks[1..]);
      assert Bodies(chunks)[1..] == Bodies(chunks[1..]);
      if |chunks| == 1 {
        assert Concat(chunks) == chunks[0];
      } else {
        EncodeConcat(chunks[0], Concat(chunks[1..]));
      }
    }
  }

  lemma {:induction false} BodyLength(chunks: seq<Bytes>, k: nat)
    requires k < |chunks|
    ensures |Bodies(chunks)| == |chunks| && |Bodies(chunks)[k]| == Base64EncodedLength(|chunks[k]|)
    decreases k + |chunks|
  {
    EncodedLengthExact(chunks[k]);
    if |chunks| > 1 {
      BodyLength(chunks[1..], if k > 0 then k - 1 else 0);
    }
  }

  lemma NoBodies()
    ensures Bodies([]) == []
  {
  }

  /** The chunked bodies put together are the single-stream body, and none is longer than four mebibytes. */
  lemma ChunkedBodies(buffer: Bytes)
    ensures Concat(Bodies(Chunks(buffer))) == Encode(Standard, buffer)
    ensures forall k :: 0 <= k < |Bodies(Chunks(buffer))| ==> |Bodies(Chunks(buffer))[k]| <= FALLBACK_BASE64_CHUNK_SIZE
  {
    hide Chunks, Bodies, Concat, Encode;
    var chunks := Chunks(buffer);
    ChunksCover(buffer);
    ChunkSizes(buffer);
    BodiesConcat(chunks);
    if chunks == [] {
      NoBodies();
    } else {
      BodyLength(chunks, 0);
    }
    forall k | 0 <= k < |chunks|
      ensures |Bodies(chunks)[k]| <= FALLBACK_BASE64_CHUNK_SIZE
    {
      BodyLength(chunks, k);
    }
  }

  /** How many commands an upload that goes well sends. */
  function UploadCommands(buffer: Bytes, singleStream: bool): nat {
    if singleStream then 1 else |Chunks(buffer)| + 2
  }

  /** The standard inputs such an upload hands to the runner, command by command. */
  function UploadInputs(buffer: Bytes, singleStream: bool): seq<string> {
    if singleStream then [Encode(Standard, buffer)] else [""] + Bodies(Chunks(buffer)) + [""]
  }

  predicate SingleStream(buffer: Bytes, supportsSingleStream: bool) {
    Base64EncodedLength(|buffer|) <= SINGLE_STREAM_MAX_BASE64_BYTES && supportsSingleStream
  }

  /** With `done` chunks sent up to offset, the bodies left over are those of the rest of the buffer. */
  ghost predicate Pending(buffer: Bytes, offset: nat, done: int)
    requires offset <= |buffer|
  {
    var bodies := Bodies(Chunks(buffer));
    && |bodies| == |Chunks(buffer)|
    && 0 <= done <= |bodies|
    && bodies[done..] == Bodies(Chunks(buffer[offset..]))
    && done + |Chunks(buffer[offset..])| == |Chunks(buffer)|
  }

  lemma PendingStart(buffer: Bytes)
    ensures Pending(buffer, 0, 0)
  {
    assert buffer[0..] == buffer;
    if Chunks(buffer) != [] {
      BodyLength(Chunks(buffer), 0);
    }
  }

  lemma PendingEnd(buffer: Bytes, done: nat)
    requires Pending(buffer, |buffer|, done)
    ensures done == |Chunks(buffer)| == |Bodies(Chunks(buffer))|
  {
    assert buffer[|buffer|..] == [];
  }

  lemma ChunksStep(buffer: Bytes, offset: nat)
    requires offset < |buffer|
    ensures var end := Min(|buffer|, offset + DECODED_CHUNK_SIZE);
            buffer[..end] == buffer[..offset] + buffer[offset..end]
            && Chunks(buffer[offset..]) == [buffer[offset..end]] + Chunks(buffer[end..])
  {
    var end := Min(|buffer|, offset + DECODED_CHUNK_SIZE);
    assert buffer[offset..][..end - offset] == buffer[offset..end];
    assert buffer[offset..][end - offset..] == buffer[end..];
  }

  lemma PendingStep(buffer: Bytes, offset: nat, done: nat)
    requires offset < |buffer| && Pending(buffer, offset, done)
    ensures var end := Min(|buffer|, offset + DECODED_CHUNK_SIZE);
            var chunk := buffer[offset..end];
            && buffer[..end] == buffer[..offset] + chunk
            && done < |Bodies(Chunks(buffer))| && Bodies(Chunks(buffer))[done] == Encode(Standard, chunk)
            && Pending(buffer, end, done + 1)
  {
    hide Chunks, Encode;
    var end := Min(|buffer|, offset + DECODED_CHUNK_SIZE);
    var bodies, more := Bodies(Chunks(buffer)), Chunks(buffer[end..]);
    ChunksStep(buffer, offset);
    assert ([buffer[offset..end]] + more)[1..] == more;
    assert bodies[done..] == [Encode(Standard, buffer[offset..end])] + Bodies(more);
    assert bodies[done] == bodies[done..][0];
    assert bodies[done + 1..] == bodies[done..][1..];
  }

  lemma InputsStep(before: seq<string>, bodies: seq<string>, done: nat)
    requires done < |bodies|
    ensures before + ([""] + bodies[..done]) + [bodies[done]] == before + ([""] + bodies[..done + 1])
    ensures before + ([""] + bodies[..done + 1]) <= before + ([""] + bodies + [""])
  {
  }

  lemma InputsEnd(before: seq<string>, bodies: seq<string>)
    ensures before + ([""] + bodies) + [""] == before + ([""] + bodies + [""])
  {
  }

  class RemoteHost {
    var files: Files
    var inputs: seq<string>

    constructor (files: Files)
      ensures this.files == files && inputs == []
    {
      this.files, inputs := files, [];
    }

    /** The runner is handed a text; the answer says whether the command is reported as successful. */
    method Execute(script: string, stdin: string, fault: Fault) returns (ok: bool)
      modifies this
      ensures Outcome(files, ok) == RunText(script, stdin, old(files), fault)
      ensures inputs == old(inputs) + [stdin]
    {
      var o := RunText(script, stdin, files, fault);
      files, ok := o.files, o.ok;
      inputs := inputs + [stdin];
    }

    /** One `runShell` call: the text of the commands goes out, and these very commands are run. */
    method RunShell(script: seq<Command>, stdin: string, fault: Fault) returns (ok: bool)
      modifies this
      ensures Outcome(files, ok) == RunScript(script, stdin, old(files), fault)
      ensures inputs == old(inputs) + [stdin]
    {
      hide ReadScript, ScriptText;
      ScriptReadsBack(script);
      ok := Execute(ScriptText(script), stdin, fault);
    }

    /** The state of the fallback upload after `done` chunks, which reach up to offset. */
    ghost predicate InFlight(before: Files, inputs0: seq<string>, remotePath: string, buffer: Bytes, offset: nat,
                             done: int)
      requires offset <= |buffer|
      reads this
    {
      && Uploading(before, files, remotePath, buffer[..offset])
      && Pending(buffer, offset, done)
      && inputs == inputs0 + ([""] + Bodies(Chunks(buffer))[..done])
    }

    /** One `base64 -d >> temp` command. */
    method SendChunk(ghost before: Files, ghost inputs0: seq<string>, remotePath: string, buffer: Bytes, offset: nat,
                     end: nat, ghost done: nat, fault: Fault)
      returns (ok: bool)
      requires offset < |buffer| && end == Min(|buffer|, offset + DECODED_CHUNK_SIZE)
      requires InFlight(before, inputs0, remotePath, buffer, offset, done)
      modifies this
      ensures ok == fault.Healthy?
      ensures if ok then InFlight(before, inputs0, remotePath, buffer, end, done + 1)
              else Attempt(before, files, remotePath, buffer, false)
      ensures inputs <= inputs0 + UploadInputs(buffer, false)
    {
      var chunk := buffer[offset..end];
      PendingStep(buffer, offset, done);
      AppendRun(before, remotePath, buffer, buffer[..offset], chunk, files, fault);
      ok := RunShell([DecodeAppend(TempPath(remotePath))], Encode(Standard, chunk), fault);
      InputsStep(inputs0, Bodies(Chunks(buffer)), done);
    }

    /** The fallback upload: reset, one append per chunk, rename. */
    method WriteInChunks(dir: string, remotePath: string, buffer: Bytes, faults: nat -> Fault) returns (ok: bool)
      modifies this
      ensures Attempt(old(files), files, remotePath, buffer, ok)
      ensures ok <==> forall k :: 0 <= k < UploadCommands(buffer, false) ==> faults(k).Healthy?
      ensures inputs <= old(inputs) + UploadInputs(buffer, false)
      ensures ok ==> inputs == old(inputs) + UploadInputs(buffer, false)
    {
      hide Chunks, Bodies, Encode, RunScript, ResetScript, Attempt, Uploading;
      var total, temp := |buffer|, TempPath(remotePath);
      ghost var bodies := Bodies(Chunks(buffer));
      ResetRun(dir, remotePath, buffer, files, faults(0));
      ok := RunShell(ResetScript(dir, remotePath), "", faults(0));
      if !ok {
        return;
      }
      PendingStart(buffer);
      var offset, sent := 0, 1;
      while offset < total
        invariant InFlight(old(files), old(inputs), remotePath, buffer, Min(offset, total), sent - 1)
        invariant forall k :: 0 <= k < sent ==> faults(k).Healthy?
      {
        var end := Min(total, offset + DECODED_CHUNK_SIZE);
        ok := SendChunk(old(files), old(inputs), remotePath, buffer, offset, end, sent - 1, faults(sent));
        if !ok {
          return;
        }
        sent := sent + 1;
        offset := offset + DECODED_CHUNK_SIZE;
      }
      assert buffer[..total] == buffer;
      PendingEnd(buffer, sent - 1);
      assert bodies[..sent - 1] == bodies;
      RenameRun(old(files), remotePath, buffer, files, faults(sent));
      ok := RunShell([Move(temp, remotePath)], "", faults(sent));
      InputsEnd(old(inputs), bodies);
    }

    /** `writeFile`. The runner's k-th command meets fault number k; the first reported failure ends the upload.
        Both branches put down the same bytes, and whatever a stale temporary file held is of no consequence. */
    method WriteFile(dir: string, remotePath: string, buffer: Bytes, supportsSingleStream: bool, faults: nat -> Fault)
      returns (ok: bool)
      modifies this
      ensures Attempt(old(files), files, remotePath, buffer, ok)
      ensures ok <==> forall k :: 0 <= k < UploadCommands(buffer, SingleStream(buffer, supportsSingleStream)) ==>
                                    faults(k).Healthy?
      ensures inputs <= old(inputs) + UploadInputs(buffer, SingleStream(buffer, supportsSingleStream))
      ensures ok ==> inputs == old(inputs) + UploadInputs(buffer, SingleStream(buffer, supportsSingleStream))
    {
      if Base64EncodedLength(|buffer|) <= SINGLE_STREAM_MAX_BASE64_BYTES && supportsSingleStream {
        SingleUpload(dir, remotePath, buffer, files, faults(0));
        ok := RunShell(UploadScript(dir, remotePath), Encode(Standard, buffer), faults(0));
      } else {
        ok := WriteInChunks(dir, remotePath, buffer, faults);
      }
    }
  }

  // ---------- many attempts ----------

  datatype Upload = Upload(buffer: Bytes, ok: bool)

  function Content(files: Files, path: string): Option<Bytes> {
    if path in files then Some(files[path]) else None
  }

  ghost predicate History(states: seq<Files>, uploads: seq<Upload>, remotePath: string) {
    |states| == |uploads| + 1
    && forall k :: 0 <= k < |uploads| ==>
                     Attempt(states[k], states[k + 1], remotePath, uploads[k].buffer, uploads[k].ok)
  }

  /** Attempt number k wrote what the file holds in the end. */
  ghost predicate Wrote(states: seq<Files>, uploads: seq<Upload>, remotePath: string, k: int)
    requires states != []
  {
    0 <= k < |uploads| && Content(states[|states| - 1], remotePath) == Some(uploads[k].buffer)
  }

  /** After any sequence of attempts, however they failed, the file holds what it held before all of them or
      the whole content of one of them, never older than the last one that reported success. */
  lemma {:induction false} FileIsNeverTorn(states: seq<Files>, uploads: seq<Upload>, remotePath: string)
    requires History(states, uploads, remotePath)
    ensures Content(states[|uploads|], remotePath) == Content(states[0], remotePath)
            || exists k :: Wrote(states, uploads, remotePath, k)
    ensures forall s :: 0 <= s < |uploads| && uploads[s].ok ==>
              exists k :: s <= k && Wrote(states, uploads, remotePath, k)
  {
    if uploads != [] {
      var n := |uploads| - 1;
      var states0, uploads0 := states[..n + 1], uploads[..n];
      FileIsNeverTorn(states0, uploads0, remotePath);
      KeptOrReplaced(states[n], states[n + 1], remotePath, uploads[n].buffer, uploads[n].ok);
      var same := Content(states[n + 1], remotePath) == Content(states[n], remotePath);
      if !same {
        assert Wrote(states, uploads, remotePath, n);
      }
      forall k | same && Wrote(states0, uploads0, remotePath, k)
        ensures Wrote(states, uploads, remotePath, k)
      {
      }
      if uploads[n].ok {
        assert Wrote(states, uploads, remotePath, n);
      }
      forall s | 0 <= s < |uploads| && uploads[s].ok
        ensures exists k :: s <= k && Wrote(states, uploads, remotePath, k)
      {
        if same && s < n {
          assert uploads0[s].ok;
          var k :| s <= k && Wrote(states0, uploads0, remotePath, k);
          assert Wrote(states, uploads, remotePath, k);
        }
      }
    }
  }

  lemma KeptOrReplaced(before: Files, after: Files, remotePath: string, buffer: Bytes, ok: bool)
    requires Attempt(before, after, remotePath, buffer, ok)
    ensures Content(after, remotePath) == Some(buffer)
            || (!ok && Content(after, remotePath) == Content(before, remotePath))
  {
    var temp := TempPath(remotePath);
    assert Content(after, remotePath) == Content(after - {temp}, remotePath);
    assert Content(before, remotePath) == Content(before - {temp}, remotePath);
  }

  // ---------- download ----------

  /** What a command of the download answers: a failure, or its standard output. */
  datatype Reply = Failed | Stdout(text: string)

  datatype ReadResult = Ok(bytes: Bytes) | CommandFailed | SizeUnknown | Truncated

  /** `text.replace(/\s+/g, "")`. */
  function StripSpace(s: string): string {
    if s == [] then [] else (if IsSpace(s[0]) then [] else [s[0]]) + StripSpace(s[1..])
  }

  function LeadingDigits(s: string): (d: string)
    ensures forall c :: c in d ==> IsDigit(c)
  {
    if s != [] && IsDigit(s[0]) then [s[0]] + LeadingDigits(s[1..]) else []
  }

  /** `Number.parseInt(text.trim(), 10)`: a sign and the leading digits; None stands for NaN. */
  function ParseInt(text: string): Option<int> {
    var s := Trim(text);
    var body := if s != [] && (s[0] == '-' || s[0] == '+') then s[1..] else s;
    var digits := LeadingDigits(body);
    if digits == [] then None
    else
      var n: int := DigitsValue(digits);
      Some(if s[0] == '-' then -n else n)
  }

  function Block(file: Bytes, k: nat): Bytes {
    var from := Min(|file|, k * DECODED_CHUNK_SIZE);
    file[from..Min(|file|, from + DECODED_CHUNK_SIZE)]
  }

  function Decoded(text: string): Bytes {
    NodeDecode(StripSpace(text))
  }

  /** What `dd … | base64` may print about one unchanging file: the standard encoding of the beginning of the block,
      since a `dd` may come back short, broken into lines in any way, and possibly cut off itself. */
  ghost predicate Printed(text: string, block: Bytes, sent: Bytes) {
    sent <= block && StripSpace(text) <= Encode(Standard, sent)
  }

  /** The remote side answers about one unchanging file: `wc -c` prints its size, with blanks around it. */
  ghost predicate Honest(file: Bytes, size: Reply, replies: nat -> Reply) {
    && (size.Stdout? ==> Trim(size.text) == Decimal(|file|))
    && forall k: nat :: replies(k).Stdout? ==> exists sent :: Printed(replies(k).text, Block(file, k), sent)
  }

  /** What the runner answers to the download's two commands. */
  function SizeReply(runner: string -> Reply, remotePath: string): Reply {
    runner(ScriptText([CountBytes(remotePath)]))
  }

  function BlockReplies(runner: string -> Reply, remotePath: string): nat -> Reply {
    (k: nat) => runner(ScriptText([ReadBlock(remotePath, k)]))
  }

  /** The runner hands texts to a shell, and the commands that this shell reads answer about one unchanging file. */
  ghost predicate HonestRunner(file: Bytes, remotePath: string, runner: string -> Reply) {
    && (forall text :: ReadScript(text) == Some([CountBytes(remotePath)]) && runner(text).Stdout? ==>
                         Trim(runner(text).text) == Decimal(|file|))
    && (forall text, k: nat :: ReadScript(text) == Some([ReadBlock(remotePath, k)]) && runner(text).Stdout? ==>
                                 exists sent :: Printed(runner(text).text, Block(file, k), sent))
  }

  lemma RunnerReplies(file: Bytes, remotePath: string, runner: string -> Reply)
    requires HonestRunner(file, remotePath, runner)
    ensures Honest(file, SizeReply(runner, remotePath), BlockReplies(runner, remotePath))
  {
    hide ReadScript, ScriptText, Printed, Trim, Decimal, Block;
    ScriptReadsBack([CountBytes(remotePath)]);
    forall k: nat
      ensures ReadScript(ScriptText([ReadBlock(remotePath, k)])) == Some([ReadBlock(remotePath, k)])
    {
      ScriptReadsBack([ReadBlock(remotePath, k)]);
    }
  }

  /** Every digit of the whole block has come, if perhaps not its padding. */
  predicate Complete(file: Bytes, replies: nat -> Reply, k: nat) {
    replies(k).Stdout? && Digits(Standard, Sextets(Block(file, k))) <= StripSpace(replies(k).text)
  }

  lemma {:induction false} LeadingDigitsWhole(s: string)
    requires forall c :: c in s ==> IsDigit(c)
    ensures LeadingDigits(s) == s
  {
    if s != [] {
      LeadingDigitsWhole(s[1..]);
    }
  }

  lemma SizeIsRead(text: string, n: nat)
    requires Trim(text) == Decimal(n)
    ensures ParseInt(text) == Some(n)
  {
    var s := Decimal(n);
    assert s[0] in s;
    LeadingDigitsWhole(s);
    DecimalReadsBack(n);
  }

  /** The client decodes the beginning of the block, and the whole of it exactly from a complete reply. */
  lemma PrintedDecodes(text: string, block: Bytes, sent: Bytes)
    requires Printed(text, block, sent)
    ensures Decoded(text) <= block
    ensures Decoded(text) == block <==> Digits(Standard, Sextets(block)) <= StripSpace(text)
  {
    hide Encode, NodeDecode, StripSpace;
    CutDecodesToPrefix(Standard, sent, StripSpace(text));
    if Decoded(text) == block {
      assert sent == block;
      WholeNeedsEveryDigit(Standard, block, StripSpace(text));
    } else if Digits(Standard, Sextets(block)) <= StripSpace(text) {
      EveryDigitSuffices(Standard, block, StripSpace(text));
    }
  }

  /** Of an honest reply only this much is used below: what it decodes to, and whether that is the whole block. */
  ghost predicate Whole(file: Bytes, replies: nat -> Reply, k: nat) {
    replies(k).Stdout? && Decoded(replies(k).text) == Block(file, k)
  }

  lemma HonestReply(file: Bytes, size: Reply, replies: nat -> Reply, k: nat)
    requires Honest(file, size, replies)
    ensures Whole(file, replies, k) <==> Complete(file, replies, k)
    ensures replies(k).Stdout? ==> Decoded(replies(k).text) <= Block(file, k)
  {
    hide Printed, Decoded, Block, StripSpace, Digits, Sextets;
    if replies(k).Stdout? {
      var sent :| Printed(replies(k).text, Block(file, k), sent);
      PrintedDecodes(replies(k).text, Block(file, k), sent);
    }
  }

  function BlockCount(file: Bytes): nat {
    (|file| + DECODED_CHUNK_SIZE - 1) / DECODED_CHUNK_SIZE
  }

  /** The position in the file at which block k starts. */
  function Start(file: Bytes, k: nat): nat {
    Min(|file|, k * DECODED_CHUNK_SIZE)
  }

  lemma StartStep(file: Bytes, k: nat)
    ensures Start(file, k + 1) == Start(file, k) + |Block(file, k)|
  {
  }

  lemma StartText(file: Bytes, k: nat)
    ensures file[..Start(file, k + 1)] == file[..Start(file, k)] + Block(file, k)
  {
    StartStep(file, k);
    assert Block(file, k) == file[Start(file, k)..Start(file, k) + |Block(file, k)|];
  }

  lemma StartInside(file: Bytes, k: nat)
    ensures k < BlockCount(file) <==> Start(file, k) < |file|
  {
    BlocksCover(|file|, k, DECODED_CHUNK_SIZE);
  }

  /** Rounding up counts the blocks that start before the end. */
  lemma BlocksCover(n: nat, k: nat, size: nat)
    requires size > 0
    ensures k < (n + size - 1) / size <==> k * size < n
  {
    var q := (n + size - 1) / size;
    var left := (n + size - 1) % size;
    assert n + size - 1 == q * size + left;
    if k < q {
      ProductsOrdered(k + 1, q, size);
    } else {
      ProductsOrdered(q, k, size);
    }
  }

  lemma ProductsOrdered(a: nat, b: nat, size: nat)
    requires a <= b
    ensures a * size <= b * size
  {
  }

  lemma StartBound(file: Bytes, k: nat)
    ensures Start(file, k) <= |file| && (Start(file, k) == |file| <==> Block(file, k) == [])
  {
  }

  ghost predicate AllComplete(file: Bytes, replies: nat -> Reply, n: nat) {
    forall k :: 0 <= k < n ==> Complete(file, replies, k)
  }

  ghost predicate AllWhole(file: Bytes, replies: nat -> Reply, n: nat) {
    forall k :: 0 <= k < n ==> Whole(file, replies, k)
  }

  lemma HonestSize(file: Bytes, size: Reply, replies: nat -> Reply)
    requires Honest(file, size, replies) && size.Stdout?
    ensures ParseInt(size.text) == Some(|file|)
  {
    hide ParseInt, Trim, Decimal;
    SizeIsRead(size.text, |file|);
  }

  lemma HonestReplies(file: Bytes, size: Reply, replies: nat -> Reply, n: nat)
    requires Honest(file, size, replies)
    ensures AllWhole(file, replies, n) <==> AllComplete(file, replies, n)
  {
    hide Honest, Whole, Complete;
    forall k: nat
      ensures Whole(file, replies, k) <==> Complete(file, replies, k)
    {
      HonestReply(file, size, replies, k);
    }
  }

  /** After k non-empty replies: everything so far, or already too little ever to make up the size. */
  ghost predicate Reading(file: Bytes, replies: nat -> Reply, out: Bytes, k: nat) {
    k <= BlockCount(file)
    && if AllWhole(file, replies, k) then out == file[..Start(file, k)] else |out| < Start(file, k)
  }

  lemma ReadStep(file: Bytes, replies: nat -> Reply, out: Bytes, k: nat)
    requires Reading(file, replies, out, k) && replies(k).Stdout?
    requires Decoded(replies(k).text) <= Block(file, k) && Decoded(replies(k).text) != []
    ensures Reading(file, replies, out + Decoded(replies(k).text), k + 1)
  {
    hide Start, Block, BlockCount, Decoded;
    StartStep(file, k);
    StartText(file, k);
    StartInside(file, k);
    StartBound(file, k);
    if !Whole(file, replies, k) {
      assert !AllWhole(file, replies, k + 1);
    }
  }

  /** Once the loop is over, the length is right exactly when every block came back whole. */
  lemma ReadEnd(file: Bytes, replies: nat -> Reply, out: Bytes, k: nat)
    requires Reading(file, replies, out, k)
    requires |out| >= |file| || (replies(k).Stdout? && Decoded(replies(k).text) == []) || replies(k).Failed?
    ensures AllWhole(file, replies, BlockCount(file)) <==> |out| == |file|
    ensures |out| == |file| ==> out == file
  {
    hide Start, Block, BlockCount, Decoded;
    StartInside(file, k);
    StartBound(file, k);
    if |out| == |file| {
      assert file[..Start(file, k)] == file;
    } else if k < BlockCount(file) && |out| < |file| {
      assert !Whole(file, replies, k);
    }
  }

  lemma ReadStart(file: Bytes, replies: nat -> Reply)
    ensures Reading(file, replies, [], 0)
    ensures file == [] ==> AllWhole(file, replies, BlockCount(file))
  {
  }

  /** `readFile`: it always ends, and against an honest remote side it returns exactly the file precisely when
      the size and every block came back whole; short and failed replies never yield wrong bytes. */
  method ReadFile(ghost file: Bytes, remotePath: string, runner: string -> Reply) returns (r: ReadResult)
    ensures HonestRunner(file, remotePath, runner) && r.Ok? ==> r.bytes == file
    ensures HonestRunner(file, remotePath, runner) ==>
              (r.Ok? <==> SizeReply(runner, remotePath).Stdout?
                          && AllComplete(file, BlockReplies(runner, remotePath), BlockCount(file)))
  {
    hide HonestRunner, Honest, Decoded, AllComplete, Reading, AllWhole, BlockCount, SizeReply, BlockReplies;
    var size, replies := SizeReply(runner, remotePath), BlockReplies(runner, remotePath);
    if size.Failed? {
      return CommandFailed;
    }
    ghost var honest := HonestRunner(file, remotePath, runner);
    if honest {
      RunnerReplies(file, remotePath, runner);
      HonestSize(file, size, replies);
      HonestReplies(file, size, replies, BlockCount(file));
    }
    ReadStart(file, replies);
    hide ParseInt;
    var parsed := ParseInt(size.text);
    if parsed.None? || parsed.value < 0 {
      return SizeUnknown;
    }
    var totalBytes := parsed.value;
    var out := [];
    if totalBytes == 0 {
      return Ok([]);
    }
    var chunkIndex := 0;
    while |out| < totalBytes
      invariant honest ==> Reading(file, replies, out, chunkIndex)
      decreases totalBytes - |out|
    {
      if honest {
        HonestReply(file, size, replies, chunkIndex);
      }
      if replies(chunkIndex).Failed? {
        if honest {
          ReadEnd(file, replies, out, chunkIndex);
        }
        return CommandFailed;
      }
      var chunk := Decoded(replies(chunkIndex).text);
      if |chunk| == 0 {
        break;
      }
      if honest {
        ReadStep(file, replies, out, chunkIndex);
      }
      out := out + chunk;
      chunkIndex := chunkIndex + 1;
    }
    if honest {
      ReadEnd(file, replies, out, chunkIndex);
    }
    if |out| != totalBytes {
      return Truncated;
    }
    return Ok(out);
  }
}
