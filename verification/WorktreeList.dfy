/** cli/src/commands/worktree.ts: reading the output of `git worktree list --porcelain`. */
module WorktreeList {
  import opened Text

  datatype Entry = Entry(worktree: string, branch: Option<string>, bare: bool, detached: bool)

  /** The entry under construction: every attribute may still be missing. */
  datatype Partial = Partial(worktree: Option<string>, branch: Option<string>, bare: bool, detached: bool)

  const NOTHING := Partial(None, None, false, false)

  /** An empty path counts as missing, as any empty string is false in a condition. */
  predicate Named(p: Partial) {
    p.worktree.Some? && p.worktree.value != ""
  }

  function Finish(p: Partial): Entry
    requires Named(p)
  {
    Entry(p.worktree.value, p.branch, p.bare, p.detached)
  }

  datatype State = State(entries: seq<Entry>, current: Partial)

  function Step(s: State, line: string): State {
    if StartsWith(line, "worktree ") then s.(current := NOTHING.(worktree := Some(line[9..])))
    else if StartsWith(line, "branch ") then s.(current := s.current.(branch := Some(line[7..])))
    else if line == "bare" then s.(current := s.current.(bare := true))
    else if line == "detached" then s.(current := s.current.(detached := true))
    else if line == "" && Named(s.current) then State(s.entries + [Finish(s.current)], NOTHING)
    else s
  }

  function Steps(s: State, lines: seq<string>): State {
    if lines == [] then s else Step(Steps(s, lines[..|lines| - 1]), lines[|lines| - 1])
  }

  function Closed(s: State): seq<Entry> {
    if Named(s.current) then s.entries + [Finish(s.current)] else s.entries
  }

  function Parsed(raw: string): seq<Entry> {
    Closed(Steps(State([], NOTHING), Split(raw, '\n')))
  }

  method ParseGitWorktreeList(raw: string) returns (entries: seq<Entry>)
    ensures entries == Parsed(raw)
  {
    entries := [];
    var current := NOTHING;
    var lines := Split(raw, '\n');
    for k := 0 to |lines|
      invariant State(entries, current) == Steps(State([], NOTHING), lines[..k])
    {
      var line := lines[k];
      assert lines[..k + 1][..k] == lines[..k];
      if StartsWith(line, "worktree ") {
        current := NOTHING.(worktree := Some(line[9..]));
      } else if StartsWith(line, "branch ") {
        current := current.(branch := Some(line[7..]));
      } else if line == "bare" {
        current := current.(bare := true);
      } else if line == "detached" {
        current := current.(detached := true);
      } else if line == "" && Named(current) {
        entries := entries + [Finish(current)];
        current := NOTHING;
      }
    }
    assert lines[..|lines|] == lines;
    if Named(current) {
      entries := entries + [Finish(current)];
    }
  }

  // ---------- the porcelain format ----------

  /** One worktree as git prints it: its path and its attribute lines, in whatever order and however many. */
  datatype Block = Block(path: string, attributes: seq<string>)

  predicate Printable(b: Block) {
    && b.path != "" && '\n' !in b.path
    && forall line :: line in b.attributes ==> line != "" && '\n' !in line && !StartsWith(line, "worktree ")
  }

  function BlockLines(b: Block): seq<string> {
    ["worktree " + b.path] + b.attributes
  }

  /** What a block says: the branch of its last branch line, and which of the two flags it carries. */
  function LastBranch(attributes: seq<string>): Option<string> {
    if attributes == [] then None
    else
      var last := attributes[|attributes| - 1];
      if StartsWith(last, "branch ") then Some(last[7..]) else LastBranch(attributes[..|attributes| - 1])
  }

  function Meaning(b: Block): Entry {
    Entry(b.path, LastBranch(b.attributes), "bare" in b.attributes, "detached" in b.attributes)
  }

  function Meanings(bs: seq<Block>): seq<Entry> {
    if bs == [] then [] else Meanings(bs[..|bs| - 1]) + [Meaning(bs[|bs| - 1])]
  }

  /** The lines git prints: every block is followed by an empty line. */
  function PorcelainLines(bs: seq<Block>): seq<string> {
    if bs == [] then [] else PorcelainLines(bs[..|bs| - 1]) + BlockLines(bs[|bs| - 1]) + [""]
  }

  lemma {:induction false} StepsConcat(s: State, a: seq<string>, b: seq<string>)
    ensures Steps(s, a + b) == Steps(Steps(s, a), b)
  {
    if b == [] {
      assert a + b == a;
    } else {
      StepsConcat(s, a, b[..|b| - 1]);
      assert (a + b)[..|a + b| - 1] == a + b[..|b| - 1];
    }
  }

  lemma StepsOne(s: State, line: string)
    ensures Steps(s, [line]) == Step(s, line)
  {
    var none: seq<string> := [];
    assert [line][..0] == none;
  }

  lemma {:induction false} AttributesRead(s: State, path: string, attributes: seq<string>)
    requires s.current == NOTHING.(worktree := Some(path))
    requires forall line :: line in attributes ==> line != "" && !StartsWith(line, "worktree ")
    ensures Steps(s, attributes)
            == s.(current := Partial(Some(path), LastBranch(attributes), "bare" in attributes,
                                     "detached" in attributes))
  {
    if attributes != [] {
      var n := |attributes| - 1;
      assert attributes == attributes[..n] + [attributes[n]];
      assert forall line :: line in attributes <==> line in attributes[..n] || line == attributes[n];
      AttributesRead(s, path, attributes[..n]);
      assert "bare"[0] != "branch "[0] || "bare"[1] != "branch "[1];
      assert "detached"[0] != "branch "[0];
    }
  }

  lemma BlockRead(s: State, b: Block)
    requires Printable(b)
    ensures var t := Steps(s, BlockLines(b));
            Named(t.current) && Finish(t.current) == Meaning(b) && t.entries == s.entries
  {
    var header := "worktree " + b.path;
    StepsConcat(s, [header], b.attributes);
    assert header[9..] == b.path && header[..9] == "worktree ";
    StepsOne(s, header);
    AttributesRead(Step(s, header), b.path, b.attributes);
  }

  lemma {:induction false} BlocksRead(bs: seq<Block>)
    requires forall b :: b in bs ==> Printable(b)
    ensures Steps(State([], NOTHING), PorcelainLines(bs)) == State(Meanings(bs), NOTHING)
  {
    if bs != [] {
      var n := |bs| - 1;
      BlocksRead(bs[..n]);
      var s := State(Meanings(bs[..n]), NOTHING);
      BlockRead(s, bs[n]);
      StepsConcat(State([], NOTHING), PorcelainLines(bs[..n]), BlockLines(bs[n]));
      StepsConcat(State([], NOTHING), PorcelainLines(bs[..n]) + BlockLines(bs[n]), [""]);
      StepsOne(Steps(s, BlockLines(bs[n])), "");
    }
  }

  lemma {:induction false} PorcelainLinesUnbroken(bs: seq<Block>)
    requires forall b :: b in bs ==> Printable(b)
    ensures forall line :: line in PorcelainLines(bs) ==> '\n' !in line
  {
    if bs != [] {
      PorcelainLinesUnbroken(bs[..|bs| - 1]);
      assert bs[|bs| - 1] in bs;
    }
  }

  /** The parser inverts the printer, whatever attributes stand between: on the full output with its final
      newline, without it, and with the last empty line missing as well. */
  lemma PorcelainReadsBack(bs: seq<Block>)
    requires bs != [] && forall b :: b in bs ==> Printable(b)
    ensures Parsed(Join(PorcelainLines(bs), '\n') + "\n") == Meanings(bs)
    ensures Parsed(Join(PorcelainLines(bs), '\n')) == Meanings(bs)
    ensures Parsed(Join(PorcelainLines(bs)[..|PorcelainLines(bs)| - 1], '\n')) == Meanings(bs)
  {
    var n := |bs| - 1;
    var lines := PorcelainLines(bs);
    var text := Join(lines, '\n');
    var start := State([], NOTHING);
    PorcelainLinesUnbroken(bs);
    BlocksRead(bs);
    SplitJoin(lines, '\n');

    SplitConcat(text, "", '\n');
    SplitSingle("", '\n');
    assert text + ['\n'] + "" == text + "\n";
    StepsConcat(start, lines, [""]);
    StepsOne(State(Meanings(bs), NOTHING), "");

    var short := lines[..|lines| - 1];
    assert short == PorcelainLines(bs[..n]) + BlockLines(bs[n]);
    SplitJoin(short, '\n');
    StepsConcat(start, PorcelainLines(bs[..n]), BlockLines(bs[n]));
    BlocksRead(bs[..n]);
    BlockRead(State(Meanings(bs[..n]), NOTHING), bs[n]);
  }
}
