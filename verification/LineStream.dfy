/** cli/src/commands/heartbeat-run.ts: putting the lines of a followed run back together from stream chunks. */
module LineStream {
  import opened Text

  datatype Stream = Stdout | Stderr | System
  datatype Chunk = Chunk(stream: Stream, text: string)

  /** `split(/\r?\n/)`: at every position the separator takes a CR only when an LF follows it. */
  function SplitLines(s: string): (lines: seq<string>)
    ensures |lines| >= 1
    ensures forall line :: line in lines ==> '\n' !in line
  {
    if s == [] then [[]]
    else if s[0] == '\n' then [[]] + SplitLines(s[1..])
    else if |s| >= 2 && s[0] == '\r' && s[1] == '\n' then [[]] + SplitLines(s[2..])
    else Prefixed(s[0], SplitLines(s[1..]))
  }

  /** The lines with a character put before the first of them. */
  function Prefixed(c: char, lines: seq<string>): seq<string>
    requires lines != []
  {
    [[c] + lines[0]] + lines[1..]
  }

  function Front<T>(s: seq<T>): seq<T>
    requires s != []
  {
    s[..|s| - 1]
  }

  function Last<T>(s: seq<T>): T
    requires s != []
  {
    s[|s| - 1]
  }

  // ---------- what splitting means ----------

  /** Lines written out again, line k ended by CR LF when crlf[k] and by a bare LF otherwise. */
  function Unsplit(lines: seq<string>, crlf: seq<bool>): string
    requires |lines| == |crlf| + 1
  {
    if crlf == [] then lines[0]
    else lines[0] + (if crlf[0] then "\r\n" else "\n") + Unsplit(lines[1..], crlf[1..])
  }

  /** No line holds an LF, and no line that ends in CR is ended by a bare LF. */
  predicate Readable(lines: seq<string>, crlf: seq<bool>)
    requires |lines| == |crlf| + 1
  {
    && (forall k :: 0 <= k < |lines| ==> '\n' !in lines[k])
    && (forall k :: 0 <= k < |crlf| && !crlf[k] && lines[k] != [] ==> Last(lines[k]) != '\r')
  }

  lemma {:induction false} SplitLine(line: string, rest: string, crlf: bool)
    requires '\n' !in line
    requires !crlf && line != [] ==> Last(line) != '\r'
    ensures SplitLines(line + (if crlf then "\r\n" else "\n") + rest) == [line] + SplitLines(rest)
  {
    var term := if crlf then "\r\n" else "\n";
    var s := line + term + rest;
    if line == [] {
      assert s[|term|..] == rest && s[0] == term[0];
    } else {
      SplitLine(line[1..], rest, crlf);
      assert s[1..] == line[1..] + term + rest;
      assert line == [line[0]] + line[1..];
    }
  }

  lemma {:induction false} SplitLastLine(line: string)
    requires '\n' !in line
    ensures SplitLines(line) == [line]
  {
    if line != [] {
      SplitLastLine(line[1..]);
      assert line == [line[0]] + line[1..];
    }
  }

  /** Splitting recovers the lines of every readable text, whichever terminators were used. */
  lemma {:induction false} SplitUnsplit(lines: seq<string>, crlf: seq<bool>)
    requires |lines| == |crlf| + 1 && Readable(lines, crlf)
    ensures SplitLines(Unsplit(lines, crlf)) == lines
  {
    if crlf == [] {
      SplitLastLine(lines[0]);
    } else {
      SplitUnsplit(lines[1..], crlf[1..]);
      SplitLine(lines[0], Unsplit(lines[1..], crlf[1..]), crlf[0]);
    }
  }

  /** Every text is readable in this sense: the split loses nothing but the choice of terminator. */
  lemma {:induction false} UnsplitSplit(s: string) returns (crlf: seq<bool>)
    ensures |SplitLines(s)| == |crlf| + 1 && Readable(SplitLines(s), crlf)
    ensures Unsplit(SplitLines(s), crlf) == s
  {
    if s == [] {
      crlf := [];
    } else if s[0] == '\n' {
      var more := UnsplitSplit(s[1..]);
      crlf := [false] + more;
      UnsplitTerminated(s, 1, more);
    } else if |s| >= 2 && s[0] == '\r' && s[1] == '\n' {
      var more := UnsplitSplit(s[2..]);
      crlf := [true] + more;
      UnsplitTerminated(s, 2, more);
    } else {
      crlf := UnsplitSplit(s[1..]);
      assert s == [s[0]] + s[1..];
      UnsplitCons(s[0], s[1..], crlf);
    }
  }

  lemma UnsplitTerminated(s: string, n: nat, more: seq<bool>)
    requires n <= |s| && (s[..n] == "\n" || s[..n] == "\r\n")
    requires |SplitLines(s[n..])| == |more| + 1 && Readable(SplitLines(s[n..]), more)
    requires Unsplit(SplitLines(s[n..]), more) == s[n..]
    ensures var crlf := [n == 2] + more;
            |SplitLines(s)| == |crlf| + 1 && Readable(SplitLines(s), crlf) && Unsplit(SplitLines(s), crlf) == s
  {
    var crlf, rest := [n == 2] + more, SplitLines(s[n..]);
    assert s == s[..n] + s[n..];
    SplitLine([], s[n..], n == 2);
    hide SplitLines;
    var lines := SplitLines(s);
    assert lines == [[]] + rest;
    assert lines[1..] == rest && crlf[1..] == more;
  }

  lemma SplitCons(c: char, rest: string)
    requires c != '\n' && (rest != [] && c == '\r' ==> rest[0] != '\n')
    ensures SplitLines([c] + rest) == Prefixed(c, SplitLines(rest))
  {
    assert ([c] + rest)[1..] == rest;
  }

  lemma UnsplitCons(c: char, rest: string, crlf: seq<bool>)
    requires c != '\n' && (rest != [] && c == '\r' ==> rest[0] != '\n')
    requires |SplitLines(rest)| == |crlf| + 1 && Readable(SplitLines(rest), crlf)
    requires Unsplit(SplitLines(rest), crlf) == rest
    ensures var lines := SplitLines([c] + rest);
            |lines| == |crlf| + 1 && Readable(lines, crlf) && Unsplit(lines, crlf) == [c] + rest
  {
    var tail := SplitLines(rest);
    var lines := SplitLines([c] + rest);
    hide SplitLines;
    SplitCons(c, rest);
    assert lines[1..] == tail[1..];
    if crlf != [] && !crlf[0] && tail[0] == [] {
      assert rest[0] == '\n';
    }
  }

  // ---------- splitting across chunks ----------

  lemma {:induction false} OneLineIsWhole(s: string)
    requires |SplitLines(s)| == 1
    ensures SplitLines(s) == [s]
  {
    if s != [] {
      OneLineIsWhole(s[1..]);
      assert s == [s[0]] + s[1..];
    }
  }

  ghost predicate Resumes(a: string, b: string) {
    SplitLines(a + b) == Front(SplitLines(a)) + SplitLines(Last(SplitLines(a)) + b)
  }

  lemma ResumesWhole(a: string, b: string)
    requires |SplitLines(a)| == 1
    ensures Resumes(a, b)
  {
    OneLineIsWhole(a);
    assert Front(SplitLines(a)) + SplitLines(a + b) == SplitLines(a + b);
  }

  lemma ResumesAfterTerminator(a: string, b: string, n: nat)
    requires n <= |a| && (a[..n] == "\n" || a[..n] == "\r\n")
    requires Resumes(a[n..], b)
    ensures Resumes(a, b)
  {
    assert a == [] + a[..n] + a[n..] && a + b == [] + a[..n] + (a[n..] + b);
    SplitLine([], a[n..], n == 2);
    SplitLine([], a[n..] + b, n == 2);
    hide SplitLines, Front, Last;
    ResumeAfterLine(SplitLines(a[n..]), SplitLines(Last(SplitLines(a[n..])) + b));
  }

  lemma SplitConsJoined(c: char, t: string, b: string)
    requires c != '\n' && t != [] && (c == '\r' ==> t[0] != '\n')
    ensures SplitLines([c] + t) == Prefixed(c, SplitLines(t))
    ensures SplitLines([c] + t + b) == Prefixed(c, SplitLines(t + b))
  {
    hide SplitLines, Prefixed;
    SplitCons(c, t);
    SplitCons(c, t + b);
    ConcatAssoc([c], t, b);
  }

  lemma ResumesInLine(c: char, t: string, b: string)
    requires c != '\n' && t != [] && (c == '\r' ==> t[0] != '\n')
    requires |SplitLines(t)| > 1 && Resumes(t, b)
    ensures Resumes([c] + t, b)
  {
    hide SplitLines, Prefixed, Front, Last;
    SplitConsJoined(c, t, b);
    ResumeInLine(c, SplitLines(t), SplitLines(Last(SplitLines(t)) + b));
  }

  lemma InLineTail(a: string)
    requires |SplitLines(a)| > 1 && a[0] != '\n' && !(|a| >= 2 && a[0] == '\r' && a[1] == '\n')
    ensures |SplitLines(a[1..])| > 1 && a[1..] != [] && a == [a[0]] + a[1..]
  {
  }

  /** Only the unfinished last line needs keeping: the finished ones stay as they are whatever follows. */
  lemma {:induction false} SplitResumes(a: string, b: string)
    ensures Resumes(a, b)
  {
    if |SplitLines(a)| == 1 {
      ResumesWhole(a, b);
    } else if a[0] == '\n' {
      SplitResumes(a[1..], b);
      ResumesAfterTerminator(a, b, 1);
    } else if |a| >= 2 && a[0] == '\r' && a[1] == '\n' {
      SplitResumes(a[2..], b);
      ResumesAfterTerminator(a, b, 2);
    } else {
      InLineTail(a);
      SplitResumes(a[1..], b);
      ResumesInLine(a[0], a[1..], b);
    }
  }

  lemma ResumeAfterLine(rest: seq<string>, more: seq<string>)
    requires rest != []
    ensures var all := [[]] + rest;
            [[]] + (Front(rest) + more) == Front(all) + more && Last(all) == Last(rest)
  {
  }

  lemma ResumeInLine(c: char, rest: seq<string>, more: seq<string>)
    requires |rest| > 1
    ensures Prefixed(c, rest) != [] && Front(rest) + more != []
    ensures Prefixed(c, Front(rest) + more) == Front(Prefixed(c, rest)) + more
    ensures Last(Prefixed(c, rest)) == Last(rest)
  {
  }

  lemma FrontOfJoined(done: seq<string>, more: seq<string>)
    requires more != []
    ensures Front(done + more) == done + Front(more) && Last(done + more) == Last(more)
  {
  }

  /** What the follower has formatted so far, and the text it still holds back. */
  datatype Progress = Progress(lines: seq<string>, buffer: string)

  function Feed(p: Progress, chunk: Chunk): Progress {
    if chunk.stream != Stdout then p
    else
      var lines := SplitLines(p.buffer + chunk.text);
      Progress(p.lines + Front(lines), Last(lines))
  }

  function FeedAll(p: Progress, chunks: seq<Chunk>): Progress {
    if chunks == [] then p else Feed(FeedAll(p, Front(chunks)), Last(chunks))
  }

  function StdoutText(chunks: seq<Chunk>): string {
    if chunks == [] then []
    else StdoutText(Front(chunks)) + (if Last(chunks).stream == Stdout then Last(chunks).text else [])
  }

  function Flushed(p: Progress): seq<string> {
    if Trim(p.buffer) != [] then p.lines + [p.buffer] else p.lines
  }

  /** However standard output is cut up and whatever other streams come between, the lines formatted and the
      text held back are those of one split of the whole text. */
  lemma {:induction false} ChunkingIsInvisible(chunks: seq<Chunk>)
    ensures var whole := SplitLines(StdoutText(chunks));
            FeedAll(Progress([], []), chunks) == Progress(Front(whole), Last(whole))
  {
    if chunks != [] {
      ChunkingIsInvisible(Front(chunks));
      if Last(chunks).stream == Stdout {
        var before := SplitLines(StdoutText(Front(chunks)));
        SplitResumes(StdoutText(Front(chunks)), Last(chunks).text);
        FrontOfJoined(Front(before), SplitLines(Last(before) + Last(chunks).text));
      } else {
        assert StdoutText(chunks) == StdoutText(Front(chunks));
      }
    }
  }

  lemma {:induction false} FeedConcat(p: Progress, a: seq<Chunk>, b: seq<Chunk>)
    ensures FeedAll(p, a + b) == FeedAll(FeedAll(p, a), b)
  {
    if b == [] {
      assert a + b == a;
    } else {
      assert Front(a + b) == a + Front(b) && Last(a + b) == Last(b);
      FeedConcat(p, a, Front(b));
    }
  }

  lemma NothingFed(p: Progress)
    ensures FeedAll(p, []) == p
  {
  }

  // ---------- polling ----------

  /** What the list of runs says: the run is not in it, or is there with a status or without one. */
  datatype Listed = Disappeared | Found(status: Option<string>)

  /** One turn of the loop: the chunks of new events, the run as listed, whether the deadline has passed, and the
      chunks of the log, which is read last. */
  datatype Poll = Poll(events: seq<Chunk>, run: Listed, expired: bool, log: seq<Chunk>)

  predicate IsTerminal(status: string) {
    status in ["succeeded", "failed", "cancelled", "timed_out"]
  }

  predicate Ends(poll: Poll) {
    poll.run.Disappeared? || (poll.run.status.Some? && IsTerminal(poll.run.status.value)) || poll.expired
  }

  /** The polls up to the first that ends the loop. */
  function Watched(polls: seq<Poll>): seq<Poll> {
    if polls == [] then []
    else if Ends(polls[0]) then [polls[0]]
    else [polls[0]] + Watched(polls[1..])
  }

  /** The chunks handled in one turn: the poll that ends the loop reads no log. */
  function TurnChunks(poll: Poll): seq<Chunk> {
    poll.events + if Ends(poll) then [] else poll.log
  }

  function Received(polls: seq<Poll>): seq<Chunk> {
    if polls == [] then [] else Received(Front(polls)) + TurnChunks(Last(polls))
  }

  /** The status after one turn: the one listed, that of the deadline, or the one before. */
  function TurnStatus(poll: Poll, before: Option<string>): Option<string> {
    if poll.run.Disappeared? then before
    else if poll.run.status.Some? && IsTerminal(poll.run.status.value) then poll.run.status
    else if poll.expired then Some("timed_out")
    else if poll.run.status.Some? then poll.run.status
    else before
  }

  function StatusAfter(polls: seq<Poll>): Option<string> {
    if polls == [] then None else TurnStatus(Last(polls), StatusAfter(Front(polls)))
  }

  lemma {:induction false} WatchedIs(polls: seq<Poll>, n: nat, ended: bool)
    requires n <= |polls| && (ended || n == |polls|) && (ended ==> n > 0)
    requires forall k :: 0 <= k < n ==> (Ends(polls[k]) <==> ended && k == n - 1)
    ensures Watched(polls) == polls[..n]
    ensures ended <==> exists poll :: poll in polls && Ends(poll)
  {
    if polls == [] {
    } else if Ends(polls[0]) {
      assert polls[0] in polls && polls[..n] == [polls[0]];
    } else {
      WatchedIs(polls[1..], n - 1, ended);
      assert polls[..n] == [polls[0]] + polls[1..][..n - 1];
      assert forall poll :: poll in polls <==> poll == polls[0] || poll in polls[1..];
    }
  }

  class RunFollower {
    const debug: bool
    var stdoutJsonBuffer: string
    var formatted: seq<string>
    var printed: seq<Chunk>

    constructor (debug: bool)
      ensures this.debug == debug && stdoutJsonBuffer == [] && formatted == [] && printed == []
    {
      this.debug := debug;
      stdoutJsonBuffer, formatted, printed := [], [], [];
    }

    function State(): Progress
      reads this
    {
      Progress(formatted, stdoutJsonBuffer)
    }

    /** A run followed in debug mode prints every chunk raw; otherwise only the other two streams are. */
    method HandleStreamChunk(chunk: Chunk)
      modifies this
      ensures debug ==> State() == old(State())
      ensures !debug ==> State() == Feed(old(State()), chunk)
      ensures printed == if debug || chunk.stream != Stdout then old(printed) + [chunk] else old(printed)
    {
      if debug {
        printed := printed + [chunk];
        return;
      }
      if chunk.stream != Stdout {
        printed := printed + [chunk];
        return;
      }
      var lines := SplitLines(stdoutJsonBuffer + chunk.text);
      stdoutJsonBuffer := Last(lines);
      lines := Front(lines);
      ghost var before := formatted;
      for k := 0 to |lines|
        invariant formatted == before + lines[..k]
        invariant stdoutJsonBuffer == Feed(old(State()), chunk).buffer && printed == old(printed)
      {
        formatted := formatted + [lines[k]];
      }
    }

    /** Handles a batch of chunks. */
    method HandleAll(chunks: seq<Chunk>)
      modifies this
      ensures !debug ==> State() == FeedAll(old(State()), chunks)
      ensures debug ==> State() == old(State()) && printed == old(printed) + chunks
    {
      for k := 0 to |chunks|
        invariant !debug ==> State() == FeedAll(old(State()), chunks[..k])
        invariant debug ==> State() == old(State()) && printed == old(printed) + chunks[..k]
      {
        assert Front(chunks[..k + 1]) == chunks[..k];
        HandleStreamChunk(chunks[k]);
      }
      assert chunks[..|chunks|] == chunks;
    }

    /** One turn of the loop. */
    method Turn(poll: Poll, before: Option<string>) returns (ended: bool, finalStatus: Option<string>)
      modifies this
      ensures ended == Ends(poll) && finalStatus == TurnStatus(poll, before)
      ensures !debug ==> State() == FeedAll(old(State()), TurnChunks(poll))
      ensures debug ==> State() == old(State()) && printed == old(printed) + TurnChunks(poll)
    {
      hide FeedAll, IsTerminal;
      ended, finalStatus := true, before;
      assert poll.events + [] == poll.events;
      FeedConcat(State(), poll.events, if Ends(poll) then [] else poll.log);
      HandleAll(poll.events);
      if poll.run.Found? {
        if poll.run.status.Some? {
          finalStatus := poll.run.status;
        }
        if !(poll.run.status.Some? && IsTerminal(poll.run.status.value)) {
          if poll.expired {
            finalStatus := Some("timed_out");
          } else {
            ended := false;
          }
        }
      }
      if !ended {
        HandleAll(poll.log);
      }
    }

    /** Follows a run through these polls, or to the first of them that ends the loop. Then the unfinished last line is
        formatted if it is not blank and a status has been set: by the last poll or by an earlier one, whether or not
        the run got as far as finishing. A run that disappears before any status was reported keeps its last line. */
    method Follow(polls: seq<Poll>) returns (ended: bool, finalStatus: Option<string>)
      requires stdoutJsonBuffer == [] && formatted == [] && printed == []
      modifies this
      ensures ended == (exists poll :: poll in polls && Ends(poll)) && finalStatus == StatusAfter(Watched(polls))
      ensures var whole := SplitLines(StdoutText(Received(Watched(polls))));
              var progress := Progress(Front(whole), Last(whole));
              formatted == if debug then []
                           else if ended && finalStatus.Some? then Flushed(progress)
                           else progress.lines
      ensures debug ==> printed == Received(Watched(polls))
    {
      hide FeedAll, Ends, TurnChunks, TurnStatus, Trim;
      ended, finalStatus := false, None;
      var i := 0;
      NothingFed(Progress([], []));
      while i < |polls| && !ended
        invariant 0 <= i <= |polls|
        invariant forall k :: 0 <= k < i ==> (Ends(polls[k]) <==> ended && k == i - 1)
        invariant ended ==> i > 0
        invariant finalStatus == StatusAfter(polls[..i])
        invariant !debug ==> State() == FeedAll(Progress([], []), Received(polls[..i]))
        invariant debug ==> State() == Progress([], []) && printed == Received(polls[..i])
      {
        assert Front(polls[..i + 1]) == polls[..i] && Last(polls[..i + 1]) == polls[i];
        FeedConcat(Progress([], []), Received(polls[..i]), TurnChunks(polls[i]));
        ended, finalStatus := Turn(polls[i], finalStatus);
        i := i + 1;
      }
      WatchedIs(polls, i, ended);
      ChunkingIsInvisible(Received(Watched(polls)));
      if ended && finalStatus.Some? && !debug && Trim(stdoutJsonBuffer) != [] {
        formatted := formatted + [stdoutJsonBuffer];
        stdoutJsonBuffer := [];
      }
    }
  }
}
