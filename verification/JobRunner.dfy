/** job_runner: cutting the output of a build into lines while it arrives in arbitrary pieces. */
module JobRunner {
  import opened Text

  /** How a pipe ends. Eof carries the byte count of the completion that reports it. */
  datatype Ending = Eof(bytes: nat) | Broken

  /** What a pipe still delivers, in the pieces in which it will arrive. */
  datatype Pipe = Pipe(arrivals: seq<string>, ending: Ending)

  /** What the handler of async_read_until is called with. */
  datatype Completion = LineRead(bytes: nat) | AtEof(bytes: nat) | Failed

  function Flatten(pieces: seq<string>): string
  {
    if pieces == [] then "" else pieces[0] + Flatten(pieces[1..])
  }

  /** The contract of async_read_until: complete when the buffer holds a newline, counting the
      bytes up to and including the first one; otherwise take the next arrival, or report the end. */
  function ReadUntil(buf: string, pipe: Pipe): (r: (Completion, string, Pipe))
    ensures r.1 + Flatten(r.2.arrivals) == buf + Flatten(pipe.arrivals)
    ensures r.2.ending == pipe.ending
    ensures match r.0
            case LineRead(n) => n == IndexOf(r.1, '\n') + 1 <= |r.1|
            case AtEof(n) => '\n' !in r.1 && r.2.arrivals == [] && pipe.ending == Eof(n)
            case Failed => '\n' !in r.1 && r.2.arrivals == [] && pipe.ending == Broken
    decreases |pipe.arrivals|
  {
    var i := IndexOf(buf, '\n');
    if i < |buf| then (LineRead(i + 1), buf, pipe)
    else if pipe.arrivals == [] then
      assert buf[..i] == buf;
      (if pipe.ending.Eof? then AtEof(pipe.ending.bytes) else Failed, buf, pipe)
    else
      assert buf + pipe.arrivals[0] + Flatten(pipe.arrivals[1..]) == buf + Flatten(pipe.arrivals);
      ReadUntil(buf + pipe.arrivals[0], pipe.(arrivals := pipe.arrivals[1..]))
  }

  /** The lines of s that a newline ends, and what follows the last newline. */
  function CompleteLines(s: string): seq<string> { Split(s)[..|Split(s)| - 1] }
  function Tail(s: string): string { Split(s)[|Split(s)| - 1] }

  /** What each stream must produce: stdout reports the tail at every eof, stderr only when the
      eof completion carries a non-zero byte count, and neither does on another error. */
  function OutFrames(s: string, ending: Ending): seq<string>
  {
    if ending.Eof? then Split(s) else CompleteLines(s)
  }

  function ErrFrames(s: string, ending: Ending): seq<string>
  {
    if ending.Eof? && ending.bytes != 0 then Split(s) else CompleteLines(s)
  }

  /** m is a merge of a and b that keeps the order of each. */
  ghost predicate Merge(m: seq<string>, a: seq<string>, b: seq<string>)
  {
    if m == [] then a == [] && b == [] else
      var k := |m| - 1;
      || (a != [] && a[|a| - 1] == m[k] && Merge(m[..k], a[..|a| - 1], b))
      || (b != [] && b[|b| - 1] == m[k] && Merge(m[..k], a, b[..|b| - 1]))
  }

  /** A merge neither loses, adds nor repeats a line. */
  lemma {:induction false} MergeConserves(m: seq<string>, a: seq<string>, b: seq<string>)
    requires Merge(m, a, b)
    ensures multiset(m) == multiset(a) + multiset(b)
  {
    if m != [] {
      var k := |m| - 1;
      assert m == m[..k] + [m[k]];
      if a != [] && a[|a| - 1] == m[k] && Merge(m[..k], a[..|a| - 1], b) {
        assert a == a[..|a| - 1] + [m[k]];
        MergeConserves(m[..k], a[..|a| - 1], b);
      } else {
        assert b == b[..|b| - 1] + [m[k]];
        MergeConserves(m[..k], a, b[..|b| - 1]);
      }
    }
  }

  predicate Rising(p: seq<nat>, bound: nat)
  {
    (forall i :: 0 <= i < |p| ==> p[i] < bound) && (forall i, j :: 0 <= i < j < |p| ==> p[i] < p[j])
  }

  /** The lines of a stand in m at rising positions, and so do those of b at the others. */
  lemma {:induction false} MergeKeepsOrder(m: seq<string>, a: seq<string>, b: seq<string>)
    returns (p: seq<nat>, q: seq<nat>)
    requires Merge(m, a, b)
    ensures |p| == |a| && Rising(p, |m|) && forall i :: 0 <= i < |a| ==> m[p[i]] == a[i]
    ensures |q| == |b| && Rising(q, |m|) && forall i :: 0 <= i < |b| ==> m[q[i]] == b[i]
    ensures forall k: nat :: k < |m| ==> (k in p <==> k !in q)
  {
    if m == [] {
      return [], [];
    }
    var k := |m| - 1;
    if a != [] && a[|a| - 1] == m[k] && Merge(m[..k], a[..|a| - 1], b) {
      p, q := MergeKeepsOrder(m[..k], a[..|a| - 1], b);
      p := p + [k];
    } else {
      p, q := MergeKeepsOrder(m[..k], a, b[..|b| - 1]);
      q := q + [k];
    }
  }

  lemma {:induction false} MergeExtend(m: seq<string>, a: seq<string>, b: seq<string>,
                                       m': seq<string>, a': seq<string>, b': seq<string>)
    requires Merge(m, a, b) && |m'| == |m| + 1 && m == m'[..|m|]
    requires || (|a'| == |a| + 1 && a == a'[..|a|] && a'[|a|] == m'[|m|] && b' == b)
             || (|b'| == |b| + 1 && b == b'[..|b|] && b'[|b|] == m'[|m|] && a' == a)
    ensures Merge(m', a', b')
  {
  }

  function Lines(frames: seq<string>): string
  {
    if frames == [] then "" else frames[0] + "\n" + Lines(frames[1..])
  }

  lemma {:induction false} LinesSnoc(frames: seq<string>, last: string)
    ensures Lines(frames + [last]) == Lines(frames) + last + "\n"
  {
    if frames != [] {
      LinesSnoc(frames[1..], last);
      assert (frames + [last])[1..] == frames[1..] + [last];
    } else {
      assert (frames + [last])[1..] == [];
    }
  }

  /** Each frame is a line of the text, and nothing follows the last. */
  lemma {:induction false} LinesSplit(frames: seq<string>)
    requires forall l :: l in frames ==> '\n' !in l
    ensures Split(Lines(frames)) == frames + [""]
  {
    if frames == [] {
      SplitOneLine("");
    } else {
      assert frames[0] in frames && Lines(frames) == frames[0] + "\n" + Lines(frames[1..]);
      SplitAtNewline(frames[0], Lines(frames[1..]));
      LinesSplit(frames[1..]);
      assert [frames[0]] + (frames[1..] + [""]) == frames + [""];
    }
  }

  lemma MergedLines(m: seq<string>, a: seq<string>, b: seq<string>)
    requires Merge(m, a, b)
    requires (forall l :: l in a ==> '\n' !in l) && (forall l :: l in b ==> '\n' !in l)
    ensures forall l :: l in m ==> '\n' !in l
  {
    MergeConserves(m, a, b);
    forall l | l in m ensures '\n' !in l { assert multiset(m)[l] > 0; }
  }

  lemma FramesFree(s: string, ending: Ending)
    ensures forall l :: l in OutFrames(s, ending) || l in ErrFrames(s, ending) ==> '\n' !in l
  {
    SplitNewlineFree(s);
  }

  /** frames are lines already cut off the front of s, and rest is what follows them. */
  ghost predicate Reported(s: string, frames: seq<string>, rest: string)
  {
    s == Lines(frames) + rest && forall l :: l in frames ==> '\n' !in l
  }

  lemma {:induction false} ReportedAll(s: string, frames: seq<string>, rest: string)
    requires Reported(s, frames, rest) && '\n' !in rest
    ensures Split(s) == frames + [rest]
    decreases |frames|
  {
    if frames == [] {
      assert s == rest;
      SplitOneLine(rest);
    } else {
      var s' := Lines(frames[1..]) + rest;
      ReportedAll(s', frames[1..], rest);
      assert s == frames[0] + "\n" + s';
      SplitAtNewline(frames[0], s');
    }
  }

  /** One completion of async_read_until reports the next line, or leaves just the tail. */
  lemma {:induction false} ReportedStep(s: string, frames: seq<string>, buf: string, pipe: Pipe, c: Completion)
    requires Reported(s, frames, buf + Flatten(pipe.arrivals))
    requires c.LineRead? ==> c.bytes == IndexOf(buf, '\n') + 1 <= |buf|
    requires !c.LineRead? ==> '\n' !in buf && pipe.arrivals == []
    ensures c.LineRead? ==> Reported(s, frames + [buf[..c.bytes - 1]], buf[c.bytes..] + Flatten(pipe.arrivals))
    ensures !c.LineRead? ==> Split(s) == frames + [buf]
  {
    if c.LineRead? {
      var l := buf[..c.bytes - 1];
      LinesSnoc(frames, l);
      assert buf == l + "\n" + buf[c.bytes..];
    } else {
      assert buf + Flatten(pipe.arrivals) == buf;
      ReportedAll(s, frames, buf);
    }
  }

  /** The runner while a build runs: output_ collects what job::execute writes to output.txt,
      where both line callbacks append. */
  class Runner {
    var outPipe: Pipe
    var errPipe: Pipe
    var outBuf: string
    var errBuf: string
    var outLines: seq<string>
    var errLines: seq<string>
    var output: seq<string>

    constructor (outPipe: Pipe, errPipe: Pipe)
      ensures this.outPipe == outPipe && this.errPipe == errPipe
      ensures outBuf == "" && errBuf == "" && outLines == [] && errLines == [] && output == []
    {
      this.outPipe, this.errPipe := outPipe, errPipe;
      outBuf, errBuf := "", "";
      outLines, errLines, output := [], [], [];
    }

    /** on_out_line_read. */
    method OnOutLineRead(c: Completion)
      requires c.LineRead? ==> 1 <= c.bytes <= |outBuf|
      modifies this`outBuf, this`outLines, this`output
      ensures match c
              case LineRead(n) => outLines == old(outLines) + [old(outBuf)[..n - 1]] && outBuf == old(outBuf)[n..]
              case AtEof(_) => outLines == old(outLines) + [old(outBuf)] && outBuf == ""
              case Failed => outLines == old(outLines) && outBuf == old(outBuf)
      ensures output == old(output) + outLines[|old(outLines)|..]
    {
      match c
      case LineRead(n) =>
        outLines, output := outLines + [outBuf[..n - 1]], output + [outBuf[..n - 1]];
        outBuf := outBuf[n..];
      case AtEof(_) =>
        outLines, output := outLines + [outBuf], output + [outBuf];
        outBuf := "";
      case Failed =>
    }

    /** on_err_line_read: at eof the rest is reported only with a non-zero count. */
    method OnErrLineRead(c: Completion)
      requires c.LineRead? ==> 1 <= c.bytes <= |errBuf|
      modifies this`errBuf, this`errLines, this`output
      ensures match c
              case LineRead(n) => errLines == old(errLines) + [old(errBuf)[..n - 1]] && errBuf == old(errBuf)[n..]
              case AtEof(n) => if n != 0 then errLines == old(errLines) + [old(errBuf)] && errBuf == ""
                               else errLines == old(errLines) && errBuf == old(errBuf)
              case Failed => errLines == old(errLines) && errBuf == old(errBuf)
      ensures output == old(output) + errLines[|old(errLines)|..]
    {
      match c
      case LineRead(n) =>
        errLines, output := errLines + [errBuf[..n - 1]], output + [errBuf[..n - 1]];
        errBuf := errBuf[n..];
      case AtEof(n) =>
        if n != 0 {
          errLines, output := errLines + [errBuf], output + [errBuf];
          errBuf := "";
        }
      case Failed =>
    }

    /** One completion on stdout; live says whether the handler asked for another line. */
    method StepOut(ghost s: string) returns (live: bool)
      requires Reported(s, outLines, outBuf + Flatten(outPipe.arrivals)) && Merge(output, outLines, errLines)
      modifies this`outPipe, this`outBuf, this`outLines, this`output
      ensures outPipe.ending == old(outPipe).ending && Merge(output, outLines, errLines)
      ensures !live ==> outLines == OutFrames(s, outPipe.ending)
      ensures live ==> Reported(s, outLines, outBuf + Flatten(outPipe.arrivals))
      ensures live ==> |outBuf + Flatten(outPipe.arrivals)| < |old(outBuf) + Flatten(old(outPipe).arrivals)|
    {
      var (c, buf, pipe) := ReadUntil(outBuf, outPipe);
      outBuf, outPipe := buf, pipe;
      OnOutLineRead(c);
      live := c.LineRead?;
      ReportedStep(s, old(outLines), buf, pipe, c);
      if c.Failed? {
        assert output == old(output);
      } else {
        MergeExtend(old(output), old(outLines), errLines, output, outLines, errLines);
      }
    }

    method StepErr(ghost s: string) returns (live: bool)
      requires Reported(s, errLines, errBuf + Flatten(errPipe.arrivals)) && Merge(output, outLines, errLines)
      modifies this`errPipe, this`errBuf, this`errLines, this`output
      ensures errPipe.ending == old(errPipe).ending && Merge(output, outLines, errLines)
      ensures !live ==> errLines == ErrFrames(s, errPipe.ending)
      ensures live ==> Reported(s, errLines, errBuf + Flatten(errPipe.arrivals))
      ensures live ==> |errBuf + Flatten(errPipe.arrivals)| < |old(errBuf) + Flatten(old(errPipe).arrivals)|
    {
      var (c, buf, pipe) := ReadUntil(errBuf, errPipe);
      errBuf, errPipe := buf, pipe;
      OnErrLineRead(c);
      live := c.LineRead?;
      ReportedStep(s, old(errLines), buf, pipe, c);
      if errLines == old(errLines) {
        assert output == old(output);
      } else {
        MergeExtend(old(output), outLines, old(errLines), output, outLines, errLines);
      }
    }

    /** io_ctx.run() on the two read chains, in any interleaving of their completions: for every
        way the streams are cut into arrivals, each stream yields its frames and output.txt is a
        merge of the two. */
    method Run()
      requires outBuf == "" && errBuf == "" && outLines == [] && errLines == [] && output == []
      modifies this
      ensures outLines == OutFrames(Flatten(old(outPipe).arrivals), old(outPipe).ending)
      ensures errLines == ErrFrames(Flatten(old(errPipe).arrivals), old(errPipe).ending)
      ensures Merge(output, outLines, errLines)
    {
      var outLive, errLive := true, true;
      ghost var outStream := Flatten(outPipe.arrivals);
      ghost var errStream := Flatten(errPipe.arrivals);
      assert outBuf + outStream == outStream && errBuf + errStream == errStream;
      while outLive || errLive
        invariant outPipe.ending == old(outPipe).ending && errPipe.ending == old(errPipe).ending
        invariant if outLive then Reported(outStream, outLines, outBuf + Flatten(outPipe.arrivals))
                  else outLines == OutFrames(outStream, outPipe.ending)
        invariant if errLive then Reported(errStream, errLines, errBuf + Flatten(errPipe.arrivals))
                  else errLines == ErrFrames(errStream, errPipe.ending)
        invariant Merge(output, outLines, errLines)
        decreases outLive, errLive, |outBuf + Flatten(outPipe.arrivals)| + |errBuf + Flatten(errPipe.arrivals)|
      {
        var pickOut: bool := *;
        if outLive && (pickOut || !errLive) {
          outLive := StepOut(outStream);
        } else {
          errLive := StepErr(errStream);
        }
      }
    }
  }

  /** Nothing of stdout is lost: its callbacks, joined by newlines, are the byte stream. */
  lemma OutFramesLoseNothing(s: string, bytes: nat)
    ensures Join(OutFrames(s, Eof(bytes))) == s
  {
    JoinSplit(s);
  }

  /** A stream is its complete lines followed by its tail. */
  lemma {:induction false} LinesAndTail(s: string)
    ensures Lines(CompleteLines(s)) + Tail(s) == s
    decreases |s|
  {
    var i := IndexOf(s, '\n');
    if i < |s| {
      var rest := s[i + 1..];
      LinesAndTail(rest);
      var c := CompleteLines(s);
      assert c == [s[..i]] + CompleteLines(rest) && Tail(s) == Tail(rest);
      assert c[1..] == CompleteLines(rest);
      assert s == s[..i] + "\n" + rest;
    }
  }

  /** What output.txt keeps of stderr is the whole stream up to a final line end exactly when
      the tail is empty or the eof completion carries bytes; otherwise exactly the tail is lost. */
  lemma ErrTailLost(s: string, bytes: nat)
    ensures Lines(ErrFrames(s, Eof(0))) + Tail(s) == s
    ensures s <= Lines(ErrFrames(s, Eof(bytes))) <==> bytes != 0 || Tail(s) == ""
  {
    LinesAndTail(s);
    var c := CompleteLines(s);
    assert Split(s) == c + [Tail(s)];
    LinesSnoc(c, Tail(s));
  }

}
