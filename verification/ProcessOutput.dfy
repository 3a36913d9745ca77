/**
 * How the process runtime (src/internal/aion/process.go) turns a worker's standard output into its
 * result: the last protocol frame decides, whatever else the worker printed.
 */
module ProcessOutput {
  import opened Specs

  datatype Frame = Frame(kind: string, body: string, error: string, at: int)

  /** A scanned line, as json.Unmarshal finds it. */
  datatype Line = Empty | FreeText | Json(frame: Frame)

  /** The texts of a result; the last quotes the frame's type. */
  datatype Note = Text(text: string) | AfterNonTerminal(kind: string)

  datatype Verdict = Verdict(status: WorkerStatus, body: string, message: Note, startedAt: int, completedAt: int)

  const NO_OUTPUT := "aion worker produced no output before exit"

  function LastFrame(lines: seq<Line>): Option<Frame> {
    if lines == [] then None
    else
      var last := lines[|lines| - 1];
      if last.Json? then Some(last.frame) else LastFrame(lines[..|lines| - 1])
  }

  function Judge(last: Option<Frame>, now: int): Verdict {
    match last
    case None => Verdict(Failed, "", Text(NO_OUTPUT), now, now)
    case Some(f) =>
      if f.kind == "result" then Verdict(Completed, f.body, Text(""), f.at, now)
      else if f.kind == "error" then Verdict(Failed, "", Text(f.error), f.at, now)
      else if f.kind == "cancelled" then Verdict(Cancelled, "", Text(""), f.at, now)
      else Verdict(Failed, "", AfterNonTerminal(f.kind), f.at, now)
  }

  class ProcessWorker {
    var done: bool
    var slot: seq<Verdict>

    constructor ()
      ensures !done && slot == []
    {
      done, slot := false, [];
    }

    /** `now` is the time after the last line. */
    method PumpStdout(lines: seq<Line>, now: int)
      requires !done ==> slot == []
      modifies this
      ensures done
      ensures slot == if old(done) then old(slot) else [Judge(LastFrame(lines), now)]
    {
      var lastMsg, sawFrame := Frame("", "", "", 0), false;
      for k := 0 to |lines|
        invariant if sawFrame then LastFrame(lines[..k]) == Some(lastMsg) else LastFrame(lines[..k]) == None
      {
        assert lines[..k + 1][..k] == lines[..k];
        match lines[k] {
          case Empty =>
          case FreeText =>
          case Json(frame) =>
            lastMsg, sawFrame := frame, true;
        }
      }
      assert lines[..|lines|] == lines;
      var result;
      if !sawFrame {
        result := Verdict(Failed, "", Text(NO_OUTPUT), now, now);
      } else if lastMsg.kind == "result" {
        result := Verdict(Completed, lastMsg.body, Text(""), lastMsg.at, now);
      } else if lastMsg.kind == "error" {
        result := Verdict(Failed, "", Text(lastMsg.error), lastMsg.at, now);
      } else if lastMsg.kind == "cancelled" {
        result := Verdict(Cancelled, "", Text(""), lastMsg.at, now);
      } else {
        result := Verdict(Failed, "", AfterNonTerminal(lastMsg.kind), lastMsg.at, now);
      }
      if done {
        return;
      }
      done := true;
      slot := slot + [result];
    }
  }

  ghost predicate Framed(lines: seq<Line>, k: int, f: Frame) {
    0 <= k < |lines| && lines[k] == Json(f) && forall j :: k < j < |lines| ==> !lines[j].Json?
  }

  lemma {:induction false} LastFrameMeans(lines: seq<Line>, f: Frame)
    ensures LastFrame(lines) == Some(f) <==> exists k :: Framed(lines, k, f)
  {
    if lines != [] {
      var front, n := lines[..|lines| - 1], |lines| - 1;
      LastFrameMeans(front, f);
      if lines[n].Json? {
        assert lines[n] == Json(f) ==> Framed(lines, n, f);
        assert forall k :: Framed(lines, k, f) ==> k == n;
      } else {
        assert forall k :: Framed(front, k, f) <==> Framed(lines, k, f);
      }
    }
  }

  /**
   * Every worker ends in a terminal status; it is completed exactly if its last frame is a result,
   * and cancelled exactly if its last frame says so: a worker killed without that frame has failed.
   */
  lemma LastFrameDecides(lines: seq<Line>, now: int)
    ensures var v := Judge(LastFrame(lines), now);
      && v.status in {Completed, Failed, Cancelled}
      && (v.status.Completed? <==> exists k, f :: Framed(lines, k, f) && f.kind == "result")
      && (v.status.Cancelled? <==> exists k, f :: Framed(lines, k, f) && f.kind == "cancelled")
  {
    FramedIsLast(lines);
  }

  lemma FramedIsLast(lines: seq<Line>)
    ensures forall k, f :: Framed(lines, k, f) ==> LastFrame(lines) == Some(f)
    ensures LastFrame(lines).Some? ==> exists k :: Framed(lines, k, LastFrame(lines).value)
  {
    var last := LastFrame(lines);
    if last.Some? {
      LastFrameMeans(lines, last.value);
    }
    forall k, f | Framed(lines, k, f)
      ensures last == Some(f)
    {
      LastFrameMeans(lines, f);
    }
  }

  /**
   * And that frame alone gives the texts and the start: a result its body, an error its error, and any
   * other kind but a cancellation is named in the message. Without a frame the message says so.
   */
  lemma LastFrameIsTold(lines: seq<Line>, now: int)
    ensures var v := Judge(LastFrame(lines), now);
      && v.completedAt == now
      && (forall k, f :: Framed(lines, k, f) ==>
            && v.startedAt == f.at
            && v.body == (if f.kind == "result" then f.body else "")
            && v.message == (if f.kind == "result" || f.kind == "cancelled" then Text("")
                             else if f.kind == "error" then Text(f.error)
                             else AfterNonTerminal(f.kind)))
      && ((forall line :: line in lines ==> !line.Json?) ==>
            v == Verdict(Failed, "", Text("aion worker produced no output before exit"), now, now))
  {
    FramedIsLast(lines);
    if last :| LastFrame(lines) == Some(last) {
      var k :| Framed(lines, k, last);
      assert lines[k] in lines;
    }
  }
}
