/** The transmit pump over a whole transfer: one frame per audio burst, every frame once and in
    order, progress that only grows, and what an abort in between does. */
module YappPump {
  import opened Arithmetic
  import opened Bytes
  import opened YappFrames
  import opened YappSession

  /** The bursts that follow the start of the data phase. */
  function Bursts(s: Session, k: nat): Session {
    if k == 0 then s else TxReady(Bursts(s, k - 1))
  }

  /** A transmit transfer that waits for its first RR. */
  predicate Waiting(s: Session) {
    s.xfer.active && s.xfer.dir == Tx && s.xfer.phase == AwaitingRR && !s.xfer.abortPending &&
    s.xfer.done == 0 && s.xfer.total == |s.xfer.pendingData| > 0
  }

  function FramesOf(s: Session, paclen: int): seq<seq<byte>> {
    Plan(s.xfer.name, s.xfer.total, s.xfer.pendingData, paclen)
  }

  lemma ShareBounds(total: int, k: int, n: int)
    requires 0 < total && 0 <= k < n
    ensures 0 <= total * k / n < total
    ensures total * k / n <= total * (k + 1) / n
    ensures total * n / n == total
  {
    assert total * (k + 1) == total * k + total;
    assert total * n - total * k == total * (n - k);
    MulMono(1, total, n - k);
    MulMono(0, total, k);
    DivBelow(total * k, total, n);
    DivMono(0, total * k, n);
    DivMono(total * k, total * (k + 1), n);
    DivExact(total, n);
  }

  lemma FlattenStep(plan: seq<seq<byte>>, k: nat)
    requires k < |plan|
    ensures Flatten(plan[..k + 1]) == Flatten(plan[..k]) + plan[k]
  {
    assert plan[..k + 1] == plan[..k] + [plan[k]];
    FlattenAppend(plan[..k], [plan[k]]);
    assert Flatten([plan[k]]) == plan[k] + Flatten([]);
  }

  /** The transfer of s, k bursts after its data phase began, with frames still to send. */
  predicate Midway(r: Session, s: Session, plan: seq<seq<byte>>, k: nat)
    requires k < |plan|
  {
    && r.xfer.active && r.xfer.dir == Tx && r.xfer.phase == Active && !r.xfer.abortPending
    && r.xfer.total == s.xfer.total && r.xfer.framesPlanned == |plan| && r.xfer.framesSent == k
    && r.xfer.pendingFrames == plan[k + 1..]
    && r.xfer.done == s.xfer.total * k / |plan|
    && r.out == s.out + Flatten(plan[..k + 1])
  }

  predicate AllQueued(r: Session, s: Session, plan: seq<seq<byte>>) {
    && r.xfer.active && r.xfer.dir == Tx && r.xfer.phase == AwaitingAF
    && r.xfer.pendingFrames == [] && r.xfer.done == r.xfer.total == s.xfer.total
    && r.out == s.out + Flatten(plan)
  }

  lemma BurstStep(r: Session, s: Session, plan: seq<seq<byte>>, k: nat)
    requires k < |plan| && s.xfer.total > 0 && Midway(r, s, plan, k)
    ensures k + 1 < |plan| ==> Midway(TxReady(r), s, plan, k + 1)
    ensures k + 1 == |plan| ==> AllQueued(TxReady(r), s, plan)
  {
    var n := |plan|;
    var total := s.xfer.total;
    if k + 1 < n {
      ShareBounds(total, k + 1, n);
      FlattenStep(plan, k + 1);
      assert plan[k + 1..][0] == plan[k + 1] && plan[k + 1..][1..] == plan[k + 2..];
      assert (s.out + Flatten(plan[..k + 1])) + plan[k + 1] == s.out + Flatten(plan[..k + 2]);
    } else {
      ShareBounds(total, k, n);
      assert plan[n..] == [] && plan[..n] == plan;
    }
  }

  lemma PumpStart(s: Session, plan: seq<seq<byte>>)
    requires Waiting(s) && |plan| > 0
    ensures Midway(BeginPlan(s, plan), s, plan, 0)
  {
    FlattenStep(plan, 0);
    assert plan[..0] == [] && Flatten(plan[..1]) == plan[0];
    ShareBounds(s.xfer.total, 0, |plan|);
  }

  lemma {:induction false} PumpSteps(s: Session, plan: seq<seq<byte>>, k: nat)
    requires Waiting(s) && |plan| > 0
    ensures var r := Bursts(BeginPlan(s, plan), k);
            if k < |plan| then Midway(r, s, plan, k) else AllQueued(r, s, plan)
  {
    if k == 0 {
      PumpStart(s, plan);
    } else {
      PumpSteps(s, plan, k - 1);
      if k - 1 < |plan| {
        BurstStep(Bursts(BeginPlan(s, plan), k - 1), s, plan, k - 1);
      }
    }
  }

  /** After k bursts the first k + 1 frames of the plan, and nothing else, have gone to the link;
      the frames left are planned - sent - 1; progress is below the total until the last burst,
      which makes it equal to the total and ends the phase. */
  lemma PumpRun(s: Session, paclen: int, k: nat)
    requires Waiting(s)
    ensures var plan := FramesOf(s, paclen);
            var r := Bursts(StartDataPhase(s, paclen), k);
            if k < |plan| then
              && Midway(r, s, plan, k)
              && |r.xfer.pendingFrames| == r.xfer.framesPlanned - r.xfer.framesSent - 1
              && 0 <= r.xfer.done < r.xfer.total
            else
              AllQueued(r, s, plan)
  {
    var plan := FramesOf(s, paclen);
    PumpSteps(s, plan, k);
    if k < |plan| {
      ShareBounds(s.xfer.total, k, |plan|);
    }
  }

  /** One burst later. */
  lemma ShareGrows(r: Session, next: Session, s: Session, plan: seq<seq<byte>>, k: nat)
    requires s.xfer.total > 0
    requires if k < |plan| then Midway(r, s, plan, k) else AllQueued(r, s, plan)
    requires if k + 1 < |plan| then Midway(next, s, plan, k + 1) else AllQueued(next, s, plan)
    ensures r.xfer.done <= next.xfer.done
  {
    if k < |plan| {
      ShareBounds(s.xfer.total, k, |plan|);
    }
  }

  /** Progress never falls. */
  lemma ProgressMonotone(s: Session, paclen: int, k: nat)
    requires Waiting(s)
    ensures var r := StartDataPhase(s, paclen);
            Bursts(r, k).xfer.done <= Bursts(r, k + 1).xfer.done
  {
    var plan := FramesOf(s, paclen);
    var start := BeginPlan(s, plan);
    PumpSteps(s, plan, k);
    PumpSteps(s, plan, k + 1);
    ShareGrows(Bursts(start, k), Bursts(start, k + 1), s, plan, k);
  }

  /** The bytes a list of DT frames carries. */
  function PayloadOf(frames: seq<seq<byte>>): seq<byte> {
    if frames == [] then []
    else (if |frames[0]| >= 2 then frames[0][2..] else []) + PayloadOf(frames[1..])
  }

  lemma {:induction false} PayloadsAddUp(data: seq<byte>, c: nat)
    requires 0 < c <= 256
    ensures PayloadOf(DataFrames(data, c)) == data
    decreases |data|
  {
    if data != [] {
      var n := if c < |data| then c else |data|;
      var rest := DataFrames(data[n..], c);
      PayloadsAddUp(data[n..], c);
      assert DataFrames(data, c)[1..] == rest;
      assert BuildDT(data[..n])[2..] == data[..n];
      assert data == data[..n] + data[n..];
    }
  }

  /** Frames of this length, the last perhaps shorter. */
  predicate AsLong(frames: seq<seq<byte>>, long: nat) {
    && (forall i :: 0 <= i < |frames| - 1 ==> |frames[i]| == long)
    && (forall i :: 0 <= i < |frames| ==> 3 <= |frames[i]| <= long && frames[i][0] == STX)
  }

  lemma OneMoreAsLong(first: seq<byte>, rest: seq<seq<byte>>, long: nat)
    requires AsLong(rest, long) && 3 <= |first| <= long && first[0] == STX && (rest != [] ==> |first| == long)
    ensures AsLong([first] + rest, long)
  {
    var all := [first] + rest;
    assert forall i :: 0 < i < |all| ==> all[i] == rest[i - 1];
  }

  lemma {:induction false} DataFramesAsLong(data: seq<byte>, c: nat)
    requires 0 < c <= 256
    ensures AsLong(DataFrames(data, c), c + 2)
    decreases |data|
  {
    if data != [] {
      var n := if c < |data| then c else |data|;
      DataFramesAsLong(data[n..], c);
      OneMoreAsLong(BuildDT(data[..n]), DataFrames(data[n..], c), c + 2);
    }
  }

  /** Between its header and its end a plan has data frames only.  Every one but the last is exactly as
      long as the packet length asks for, which is taken as 8 when it is less and as 256 when it is more;
      the last is no longer, none is empty, and the payloads put together are the file. */
  lemma PlanCarriesFile(name: seq<byte>, total: int, data: seq<byte>, paclen: int)
    ensures var plan := Plan(name, total, data, paclen);
            var long := if paclen < 8 then 8 else if paclen > 256 then 256 else paclen;
            && |plan| >= 2 && plan[0] == BuildHD(name, total) && plan[|plan| - 1] == BuildEF()
            && PayloadOf(plan[1..|plan| - 1]) == data
            && (forall i :: 1 <= i < |plan| - 2 ==> |plan[i]| == long)
            && (forall i :: 1 <= i < |plan| - 1 ==> 3 <= |plan[i]| <= long && plan[i][0] == STX)
  {
    var c := ClampPaclen(paclen) - 2;
    var frames, plan := DataFrames(data, c), Plan(name, total, data, paclen);
    PayloadsAddUp(data, c);
    DataFramesAsLong(data, c);
    assert plan[1..|plan| - 1] == frames;
    assert forall i :: 1 <= i < |plan| - 1 ==> plan[i] == frames[i - 1];
  }

  /** An abort during the data phase puts CN on the link in place of the next frame and ends the
      transfer, except when every frame has been queued: then it is not acted on. */
  lemma AbortActsIffFramesRemain(s: Session, paclen: int, k: nat)
    requires Waiting(s) && k < |FramesOf(s, paclen)|
    ensures var r := Bursts(StartDataPhase(s, paclen), k);
            var t := TxReady(Abort(r));
            && (t.xfer == NO_XFER <==> k + 1 < |FramesOf(s, paclen)|)
            && (k + 1 < |FramesOf(s, paclen)| ==> t.out == r.out + BuildCN(USER_ABORT))
            && (k + 1 == |FramesOf(s, paclen)| ==> t.out == r.out && t.xfer.phase == AwaitingAF)
  {
    PumpRun(s, paclen, k);
  }
}
