/** One terminal session's side of a YAPP file transfer: what each frame, user command and
    transmitted audio burst does to it.  The functions say what each operation does to a
    session's value; class TerminalSession does it in place and is proved against them. */
module YappSession {
  import opened Bytes
  import opened QtText
  import opened YappFrames

  // ---------------------------------------------------------------- numbers in headers

  predicate AllDigits(s: seq<int>) { forall i :: 0 <= i < |s| ==> 48 <= s[i] <= 57 }

  function DigitsValue(s: seq<int>): nat
    requires AllDigits(s)
  {
    if s == [] then 0 else 10 * DigitsValue(s[..|s| - 1]) + (s[|s| - 1] - 48)
  }

  /** QString::toLongLong in base ten; 0 for anything that is not a 64-bit number. */
  function ToLongLong(text: seq<byte>): int {
    var s := Trimmed(text);
    var signed := s != [] && (s[0] == 43 || s[0] == 45);
    var digits := if signed then s[1..] else s;
    if digits == [] || !AllDigits(digits) then 0
    else
      var n: int := DigitsValue(digits);
      var v := if signed && s[0] == 45 then -n else n;
      if -0x8000_0000_0000_0000 <= v < 0x8000_0000_0000_0000 then v else 0
  }

  lemma {:induction false} DecimalValue(n: nat)
    ensures AllDigits(Decimal(n)) && DigitsValue(Decimal(n)) == n
  {
    var d := Decimal(n);
    if n < 10 {
      assert d[..|d| - 1] == [];
    } else {
      DecimalValue(n / 10);
      assert d[..|d| - 1] == Decimal(n / 10);
    }
  }

  lemma NothingTrimmed(s: seq<byte>)
    requires s != [] && !IsSpace(s[0]) && !IsSpace(s[|s| - 1])
    ensures Trimmed(s) == s
  {
  }

  lemma SignedDecimal(sign: byte, n: nat)
    requires sign == 43 || sign == 45
    ensures var v := if sign == 45 then -(n as int) else n;
            ToLongLong([sign] + Decimal(n)) == if -0x8000_0000_0000_0000 <= v < 0x8000_0000_0000_0000 then v else 0
  {
    var s := [sign] + Decimal(n);
    DecimalValue(n);
    assert s[1..] == Decimal(n) && s[|s| - 1] == Decimal(n)[|Decimal(n)| - 1];
    NothingTrimmed(s);
  }

  lemma PlainDecimal(n: nat)
    ensures ToLongLong(Decimal(n)) == if n < 0x8000_0000_0000_0000 then n else 0
  {
    DecimalValue(n);
    NothingTrimmed(Decimal(n));
  }

  /** Numbers of 64 bits are read with or without a sign; larger ones read as nothing. */
  lemma ToLongLongIs(n: nat)
    ensures ToLongLong(Decimal(n)) == ToLongLong([43] + Decimal(n))
    ensures ToLongLong([43] + Decimal(n)) == if n < 0x8000_0000_0000_0000 then n else 0
    ensures ToLongLong([45] + Decimal(n)) == if n <= 0x8000_0000_0000_0000 then -(n as int) else 0
  {
    PlainDecimal(n);
    SignedDecimal(43, n);
    SignedDecimal(45, n);
  }

  /** Position of the first NUL at or after from; |s| when there is none. */
  function IndexOfNul(s: seq<byte>, from: nat): (i: nat)
    requires from <= |s|
    ensures from <= i <= |s|
    ensures forall k :: from <= k < i ==> s[k] != 0
    ensures i < |s| ==> s[i] == 0
    decreases |s| - from
  {
    if from == |s| || s[from] == 0 then from else IndexOfNul(s, from + 1)
  }

  predicate HasName(body: seq<byte>) { IndexOfNul(body, 0) < |body| }

  function HeaderName(body: seq<byte>): seq<byte> { body[..IndexOfNul(body, 0)] }

  function HeaderSize(body: seq<byte>): int
    requires HasName(body)
  {
    var nul1 := IndexOfNul(body, 0);
    ToLongLong(body[nul1 + 1..IndexOfNul(body, nul1 + 1)])
  }

  /** The receiver reads back the name and size the sender wrote. */
  lemma HeaderRoundTrip(name: seq<byte>, size: nat)
    requires 0 !in name && size < 0x8000_0000_0000_0000
    ensures HasName(HeaderBody(name, size))
    ensures HeaderName(HeaderBody(name, size)) == name
    ensures HeaderSize(HeaderBody(name, size)) == size
  {
    var body := HeaderBody(name, size);
    var digits := Decimal(size);
    assert Number(size) == digits;
    var nul1 := IndexOfNul(body, 0);
    assert nul1 == |name| by {
      assert body[|name|] == 0;
      assert forall k :: 0 <= k < |name| ==> body[k] == name[k] && name[k] in name;
    }
    assert forall k {:trigger body[k]} :: nul1 + 1 <= k < nul1 + 1 + |digits| ==> body[k] == digits[k - nul1 - 1];
    var nul2 := IndexOfNul(body, nul1 + 1);
    assert nul2 == nul1 + 1 + |digits| by {
      assert body[nul1 + 1 + |digits|] == 0;
    }
    assert body[nul1 + 1..nul2] == digits;
    PlainDecimal(size);
  }

  // ---------------------------------------------------------------- session state

  datatype File = File(name: seq<byte>, data: seq<byte>)

  datatype Dir = NoDir | Tx | Rx

  datatype XferPhase = NoPhase | AwaitingRR | AwaitingAccept | Active | AwaitingAF

  /** XferState: the transfer the session is in, either way. */
  datatype Xfer = Xfer(
    active: bool, dir: Dir, name: seq<byte>, total: int, done: int, abortPending: bool,
    phase: XferPhase, pendingData: seq<byte>,
    pendingFrames: seq<seq<byte>>, framesPlanned: int, framesSent: int)

  const NO_XFER := Xfer(false, NoDir, [], 0, 0, false, NoPhase, [], [], 0, 0)

  /** The file part of YappRxState: a header was seen and its end was not. */
  datatype Incoming = Incoming(filename: seq<byte>, filesize: int, fileBuf: seq<byte>, active: bool)

  const NO_FILE := Incoming([], 0, [], false)

  /** What the session tells the user interface. */
  datatype Notice =
    | Requested
    | Started(dir: Dir, name: seq<byte>, total: int, phase: XferPhase)
    | FileSent(name: seq<byte>, total: int)
    | FileReceived(name: seq<byte>, bytes: seq<byte>)
    | Ended(aborted: bool)

  /** A session's value.  out holds the bytes given to the link and not yet delivered to the
      peer.  offered, sent and ignored are history: the last file the user was allowed to send, the
      files reported as sent, and the number of acknowledgements read while none was awaited. */
  datatype Session = Session(
    connected: bool, framer: Framer, file: Incoming, xfer: Xfer,
    out: seq<byte>, text: seq<byte>, notices: seq<Notice>,
    offered: File, sent: seq<File>, ignored: nat)

  const NEW_SESSION :=
    Session(true, NEW_FRAMER, NO_FILE, NO_XFER, [], [], [], File([], []), [], 0)

  // ---------------------------------------------------------------- what each operation does

  function Send(s: Session, bytes: seq<byte>): Session { s.(out := s.out + bytes) }

  function Notify(s: Session, n: Notice): Session { s.(notices := s.notices + [n]) }

  // "user abort"
  const USER_ABORT: seq<byte> := [117, 115, 101, 114, 32, 97, 98, 111, 114, 116]

  function ClampPaclen(paclen: int): int {
    if paclen < 8 then 8 else if paclen > 256 then 256 else paclen
  }

  function DataFrames(payload: seq<byte>, chunk: nat): seq<seq<byte>>
    requires 0 < chunk <= 256
  {
    if payload == [] then []
    else
      var n := if chunk < |payload| then chunk else |payload|;
      [BuildDT(payload[..n])] + DataFrames(payload[n..], chunk)
  }

  /** The frames of one file transfer. */
  function Plan(name: seq<byte>, total: int, data: seq<byte>, paclen: int): seq<seq<byte>> {
    [BuildHD(name, total)] + DataFrames(data, ClampPaclen(paclen) - 2) + [BuildEF()]
  }

  function PumpNext(s: Session): Session {
    if !s.xfer.active || s.xfer.dir != Tx then s
    else if s.xfer.abortPending then
      Notify(Send(s, BuildCN(USER_ABORT)), Ended(true)).(xfer := NO_XFER)
    else if s.xfer.pendingFrames == [] then s
    else Send(s, s.xfer.pendingFrames[0]).(xfer := s.xfer.(pendingFrames := s.xfer.pendingFrames[1..]))
  }

  /** The plan becomes the queue and its first frame goes out. */
  function BeginPlan(s: Session, plan: seq<seq<byte>>): Session {
    var x := s.xfer.(phase := Active, pendingData := [], pendingFrames := plan,
                     framesPlanned := |plan|, framesSent := 0);
    PumpNext(Notify(s.(xfer := x), Started(x.dir, x.name, x.total, Active)))
  }

  function StartDataPhase(s: Session, paclen: int): Session {
    BeginPlan(s, Plan(s.xfer.name, s.xfer.total, s.xfer.pendingData, paclen))
  }

  /** The peer wants to send a file. */
  function OnSI(s: Session): Session {
    if s.xfer.active then Send(s, BuildCN([]))
    else Notify(s.(xfer := s.xfer.(active := true, dir := Rx, phase := AwaitingAccept,
                                   name := [], total := 0, done := 0)), Requested)
  }

  /** The peer accepted our SI. */
  function OnRR(s: Session, paclen: int): Session {
    if s.xfer.active && s.xfer.dir == Tx && s.xfer.phase == AwaitingRR then StartDataPhase(s, paclen) else s
  }

  /** The peer has our whole file. */
  function OnAF(s: Session): Session {
    if s.xfer.active && s.xfer.dir == Tx && s.xfer.phase == AwaitingAF then
      Notify(Notify(s, FileSent(s.xfer.name, s.xfer.total)), Ended(false))
        .(xfer := NO_XFER, sent := s.sent + [s.offered])
    else s.(ignored := s.ignored + 1)
  }

  /** A header: a new file starts. */
  function OnHD(s: Session, body: seq<byte>): Session {
    if !HasName(body) then s
    else
      var name, size := HeaderName(body), HeaderSize(body);
      var x := s.xfer.(active := true, dir := Rx, name := name, total := size, done := 0);
      Send(Notify(s.(file := Incoming(name, size, [], true), xfer := x),
                  Started(Rx, name, size, x.phase)), BuildRF())
  }

  function OnDT(s: Session, data: seq<byte>): Session {
    if !s.file.active then s
    else
      var buf := s.file.fileBuf + data;
      s.(file := s.file.(fileBuf := buf), xfer := s.xfer.(done := |buf|))
  }

  function OnEF(s: Session): Session {
    if !s.file.active then s
    else
      Notify(Notify(Send(s, BuildAF()), FileReceived(s.file.filename, s.file.fileBuf)), Ended(false))
        .(xfer := NO_XFER, file := NO_FILE)
  }

  function OnCN(s: Session): Session {
    if !s.xfer.active then s else Notify(s, Ended(true)).(xfer := NO_XFER, file := NO_FILE)
  }

  function Handle(s: Session, f: Frame, paclen: int): Session {
    match f.kind
    case SI => OnSI(s)
    case RR => OnRR(s, paclen)
    case AF => OnAF(s)
    case HD => OnHD(s, f.data)
    case RF => s
    case AT => s
    case CA => s
    case ET => Send(s, BuildAT())
    case DT => OnDT(s, f.data)
    case EF => OnEF(s)
    case CN => OnCN(s)
  }

  lemma StartIgnoresFramer(s: Session, plan: seq<seq<byte>>, g: Framer)
    ensures BeginPlan(s.(framer := g), plan) == BeginPlan(s, plan).(framer := g)
  {
  }

  lemma HandleIgnoresFramer(s: Session, f: Frame, paclen: int, g: Framer)
    ensures Handle(s.(framer := g), f, paclen) == Handle(s, f, paclen).(framer := g)
  {
    match f.kind {
      case RR =>
        if s.xfer.active && s.xfer.dir == Tx && s.xfer.phase == AwaitingRR {
          StartIgnoresFramer(s, Plan(s.xfer.name, s.xfer.total, s.xfer.pendingData, paclen), g);
        }
      case _ =>
    }
  }

  /** One byte from the link. */
  function Receive1(s: Session, b: byte, paclen: int): Session
  {
    var (q, o) := Step(s.framer, b);
    match o
    case Dispatch(f) => Handle(s, f, paclen).(framer := q)
    case Text(t) => s.(framer := q, text := s.text + [t])
    case _ => s.(framer := q)
  }

  function Receive(s: Session, chunk: seq<byte>, paclen: int): Session
    decreases |chunk|
  {
    if chunk == [] then s else Receive(Receive1(s, chunk[0], paclen), chunk[1..], paclen)
  }

  /** termFileSend: the user asks to send a file. */
  function SendFile(s: Session, file: File): Session {
    if file.name == [] || file.data == [] || !s.connected || s.xfer.active then s
    else
      var x := s.xfer.(active := true, dir := Tx, name := file.name, total := |file.data|, done := 0,
                       abortPending := false, phase := AwaitingRR, pendingData := file.data);
      Notify(Send(s, BuildSI()).(xfer := x, offered := file),
             Started(Tx, file.name, |file.data|, AwaitingRR))
  }

  /** termXferAccept. */
  function Accept(s: Session): Session {
    if s.xfer.active && s.xfer.phase == AwaitingAccept
    then Send(s, BuildRR()).(xfer := s.xfer.(phase := Active)) else s
  }

  /** termXferReject. */
  function Reject(s: Session): Session {
    if s.xfer.active && s.xfer.phase == AwaitingAccept
    then Notify(Send(s, BuildCN([])), Ended(true)).(xfer := NO_XFER) else s
  }

  /** termFileAbort. */
  function Abort(s: Session): Session {
    if !s.xfer.active then s
    else if s.xfer.dir == Tx then s.(xfer := s.xfer.(abortPending := true))
    else Notify(Send(s, BuildCN(USER_ABORT)), Ended(true)).(xfer := NO_XFER, file := NO_FILE)
  }

  function Least(a: int, b: int): int { if a <= b then a else b }

  /** One transmitted audio burst, which the pump takes for the frame it queued last. */
  function TxReady(s: Session): Session {
    if !(s.xfer.active && s.xfer.dir == Tx && s.xfer.phase == Active) then s
    else
      var sent := s.xfer.framesSent + 1;
      var planned := s.xfer.framesPlanned;
      var share := if planned > 0 then Least(s.xfer.total, s.xfer.total * sent / planned) else s.xfer.done;
      var x := s.xfer.(framesSent := sent, done := share);
      if sent >= planned then s.(xfer := x.(phase := AwaitingAF)) else PumpNext(s.(xfer := x))
  }

  /** The 60 s timers of yappSendFile and of the end of the pump. */
  function Timeout(s: Session, awaited: XferPhase): Session {
    if s.xfer.active && s.xfer.phase == awaited then Notify(s, Ended(true)).(xfer := NO_XFER) else s
  }

  // ---------------------------------------------------------------- the session object

  class TerminalSession {
    var connected: bool
    var framer: Framer
    var file: Incoming
    var xfer: Xfer
    var out: seq<byte>
    var text: seq<byte>
    var notices: seq<Notice>
    ghost var offered: File
    ghost var sent: seq<File>
    ghost var ignored: nat

    ghost function Value(): Session
      reads this
    {
      Session(connected, framer, file, xfer, out, text, notices, offered, sent, ignored)
    }

    constructor ()
      ensures Value() == NEW_SESSION
    {
      connected := true;
      framer, file, xfer := NEW_FRAMER, NO_FILE, NO_XFER;
      out, text, notices := [], [], [];
      offered, sent, ignored := File([], []), [], 0;
    }

    method SendData(bytes: seq<byte>)
      modifies this`out
      ensures Value() == Send(old(Value()), bytes)
    {
      out := out + bytes;
    }

    method Broadcast(n: Notice)
      modifies this`notices
      ensures Value() == Notify(old(Value()), n)
    {
      notices := notices + [n];
    }

    method PumpNextFrame()
      modifies this
      ensures Value() == PumpNext(old(Value()))
    {
      if !xfer.active || xfer.dir != Tx {
        return;
      }
      if xfer.abortPending {
        xfer := xfer.(pendingFrames := []);
        SendData(BuildCN(USER_ABORT));
        Broadcast(Ended(true));
        xfer := NO_XFER;
        return;
      }
      if xfer.pendingFrames == [] {
        return;
      }
      var frame := xfer.pendingFrames[0];
      xfer := xfer.(pendingFrames := xfer.pendingFrames[1..]);
      SendData(frame);
    }

    /** The DT part of the frame list. */
    static method AppendDataFrames(head: seq<seq<byte>>, payload: seq<byte>, chunk: nat)
      returns (frames: seq<seq<byte>>)
      requires 0 < chunk <= 256
      ensures frames == head + DataFrames(payload, chunk)
    {
      frames := head;
      var off := 0;
      assert payload[0..] == payload;
      while off < |payload|
        invariant 0 <= off
        invariant frames + DataFrames(payload[Least(off, |payload|)..], chunk) == head + DataFrames(payload, chunk)
      {
        var end := Least(off + chunk, |payload|);
        ghost var rest := payload[off..];
        assert rest[..end - off] == payload[off..end] && rest[end - off..] == payload[end..];
        Assoc(frames, [BuildDT(payload[off..end])], DataFrames(payload[end..], chunk));
        frames := frames + [BuildDT(payload[off..end])];
        off := off + chunk;
      }
      assert payload[|payload|..] == [];
    }

    static method PlanFrames(name: seq<byte>, total: int, payload: seq<byte>, paclen: int)
      returns (frames: seq<seq<byte>>)
      ensures frames == Plan(name, total, payload, paclen)
    {
      frames := [BuildHD(name, total)];
      var clamped := paclen;
      if clamped < 8 { clamped := 8; }
      if clamped > 256 { clamped := 256; }
      frames := AppendDataFrames(frames, payload, clamped - 2);
      frames := frames + [BuildEF()];
    }

    method BeginDataPhase(paclen: int)
      modifies this
      ensures Value() == StartDataPhase(old(Value()), paclen)
    {
      xfer := xfer.(phase := Active);
      var payload := xfer.pendingData;
      xfer := xfer.(pendingData := []);
      var frames := PlanFrames(xfer.name, xfer.total, payload, paclen);
      xfer := xfer.(pendingFrames := frames);
      xfer := xfer.(framesPlanned := |xfer.pendingFrames|, framesSent := 0);
      Broadcast(Started(xfer.dir, xfer.name, xfer.total, xfer.phase));
      PumpNextFrame();
    }

    method HandleFrame(kind: Kind, data: seq<byte>, paclen: int)
      modifies this
      ensures Value() == Handle(old(Value()), Frame(kind, data), paclen)
    {
      match kind {
        case SI =>
          if xfer.active {
            SendData(BuildCN([]));
            return;
          }
          xfer := xfer.(active := true, dir := Rx, phase := AwaitingAccept);
          xfer := xfer.(name := [], total := 0, done := 0);
          Broadcast(Requested);
        case RR =>
          if xfer.active && xfer.dir == Tx && xfer.phase == AwaitingRR {
            BeginDataPhase(paclen);
          }
        case AF =>
          if xfer.active && xfer.dir == Tx && xfer.phase == AwaitingAF {
            Broadcast(FileSent(xfer.name, xfer.total));
            Broadcast(Ended(false));
            xfer := NO_XFER;
            sent := sent + [offered];
          } else {
            ignored := ignored + 1;
          }
        case HD =>
          var nul1 := IndexOfNul(data, 0);
          if nul1 == |data| {
            return;
          }
          var name := data[..nul1];
          var size := ToLongLong(data[nul1 + 1..IndexOfNul(data, nul1 + 1)]);
          file := Incoming(name, size, [], true);
          xfer := xfer.(active := true, dir := Rx, name := name, total := size, done := 0);
          Broadcast(Started(xfer.dir, xfer.name, xfer.total, xfer.phase));
          SendData(BuildRF());
        case RF =>
        case AT =>
        case CA =>
        case ET =>
          SendData(BuildAT());
        case DT =>
          if file.active {
            file := file.(fileBuf := file.fileBuf + data);
            xfer := xfer.(done := |file.fileBuf|);
          }
        case EF =>
          if !file.active {
            return;
          }
          xfer := xfer.(done := |file.fileBuf|);
          SendData(BuildAF());
          Broadcast(FileReceived(file.filename, file.fileBuf));
          Broadcast(Ended(false));
          xfer := NO_XFER;
          file := NO_FILE;
        case CN =>
          if !xfer.active {
            return;
          }
          Broadcast(Ended(true));
          xfer := NO_XFER;
          file := NO_FILE;
      }
    }

    /** The end of a frame: the framer goes back to watching for lead bytes. */
    method FinishFrame(kind: Kind, data: seq<byte>, paclen: int)
      modifies this
      ensures Value() == Handle(old(Value()), Frame(kind, data), paclen).(framer := old(framer).(phase := Idle))
    {
      ghost var before := Value();
      HandleFrame(kind, data, paclen);
      HandleIgnoresFramer(before, Frame(kind, data), paclen, before.framer);
      framer := framer.(phase := Idle);
    }

    /** The second byte of an ACK packet. */
    method FeedAckSub(b: byte, paclen: int)
      requires framer.phase == AwaitACKSub
      modifies this
      ensures Value() == Receive1(old(Value()), b, paclen)
    {
      match b {
        case 1 => FinishFrame(RR, [], paclen);
        case 2 => FinishFrame(RF, [], paclen);
        case 3 => FinishFrame(AF, [], paclen);
        case 4 => FinishFrame(AT, [], paclen);
        case 5 => FinishFrame(CA, [], paclen);
        case _ => framer := framer.(phase := Idle);
      }
    }

    /** A length byte, or a byte of the body it announced. */
    method FeedBodyByte(b: byte, paclen: int)
      requires framer.phase in {AwaitLen, AwaitData}
      modifies this
      ensures Value() == Receive1(old(Value()), b, paclen)
    {
      ghost var before := Value();
      if framer.phase == AwaitLen {
        var len := if b == 0 && framer.pendingKind == DT then 256 else b;
        if len == 0 {
          FinishFrame(framer.pendingKind, [], paclen);
        } else {
          framer := framer.(remaining := len, buffer := [], phase := AwaitData);
        }
      } else {
        framer := framer.(buffer := framer.buffer + [b]);
        framer := framer.(remaining := framer.remaining - 1);
        if framer.remaining == 0 {
          HandleIgnoresFramer(before, Frame(framer.pendingKind, framer.buffer), paclen, framer);
          FinishFrame(framer.pendingKind, framer.buffer, paclen);
        }
      }
    }

    /** One turn of yappFeedIncoming's loop. */
    method FeedByte(b: byte, paclen: int)
      modifies this
      ensures Value() == Receive1(old(Value()), b, paclen)
    {
      match framer.phase {
        case Idle =>
          match b {
            case 0x05 => framer := framer.(phase := AwaitSISig);
            case 0x06 => framer := framer.(phase := AwaitACKSub);
            case 0x01 => framer := framer.(pendingKind := HD, phase := AwaitLen);
            case 0x02 => framer := framer.(pendingKind := DT, phase := AwaitLen);
            case 0x03 => framer := framer.(phase := AwaitEFSig);
            case 0x04 => framer := framer.(phase := AwaitETSig);
            case 0x18 => framer := framer.(pendingKind := CN, phase := AwaitLen);
            case _ => text := text + [b];
          }
        case AwaitSISig =>
          if b == 1 { FinishFrame(SI, [], paclen); } else { framer := framer.(phase := Idle); }
        case AwaitACKSub =>
          FeedAckSub(b, paclen);
        case AwaitEFSig =>
          if b == 1 { FinishFrame(EF, [], paclen); } else { framer := framer.(phase := Idle); }
        case AwaitETSig =>
          if b == 1 { FinishFrame(ET, [], paclen); } else { framer := framer.(phase := Idle); }
        case _ =>
          FeedBodyByte(b, paclen);
      }
    }

    /** yappFeedIncoming: bytes from the link, split into frames and terminal text. */
    method FeedIncoming(chunk: seq<byte>, paclen: int)
      modifies this
      ensures Value() == Receive(old(Value()), chunk, paclen)
    {
      var i := 0;
      while i < |chunk|
        invariant 0 <= i <= |chunk|
        invariant Receive(Value(), chunk[i..], paclen) == Receive(old(Value()), chunk, paclen)
      {
        assert chunk[i..][0] == chunk[i] && chunk[i..][1..] == chunk[i + 1..];
        FeedByte(chunk[i], paclen);
        i := i + 1;
      }
    }

    method FileSend(f: File)
      modifies this
      ensures Value() == SendFile(old(Value()), f)
    {
      if f.name != [] && f.data != [] && connected && !xfer.active {
        SendData(BuildSI());
        xfer := xfer.(active := true, dir := Tx, name := f.name);
        xfer := xfer.(total := |f.data|, done := 0, abortPending := false);
        xfer := xfer.(phase := AwaitingRR, pendingData := f.data);
        offered := f;
        Broadcast(Started(xfer.dir, xfer.name, xfer.total, xfer.phase));
      }
    }

    method XferAccept()
      modifies this
      ensures Value() == Accept(old(Value()))
    {
      if xfer.active && xfer.phase == AwaitingAccept {
        SendData(BuildRR());
        xfer := xfer.(phase := Active);
      }
    }

    method XferReject()
      modifies this
      ensures Value() == Reject(old(Value()))
    {
      if xfer.active && xfer.phase == AwaitingAccept {
        SendData(BuildCN([]));
        Broadcast(Ended(true));
        xfer := NO_XFER;
      }
    }

    method AbortSend()
      modifies this
      ensures Value() == Abort(old(Value()))
    {
      if !xfer.active {
        return;
      }
      if xfer.dir == Tx {
        xfer := xfer.(abortPending := true);
      } else {
        SendData(BuildCN(USER_ABORT));
        Broadcast(Ended(true));
        xfer := NO_XFER;
        file := NO_FILE;
      }
    }

    /** The transfer part of onPacketTxReady. */
    method PacketTxReady()
      modifies this
      ensures Value() == TxReady(old(Value()))
    {
      if !(xfer.active && xfer.dir == Tx && xfer.phase == Active) {
        return;
      }
      xfer := xfer.(framesSent := xfer.framesSent + 1);
      if xfer.framesPlanned > 0 {
        xfer := xfer.(done := Least(xfer.total, xfer.total * xfer.framesSent / xfer.framesPlanned));
      }
      if xfer.framesSent >= xfer.framesPlanned {
        xfer := xfer.(phase := AwaitingAF);
      } else {
        PumpNextFrame();
      }
    }

    method TimerExpired(awaited: XferPhase)
      modifies this
      ensures Value() == Timeout(old(Value()), awaited)
    {
      if xfer.active && xfer.phase == awaited {
        Broadcast(Ended(true));
        xfer := NO_XFER;
      }
    }
  }
}
