/** Length-prefixed frames over a stream socket that moves bytes in pieces of any
    size, can be interrupted, and carries descriptors beside the bytes. */
module Framing {
  import opened Basics
  import opened BigEndian

  const MAX_FRAME_BYTES: nat := 1024 * 1024
  const MAX_DESCRIPTORS: nat := 64

  /** One byte on the wire and the descriptors sent along with it. */
  datatype Octet = Octet(byte: u8, fds: seq<int>)

  datatype Frame = Frame(payload: seq<u8>, fds: seq<int>)

  predicate Sendable(f: Frame) {
    && 0 < |f.payload| <= MAX_FRAME_BYTES && |f.fds| <= MAX_DESCRIPTORS
    && forall i :: 0 <= i < |f.fds| ==> f.fds[i] >= 0
  }

  /** Bytes of one send: the descriptors travel with the first of them. */
  function Marked(data: seq<u8>, fds: seq<int>): seq<Octet> {
    seq(|data|, i requires 0 <= i < |data| => Octet(data[i], if i == 0 then fds else []))
  }

  function Prefixed(payload: seq<u8>): seq<u8>
    requires |payload| <= MAX_FRAME_BYTES
  {
    Put32(|payload|) + payload
  }

  function Wire(f: Frame): seq<Octet>
    requires Sendable(f)
  {
    Marked(Prefixed(f.payload), f.fds)
  }

  function WireAll(fs: seq<Frame>): seq<Octet>
    requires forall i :: 0 <= i < |fs| ==> Sendable(fs[i])
  {
    if fs == [] then [] else Wire(fs[0]) + WireAll(fs[1..])
  }

  function Bytes(s: seq<Octet>): seq<u8> {
    seq(|s|, i requires 0 <= i < |s| => s[i].byte)
  }

  /** All descriptors that come with these bytes, in order. */
  function Rights(s: seq<Octet>): seq<int> {
    if s == [] then [] else Rights(s[..|s| - 1]) + s[|s| - 1].fds
  }

  lemma {:induction false} RightsConcat(s: seq<Octet>, t: seq<Octet>)
    ensures Rights(s + t) == Rights(s) + Rights(t)
  {
    if t == [] {
      assert s + t == s;
    } else {
      var n := |t| - 1;
      RightsConcat(s, t[..n]);
      assert (s + t)[..|s + t| - 1] == s + t[..n];
    }
  }

  lemma BytesLength(s: seq<Octet>)
    ensures |Bytes(s)| == |s|
  {
  }

  lemma RightsNone()
    ensures Rights([]) == []
  {
  }

  lemma {:induction false} RightsMarked(data: seq<u8>, fds: seq<int>)
    requires data != []
    ensures Rights(Marked(data, fds)) == fds
  {
    var n := |data| - 1;
    assert Marked(data, fds)[..n] == Marked(data[..n], fds);
    if n > 0 {
      RightsMarked(data[..n], fds);
    }
  }

  // ---- what a reader finds ------------------------------------------------------------

  /** The next frame of a stream and what follows it. */
  function TakeFrame(s: seq<Octet>, maxBytes: nat, maxFds: nat): Option<(Frame, seq<Octet>)> {
    if |s| < 4 then None
    else
      var n := Get32(Bytes(s[..4]), 0);
      if n == 0 || n > maxBytes || |s| < 4 + n || |Rights(s[..4 + n])| > maxFds then None
      else Some((Frame(Bytes(s[4..4 + n]), Rights(s[..4 + n])), s[4 + n..]))
  }

  function TakeFrames(s: seq<Octet>, count: nat, maxBytes: nat, maxFds: nat): Option<(seq<Frame>, seq<Octet>)> {
    if count == 0 then Some(([], s))
    else
      var first := TakeFrame(s, maxBytes, maxFds);
      if first.None? then None
      else
        var rest := TakeFrames(first.value.1, count - 1, maxBytes, maxFds);
        if rest.None? then None else Some(([first.value.0] + rest.value.0, rest.value.1))
  }

  lemma FrameReadBack(f: Frame, rest: seq<Octet>, maxBytes: nat, maxFds: nat)
    requires Sendable(f) && |f.payload| <= maxBytes && |f.fds| <= maxFds
    ensures TakeFrame(Wire(f) + rest, maxBytes, maxFds) == Some((f, rest))
  {
    var s, n := Wire(f) + rest, |f.payload|;
    var header := Bytes(s[..4]);
    assert header == Put32(n);
    assert header[0..4] == header;
    GetPut32(header, 0, n);
    assert s[..4 + n] == Wire(f);
    RightsMarked(Prefixed(f.payload), f.fds);
    assert Bytes(s[4..4 + n]) == f.payload;
    assert s[4 + n..] == rest;
  }

  /** Successive reads return the frames that were written, in order, with their
      descriptors and nothing of what follows. */
  lemma {:induction false} FramesReadBack(fs: seq<Frame>, rest: seq<Octet>, maxBytes: nat, maxFds: nat)
    requires forall i :: 0 <= i < |fs| ==> Sendable(fs[i]) && |fs[i].payload| <= maxBytes && |fs[i].fds| <= maxFds
    ensures TakeFrames(WireAll(fs) + rest, |fs|, maxBytes, maxFds) == Some((fs, rest))
  {
    hide TakeFrame, Wire, Sendable;
    if fs == [] {
      assert WireAll(fs) + rest == rest;
    } else {
      assert WireAll(fs) + rest == Wire(fs[0]) + (WireAll(fs[1..]) + rest);
      FrameReadBack(fs[0], WireAll(fs[1..]) + rest, maxBytes, maxFds);
      FramesReadBack(fs[1..], rest, maxBytes, maxFds);
      assert [fs[0]] + fs[1..] == fs;
    }
  }

  lemma {:induction false} WireAppend(fs: seq<Frame>, f: Frame)
    requires Sendable(f) && forall i :: 0 <= i < |fs| ==> Sendable(fs[i])
    ensures WireAll(fs + [f]) == WireAll(fs) + Wire(f)
  {
    if fs == [] {
      assert fs + [f] == [f];
      assert WireAll([f]) == Wire(f) + WireAll([]);
    } else {
      assert (fs + [f])[1..] == fs[1..] + [f];
      WireAppend(fs[1..], f);
    }
  }

  // ---- the sending end ---------------------------------------------------------------------

  /** What the system does with one call; a call beyond the plan moves everything. */
  datatype Outcome = Interrupted | Broken | Moved(n: nat)

  datatype Sent = SendInterrupted | SendFailed | SentSome(n: nat)

  class SendSocket {
    var wire: seq<Octet>
    var plan: seq<Outcome>

    constructor (plan: seq<Outcome>)
      ensures wire == [] && this.plan == plan
    {
      wire := [];
      this.plan := plan;
    }

    /** One system call: any prefix of the data goes out, or none at all. */
    method Send(data: seq<u8>, fds: seq<int>) returns (r: Sent)
      requires data != []
      modifies this
      ensures r.SentSome? ==> r.n <= |data| && wire == old(wire) + Marked(data[..r.n], fds)
      ensures !r.SentSome? ==> wire == old(wire)
      ensures |plan| <= |old(plan)|
      ensures r.SendInterrupted? ==> |plan| < |old(plan)|
    {
      var outcome := Moved(|data|);
      if plan != [] {
        outcome := plan[0];
        plan := plan[1..];
      }
      match outcome
      case Interrupted => r := SendInterrupted;
      case Broken => r := SendFailed;
      case Moved(n) =>
        var k := if n < |data| then n else |data|;
        wire := wire + Marked(data[..k], fds);
        r := SentSome(k);
    }

    /** The first k bytes of the data went out without descriptors. */
    method WriteAll(data: seq<u8>) returns (r: Result<bool>, ghost k: nat)
      modifies this
      ensures k <= |data| && wire == old(wire) + Marked(data[..k], [])
      ensures r.Ok? <==> k == |data|
    {
      k := 0;
      var written := 0;
      while written < |data|
        invariant written <= |data| && wire == old(wire) + Marked(data[..written], [])
        decreases |data| - written, |plan|
      {
        var n := Send(data[written..], []);
        if n.SendInterrupted? {
          continue;
        }
        if n.SendFailed? {
          return Err(SystemFailure), written;
        }
        if n.n == 0 {
          return Err(OperationAborted), written;
        }
        assert Marked(data[..written], []) + Marked(data[written..][..n.n], []) == Marked(data[..written + n.n], []);
        written := written + n.n;
      }
      return Ok(true), written;
    }

    /** The rest of a frame after its first send took some of it. */
    method WriteRemaining(header: seq<u8>, payload: seq<u8>, written: nat) returns (r: Result<bool>, ghost k: nat)
      requires written <= |header| + |payload|
      modifies this
      ensures written <= k <= |header| + |payload|
      ensures wire == old(wire) + Marked((header + payload)[written..k], [])
      ensures r.Ok? <==> k == |header| + |payload|
    {
      hide Marked;
      var done := written;
      ghost var i := 0;
      NothingMarked(header + payload, written);
      if done < |header| {
        r, i := WriteAll(header[done..]);
        assert header[done..][..i] == (header + payload)[written..written + i];
        if r.Err? {
          return r, written + i;
        }
        done := |header|;
      }
      var offset := done - |header|;
      if offset < |payload| {
        ghost var j;
        r, j := WriteAll(payload[offset..]);
        assert payload[offset..][..j] == (header + payload)[done..done + j];
        MarkedOn(header + payload, written, done, done + j);
        return r, done + j;
      }
      return Ok(true), done;
    }

    /** A part of the frame goes out, all of it exactly on success, its descriptors
        with the first byte only; a frame that is not sendable leaves no trace. */
    method WriteFrame(f: Frame) returns (r: Result<bool>, ghost k: nat)
      modifies this
      ensures !Sendable(f) ==> r == Err(InvalidValue) && wire == old(wire)
      ensures Sendable(f) ==> k <= |Wire(f)| && wire == old(wire) + Wire(f)[..k] && (r.Ok? <==> k == |Wire(f)|)
    {
      k := 0;
      if |f.payload| == 0 || |f.payload| > MAX_FRAME_BYTES || |f.fds| > MAX_DESCRIPTORS {
        return Err(InvalidValue), 0;
      }
      for i := 0 to |f.fds|
        invariant forall j :: 0 <= j < i ==> f.fds[j] >= 0
      {
        if f.fds[i] < 0 {
          return Err(InvalidValue), 0;
        }
      }
      var header := Put32(|f.payload|);
      if |f.fds| == 0 {
        r, k := WriteAll(header);
        PartOfWire(f, k);
        if r.Err? {
          return;
        }
        ghost var j;
        r, j := WriteAll(f.payload);
        assert Marked(header, []) + Marked(f.payload[..j], []) == Wire(f)[..4 + j];
        return r, 4 + j;
      }
      r, k := SendWithDescriptors(header, f.payload, f.fds);
    }

    method SendWithDescriptors(header: seq<u8>, payload: seq<u8>, fds: seq<int>) returns (r: Result<bool>, ghost k: nat)
      requires header != []
      modifies this
      ensures k <= |header| + |payload| && wire == old(wire) + Marked(header + payload, fds)[..k]
      ensures r.Ok? <==> k == |header| + |payload|
    {
      var total := header + payload;
      var sent := Send(total, fds);
      while sent.SendInterrupted?
        invariant sent.SentSome? ==> sent.n <= |total| && wire == old(wire) + Marked(total[..sent.n], fds)
        invariant !sent.SentSome? ==> wire == old(wire)
        decreases |plan|, if sent.SendInterrupted? then 1 else 0
      {
        sent := Send(total, fds);
      }
      if sent.SendFailed? {
        return Err(SystemFailure), 0;
      }
      if sent.n == 0 {
        return Err(OperationAborted), 0;
      }
      assert Marked(total[..sent.n], fds) == Marked(total, fds)[..sent.n];
      if sent.n < |total| {
        r, k := WriteRemaining(header, payload, sent.n);
        assert Marked(total[..sent.n], fds) + Marked(total[sent.n..k], []) == Marked(total, fds)[..k];
        return;
      }
      return Ok(true), |total|;
    }
  }

  lemma NothingMarked(data: seq<u8>, at: nat)
    requires at <= |data|
    ensures Marked(data[at..at], []) == []
  {
  }

  lemma MarkedOn(data: seq<u8>, from: nat, mid: nat, to: nat)
    requires from <= mid <= to <= |data|
    ensures Marked(data[from..mid], []) + Marked(data[mid..to], []) == Marked(data[from..to], [])
  {
  }

  lemma PartOfWire(f: Frame, k: nat)
    requires Sendable(f) && f.fds == [] && k <= 4
    ensures Marked(Put32(|f.payload|)[..k], []) == Wire(f)[..k]
  {
  }

  // ---- the receiving end ------------------------------------------------------------------------

  /** What the system does with one receive: how many bytes, how many descriptors
      beyond the space given still get through, and which of them can be marked
      close-on-exec (all beyond the list can). */
  datatype Arrival = ReadInterrupted | ReadBroken | Arrived(n: nat, extra: nat, marks: seq<bool>)

  datatype Got = GotInterrupted | GotFailed | GotSome(octets: seq<Octet>, fds: seq<int>, truncated: bool, marks: seq<bool>)

  predicate CanMark(marks: seq<bool>, i: nat) {
    i >= |marks| || marks[i]
  }

  predicate AllMark(marks: seq<bool>) {
    forall i :: 0 <= i < |marks| ==> marks[i]
  }

  predicate Smooth(plan: seq<Arrival>) {
    forall i :: 0 <= i < |plan| ==> plan[i].ReadInterrupted? || (plan[i].Arrived? && AllMark(plan[i].marks))
  }

  /** Of the received descriptors, those that fit and can be marked. */
  function Kept(received: seq<int>, marks: seq<bool>, room: nat): (fds: seq<int>)
    ensures |fds| <= room
  {
    if received == [] then []
    else
      var n := |received| - 1;
      var fds := Kept(received[..n], marks, room);
      if |fds| < room && CanMark(marks, n) then fds + [received[n]] else fds
  }

  /** The others, closed at once. */
  function Closed(received: seq<int>, marks: seq<bool>, room: nat): seq<int> {
    if received == [] then []
    else
      var n := |received| - 1;
      var fds := Closed(received[..n], marks, room);
      if |Kept(received[..n], marks, room)| < room && CanMark(marks, n) then fds else fds + [received[n]]
  }

  /** One of them fits but cannot be marked. */
  predicate Unmarkable(received: seq<int>, marks: seq<bool>, room: nat) {
    received != [] &&
    var n := |received| - 1;
    Unmarkable(received[..n], marks, room) || (|Kept(received[..n], marks, room)| < room && !CanMark(marks, n))
  }

  lemma NextReceived(received: seq<int>, marks: seq<bool>, room: nat, i: nat)
    requires i < |received|
    ensures var part, more := received[..i], received[..i + 1];
            var stays, marked := |Kept(part, marks, room)| < room, CanMark(marks, i);
            && Kept(more, marks, room) == (if stays && marked then Kept(part, marks, room) + [received[i]] else Kept(part, marks, room))
            && Closed(more, marks, room) == (if stays && marked then Closed(part, marks, room) else Closed(part, marks, room) + [received[i]])
            && Unmarkable(more, marks, room) == (Unmarkable(part, marks, room) || (stays && !marked))
  {
    assert received[..i + 1][..i] == received[..i];
  }

  /** Every received descriptor is either kept or closed. */
  lemma {:induction false} KeptOrClosed(received: seq<int>, marks: seq<bool>, room: nat)
    ensures multiset(received) == multiset(Kept(received, marks, room)) + multiset(Closed(received, marks, room))
  {
    if received != [] {
      var n := |received| - 1;
      KeptOrClosed(received[..n], marks, room);
      assert received == received[..n] + [received[n]];
    }
  }

  /** All are kept, in order, exactly when all fit and all can be marked. */
  lemma {:induction false} AllKept(received: seq<int>, marks: seq<bool>, room: nat)
    ensures Closed(received, marks, room) == [] ==> Kept(received, marks, room) == received
    ensures |received| <= room && AllMark(marks) ==> Closed(received, marks, room) == []
    ensures Closed(received, marks, room) == [] ==> |received| <= room && !Unmarkable(received, marks, room)
  {
    if received != [] {
      var n := |received| - 1;
      AllKept(received[..n], marks, room);
      assert received == received[..n] + [received[n]];
    }
  }

  /** What stays open when some descriptors are closed. */
  ghost function Without(open: multiset<int>, fds: seq<int>): multiset<int> {
    open - multiset(fds)
  }

  lemma CloseOne(open: multiset<int>, fds: seq<int>, fd: int)
    ensures Without(open, fds) - multiset{fd} == Without(open, fds + [fd])
  {
  }

  lemma CloseNone(open: multiset<int>)
    ensures Without(open, []) == open
  {
  }

  /** Exactly the descriptors added to the list were opened. */
  ghost predicate Opened(before: multiset<int>, after: multiset<int>, fds0: seq<int>, fds: seq<int>) {
    fds0 <= fds && after == before + multiset(fds[|fds0|..])
  }

  lemma OpenedNone(open: multiset<int>, fds: seq<int>)
    ensures Opened(open, open, fds, fds)
  {
  }

  lemma OpenedMore(before: multiset<int>, fds: seq<int>, received: seq<int>, marks: seq<bool>, room: nat)
    ensures Opened(before, Without(before + multiset(received), Closed(received, marks, room)),
                   fds, fds + Kept(received, marks, room))
  {
    hide Kept, Closed;
    KeptOrClosed(received, marks, room);
    assert (fds + Kept(received, marks, room))[|fds|..] == Kept(received, marks, room);
  }

  /** Enough bytes are there and their descriptors are not too many. */
  predicate Fits(s: seq<Octet>, size: nat, held: nat, maxFds: nat) {
    size <= |s| && held + |Rights(s[..size])| <= maxFds
  }

  lemma JustFits(s: seq<Octet>, size: nat, held: nat, maxFds: nat)
    requires size <= |s| && held + |Rights(s[..size])| <= maxFds
    ensures Fits(s, size, held, maxFds)
  {
  }

  /** Once a receive brings more than fits, or finds the end, the whole does not fit. */
  lemma DoesNotFit(s: seq<Octet>, got: seq<Octet>, more: seq<Octet>, rest: seq<Octet>, size: nat,
                   fds0: seq<int>, maxFds: nat)
    requires s == got + (more + rest) && |got| + |more| <= size && |got| < size
    requires more + rest == [] || |fds0 + Rights(got)| + |Rights(more)| > maxFds
    ensures !Fits(s, size, |fds0|, maxFds)
  {
    if size <= |s| {
      hide Rights;
      var after := s[|got| + |more|..size];
      assert s[..size] == got + more + after;
      RightsConcat(got + more, after);
      RightsConcat(got, more);
    }
  }

  lemma MoreRights(fds0: seq<int>, got: seq<Octet>, more: seq<Octet>)
    ensures fds0 + Rights(got) + Rights(more) == fds0 + Rights(got + more)
  {
    hide Rights;
    RightsConcat(got, more);
  }

  lemma OpenedOn(a: multiset<int>, b: multiset<int>, c: multiset<int>, f: seq<int>, g: seq<int>, h: seq<int>)
    requires Opened(a, b, f, g) && Opened(b, c, g, h)
    ensures Opened(a, c, f, h)
  {
    assert h[|f|..] == g[|f|..] + h[|g|..];
  }

  lemma OpenedAll(a: multiset<int>, b: multiset<int>, fds: seq<int>)
    requires Opened(a, b, [], fds)
    ensures b == a + multiset(fds)
  {
  }

  lemma HeaderMissing(s: seq<Octet>, maxBytes: nat, maxFds: nat)
    ensures !Fits(s, 4, 0, maxFds) ==> TakeFrame(s, maxBytes, maxFds).None?
  {
    if |s| >= 4 && |Rights(s[..4])| > maxFds {
      var n: nat := Get32(Bytes(s[..4]), 0);
      if |s| >= 4 + n {
        hide Rights;
        assert s[..4 + n] == s[..4] + s[4..4 + n];
        RightsConcat(s[..4], s[4..4 + n]);
      }
    }
  }

  lemma PayloadFollows(s: seq<Octet>, n: nat, maxBytes: nat, maxFds: nat)
    requires |s| >= 4 && n == Get32(Bytes(s[..4]), 0)
    ensures TakeFrame(s, maxBytes, maxFds).Some? <==>
            0 < n <= maxBytes && Fits(s[4..], n, |Rights(s[..4])|, maxFds)
    ensures TakeFrame(s, maxBytes, maxFds).Some? ==>
              TakeFrame(s, maxBytes, maxFds).value ==
              (Frame(Bytes(s[4..][..n]), Rights(s[..4]) + Rights(s[4..][..n])), s[4..][n..])
  {
    hide Rights;
    if |s| >= 4 + n {
      assert s[..4 + n] == s[..4] + s[4..][..n];
      RightsConcat(s[..4], s[4..][..n]);
      assert s[4..][..n] == s[4..4 + n] && s[4..][n..] == s[4 + n..];
    }
  }

  lemma NoRoomNoRights(s: seq<Octet>, maxBytes: nat)
    ensures TakeFrame(s, maxBytes, 0).Some? ==> TakeFrame(s, maxBytes, 0).value.0.fds == []
  {
  }

  lemma NoneReceived(marks: seq<bool>, room: nat)
    ensures Kept([], marks, room) == [] == Closed([], marks, room) && !Unmarkable([], marks, room)
  {
  }

  class ReceiveSocket {
    /** Bytes still to be read; when none are left the peer has closed. */
    var stream: seq<Octet>
    var plan: seq<Arrival>
    /** Descriptors this process has received and not closed. */
    var open: multiset<int>

    constructor (stream: seq<Octet>, plan: seq<Arrival>)
      ensures this.stream == stream && this.plan == plan && open == multiset{}
    {
      this.stream := stream;
      this.plan := plan;
      open := multiset{};
    }

    /** One system call: any nonempty prefix of what is there, with its descriptors
        up to the space given; the rest of them are lost and that is reported. */
    method Receive(size: nat, space: nat) returns (g: Got)
      requires size > 0
      modifies this
      ensures g.GotSome? ==>
                && |g.octets| <= size && old(stream) == g.octets + stream
                && (g.octets == [] <==> old(stream) == [])
                && g.fds <= Rights(g.octets)
                && (g.truncated <==> |g.fds| < |Rights(g.octets)|)
                && (|Rights(g.octets)| <= space ==> !g.truncated)
                && open == old(open) + multiset(g.fds)
      ensures !g.GotSome? ==> stream == old(stream) && open == old(open)
      ensures |plan| <= |old(plan)| && (g.GotInterrupted? ==> |plan| < |old(plan)|)
      ensures Smooth(old(plan)) ==> Smooth(plan) && !g.GotFailed? && (g.GotSome? ==> AllMark(g.marks))
    {
      hide Rights;
      var arrival := Arrived(size, 0, []);
      if plan != [] {
        arrival := plan[0];
        plan := plan[1..];
      }
      match arrival
      case ReadInterrupted => g := GotInterrupted;
      case ReadBroken => g := GotFailed;
      case Arrived(n, extra, marks) =>
        var k := if n == 0 then 1 else n;
        k := if k > size then size else k;
        k := if k > |stream| then |stream| else k;
        var octets := stream[..k];
        var rights := Rights(octets);
        var fds := if space + extra < |rights| then rights[..space + extra] else rights;
        stream := stream[k..];
        open := open + multiset(fds);
        g := GotSome(octets, fds, |fds| < |rights|, marks);
    }

    method CloseAll(fds: seq<int>, ghost others: multiset<int>)
      requires open == others + multiset(fds)
      modifies `open
      ensures open == others
    {
      var i := 0;
      assert fds[0..] == fds;
      while i < |fds|
        invariant i <= |fds| && open == others + multiset(fds[i..])
      {
        assert fds[i..] == [fds[i]] + fds[i + 1..];
        open := open - multiset{fds[i]};
        i := i + 1;
      }
    }

    /** Keeps what fits and can be marked, closes the others; a descriptor that fits
        but cannot be marked is the worse failure. */
    method AppendReceived(received: seq<int>, marks: seq<bool>, maxFds: nat, fds: seq<int>)
      returns (r: Result<bool>, kept: seq<int>)
      requires |fds| <= maxFds
      modifies `open
      ensures kept == fds + Kept(received, marks, maxFds - |fds|) && |kept| <= maxFds
      ensures open == Without(old(open), Closed(received, marks, maxFds - |fds|))
      ensures r.Ok? <==> Closed(received, marks, maxFds - |fds|) == []
      ensures r.Ok? ==> kept == fds + received
      ensures AllMark(marks) ==> (r.Ok? <==> |fds| + |received| <= maxFds)
      ensures r == Err(SystemFailure) <==> Unmarkable(received, marks, maxFds - |fds|)
    {
      hide Without, Kept, Closed, Unmarkable;
      ghost var room := maxFds - |fds|;
      CloseNone(open);
      NoneReceived(marks, room);
      kept := fds;
      var tooMany, notMarked := false, false;
      var i := 0;
      while i < |received|
        invariant i <= |received| && kept == fds + Kept(received[..i], marks, room)
        invariant open == Without(old(open), Closed(received[..i], marks, room))
        invariant tooMany || notMarked <==> Closed(received[..i], marks, room) != []
        invariant notMarked == Unmarkable(received[..i], marks, room)
      {
        NextReceived(received, marks, room, i);
        CloseOne(old(open), Closed(received[..i], marks, room), received[i]);
        if |kept| >= maxFds {
          open := open - multiset{received[i]};
          tooMany := true;
        } else if !CanMark(marks, i) {
          open := open - multiset{received[i]};
          notMarked := true;
        } else {
          kept := kept + [received[i]];
        }
        i := i + 1;
      }
      assert received[..i] == received;
      AllKept(received, marks, room);
      if notMarked {
        return Err(SystemFailure), kept;
      }
      if tooMany {
        return Err(InvalidValue), kept;
      }
      return Ok(true), kept;
    }

    /** One receive and what is made of it: nothing yet, some bytes, or an error. */
    method ReceivePart(want: nat, maxFds: nat, fds: seq<int>)
      returns (r: Result<seq<u8>>, kept: seq<int>, ghost octets: seq<Octet>)
      requires want > 0 && |fds| <= maxFds
      modifies this
      ensures old(stream) == octets + stream && |octets| <= want
      ensures Opened(old(open), open, fds, kept)
      ensures r.Ok? ==> r.value == Bytes(octets) && kept == fds + Rights(octets) && |kept| <= maxFds
      ensures r.Ok? && octets == [] ==> |plan| < |old(plan)|
      ensures |plan| <= |old(plan)| && (Smooth(old(plan)) ==> Smooth(plan))
      ensures Smooth(old(plan)) && r.Err? ==> old(stream) == [] || |fds| + |Rights(octets)| > maxFds
    {
      hide Rights, Opened, Smooth, Without, Kept, Closed;
      var space := if |fds| < maxFds then maxFds - |fds| else 1;
      ghost var before := open;
      OpenedNone(before, fds);
      RightsNone();
      octets := [];
      var g := Receive(want, space);
      if g.GotInterrupted? {
        return Ok([]), fds, [];
      }
      if g.GotFailed? {
        return Err(SystemFailure), fds, [];
      }
      octets := g.octets;
      if g.octets == [] {
        return Err(OperationAborted), fds, octets;
      }
      var appended;
      appended, kept := AppendReceived(g.fds, g.marks, maxFds, fds);
      OpenedMore(before, fds, g.fds, g.marks, maxFds - |fds|);
      if appended.Err? {
        return Err(appended.error), kept, octets;
      }
      if g.truncated {
        return Err(InvalidValue), kept, octets;
      }
      return Ok(Bytes(g.octets)), kept, octets;
    }

    /** Fills size bytes from as many receives as it takes. */
    method ReadAll(size: nat, maxFds: nat, fds0: seq<int>) returns (r: Result<seq<u8>>, fds: seq<int>)
      requires |fds0| <= maxFds
      modifies this
      ensures Opened(old(open), open, fds0, fds)
      ensures r.Ok? ==>
                && size <= |old(stream)| && stream == old(stream)[size..]
                && r.value == Bytes(old(stream)[..size])
                && fds == fds0 + Rights(old(stream)[..size]) && |fds| <= maxFds
      ensures Smooth(old(plan)) ==>
                Smooth(plan) && (r.Ok? <==> Fits(old(stream), size, |fds0|, maxFds))
    {
      hide Rights, Opened, Smooth, Fits;
      ghost var got: seq<Octet> := [];
      var data: seq<u8> := [];
      fds := fds0;
      OpenedNone(open, fds0);
      RightsNone();
      while |data| < size
        invariant got + stream == old(stream) && |got| == |data| <= size && data == Bytes(got)
        invariant fds == fds0 + Rights(got) && |fds| <= maxFds
        invariant Opened(old(open), open, fds0, fds)
        invariant Smooth(old(plan)) ==> Smooth(plan)
        decreases size - |data|, |plan|
      {
        ghost var before, wasOpen, wasSmooth := fds, open, Smooth(plan);
        var part;
        ghost var octets;
        part, fds, octets := ReceivePart(size - |data|, maxFds, fds);
        OpenedOn(old(open), wasOpen, open, fds0, before, fds);
        assert old(stream) == got + (octets + stream);
        if part.Err? {
          if wasSmooth {
            DoesNotFit(old(stream), got, octets, stream, size, fds0, maxFds);
          }
          return Err(part.error), fds;
        }
        MoreRights(fds0, got, octets);
        assert got + (octets + stream) == got + octets + stream;
        got := got + octets;
        data := data + part.value;
      }
      assert old(stream)[..size] == got;
      JustFits(old(stream), size, |fds0|, maxFds);
      return Ok(data), fds;
    }

    /** On success exactly the next frame has been taken, and its descriptors are
        the only new open ones; on failure every received descriptor is closed. */
    method ReadFrame(maxBytes: u32, maxFds: nat) returns (r: Result<Frame>)
      modifies this
      ensures maxBytes == 0 || maxFds > MAX_DESCRIPTORS ==> r == Err(InvalidValue) && stream == old(stream)
      ensures r.Ok? ==>
                && TakeFrame(old(stream), maxBytes, maxFds) == Some((r.value, stream))
                && open == old(open) + multiset(r.value.fds)
      ensures r.Err? ==> open == old(open)
      ensures Smooth(old(plan)) && maxBytes > 0 && maxFds <= MAX_DESCRIPTORS ==>
                Smooth(plan) && (r.Ok? <==> TakeFrame(old(stream), maxBytes, maxFds).Some?)
    {
      hide Rights, Smooth, Fits, Opened, TakeFrame, Bytes;
      if maxBytes == 0 || maxFds > MAX_DESCRIPTORS {
        return Err(InvalidValue);
      }
      ghost var s, wasOpen := stream, open;
      RightsNone();
      var header, fds := ReadAll(4, maxFds, []);
      if header.Err? {
        OpenedAll(wasOpen, open, fds);
        HeaderMissing(s, maxBytes, maxFds);
        CloseAll(fds, wasOpen);
        return Err(header.error);
      }
      ghost var fds1, open1 := fds, open;
      assert fds == Rights(s[..4]);
      BytesLength(s[..4]);
      var size := Get32(header.value, 0);
      PayloadFollows(s, size, maxBytes, maxFds);
      if size == 0 || size > maxBytes {
        OpenedAll(wasOpen, open, fds);
        CloseAll(fds, wasOpen);
        return Err(InvalidValue);
      }
      var payload;
      payload, fds := ReadAll(size, maxFds, fds);
      OpenedOn(wasOpen, open1, open, [], fds1, fds);
      OpenedAll(wasOpen, open, fds);
      if payload.Err? {
        CloseAll(fds, wasOpen);
        return Err(payload.error);
      }
      r := Ok(Frame(payload.value, fds));
      JustFits(s[4..], size, |fds1|, maxFds);
    }

    /** The same without descriptors. */
    method ReadPayload(maxBytes: u32) returns (r: Result<seq<u8>>)
      modifies this
      ensures r.Ok? ==> TakeFrame(old(stream), maxBytes, 0) == Some((Frame(r.value, []), stream))
      ensures open == old(open)
      ensures Smooth(old(plan)) && maxBytes > 0 ==> (r.Ok? <==> TakeFrame(old(stream), maxBytes, 0).Some?)
    {
      hide Rights, Smooth;
      var frame := ReadFrame(maxBytes, 0);
      if frame.Err? {
        return Err(frame.error);
      }
      NoRoomNoRights(old(stream), maxBytes);
      return Ok(frame.value.payload);
    }
  }
}
