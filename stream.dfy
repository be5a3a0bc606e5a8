/** The IStream adapter around a C++ stream (`adapted_stream` and its
    `stream_traits`). The C++ stream is modelled as a byte sequence with a
    get head and a put head, and a stream buffer whose faults are fixed
    up front: reading may start to throw at some position, and writing
    may start to fail (returning EOF or throwing) at some position.
    Seeks to a negative position fail; every other seek succeeds. */
module Stream {
  import opened Common

  const S_OK := 0
  const S_FALSE := 1
  const E_FAIL := 0x8000_4005
  const STG_E_INVALIDFUNCTION := 0x8003_0001
  const STG_E_ACCESSDENIED := 0x8003_0005
  const STG_E_INVALIDPOINTER := 0x8003_0009
  const STG_E_MEDIUMFULL := 0x8003_0070

  predicate Failed(hr: int)
  {
    hr >= 0x8000_0000
  }

  const STREAM_SEEK_SET := 0
  const STREAM_SEEK_CUR := 1
  const STREAM_SEEK_END := 2

  const COPY_CHUNK_SIZE := 512
  const ULONG_MAX := 0xFFFF_FFFF
  const STREAMOFF_MAX := 0x7FFF_FFFF_FFFF_FFFF
  const STREAMOFF_MIN := -0x8000_0000_0000_0000

  /** Which of `std::istream` and `std::ostream` the adapted stream is:
      this picks the `stream_traits` specialisation. */
  datatype Access = InOnly | OutOnly | InOut

  datatype LastOp = LastRead | LastWrite

  datatype Way = Beg | Cur | End

  /** How the stream buffer behaves: `readThrowsAt` is the position from
      which `sbumpc` throws, `writeLimit` the position from which `sputc`
      fails, and `writeThrows` whether that failure is an exception
      rather than EOF. */
  datatype Device = Device(access: Access, readThrowsAt: Option<nat>, writeLimit: Option<nat>, writeThrows: bool)

  /** The stream's contents, its two heads and the iostream traits'
      `m_last_op`. */
  datatype State = State(data: seq<bv8>, getPos: nat, putPos: nat, lastOp: LastOp)

  /** An exception on its way to `COMET_CATCH_CLASS_INTERFACE_BOUNDARY`. */
  datatype Exc = ComError(msg: string, hr: int) | StdError(msg: string)

  /** The HRESULT the interface boundary turns an exception into. */
  function HrOf(e: Exc): (hr: int)
    ensures e.ComError? ==> hr == e.hr
    ensures e.StdError? ==> hr == E_FAIL
  {
    match e
    case ComError(_, h) => h
    case StdError(_) => E_FAIL
  }

  function Zeros(n: nat): (r: seq<bv8>)
    ensures |r| == n && forall i :: 0 <= i < n ==> r[i] == 0
  {
    if n == 0 then [] else Zeros(n - 1) + [0]
  }

  /** One `sputc` into the controlled sequence at position `p`; writing
      past the end fills the gap with NULs, as a file does. */
  function PutByte(data: seq<bv8>, p: nat, b: bv8): (r: seq<bv8>)
    ensures |r| == if p < |data| then |data| else p + 1
    ensures forall i :: 0 <= i < |r| ==> r[i] == if i == p then b else if i < |data| then data[i] else 0
  {
    if p < |data| then data[p := b] else data + Zeros(p - |data|) + [b]
  }

  /** The bytes `bs` put one after another from position `p`. */
  function WriteAt(data: seq<bv8>, p: nat, bs: seq<bv8>): (r: seq<bv8>)
    decreases |bs|
  {
    if bs == [] then data
    else PutByte(WriteAt(data, p, bs[..|bs| - 1]), p + |bs| - 1, bs[|bs| - 1])
  }

  /** What a write of `bs` at `p` leaves: `bs` at positions p.., the old
      contents elsewhere, and NULs in any gap past the old end. */
  lemma {:induction false} WriteAtContents(data: seq<bv8>, p: nat, bs: seq<bv8>)
    ensures var r := WriteAt(data, p, bs);
      |r| == (if bs == [] || p + |bs| <= |data| then |data| else p + |bs|) &&
      forall i :: 0 <= i < |r| ==>
        r[i] == if p <= i < p + |bs| then bs[i - p] else if i < |data| then data[i] else 0
    decreases |bs|
  {
    if bs != [] {
      var init := bs[..|bs| - 1];
      WriteAtContents(data, p, init);
      var r0 := WriteAt(data, p, init);
      var r := WriteAt(data, p, bs);
      assert r == PutByte(r0, p + |bs| - 1, bs[|bs| - 1]);
      forall i | 0 <= i < |r|
        ensures r[i] == if p <= i < p + |bs| then bs[i - p] else if i < |data| then data[i] else 0
      {
        if i != p + |bs| - 1 && i < |r0| {
          assert r[i] == r0[i];
          if p <= i < p + |init| {
            assert init[i - p] == bs[i - p];
          }
        }
      }
    }
  }

  /** A write at or past the end keeps the old contents as a prefix. */
  lemma WriteAtExtends(data: seq<bv8>, p: nat, bs: seq<bv8>)
    requires p >= |data|
    ensures data <= WriteAt(data, p, bs)
    ensures bs != [] ==> WriteAt(data, p, bs) == data + Zeros(p - |data|) + bs
  {
    WriteAtContents(data, p, bs);
    var r := WriteAt(data, p, bs);
    assert forall i :: 0 <= i < |data| ==> r[i] == data[i];
    if bs != [] {
      var e := data + Zeros(p - |data|) + bs;
      assert |r| == |e|;
      forall i | 0 <= i < |r|
        ensures r[i] == e[i]
      {
        if i < |data| {
        } else if i < p {
          assert e[i] == Zeros(p - |data|)[i - |data|];
        } else {
          assert e[i] == bs[i - p];
        }
      }
    }
  }

  predicate ReadThrowsAt(dev: Device, p: nat)
  {
    dev.readThrowsAt.Some? && p >= dev.readThrowsAt.value
  }

  predicate WriteFailsAt(dev: Device, p: nat)
  {
    dev.writeLimit.Some? && p >= dev.writeLimit.value
  }

  datatype ReadOutcome = ReadOutcome(st: State, count: nat, bytes: seq<bv8>, exc: Option<Exc>)
  datatype WriteOutcome = WriteOutcome(st: State, count: nat, exc: Option<Exc>)
  datatype SeekOutcome = SeekOutcome(st: State, newPos: nat, exc: Option<Exc>)

  /** `do_istream_read`: bytes are taken one by one from the get head
      until `n` are read, the buffer reports EOF, or it throws; the count
      is kept exact in every case. */
  function IstreamRead(dev: Device, st: State, n: nat): (r: ReadOutcome)
    ensures r.count <= n && |r.bytes| == r.count
    ensures r.count > 0 ==> st.getPos + r.count <= |st.data| && !ReadThrowsAt(dev, st.getPos + r.count - 1)
    ensures forall i :: 0 <= i < r.count ==> r.bytes[i] == st.data[st.getPos + i]
    ensures r.count < n ==> st.getPos + r.count >= |st.data| || ReadThrowsAt(dev, st.getPos + r.count)
    ensures r.exc.Some? <==> r.count < n && ReadThrowsAt(dev, st.getPos + r.count)
    ensures r.exc.Some? ==> r.exc.value.StdError?
    ensures r.st == st.(getPos := st.getPos + r.count)
  {
    var lim := if dev.readThrowsAt.Some? then Min(|st.data|, dev.readThrowsAt.value) else |st.data|;
    var c := if lim > st.getPos then Min(n, lim - st.getPos) else 0;
    var p := st.getPos + c;
    var exc := if c < n && ReadThrowsAt(dev, p) then Some(StdError("stream buffer failure")) else None;
    ReadOutcome(st.(getPos := p), c, if c == 0 then [] else st.data[st.getPos..p], exc)
  }

  /** `do_ostream_write`: bytes are put one by one at the put head until
      all are written or the buffer fails; the count is kept exact. */
  function OstreamWrite(dev: Device, st: State, buf: seq<bv8>): (r: WriteOutcome)
    ensures r.count <= |buf|
    ensures r.count > 0 ==> !WriteFailsAt(dev, st.putPos + r.count - 1)
    ensures r.count < |buf| ==> WriteFailsAt(dev, st.putPos + r.count)
    ensures r.exc.Some? <==> r.count < |buf| && dev.writeThrows
    ensures r.exc.Some? ==> r.exc.value.StdError?
    ensures r.st == st.(data := WriteAt(st.data, st.putPos, buf[..r.count]), putPos := st.putPos + r.count)
  {
    var room := if dev.writeLimit.None? then |buf|
      else if dev.writeLimit.value > st.putPos then dev.writeLimit.value - st.putPos else 0;
    var c := Min(|buf|, room);
    var exc := if c < |buf| && dev.writeThrows then Some(StdError("stream buffer failure")) else None;
    WriteOutcome(st.(data := WriteAt(st.data, st.putPos, buf[..c]), putPos := st.putPos + c), c, exc)
  }

  /** `stream_traits::do_read`. An ostream cannot read; an iostream whose
      last operation was a write first moves its get head to the put
      head (errors of that move are ignored, and it cannot fail here). */
  function ReadOp(dev: Device, st: State, n: nat): (r: ReadOutcome)
  {
    match dev.access
    case OutOnly => ReadOutcome(st, 0, [], Some(ComError("std::ostream does not support reading", STG_E_ACCESSDENIED)))
    case InOnly => IstreamRead(dev, st, n)
    case InOut =>
      var s := if st.lastOp == LastWrite then st.(getPos := st.putPos, lastOp := LastRead) else st;
      IstreamRead(dev, s, n)
  }

  /** `stream_traits::do_write`, symmetric to `ReadOp`. */
  function WriteOp(dev: Device, st: State, buf: seq<bv8>): (r: WriteOutcome)
  {
    match dev.access
    case InOnly => WriteOutcome(st, 0, Some(ComError("std::istream does not support writing", STG_E_ACCESSDENIED)))
    case OutOnly => OstreamWrite(dev, st, buf)
    case InOut =>
      var s := if st.lastOp == LastRead then st.(putPos := st.getPos, lastOp := LastWrite) else st;
      OstreamWrite(dev, s, buf)
  }

  /** The position a seek aims at, before it is checked. */
  function Target(cur: nat, end: nat, offset: int, way: Way): (t: int)
  {
    match way
    case Beg => offset
    case Cur => cur + offset
    case End => end + offset
  }

  /** `stream_traits::do_seek`. The new position is always reported (the
      position finalisers): the head's position after the seek, or its
      unchanged position when the seek fails. An iostream moves the head
      of its last operation and then the other head to match. */
  function SeekOp(dev: Device, st: State, offset: int, way: Way): (r: SeekOutcome)
  {
    var readSide := dev.access == InOnly || (dev.access == InOut && st.lastOp == LastRead);
    var cur := if readSide then st.getPos else st.putPos;
    var t := Target(cur, |st.data|, offset, way);
    if t < 0 then
      SeekOutcome(st, cur, Some(StdError(if readSide then "Unable to change read position" else "Unable to change write position")))
    else
      var s := match dev.access
        case InOnly => st.(getPos := t)
        case OutOnly => st.(putPos := t)
        case InOut => st.(getPos := t, putPos := t);
      SeekOutcome(s, t, None)
  }

  /** `stream_traits::do_tell`: the head of the last operation. */
  function TellOp(dev: Device, st: State): (p: nat)
  {
    if dev.access == InOnly || (dev.access == InOut && st.lastOp == LastRead) then st.getPos else st.putPos
  }

  /** A seek never changes the contents; when its target is not negative
      it succeeds and both reports and leaves the head at the target. */
  lemma SeekRules(dev: Device, st: State, offset: int, way: Way)
    ensures var r := SeekOp(dev, st, offset, way);
      var t := Target(TellOp(dev, st), |st.data|, offset, way);
      r.st.data == st.data && r.st.lastOp == st.lastOp &&
      (t >= 0 ==> r.exc.None? && r.newPos == t && TellOp(dev, r.st) == t) &&
      (t < 0 ==> r.exc.Some? && HrOf(r.exc.value) == E_FAIL && r.st == st && r.newPos == TellOp(dev, st))
  {
  }

  /** For an iostream, a read after a write starts where the write
      ended, and a write after a read starts where the read ended: the
      adapter keeps a single head. */
  lemma SingleHead(dev: Device, st: State, buf: seq<bv8>, n: nat)
    requires dev.access == InOut
    ensures var w := WriteOp(dev, st, buf); var r := ReadOp(dev, w.st, n);
      w.st.lastOp == LastWrite && r.st.lastOp == LastRead &&
      w.st.putPos == TellOp(dev, st) + w.count &&
      r.st.getPos == w.st.putPos + r.count &&
      forall i :: 0 <= i < r.count ==> r.bytes[i] == w.st.data[w.st.putPos + i]
    ensures var r := ReadOp(dev, st, n); var w := WriteOp(dev, r.st, buf);
      r.st.lastOp == LastRead && w.st.lastOp == LastWrite &&
      r.st.getPos == TellOp(dev, st) + r.count &&
      w.st.data == WriteAt(r.st.data, r.st.getPos, buf[..w.count])
  {
  }

  /** On an iostream over a sound stream buffer, bytes written can be
      read back after seeking to where the write began. */
  lemma WriteSeekReadRoundTrip(dev: Device, st: State, buf: seq<bv8>)
    requires dev.access == InOut && dev.readThrowsAt.None? && dev.writeLimit.None?
    ensures var w := WriteOp(dev, st, buf);
      var s := SeekOp(dev, w.st, TellOp(dev, st), Beg);
      var r := ReadOp(dev, s.st, |buf|);
      w.count == |buf| && w.exc.None? && r.exc.None? && r.bytes == buf
  {
    var p := TellOp(dev, st);
    var w := WriteOp(dev, st, buf);
    SoundWrite(dev, st, buf);
    var s := SeekOp(dev, w.st, p, Beg);
    assert s.st.getPos == p && s.st.data == w.st.data;
    SoundReadBack(dev, s.st, p, buf);
  }

  /** On an iostream over a stream buffer without a write limit, a write
      puts all its bytes at the current position. */
  lemma SoundWrite(dev: Device, st: State, buf: seq<bv8>)
    requires dev.access == InOut && dev.writeLimit.None?
    ensures var p := TellOp(dev, st);
      var w := WriteOp(dev, st, buf);
      w.count == |buf| && w.exc.None? && (buf != [] ==> |w.st.data| >= p + |buf|) &&
      forall i :: 0 <= i < |buf| ==> w.st.data[p + i] == buf[i]
  {
    assert buf[..|buf|] == buf;
    WriteAtContents(st.data, TellOp(dev, st), buf);
  }

  /** On an iostream over a buffer that never throws, a read from a
      position holding `buf` gives `buf` back. */
  lemma SoundReadBack(dev: Device, s: State, p: nat, buf: seq<bv8>)
    requires dev.access == InOut && dev.readThrowsAt.None?
    requires (if s.lastOp == LastWrite then s.putPos else s.getPos) == p
    requires buf != [] ==> |s.data| >= p + |buf|
    requires forall i :: 0 <= i < |buf| ==> s.data[p + i] == buf[i]
    ensures var r := ReadOp(dev, s, |buf|);
      r.exc.None? && r.bytes == buf
  {
    var s' := if s.lastOp == LastWrite then s.(getPos := s.putPos, lastOp := LastRead) else s;
    assert s'.getPos == p;
    var r := ReadOp(dev, s, |buf|);
    assert r == IstreamRead(dev, s', |buf|);
    assert r.count == |buf|;
    assert forall i :: 0 <= i < |buf| ==> r.bytes[i] == s.data[p + i];
  }

  datatype ReadReply = ReadReply(st: State, hr: int, count: nat, bytes: seq<bv8>)
  datatype WriteReply = WriteReply(st: State, hr: int, count: nat)
  datatype SeekReply = SeekReply(st: State, hr: int, newPos: nat)
  datatype SizeReply = SizeReply(st: State, hr: int)

  /** `adapted_stream::Read`; `bufferGiven` is false for a null buffer.
      The count comes back even when the read throws. */
  function ReadSpec(dev: Device, st: State, bufferGiven: bool, n: nat): (r: ReadReply)
  {
    if !bufferGiven then ReadReply(st, STG_E_INVALIDPOINTER, 0, [])
    else
      var o := ReadOp(dev, st, n);
      var hr := if o.exc.Some? then HrOf(o.exc.value) else if o.count < n then S_FALSE else S_OK;
      ReadReply(o.st, hr, o.count, o.bytes)
  }

  /** `adapted_stream::Write`: a short write is an error. */
  function WriteSpec(dev: Device, st: State, bufferGiven: bool, buf: seq<bv8>): (r: WriteReply)
  {
    if !bufferGiven then WriteReply(st, STG_E_INVALIDPOINTER, 0)
    else
      var o := WriteOp(dev, st, buf);
      var hr := if o.exc.Some? then HrOf(o.exc.value) else if o.count < |buf| then STG_E_MEDIUMFULL else S_OK;
      WriteReply(o.st, hr, o.count)
  }

  /** The `seekdir` of a valid `STREAM_SEEK_*` origin. */
  function WayOf(origin: nat): (w: Way)
    requires origin <= 2
  {
    if origin == STREAM_SEEK_CUR then Cur else if origin == STREAM_SEEK_SET then Beg else End
  }

  /** `adapted_stream::Seek`. The reported position starts out as 0 and
      is only set by the seek itself, so a bad origin or an offset
      outside `streamoff` reports 0. */
  function SeekSpec(dev: Device, st: State, offset: int, origin: nat): (r: SeekReply)
  {
    if origin > 2 || offset > STREAMOFF_MAX || offset < STREAMOFF_MIN then SeekReply(st, E_FAIL, 0)
    else
      var o := SeekOp(dev, st, offset, WayOf(origin));
      SeekReply(o.st, if o.exc.Some? then HrOf(o.exc.value) else S_OK, o.newPos)
  }

  /** `Read` zeroes the count and rejects a null buffer; an ostream
      cannot be read; otherwise S_OK means exactly the requested count
      and S_FALSE a short read, unless the buffer threw (E_FAIL, with the
      partial count). The count never exceeds the request and the
      contents never change. */
  lemma ReadRules(dev: Device, st: State, bufferGiven: bool, n: nat)
    ensures var r := ReadSpec(dev, st, bufferGiven, n);
      r.count <= n && |r.bytes| == r.count && r.st.data == st.data &&
      (!bufferGiven ==> r.hr == STG_E_INVALIDPOINTER && r.count == 0 && r.st == st) &&
      (bufferGiven && dev.access == OutOnly ==> r.hr == STG_E_ACCESSDENIED && r.count == 0 && r.st == st) &&
      (bufferGiven && dev.access != OutOnly ==>
        (r.hr == S_OK <==> r.count == n) &&
        (r.hr == S_FALSE <==> r.count < n && !ReadThrowsAt(dev, r.st.getPos)) &&
        (r.hr == E_FAIL <==> r.count < n && ReadThrowsAt(dev, r.st.getPos)))
  {
  }

  /** `Write` rejects a null buffer; an istream cannot be written; a
      short write is STG_E_MEDIUMFULL when the buffer returned EOF and
      E_FAIL when it threw, with the partial count either way. */
  lemma WriteRules(dev: Device, st: State, bufferGiven: bool, buf: seq<bv8>)
    ensures var r := WriteSpec(dev, st, bufferGiven, buf);
      r.count <= |buf| &&
      (!bufferGiven ==> r.hr == STG_E_INVALIDPOINTER && r.count == 0 && r.st == st) &&
      (bufferGiven && dev.access == InOnly ==> r.hr == STG_E_ACCESSDENIED && r.count == 0 && r.st == st) &&
      (bufferGiven && dev.access != InOnly ==>
        (r.hr == S_OK <==> r.count == |buf|) &&
        (r.hr == STG_E_MEDIUMFULL <==> r.count < |buf| && !dev.writeThrows) &&
        (r.hr == E_FAIL <==> r.count < |buf| && dev.writeThrows) &&
        r.st.data == WriteAt(st.data, TellOp(dev, st), buf[..r.count]) &&
        r.st.putPos == TellOp(dev, st) + r.count)
  {
  }

  /** `Seek` maps SET, CUR and END to beg, cur and end, failing with
      E_FAIL (and reporting 0) on any other origin. A seek to a negative
      position fails too but still reports the current position, which
      it leaves unchanged. */
  lemma SeekReplyRules(dev: Device, st: State, offset: int, origin: nat)
    requires STREAMOFF_MIN <= offset <= STREAMOFF_MAX
    ensures var r := SeekSpec(dev, st, offset, origin);
      var cur := TellOp(dev, st);
      r.st.data == st.data &&
      (origin > 2 ==> r.hr == E_FAIL && r.newPos == 0 && r.st == st) &&
      (origin == STREAM_SEEK_SET && offset >= 0 ==> r.hr == S_OK && r.newPos == offset && TellOp(dev, r.st) == offset) &&
      (origin == STREAM_SEEK_CUR && cur + offset >= 0 ==> r.hr == S_OK && r.newPos == cur + offset && TellOp(dev, r.st) == cur + offset) &&
      (origin == STREAM_SEEK_END && |st.data| + offset >= 0 ==>
        r.hr == S_OK && r.newPos == |st.data| + offset && TellOp(dev, r.st) == |st.data| + offset) &&
      (origin <= 2 && Target(cur, |st.data|, offset, WayOf(origin)) < 0 ==> r.hr == E_FAIL && r.newPos == cur && r.st == st)
  {
    if origin <= 2 {
      SeekRules(dev, st, offset, WayOf(origin));
    }
  }

  datatype Step = Step(st: State, exc: Option<Exc>)

  /** The body of `SetSize` between the two position resets. `strict`
      selects the source's test `new_offset > existing_end`; the
      corrected test is `new_offset >= existing_end`. The temporary
      `position_resetter` that `stream_size` builds is destroyed at once,
      so it seeks back to the current position before the seek to the
      end, not after it; its errors are swallowed. */
  function SetSizeBody(dev: Device, st: State, newSize: nat, strict: bool): (r: Step)
  {
    if newSize == 0 then Step(st, None)
    else if newSize - 1 > STREAMOFF_MAX then Step(st, Some(ComError("Seek offset too large", STG_E_INVALIDFUNCTION)))
    else
      var off := newSize - 1;
      var tmp := SeekOp(dev, st, TellOp(dev, st), Beg);
      var e := SeekOp(dev, tmp.st, 0, End);
      if e.exc.Some? then Step(e.st, e.exc)
      else if (if strict then off > e.newPos else off >= e.newPos) then
        var k := SeekOp(dev, e.st, off, Beg);
        if k.exc.Some? then Step(k.st, k.exc)
        else
          var w := WriteOp(dev, k.st, [0]);
          Step(w.st, w.exc)
      else Step(e.st, None)
  }

  /** `SetSize` with the position taken before the body and restored
      after it, whatever the body did (`position_resetter`). */
  function SetSizeBy(dev: Device, st: State, newSize: nat, strict: bool): (r: SizeReply)
  {
    var pos0 := TellOp(dev, st);
    var b := SetSizeBody(dev, st, newSize, strict);
    var reset := SeekOp(dev, b.st, pos0, Beg);
    SizeReply(reset.st, if b.exc.Some? then HrOf(b.exc.value) else S_OK)
  }

  /** `SetSize` as the source writes it. */
  function SetSizeAsWritten(dev: Device, st: State, newSize: nat): (r: SizeReply)
  {
    SetSizeBy(dev, st, newSize, true)
  }

  /** `SetSize` with the growth test corrected. */
  function SetSizeSpec(dev: Device, st: State, newSize: nat): (r: SizeReply)
  {
    SetSizeBy(dev, st, newSize, false)
  }

  /** Seeking to the end reports the size and changes no contents. */
  lemma SeekToEnd(dev: Device, st: State)
    ensures var e := SeekOp(dev, st, 0, End);
      e.exc.None? && e.newPos == |e.st.data| && e.st.data == st.data && e.st.lastOp == st.lastOp
  {
  }

  /** What the body does to the contents, for either test: nothing, or
      a NUL written at `newSize - 1`, which lies at or past the end. */
  lemma SetSizeBodyData(dev: Device, st: State, newSize: nat, strict: bool)
    ensures var b := SetSizeBody(dev, st, newSize, strict);
      b.st.data == st.data ||
      (newSize >= 1 && newSize - 1 >= |st.data| && b.st.data == WriteAt(st.data, newSize - 1, [0]))
  {
    if newSize >= 1 && newSize - 1 <= STREAMOFF_MAX {
      var off := newSize - 1;
      var tmp := SeekOp(dev, st, TellOp(dev, st), Beg);
      SeekRules(dev, st, TellOp(dev, st), Beg);
      var e := SeekOp(dev, tmp.st, 0, End);
      SeekToEnd(dev, tmp.st);
      if (if strict then off > e.newPos else off >= e.newPos) {
        var k := SeekOp(dev, e.st, off, Beg);
        SeekRules(dev, e.st, off, Beg);
        assert TellOp(dev, k.st) == off;
        var w := WriteOp(dev, k.st, [0]);
        assert w.count == 0 || w.count == 1;
        assert [0][..0] == [] && [0][..1] == [0 as bv8];
      }
    }
  }

  /** Corrected `SetSize` never shrinks the stream (the old contents
      stay a prefix) and always restores the position. */
  lemma SetSizeKeeps(dev: Device, st: State, newSize: nat)
    ensures var r := SetSizeSpec(dev, st, newSize);
      st.data <= r.st.data && TellOp(dev, r.st) == TellOp(dev, st)
  {
    var b := SetSizeBody(dev, st, newSize, false);
    SetSizeBodyData(dev, st, newSize, false);
    if b.st.data != st.data {
      WriteAtExtends(st.data, newSize - 1, [0]);
    }
    SeekRules(dev, b.st, TellOp(dev, st), Beg);
  }

  /** A stream already at least the requested size is left alone, and a
      size beyond `streamoff` is refused with STG_E_INVALIDFUNCTION. */
  lemma SetSizeNoGrowth(dev: Device, st: State, newSize: nat)
    ensures var r := SetSizeSpec(dev, st, newSize);
      (newSize <= |st.data| && newSize - 1 <= STREAMOFF_MAX ==> r.hr == S_OK && r.st.data == st.data) &&
      (newSize - 1 > STREAMOFF_MAX ==> r.hr == STG_E_INVALIDFUNCTION && r.st.data == st.data)
  {
    var pos0 := TellOp(dev, st);
    var b := SetSizeBody(dev, st, newSize, false);
    SeekRules(dev, b.st, pos0, Beg);
    if 1 <= newSize <= |st.data| && newSize - 1 <= STREAMOFF_MAX {
      var tmp := SeekOp(dev, st, pos0, Beg);
      SeekRules(dev, st, pos0, Beg);
      SeekToEnd(dev, tmp.st);
    }
  }

  /** A smaller stream is grown: a writable one to exactly the requested
      size, padded with NULs; an istream refuses with
      STG_E_ACCESSDENIED and keeps its contents. */
  lemma {:induction false} SetSizeGrowth(dev: Device, st: State, newSize: nat)
    requires |st.data| < newSize <= STREAMOFF_MAX + 1
    ensures var r := SetSizeSpec(dev, st, newSize);
      (dev.access == InOnly ==> r.hr == STG_E_ACCESSDENIED && r.st.data == st.data) &&
      (dev.access != InOnly && !WriteFailsAt(dev, newSize - 1) ==>
        r.hr == S_OK && r.st.data == st.data + Zeros(newSize - |st.data|))
  {
    var pos0 := TellOp(dev, st);
    var off := newSize - 1;
    var tmp := SeekOp(dev, st, pos0, Beg);
    SeekRules(dev, st, pos0, Beg);
    var e := SeekOp(dev, tmp.st, 0, End);
    SeekToEnd(dev, tmp.st);
    var k := SeekOp(dev, e.st, off, Beg);
    SeekRules(dev, e.st, off, Beg);
    assert TellOp(dev, k.st) == off;
    var w := WriteOp(dev, k.st, [0]);
    var b := SetSizeBody(dev, st, newSize, false);
    assert b == Step(w.st, w.exc);
    SeekRules(dev, b.st, pos0, Beg);
    if dev.access != InOnly && !WriteFailsAt(dev, off) {
      assert w.count == 1;
      assert [0 as bv8][..1] == [0];
      WriteAtExtends(st.data, off, [0]);
      assert Zeros(off - |st.data|) + [0] == Zeros(newSize - |st.data|);
      assert st.data + Zeros(off - |st.data|) + [0] == st.data + Zeros(newSize - |st.data|);
    }
  }

  /** The discrepancy: as written, asking for one byte more than the
      stream holds leaves it as it is, although the stream is smaller
      than the requested size; the corrected test grows it. */
  lemma SetSizeAsWrittenOneShort(dev: Device, st: State)
    requires dev.access == OutOnly && dev.writeLimit.None? && |st.data| < STREAMOFF_MAX
    ensures SetSizeAsWritten(dev, st, |st.data| + 1).st.data == st.data
    ensures |SetSizeSpec(dev, st, |st.data| + 1).st.data| == |st.data| + 1
  {
    SetSizeGrowth(dev, st, |st.data| + 1);
    var tmp := SeekOp(dev, st, TellOp(dev, st), Beg);
    SeekToEnd(dev, tmp.st);
  }

  /** The destination of `CopyTo`, as its `Write` behaves: it accepts
      bytes up to an optional capacity and reports STG_E_MEDIUMFULL on a
      short write. */
  datatype SinkState = SinkState(contents: seq<bv8>, capacity: Option<nat>)
  datatype SinkReply = SinkReply(sink: SinkState, hr: int, written: nat)

  function SinkWrite(s: SinkState, buf: seq<bv8>): (r: SinkReply)
    ensures r.written <= |buf| && r.sink.capacity == s.capacity
    ensures r.sink.contents == s.contents + buf[..r.written]
    ensures r.hr == S_OK <==> r.written == |buf|
    ensures r.hr != S_OK ==> r.hr == STG_E_MEDIUMFULL
    ensures s.capacity.None? ==> r.written == |buf|
  {
    var room := if s.capacity.None? then |buf|
      else if s.capacity.value > |s.contents| then s.capacity.value - |s.contents| else 0;
    var w := Min(|buf|, room);
    SinkReply(s.(contents := s.contents + buf[..w]), if w < |buf| then STG_E_MEDIUMFULL else S_OK, w)
  }

  datatype CopyReply = CopyReply(st: State, sink: SinkState, hr: int, read: nat, written: nat)

  /** The size of the next `CopyTo` chunk. */
  function ChunkSize(amount: nat, read: nat): (c: nat)
    requires read <= amount
    ensures c <= COPY_CHUNK_SIZE && c <= amount - read
    ensures c == 0 <==> read == amount
  {
    Min(ULONG_MAX, Min(amount - read, COPY_CHUNK_SIZE))
  }

  /** The rounds of `CopyTo` from totals `read` and `written` on: read a
      chunk, then go on as `CopyAfterRead` says. */
  function CopyRounds(dev: Device, st: State, sink: SinkState, amount: nat, read: nat, written: nat): (r: CopyReply)
    requires read <= amount
    decreases amount - read, 1
  {
    var chunk := ChunkSize(amount, read);
    ReadOpBasics(dev, st, chunk);
    CopyAfterRead(dev, ReadOp(dev, st, chunk), chunk, sink, amount, read, written)
  }

  /** The rest of a round whose read of `chunk` bytes gave `o`: write what
      was read, add both counts to the totals (also when either step
      fails), stop on a failure, after a short chunk, or once `amount`
      bytes have been read. */
  function CopyAfterRead(dev: Device, o: ReadOutcome, chunk: nat, sink: SinkState, amount: nat, read: nat, written: nat): (r: CopyReply)
    requires read <= amount && chunk == ChunkSize(amount, read) && o.count <= chunk && |o.bytes| == o.count
    decreases amount - read, 0
  {
    var rd := read + o.count;
    if o.exc.Some? then CopyReply(o.st, sink, HrOf(o.exc.value), rd, written)
    else
      var w := SinkWrite(sink, o.bytes);
      var wr := written + w.written;
      if Failed(w.hr) then CopyReply(o.st, w.sink, w.hr, rd, wr)
      else if o.count < chunk || !(amount > rd) then CopyReply(o.st, w.sink, S_OK, rd, wr)
      else CopyRounds(dev, o.st, w.sink, amount, rd, wr)
  }

  /** `adapted_stream::CopyTo`; `destGiven` is false for a null
      destination. Both totals start at 0. */
  function CopyToSpec(dev: Device, st: State, destGiven: bool, sink: SinkState, amount: nat): (r: CopyReply)
  {
    if !destGiven then CopyReply(st, sink, STG_E_INVALIDPOINTER, 0, 0)
    else CopyRounds(dev, st, sink, amount, 0, 0)
  }

  /** One `ReadOp` never changes the contents and returns as many bytes
      as it counts, at most the request. */
  lemma ReadOpBasics(dev: Device, st: State, n: nat)
    ensures var o := ReadOp(dev, st, n);
      o.count <= n && |o.bytes| == o.count && o.st.data == st.data
  {
  }

  /** The totals of `CopyTo`: it never reads more than `amount`, never
      writes more than it read, and never changes the stream's contents. */
  lemma {:induction false} CopyCounts(dev: Device, st: State, sink: SinkState, amount: nat, read: nat, written: nat)
    requires read <= amount && written <= read
    ensures var r := CopyRounds(dev, st, sink, amount, read, written);
      read <= r.read <= amount && written <= r.written <= r.read && r.st.data == st.data
    decreases amount - read, 1
  {
    var chunk := ChunkSize(amount, read);
    ReadOpBasics(dev, st, chunk);
    CopyAfterCounts(dev, ReadOp(dev, st, chunk), chunk, st.data, sink, amount, read, written);
  }

  /** `CopyCounts` for the rest of a round, the read having left the
      contents `data`. */
  lemma {:induction false} CopyAfterCounts(dev: Device, o: ReadOutcome, chunk: nat, data: seq<bv8>, sink: SinkState, amount: nat, read: nat, written: nat)
    requires read <= amount && chunk == ChunkSize(amount, read) && o.count <= chunk && |o.bytes| == o.count
    requires written <= read && o.st.data == data
    ensures var r := CopyAfterRead(dev, o, chunk, sink, amount, read, written);
      read <= r.read <= amount && written <= r.written <= r.read && r.st.data == data
    decreases amount - read, 0
  {
    var w := SinkWrite(sink, o.bytes);
    if o.exc.None? && !Failed(w.hr) && o.count == chunk && amount > read + o.count {
      CopyCounts(dev, o.st, w.sink, amount, read + o.count, written + w.written);
    }
  }

  /** What the destination of `CopyTo` receives: its old contents, then
      exactly as many bytes as reported written. */
  lemma {:induction false} CopySinkGrowth(dev: Device, st: State, sink: SinkState, amount: nat, read: nat, written: nat)
    requires read <= amount
    ensures var r := CopyRounds(dev, st, sink, amount, read, written);
      sink.contents <= r.sink.contents && |r.sink.contents| - |sink.contents| == r.written - written
    decreases amount - read, 1
  {
    var chunk := ChunkSize(amount, read);
    ReadOpBasics(dev, st, chunk);
    CopyAfterSinkGrowth(dev, ReadOp(dev, st, chunk), chunk, sink, amount, read, written);
  }

  /** `CopySinkGrowth` for the rest of a round. */
  lemma {:induction false} CopyAfterSinkGrowth(dev: Device, o: ReadOutcome, chunk: nat, sink: SinkState, amount: nat, read: nat, written: nat)
    requires read <= amount && chunk == ChunkSize(amount, read) && o.count <= chunk && |o.bytes| == o.count
    ensures var r := CopyAfterRead(dev, o, chunk, sink, amount, read, written);
      sink.contents <= r.sink.contents && |r.sink.contents| - |sink.contents| == r.written - written
    decreases amount - read, 0
  {
    var w := SinkWrite(sink, o.bytes);
    SinkWriteGrows(sink, o.bytes);
    if o.exc.None? && !Failed(w.hr) && o.count == chunk && amount > read + o.count {
      CopySinkGrowth(dev, o.st, w.sink, amount, read + o.count, written + w.written);
      var r := CopyRounds(dev, o.st, w.sink, amount, read + o.count, written + w.written);
      PrefixChain(sink.contents, w.sink.contents, r.sink.contents);
    }
  }

  /** The destination's `Write` keeps what it held and adds as many bytes
      as it reports. */
  lemma SinkWriteGrows(sink: SinkState, buf: seq<bv8>)
    ensures var w := SinkWrite(sink, buf);
      sink.contents <= w.sink.contents && |w.sink.contents| == |sink.contents| + w.written
  {
  }

  lemma PrefixChain(a: seq<bv8>, b: seq<bv8>, c: seq<bv8>)
    requires a <= b && b <= c
    ensures a <= c
  {
    assert c[..|a|] == b[..|a|];
  }

  /** `CopyTo` never reads more than `amount`, never writes more than it
      read, and the destination receives exactly the bytes it reports as
      written, appended to what it held. */
  lemma CopyBounds(dev: Device, st: State, sink: SinkState, amount: nat, read: nat, written: nat)
    requires read <= amount && written <= read
    ensures var r := CopyRounds(dev, st, sink, amount, read, written);
      read <= r.read <= amount && written <= r.written <= r.read &&
      sink.contents <= r.sink.contents && |r.sink.contents| - |sink.contents| == r.written - written &&
      r.st.data == st.data
  {
    CopyCounts(dev, st, sink, amount, read, written);
    CopySinkGrowth(dev, st, sink, amount, read, written);
  }

  /** The bytes from position `p` to the end. */
  function Rest(data: seq<bv8>, p: nat): (r: seq<bv8>)
    ensures |r| == if p < |data| then |data| - p else 0
  {
    if p < |data| then data[p..] else []
  }

  /** From an istream over a sound buffer into a destination without a
      capacity, `CopyTo` copies min(amount, bytes left) bytes from the
      current position, chunk by chunk, and succeeds. */
  lemma {:induction false} CopyAll(dev: Device, st: State, sink: SinkState, amount: nat, read: nat, written: nat)
    requires dev.access == InOnly && dev.readThrowsAt.None? && sink.capacity.None? && read <= amount
    ensures var r := CopyRounds(dev, st, sink, amount, read, written);
      var k := Min(amount - read, |Rest(st.data, st.getPos)|);
      r.hr == S_OK && r.read == read + k && r.written == written + k &&
      r.st.getPos == st.getPos + k &&
      r.sink.contents == sink.contents + Rest(st.data, st.getPos)[..k]
    decreases amount - read, 1
  {
    var chunk := ChunkSize(amount, read);
    ReadOpBasics(dev, st, chunk);
    SoundRead(dev, st, chunk);
    CopyAfterAll(dev, ReadOp(dev, st, chunk), chunk, st, sink, amount, read, written);
  }

  /** `CopyAll` for the rest of a round whose read from `st` took the
      bytes left up to the chunk. */
  lemma {:induction false} CopyAfterAll(dev: Device, o: ReadOutcome, chunk: nat, st: State, sink: SinkState, amount: nat, read: nat, written: nat)
    requires dev.access == InOnly && dev.readThrowsAt.None? && sink.capacity.None?
    requires read <= amount && chunk == ChunkSize(amount, read) && o.count <= chunk && |o.bytes| == o.count
    requires o.exc.None? && o.count == Min(chunk, |Rest(st.data, st.getPos)|) &&
      o.bytes == Rest(st.data, st.getPos)[..o.count] && o.st == st.(getPos := st.getPos + o.count)
    ensures var r := CopyAfterRead(dev, o, chunk, sink, amount, read, written);
      var k := Min(amount - read, |Rest(st.data, st.getPos)|);
      r.hr == S_OK && r.read == read + k && r.written == written + k &&
      r.st.getPos == st.getPos + k &&
      r.sink.contents == sink.contents + Rest(st.data, st.getPos)[..k]
    decreases amount - read, 0
  {
    var rest := Rest(st.data, st.getPos);
    var w := SinkWrite(sink, o.bytes);
    assert o.bytes[..|o.bytes|] == o.bytes;
    var k := Min(amount - read, |rest|);
    if o.count == chunk && amount > read + o.count {
      CopyAll(dev, o.st, w.sink, amount, read + o.count, written + w.written);
      var rest2 := Rest(st.data, st.getPos + o.count);
      var k2 := Min(amount - read - o.count, |rest2|);
      RestAdvance(st.data, st.getPos, o.count, amount - read);
      AppendAssoc(sink.contents, rest[..o.count], rest2[..k2]);
    } else {
      assert k == o.count;
    }
  }

  /** Moving `c` bytes on, with `m` bytes still wanted: the bytes left
      are the rest of those left before, and the bytes taken split at `c`. */
  lemma RestAdvance(data: seq<bv8>, p: nat, c: nat, m: nat)
    requires c <= |Rest(data, p)| && c <= m
    ensures var rest := Rest(data, p);
      var rest2 := Rest(data, p + c);
      var k2 := Min(m - c, |rest2|);
      rest2 == rest[c..] && Min(m, |rest|) == c + k2 &&
      rest[..Min(m, |rest|)] == rest[..c] + rest2[..k2]
  {
  }

  /** A read from an istream over a sound buffer takes the bytes left,
      up to the request, and moves the get head past them. */
  lemma SoundRead(dev: Device, st: State, n: nat)
    requires dev.access == InOnly && dev.readThrowsAt.None?
    ensures var o := ReadOp(dev, st, n);
      o.exc.None? && o.count == Min(n, |Rest(st.data, st.getPos)|) &&
      o.bytes == Rest(st.data, st.getPos)[..o.count] && o.st == st.(getPos := st.getPos + o.count)
  {
  }

  /** A null destination is refused before anything is read. */
  lemma CopyToNoDestination(dev: Device, st: State, sink: SinkState, amount: nat)
    ensures var r := CopyToSpec(dev, st, false, sink, amount);
      r.hr == STG_E_INVALIDPOINTER && r.read == 0 && r.written == 0 && r.st == st && r.sink == sink
  {
  }

  /** A short chunk ends the copy: after a round that read fewer bytes
      than it asked for, no further round is made, even though fewer
      than `amount` bytes were read. */
  lemma CopyStopsOnShortChunk(dev: Device, st: State, sink: SinkState, amount: nat, read: nat, written: nat)
    requires read <= amount
    requires ReadOp(dev, st, ChunkSize(amount, read)).count < ChunkSize(amount, read)
    ensures var o := ReadOp(dev, st, ChunkSize(amount, read));
      var r := CopyRounds(dev, st, sink, amount, read, written);
      r.read == read + o.count && r.read < amount && r.st == o.st &&
      (o.exc.None? ==> r.written == written + SinkWrite(sink, o.bytes).written)
  {
  }

  /** The destination stream of `CopyTo`, seen through its `Write`. */
  class Destination {
    var contents: seq<bv8>
    const capacity: Option<nat>

    function Sink(): (s: SinkState)
      reads this
    {
      SinkState(contents, capacity)
    }

    constructor (contents0: seq<bv8>, capacity0: Option<nat>)
      ensures Sink() == SinkState(contents0, capacity0)
    {
      contents := contents0;
      capacity := capacity0;
    }

    method Write(buf: seq<bv8>) returns (hr: int, written: nat)
      modifies this
      ensures var w := SinkWrite(old(Sink()), buf);
        Sink() == w.sink && hr == w.hr && written == w.written
    {
      var room := if capacity.None? then |buf|
        else if capacity.value > |contents| then capacity.value - |contents| else 0;
      written := Min(|buf|, room);
      contents := contents + buf[..written];
      hr := if written < |buf| then STG_E_MEDIUMFULL else S_OK;
    }
  }

  class AdaptedStream {
    const dev: Device
    var data: seq<bv8>
    var getPos: nat
    var putPos: nat
    var lastOp: LastOp

    function Current(): (s: State)
      reads this
    {
      State(data, getPos, putPos, lastOp)
    }

    /** `adapted_stream(stream)`: the traits start with `m_last_op` at
        read. */
    constructor (dev0: Device, data0: seq<bv8>, getPos0: nat, putPos0: nat)
      ensures dev == dev0 && Current() == State(data0, getPos0, putPos0, LastRead)
    {
      dev := dev0;
      data := data0;
      getPos := getPos0;
      putPos := putPos0;
      lastOp := LastRead;
    }

    /** `do_istream_read`: one `sbumpc` per byte. */
    method IstreamReadLoop(n: nat) returns (count: nat, bytes: seq<bv8>, exc: Option<Exc>)
      modifies this`getPos
      ensures var r := IstreamRead(dev, old(Current()), n);
        Current() == r.st && count == r.count && bytes == r.bytes && exc == r.exc
    {
      ghost var spec := IstreamRead(dev, Current(), n);
      count := 0;
      bytes := [];
      exc := None;
      while count < n
        invariant count <= spec.count && getPos == old(getPos) + count
        invariant bytes == spec.bytes[..count]
        decreases n - count
      {
        if dev.readThrowsAt.Some? && getPos >= dev.readThrowsAt.value {
          exc := Some(StdError("stream buffer failure"));
          return;
        }
        if getPos >= |data| {
          break;
        }
        bytes := bytes + [data[getPos]];
        getPos := getPos + 1;
        count := count + 1;
      }
      assert spec.bytes[..spec.count] == spec.bytes;
    }

    /** `do_ostream_write`: one `sputc` per byte. */
    method OstreamWriteLoop(buf: seq<bv8>) returns (count: nat, exc: Option<Exc>)
      modifies this`data, this`putPos
      ensures var r := OstreamWrite(dev, old(Current()), buf);
        Current() == r.st && count == r.count && exc == r.exc
    {
      ghost var spec := OstreamWrite(dev, Current(), buf);
      count := 0;
      exc := None;
      while count < |buf|
        invariant count <= spec.count && putPos == old(putPos) + count
        invariant data == WriteAt(old(data), old(putPos), buf[..count])
        decreases |buf| - count
      {
        if dev.writeLimit.Some? && putPos >= dev.writeLimit.value {
          if dev.writeThrows {
            exc := Some(StdError("stream buffer failure"));
            return;
          }
          break;
        }
        assert buf[..count + 1][..count] == buf[..count];
        data := PutByte(data, putPos, buf[count]);
        putPos := putPos + 1;
        count := count + 1;
      }
    }

    method DoRead(n: nat) returns (count: nat, bytes: seq<bv8>, exc: Option<Exc>)
      modifies this`getPos, this`lastOp
      ensures var r := ReadOp(dev, old(Current()), n);
        Current() == r.st && count == r.count && bytes == r.bytes && exc == r.exc
    {
      match dev.access
      case OutOnly =>
        count, bytes := 0, [];
        exc := Some(ComError("std::ostream does not support reading", STG_E_ACCESSDENIED));
      case InOnly =>
        count, bytes, exc := IstreamReadLoop(n);
      case InOut =>
        if lastOp == LastWrite {
          getPos := putPos;
          lastOp := LastRead;
        }
        count, bytes, exc := IstreamReadLoop(n);
    }

    method DoWrite(buf: seq<bv8>) returns (count: nat, exc: Option<Exc>)
      modifies this`data, this`putPos, this`lastOp
      ensures var r := WriteOp(dev, old(Current()), buf);
        Current() == r.st && count == r.count && exc == r.exc
    {
      match dev.access
      case InOnly =>
        count := 0;
        exc := Some(ComError("std::istream does not support writing", STG_E_ACCESSDENIED));
      case OutOnly =>
        count, exc := OstreamWriteLoop(buf);
      case InOut =>
        if lastOp == LastRead {
          putPos := getPos;
          lastOp := LastWrite;
        }
        count, exc := OstreamWriteLoop(buf);
    }

    method DoSeek(offset: int, way: Way) returns (newPos: nat, exc: Option<Exc>)
      modifies this`getPos, this`putPos
      ensures var r := SeekOp(dev, old(Current()), offset, way);
        Current() == r.st && newPos == r.newPos && exc == r.exc
    {
      var readSide := dev.access == InOnly || (dev.access == InOut && lastOp == LastRead);
      var cur := if readSide then getPos else putPos;
      var t := Target(cur, |data|, offset, way);
      if t < 0 {
        newPos := cur;
        exc := Some(StdError(if readSide then "Unable to change read position" else "Unable to change write position"));
        return;
      }
      newPos, exc := t, None;
      match dev.access
      case InOnly =>
        getPos := t;
      case OutOnly =>
        putPos := t;
      case InOut =>
        getPos, putPos := t, t;
    }

    method DoTell() returns (p: nat)
      ensures p == TellOp(dev, Current())
    {
      if dev.access == InOnly || (dev.access == InOut && lastOp == LastRead) {
        p := getPos;
      } else {
        p := putPos;
      }
    }

    method Read(bufferGiven: bool, n: nat) returns (hr: int, count: nat, bytes: seq<bv8>)
      modifies this
      ensures var r := ReadSpec(dev, old(Current()), bufferGiven, n);
        Current() == r.st && hr == r.hr && count == r.count && bytes == r.bytes
    {
      count, bytes := 0, [];
      if !bufferGiven {
        hr := STG_E_INVALIDPOINTER;
        return;
      }
      var exc;
      count, bytes, exc := DoRead(n);
      if exc.Some? {
        hr := HrOf(exc.value);
      } else if count < n {
        hr := S_FALSE;
      } else {
        hr := S_OK;
      }
    }

    method Write(bufferGiven: bool, buf: seq<bv8>) returns (hr: int, count: nat)
      modifies this
      ensures var r := WriteSpec(dev, old(Current()), bufferGiven, buf);
        Current() == r.st && hr == r.hr && count == r.count
    {
      count := 0;
      if !bufferGiven {
        hr := STG_E_INVALIDPOINTER;
        return;
      }
      var exc;
      count, exc := DoWrite(buf);
      if exc.Some? {
        hr := HrOf(exc.value);
      } else if count < |buf| {
        hr := STG_E_MEDIUMFULL;
      } else {
        hr := S_OK;
      }
    }

    method Seek(offset: int, origin: nat) returns (hr: int, newPos: nat)
      modifies this
      ensures var r := SeekSpec(dev, old(Current()), offset, origin);
        Current() == r.st && hr == r.hr && newPos == r.newPos
    {
      newPos := 0;
      var way;
      if origin == STREAM_SEEK_CUR {
        way := Cur;
      } else if origin == STREAM_SEEK_SET {
        way := Beg;
      } else if origin == STREAM_SEEK_END {
        way := End;
      } else {
        hr := E_FAIL;
        return;
      }
      if offset > STREAMOFF_MAX || offset < STREAMOFF_MIN {
        hr := E_FAIL;
        return;
      }
      var exc;
      newPos, exc := DoSeek(offset, way);
      hr := if exc.Some? then HrOf(exc.value) else S_OK;
    }

    /** `SetSize` with the corrected growth test (see `SetSizeAsWritten`
        for the source's). */
    method SetSize(newSize: nat) returns (hr: int)
      modifies this
      ensures var r := SetSizeSpec(dev, old(Current()), newSize);
        Current() == r.st && hr == r.hr
    {
      var pos0 := DoTell();
      var exc: Option<Exc> := None;
      if newSize > 0 {
        if newSize - 1 > STREAMOFF_MAX {
          exc := Some(ComError("Seek offset too large", STG_E_INVALIDFUNCTION));
        } else {
          var off := newSize - 1;
          var here := DoTell();
          var _, _ := DoSeek(here, Beg);
          var existingEnd, e := DoSeek(0, End);
          exc := e;
          if exc.None? && off >= existingEnd {
            var _, k := DoSeek(off, Beg);
            exc := k;
            if exc.None? {
              var _, w := DoWrite([0]);
              exc := w;
            }
          }
        }
      }
      var _, _ := DoSeek(pos0, Beg);
      hr := if exc.Some? then HrOf(exc.value) else S_OK;
    }

    method CopyTo(dest: Destination?, amount: nat) returns (hr: int, read: nat, written: nat)
      modifies this, dest
      ensures dest == null ==> hr == STG_E_INVALIDPOINTER && read == 0 && written == 0 && Current() == old(Current())
      ensures dest != null ==>
        var r := CopyToSpec(dev, old(Current()), true, old(dest.Sink()), amount);
        Current() == r.st && dest.Sink() == r.sink && hr == r.hr && read == r.read && written == r.written
    {
      read, written := 0, 0;
      if dest == null {
        hr := STG_E_INVALIDPOINTER;
        return;
      }
      ghost var target := CopyRounds(dev, Current(), dest.Sink(), amount, 0, 0);
      while true
        invariant read <= amount
        invariant CopyRounds(dev, Current(), dest.Sink(), amount, read, written) == target
        decreases amount - read
      {
        var chunk := ChunkSize(amount, read);
        var readThisRound, bytes, exc := DoRead(chunk);
        if exc.Some? {
          read := read + readThisRound;
          hr := HrOf(exc.value);
          return;
        }
        var whr, writtenThisRound := dest.Write(bytes);
        read, written := read + readThisRound, written + writtenThisRound;
        if Failed(whr) {
          hr := whr;
          return;
        }
        if readThisRound < chunk || !(amount > read) {
          hr := S_OK;
          return;
        }
      }
    }
  }
}
