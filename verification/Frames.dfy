/**
 The stream frame codec: a LEB128 length (at most four bytes) followed by that many payload bytes.
 Bytes are integers below 256; the bitwise steps of the source are written as arithmetic.
 */
module Frames {
  type Byte = b: int | 0 <= b < 256
  type Bytes = seq<Byte>

  const MAX_FRAME_LEN := 8 * 1024 * 1024
  const MAX_FRAME_HEADER_LEN := 4
  const READ_CHUNK := 16 * 1024

  datatype Scan = Complete(headerLen: nat, payloadLen: nat) | Incomplete | Malformed

  /** Weight of the `i`-th group of seven bits. */
  function Weight(i: nat): (w: nat)
    ensures w > 0
  {
    if i == 0 then 1 else 128 * Weight(i - 1)
  }

  /** The first byte without a continuation bit; the length of the buffer if there is none. */
  function HeaderEnd(b: Bytes): (n: nat)
    ensures n <= |b|
    ensures n < |b| ==> b[n] < 128
    ensures forall i :: 0 <= i < n ==> b[i] >= 128
  {
    if b == [] || b[0] < 128 then 0 else 1 + HeaderEnd(b[1..])
  }

  /** Value of a group sequence, low group first. */
  function Value(b: Bytes): (v: nat) {
    if b == [] then 0 else b[0] % 128 + 128 * Value(b[1..])
  }

  /** What the header of a buffer says, without a loop. */
  function Scanned(b: Bytes): (r: Scan) {
    var n := HeaderEnd(b);
    if n == |b| then if |b| > MAX_FRAME_HEADER_LEN then Malformed else Incomplete
    else if n >= MAX_FRAME_HEADER_LEN then Malformed
    else
      var v := Value(b[..n + 1]);
      if v > MAX_FRAME_LEN then Malformed
      else if |b| >= n + 1 + v then Complete(n + 1, v)
      else Incomplete
  }

  method SplitFrameHeader(buffer: Bytes) returns (r: Scan)
    ensures r == Scanned(buffer)
  {
    var value: nat := 0;
    var shift: nat := 1;
    for index := 0 to |buffer|
      invariant index <= MAX_FRAME_HEADER_LEN
      invariant forall i :: 0 <= i < index ==> buffer[i] >= 128
      invariant value == Value(buffer[..index]) && shift == Weight(index)
    {
      HeaderEndFrom(buffer, index);
      if index >= MAX_FRAME_HEADER_LEN {
        return Malformed;
      }
      ValueSnoc(buffer[..index], buffer[index]);
      assert buffer[..index + 1] == buffer[..index] + [buffer[index]];
      value := value + buffer[index] % 128 * shift;
      shift := 128 * shift;
      if buffer[index] < 128 {
        if value > MAX_FRAME_LEN {
          return Malformed;
        }
        var headerLen := index + 1;
        return if |buffer| >= headerLen + value then Complete(headerLen, value) else Incomplete;
      }
    }
    HeaderEndFrom(buffer, |buffer|);
    return Incomplete;
  }

  lemma {:induction false} HeaderEndFrom(b: Bytes, index: nat)
    requires index <= |b| && forall i :: 0 <= i < index ==> b[i] >= 128
    ensures HeaderEnd(b) >= index
    ensures index < |b| && b[index] < 128 ==> HeaderEnd(b) == index
    decreases index
  {
  }

  lemma {:induction false} ValueSnoc(b: Bytes, last: Byte)
    ensures Value(b + [last]) == Value(b) + last % 128 * Weight(|b|)
    decreases |b|
  {
    if b == [] {
      assert (b + [last])[1..] == [];
    } else {
      assert (b + [last])[1..] == b[1..] + [last];
      ValueSnoc(b[1..], last);
      MulAssociative(128, last % 128, Weight(|b| - 1));
    }
  }

  lemma MulAssociative(a: nat, x: nat, w: nat)
    ensures a * (x * w) == x * (a * w)
  {
  }

  // ---------------------------------------------------------------- encoding

  function Varint(value: nat): (b: Bytes)
    ensures b != []
  {
    if value < 128 then [value] else [value % 128 + 128] + Varint(value / 128)
  }

  method EncodeVarint(value: nat, out: array<Byte>) returns (len: nat)
    requires value <= MAX_FRAME_LEN && out.Length == MAX_FRAME_HEADER_LEN
    modifies out
    ensures len <= MAX_FRAME_HEADER_LEN && out[..len] == Varint(value)
  {
    var rest := value;
    len := 0;
    assert out[..0] + Varint(rest) == Varint(value);
    while len < out.Length
      invariant len <= out.Length
      invariant out[..len] + Varint(rest) == Varint(value)
      invariant rest < if len == 0 then 0x1000_0000 else if len == 1 then 0x20_0000 else if len == 2 then 0x4000
                       else if len == 3 then 0x80 else 1
      invariant len > 0 ==> rest > 0
      decreases out.Length - len
    {
      var byte := rest % 128;
      ghost var before := out[..len];
      if rest / 128 == 0 {
        out[len] := byte;
        assert out[..len] == before;
        len := len + 1;
        assert out[..len] == before + [byte];
        return;
      }
      out[len] := byte + 128;
      assert out[..len] == before;
      assert out[..len + 1] == before + [byte + 128];
      assert before + Varint(rest) == (before + [byte + 128]) + Varint(rest / 128);
      rest := rest / 128;
      len := len + 1;
    }
    assert false;
  }

  /** Every length the writer may emit is read back, whatever follows it. */
  lemma {:induction false} VarintRoundTrip(value: nat, rest: Bytes)
    ensures HeaderEnd(Varint(value) + rest) == |Varint(value)| - 1
    ensures Value(Varint(value)) == value
    decreases value
  {
    var b := Varint(value);
    if value >= 128 {
      VarintRoundTrip(value / 128, rest);
      assert (b + rest)[1..] == Varint(value / 128) + rest;
      assert b[1..] == Varint(value / 128);
    } else {
      assert b[1..] == [];
    }
  }

  lemma {:induction false} VarintWidth(value: nat, groups: nat)
    requires value < Weight(groups) && groups > 0
    ensures |Varint(value)| <= groups
    decreases groups
  {
    if value >= 128 {
      assert groups > 1 by {
        assert Weight(1) == 128 * Weight(0);
      }
      VarintWidth(value / 128, groups - 1);
    }
  }

  lemma LengthFitsHeader(value: nat)
    requires value <= MAX_FRAME_LEN
    ensures |Varint(value)| <= MAX_FRAME_HEADER_LEN
  {
    assert Weight(1) == 128 && Weight(2) == 128 * Weight(1);
    assert Weight(3) == 128 * Weight(2) && Weight(4) == 128 * Weight(3);
    VarintWidth(value, MAX_FRAME_HEADER_LEN);
  }

  datatype Written = WriteOk(bytes: Bytes) | TooLong

  function Frame(payload: Bytes): (b: Bytes) {
    Varint(|payload|) + payload
  }

  /** Refuses an overlong payload, otherwise emits its header and its bytes. */
  method WriteFrame(payload: Bytes) returns (r: Written)
    ensures r == if |payload| > MAX_FRAME_LEN then TooLong else WriteOk(Frame(payload))
  {
    if |payload| > MAX_FRAME_LEN {
      return TooLong;
    }
    var header := new Byte[MAX_FRAME_HEADER_LEN](_ => 0);
    var headerLen := EncodeVarint(|payload|, header);
    r := WriteOk(header[..headerLen] + payload);
  }

  lemma FrameIsComplete(payload: Bytes, rest: Bytes)
    requires |payload| <= MAX_FRAME_LEN
    ensures Scanned(Frame(payload) + rest) == Complete(|Varint(|payload|)|, |payload|)
  {
    var v := Varint(|payload|);
    VarintRoundTrip(|payload|, payload + rest);
    LengthFitsHeader(|payload|);
    assert Frame(payload) + rest == v + (payload + rest);
    assert (Frame(payload) + rest)[..|v|] == v;
  }

  // ---------------------------------------------------------------- stability

  lemma {:induction false} HeaderEndExtension(b: Bytes, more: Bytes)
    ensures HeaderEnd(b) < |b| ==> HeaderEnd(b + more) == HeaderEnd(b)
    ensures HeaderEnd(b) == |b| ==> HeaderEnd(b + more) >= |b|
    decreases |b|
  {
    if b != [] {
      assert (b + more)[1..] == b[1..] + more;
      HeaderEndExtension(b[1..], more);
    }
  }

  /** Once a buffer holds a frame or a violation, later bytes do not change the verdict. */
  lemma VerdictStable(b: Bytes, more: Bytes)
    requires Scanned(b) != Incomplete
    ensures Scanned(b + more) == Scanned(b)
  {
    HeaderEndExtension(b, more);
    var n := HeaderEnd(b);
    if n < |b| {
      assert (b + more)[..n + 1] == b[..n + 1];
    }
  }

  // ---------------------------------------------------------------- reading a stream

  datatype Verdict = Ended | Stopped | Violation
  datatype Outcome = Outcome(frames: seq<Bytes>, verdict: Verdict)

  /** The callback's decision at the `i`-th frame; `false` stops the session after that frame. */
  type Decisions = nat -> bool

  /** One-shot parsing of the whole stream; `seen` frames have been delivered before. */
  function Parse(stream: Bytes, seen: nat, keep: Decisions): (r: Outcome)
    decreases |stream|
  {
    match Scanned(stream)
    case Malformed => Outcome([], Violation)
    case Incomplete => Outcome([], Ended)
    case Complete(h, n) =>
      var frame := stream[h..h + n];
      if !keep(seen) then Outcome([frame], Stopped)
      else
        var rest := Parse(stream[h + n..], seen + 1, keep);
        Outcome([frame] + rest.frames, rest.verdict)
  }

  function Concat(chunks: seq<Bytes>): (b: Bytes) {
    if chunks == [] then [] else chunks[0] + Concat(chunks[1..])
  }

  lemma {:induction false} ConcatFrom(chunks: seq<Bytes>, i: nat)
    requires i < |chunks|
    ensures Concat(chunks[i..]) == chunks[i] + Concat(chunks[i + 1..])
  {
  }

  /**
   Reads until the stream ends, the callback stops or the peer violates the length limit. The bytes arrive in
   arbitrary reads; an empty one means the peer has finished. The outcome is that of parsing the stream in one piece,
   and the buffer stays within one frame plus one read.
   */
  method ReadFrames(chunks: seq<Bytes>, keep: Decisions) returns (r: Outcome, peak: nat)
    requires forall i :: 0 <= i < |chunks| ==> 0 < |chunks[i]| <= READ_CHUNK
    ensures r == Parse(Concat(chunks), 0, keep)
    ensures peak < MAX_FRAME_HEADER_LEN + MAX_FRAME_LEN + READ_CHUNK
  {
    hide Parse, Scanned, Concat;
    var buffer: Bytes := [];
    var frames: seq<Bytes> := [];
    var next := 0;
    peak := 0;
    assert chunks[0..] == chunks;
    assert buffer + Concat(chunks[next..]) == Concat(chunks);
    while true
      invariant next <= |chunks|
      invariant |buffer| < MAX_FRAME_HEADER_LEN + MAX_FRAME_LEN + READ_CHUNK
      invariant peak < MAX_FRAME_HEADER_LEN + MAX_FRAME_LEN + READ_CHUNK
      invariant Prepend(frames, Parse(buffer + Concat(chunks[next..]), |frames|, keep))
                == Parse(Concat(chunks), 0, keep)
      decreases |chunks| - next, |buffer|
    {
      var scan := SplitFrameHeader(buffer);
      ParseStep(buffer, Concat(chunks[next..]), |frames|, keep);
      match scan {
        case Complete(h, n) =>
          frames := frames + [buffer[h..h + n]];
          buffer := buffer[h + n..];
          if !keep(|frames| - 1) {
            return Outcome(frames, Stopped), peak;
          }
        case Malformed =>
          return Outcome(frames, Violation), peak;
        case Incomplete =>
          if next == |chunks| {
            NothingPending(chunks);
            return Outcome(frames, Ended), peak;
          }
          ConcatFrom(chunks, next);
          assert buffer + Concat(chunks[next..]) == (buffer + chunks[next]) + Concat(chunks[next + 1..]);
          buffer := buffer + chunks[next];
          next := next + 1;
          if |buffer| > peak {
            peak := |buffer|;
          }
      }
    }
  }

  lemma NothingPending(chunks: seq<Bytes>)
    ensures Concat(chunks[|chunks|..]) == []
  {
  }

  /** One turn of the reading loop, whatever is still to come. */
  lemma ParseStep(buffer: Bytes, pending: Bytes, seen: nat, keep: Decisions)
    ensures match Scanned(buffer)
            case Complete(h, n) =>
              && 0 < h <= h + n <= |buffer|
              && Parse(buffer + pending, seen, keep)
                 == if !keep(seen) then Outcome([buffer[h..h + n]], Stopped)
                    else Prepend([buffer[h..h + n]], Parse(buffer[h + n..] + pending, seen + 1, keep))
            case Malformed => Parse(buffer + pending, seen, keep) == Outcome([], Violation)
            case Incomplete =>
              && |buffer| < MAX_FRAME_HEADER_LEN + MAX_FRAME_LEN
              && (pending == [] ==> Parse(buffer + pending, seen, keep) == Outcome([], Ended))
  {
    var stream := buffer + pending;
    if Scanned(buffer) == Incomplete {
      assert pending == [] ==> stream == buffer;
    } else {
      VerdictStable(buffer, pending);
      if Scanned(buffer).Complete? {
        var h, n := Scanned(buffer).headerLen, Scanned(buffer).payloadLen;
        assert stream[h..h + n] == buffer[h..h + n];
        assert stream[h + n..] == buffer[h + n..] + pending;
      }
    }
  }

  function Prepend(frames: seq<Bytes>, r: Outcome): (o: Outcome) {
    Outcome(frames + r.frames, r.verdict)
  }

  function FrameAll(payloads: seq<Bytes>): (b: Bytes) {
    if payloads == [] then [] else Frame(payloads[0]) + FrameAll(payloads[1..])
  }

  /**
   Reading what the writer wrote delivers exactly the payloads. What follows decides the verdict: an unfinished tail is
   dropped, a malformed one is a violation.
   */
  lemma {:induction false} StreamRoundTrip(payloads: seq<Bytes>, tail: Bytes, seen: nat, keep: Decisions)
    requires forall i :: 0 <= i < |payloads| ==> |payloads[i]| <= MAX_FRAME_LEN
    requires forall k: nat :: seen <= k < seen + |payloads| ==> keep(k)
    requires !Scanned(tail).Complete?
    ensures Parse(FrameAll(payloads) + tail, seen, keep)
            == Outcome(payloads, if Scanned(tail) == Malformed then Violation else Ended)
    decreases |payloads|
  {
    hide Scanned, Varint, Parse, HeaderEnd, Value;
    if payloads == [] {
      assert FrameAll(payloads) + tail == tail;
      ParseStep(tail, [], seen, keep);
      assert tail + [] == tail;
    } else {
      FirstFrame(payloads, tail, seen, keep);
      StreamRoundTrip(payloads[1..], tail, seen + 1, keep);
    }
  }

  /** The first frame is delivered; reading goes on exactly if the callback wants it to. */
  lemma FirstFrame(payloads: seq<Bytes>, tail: Bytes, seen: nat, keep: Decisions)
    requires payloads != [] && |payloads[0]| <= MAX_FRAME_LEN
    ensures Parse(FrameAll(payloads) + tail, seen, keep)
            == if keep(seen) then Prepend([payloads[0]], Parse(FrameAll(payloads[1..]) + tail, seen + 1, keep))
               else Outcome([payloads[0]], Stopped)
  {
    hide Scanned, Varint, Parse, HeaderEnd, Value;
    var p, rest := payloads[0], FrameAll(payloads[1..]) + tail;
    var h := |Varint(|p|)|;
    FrameIsComplete(p, []);
    assert Frame(p) + [] == Frame(p);
    ParseStep(Frame(p), rest, seen, keep);
    assert Frame(p)[h..h + |p|] == p && Frame(p)[h + |p|..] + rest == rest;
    assert FrameAll(payloads) + tail == Frame(p) + rest;
  }

  /** The frame at which the callback stops is the last one delivered, whatever follows. */
  lemma {:induction false} StreamStops(payloads: seq<Bytes>, rest: Bytes, seen: nat, keep: Decisions)
    requires payloads != [] && !keep(seen + |payloads| - 1)
    requires forall i :: 0 <= i < |payloads| ==> |payloads[i]| <= MAX_FRAME_LEN
    requires forall k: nat :: seen <= k < seen + |payloads| - 1 ==> keep(k)
    ensures Parse(FrameAll(payloads) + rest, seen, keep) == Outcome(payloads, Stopped)
    decreases |payloads|
  {
    hide Scanned, Varint, Parse, HeaderEnd, Value, FrameAll;
    FirstFrame(payloads, rest, seen, keep);
    if |payloads| > 1 {
      StreamStops(payloads[1..], rest, seen + 1, keep);
    }
  }

  // ---------------------------------------------------------------- verdicts

  /**
   The verdict on a buffer, said without its scan. Malformed: five bytes or more of which the first four continue, or a
   header within four bytes that says more than the limit. Complete: a header within the limits and as many bytes after
   it as it says. Four continuing bytes alone are still incomplete, though nothing can complete them.
   */
  lemma VerdictExact(b: Bytes)
    ensures Scanned(b) == Malformed <==>
            || (|b| > 4 && b[0] >= 128 && b[1] >= 128 && b[2] >= 128 && b[3] >= 128)
            || exists n: nat :: IsHeader(b, n) && Value(b[..n]) > 8 * 1024 * 1024
    ensures forall h: nat, v: nat :: Scanned(b) == Complete(h, v) <==>
            IsHeader(b, h) && v == Value(b[..h]) <= 8 * 1024 * 1024 && h + v <= |b|
  {
    hide Value;
    var n := HeaderEnd(b);
    forall h: nat | IsHeader(b, h)
      ensures h == n + 1
    {
      HeaderEndFrom(b, h - 1);
    }
    if n < |b| && n < 4 {
      assert IsHeader(b, n + 1);
    }
  }

  /** The first `n` bytes, at most four, are a whole header: all but the last continue. */
  ghost predicate IsHeader(b: Bytes, n: nat) {
    1 <= n <= |b| && n <= 4 && b[n - 1] < 128 && forall i :: 0 <= i < n - 1 ==> b[i] >= 128
  }

  // ---------------------------------------------------------------- longer spellings

  /** The length with `extra` groups of zeros more than needed. */
  function Padded(value: nat, extra: nat): (b: Bytes)
    ensures b != []
    decreases value, extra
  {
    if value >= 128 then [value % 128 + 128] + Padded(value / 128, extra)
    else if extra == 0 then [value]
    else [value + 128] + Padded(0, extra - 1)
  }

  lemma Continued(first: Byte, more: Bytes, rest: Bytes)
    requires first >= 128
    ensures HeaderEnd([first] + more + rest) == 1 + HeaderEnd(more + rest)
    ensures Value([first] + more) == first - 128 + 128 * Value(more)
  {
    assert ([first] + more + rest)[1..] == more + rest && ([first] + more)[1..] == more;
  }

  lemma {:induction false} PaddedRead(value: nat, extra: nat, rest: Bytes)
    ensures HeaderEnd(Padded(value, extra) + rest) == |Padded(value, extra)| - 1
    ensures Value(Padded(value, extra)) == value && |Padded(value, extra)| == |Varint(value)| + extra
    decreases value, extra
  {
    hide HeaderEnd, Value;
    if value >= 128 {
      PaddedRead(value / 128, extra, rest);
      Continued(value % 128 + 128, Padded(value / 128, extra), rest);
    } else if extra > 0 {
      PaddedRead(0, extra - 1, rest);
      Continued(value + 128, Padded(0, extra - 1), rest);
    } else {
      VarintRoundTrip(value, rest);
    }
  }

  /** A frame whose length is padded is accepted exactly as long as its header stays within four bytes. */
  lemma NonMinimalAccepted(payload: Bytes, extra: nat, rest: Bytes)
    requires |payload| <= MAX_FRAME_LEN
    ensures var h := |Varint(|payload|)| + extra;
            Scanned(Padded(|payload|, extra) + payload + rest)
            == if h <= MAX_FRAME_HEADER_LEN then Complete(h, |payload|) else Malformed
  {
    var v := Padded(|payload|, extra);
    PaddedRead(|payload|, extra, payload + rest);
    assert v + payload + rest == v + (payload + rest);
    assert (v + payload + rest)[..|v|] == v;
  }

  lemma {:induction false} HeaderIsPadded(b: Bytes)
    requires b != [] && b[|b| - 1] < 128 && forall i :: 0 <= i < |b| - 1 ==> b[i] >= 128
    ensures |Varint(Value(b))| <= |b| && b == Padded(Value(b), |b| - |Varint(Value(b))|)
    decreases |b|
  {
    if |b| == 1 {
      assert b[1..] == [];
    } else {
      HeaderIsPadded(b[1..]);
      assert Value(b) / 128 == Value(b[1..]) && Value(b) % 128 == b[0] - 128;
      assert b == [b[0]] + b[1..];
    }
  }

  /** No other headers are accepted: every one spells its length with some padding. */
  lemma AcceptedIsPadded(b: Bytes)
    requires Scanned(b).Complete?
    ensures var r := Scanned(b);
            && |Varint(r.payloadLen)| <= r.headerLen <= |b|
            && b[..r.headerLen] == Padded(r.payloadLen, r.headerLen - |Varint(r.payloadLen)|)
  {
    HeaderIsPadded(b[..HeaderEnd(b) + 1]);
  }
}
