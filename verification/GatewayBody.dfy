/**
  The gateway's body handling in src/gateway.rs: an upload is collected into one buffer
  that grows in steps, and a response body is passed on until it exceeds the limit.
 */
module GatewayBody {
  import opened Outcomes
  import opened Utf8

  const MAX_BODY_BYTES := 8 * 1024 * 1024
  const FIRST_CAPACITY := 4096

  datatype Frame = Data(bytes: Bytes) | Trailers | Broken
  datatype BodyError = ReadFailed | TooLarge | NoMemory | TimedOut

  // ----- What a body means -----

  /** The bytes of a body: its data frames, in order. */
  function Content(frames: seq<Frame>): Bytes {
    if frames == [] then []
    else Content(frames[..|frames| - 1]) + (if frames[|frames| - 1].Data? then frames[|frames| - 1].bytes else [])
  }

  predicate Unbroken(frames: seq<Frame>) {
    forall i :: 0 <= i < |frames| ==> !frames[i].Broken?
  }

  lemma ContentStep(frames: seq<Frame>, i: nat)
    requires i < |frames|
    ensures Content(frames[..i + 1]) == Content(frames[..i]) + (if frames[i].Data? then frames[i].bytes else [])
  {
    assert frames[..i + 1][..i] == frames[..i];
  }

  /** A prefix holds no more bytes than the whole. */
  lemma {:induction false} ContentGrows(frames: seq<Frame>, i: nat)
    requires i <= |frames|
    ensures |Content(frames[..i])| <= |Content(frames)|
    decreases |frames|
  {
    if i == |frames| {
      assert frames[..i] == frames;
    } else {
      assert frames[..|frames| - 1][..i] == frames[..i];
      ContentGrows(frames[..|frames| - 1], i);
    }
  }

  lemma NothingYet(frames: seq<Frame>)
    ensures Content(frames[..0]) == [] && Unbroken(frames[..0])
  {
  }

  lemma UnbrokenStep(frames: seq<Frame>, i: nat)
    requires i < |frames|
    ensures Unbroken(frames[..i + 1]) <==> Unbroken(frames[..i]) && !frames[i].Broken?
    ensures Unbroken(frames) ==> !frames[i].Broken?
  {
    if Unbroken(frames[..i + 1]) {
      assert frames[..i + 1][i] == frames[i];
      forall k | 0 <= k < i ensures !frames[..i][k].Broken? {
        assert frames[..i + 1][k] == frames[k];
      }
    }
  }

  // ----- Growing -----

  function Max(a: int, b: int): int {
    if a < b then b else a
  }

  function Min(a: int, b: int): int {
    if a < b then a else b
  }

  function NextCapacity(capacity: nat, required: nat): nat {
    Min(Max(Max(capacity * 2, FIRST_CAPACITY), required), MAX_BODY_BYTES)
  }

  /** The least capacity after a number of growths. */
  function Floor(growths: nat): nat {
    if growths == 0 then 0 else if growths == 1 then FIRST_CAPACITY else Min(2 * Floor(growths - 1), MAX_BODY_BYTES)
  }

  /** Twelve growths reach the limit. */
  lemma TwelveGrowthsSuffice()
    ensures Floor(12) == MAX_BODY_BYTES
  {
    assert Floor(4) == 32768;
    assert Floor(8) == 524288;
  }

  lemma GrowthRaisesFloor(growths: nat, capacity: nat, required: nat)
    requires Floor(growths) <= capacity < required <= MAX_BODY_BYTES
    ensures Floor(growths + 1) <= NextCapacity(capacity, required)
    ensures growths + 1 <= 12
    ensures required <= NextCapacity(capacity, required) <= MAX_BODY_BYTES
    ensures NextCapacity(capacity, required) < MAX_BODY_BYTES ==> 2 * capacity <= NextCapacity(capacity, required)
  {
    if growths >= 12 {
      FloorStays(growths);
      assert false;
    }
  }

  /** A growth makes room for 4 KiB and for twice as much, and asks for no more than that, the need and the limit. */
  lemma GrowthIsMeasured(capacity: nat, required: nat)
    requires capacity < required <= 8 * 1024 * 1024
    ensures var c := NextCapacity(capacity, required);
            && required <= c <= 8 * 1024 * 1024
            && (c == 8 * 1024 * 1024 || (4096 <= c && 2 * capacity <= c))
            && (c == required || c == 4096 || c <= 2 * capacity)
  {
  }

  lemma {:induction false} FloorStays(growths: nat)
    requires growths >= 12
    ensures Floor(growths) == MAX_BODY_BYTES
  {
    if growths == 12 {
      TwelveGrowthsSuffice();
    } else {
      FloorStays(growths - 1);
    }
  }

  /** A vector whose memory is explicit. */
  class Buffer {
    var memory: array<Byte>
    var len: nat
    /** Growths so far, and bytes that they copied. */
    ghost var growths: nat
    ghost var copied: nat

    ghost predicate Valid()
      reads this
    {
      && len <= memory.Length <= MAX_BODY_BYTES && Floor(growths) <= memory.Length && growths <= 12
      && (memory.Length < MAX_BODY_BYTES ==> copied <= memory.Length) && copied < 2 * MAX_BODY_BYTES
    }

    ghost function Held(): Bytes
      reads this, memory
      requires Valid()
    {
      memory[..len]
    }

    constructor ()
      ensures Valid() && fresh(memory) && memory.Length == 0 && Held() == [] && growths == copied == 0
    {
      memory := new Byte[0];
      len, growths, copied := 0, 0, 0;
    }

    /** A larger allocation, into which the bytes are copied before the old one is freed. */
    method Grow(required: nat, plenty: bool) returns (ok: bool)
      requires Valid() && memory.Length < required <= MAX_BODY_BYTES
      modifies this
      ensures Valid() && Held() == old(Held())
      ensures ok ==> fresh(memory) && required <= memory.Length == NextCapacity(old(memory.Length), required)
      ensures !ok ==> memory == old(memory)
      ensures plenty ==> ok
    {
      hide Floor, NextCapacity;
      var given: bool := *;
      if !given && !plenty {
        return false;
      }
      GrowthRaisesFloor(growths, memory.Length, required);
      var larger := new Byte[NextCapacity(memory.Length, required)];
      for i := 0 to len
        modifies larger
        invariant larger[..i] == memory[..i]
      {
        larger[i] := memory[i];
      }
      growths, copied := growths + 1, copied + len;
      memory := larger;
      return true;
    }

    method Append(chunk: Bytes)
      requires Valid() && len + |chunk| <= memory.Length
      modifies this`len, memory
      ensures Valid() && Held() == old(Held()) + chunk
    {
      for i := 0 to |chunk|
        modifies memory
        invariant memory[..len] == old(memory[..len])
        invariant memory[len..len + i] == chunk[..i]
      {
        memory[len + i] := chunk[i];
      }
      len := len + |chunk|;
    }
  }

  /**
    `collect_body`: returns an unbroken body within the limit, with at most twelve growths that
    copy less than 16 MiB together. With plenty of memory it succeeds on exactly these bodies.
   */
  method CollectBody(frames: seq<Frame>, plenty: bool)
      returns (r: Result<Bytes, BodyError>, ghost growths: nat, ghost copied: nat, ghost reserved: nat)
    ensures growths <= 12 && copied < 16 * 1024 * 1024
    ensures reserved <= 8 * 1024 * 1024 && (reserved <= 4096 || reserved <= 2 * |Content(frames)|)
    ensures r.Ok? ==> r.value == Content(frames)
    ensures r.Ok? ==> Unbroken(frames) && |Content(frames)| <= MAX_BODY_BYTES
    ensures plenty ==> (r.Ok? <==> Unbroken(frames) && |Content(frames)| <= MAX_BODY_BYTES)
    ensures r == Err(ReadFailed) ==> !Unbroken(frames)
    ensures r == Err(TooLarge) ==> |Content(frames)| > MAX_BODY_BYTES
    ensures r.Err? ==> r.error in {ReadFailed, TooLarge, NoMemory} && (plenty ==> r.error != NoMemory)
  {
    hide Floor, NextCapacity, Content, Unbroken;
    var buffer := new Buffer();
    growths, copied, reserved := 0, 0, 0;
    NothingYet(frames);
    for i := 0 to |frames|
      invariant fresh(buffer) && fresh(buffer.memory) && buffer.Valid() && buffer.Held() == Content(frames[..i])
      invariant growths == buffer.growths && copied == buffer.copied && reserved == buffer.memory.Length
      invariant reserved <= 4096 || reserved <= 2 * |Content(frames[..i])|
      invariant Unbroken(frames[..i])
    {
      ContentStep(frames, i);
      ContentGrows(frames, i);
      ContentGrows(frames, i + 1);
      UnbrokenStep(frames, i);
      if frames[i].Broken? {
        r := Err(ReadFailed);
        return;
      }
      if frames[i].Data? {
        var chunk := frames[i].bytes;
        if |chunk| > MAX_BODY_BYTES - buffer.len {
          r := Err(TooLarge);
          return;
        }
        var required := buffer.len + |chunk|;
        if required > buffer.memory.Length {
          GrowthIsMeasured(buffer.memory.Length, required);
          var ok := buffer.Grow(required, plenty);
          if !ok {
            r := Err(NoMemory);
            return;
          }
        }
        buffer.Append(chunk);
        growths, copied, reserved := buffer.growths, buffer.copied, buffer.memory.Length;
      }
    }
    assert frames[..|frames|] == frames;
    r := Ok(buffer.memory[..buffer.len]);
  }

  // ----- Streaming -----

  datatype Poll = Pending | Ready(bytes: Bytes) | End | Failed(error: BodyError)

  predicate Skipped(frames: seq<Frame>, from: nat, to: nat)
    requires from <= to <= |frames|
  {
    forall k :: from <= k < to ==> frames[k].Trailers?
  }

  /**
    What a poll answers when `arrived` frames are there, and with `ended` that there are no more:
    the first frame from `from` on that is not a trailer, or that there is none.
   */
  predicate Answers(frames: seq<Frame>, from: nat, arrived: nat, ended: bool, remaining: nat, r: Poll, at: nat)
    requires from <= arrived <= |frames|
  {
    if r.Pending? || r.End? then
      ended == r.End? && Skipped(frames, from, arrived) && at == arrived
    else
      && from < at <= arrived && Skipped(frames, from, at - 1)
      && var f := frames[at - 1];
         if f.Broken? then r == Failed(ReadFailed)
         else f.Data? && r == if |f.bytes| <= remaining then Ready(f.bytes) else Failed(TooLarge)
  }

  /** `GatewayBody` over a body that is still arriving. */
  class Streaming {
    const frames: seq<Frame>
    var at: nat
    var remaining: nat
    ghost var sent: Bytes

    ghost predicate Valid()
      reads this
    {
      at <= |frames| && |sent| + remaining == MAX_BODY_BYTES && sent == Content(frames[..at])
    }

    constructor (frames: seq<Frame>)
      ensures Valid() && this.frames == frames && sent == []
    {
      this.frames := frames;
      at, remaining, sent := 0, MAX_BODY_BYTES, [];
    }

    /** `poll_frame`: passes data on in order, skips trailers, and never passes on more than the limit. */
    method PollFrame(late: bool, arrived: nat, ended: bool) returns (r: Poll)
      requires Valid() && at <= arrived <= |frames| && (ended ==> arrived == |frames|)
      modifies this
      ensures r.Failed? || Valid()
      ensures if late then r == Failed(TimedOut) && at == old(at) && remaining == old(remaining)
              else Answers(frames, old(at), arrived, ended, old(remaining), r, at)
      ensures sent == if r.Ready? then old(sent) + r.bytes else old(sent)
      ensures r == Failed(TooLarge) ==> |Content(frames)| > MAX_BODY_BYTES
      ensures r == End ==> sent == Content(frames)
    {
      if late {
        return Failed(TimedOut);
      }
      while at < arrived
        invariant Valid() && sent == old(sent) && remaining == old(remaining)
        invariant old(at) <= at <= arrived && Skipped(frames, old(at), at)
      {
        ContentStep(frames, at);
        ContentGrows(frames, at + 1);
        var frame := frames[at];
        at := at + 1;
        if frame.Broken? {
          return Failed(ReadFailed);
        }
        if frame.Data? {
          if |frame.bytes| > remaining {
            return Failed(TooLarge);
          }
          remaining := remaining - |frame.bytes|;
          sent := sent + frame.bytes;
          return Ready(frame.bytes);
        }
      }
      if !ended {
        return Pending;
      }
      assert frames[..at] == frames;
      return End;
    }
  }
}
