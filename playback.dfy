/**
 * The audio stimulus player (src/playback/main.rs): conversion of the file's samples to the
 * channel count of the output device, and the loop that hands the samples to the device in
 * slices of at most 512.
 */
module Playback {
  import opened Words

  // ---------------------------------------------------------------------------------------------
  // Channel conversion (`process_audio`)
  // ---------------------------------------------------------------------------------------------

  /** Mono to stereo: every sample is sent to both channels. */
  function Duplicate(s: seq<i16>): (r: seq<i16>)
    ensures |r| == 2 * |s|
    ensures forall i :: 0 <= i < |s| ==> r[2 * i] == s[i] && r[2 * i + 1] == s[i]
  {
    if s == [] then []
    else
      var tail := Duplicate(s[1..]);
      assert forall i :: 1 <= i < |s| ==> tail[2 * (i - 1)] == s[i] && tail[2 * (i - 1) + 1] == s[i];
      [s[0], s[0]] + tail
  }

  /** Stereo to mono: the samples at even indices (the first channel of each frame), in order. */
  function EvenSamples(s: seq<i16>): (r: seq<i16>)
    ensures |r| == (|s| + 1) / 2
    ensures forall i :: 0 <= i < |r| ==> r[i] == s[2 * i]
  {
    if |s| <= 1 then s
    else
      var tail := EvenSamples(s[2..]);
      var r := [s[0]] + tail;
      assert forall i :: 1 <= i < |r| ==> r[i] == tail[i - 1] == s[2..][2 * (i - 1)];
      r
  }

  /**
   * `process_audio`: samples of a file with `wavChannels` interleaved channels, converted for a
   * device with `hwChannels` channels. Only mono-to-stereo and stereo-to-mono are converted; any
   * other pairing passes one- and two-channel data through and drops everything else.
   */
  function ProcessAudio(wav: seq<i16>, wavChannels: nat, hwChannels: nat): (r: seq<i16>)
    ensures wavChannels == 1 && hwChannels == 2 ==>
              |r| == 2 * |wav| && forall i :: 0 <= i < |wav| ==> r[2 * i] == wav[i] == r[2 * i + 1]
    ensures wavChannels == 2 && hwChannels == 1 ==>
              |r| == (|wav| + 1) / 2 && forall i :: 0 <= i < |r| ==> r[i] == wav[2 * i]
    ensures wavChannels in {1, 2} && !(wavChannels == 1 && hwChannels == 2) && !(wavChannels == 2 && hwChannels == 1) ==>
              r == wav
    ensures wavChannels !in {1, 2} ==> r == []
  {
    if wavChannels == 1 then
      if hwChannels == 2 then Duplicate(wav) else wav
    else if wavChannels == 2 then
      if hwChannels == 1 then EvenSamples(wav) else wav
    else []
  }

  /** Taking every even sample undoes duplication. */
  lemma {:induction false} EvenSamplesOfDuplicate(s: seq<i16>)
    ensures EvenSamples(Duplicate(s)) == s
    decreases |s|
  {
    if s != [] {
      var d := Duplicate(s);
      assert d[2..] == Duplicate(s[1..]);
      EvenSamplesOfDuplicate(s[1..]);
    }
  }

  /** Converting mono to stereo and back again gives the original samples. */
  lemma MonoStereoRoundTrip(s: seq<i16>)
    ensures ProcessAudio(ProcessAudio(s, 1, 2), 2, 1) == s
  {
    EvenSamplesOfDuplicate(s);
  }

  // ---------------------------------------------------------------------------------------------
  // The write loop (`playback_io`)
  // ---------------------------------------------------------------------------------------------

  /** Largest number of samples handed to the device in one call. */
  const ChunkSamples: nat := 512

  /** What one `writei` call reports: frames written, or an error (after which the loop recovers). */
  datatype WriteReply = Wrote(frames: nat) | Failed

  /**
   * The output device, as the loop sees it: the reply to the k-th `writei` call with a given
   * slice of interleaved samples.
   */
  type Device = (nat, seq<i16>) -> WriteReply

  /** A device never claims to have written more whole frames than the slice holds. */
  ghost predicate Honest(device: Device, channels: nat)
  {
    forall k, slice :: device(k, slice).Wrote? ==> device(k, slice).frames * channels <= |slice|
  }

  /** `_written`: the count the loop takes from a reply. */
  function Written(reply: WriteReply): (n: nat)
    ensures reply.Failed? ==> n == 0
    ensures reply.Wrote? ==> n == reply.frames
  {
    match reply
    case Wrote(n) => n
    case Failed => 0
  }

  lemma WrittenBounds(reply: WriteReply, channels: nat, slice: seq<i16>)
    requires channels >= 1 && Written(reply) * channels <= |slice|
    ensures Written(reply) <= Written(reply) * channels <= |slice|
  {
  }

  /** The slice handed to the device when the loop is at `pointer`. */
  function Slice(data: seq<i16>, pointer: nat): (slice: seq<i16>)
    requires pointer <= |data|
    ensures |slice| == if pointer + ChunkSamples > |data| then |data| - pointer else ChunkSamples
    ensures slice == data[pointer..pointer + |slice|]
  {
    if pointer + ChunkSamples > |data| then data[pointer..] else data[pointer..pointer + ChunkSamples]
  }

  /** One `writei` call: where the loop was, what it handed over, what the device replied. */
  datatype Call = Call(pointer: nat, slice: seq<i16>, reply: WriteReply)

  /**
   * The calls the loop of `playback_io` makes from `pointer`, having made `k` calls, when at most
   * `calls` calls are observed. The loop runs while `pointer < frames - 1` and advances the
   * pointer by the count the device reports.
   */
  function Run(data: seq<i16>, channels: nat, device: Device, pointer: nat, k: nat, calls: nat): (trace: seq<Call>)
    requires 1 <= |data| && pointer <= |data| && channels >= 1 && Honest(device, channels)
    decreases calls - k
  {
    if pointer >= |data| - 1 || k >= calls then []
    else
      var slice := Slice(data, pointer);
      var reply := device(k, slice);
      WrittenBounds(reply, channels, slice);
      [Call(pointer, slice, reply)] + Run(data, channels, device, pointer + Written(reply), k + 1, calls)
  }

  /** Where the loop's pointer stands after the calls of `trace`, starting from `start`. */
  function EndPointer(start: nat, trace: seq<Call>): nat
  {
    if trace == [] then start else trace[|trace| - 1].pointer + Written(trace[|trace| - 1].reply)
  }

  /** One call stays inside the data: a non-empty slice of at most 512 samples taken at the pointer. */
  ghost predicate CallInBounds(data: seq<i16>, channels: nat, c: Call)
  {
    && c.pointer < |data| - 1
    && 1 <= |c.slice| <= ChunkSamples
    && c.pointer + |c.slice| <= |data|
    && c.slice == data[c.pointer..c.pointer + |c.slice|]
    && Written(c.reply) * channels <= |c.slice|
  }

  /** Each call starts where the previous one left the pointer. */
  ghost predicate Chained(trace: seq<Call>)
  {
    forall m :: 0 <= m < |trace| - 1 ==> trace[m + 1].pointer == trace[m].pointer + Written(trace[m].reply)
  }

  /** The properties of every call the loop makes, and of where the loop stops. */
  ghost predicate WellFormedRun(data: seq<i16>, channels: nat, start: nat, trace: seq<Call>, budget: nat)
  {
    && (trace != [] ==> trace[0].pointer == start)
    && (forall m :: 0 <= m < |trace| ==> CallInBounds(data, channels, trace[m]))
    && Chained(trace)
    && start <= EndPointer(start, trace) <= |data|
    && (EndPointer(start, trace) < |data| - 1 ==> |trace| == budget)
    && |trace| <= budget
  }

  /** Prepending a well-formed first call to a well-formed run from where it leaves the pointer. */
  lemma ConsWellFormed(data: seq<i16>, channels: nat, c: Call, rest: seq<Call>, budget: nat)
    requires budget >= 1 && CallInBounds(data, channels, c)
    requires WellFormedRun(data, channels, c.pointer + Written(c.reply), rest, budget - 1)
    ensures WellFormedRun(data, channels, c.pointer, [c] + rest, budget)
  {
    var trace := [c] + rest;
    assert trace[1..] == rest;
    forall m | 0 <= m < |trace|
      ensures CallInBounds(data, channels, trace[m])
    {
      if m > 0 {
        assert trace[m] == rest[m - 1];
      }
    }
    forall m | 0 <= m < |trace| - 1
      ensures trace[m + 1].pointer == trace[m].pointer + Written(trace[m].reply)
    {
      if m > 0 {
        assert trace[m] == rest[m - 1] && trace[m + 1] == rest[m];
      }
    }
    if rest != [] {
      assert trace[|trace| - 1] == rest[|rest| - 1];
    }
  }

  /** The same properties as `WellFormedRun`, stated call by call from the front of the trace. */
  ghost predicate CallsFrom(data: seq<i16>, channels: nat, start: nat, trace: seq<Call>, budget: nat)
    decreases |trace|
  {
    if trace == [] then start <= |data| && (start < |data| - 1 ==> budget == 0)
    else
      && budget >= 1
      && trace[0].pointer == start
      && CallInBounds(data, channels, trace[0])
      && CallsFrom(data, channels, start + Written(trace[0].reply), trace[1..], budget - 1)
  }

  lemma {:induction false} CallsFromWellFormed(data: seq<i16>, channels: nat, start: nat, trace: seq<Call>, budget: nat)
    requires CallsFrom(data, channels, start, trace, budget)
    ensures WellFormedRun(data, channels, start, trace, budget)
    decreases |trace|
  {
    if trace != [] {
      var rest := trace[1..];
      CallsFromWellFormed(data, channels, start + Written(trace[0].reply), rest, budget - 1);
      ConsWellFormed(data, channels, trace[0], rest, budget);
      assert [trace[0]] + rest == trace;
    }
  }

  lemma {:induction false} RunCallsFrom(data: seq<i16>, channels: nat, device: Device, pointer: nat, k: nat, calls: nat)
    requires 1 <= |data| && pointer <= |data| && channels >= 1 && Honest(device, channels)
    ensures CallsFrom(data, channels, pointer, Run(data, channels, device, pointer, k, calls), if k <= calls then calls - k else 0)
    decreases calls - k
  {
    var trace := Run(data, channels, device, pointer, k, calls);
    if pointer >= |data| - 1 || k >= calls {
      assert trace == [];
    } else {
      var slice := Slice(data, pointer);
      var reply := device(k, slice);
      RunUnfold(data, channels, device, pointer, k, calls);
      var rest := Run(data, channels, device, pointer + Written(reply), k + 1, calls);
      RunCallsFrom(data, channels, device, pointer + Written(reply), k + 1, calls);
      FirstCallInBounds(data, channels, device, pointer, k);
      assert trace[0] == Call(pointer, slice, reply) && trace[1..] == rest;
    }
  }

  /** The call the loop makes at `pointer` stays inside the data. */
  lemma FirstCallInBounds(data: seq<i16>, channels: nat, device: Device, pointer: nat, k: nat)
    requires 1 <= |data| && pointer < |data| - 1 && channels >= 1 && Honest(device, channels)
    ensures CallInBounds(data, channels, Call(pointer, Slice(data, pointer), device(k, Slice(data, pointer))))
  {
  }

  lemma RunWellFormed(data: seq<i16>, channels: nat, device: Device, pointer: nat, k: nat, calls: nat)
    requires 1 <= |data| && pointer <= |data| && channels >= 1 && Honest(device, channels)
    ensures WellFormedRun(data, channels, pointer, Run(data, channels, device, pointer, k, calls), if k <= calls then calls - k else 0)
  {
    RunCallsFrom(data, channels, device, pointer, k, calls);
    CallsFromWellFormed(data, channels, pointer, Run(data, channels, device, pointer, k, calls), if k <= calls then calls - k else 0);
  }

  /** One turn of the loop: the first call, then the calls from where it leaves the pointer. */
  lemma RunUnfold(data: seq<i16>, channels: nat, device: Device, pointer: nat, k: nat, calls: nat)
    requires 1 <= |data| && pointer < |data| - 1 && k < calls && channels >= 1 && Honest(device, channels)
    ensures var reply := device(k, Slice(data, pointer));
            && pointer + Written(reply) <= |data|
            && Run(data, channels, device, pointer, k, calls)
               == [Call(pointer, Slice(data, pointer), reply)] + Run(data, channels, device, pointer + Written(reply), k + 1, calls)
  {
    WrittenBounds(device(k, Slice(data, pointer)), channels, Slice(data, pointer));
  }

  /** One turn of the loop keeps the calls made so far followed by the calls still to come. */
  lemma RunStep(data: seq<i16>, channels: nat, device: Device, pointer: nat, k: nat, calls: nat,
                trace: seq<Call>, full: seq<Call>)
    requires 1 <= |data| && pointer < |data| - 1 && k < calls && channels >= 1 && Honest(device, channels)
    requires trace + Run(data, channels, device, pointer, k, calls) == full
    ensures var reply := device(k, Slice(data, pointer));
            && pointer + Written(reply) <= |data|
            && (trace + [Call(pointer, Slice(data, pointer), reply)])
               + Run(data, channels, device, pointer + Written(reply), k + 1, calls) == full
  {
    var reply := device(k, Slice(data, pointer));
    RunUnfold(data, channels, device, pointer, k, calls);
    var rest := Run(data, channels, device, pointer + Written(reply), k + 1, calls);
    assert trace + ([Call(pointer, Slice(data, pointer), reply)] + rest)
        == (trace + [Call(pointer, Slice(data, pointer), reply)]) + rest;
  }

  /** Why the loop cannot start: `frames - 1` underflows when the data is empty. */
  datatype PlaybackError = EmptyData

  /**
   * `playback_io` with the device's `writei` replies given by `device` and at most `calls` calls
   * observed. Fails on empty data; otherwise returns the calls made, in order.
   */
  method PlaybackIo(data: seq<i16>, channels: nat, device: Device, calls: nat) returns (r: Result<seq<Call>, PlaybackError>)
    requires channels >= 1 && Honest(device, channels)
    ensures r.Failure? <==> data == []
    ensures r.Success? ==> r.value == Run(data, channels, device, 0, 0, calls)
  {
    var frames := |data|;
    if frames == 0 {
      return Failure(EmptyData);
    }
    var pointer: nat := 0;
    var k: nat := 0;
    var trace: seq<Call> := [];
    ghost var full := Run(data, channels, device, 0, 0, calls);
    assert trace + full == full;
    while pointer < frames - 1 && k < calls
      invariant pointer <= frames && k <= calls
      invariant trace + Run(data, channels, device, pointer, k, calls) == full
      decreases calls - k
    {
      var slice := Slice(data, pointer);
      var reply := device(k, slice);
      RunStep(data, channels, device, pointer, k, calls, trace, full);
      trace := trace + [Call(pointer, slice, reply)];
      pointer := pointer + Written(reply);
      k := k + 1;
    }
    return Success(trace);
  }

  // ---------------------------------------------------------------------------------------------
  // What reaches the device
  // ---------------------------------------------------------------------------------------------

  /** The samples the device consumed, in order: the first `frames * channels` of each slice. */
  function Delivered(trace: seq<Call>, channels: nat): seq<i16>
  {
    if trace == [] then []
    else
      var n := Written(trace[0].reply) * channels;
      (if n <= |trace[0].slice| then trace[0].slice[..n] else trace[0].slice) + Delivered(trace[1..], channels)
  }

  /** A device that always takes every whole frame it is given, as a blocking `writei` does. */
  function TakesAll(channels: nat): (device: Device)
    requires channels >= 1
    ensures Honest(device, channels)
    ensures forall k, slice :: device(k, slice) == Wrote(|slice| / channels)
  {
    (k: nat, slice: seq<i16>) => Wrote(|slice| / channels)
  }

  /**
   * On a two-channel device the pointer, which counts samples, advances by the frame count the
   * device reports: the second call starts half-way through the samples the first call already
   * delivered, so those samples are played twice.
   */
  lemma StereoReplaysSamples()
    ensures var data := seq(1024, i requires 0 <= i < 1024 => i as i16);
            var trace := Run(data, 2, TakesAll(2), 0, 0, 2);
            && |trace| == 2
            && trace[0].pointer == 0 && Written(trace[0].reply) * 2 == 512
            && trace[1].pointer == 256
            && Delivered(trace, 2) == data[..512] + data[256..768]
            && Delivered(trace, 2) != data[..1024]
  {
    var data := seq(1024, i requires 0 <= i < 1024 => i as i16);
    var device := TakesAll(2);
    var t0 := Run(data, 2, device, 0, 0, 2);
    var t1 := Run(data, 2, device, 256, 1, 2);
    assert Slice(data, 0) == data[..512];
    assert device(0, data[..512]) == Wrote(256);
    assert t0 == [Call(0, data[..512], Wrote(256))] + t1;
    assert Slice(data, 256) == data[256..768];
    assert device(1, data[256..768]) == Wrote(256);
    assert Run(data, 2, device, 512, 2, 2) == [];
    assert t1 == [Call(256, data[256..768], Wrote(256))];
    assert t0[1..] == t1;
    assert t1[1..] == [];
    assert Delivered(t1, 2) == data[256..768] + Delivered([], 2);
    var d := Delivered(t0, 2);
    assert d == data[..512] + Delivered(t1, 2);
    assert d == data[..512] + data[256..768];
    assert d[512] == 256 != data[512];
  }

  /** The loop stops once the pointer reaches `frames - 1`: a one-sample buffer is never written. */
  lemma LastSampleNeverWritten(sample: i16, channels: nat, device: Device, calls: nat)
    requires channels >= 1 && Honest(device, channels)
    ensures Run([sample], channels, device, 0, 0, calls) == []
  {
  }

  // ---------------------------------------------------------------------------------------------
  // The loop as evidently intended
  // ---------------------------------------------------------------------------------------------

  /**
   * The intended loop: run while samples remain, and advance the pointer by the number of
   * samples the device consumed (frames times channels).
   */
  function RunFixed(data: seq<i16>, channels: nat, device: Device, pointer: nat, k: nat, calls: nat): (trace: seq<Call>)
    requires pointer <= |data| && channels >= 1 && Honest(device, channels)
    decreases calls - k
  {
    if pointer >= |data| || k >= calls then []
    else
      var slice := Slice(data, pointer);
      var reply := device(k, slice);
      [Call(pointer, slice, reply)] + RunFixed(data, channels, device, pointer + Written(reply) * channels, k + 1, calls)
  }

  /** Where the intended loop's pointer stands after the calls of `trace`. */
  function EndFixed(start: nat, trace: seq<Call>, channels: nat): nat
  {
    if trace == [] then start else trace[|trace| - 1].pointer + Written(trace[|trace| - 1].reply) * channels
  }

  /** The calls of `trace`, starting at `start`, hand the device exactly the samples up to where they stop. */
  ghost predicate DeliversFrom(data: seq<i16>, channels: nat, start: nat, trace: seq<Call>)
  {
    && start <= EndFixed(start, trace, channels) <= |data|
    && Delivered(trace, channels) == data[start..EndFixed(start, trace, channels)]
  }

  lemma ConsDelivers(data: seq<i16>, channels: nat, c: Call, rest: seq<Call>)
    requires c.pointer + |c.slice| <= |data| && c.slice == data[c.pointer..c.pointer + |c.slice|]
    requires Written(c.reply) * channels <= |c.slice|
    requires DeliversFrom(data, channels, c.pointer + Written(c.reply) * channels, rest)
    ensures EndFixed(c.pointer, [c] + rest, channels) == EndFixed(c.pointer + Written(c.reply) * channels, rest, channels)
    ensures DeliversFrom(data, channels, c.pointer, [c] + rest)
  {
    var trace := [c] + rest;
    var n := Written(c.reply) * channels;
    var end := EndFixed(c.pointer + n, rest, channels);
    assert trace[1..] == rest;
    if rest != [] {
      assert trace[|trace| - 1] == rest[|rest| - 1];
    }
    assert EndFixed(c.pointer, trace, channels) == end;
    assert Delivered(trace, channels) == c.slice[..n] + Delivered(rest, channels);
    assert c.slice[..n] == data[c.pointer..c.pointer + n];
    assert data[c.pointer..end] == data[c.pointer..c.pointer + n] + data[c.pointer + n..end];
  }

  /**
   * The intended loop delivers the samples from its start to where it stops, each once and in
   * order, and it only stops short of the end when the observed calls run out.
   */
  lemma {:induction false} FixedRunDeliversInOrder(data: seq<i16>, channels: nat, device: Device, pointer: nat, k: nat, calls: nat)
    requires pointer <= |data| && channels >= 1 && Honest(device, channels)
    ensures DeliversFrom(data, channels, pointer, RunFixed(data, channels, device, pointer, k, calls))
    ensures EndFixed(pointer, RunFixed(data, channels, device, pointer, k, calls), channels) < |data| ==>
              k + |RunFixed(data, channels, device, pointer, k, calls)| >= calls
    decreases calls - k
  {
    var trace := RunFixed(data, channels, device, pointer, k, calls);
    if pointer >= |data| || k >= calls {
      assert trace == [];
    } else {
      var slice := Slice(data, pointer);
      var reply := device(k, slice);
      WrittenBounds(reply, channels, slice);
      var n := Written(reply) * channels;
      var c := Call(pointer, slice, reply);
      var rest := RunFixed(data, channels, device, pointer + n, k + 1, calls);
      assert trace == [c] + rest;
      FixedRunDeliversInOrder(data, channels, device, pointer + n, k + 1, calls);
      ConsDelivers(data, channels, c, rest);
      assert EndFixed(pointer, trace, channels) == EndFixed(pointer + n, rest, channels);
      assert |trace| == 1 + |rest|;
    }
  }

  /** With a device that takes every frame, the intended loop delivers a whole one-sample buffer. */
  lemma FixedRunDeliversSingleSample(sample: i16)
    ensures Delivered(RunFixed([sample], 1, TakesAll(1), 0, 0, 1), 1) == [sample]
  {
    var device := TakesAll(1);
    assert Slice([sample], 0) == [sample];
    assert RunFixed([sample], 1, device, 1, 1, 1) == [];
    var trace := RunFixed([sample], 1, device, 0, 0, 1);
    assert trace == [Call(0, [sample], Wrote(1))];
    assert trace[1..] == [];
  }
}
