/**
 * The decision logic of Core/voice_whisper.py with the sound device and the
 * speech engine abstracted: choosing the input device, the order in which
 * engine configurations are tried, cutting PCM into frames, cutting the
 * voiced frames into phrases, and joining the engine's segment texts.
 *
 * Audio arrives as signed 16-bit samples (`seq<int>`); whether a frame is
 * voiced is an input, and times are integer milliseconds.
 */
module Voice {
  import opened Wrappers
  import opened Text

  // ---------------------------------------------------------------------
  // _pick_input_device
  // ---------------------------------------------------------------------

  /** One entry of `sd.query_devices()`: its name and `max_input_channels`. */
  datatype Device = Device(name: string, inputs: int)

  /** The configured `voice.input_device`: None, an int, a str, or a value
      of some other type. */
  datatype Choice = DefaultDevice | DeviceIndex(index: int) | DeviceName(needle: string) | OtherChoice

  /** The RuntimeErrors raised, and the IndexError of a default index
      outside the device list. */
  datatype Failure = DefaultUnusable | DefaultIndexError | IndexOutOfRange | NoInputChannels | NoMatch

  /** None (use the default device), a device index, or the exception. */
  datatype Picked = UseDefault | UseDevice(index: nat) | Fails(why: Failure)

  /** Python's `devices[i]`, negative indexes counting from the end. */
  function PyIndex<T>(s: seq<T>, i: int): (r: Option<T>)
    ensures r.Some? <==> -|s| <= i < |s|
    ensures r.Some? && i >= 0 ==> r.value == s[i]
    ensures r.Some? && i < 0 ==> r.value == s[|s| + i]
  {
    if 0 <= i < |s| then Some(s[i])
    else if -|s| <= i < 0 then Some(s[|s| + i])
    else None
  }

  /** The string case: the needle occurs in the name, both case-folded,
      and the device can record. */
  predicate NameMatches(d: Device, needle: string) {
    Contains(Lower(d.name), Lower(needle)) && d.inputs > 0
  }

  /** The first matching device. */
  function FirstNamed(devices: seq<Device>, needle: string): (r: Option<nat>)
    ensures r.Some? ==> r.value < |devices| && NameMatches(devices[r.value], needle)
    ensures r.Some? ==> forall j :: 0 <= j < r.value ==> !NameMatches(devices[j], needle)
    ensures r.None? ==> forall j :: 0 <= j < |devices| ==> !NameMatches(devices[j], needle)
    decreases |devices|
  {
    if |devices| == 0 then None
    else if NameMatches(devices[0], needle) then Some(0)
    else
      var r := FirstNamed(devices[1..], needle);
      assert forall j :: 1 <= j < |devices| ==> devices[1..][j - 1] == devices[j];
      if r.None? then None else Some(r.value + 1)
  }

  /** `_pick_input_device(choice)`; `defaultIn` is the input half of
      `sd.default.device`, None when reading it raised. */
  function PickInputDevice(devices: seq<Device>, choice: Choice, defaultIn: Option<int>): (r: Picked)
    ensures r.UseDevice? ==> r.index < |devices| && devices[r.index].inputs > 0
  {
    match choice
    case DefaultDevice =>
      if defaultIn.None? then Fails(DefaultUnusable)
      else
        var d := PyIndex(devices, defaultIn.value);
        if d.None? then Fails(DefaultIndexError)
        else if d.value.inputs <= 0 then Fails(DefaultUnusable)
        else UseDefault
    case DeviceIndex(i) =>
      if i < 0 || i >= |devices| then Fails(IndexOutOfRange)
      else if devices[i].inputs <= 0 then Fails(NoInputChannels)
      else UseDevice(i)
    case DeviceName(needle) =>
      var k := FirstNamed(devices, needle);
      if k.Some? then UseDevice(k.value) else Fails(NoMatch)
    case OtherChoice => UseDefault
  }

  /** With no choice the default device is used exactly when it exists and
      has an input channel. */
  lemma PickDefault(devices: seq<Device>, defaultIn: Option<int>)
    ensures PickInputDevice(devices, DefaultDevice, defaultIn) == UseDefault <==>
      defaultIn.Some? && PyIndex(devices, defaultIn.value).Some? && PyIndex(devices, defaultIn.value).value.inputs > 0
    ensures PickInputDevice(devices, DefaultDevice, defaultIn) != UseDefault ==> PickInputDevice(devices, DefaultDevice, defaultIn).Fails?
  {
  }

  /** An index is taken exactly when it is in range and the device records;
      otherwise the pick fails. */
  lemma PickIndex(devices: seq<Device>, i: int, defaultIn: Option<int>)
    ensures PickInputDevice(devices, DeviceIndex(i), defaultIn).UseDevice? <==> 0 <= i < |devices| && devices[i].inputs > 0
    ensures PickInputDevice(devices, DeviceIndex(i), defaultIn).UseDevice? ==> PickInputDevice(devices, DeviceIndex(i), defaultIn).index == i
    ensures PickInputDevice(devices, DeviceIndex(i), defaultIn).Fails? <==> !(0 <= i < |devices| && devices[i].inputs > 0)
  {
  }

  /** A name picks the first recording device whose name contains it, and
      fails when there is none. */
  lemma PickName(devices: seq<Device>, needle: string, defaultIn: Option<int>, k: nat)
    requires k < |devices| && NameMatches(devices[k], needle)
    requires forall j :: 0 <= j < k ==> !NameMatches(devices[j], needle)
    ensures PickInputDevice(devices, DeviceName(needle), defaultIn) == UseDevice(k)
  {
  }

  lemma PickNoName(devices: seq<Device>, needle: string, defaultIn: Option<int>)
    requires forall j :: 0 <= j < |devices| ==> !NameMatches(devices[j], needle)
    ensures PickInputDevice(devices, DeviceName(needle), defaultIn) == Fails(NoMatch)
  {
  }

  /** The letter case of the name and the needle does not matter. */
  lemma PickNameCaseless(devices: seq<Device>, needle: string, defaultIn: Option<int>)
    ensures PickInputDevice(devices, DeviceName(Lower(needle)), defaultIn) == PickInputDevice(devices, DeviceName(needle), defaultIn)
  {
    LowerIsLower(needle);
    LowerIdempotent(Lower(needle));
    assert forall d: Device :: NameMatches(d, Lower(needle)) == NameMatches(d, needle);
    FirstNamedSame(devices, Lower(needle), needle);
  }

  lemma {:induction false} FirstNamedSame(devices: seq<Device>, a: string, b: string)
    requires forall d: Device :: NameMatches(d, a) == NameMatches(d, b)
    ensures FirstNamed(devices, a) == FirstNamed(devices, b)
    decreases |devices|
  {
    if |devices| > 0 {
      FirstNamedSame(devices[1..], a, b);
    }
  }

  // ---------------------------------------------------------------------
  // _init_model
  // ---------------------------------------------------------------------

  /** A (device, compute_type) pair handed to `WhisperModel`. */
  datatype Engine = Engine(device: string, compute: string)

  /** Whether constructing `WhisperModel` with that pair succeeds. */
  type Constructs = Engine -> bool

  /** The engines tried, in order, and the one kept; None when the last
      attempt raised out of `_init_model`. */
  datatype Init = Init(tried: seq<Engine>, chosen: Option<Engine>)

  /** The compute type of the CPU paths. */
  function CpuCompute(compute: string): string {
    if compute == "auto" then "int8" else compute
  }

  /** The compute types `_try_gpu_with` is given. */
  function GpuCandidates(compute: string): (r: seq<string>)
    ensures |r| == 3 && r[1] == "int8_float16" && r[2] == "float32"
  {
    if compute == "auto" then ["float16", "int8_float16", "float32"]
    else [compute, "int8_float16", "float32"]
  }

  /** The CUDA engines `_try_gpu_with` attempts: each candidate in order up
      to and including the first that constructs. */
  function GpuTries(comps: seq<string>, ok: Constructs): (r: seq<Engine>)
    ensures |r| <= |comps|
    ensures forall i :: 0 <= i < |r| ==> r[i] == Engine("cuda", comps[i])
    ensures forall i :: 0 <= i < |r| - 1 ==> !ok(r[i])
    ensures |r| < |comps| ==> |r| > 0 && ok(r[|r| - 1])
    decreases |comps|
  {
    if |comps| == 0 then []
    else if ok(Engine("cuda", comps[0])) then [Engine("cuda", comps[0])]
    else
      var rest := GpuTries(comps[1..], ok);
      assert forall i :: 1 <= i < |comps| ==> comps[1..][i - 1] == comps[i];
      [Engine("cuda", comps[0])] + rest
  }

  /** Whether some candidate constructs on CUDA. */
  predicate GpuWorks(comps: seq<string>, ok: Constructs) {
    exists i :: 0 <= i < |comps| && ok(Engine("cuda", comps[i]))
  }

  /** `_init_model(request_device, request_compute)`, both already lower-cased. */
  function InitModel(device: string, compute: string, ok: Constructs): (r: Init)
    ensures |r.tried| > 0
    ensures r.chosen.Some? ==> r.chosen.value == r.tried[|r.tried| - 1] && ok(r.chosen.value)
    ensures r.chosen.None? ==> !ok(r.tried[|r.tried| - 1])
  {
    if device == "gpu" || device == "cuda" || device == "auto" then
      var tries := GpuTries(GpuCandidates(compute), ok);
      if ok(tries[|tries| - 1]) then Init(tries, Some(tries[|tries| - 1]))
      else
        var cpu := Engine("cpu", "int8");
        Init(tries + [cpu], if ok(cpu) then Some(cpu) else None)
    else
      var cpu := Engine("cpu", CpuCompute(compute));
      Init([cpu], if ok(cpu) then Some(cpu) else None)
  }

  /** The loop of `_try_gpu_with`: the first compute type that constructs. */
  method TryGpuWith(comps: seq<string>, ok: Constructs) returns (found: Option<string>, tried: seq<Engine>)
    ensures tried == GpuTries(comps, ok)
    ensures found.Some? <==> GpuWorks(comps, ok)
    ensures found.Some? ==> tried[|tried| - 1] == Engine("cuda", found.value)
  {
    tried := [];
    for i := 0 to |comps|
      invariant |tried| == i
      invariant forall j :: 0 <= j < i ==> tried[j] == Engine("cuda", comps[j]) && !ok(tried[j])
    {
      var e := Engine("cuda", comps[i]);
      if ok(e) {
        tried := tried + [e];
        GpuTriesFirst(comps, ok, i);
        assert forall j :: 0 <= j < |tried| ==> tried[j] == GpuTries(comps, ok)[j];
        return Some(comps[i]), tried;
      }
      tried := tried + [e];
    }
    ghost var r := GpuTries(comps, ok);
    assert |r| == |comps|;
    assert forall j :: 0 <= j < |tried| ==> tried[j] == r[j];
    return None, tried;
  }

  /** Asking for the CPU, or for any device other than gpu/cuda/auto, tries
      exactly one CPU engine and never CUDA. */
  lemma CpuNeverTriesGpu(device: string, compute: string, ok: Constructs)
    requires device != "gpu" && device != "cuda" && device != "auto"
    ensures InitModel(device, compute, ok).tried == [Engine("cpu", CpuCompute(compute))]
    ensures forall e :: e in InitModel(device, compute, ok).tried ==> e.device == "cpu"
  {
  }

  /** On the GPU paths the first constructing candidate is kept; when none
      constructs, CPU "int8" is tried last. */
  lemma GpuOrder(device: string, compute: string, ok: Constructs, k: nat)
    requires device == "gpu" || device == "cuda" || device == "auto"
    requires k < 3 && ok(Engine("cuda", GpuCandidates(compute)[k]))
    requires forall j :: 0 <= j < k ==> !ok(Engine("cuda", GpuCandidates(compute)[j]))
    ensures InitModel(device, compute, ok).chosen == Some(Engine("cuda", GpuCandidates(compute)[k]))
    ensures |InitModel(device, compute, ok).tried| == k + 1
  {
    GpuTriesFirst(GpuCandidates(compute), ok, k);
  }

  lemma {:induction false} GpuTriesFirst(comps: seq<string>, ok: Constructs, k: nat)
    requires k < |comps| && ok(Engine("cuda", comps[k]))
    requires forall j :: 0 <= j < k ==> !ok(Engine("cuda", comps[j]))
    ensures |GpuTries(comps, ok)| == k + 1
    decreases k
  {
    if k > 0 {
      assert forall j :: 0 <= j < k - 1 ==> comps[1..][j] == comps[j + 1];
      GpuTriesFirst(comps[1..], ok, k - 1);
    }
  }

  lemma GpuFallback(device: string, compute: string, ok: Constructs)
    requires device == "gpu" || device == "cuda" || device == "auto"
    requires forall j :: 0 <= j < 3 ==> !ok(Engine("cuda", GpuCandidates(compute)[j]))
    ensures InitModel(device, compute, ok).tried ==
      [Engine("cuda", GpuCandidates(compute)[0]), Engine("cuda", "int8_float16"), Engine("cuda", "float32"), Engine("cpu", "int8")]
    ensures InitModel(device, compute, ok).chosen == if ok(Engine("cpu", "int8")) then Some(Engine("cpu", "int8")) else None
  {
    var comps := GpuCandidates(compute);
    var t := GpuTries(comps, ok);
    assert |t| == 3;
  }

  // ---------------------------------------------------------------------
  // _iter_frames
  // ---------------------------------------------------------------------

  /** The whole frames of `samples`, in order; a partial last frame is
      dropped. */
  function Frames(samples: seq<int>, size: nat): (r: seq<seq<int>>)
    requires size > 0
    ensures forall k :: 0 <= k < |r| ==> |r[k]| == size
    decreases |samples|
  {
    if |samples| < size then [] else [samples[..size]] + Frames(samples[size..], size)
  }

  /** The frames from offset `off` on: the chunk there, if whole, then the
      frames after it. */
  lemma FramesFrom(samples: seq<int>, size: nat, off: nat)
    requires size > 0 && off <= |samples|
    ensures off + size <= |samples| ==>
      Frames(samples[off..], size) == [samples[off..off + size]] + Frames(samples[off + size..], size)
    ensures off + size > |samples| ==> Frames(samples[off..], size) == []
  {
    var r := samples[off..];
    if off + size <= |samples| {
      assert r[..size] == samples[off..off + size] && r[size..] == samples[off + size..];
    }
  }

  /** All samples of the frames, in order. */
  function Flatten(frames: seq<seq<int>>): seq<int>
    decreases |frames|
  {
    if |frames| == 0 then [] else frames[0] + Flatten(frames[1..])
  }

  /** Laid end to end the frames are the samples up to the last whole
      frame; what is left over is shorter than a frame. */
  lemma {:induction false} FramesCover(samples: seq<int>, size: nat)
    requires size > 0
    ensures var n := |Frames(samples, size)|;
      n * size <= |samples| < n * size + size && Flatten(Frames(samples, size)) == samples[..n * size]
    decreases |samples|
  {
    if |samples| >= size {
      var rest := samples[size..];
      FramesCover(rest, size);
      var fr, tail := Frames(samples, size), Frames(rest, size);
      assert fr[0] == samples[..size] && fr[1..] == tail;
      var m := |tail|;
      var t := m * size;
      MulSucc(m, size);
      SliceJoin(samples, size, t);
    }
  }

  lemma MulSucc(m: nat, size: nat)
    ensures (m + 1) * size == m * size + size
  {
  }

  lemma SliceJoin(s: seq<int>, a: nat, b: nat)
    requires a + b <= |s|
    ensures s[..a] + s[a..][..b] == s[..a + b]
  {
  }

  /** There are `|samples| // size` frames, and `|samples| % size` samples
      are dropped. */
  lemma FramesCount(samples: seq<int>, size: nat)
    requires size > 0
    ensures |Frames(samples, size)| == |samples| / size
    ensures |Flatten(Frames(samples, size))| == |samples| - |samples| % size
  {
    FramesCover(samples, size);
    DivUnique(|samples|, size, |Frames(samples, size)|);
  }

  lemma {:induction false} MulAtLeast(d: nat, x: nat)
    requires x >= 1
    ensures d * x >= d
    decreases x
  {
    if x > 1 {
      MulAtLeast(d, x - 1);
      assert d * x == d * (x - 1) + d;
    }
  }

  /** Floor division is determined by its bounds. */
  lemma DivUnique(n: nat, d: nat, q: nat)
    requires d > 0 && q * d <= n < q * d + d
    ensures n / d == q
  {
    var k := n / d;
    assert d * k + n % d == n;
    if k > q {
      assert d * k == d * (k - q) + d * q;
      MulAtLeast(d, k - q);
    } else if k < q {
      assert d * q == d * (q - k) + d * k;
      MulAtLeast(d, q - k);
    }
  }

  /** `_iter_frames(pcm)`: the chunks of `range(0, n, frame_samples)` that
      have a full `frame_samples` samples. */
  method IterFrames(samples: seq<int>, size: nat) returns (frames: seq<seq<int>>)
    requires size > 0
    ensures frames == Frames(samples, size)
  {
    frames := [];
    var n := |samples|;
    if n <= 0 {
      return;
    }
    var off := 0;
    while off < n
      invariant 0 <= off <= n + size
      invariant off <= n ==> frames + Frames(samples[off..], size) == Frames(samples, size)
      invariant off > n ==> frames == Frames(samples, size)
      decreases n - off
    {
      var end := if off + size <= n then off + size else n;
      var chunk := samples[off..end];
      FramesFrom(samples, size, off);
      if |chunk| == size {
        frames := frames + [chunk];
      }
      off := off + size;
    }
  }

  // ---------------------------------------------------------------------
  // The segmentation loop of listen_forever
  // ---------------------------------------------------------------------

  /** A frame of the chunk just read: its samples, whether its level reached
      the threshold, and the clock when it was examined. */
  datatype Frame = Frame(samples: seq<int>, voiced: bool, at: int)

  /** One turn of the `while not self._stop` loop: the frames of the chunk
      read (none when the queue was empty) and the clock after them. */
  datatype Poll = Poll(frames: seq<Frame>, now: int)

  /** `phrase_buf` (as samples), `last_voiced_ts` and `phrase_start_ts`. */
  datatype Phrase = Phrase(buf: seq<int>, lastVoiced: int, start: Option<int>)

  /** `sample_rate`, `silence_seconds`, `phrase_timeout` and `min_phrase_ms`,
      the durations in milliseconds. */
  datatype Timing = Timing(sampleRate: nat, silenceMs: int, timeoutMs: int, minPhraseMs: int)

  /** The segment texts the engine produces for a buffer. */
  type Recognizer = seq<int> -> seq<string>

  /** The frames of one chunk, in order: only voiced frames are buffered,
      and the first one opens the phrase. */
  function Absorb(p: Phrase, frames: seq<Frame>): Phrase
    decreases |frames|
  {
    if |frames| == 0 then p
    else
      var f := frames[0];
      var next := if f.voiced then Phrase(p.buf + f.samples, f.at, if p.start.None? then Some(f.at) else p.start) else p;
      Absorb(next, frames[1..])
  }

  /** The voiced samples of `frames`, in order. */
  function Voiced(frames: seq<Frame>): seq<int>
    decreases |frames|
  {
    if |frames| == 0 then [] else (if frames[0].voiced then frames[0].samples else []) + Voiced(frames[1..])
  }

  /** When the first voiced frame of `frames` was examined. */
  function FirstVoicedAt(frames: seq<Frame>): Option<int>
    decreases |frames|
  {
    if |frames| == 0 then None
    else if frames[0].voiced then Some(frames[0].at)
    else FirstVoicedAt(frames[1..])
  }

  predicate SilenceDue(t: Timing, p: Phrase, now: int) {
    |p.buf| > 0 && now - p.lastVoiced >= t.silenceMs
  }

  predicate TimeoutDue(t: Timing, p: Phrase, now: int) {
    |p.buf| > 0 && p.start.Some? && now - p.start.value >= t.timeoutMs
  }

  /** `dur_ms >= min_phrase_ms` with `dur_ms = samples / sample_rate * 1000`,
      compared exactly. */
  predicate LongEnough(t: Timing, buf: seq<int>) {
    |buf| * 1000 >= t.minPhraseMs * t.sampleRate
  }

  /** What one turn leaves: the phrase state, the buffer handed to the
      engine if any, and the text yielded if any. */
  datatype Turn = Turn(next: Phrase, heard: Option<seq<int>>, said: Option<string>)

  /** A flush: transcribe a long enough buffer, yield a non-empty text,
      and clear the buffer and the start time. */
  function Flush(t: Timing, p: Phrase, rec: Recognizer): Turn {
    var cleared := Phrase([], p.lastVoiced, None);
    if LongEnough(t, p.buf) then
      var text := Transcript(rec(p.buf));
      Turn(cleared, Some(p.buf), if text != "" then Some(text) else None)
    else Turn(cleared, None, None)
  }

  /** One turn: absorb the frames, then the silence flush, else the timeout
      flush. */
  function PollStep(t: Timing, p: Phrase, poll: Poll, rec: Recognizer): Turn {
    Decide(t, Absorb(p, poll.frames), poll.now, rec)
  }

  /** The checks after the frames of a turn are absorbed. */
  function Decide(t: Timing, q: Phrase, now: int, rec: Recognizer): Turn {
    if SilenceDue(t, q, now) then Flush(t, q, rec)
    else if TimeoutDue(t, q, now) then Flush(t, q, rec)
    else Turn(q, None, None)
  }

  /** The texts yielded over a run of turns. */
  function Said(t: Timing, p: Phrase, polls: seq<Poll>, rec: Recognizer): seq<string>
    decreases |polls|
  {
    if |polls| == 0 then []
    else
      var turn := PollStep(t, p, polls[0], rec);
      (if turn.said.Some? then [turn.said.value] else []) + Said(t, turn.next, polls[1..], rec)
  }

  /** The buffers handed to the engine over a run of turns. */
  function Heard(t: Timing, p: Phrase, polls: seq<Poll>, rec: Recognizer): seq<seq<int>>
    decreases |polls|
  {
    if |polls| == 0 then []
    else
      var turn := PollStep(t, p, polls[0], rec);
      (if turn.heard.Some? then [turn.heard.value] else []) + Heard(t, turn.next, polls[1..], rec)
  }

  /** The buffer is empty exactly when no phrase has started. */
  predicate Valid(p: Phrase) {
    |p.buf| == 0 <==> p.start.None?
  }

  /** Frames from `_iter_frames` are never empty. */
  predicate Whole(frames: seq<Frame>) {
    forall i :: 0 <= i < |frames| ==> |frames[i].samples| > 0
  }

  lemma {:induction false} AbsorbFacts(p: Phrase, frames: seq<Frame>)
    ensures Absorb(p, frames).buf == p.buf + Voiced(frames)
    ensures Absorb(p, frames).start == if p.start.Some? then p.start else FirstVoicedAt(frames)
    decreases |frames|
  {
    if |frames| > 0 {
      var f := frames[0];
      var next := if f.voiced then Phrase(p.buf + f.samples, f.at, if p.start.None? then Some(f.at) else p.start) else p;
      AbsorbFacts(next, frames[1..]);
    }
  }

  lemma {:induction false} AbsorbValid(p: Phrase, frames: seq<Frame>)
    requires Valid(p) && Whole(frames)
    ensures Valid(Absorb(p, frames))
    decreases |frames|
  {
    if |frames| > 0 {
      var f := frames[0];
      var next := if f.voiced then Phrase(p.buf + f.samples, f.at, if p.start.None? then Some(f.at) else p.start) else p;
      AbsorbValid(next, frames[1..]);
    }
  }

  /** Every turn keeps the buffer and the start time in step. */
  lemma PollStepValid(t: Timing, p: Phrase, poll: Poll, rec: Recognizer)
    requires Valid(p) && Whole(poll.frames)
    ensures Valid(PollStep(t, p, poll, rec).next)
  {
    AbsorbValid(p, poll.frames);
  }

  /** Only voiced frames are buffered, and the start time is that of the
      first voiced frame of the phrase. */
  lemma TurnBuffers(t: Timing, p: Phrase, poll: Poll, rec: Recognizer)
    ensures var q := Absorb(p, poll.frames);
      q.buf == p.buf + Voiced(poll.frames) && q.start == (if p.start.Some? then p.start else FirstVoicedAt(poll.frames))
    ensures var turn := PollStep(t, p, poll, rec);
      turn.next.buf == [] || turn.next.buf == p.buf + Voiced(poll.frames)
  {
    AbsorbFacts(p, poll.frames);
  }

  /** A flush happens exactly when the silence or the timeout is due; it
      clears the buffer and the start time, hands the buffer to the engine
      only when it is long enough, and yields only a non-empty text. */
  lemma TurnFlush(t: Timing, p: Phrase, poll: Poll, rec: Recognizer)
    ensures var q := Absorb(p, poll.frames); var turn := PollStep(t, p, poll, rec);
      (SilenceDue(t, q, poll.now) || TimeoutDue(t, q, poll.now)) ==>
        turn.next.buf == [] && turn.next.start.None? &&
        (turn.heard.Some? <==> LongEnough(t, q.buf)) &&
        (turn.heard.Some? ==> turn.heard.value == q.buf)
    ensures var q := Absorb(p, poll.frames); var turn := PollStep(t, p, poll, rec);
      !(SilenceDue(t, q, poll.now) || TimeoutDue(t, q, poll.now)) ==> turn == Turn(q, None, None)
    ensures var turn := PollStep(t, p, poll, rec); turn.said.Some? ==> turn.heard.Some? && turn.said.value != ""
  {
  }

  /** A phrase shorter than `min_phrase_ms` never reaches the engine. */
  lemma {:induction false} HeardLongEnough(t: Timing, p: Phrase, polls: seq<Poll>, rec: Recognizer)
    ensures forall b :: b in Heard(t, p, polls, rec) ==> LongEnough(t, b)
    decreases |polls|
  {
    if |polls| > 0 {
      var turn := PollStep(t, p, polls[0], rec);
      HeardLongEnough(t, turn.next, polls[1..], rec);
    }
  }

  /** No yielded text is empty. */
  lemma {:induction false} SaidNonEmpty(t: Timing, p: Phrase, polls: seq<Poll>, rec: Recognizer)
    ensures forall s :: s in Said(t, p, polls, rec) ==> s != ""
    decreases |polls|
  {
    if |polls| > 0 {
      var turn := PollStep(t, p, polls[0], rec);
      SaidNonEmpty(t, turn.next, polls[1..], rec);
    }
  }

  /** The segmentation loop over `polls`, starting with an empty buffer and
      `last_voiced_ts` set to `t0`; requires a positive sample rate, which
      the duration divides by. */
  method ListenLoop(t: Timing, polls: seq<Poll>, rec: Recognizer, t0: int) returns (said: seq<string>)
    requires t.sampleRate > 0
    ensures said == Said(t, Phrase([], t0, None), polls, rec)
  {
    var buf: seq<int> := [];
    var lastVoiced := t0;
    var start: Option<int> := None;
    said := [];
    var i := 0;
    while i < |polls|
      invariant 0 <= i <= |polls|
      invariant said + Said(t, Phrase(buf, lastVoiced, start), polls[i..], rec) == Said(t, Phrase([], t0, None), polls, rec)
    {
      ghost var p := Phrase(buf, lastVoiced, start);
      var text;
      buf, lastVoiced, start, text := PollTurn(t, buf, lastVoiced, start, polls[i], rec);
      SaidAdvance(t, p, polls, i, rec, said, Phrase(buf, lastVoiced, start), text);
      if text.Some? {
        said := said + [text.value];
      }
      i := i + 1;
    }
  }

  /** `Said` after its first turn. */
  lemma SaidCons(t: Timing, p: Phrase, polls: seq<Poll>, rec: Recognizer)
    requires |polls| > 0
    ensures var turn := PollStep(t, p, polls[0], rec);
      Said(t, p, polls, rec) == (if turn.said.Some? then [turn.said.value] else []) + Said(t, turn.next, polls[1..], rec)
  {
  }

  /** The loop invariant of `ListenLoop` across turn `i`. */
  lemma SaidAdvance(t: Timing, p: Phrase, polls: seq<Poll>, i: nat, rec: Recognizer, said: seq<string>,
                    q: Phrase, text: Option<string>)
    requires i < |polls|
    requires q == PollStep(t, p, polls[i], rec).next && text == PollStep(t, p, polls[i], rec).said
    ensures said + Said(t, p, polls[i..], rec) ==
      (if text.Some? then said + [text.value] else said) + Said(t, q, polls[i + 1..], rec)
  {
    var ps := polls[i..];
    assert ps[0] == polls[i] && ps[1..] == polls[i + 1..];
    SaidCons(t, p, ps, rec);
    var rest := Said(t, q, polls[i + 1..], rec);
    assert Said(t, p, ps, rec) == (if text.Some? then [text.value] else []) + rest;
    AppendSaid(said, text, rest);
  }

  lemma AppendSaid(said: seq<string>, text: Option<string>, rest: seq<string>)
    ensures said + ((if text.Some? then [text.value] else []) + rest) ==
      (if text.Some? then said + [text.value] else said) + rest
  {
    if text.None? {
      assert said + [] == said;
    }
  }

  /** One turn of the `while True` loop: the frames, then the checks. */
  method PollTurn(t: Timing, buf0: seq<int>, last0: int, start0: Option<int>, poll: Poll, rec: Recognizer)
    returns (buf: seq<int>, lastVoiced: int, start: Option<int>, said: Option<string>)
    requires t.sampleRate > 0
    ensures var turn := PollStep(t, Phrase(buf0, last0, start0), poll, rec);
      Phrase(buf, lastVoiced, start) == turn.next && said == turn.said
  {
    buf, lastVoiced, start := AbsorbFrames(buf0, last0, start0, poll.frames);
    buf, start, said := Respond(t, buf, lastVoiced, start, poll.now, rec);
  }

  /** The inner `for` loop over one poll's frames. */
  method AbsorbFrames(buf0: seq<int>, last0: int, start0: Option<int>, frames: seq<Frame>)
    returns (buf: seq<int>, lastVoiced: int, start: Option<int>)
    ensures Phrase(buf, lastVoiced, start) == Absorb(Phrase(buf0, last0, start0), frames)
  {
    buf, lastVoiced, start := buf0, last0, start0;
    for j := 0 to |frames|
      invariant Absorb(Phrase(buf, lastVoiced, start), frames[j..]) == Absorb(Phrase(buf0, last0, start0), frames)
    {
      assert frames[j..][1..] == frames[j + 1..];
      if frames[j].voiced {
        buf := buf + frames[j].samples;
        lastVoiced := frames[j].at;
        if start.None? {
          start := Some(lastVoiced);
        }
      }
    }
  }

  /** The silence check, then the timeout check, at time `now`. */
  method Respond(t: Timing, buf0: seq<int>, lastVoiced: int, start0: Option<int>, now: int, rec: Recognizer)
    returns (buf: seq<int>, start: Option<int>, said: Option<string>)
    requires t.sampleRate > 0
    ensures var d := Decide(t, Phrase(buf0, lastVoiced, start0), now, rec);
      d.next == Phrase(buf, lastVoiced, start) && d.said == said
  {
    buf, start, said := buf0, start0, None;
    if |buf| > 0 && now - lastVoiced >= t.silenceMs {
      said := Transcribed(t, buf, rec);
      buf, start := [], None;
      return;
    }
    if |buf| > 0 && start.Some? && now - start.value >= t.timeoutMs {
      said := Transcribed(t, buf, rec);
      buf, start := [], None;
    }
  }

  /** The text a flushed buffer yields: transcribed only when long enough,
      and yielded only when non-empty. */
  method Transcribed(t: Timing, buf: seq<int>, rec: Recognizer) returns (said: Option<string>)
    requires t.sampleRate > 0
    ensures said == Flush(t, Phrase(buf, 0, None), rec).said
  {
    said := None;
    ghost var p := Phrase(buf, 0, None);
    if LongEnough(t, buf) {
      var text := TranscribeBytes(rec(buf));
      assert Flush(t, p, rec).said == if text != "" then Some(text) else None;
      if text != "" {
        said := Some(text);
      }
    } else {
      assert Flush(t, p, rec).said == None;
    }
  }

  // ---------------------------------------------------------------------
  // _transcribe_bytes
  // ---------------------------------------------------------------------

  /** The pieces kept: each non-empty segment text, stripped. A text of
      spaces only is non-empty and gives an empty piece. */
  function Pieces(segs: seq<string>): (r: seq<string>)
    ensures |r| <= |segs|
  {
    NonEmptyMapped(segs, Strip)
  }

  /** The images under `f` of the non-empty texts, in order. */
  function NonEmptyMapped(segs: seq<string>, f: string -> string): (r: seq<string>)
    ensures |r| <= |segs|
    decreases |segs|
  {
    if |segs| == 0 then []
    else
      var init := NonEmptyMapped(segs[..|segs| - 1], f);
      var last := segs[|segs| - 1];
      if last != "" then init + [f(last)] else init
  }

  lemma MappedSnoc(segs: seq<string>, last: string, f: string -> string)
    ensures NonEmptyMapped(segs + [last], f) == if last != "" then NonEmptyMapped(segs, f) + [f(last)] else NonEmptyMapped(segs, f)
  {
    assert (segs + [last])[..|segs|] == segs;
  }

  lemma MappedThree(s: seq<string>, f: string -> string)
    requires |s| == 3 && s[0] != "" && s[1] != "" && s[2] != ""
    ensures NonEmptyMapped(s, f) == [f(s[0]), f(s[1]), f(s[2])]
  {
    var s2 := s[..2];
    var s1 := s2[..1];
    assert s1[..0] == [];
    assert NonEmptyMapped(s1, f) == [f(s[0])];
    assert NonEmptyMapped(s2, f) == [f(s[0]), f(s[1])];
  }

  /** `" ".join(texts).strip()`. */
  function Transcript(segs: seq<string>): (r: string)
    ensures IsStripped(r)
  {
    Strip(Join(Pieces(segs), " "))
  }

  /** The loop of `_transcribe_bytes` over the segments. */
  method TranscribeBytes(segs: seq<string>) returns (text: string)
    ensures text == Transcript(segs)
  {
    var texts: seq<string> := [];
    for i := 0 to |segs|
      invariant texts == Pieces(segs[..i])
    {
      assert segs[..i + 1] == segs[..i] + [segs[i]];
      MappedSnoc(segs[..i], segs[i], Strip);
      if segs[i] != "" {
        texts := texts + [Strip(segs[i])];
      }
    }
    assert segs[..|segs|] == segs;
    text := Strip(Join(texts, " "));
  }

  /** A word: non-empty, without whitespace. */
  predicate Word(s: string) {
    |s| > 0 && forall i :: 0 <= i < |s| ==> !IsSpace(s[i])
  }

  /** Segments that are single words come back joined by single spaces. */
  lemma {:induction false} TranscriptOfWords(segs: seq<string>)
    requires forall i :: 0 <= i < |segs| ==> Word(segs[i])
    ensures Transcript(segs) == Join(segs, " ")
  {
    WordPieces(segs);
    JoinEdges(segs);
    StripOfStripped(Join(segs, " "));
  }

  lemma {:induction false} WordPieces(segs: seq<string>)
    requires forall i :: 0 <= i < |segs| ==> Word(segs[i])
    ensures Pieces(segs) == segs
    decreases |segs|
  {
    if |segs| > 0 {
      var init := segs[..|segs| - 1];
      WordPieces(init);
      var last := segs[|segs| - 1];
      StripOfStripped(last);
      assert init + [last] == segs;
      MappedSnoc(init, last, Strip);
    }
  }

  /** A join of words starts and ends with a non-space. */
  lemma {:induction false} JoinEdges(parts: seq<string>)
    requires forall i :: 0 <= i < |parts| ==> Word(parts[i])
    ensures IsStripped(Join(parts, " "))
    ensures |parts| > 0 ==> |Join(parts, " ")| > 0 && Join(parts, " ")[0] == parts[0][0]
    decreases |parts|
  {
    if |parts| > 1 {
      JoinEdges(parts[1..]);
      var rest := Join(parts[1..], " ");
      assert Join(parts, " ") == parts[0] + " " + rest;
      assert Join(parts, " ")[|Join(parts, " ")| - 1] == rest[|rest| - 1];
    }
  }

  /** A segment text of spaces only is not skipped: it leaves an empty piece
      and so a double space between its neighbours. */
  lemma BlankSegmentKept()
    ensures Transcript(["hi", " ", "there"]) == "hi  there"
  {
    MappedThree(["hi", " ", "there"], Strip);
    HiThereStrips();
    JoinThree("hi", "", "there", " ");
    HiThereJoin();
  }

  lemma HiThereStrips()
    ensures Strip("hi") == "hi" && Strip(" ") == "" && Strip("there") == "there"
    ensures Strip("hi  there") == "hi  there"
  {
    StrippedWord("hi");
    StripBlank(" ");
    StrippedWord("there");
    StrippedWord("hi  there");
  }

  /** A text that starts and ends with a letter is its own `strip()`. */
  lemma StrippedWord(s: string)
    requires |s| > 0 && 'a' <= s[0] <= 'z' && 'a' <= s[|s| - 1] <= 'z'
    ensures Strip(s) == s
  {
    StripOfStripped(s);
  }

  lemma HiThereJoin()
    ensures "hi" + " " + "" + " " + "there" == "hi  there"
  {
  }

  lemma JoinThree(a: string, b: string, c: string, sep: string)
    ensures Join([a, b, c], sep) == a + sep + b + sep + c
  {
    assert [a, b, c][1..] == [b, c] && [b, c][1..] == [c];
    assert Join([b, c], sep) == b + sep + c;
    assert a + sep + (b + sep + c) == a + sep + b + sep + c;
  }
}
