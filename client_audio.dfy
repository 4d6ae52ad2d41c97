/** The browser side of the voice call (web/src/app.tsx): the `Playback` queue of audio frames
    received from the server and its drain step, the `Streamer` gate that decides which captured
    microphone blocks go to the server, and the dispatch of the control tokens `RDY`, `EOS`, `INT`
    and `CLR`. The audio hardware, the voice-activity detector and the socket are outside the
    model: their callbacks are the methods below and what is sent is recorded in a log. */
module ClientAudio {
  /** One block of audio samples; the sample values themselves are not modelled. */
  datatype Frame = Frame(samples: seq<int>)

  /** The block of 1024 zero samples played when the queue is empty. */
  function SilenceFrame(): (f: Frame)
    ensures |f.samples| == 1024 && forall i :: 0 <= i < 1024 ==> f.samples[i] == 0
  {
    Frame(seq(1024, _ => 0))
  }

  /** `lastFramePlayed`. */
  datatype Played = Silence | NonSilence

  /** The events `Playback` emits. */
  datatype PlaybackEvent = PlaybackStart | PlaybackEnd | Cleared(dirty: bool)

  const StartListeningToken: string := "RDY"
  const EndOfSpeechToken: string := "EOS"
  const InterruptToken: string := "INT"
  const ClearBufferToken: string := "CLR"

  /** A socket message. */
  datatype Message = Text(text: string) | Binary(frame: Frame)

  // ---------------------------------------------------------------------------------------------
  // Playback

  /** Everything a `Playback` holds or has done: its queue, the kind of the last frame played,
      the events emitted so far, whether its audio context is suspended, and how many graceful
      stops it has re-scheduled. */
  datatype PlaybackState = PlaybackState(
    samples: seq<Frame>, last: Played, events: seq<PlaybackEvent>, suspended: bool, retries: nat)

  /** One `onaudioprocess` callback: the frame it outputs and the state after it. */
  datatype Drained = Drained(out: Frame, next: PlaybackState)

  /** The drain step: the front frame if there is one, else silence; `playbackStart` when sound
      follows silence and `playbackEnd` when silence follows sound. */
  function Drain(p: PlaybackState): (d: Drained)
    ensures p.samples != [] ==>
      d.out == p.samples[0] && d.next.samples == p.samples[1..] && d.next.last == NonSilence
      && d.next.events == p.events + (if p.last == Silence then [PlaybackStart] else [])
    ensures p.samples == [] ==>
      d.out == SilenceFrame() && d.next.samples == [] && d.next.last == Silence
      && d.next.events == p.events + (if p.last == NonSilence then [PlaybackEnd] else [])
    ensures d.next.suspended == p.suspended && d.next.retries == p.retries
  {
    if |p.samples| > 0 then
      var started := if p.last == Silence then p.events + [PlaybackStart] else p.events;
      Drained(p.samples[0], p.(samples := p.samples[1..], last := NonSilence, events := started))
    else
      var ended := if p.last == NonSilence then p.events + [PlaybackEnd] else p.events;
      Drained(SilenceFrame(), p.(last := Silence, events := ended))
  }

  /** What a caller may do to a playback between audio callbacks, besides draining it. */
  datatype PlaybackOp = DrainOp | AddOp(frame: Frame)

  /** A run of drain steps and `addSamples` calls. */
  function RunOps(p: PlaybackState, ops: seq<PlaybackOp>): PlaybackState
    decreases |ops|
  {
    if ops == [] then p
    else
      var q := match ops[0]
        case DrainOp => Drain(p).next
        case AddOp(f) => p.(samples := p.samples + [f]);
      RunOps(q, ops[1..])
  }

  /** `playbackStart` and `playbackEnd` take turns, `playbackStart` first. */
  predicate Alternating(evs: seq<PlaybackEvent>) {
    (forall i :: 0 <= i < |evs| ==> evs[i] == if i % 2 == 0 then PlaybackStart else PlaybackEnd)
  }

  /** The events a run emitted are alternating, and the last of them says what was played last. */
  predicate InStep(evs: seq<PlaybackEvent>, last: Played) {
    Alternating(evs) && (last == NonSilence <==> |evs| % 2 == 1)
  }

  /** Over drain steps and `addSamples` calls, starting silent with no events, `playbackStart`
      and `playbackEnd` alternate, starting with `playbackStart`. */
  lemma {:induction false} RunOpsAlternate(p: PlaybackState, ops: seq<PlaybackOp>)
    requires InStep(p.events, p.last)
    ensures InStep(RunOps(p, ops).events, RunOps(p, ops).last)
    decreases |ops|
  {
    if ops != [] {
      var q := match ops[0]
        case DrainOp => Drain(p).next
        case AddOp(f) => p.(samples := p.samples + [f]);
      assert InStep(q.events, q.last) by {
        if ops[0].DrainOp? {
          var n := |p.events|;
          if q.events != p.events {
            assert forall i :: 0 <= i < n ==> q.events[i] == p.events[i];
          }
        }
      }
      RunOpsAlternate(q, ops[1..]);
    }
  }

  /** From a fresh playback the drain events of any run alternate, `playbackStart` first. */
  lemma FreshRunAlternates(samples: seq<Frame>, ops: seq<PlaybackOp>)
    ensures Alternating(RunOps(PlaybackState(samples, Silence, [], true, 0), ops).events)
  {
    RunOpsAlternate(PlaybackState(samples, Silence, [], true, 0), ops);
  }

  /** `clear()`: the queue is emptied, the state becomes silence without a `playbackEnd`, and the
      answer says whether anything was queued. */
  function Flushed(p: PlaybackState): (r: (bool, PlaybackState))
    ensures r.0 <==> p.samples != []
    ensures r.1.samples == [] && r.1.last == Silence && !r.1.suspended
    ensures r.1.events == p.events + [Cleared(r.0)] && PlaybackEnd !in r.1.events[|p.events|..]
  {
    var dirty := |p.samples| > 0;
    (dirty, p.(samples := [], suspended := false, events := p.events + [Cleared(dirty)], last := Silence))
  }

  /** Clearing while sound plays loses the `playbackEnd`: the next sound starts with a second
      `playbackStart` in a row, apart from the `clear` event between them. */
  lemma ClearBreaksAlternation(f: Frame, g: Frame)
    ensures var p := Drain(PlaybackState([f], Silence, [], false, 0)).next;
      var c := Flushed(p.(samples := p.samples + [g])).1;
      Drain(c.(samples := [g])).next.events == [PlaybackStart, Cleared(true), PlaybackStart]
  {
  }

  class Playback {
    var samples: seq<Frame>
    var lastFramePlayed: Played
    var events: seq<PlaybackEvent>
    var suspended: bool
    var retries: nat

    function Snapshot(): PlaybackState
      reads this
    {
      PlaybackState(samples, lastFramePlayed, events, suspended, retries)
    }

    /** `new Playback(audioContext)`: empty, silent, with its audio context suspended. */
    constructor ()
      ensures Snapshot() == PlaybackState([], Silence, [], true, 0)
    {
      samples, lastFramePlayed, events, suspended, retries := [], Silence, [], true, 0;
    }

    /** The `onaudioprocess` callback. */
    method OnAudioProcess() returns (out: Frame)
      modifies this
      ensures Drained(out, Snapshot()) == Drain(old(Snapshot()))
    {
      if |samples| > 0 {
        if lastFramePlayed == Silence {
          events := events + [PlaybackStart];
        }
        lastFramePlayed := NonSilence;
        out := samples[0];
        samples := samples[1..];
      } else {
        if lastFramePlayed == NonSilence {
          events := events + [PlaybackEnd];
        }
        lastFramePlayed := Silence;
        out := SilenceFrame();
      }
    }

    method Clear() returns (dirty: bool)
      modifies this
      ensures (dirty, Snapshot()) == Flushed(old(Snapshot()))
    {
      suspended := true;
      dirty := |samples| > 0;
      samples := [];
      suspended := false;
      events := events + [Cleared(dirty)];
      lastFramePlayed := Silence;
    }

    /** `start()`. */
    method Start()
      modifies this
      ensures Snapshot() == old(Snapshot()).(suspended := false)
    {
      suspended := false;
    }

    /** `stop(graceful)`: a graceful stop with frames still queued tries again later (one more
        re-scheduled retry); with none queued it does nothing; otherwise the context is
        suspended. */
    method Stop(graceful: bool)
      modifies this
      ensures graceful && old(samples) != [] ==> Snapshot() == old(Snapshot()).(retries := old(retries) + 1)
      ensures graceful && old(samples) == [] ==> Snapshot() == old(Snapshot())
      ensures !graceful ==> Snapshot() == old(Snapshot()).(suspended := true)
    {
      if graceful {
        if |samples| > 0 {
          retries := retries + 1;
        }
      } else {
        suspended := true;
      }
    }

    /** `addSamples(frame)`: the frame joins the tail of the queue; nothing else changes. */
    method AddSamples(frame: Frame)
      modifies this
      ensures Snapshot() == old(Snapshot()).(samples := old(samples) + [frame])
    {
      samples := samples + [frame];
    }
  }

  // ---------------------------------------------------------------------------------------------
  // The socket, the streamer and the dispatch

  /** The client's socket: whether it is open, and what was sent on it. */
  class Socket {
    var open: bool
    var sent: seq<Message>

    constructor (open: bool)
      ensures this.open == open && sent == []
    {
      this.open := open;
      sent := [];
    }

    method Send(m: Message)
      modifies this
      ensures open == old(open) && sent == old(sent) + [m]
    {
      sent := sent + [m];
    }
  }

  /** Whether `Streamer` forwards a captured block: only while the socket is open and the user
      is speaking. */
  predicate Forwards(wsOpen: bool, userIsSpeaking: bool) {
    wsOpen && userIsSpeaking
  }

  class Streamer {
    const ws: Socket
    var userIsSpeaking: bool
    var speechStarts: nat

    constructor (ws: Socket)
      ensures this.ws == ws && !userIsSpeaking && speechStarts == 0
    {
      this.ws := ws;
      userIsSpeaking := false;
      speechStarts := 0;
    }

    /** The detector's `onSpeechStart`: `speechStart` is emitted (counted here; the client's
        handler for it is `Client.OnSpeechStart`) and the user is speaking. */
    method OnSpeechStart()
      modifies this
      ensures userIsSpeaking && speechStarts == old(speechStarts) + 1
    {
      speechStarts := speechStarts + 1;
      userIsSpeaking := true;
    }

    /** The detector's `onSpeechEnd`: `EOS` is sent and the user no longer speaks. */
    method OnSpeechEnd()
      modifies this, ws
      ensures !userIsSpeaking && speechStarts == old(speechStarts)
      ensures ws.sent == old(ws.sent) + [Text(EndOfSpeechToken)] && ws.open == old(ws.open)
    {
      ws.Send(Text(EndOfSpeechToken));
      userIsSpeaking := false;
    }

    /** The microphone processor's `onaudioprocess`: the block is sent only when `Forwards`. */
    method OnAudioProcess(block: Frame)
      modifies ws
      ensures ws.open == old(ws.open)
      ensures ws.sent == old(ws.sent) + if Forwards(ws.open, userIsSpeaking) then [Binary(block)] else []
    {
      if ws.open && userIsSpeaking {
        ws.Send(Binary(block));
      }
    }
  }

  /** What the client does with an inbound socket message, in terms of its playback: a binary
      message is queued, `CLR` clears the queue, `RDY` arms one voice-detection start for the
      next `playbackEnd`, and any other text is left to the dashboard. The result also says
      whether an `INT` is sent back: exactly when a `CLR` found frames queued. */
  datatype Dispatched = Dispatched(playback: PlaybackState, interrupt: bool, armed: nat)

  function Dispatch(p: PlaybackState, armed: nat, m: Message): (d: Dispatched)
    ensures d.interrupt <==> m == Text(ClearBufferToken) && p.samples != []
    ensures m.Binary? ==> d == Dispatched(p.(samples := p.samples + [m.frame]), false, armed)
    ensures m == Text(ClearBufferToken) ==> (d.interrupt, d.playback) == Flushed(p) && d.armed == armed
    ensures m == Text(StartListeningToken) ==> d.playback == p && !d.interrupt && d.armed == armed + 1
    ensures m.Text? && m.text != ClearBufferToken && m.text != StartListeningToken ==> d == Dispatched(p, false, armed)
  {
    match m
    case Binary(f) => Dispatched(p.(samples := p.samples + [f]), false, armed)
    case Text(t) =>
      if t == ClearBufferToken then
        var (dirty, q) := Flushed(p);
        Dispatched(q, dirty, armed)
      else if t == StartListeningToken then Dispatched(p, false, armed + 1)
      else Dispatched(p, false, armed)
  }

  /** The client's wiring of socket, playback and streamer. */
  class Client {
    const ws: Socket
    const playback: Playback
    const streamer: Streamer
    var armed: nat           // `once("playbackEnd")` listeners registered by `RDY`
    var vadStarts: nat       // calls of `startVoiceDetection`

    ghost predicate Valid()
      reads this, streamer
    {
      streamer.ws == ws
    }

    constructor (wsOpen: bool)
      ensures Valid() && fresh(ws) && fresh(playback) && fresh(streamer)
      ensures ws.open == wsOpen && ws.sent == [] && armed == 0 && vadStarts == 0
      ensures playback.Snapshot() == PlaybackState([], Silence, [], false, 0)
      ensures !streamer.userIsSpeaking
    {
      var socket := new Socket(wsOpen);
      var p := new Playback();
      p.Start();
      ws := socket;
      playback := p;
      streamer := new Streamer(socket);
      armed, vadStarts := 0, 0;
    }

    /** `ws.onmessage`. */
    method OnMessage(m: Message)
      requires Valid()
      modifies this, playback, ws
      ensures Valid() && ws.open == old(ws.open)
      ensures var d := Dispatch(old(playback.Snapshot()), old(armed), m);
        playback.Snapshot() == d.playback && armed == d.armed && vadStarts == old(vadStarts)
        && ws.sent == old(ws.sent) + (if d.interrupt then [Text(InterruptToken)] else [])
    {
      match m
      case Binary(f) =>
        playback.AddSamples(f);
      case Text(t) =>
        if t == ClearBufferToken {
          var dirty := playback.Clear();
          if dirty {
            ws.Send(Text(InterruptToken));
          }
        } else if t == StartListeningToken {
          armed := armed + 1;
        }
    }

    /** The streamer's `speechStart`: the user is speaking, the playback is cleared, and `INT`
        is sent exactly when frames were still queued. */
    method OnSpeechStart()
      requires Valid()
      modifies this, playback, ws, streamer
      ensures Valid() && ws.open == old(ws.open) && armed == old(armed) && vadStarts == old(vadStarts)
      ensures streamer.userIsSpeaking
      ensures var (dirty, q) := Flushed(old(playback.Snapshot()));
        playback.Snapshot() == q && ws.sent == old(ws.sent) + (if dirty then [Text(InterruptToken)] else [])
    {
      streamer.OnSpeechStart();
      var dirty := playback.Clear();
      if dirty {
        ws.Send(Text(InterruptToken));
      }
    }

    /** One audio callback of the playback: a `playbackEnd` it emits fires every armed
        `once` listener, each of which starts voice detection. */
    method OnPlaybackProcess() returns (out: Frame)
      requires Valid()
      modifies this, playback
      ensures Valid()
      ensures Drained(out, playback.Snapshot()) == Drain(old(playback.Snapshot()))
      ensures var ended := |playback.events| > |old(playback.events)|
                           && playback.events[|playback.events| - 1] == PlaybackEnd;
        armed == (if ended then 0 else old(armed))
        && vadStarts == old(vadStarts) + (if ended then old(armed) else 0)
    {
      var before := |playback.events|;
      out := playback.OnAudioProcess();
      if |playback.events| > before && playback.events[|playback.events| - 1] == PlaybackEnd {
        vadStarts := vadStarts + armed;
        armed := 0;
      }
    }
  }
}
