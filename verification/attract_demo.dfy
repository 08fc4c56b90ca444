/** The attract-mode controller (Assets/Scripts/AttractVideoDemo.cs): after `idleSeconds`
    without human input the demo video is shown (and the game paused when configured); any
    input ends it. The unscaled clock and the input check are parameters, and the engine's
    global time scale is a field. */
module AttractDemo {

  /** The idle state machine on values: whether the demo is showing and when the last input
      was seen. */
  datatype IdleState = IdleState(inDemo: bool, lastHumanInput: real)

  /** One Update at time `now`: input restarts the idle clock and leaves the demo; then, outside
      the demo, an idle time of at least `idleSeconds` enters it. */
  function Step(s: IdleState, now: real, humanInput: bool, idleSeconds: real): (r: IdleState)
    ensures humanInput ==> r.lastHumanInput == now
    ensures !humanInput ==> r.lastHumanInput == s.lastHumanInput
    ensures r.inDemo <==> (s.inDemo && !humanInput) || now - r.lastHumanInput >= idleSeconds
  {
    var afterInput := if humanInput then IdleState(false, now) else s;
    if !afterInput.inDemo && now - afterInput.lastHumanInput >= idleSeconds then afterInput.(inDemo := true)
    else afterInput
  }

  /** With a positive idle time, a frame with input always ends outside the demo. */
  lemma InputEndsDemo(s: IdleState, now: real, idleSeconds: real)
    requires idleSeconds > 0.0
    ensures !Step(s, now, true, idleSeconds).inDemo
  {
  }

  /** With an idle time of 0 or less, the demo comes straight back in the frame that left it. */
  lemma NonPositiveIdleReenters(s: IdleState, now: real, idleSeconds: real)
    requires idleSeconds <= 0.0
    ensures Step(s, now, true, idleSeconds).inDemo
  {
  }

  /** The state after a run of frames, given their times and input flags. */
  function Replay(s: IdleState, nows: seq<real>, inputs: seq<bool>, idleSeconds: real): (r: IdleState)
    requires |nows| == |inputs|
    decreases |nows|
  {
    if |nows| == 0 then s
    else Replay(Step(s, nows[0], inputs[0], idleSeconds), nows[1..], inputs[1..], idleSeconds)
  }

  /** Without input the demo, once entered, is never left. */
  lemma {:induction false} DemoPersistsWithoutInput(s: IdleState, nows: seq<real>, inputs: seq<bool>, idleSeconds: real)
    requires |nows| == |inputs| && s.inDemo
    requires forall i | 0 <= i < |inputs| :: !inputs[i]
    ensures Replay(s, nows, inputs, idleSeconds) == s
    decreases |nows|
  {
    if |nows| > 0 {
      assert Step(s, nows[0], inputs[0], idleSeconds) == s;
      DemoPersistsWithoutInput(s, nows[1..], inputs[1..], idleSeconds);
    }
  }

  class AttractVideoDemo {
    const idleSeconds: real
    const pauseGameplay: bool
    /** Whether the demo canvas and the video player are assigned. */
    const hasCanvas: bool
    const hasVideoPlayer: bool
    var lastHumanInput: real
    var inDemo: bool
    var canvasActive: bool
    var videoLooping: bool
    var videoPlaying: bool
    /** Time.timeScale. */
    var timeScale: real

    function State(): IdleState
      reads this
    {
      IdleState(inDemo, lastHumanInput)
    }

    /** The demo shows exactly when the canvas is up and the video plays (for what is
        assigned), and a pausing demo freezes time. */
    ghost predicate Valid()
      reads this
    {
      (hasCanvas ==> canvasActive == inDemo) &&
      (hasVideoPlayer ==> videoPlaying == inDemo) &&
      (pauseGameplay ==> timeScale == (if inDemo then 0.0 else 1.0))
    }

    /** Start at unscaled time `now`: the idle clock starts, the canvas is hidden and the video
        player is set to loop; the game is running at normal speed. */
    constructor(idleSeconds: real, pauseGameplay: bool, hasCanvas: bool, hasVideoPlayer: bool, now: real)
      ensures Valid() && !inDemo && lastHumanInput == now
      ensures hasCanvas ==> !canvasActive
      ensures hasVideoPlayer ==> videoLooping
      ensures this.idleSeconds == idleSeconds && this.pauseGameplay == pauseGameplay
      ensures this.hasCanvas == hasCanvas && this.hasVideoPlayer == hasVideoPlayer
      ensures timeScale == 1.0
    {
      this.idleSeconds := idleSeconds;
      this.pauseGameplay := pauseGameplay;
      this.hasCanvas := hasCanvas;
      this.hasVideoPlayer := hasVideoPlayer;
      lastHumanInput := now;
      inDemo := false;
      canvasActive := false;
      videoLooping := hasVideoPlayer;
      videoPlaying := false;
      timeScale := 1.0;
    }

    /** Shows the demo: the canvas goes up, time stops when pausing, and the video plays. */
    method EnterDemo()
      modifies this`inDemo, this`canvasActive, this`timeScale, this`videoPlaying
      ensures inDemo
      ensures canvasActive == (hasCanvas || old(canvasActive))
      ensures timeScale == (if pauseGameplay then 0.0 else old(timeScale))
      ensures videoPlaying == (hasVideoPlayer || old(videoPlaying))
    {
      inDemo := true;
      if hasCanvas {
        canvasActive := true;
      }
      if pauseGameplay {
        timeScale := 0.0;
      }
      if hasVideoPlayer {
        videoPlaying := true;
      }
    }

    /** Ends the demo: the video stops, the canvas is hidden and, only when the demo paused the
        game, time runs at normal speed again. */
    method ExitDemo()
      modifies this`inDemo, this`canvasActive, this`timeScale, this`videoPlaying
      ensures !inDemo
      ensures canvasActive == (!hasCanvas && old(canvasActive))
      ensures timeScale == (if pauseGameplay then 1.0 else old(timeScale))
      ensures videoPlaying == (!hasVideoPlayer && old(videoPlaying))
    {
      inDemo := false;
      if hasVideoPlayer {
        videoPlaying := false;
      }
      if hasCanvas {
        canvasActive := false;
      }
      if pauseGameplay {
        timeScale := 1.0;
      }
    }

    /** One frame at unscaled time `now`, `humanInput` being whether any key, axis or mouse
        activity was detected. */
    method Update(now: real, humanInput: bool)
      requires Valid()
      modifies this`lastHumanInput, this`inDemo, this`canvasActive, this`timeScale, this`videoPlaying
      ensures Valid()
      ensures State() == Step(old(State()), now, humanInput, idleSeconds)
      ensures !pauseGameplay ==> timeScale == old(timeScale)
    {
      if humanInput {
        lastHumanInput := now;
        if inDemo {
          ExitDemo();
        }
      }
      if !inDemo && now - lastHumanInput >= idleSeconds {
        EnterDemo();
      }
    }
  }
}
