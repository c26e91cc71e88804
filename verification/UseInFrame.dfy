/** The +use detector inside the frame: what it learns over a run of commands, and what that does to the
    player. */
module UseInFrame {
  import opened Vectors
  import opened Engine
  import opened Player
  import opened Movement
  import opened SlowDown
  import opened AirAndGround
  import W = WalkSafety

  /** The method in force is the one the detector says. */
  function With(env: Env, d: Detector): Env { env.(slowOnUse := ActualMethod(d) == Old) }

  lemma WithFacts(env: Env, d: Detector)
    ensures With(env, d).engine == env.engine && With(env, d).slowOnUse == (ActualMethod(d) == Old)
  {}

  /** What a player shows the detector. */
  function Shows(env: Env, s: Mover): Command {
    Command(env.maxspeed, s.velocity, s.onground, env.cmd.use, env.cmd.walk)
  }

  /** In a frame that is when timers, ground and ducking are dealt with. */
  function EventIn(env: Env, s: Mover): Event { EventOf(env.engine.sqrt, Shows(env, Prepared(env, s))) }

  /** A frame of a client: the player moves by the method in force, and the detector learns. */
  function ClientFrame(env: Env, s: Mover, d: Detector): (Mover, Detector) {
    (PlayerMove(With(env, d), s), Next(d, EventIn(With(env, d), s)))
  }

  /** Player and detector after a run of frames. */
  function ClientRun(envs: seq<Env>, s: Mover, d: Detector): (Mover, Detector) {
    if envs == [] then (s, d)
    else
      var (r, e) := ClientRun(envs[..|envs| - 1], s, d);
      ClientFrame(envs[|envs| - 1], r, e)
  }

  /** The frames as they ran, each with the method then in force. */
  function InForce(envs: seq<Env>, s: Mover, d: Detector): (r: seq<Env>)
    ensures |r| == |envs|
  {
    if envs == [] then []
    else
      var before := envs[..|envs| - 1];
      InForce(before, s, d) + [With(envs[|envs| - 1], ClientRun(before, s, d).1)]
  }

  /** What the detector saw. */
  function Events(envs: seq<Env>, s: Mover, d: Detector): (r: seq<Event>)
    ensures |r| == |envs|
  {
    if envs == [] then []
    else
      var before := envs[..|envs| - 1];
      var (r, e) := ClientRun(before, s, d);
      Events(before, s, d) + [EventIn(With(envs[|envs| - 1], e), r)]
  }

  /** A client's run is a run of frames with the method in force as it was, so that all that is proved of runs
      holds of it; and its detector has run over what it saw. */
  lemma {:induction false} ClientRunIsRun(envs: seq<Env>, s: Mover, d: Detector)
    ensures ClientRun(envs, s, d) == (W.Run(InForce(envs, s, d), s), Run(d, Events(envs, s, d)))
    ensures forall k :: 0 <= k < |envs| ==> InForce(envs, s, d)[k].engine == envs[k].engine
  {
    hide PlayerMove, Next, EventIn;
    if envs != [] {
      var before := envs[..|envs| - 1];
      ClientRunIsRun(before, s, d);
      assert InForce(envs, s, d)[..|envs| - 1] == InForce(before, s, d);
      assert Events(envs, s, d)[..|envs| - 1] == Events(before, s, d);
    }
  }

  /** From a fresh detector, +use slows the player in the frame after a run if and only if somewhere in the run
      there was the evidence for the old method. */
  lemma SlowedIffEvidence(envs: seq<Env>, s: Mover, env: Env)
    ensures With(env, ClientRun(envs, s, Start()).1).slowOnUse <==>
            exists a: nat, b: nat :: Evidence(Events(envs, s, Start()), a, b)
  {
    hide Evidence, W.Run, Run;
    ClientRunIsRun(envs, s, Start());
    DoneIffEvidence(Events(envs, s, Start()));
    RunTracksStreak(Events(envs, s, Start()));
  }

  /** Over every client's run in one world, whatever the detector learns, a player who starts clear of solids
      stays clear of them. */
  lemma ClientStaysClear(e: Callbacks, envs: seq<Env>, s: Mover, d: Detector)
    requires Sound(e) && W.Good(e, s)
    requires forall i :: 0 <= i < |envs| ==> envs[i].engine == e
    ensures W.Good(e, ClientRun(envs, s, d).0)
  {
    hide Sound, W.Good, W.Run;
    ClientRunIsRun(envs, s, d);
    W.RunStaysClear(e, InForce(envs, s, d), s);
  }

  /** Under the old method +use on the ground leaves the player three tenths of the speed he came with; the new
      method leaves it to him. */
  lemma UseSlows(env: Env, s: Mover)
    requires Sound(env.engine)
    ensures var before := Length(env.engine, Prepared(env, s).velocity);
            var after := Length(env.engine, Ready(env, s).velocity);
            after == if env.slowOnUse && env.cmd.use && Prepared(env, s).onground != -1 then 0.3 * before else before
  {
    hide Sound, Prepared, Length, Scale;
    LengthScale(env.engine, 0.3, Prepared(env, s).velocity);
  }
}
