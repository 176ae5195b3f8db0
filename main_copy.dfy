/**
 * The recognition core of main_copy.py: the same phrase lookup written as an
 * if/elif chain, the guarded flag, and a worker loop that feeds every chunk
 * to the one recogniser built at import time, never replacing it. The loop
 * handles only `queue.Empty`; any other exception ends the thread without
 * lowering the flag, and the worker never lowers it itself.
 */
module MainCopy {
  import opened Wrappers
  import opened Text
  import opened Dict
  import opened Audio
  import MainApp

  type Table = MainApp.Table

  /** `translate_text` as an if/elif chain; it agrees with main.py's nested `get` on every table and input. */
  function TranslateIfElif(t: Table, text: string): (r: string)
    ensures r == MainApp.Translate(t, text)
  {
    var s := Lower(text);
    var normalized := Overwrite(MainApp.LoweredKeys(t));
    var reverse := Overwrite(MainApp.LoweredValues(t));
    if s in normalized then normalized[s]
    else if s in reverse then reverse[s]
    else MainApp.NotFound
  }

  /** What the worker touches: the audio fed to the single recogniser, and what it posted to the UI. */
  datatype Session = Session(fed: seq<Chunk>, delivered: seq<(string, string)>)

  /** A loop still running, left because the flag was down, or left by an uncaught exception. */
  datatype Outcome = Running(session: Session) | Stopped(session: Session) | Crashed(session: Session)

  /**
   * One iteration of the worker loop; `accept` is the recogniser, given all
   * audio it has been fed.
   */
  function Step(s: Session, p: Poll, t: Table, accept: seq<Chunk> -> Feed): (o: Outcome)
    ensures !o.Stopped?
    ensures o.Crashed? ==> p.Got? && o.session.delivered == s.delivered
  {
    match p
    case Timeout => Running(s)
    case Got(c) =>
      var fed := s.fed + [c];
      match accept(fed)
      case Partial => Running(s.(fed := fed))
      case Fault => Crashed(s.(fed := fed))
      case Final(raw) =>
        var text := Strip(raw);
        if text == "" then Running(s.(fed := fed))
        else Running(Session(fed, s.delivered + [(text, TranslateIfElif(t, text))]))
  }

  /** The loop over the events the worker observes; running out of events leaves it still listening. */
  function Run(s: Session, events: seq<MainApp.Event>, t: Table, accept: seq<Chunk> -> Feed): (o: Outcome)
    ensures o.Running? ==> forall k :: 0 <= k < |events| ==> events[k].Polled?
    ensures o.Stopped? ==> exists k :: 0 <= k < |events| && events[k] == MainApp.StopRequested
    decreases |events|
  {
    if events == [] then Running(s)
    else
      match events[0]
      case StopRequested => Stopped(s)
      case Polled(p) =>
        var o := Step(s, p, t, accept);
        if o.Running? then Run(o.session, events[1..], t, accept) else o
  }

  /**
   * Every chunk goes to the same recogniser: a popped chunk is appended to
   * its audio, whatever the recogniser answers, and a final text that strips
   * to something non-empty is delivered with its translation.
   */
  lemma StepFeedsTheOneRecognizer(s: Session, c: Chunk, t: Table, accept: seq<Chunk> -> Feed)
    ensures Step(s, Timeout, t, accept) == Running(s)
    ensures var o := Step(s, Got(c), t, accept);
            && o.session.fed == s.fed + [c]
            && (o.Crashed? <==> accept(s.fed + [c]) == Fault)
            && (o.session.delivered != s.delivered <==>
                  accept(s.fed + [c]).Final? && Strip(accept(s.fed + [c]).raw) != "")
            && (o.session.delivered != s.delivered ==>
                  var text := Strip(accept(s.fed + [c]).raw);
                  o.session.delivered == s.delivered + [(text, MainApp.Translate(t, text))])
  {
  }

  /**
   * The recogniser is never replaced: the audio it was fed before the loop is
   * still the start of its audio afterwards, and each event adds at most one chunk.
   */
  lemma {:induction false} RunNeverReplaces(s: Session, events: seq<MainApp.Event>, t: Table,
                                            accept: seq<Chunk> -> Feed)
    ensures var f := Run(s, events, t, accept).session.fed;
            |s.fed| <= |f| <= |s.fed| + |events| && f[..|s.fed|] == s.fed
    decreases |events|
  {
    if events != [] && events[0].Polled? {
      var o := Step(s, events[0].poll, t, accept);
      if o.Running? {
        RunNeverReplaces(o.session, events[1..], t, accept);
        var f := Run(o.session, events[1..], t, accept).session.fed;
        assert f[..|s.fed|] == f[..|o.session.fed|][..|s.fed|];
      }
    }
  }

  /**
   * The flag `recognition_active`, the one recogniser (as the audio it was
   * fed), and what the workers posted; `spawned` counts the worker threads
   * started and `live` those still inside their loop.
   */
  class Recognition {
    var active: bool
    var spawned: nat
    var live: nat
    var fed: seq<Chunk>
    var delivered: seq<(string, string)>

    ghost predicate Valid()
      reads this
    {
      live <= spawned
    }

    /** Import time: the flag is down and the recogniser has been fed nothing. */
    constructor ()
      ensures Valid()
      ensures !active && spawned == 0 && live == 0 && fed == [] && delivered == []
    {
      active := false;
      spawned, live := 0, 0;
      fed, delivered := [], [];
    }

    /** `start_recognition`: a no-op while the flag is up, otherwise raises it and spawns one worker. */
    method Start()
      requires Valid()
      modifies this
      ensures Valid()
      ensures old(active) ==> active && spawned == old(spawned) && live == old(live)
      ensures !old(active) ==> active && spawned == old(spawned) + 1 && live == old(live) + 1
      ensures fed == old(fed) && delivered == old(delivered)
    {
      if active {
        return;
      }
      active := true;
      spawned, live := spawned + 1, live + 1;
    }

    /** `stop_recognition`: lowers the flag, whatever it was. */
    method Stop()
      requires Valid()
      modifies this`active
      ensures Valid() && !active
    {
      active := false;
    }

    /**
     * `process_audio_stream`, run by one live worker over the events it
     * observes. The worker leaves the loop only when the flag is down or an
     * exception escapes; it does not touch the flag, so after a crash the flag
     * stays up.
     */
    method ProcessAudioStream(events: seq<MainApp.Event>, t: Table, accept: seq<Chunk> -> Feed)
      returns (o: Outcome)
      requires Valid() && live > 0
      modifies this
      ensures Valid() && spawned == old(spawned)
      ensures var s0 := Session(old(fed), old(delivered));
              o == if old(active) then Run(s0, events, t, accept) else Stopped(s0)
      ensures fed == o.session.fed && delivered == o.session.delivered
      ensures o.Running? ==> active && live == old(live)
      ensures o.Stopped? ==> !active && live == old(live) - 1
      ensures o.Crashed? ==> active == old(active) && live == old(live) - 1
    {
      var s0 := Session(fed, delivered);
      var i := 0;
      o := if active then Running(s0) else Stopped(s0);
      while o.Running? && i < |events|
        invariant 0 <= i <= |events|
        invariant live == old(live) && spawned == old(spawned)
        invariant fed == o.session.fed && delivered == o.session.delivered
        invariant !old(active) ==> o == Stopped(s0) && !active
        invariant old(active) && o.Running? ==>
                    active && Run(s0, events, t, accept) == Run(o.session, events[i..], t, accept)
        invariant old(active) && !o.Running? ==> Run(s0, events, t, accept) == o
        invariant o.Stopped? ==> !active
        invariant o.Crashed? ==> active == old(active)
        decreases |events| - i
      {
        assert events[i..][0] == events[i] && events[i..][1..] == events[i + 1..];
        match events[i] {
          case StopRequested =>
            Stop();
            o := Stopped(o.session);
          case Polled(p) =>
            o := Step(o.session, p, t, accept);
            fed, delivered := o.session.fed, o.session.delivered;
        }
        i := i + 1;
      }
      if !o.Running? {
        live := live - 1;
      }
    }
  }

  /**
   * After a worker dies of an exception the flag stays up, so every start
   * before the next stop is ignored and no worker listens until then.
   */
  method CrashBlocksRestart(c: Chunk, t: Table) returns (crashed: bool, active: bool, spawned: nat, live: nat)
    ensures crashed && active && spawned == 1 && live == 0
  {
    var r := new Recognition();
    r.Start();
    var accept := (fed: seq<Chunk>) => Fault;
    var o := r.ProcessAudioStream([MainApp.Polled(Got(c))], t, accept);
    r.Start();
    crashed, active, spawned, live := o.Crashed?, r.active, r.spawned, r.live;
  }

  /** A stop after the crash lowers the flag again, and the next start spawns a new worker. */
  method StopAfterCrashRestarts(c: Chunk, t: Table) returns (active: bool, spawned: nat, live: nat)
    ensures active && spawned == 2 && live == 1
  {
    var r := new Recognition();
    r.Start();
    var accept := (fed: seq<Chunk>) => Fault;
    var o := r.ProcessAudioStream([MainApp.Polled(Got(c))], t, accept);
    r.Stop();
    r.Start();
    active, spawned, live := r.active, r.spawned, r.live;
  }
}
