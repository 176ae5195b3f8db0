/**
 * The recognition core of main.py: the two-way, case-insensitive phrase
 * lookup, the three-way language label, the guarded on/off flag with the
 * worker it spawns, and the worker loop, which feeds queued audio to the
 * current recogniser and, after every non-empty final text, rebinds the
 * recogniser to a fresh one on the model the detected label selects.
 *
 * The worker thread runs here as a sequential loop over the events it
 * observes: a poll of the audio queue, or a stop request from the UI thread,
 * which only changes the flag that the loop tests before each poll.
 */
module MainApp {
  import opened Wrappers
  import opened Text
  import opened Dict
  import opened Audio

  /** The translation dictionary as its items, in insertion order. */
  type Table = seq<(string, string)>

  const NotFound := "Translation not found"

  /** The items of `{k.lower(): v for k, v in table}`, in order. */
  function LoweredKeys(t: Table): seq<(string, string)> {
    seq(|t|, i requires 0 <= i < |t| => (Lower(t[i].0), t[i].1))
  }

  /** The items of `{v.lower(): k for k, v in table}`, in order. */
  function LoweredValues(t: Table): seq<(string, string)> {
    seq(|t|, i requires 0 <= i < |t| => (Lower(t[i].1), t[i].0))
  }

  /**
   * `translate_text`: look the lowercased text up among the lowercased keys,
   * then among the lowercased values; the answer is always an entry of the
   * table or the not-found message.
   */
  function Translate(t: Table, text: string): (r: string)
    ensures Lower(text) in Overwrite(LoweredKeys(t)) ==> r in Overwrite(LoweredKeys(t)).Values
    ensures Lower(text) !in Overwrite(LoweredKeys(t)) ==>
              r == NotFound || r in Overwrite(LoweredValues(t)).Values
  {
    var s := Lower(text);
    Get(Overwrite(LoweredKeys(t)), s, Get(Overwrite(LoweredValues(t)), s, NotFound))
  }

  /** The answer is always a phrase of the table or the not-found message. */
  lemma TranslateFromTable(t: Table, text: string)
    ensures var r := Translate(t, text);
            r == NotFound || exists i :: 0 <= i < |t| && (r == t[i].1 || r == t[i].0)
  {
    var s, keys, values := Lower(text), LoweredKeys(t), LoweredValues(t);
    if s in Overwrite(keys) {
      OverwriteValues(keys, s);
      var i :| 0 <= i < |keys| && keys[i] == (s, Overwrite(keys)[s]);
      assert Translate(t, text) == t[i].1;
    } else if s in Overwrite(values) {
      OverwriteValues(values, s);
      var i :| 0 <= i < |values| && values[i] == (s, Overwrite(values)[s]);
      assert Translate(t, text) == t[i].0;
    }
  }

  /** Only the lowercased input is ever looked up. */
  lemma TranslateCaseInsensitive(t: Table, text: string)
    ensures Translate(t, text) == Translate(t, Lower(text))
  {
    LowerIdempotent(text);
  }

  /**
   * A key that matches the lowercased input wins, even if some value matches
   * too; among several matching keys the last one in the table wins.
   */
  lemma TranslateForward(t: Table, text: string, i: nat)
    requires i < |t| && Lower(t[i].0) == Lower(text)
    requires forall j :: i < j < |t| ==> Lower(t[j].0) != Lower(text)
    ensures Translate(t, text) == t[i].1
  {
    OverwriteLast(LoweredKeys(t), i);
  }

  /**
   * With no matching key, a matching value gives back its key as written
   * in the table (not lowercased); the last matching value wins.
   */
  lemma TranslateReverse(t: Table, text: string, i: nat)
    requires forall j :: 0 <= j < |t| ==> Lower(t[j].0) != Lower(text)
    requires i < |t| && Lower(t[i].1) == Lower(text)
    requires forall j :: i < j < |t| ==> Lower(t[j].1) != Lower(text)
    ensures Translate(t, text) == t[i].0
  {
    OverwriteKeys(LoweredKeys(t), Lower(text));
    OverwriteLast(LoweredValues(t), i);
  }

  /** Matching neither a key nor a value gives exactly the not-found message. */
  lemma TranslateMissing(t: Table, text: string)
    requires forall j :: 0 <= j < |t| ==> Lower(t[j].0) != Lower(text) && Lower(t[j].1) != Lower(text)
    ensures Translate(t, text) == NotFound
  {
    OverwriteKeys(LoweredKeys(t), Lower(text));
    OverwriteKeys(LoweredValues(t), Lower(text));
  }

  /**
   * `detect_language`: the classifier's label (`None` when it raised) put in
   * one of three buckets.
   */
  function DetectLanguage(classified: Option<string>): (tag: string)
    ensures tag == "fil" || tag == "en" || tag == "unknown"
    ensures tag == "fil" <==> classified == Some("tl") || classified == Some("fil")
    ensures tag == "en" <==> classified == Some("en")
  {
    match classified
    case None => "unknown"
    case Some(lang) => if lang in ["tl", "fil"] then "fil" else if lang == "en" then "en" else "unknown"
  }

  /** The two loaded vosk models. */
  datatype LangModel = English | Filipino

  /** The model a fresh recogniser is built on: Filipino for "fil", English for anything else. */
  function ModelFor(tag: string): (m: LangModel)
    ensures m == Filipino <==> tag == "fil"
  {
    if tag == "fil" then Filipino else English
  }

  /**
   * A recogniser: the model it was built on and all audio fed to it since it
   * was built, which is everything its decoder state can depend on.
   */
  datatype Recognizer = Recognizer(model: LangModel, fed: seq<Chunk>)

  /** What the worker updates: the global recogniser and the (text, translation) pairs it posted to the UI. */
  datatype Session = Session(recognizer: Recognizer, delivered: seq<(string, string)>)

  /** Whether the worker is still inside its loop, and the state it reached. */
  datatype Outcome = Running(session: Session) | Exited(session: Session)

  /** What the worker observes before an iteration: a stop request, or the result of polling the queue. */
  datatype Event = StopRequested | Polled(poll: Poll)

  /**
   * One iteration of the loop in `process_audio_stream`. `accept` is the
   * recogniser (given its model and all audio it has been fed), `detect` is the
   * language classifier (`None` when it raises).
   */
  function Step(s: Session, p: Poll, t: Table,
                accept: (LangModel, seq<Chunk>) -> Feed,
                detect: string -> Option<string>): (o: Outcome)
  {
    match p
    case Timeout => Running(s)
    case Got(c) =>
      var fed := s.recognizer.(fed := s.recognizer.fed + [c]);
      match accept(fed.model, fed.fed)
      case Partial => Running(s.(recognizer := fed))
      case Fault => Exited(s.(recognizer := fed))
      case Final(raw) =>
        var text := Strip(raw);
        if text == "" then Running(s.(recognizer := fed))
        else
          var tag := DetectLanguage(detect(text));
          Running(Session(Recognizer(ModelFor(tag), []), s.delivered + [(text, Translate(t, text))]))
  }

  /** The loop over a sequence of events; running out of events leaves the worker still listening. */
  function Run(s: Session, events: seq<Event>, t: Table,
               accept: (LangModel, seq<Chunk>) -> Feed,
               detect: string -> Option<string>): (o: Outcome)
    ensures o.Running? ==> StopRequested !in events
    decreases |events|
  {
    if events == [] then Running(s)
    else
      match events[0]
      case StopRequested => Exited(s)
      case Polled(p) =>
        match Step(s, p, t, accept, detect)
        case Exited(s') => Exited(s')
        case Running(s') => Run(s', events[1..], t, accept, detect)
  }

  /** A queue timeout changes nothing and the loop goes on; a fault ends it. */
  lemma StepTimeoutAndFault(s: Session, c: Chunk, t: Table,
                            accept: (LangModel, seq<Chunk>) -> Feed,
                            detect: string -> Option<string>)
    ensures Step(s, Timeout, t, accept, detect) == Running(s)
    ensures accept(s.recognizer.model, s.recognizer.fed + [c]) == Fault ==>
              Step(s, Got(c), t, accept, detect).Exited? &&
              Step(s, Got(c), t, accept, detect).session.delivered == s.delivered
  {
  }

  /**
   * A chunk that gives no final text, or a final text that strips to nothing,
   * goes to the current recogniser, which is kept; nothing is delivered.
   */
  lemma StepKeepsRecognizer(s: Session, c: Chunk, t: Table,
                            accept: (LangModel, seq<Chunk>) -> Feed,
                            detect: string -> Option<string>)
    requires var f := accept(s.recognizer.model, s.recognizer.fed + [c]);
             f == Partial || (f.Final? && Strip(f.raw) == "")
    ensures Step(s, Got(c), t, accept, detect) ==
              Running(Session(Recognizer(s.recognizer.model, s.recognizer.fed + [c]), s.delivered))
  {
  }

  /**
   * After a non-empty final text the recogniser is replaced by a fresh one,
   * even when the model stays the same; it is on the Filipino model exactly
   * when the classifier said "tl" or "fil", and on English otherwise (an
   * unknown language or a classifier error included). The stripped text is
   * delivered with its translation.
   */
  lemma StepSwapsRecognizer(s: Session, c: Chunk, raw: string, t: Table,
                            accept: (LangModel, seq<Chunk>) -> Feed,
                            detect: string -> Option<string>)
    requires accept(s.recognizer.model, s.recognizer.fed + [c]) == Final(raw)
    requires Strip(raw) != ""
    ensures var o := Step(s, Got(c), t, accept, detect);
            var text := Strip(raw);
            && o.Running?
            && o.session.recognizer.fed == []
            && (o.session.recognizer.model == Filipino <==> detect(text) in {Some("tl"), Some("fil")})
            && o.session.delivered == s.delivered + [(text, Translate(t, text))]
  {
    var text := Strip(raw);
    var next := Session(Recognizer(ModelFor(DetectLanguage(detect(text))), []), s.delivered + [(text, Translate(t, text))]);
    assert Step(s, Got(c), t, accept, detect) == Running(next);
  }

  /**
   * The code does not keep the current model on an unclassifiable text: a
   * Filipino recogniser is replaced by an English one.
   */
  lemma UnknownLanguageSelectsEnglish(s: Session, c: Chunk, raw: string, t: Table,
                                      accept: (LangModel, seq<Chunk>) -> Feed,
                                      detect: string -> Option<string>)
    requires s.recognizer.model == Filipino
    requires accept(s.recognizer.model, s.recognizer.fed + [c]) == Final(raw)
    requires Strip(raw) != "" && DetectLanguage(detect(Strip(raw))) == "unknown"
    ensures Step(s, Got(c), t, accept, detect).session.recognizer == Recognizer(English, [])
  {
  }

  /**
   * Events are consumed one per iteration, in order: running two stretches of
   * events one after the other is running their concatenation.
   */
  lemma {:induction false} RunConcat(s: Session, e1: seq<Event>, e2: seq<Event>, t: Table,
                                     accept: (LangModel, seq<Chunk>) -> Feed,
                                     detect: string -> Option<string>)
    ensures var o := Run(s, e1, t, accept, detect);
            Run(s, e1 + e2, t, accept, detect) ==
              if o.Running? then Run(o.session, e2, t, accept, detect) else o
    decreases |e1|
  {
    if e1 == [] {
      assert e1 + e2 == e2;
    } else {
      assert (e1 + e2)[0] == e1[0] && (e1 + e2)[1..] == e1[1..] + e2;
      if e1[0].Polled? {
        var o := Step(s, e1[0].poll, t, accept, detect);
        if o.Running? {
          RunConcat(o.session, e1[1..], e2, t, accept, detect);
        }
      }
    }
  }

  /** Silence: a stretch of queue timeouts delivers nothing and changes nothing. */
  lemma {:induction false} RunSilence(s: Session, events: seq<Event>, t: Table,
                                      accept: (LangModel, seq<Chunk>) -> Feed,
                                      detect: string -> Option<string>)
    requires forall k :: 0 <= k < |events| ==> events[k] == Polled(Timeout)
    ensures Run(s, events, t, accept, detect) == Running(s)
    decreases |events|
  {
    if events != [] {
      RunSilence(s, events[1..], t, accept, detect);
    }
  }

  /** A non-empty text paired with its own translation. */
  predicate IsTranslation(t: Table, pair: (string, string)) {
    pair.0 != "" && pair.1 == Translate(t, pair.0)
  }

  /** Every pair in `pairs` is a non-empty text together with its own translation. */
  ghost predicate Translations(t: Table, pairs: seq<(string, string)>) {
    forall k :: 0 <= k < |pairs| ==> IsTranslation(t, pairs[k])
  }

  /** One iteration delivers nothing, or one non-empty text with its translation. */
  lemma StepDelivers(s: Session, p: Poll, t: Table,
                     accept: (LangModel, seq<Chunk>) -> Feed,
                     detect: string -> Option<string>)
    ensures var d := Step(s, p, t, accept, detect).session.delivered;
            d == s.delivered || (d == s.delivered + [d[|d| - 1]] && IsTranslation(t, d[|d| - 1]))
  {
    match p
    case Timeout =>
    case Got(c) =>
      var r := s.recognizer.(fed := s.recognizer.fed + [c]);
      match accept(r.model, r.fed)
      case Partial =>
      case Fault =>
      case Final(raw) =>
        var text := Strip(raw);
        if text != "" {
          var pair := (text, Translate(t, text));
          var next := Session(Recognizer(ModelFor(DetectLanguage(detect(text))), []), s.delivered + [pair]);
          assert Step(s, p, t, accept, detect) == Running(next);
          assert IsTranslation(t, pair);
        }
  }

  /** The worker only ever appends to what it delivered, at most one pair per event. */
  lemma {:induction false} RunAppends(s: Session, events: seq<Event>, t: Table,
                                      accept: (LangModel, seq<Chunk>) -> Feed,
                                      detect: string -> Option<string>)
    ensures var d := Run(s, events, t, accept, detect).session.delivered;
            |s.delivered| <= |d| <= |s.delivered| + |events| && d[..|s.delivered|] == s.delivered
    decreases |events|
  {
    if events != [] && events[0].Polled? {
      var o := Step(s, events[0].poll, t, accept, detect);
      StepDelivers(s, events[0].poll, t, accept, detect);
      if o.Running? {
        var s1 := o.session;
        assert Run(s, events, t, accept, detect) == Run(s1, events[1..], t, accept, detect);
        RunAppends(s1, events[1..], t, accept, detect);
        var d := Run(s1, events[1..], t, accept, detect).session.delivered;
        assert d[..|s.delivered|] == d[..|s1.delivered|][..|s.delivered|];
      }
    }
  }

  /**
   * The worker only ever appends to what it delivered, at most one pair per
   * event, and every pair is a non-empty text with its own translation.
   */
  lemma {:induction false} RunDeliversTranslations(s: Session, events: seq<Event>, t: Table,
                                                   accept: (LangModel, seq<Chunk>) -> Feed,
                                                   detect: string -> Option<string>)
    ensures var d := Run(s, events, t, accept, detect).session.delivered;
            && |s.delivered| <= |d| <= |s.delivered| + |events|
            && d[..|s.delivered|] == s.delivered
            && Translations(t, d[|s.delivered|..])
    decreases |events|
  {
    RunAppends(s, events, t, accept, detect);
    if events != [] && events[0].Polled? {
      var o := Step(s, events[0].poll, t, accept, detect);
      StepDelivers(s, events[0].poll, t, accept, detect);
      if o.Running? {
        var s1 := o.session;
        assert Run(s, events, t, accept, detect) == Run(s1, events[1..], t, accept, detect);
        RunDeliversTranslations(s1, events[1..], t, accept, detect);
        var d := Run(s1, events[1..], t, accept, detect).session.delivered;
        forall k | |s.delivered| <= k < |d|
          ensures IsTranslation(t, d[k])
        {
          if k < |s1.delivered| {
            assert d[k] == s1.delivered[k] == s1.delivered[|s.delivered|..][k - |s.delivered|];
          } else {
            assert d[k] == d[|s1.delivered|..][k - |s1.delivered|];
          }
        }
      }
    }
  }

  /**
   * The module-level state of main.py that recognition touches: the flag
   * `recognition_active`, the global `recognizer`, and what the workers posted
   * to the UI. `spawned` counts the worker threads started so far and `live`
   * those that have not yet left their loop.
   */
  class Recognition {
    var active: bool
    var spawned: nat
    var live: nat
    var recognizer: Recognizer
    var delivered: seq<(string, string)>

    ghost predicate Valid()
      reads this
    {
      live <= spawned
    }

    /** Import time: the flag is down and the recogniser is on the English model. */
    constructor ()
      ensures Valid()
      ensures !active && spawned == 0 && live == 0
      ensures recognizer == Recognizer(English, []) && delivered == []
    {
      active := false;
      spawned, live := 0, 0;
      recognizer := Recognizer(English, []);
      delivered := [];
    }

    /** `start_recognition`: ignored while active, otherwise raises the flag and spawns one worker. */
    method Start()
      requires Valid()
      modifies this
      ensures Valid()
      ensures old(active) ==> active && spawned == old(spawned) && live == old(live)
      ensures !old(active) ==> active && spawned == old(spawned) + 1 && live == old(live) + 1
      ensures recognizer == old(recognizer) && delivered == old(delivered)
    {
      if active {
        return;
      }
      active := true;
      spawned, live := spawned + 1, live + 1;
    }

    /** `stop_recognition`: lowers the flag, whatever it was. */
    method Stop()
      requires Valid()
      modifies this`active
      ensures Valid() && !active
    {
      active := false;
    }

    /**
     * `process_audio_stream`, run by one live worker over the events it
     * observes. The loop runs while the flag is up; when it ends, by a stop
     * request or a fault, the worker lowers the flag and is no longer live.
     */
    method ProcessAudioStream(events: seq<Event>, t: Table,
                              accept: (LangModel, seq<Chunk>) -> Feed,
                              detect: string -> Option<string>) returns (exited: bool)
      requires Valid() && live > 0
      modifies this
      ensures Valid() && spawned == old(spawned)
      ensures var s0 := Session(old(recognizer), old(delivered));
              var o := if old(active) then Run(s0, events, t, accept, detect) else Exited(s0);
              recognizer == o.session.recognizer && delivered == o.session.delivered && exited == o.Exited?
      ensures exited ==> !active && live == old(live) - 1
      ensures !exited ==> active && live == old(live)
    {
      ghost var s0 := Session(recognizer, delivered);
      var i := 0;
      var broke := false;
      while active && !broke && i < |events|
        invariant 0 <= i <= |events|
        invariant live == old(live) && spawned == old(spawned)
        invariant !old(active) ==> !active && i == 0 && !broke && Session(recognizer, delivered) == s0
        invariant old(active) && active && !broke ==>
                    Run(s0, events, t, accept, detect) == Run(Session(recognizer, delivered), events[i..], t, accept, detect)
        invariant old(active) && (!active || broke) ==>
                    Run(s0, events, t, accept, detect) == Exited(Session(recognizer, delivered))
        decreases |events| - i
      {
        assert events[i..][0] == events[i] && events[i..][1..] == events[i + 1..];
        match events[i] {
          case StopRequested =>
            Stop();
          case Polled(p) =>
            var o := Step(Session(recognizer, delivered), p, t, accept, detect);
            recognizer, delivered := o.session.recognizer, o.session.delivered;
            broke := o.Exited?;
        }
        i := i + 1;
      }
      exited := !active || broke;
      if exited {
        active := false;
        live := live - 1;
      }
    }
  }

  /** Two starts in a row spawn one worker. */
  method DuplicateStartSpawnsOnce() returns (active: bool, spawned: nat, live: nat)
    ensures active && spawned == 1 && live == 1
  {
    var r := new Recognition();
    r.Start();
    r.Start();
    active, spawned, live := r.active, r.spawned, r.live;
  }

  /**
   * A stop followed by a start before the first worker polls the flag again
   * leaves two workers inside their loops, both reading the same queue.
   */
  method StopThenStartLeavesTwoWorkers() returns (active: bool, spawned: nat, live: nat)
    ensures active && spawned == 2 && live == 2
  {
    var r := new Recognition();
    r.Start();
    r.Stop();
    r.Start();
    active, spawned, live := r.active, r.spawned, r.live;
  }

  /**
   * The recogniser is global: audio fed before a stop is still in it when the
   * next session starts, and the next final text may rest on it.
   */
  method StaleAudioSurvivesRestart(c: Chunk, t: Table, detect: string -> Option<string>)
    returns (exited: bool, restarted: bool, recognizer: Recognizer)
    ensures exited && restarted && recognizer == Recognizer(English, [c])
  {
    var r := new Recognition();
    r.Start();
    var accept := (m: LangModel, fed: seq<Chunk>) => Partial;
    exited := r.ProcessAudioStream([Polled(Got(c)), StopRequested], t, accept, detect);
    r.Start();
    restarted, recognizer := r.active && r.live == 1, r.recognizer;
  }
}
