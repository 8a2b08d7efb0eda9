/**
 * The life cycle of one typing test: the component's state fields, the handlers that
 * update them, and which handler the screen lets the user reach in each phase.
 *
 * A `Session` value holds the seven state fields; the functions Start, TextChange,
 * Finish, KeyPress and Reset are the handlers as transitions on that value, and the
 * class TypingSpeedTest holds the same fields as mutable state, each handler method
 * proved to perform exactly the matching transition.  Timestamps are integer
 * milliseconds passed in by the caller.
 */
module TypingTest {
  import opened Text
  import opened Scoring

  datatype Option<T> = None | Some(value: T)

  /** Which controls the screen shows: Start when idle, Finish and the text box while
      running, the results once finished, Reset in both of the last two. */
  datatype Phase = Idle | Running | Finished

  datatype Session = Session(
    text: string,
    sentenceIndex: nat,
    isRunning: bool,
    showResults: bool,
    startTime: Option<int>,
    wpm: nat,
    accuracy: nat)

  function PhaseOf(s: Session): Phase {
    if s.isRunning then Running else if s.showResults then Finished else Idle
  }

  /**
   * What holds of every session the handlers can reach: the index names a sentence;
   * the two flags are never both set; a running or finished test has a start time;
   * an idle one has no text and no start time; results are zero unless shown, and
   * shown results come from non-empty text, with the accuracy of that text against
   * the current sentence.
   */
  predicate Inv(s: Session) {
    && s.sentenceIndex < |Sentences|
    && !(s.isRunning && s.showResults)
    && (s.isRunning || s.showResults ==> s.startTime.Some?)
    && (PhaseOf(s) == Idle ==> s.text == [] && s.startTime.None?)
    && (!s.showResults ==> s.wpm == 0 && s.accuracy == 0)
    && (s.showResults ==> s.text != [] && s.accuracy == Accuracy(Sentence(s.sentenceIndex), s.text))
  }

  /** The state on load: idle, first sentence, nothing typed. */
  function Initial(): (s: Session)
    ensures Inv(s) && PhaseOf(s) == Idle && s.sentenceIndex == 0
  {
    Session("", 0, false, false, None, 0, 0)
  }

  /** `startTest`, reachable from the Start button, which shows only when idle. */
  function Start(s: Session, now: int): (t: Session)
    requires Inv(s) && PhaseOf(s) == Idle
    ensures Inv(t) && PhaseOf(t) == Running
    ensures t.text == [] && t.startTime == Some(now)
    ensures t.sentenceIndex == s.sentenceIndex && t.wpm == s.wpm && t.accuracy == s.accuracy
  {
    s.(text := "", isRunning := true, showResults := false, startTime := Some(now))
  }

  /** `handleTextChange`: the text box exists only while running, and whatever it holds
      becomes the typed text, unchecked. */
  function TextChange(s: Session, value: string): (t: Session)
    requires Inv(s) && PhaseOf(s) == Running
    ensures Inv(t) && PhaseOf(t) == Running && t.text == value
    ensures t.(text := s.text) == s
  {
    s.(text := value)
  }

  /** `finishTest` does something only with a start time and some typed text. */
  predicate CanFinish(s: Session) {
    s.startTime.Some? && s.text != []
  }

  /** The clock must have moved on since the start: zero elapsed time is a division
      by zero in the speed. */
  predicate ClockAdvanced(s: Session, now: int) {
    CanFinish(s) ==> s.startTime.value < now
  }

  /**
   * `finishTest`, reachable from the Finish button and from Enter, both only while
   * running.  Without a start time or typed text it changes nothing; otherwise it
   * shows the results, scored against the current sentence over the time since the
   * start, and keeps the text, the start time and the sentence.
   */
  function Finish(s: Session, now: int): (t: Session)
    requires Inv(s) && PhaseOf(s) == Running && ClockAdvanced(s, now)
    ensures Inv(t)
    ensures !CanFinish(s) ==> t == s
    ensures CanFinish(s) ==>
      && PhaseOf(t) == Finished
      && t.text == s.text && t.startTime == s.startTime && t.sentenceIndex == s.sentenceIndex
      && t.accuracy == Accuracy(Sentence(s.sentenceIndex), s.text)
      && t.wpm == Wpm(WordCount(s.text), now - s.startTime.value)
  {
    if !CanFinish(s) then s
    else
      var elapsedMs := now - s.startTime.value;
      var sentence := Sentence(s.sentenceIndex);
      s.(wpm := Wpm(WordCount(s.text), elapsedMs), accuracy := Accuracy(sentence, s.text),
         isRunning := false, showResults := true)
  }

  /** `handleKeyPress`: Enter finishes the test, but only while it is running; any
      other key, or Enter in another phase, changes nothing. */
  function KeyPress(s: Session, key: string, now: int): (t: Session)
    requires Inv(s)
    requires key == "Enter" && s.isRunning ==> ClockAdvanced(s, now)
    ensures Inv(t)
    ensures t != s ==> key == "Enter" && PhaseOf(s) == Running && PhaseOf(t) == Finished
    ensures key == "Enter" && s.isRunning ==> t == Finish(s, now)
    ensures key != "Enter" || !s.isRunning ==> t == s
  {
    if key == "Enter" && s.isRunning then Finish(s, now) else s
  }

  /** The index of the sentence after `i`, wrapping round after the last. */
  function NextIndex(i: nat): (j: nat)
    ensures j < |Sentences|
    ensures i < |Sentences| - 1 ==> j == i + 1
    ensures i == |Sentences| - 1 ==> j == 0
  {
    (i + 1) % |Sentences|
  }

  /** `resetTest`, reachable from the Reset button, shown while running or finished:
      back to idle with everything cleared, on the next sentence. */
  function Reset(s: Session): (t: Session)
    requires Inv(s) && PhaseOf(s) != Idle
    ensures Inv(t) && PhaseOf(t) == Idle
    ensures t.sentenceIndex == NextIndex(s.sentenceIndex)
    ensures t.wpm == 0 && t.accuracy == 0
  {
    Session("", NextIndex(s.sentenceIndex), false, false, None, 0, 0)
  }

  /** The index after `k` resets from index `i`. */
  function AfterResets(i: nat, k: nat): nat {
    if k == 0 then i else NextIndex(AfterResets(i, k - 1))
  }

  lemma {:induction false} AfterResetsIsModular(i: nat, k: nat)
    requires i < |Sentences|
    ensures AfterResets(i, k) == (i + k) % |Sentences|
  {
    if k > 0 {
      AfterResetsIsModular(i, k - 1);
    }
  }

  /** One reset per sentence brings the test back to the sentence it started on. */
  lemma ResetsCycle(i: nat)
    requires i < |Sentences|
    ensures AfterResets(i, |Sentences|) == i
    ensures forall k :: 0 < k < |Sentences| ==> AfterResets(i, k) != i
  {
    forall k | 0 <= k <= |Sentences| {
      AfterResetsIsModular(i, k);
    }
  }

  /** One full test: start, type the sentence exactly, finish, reset.  The results
      show accuracy 100 and the next sentence comes up. */
  lemma PerfectRun(s: Session, start: int, finish: int)
    requires Inv(s) && PhaseOf(s) == Idle && start < finish
    ensures var typed := Sentence(s.sentenceIndex);
      var done := Finish(TextChange(Start(s, start), typed), finish);
      && PhaseOf(done) == Finished && done.accuracy == 100
      && Reset(done).sentenceIndex == NextIndex(s.sentenceIndex)
  {
    var typed := Sentence(s.sentenceIndex);
    FullAccuracy(typed, typed);
    assert typed[..|typed|] == typed;
  }

  /** A user action: a click on one of the three buttons, or an edit or a key press
      in the text box. */
  datatype Event =
    | ClickStart(now: int)
    | ClickFinish(now: int)
    | ClickReset
    | Edit(value: string)
    | Key(key: string, now: int)

  /** Whether the screen offers the event: each button and the text box are shown
      only in the phases listed at Phase, and the clock only moves forward. */
  predicate Offered(s: Session, e: Event) {
    match e
    case ClickStart(_) => PhaseOf(s) == Idle
    case ClickFinish(now) => PhaseOf(s) == Running && ClockAdvanced(s, now)
    case ClickReset => PhaseOf(s) != Idle
    case Edit(_) => PhaseOf(s) == Running
    case Key(_, now) => PhaseOf(s) == Running && ClockAdvanced(s, now)
  }

  /** The handler each event runs. */
  function Handle(s: Session, e: Event): (t: Session)
    requires Inv(s) && Offered(s, e)
    ensures Inv(t)
  {
    match e
    case ClickStart(now) => Start(s, now)
    case ClickFinish(now) => Finish(s, now)
    case ClickReset => Reset(s)
    case Edit(value) => TextChange(s, value)
    case Key(key, now) => KeyPress(s, key, now)
  }

  /** A sequence of user actions from `s`; an action the screen does not offer at that
      point cannot be taken and is passed over. */
  function Run(s: Session, events: seq<Event>): (t: Session)
    requires Inv(s)
    ensures Inv(t)
    ensures !t.isRunning || !t.showResults
    decreases |events|
  {
    if events == [] then s
    else
      var next := if Offered(s, events[0]) then Handle(s, events[0]) else s;
      Run(next, events[1..])
  }

  /** No action leads from idle straight to the results, or from the results back to
      a running test. */
  lemma NoShortcuts(s: Session, e: Event)
    requires Inv(s) && Offered(s, e)
    ensures PhaseOf(s) == Idle ==> PhaseOf(Handle(s, e)) != Finished
    ensures PhaseOf(s) == Finished ==> PhaseOf(Handle(s, e)) != Running
  {
  }

  /** The typed text changes only by an edit while running or by a reset; the start
      time is set only by Start and cleared only by Reset; the sentence moves on only
      on Reset. */
  lemma WhatEventsChange(s: Session, e: Event)
    requires Inv(s) && Offered(s, e)
    ensures Handle(s, e).text != s.text ==> e.Edit? || e.ClickReset?
    ensures Handle(s, e).startTime != s.startTime ==> e.ClickStart? || e.ClickReset?
    ensures Handle(s, e).sentenceIndex != s.sentenceIndex ==> e.ClickReset?
  {
  }

  /** The component: the same seven fields, updated in place by the handlers. */
  class TypingSpeedTest {
    var text: string
    var currentSentenceIndex: nat
    var isRunning: bool
    var showResults: bool
    var startTime: Option<int>
    var wpm: nat
    var accuracy: nat

    function Current(): Session
      reads this
    {
      Session(text, currentSentenceIndex, isRunning, showResults, startTime, wpm, accuracy)
    }

    predicate Valid()
      reads this
    {
      Inv(Current())
    }

    constructor ()
      ensures Valid() && Current() == Initial()
    {
      text := "";
      currentSentenceIndex := 0;
      isRunning := false;
      showResults := false;
      startTime := None;
      wpm := 0;
      accuracy := 0;
    }

    /** `calculateProgress`: how much of the current sentence's length has been typed,
        as a percentage capped at 100. */
    function CalculateProgress(): (p: real)
      reads this
      requires Valid()
      ensures 0.0 <= p <= 100.0
      ensures p == 100.0 <==> |text| >= |Sentence(currentSentenceIndex)|
      ensures p < 100.0 ==> p * |Sentence(currentSentenceIndex)| as real == 100.0 * |text| as real
    {
      Progress(|text|, |Sentence(currentSentenceIndex)|)
    }

    method StartTest(now: int)
      requires Valid() && !isRunning && !showResults
      modifies this
      ensures Valid() && Current() == Start(old(Current()), now)
    {
      text := "";
      isRunning := true;
      showResults := false;
      startTime := Some(now);
    }

    method HandleTextChange(value: string)
      requires Valid() && isRunning
      modifies this
      ensures Valid() && Current() == TextChange(old(Current()), value)
    {
      text := value;
    }

    method FinishTest(now: int)
      requires Valid() && isRunning && ClockAdvanced(Current(), now)
      modifies this
      ensures Valid() && Current() == Finish(old(Current()), now)
    {
      if startTime.None? || |text| == 0 {
        return;
      }
      var endTime := now;
      var elapsedMs := endTime - startTime.value;
      var words := WordCount(text);
      var calculatedWpm := Wpm(words, elapsedMs);
      var sentence := Sentence(currentSentenceIndex);
      var correctChars := CorrectChars(sentence, text);
      var calculatedAccuracy := RoundedRatio(100 * correctChars, |sentence|);
      ghost var after := Finish(Current(), now);
      assert calculatedWpm == after.wpm && calculatedAccuracy == after.accuracy;
      wpm := calculatedWpm;
      accuracy := calculatedAccuracy;
      isRunning := false;
      showResults := true;
    }

    method HandleKeyPress(key: string, now: int)
      requires Valid()
      requires key == "Enter" && isRunning ==> ClockAdvanced(Current(), now)
      modifies this
      ensures Valid() && Current() == KeyPress(old(Current()), key, now)
    {
      if key == "Enter" {
        if isRunning {
          FinishTest(now);
        }
      }
    }

    method ResetTest()
      requires Valid() && (isRunning || showResults)
      modifies this
      ensures Valid() && Current() == Reset(old(Current()))
    {
      text := "";
      isRunning := false;
      showResults := false;
      startTime := None;
      wpm := 0;
      accuracy := 0;
      currentSentenceIndex := (currentSentenceIndex + 1) % |Sentences|;
    }
  }
}
