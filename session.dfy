/**
 * The turn controller: the three session fields, what one press of "Send" or
 * "Reset Session" does to them, and which model (if any) that press asks.
 *
 * `OnSend` and `OnReset` give the effect of one press on a session value;
 * `ChatSession` is the session object whose handlers update its fields in
 * place and are proved to follow them; `Run` and `Effects` follow a whole
 * sequence of presses, which is what the set-once and reset lemmas are about.
 */
module Session {
  import opened Text
  import opened Prompts
  import opened Inference

  /** The turn from which the diagnosis model is asked instead of the
      clarification model. */
  const DiagnosisTurn: int := 3

  /** The session fields: `chat_history`, `turn_counter` and `diagnosis`
      (`Null` is Python's `None`, the "no diagnosis yet" value). */
  datatype State = State(history: seq<string>, counter: int, diagnosis: Json)

  /** The fields as first created, and as "Reset Session" leaves them. */
  const Initial: State := State([], 0, Null)

  /** What every session reached by the handlers satisfies: the counter
      counts the stored messages, and a diagnosis is stored only from the
      third turn on. */
  predicate WellFormed(s: State)
  {
    s.counter == |s.history| && (s.diagnosis != Null ==> s.counter >= DiagnosisTurn)
  }

  /** What one press shows the user, and which model it asked with which prompt. */
  datatype Effect =
    | Ignored                                    // blank input: nothing happens
    | Clarified(prompt: string, reply: string)   // the clarification model answered
    | ClarificationRaised(prompt: string)        // its request raised: no reply is shown
    | Diagnosed(prompt: string, result: Json)    // the diagnosis model answered
    | DiagnosisRaised(prompt: string)            // its request raised: nothing is stored
    | AlreadyDiagnosed                           // only the "already provided" notice
    | Cleared                                    // the session was reset
  {
    predicate AsksClarification()
    {
      Clarified? || ClarificationRaised?
    }

    predicate AsksDiagnosis()
    {
      Diagnosed? || DiagnosisRaised?
    }

    predicate CallsModel()
    {
      AsksClarification() || AsksDiagnosis()
    }
  }

  datatype Transition = Transition(next: State, effect: Effect)

  /** Pressing "Send" with `input` in the text box. `outcome` is what the
      request to the endpoint that gets asked (if any) comes to. The message
      is stored and counted before any request is made, so a request that
      raises leaves it stored and counted. */
  function OnSend(s: State, input: string, outcome: Outcome, render: Json -> string): (t: Transition)
    ensures IsBlank(input) ==> t == Transition(s, Ignored)
    ensures !IsBlank(input) ==> t.next.history == s.history + [input] && t.next.counter == s.counter + 1
    ensures !t.effect.Diagnosed? ==> t.next.diagnosis == s.diagnosis
    ensures outcome.Raised? ==> t.next.diagnosis == s.diagnosis
    ensures WellFormed(s) ==> WellFormed(t.next)
  {
    if IsBlank(input) then Transition(s, Ignored)
    else Ask(State(s.history + [input], s.counter + 1, s.diagnosis), input, outcome, render)
  }

  /** The rest of a non-blank Send, once `input` is stored and counted in
      `s`: the model the turn counter selects is asked, or only the notice is
      shown. Only an answered diagnosis request changes the session. */
  function Ask(s: State, input: string, outcome: Outcome, render: Json -> string): (t: Transition)
    ensures t.next.history == s.history && t.next.counter == s.counter
    ensures !t.effect.Diagnosed? ==> t.next.diagnosis == s.diagnosis
    ensures t.effect.Diagnosed? ==> outcome.Answered? && s.counter >= DiagnosisTurn && s.diagnosis == Null
    ensures t.effect.Diagnosed? ==> t.next.diagnosis == t.effect.result
  {
    if s.counter < DiagnosisTurn then
      var prompt := ClarificationPrompt(s.history, input);
      match outcome
      case Raised => Transition(s, ClarificationRaised(prompt))
      case Answered(response) => Transition(s, Clarified(prompt, Clarify(response, prompt, render)))
    else if s.diagnosis == Null then
      var prompt := DiagnosisPrompt(Conversation(s.history));
      match outcome
      case Raised => Transition(s, DiagnosisRaised(prompt))
      case Answered(response) =>
        var result := Diagnose(response);
        Transition(s.(diagnosis := result), Diagnosed(prompt, result))
    else
      Transition(s, AlreadyDiagnosed)
  }

  /** A non-blank Send that brings the counter to 1 or 2 asks the
      clarification model once, with the prompt built from the updated
      history, and leaves the diagnosis untouched. */
  lemma SendBeforeDiagnosisTurn(s: State, input: string, outcome: Outcome, render: Json -> string)
    requires !IsBlank(input) && s.counter + 1 < DiagnosisTurn
    ensures var t := OnSend(s, input, outcome, render);
            && t.next == State(s.history + [input], s.counter + 1, s.diagnosis)
            && t.effect.AsksClarification()
            && t.effect.prompt == ClarificationPrompt(t.next.history, input)
            && (outcome.Answered? ==> t.effect == Clarified(t.effect.prompt, Clarify(outcome.response, t.effect.prompt, render)))
            && (outcome.Raised? ==> t.effect == ClarificationRaised(t.effect.prompt))
  {
  }

  /** From the third turn on, a non-blank Send asks the diagnosis model
      exactly when no diagnosis is stored, and then stores its result; a
      request that raises stores nothing. */
  lemma SendFromDiagnosisTurn(s: State, input: string, outcome: Outcome, render: Json -> string)
    requires !IsBlank(input) && s.counter + 1 >= DiagnosisTurn
    ensures var t := OnSend(s, input, outcome, render);
            var prompt := DiagnosisPrompt(Conversation(s.history + [input]));
            && t.next.history == s.history + [input] && t.next.counter == s.counter + 1
            && (s.diagnosis == Null && outcome.Answered? ==>
                  && t.effect == Diagnosed(prompt, Diagnose(outcome.response))
                  && t.next.diagnosis == Diagnose(outcome.response))
            && (s.diagnosis == Null && outcome.Raised? ==>
                  t.effect == DiagnosisRaised(prompt) && t.next.diagnosis == Null)
            && (s.diagnosis != Null ==> t.effect == AlreadyDiagnosed && t.next.diagnosis == s.diagnosis)
  {
  }

  /** An unavailable clarification endpoint does not lose the turn: the
      message is still stored and counted, and the reply is the fixed
      fallback text. */
  lemma UnavailableClarificationKeepsTurn(s: State, input: string, response: Response, render: Json -> string)
    requires !IsBlank(input) && s.counter + 1 < DiagnosisTurn && response.status != StatusOk
    ensures var t := OnSend(s, input, Answered(response), render);
            && t.next == State(s.history + [input], s.counter + 1, s.diagnosis)
            && t.effect == Clarified(ClarificationPrompt(s.history + [input], input), QwenUnavailable)
  {
  }

  /** A diagnosis body that is not JSON still sets the diagnosis: the stored
      value is the "Invalid MBART output." marker, which is not `None`. */
  lemma MalformedDiagnosisIsStored(s: State, input: string, render: Json -> string)
    requires !IsBlank(input) && s.counter + 1 >= DiagnosisTurn && s.diagnosis == Null
    ensures var t := OnSend(s, input, Answered(Response(StatusOk, Malformed)), render);
            && t.next.diagnosis == ErrorMarker(MbartInvalid)
            && t.next.diagnosis != Null
  {
  }

  /** Pressing "Reset Session": from any state, all three fields go back to
      their initial values. */
  function OnReset(s: State): (r: State)
    ensures r.history == [] && r.counter == 0 && r.diagnosis == Null
    ensures WellFormed(r)
  {
    Initial
  }

  /** One press of either button. */
  datatype Event = SendPressed(input: string, outcome: Outcome) | ResetPressed

  function Step(s: State, e: Event, render: Json -> string): Transition
  {
    match e
    case SendPressed(input, outcome) => OnSend(s, input, outcome, render)
    case ResetPressed => Transition(OnReset(s), Cleared)
  }

  /** The session after a sequence of presses. */
  function Run(s: State, events: seq<Event>, render: Json -> string): State
    decreases |events|
  {
    if events == [] then s
    else Run(Step(s, events[0], render).next, events[1..], render)
  }

  /** What each press of a sequence showed, in order. */
  function Effects(s: State, events: seq<Event>, render: Json -> string): (r: seq<Effect>)
    ensures |r| == |events|
    decreases |events|
  {
    if events == [] then []
    else
      var t := Step(s, events[0], render);
      [t.effect] + Effects(t.next, events[1..], render)
  }

  /** How many presses of a sequence asked the diagnosis model. */
  function DiagnosisCalls(effects: seq<Effect>): nat
  {
    if effects == [] then 0
    else (if effects[0].AsksDiagnosis() then 1 else 0) + DiagnosisCalls(effects[1..])
  }

  predicate NoReset(events: seq<Event>)
  {
    forall k :: 0 <= k < |events| ==> events[k].SendPressed?
  }

  /** The inputs of a sequence of Send presses, in order. */
  function Inputs(events: seq<Event>): (r: seq<string>)
    requires NoReset(events)
    ensures |r| == |events|
  {
    if events == [] then [] else [events[0].input] + Inputs(events[1..])
  }

  /** Running two sequences one after the other is running their concatenation. */
  lemma {:induction false} RunAppend(s: State, a: seq<Event>, b: seq<Event>, render: Json -> string)
    ensures Run(s, a + b, render) == Run(Run(s, a, render), b, render)
    decreases |a|
  {
    if a == [] {
      assert a + b == b;
    } else {
      assert (a + b)[0] == a[0] && (a + b)[1..] == a[1..] + b;
      RunAppend(Step(s, a[0], render).next, a[1..], b, render);
    }
  }

  /** The turn counter always equals the length of the history, and a stored
      diagnosis always comes with at least three turns, whatever is pressed. */
  lemma {:induction false} RunWellFormed(s: State, events: seq<Event>, render: Json -> string)
    requires WellFormed(s)
    ensures WellFormed(Run(s, events, render))
    decreases |events|
  {
    if events != [] {
      RunWellFormed(Step(s, events[0], render).next, events[1..], render);
    }
  }

  /** A reset anywhere in a sequence wipes out everything pressed before it:
      the end state depends only on the presses after the reset. */
  lemma ResetForgetsEarlierTurns(s: State, before: seq<Event>, after: seq<Event>, render: Json -> string)
    ensures Run(s, before + [ResetPressed] + after, render) == Run(Initial, after, render)
  {
    RunAppend(s, before + [ResetPressed], after, render);
    RunAppend(s, before, [ResetPressed], render);
  }

  /** Resetting twice is resetting once. */
  lemma ResetIdempotent(s: State, render: Json -> string)
    ensures Run(s, [ResetPressed, ResetPressed], render) == Run(s, [ResetPressed], render) == Initial
  {
  }

  /** Blank or whitespace-only Sends change nothing and ask no model. */
  lemma {:induction false} BlankSendsChangeNothing(s: State, events: seq<Event>, render: Json -> string)
    requires forall k :: 0 <= k < |events| ==> events[k].SendPressed? && IsBlank(events[k].input)
    ensures Run(s, events, render) == s
    ensures forall k :: 0 <= k < |events| ==> Effects(s, events, render)[k] == Ignored
    decreases |events|
  {
    if events != [] {
      BlankSendsChangeNothing(s, events[1..], render);
    }
  }

  /** Every non-blank Send appends its own message to the end of the
      history and adds one to the counter, whatever else it does; earlier
      entries stay as they were. */
  lemma {:induction false} SendsAppendInputs(s: State, events: seq<Event>, render: Json -> string)
    requires NoReset(events)
    requires forall k :: 0 <= k < |events| ==> !IsBlank(events[k].input)
    ensures Run(s, events, render).history == s.history + Inputs(events)
    ensures Run(s, events, render).counter == s.counter + |events|
    decreases |events|
  {
    if events != [] {
      var t := Step(s, events[0], render);
      SendsAppendInputs(t.next, events[1..], render);
      assert Inputs(events) == [events[0].input] + Inputs(events[1..]);
      assert s.history + Inputs(events) == t.next.history + Inputs(events[1..]);
    }
  }

  /** Non-blank Sends before the third turn each ask the clarification model
      exactly once and leave the diagnosis alone. */
  lemma {:induction false} EarlyTurnsClarify(s: State, events: seq<Event>, render: Json -> string)
    requires NoReset(events)
    requires forall k :: 0 <= k < |events| ==> !IsBlank(events[k].input)
    requires s.counter + |events| < DiagnosisTurn
    ensures forall k :: 0 <= k < |events| ==> Effects(s, events, render)[k].AsksClarification()
    ensures Run(s, events, render).diagnosis == s.diagnosis
    decreases |events|
  {
    if events != [] {
      var t := Step(s, events[0], render);
      SendBeforeDiagnosisTurn(s, events[0].input, events[0].outcome, render);
      var rest := Effects(t.next, events[1..], render);
      EarlyTurnsClarify(t.next, events[1..], render);
      assert Effects(s, events, render) == [t.effect] + rest;
      forall k | 0 <= k < |events| ensures Effects(s, events, render)[k].AsksClarification() {
        if k > 0 { assert Effects(s, events, render)[k] == rest[k - 1]; }
      }
    }
  }

  /** The third non-blank Send of a fresh session asks the diagnosis model
      with the whole conversation and stores what it returns. */
  lemma ThirdTurnDiagnoses(a: string, b: string, c: string, ra: Outcome, rb: Outcome, rc: Response,
                           render: Json -> string)
    requires !IsBlank(a) && !IsBlank(b) && !IsBlank(c)
    ensures var events := [SendPressed(a, ra), SendPressed(b, rb), SendPressed(c, Answered(rc))];
            && Effects(Initial, events, render)[2] == Diagnosed(DiagnosisPrompt(Conversation([a, b, c])), Diagnose(rc))
            && Run(Initial, events, render) == State([a, b, c], 3, Diagnose(rc))
  {
    var events := [SendPressed(a, ra), SendPressed(b, rb), SendPressed(c, Answered(rc))];
    var t1 := OnSend(Initial, a, ra, render);
    SendBeforeDiagnosisTurn(Initial, a, ra, render);
    assert t1.next == State([a], 1, Null);
    var t2 := OnSend(t1.next, b, rb, render);
    SendBeforeDiagnosisTurn(t1.next, b, rb, render);
    assert t2.next == State([a, b], 2, Null);
    var t3 := OnSend(t2.next, c, Answered(rc), render);
    SendFromDiagnosisTurn(t2.next, c, Answered(rc), render);
    assert t3.next == State([a, b, c], 3, Diagnose(rc));
    assert t3.effect == Diagnosed(DiagnosisPrompt(Conversation([a, b, c])), Diagnose(rc));
    assert events[1..] == [SendPressed(b, rb), SendPressed(c, Answered(rc))];
    assert events[1..][1..] == [SendPressed(c, Answered(rc))];
    assert Effects(t2.next, events[2..], render) == [t3.effect];
    assert Effects(t1.next, events[1..], render) == [t2.effect, t3.effect];
    assert Run(t2.next, events[2..], render) == t3.next;
  }

  /** Set once: once a diagnosis other than `None` is stored, later Sends ask
      no model at all and leave it as it is, until the session is reset. */
  lemma {:induction false} DiagnosisSetOnce(s: State, events: seq<Event>, render: Json -> string)
    requires WellFormed(s) && s.diagnosis != Null && NoReset(events)
    ensures Run(s, events, render).diagnosis == s.diagnosis
    ensures forall k :: 0 <= k < |events| ==> !Effects(s, events, render)[k].CallsModel()
    decreases |events|
  {
    if events != [] {
      DiagnosisSetOnce(Step(s, events[0], render).next, events[1..], render);
    }
  }

  /** Every request to the diagnosis model among `effects` was answered,
      with something other than a JSON `null`. */
  predicate AnswersNonNull(effects: seq<Effect>)
  {
    forall k :: 0 <= k < |effects| && effects[k].AsksDiagnosis() ==>
      effects[k].Diagnosed? && effects[k].result != Null
  }

  lemma AnswersNonNullSplit(e: Effect, rest: seq<Effect>)
    requires AnswersNonNull([e] + rest)
    ensures AnswersNonNull(rest)
    ensures e.AsksDiagnosis() ==> e.Diagnosed? && e.result != Null
  {
    assert ([e] + rest)[0] == e;
    forall k | 0 <= k < |rest| && rest[k].AsksDiagnosis()
      ensures rest[k].Diagnosed? && rest[k].result != Null
    {
      assert ([e] + rest)[k + 1] == rest[k];
    }
  }

  /** Between two resets the diagnosis model is asked at most once, and not
      at all once a diagnosis is stored, provided every request to it is
      answered with something other than a JSON `null`. What the
      clarification model answers plays no part. */
  lemma {:induction false} AtMostOneDiagnosisCall(s: State, events: seq<Event>, render: Json -> string)
    requires WellFormed(s) && NoReset(events)
    requires AnswersNonNull(Effects(s, events, render))
    ensures DiagnosisCalls(Effects(s, events, render)) <= if s.diagnosis == Null then 1 else 0
    decreases |events|
  {
    if events != [] {
      var t := Step(s, events[0], render);
      var rest := Effects(t.next, events[1..], render);
      assert Effects(s, events, render) == [t.effect] + rest;
      AnswersNonNullSplit(t.effect, rest);
      AtMostOneDiagnosisCall(t.next, events[1..], render);
      assert ([t.effect] + rest)[1..] == rest;
    }
  }

  /** The set-once behaviour stops at a `null` answer or at a request that
      raises: the diagnosis stays `None`, so the next non-blank Send asks the
      diagnosis model again. */
  lemma DiagnosisAskedAgain(s: State, a: string, first: Outcome, b: string, second: Outcome, render: Json -> string)
    requires WellFormed(s) && s.counter >= DiagnosisTurn - 1 && s.diagnosis == Null
    requires !IsBlank(a) && !IsBlank(b)
    requires first == Answered(Response(StatusOk, Parsed(Null))) || first == Raised
    ensures var events := [SendPressed(a, first), SendPressed(b, second)];
            && Effects(s, events, render)[0].AsksDiagnosis()
            && Effects(s, events, render)[1].AsksDiagnosis()
            && DiagnosisCalls(Effects(s, events, render)) == 2
  {
    var events := [SendPressed(a, first), SendPressed(b, second)];
    var t1 := Step(s, events[0], render);
    SendFromDiagnosisTurn(s, a, first, render);
    assert t1.effect.AsksDiagnosis() && t1.next.diagnosis == Null;
    assert t1.next.counter >= DiagnosisTurn - 1;
    var t2 := Step(t1.next, events[1], render);
    SendFromDiagnosisTurn(t1.next, b, second, render);
    assert t2.effect.AsksDiagnosis();
    assert events[1..] == [events[1]] && events[1..][1..] == [];
    var tail := Effects(t1.next, events[1..], render);
    assert tail == [t2.effect] + Effects(t2.next, [], render);
    var e := Effects(s, events, render);
    assert e == [t1.effect] + tail;
    assert e[1..] == tail && tail[1..] == [];
    assert DiagnosisCalls(tail) == 1;
  }

  /** The session object that the Send and Reset handlers update in place. */
  class ChatSession {
    var chatHistory: seq<string>
    var turnCounter: int
    var diagnosis: Json

    /** The fields as a `State` value. */
    function Snapshot(): State
      reads this
    {
      State(chatHistory, turnCounter, diagnosis)
    }

    constructor ()
      ensures Snapshot() == Initial && WellFormed(Snapshot())
    {
      chatHistory := [];
      turnCounter := 0;
      diagnosis := Null;
    }

    /** The "Send" handler. */
    method Send(input: string, outcome: Outcome, render: Json -> string) returns (effect: Effect)
      modifies this
      ensures Transition(Snapshot(), effect) == OnSend(old(Snapshot()), input, outcome, render)
      ensures old(WellFormed(Snapshot())) ==> WellFormed(Snapshot())
    {
      StripEmptyIffBlank(input);
      if Strip(input) == "" {
        effect := Ignored;
        return;
      }
      chatHistory := chatHistory + [input];
      turnCounter := turnCounter + 1;
      assert OnSend(old(Snapshot()), input, outcome, render) == Ask(Snapshot(), input, outcome, render);
      if turnCounter < DiagnosisTurn {
        var prompt := ClarificationPrompt(chatHistory, input);
        if outcome.Raised? {
          effect := ClarificationRaised(prompt);
          return;
        }
        var reply := Clarify(outcome.response, prompt, render);
        effect := Clarified(prompt, reply);
      } else if diagnosis == Null {
        var prompt := DiagnosisPrompt(Conversation(chatHistory));
        if outcome.Raised? {
          effect := DiagnosisRaised(prompt);
          return;
        }
        diagnosis := Diagnose(outcome.response);
        effect := Diagnosed(prompt, diagnosis);
      } else {
        effect := AlreadyDiagnosed;
      }
    }

    /** The "Reset Session" handler. */
    method Reset()
      modifies this
      ensures Snapshot() == OnReset(old(Snapshot()))
      ensures chatHistory == [] && turnCounter == 0 && diagnosis == Null
    {
      chatHistory := [];
      turnCounter := 0;
      diagnosis := Null;
    }
  }
}
