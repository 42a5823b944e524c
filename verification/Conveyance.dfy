/** Nothing is lost, doubled or reordered on the way through the three threads: over
    every interleaving, the requests order entry made are executed in that order, and
    the events of each are answered in theirs. */
module Conveyance {
  import opened EngineTypes
  import opened BookSpec
  import opened OrderEntry
  import opened Pipeline

  /** The requests order entry has made of the messages received. */
  function Asked(states: seq<State>, steps: seq<Step>, i: nat): seq<Request>
    requires i <= |steps| < |states|
  {
    if i == 0 then []
    else
      Asked(states, steps, i - 1)
      + match steps[i - 1]
        case Receive(clientId, message) => Opt(Translate(states[i - 1].gateway, clientId, message).1.request)
        case _ => []
  }

  /** The requests the engine has executed. */
  function Done(states: seq<State>, steps: seq<Step>, i: nat): seq<Request>
    requires i <= |steps| < |states|
  {
    if i == 0 then []
    else Done(states, steps, i - 1) + if steps[i - 1].Execute? then Items(Opt(states[i - 1].current)) else []
  }

  /** The events the responder has answered. */
  function Answered(states: seq<State>, steps: seq<Step>, i: nat): seq<Event>
    requires i <= |steps| < |states|
  {
    if i == 0 then []
    else Answered(states, steps, i - 1) + if steps[i - 1].Answer? then Items(Opt(states[i - 1].held)) else []
  }

  lemma ItemsJoin<T>(xs: seq<Marked<T>>, ys: seq<Marked<T>>)
    ensures Items(xs + ys) == Items(xs) + Items(ys)
  {
  }

  /** One step: what was waiting is executed or still waits, behind it what has just
      been asked; what was unhandled is answered or still unhandled, behind it what has
      just happened. */
  ghost predicate Conveys(s: State, capacity: nat, step: Step)
    requires Enabled(s, step)
  {
    var s' := After(s, capacity, step);
    var asked := if step.Receive? then Opt(Translate(s.gateway, step.clientId, step.message).1.request) else [];
    var executed := if step.Execute? then Items(Opt(s.current)) else [];
    var answered := if step.Answer? then Items(Opt(s.held)) else [];
    && Items(Waiting(s)) + asked == executed + Items(Waiting(s'))
    && (step.Execute? ==>
          var o := Process(s.book, capacity, s.current.value.item);
          s'.book == o.book && Items(Unhandled(s)) + o.events == Items(Unhandled(s')))
    && (!step.Execute? ==> s'.book == s.book && Items(Unhandled(s)) == answered + Items(Unhandled(s')))
  }

  /** After i steps: requests in the order they were asked for, each executed once or
      still waiting; the book is what executing those makes of an empty one; and their
      events, in order, are each answered once or still on their way. */
  ghost predicate Tallied(states: seq<State>, steps: seq<Step>, capacity: nat, i: nat)
    requires i <= |steps| < |states|
  {
    var all := ProcessAll(EmptyBook, capacity, Done(states, steps, i));
    && Asked(states, steps, i) == Done(states, steps, i) + Items(Waiting(states[i]))
    && states[i].book == all.book && Answered(states, steps, i) + Items(Unhandled(states[i])) == all.events
  }

  lemma StepConveys(s: State, capacity: nat, step: Step)
    requires Enabled(s, step) && Inv(s, capacity)
    ensures Conveys(s, capacity, step)
  {
    hide Inv, Translate, Process, After, Waiting, Unhandled, EngineShape;
    Shaped(s, capacity);
    match step
    case Receive(_, _) => ReceiveConveys(s, capacity, step);
    case Execute => ExecuteConveys(s, capacity);
    case Answer => AnswerConveys(s, capacity);
    case _ =>
      OthersConvey(s, capacity, step);
  }

  lemma Shaped(s: State, capacity: nat)
    requires Inv(s, capacity)
    ensures EngineShape(s)
  {
  }

  lemma ReceiveConveys(s: State, capacity: nat, step: Step)
    requires Enabled(s, step) && step.Receive?
    ensures var s' := After(s, capacity, step);
            && Items(Waiting(s)) + Opt(Translate(s.gateway, step.clientId, step.message).1.request) == Items(Waiting(s'))
            && Unhandled(s') == Unhandled(s) && s'.book == s.book
  {
    hide Translate;
    var s' := After(s, capacity, step);
    var mark := s.taken + |Untaken(s')|;
    assert Waiting(s) == Opt(s.current) + Opt(s.next) + s.requests;
    assert Waiting(s') == Waiting(s) + Stamped(Opt(s'.requestToPush), mark);
    ItemsAppend(Waiting(s), Opt(s'.requestToPush), mark);
  }

  lemma ExecuteConveys(s: State, capacity: nat)
    requires EngineShape(s) && Enabled(s, Execute)
    ensures var s', o := After(s, capacity, Execute), Process(s.book, capacity, s.current.value.item);
            && Items(Waiting(s)) == Items(Opt(s.current)) + Items(Waiting(s')) && s'.book == o.book
            && Items(Unhandled(s)) + o.events == Items(Unhandled(s'))
  {
    hide Process;
    var s', o := After(s, capacity, Execute), Process(s.book, capacity, s.current.value.item);
    assert Waiting(s) == Opt(s.current) + Waiting(s');
    ItemsJoin(Opt(s.current), Waiting(s'));
    assert Unhandled(s') == Unhandled(s) + Stamped(o.events, s.current.value.mark);
    ItemsAppend(Unhandled(s), o.events, s.current.value.mark);
  }

  lemma AnswerConveys(s: State, capacity: nat)
    requires Enabled(s, Answer)
    ensures var s' := After(s, capacity, Answer);
            Waiting(s') == Waiting(s) && s'.book == s.book && Items(Unhandled(s)) == Items(Opt(s.held)) + Items(Unhandled(s'))
  {
    var s' := After(s, capacity, Answer);
    assert Waiting(s') == Waiting(s);
    assert Unhandled(s) == Opt(s.held) + Unhandled(s');
    ItemsJoin(Opt(s.held), Unhandled(s'));
  }

  lemma OthersConvey(s: State, capacity: nat, step: Step)
    requires EngineShape(s) && Enabled(s, step) && !step.Receive? && !step.Execute? && !step.Answer?
    ensures var s' := After(s, capacity, step);
            Items(Waiting(s')) == Items(Waiting(s)) && s'.book == s.book && Unhandled(s') == Unhandled(s)
  {
    var s' := After(s, capacity, step);
    match step
    case PushNote =>
      assert Untaken(s') == Untaken(s);
    case TakeNote => assert Untaken(s') == Untaken(s)[1..];
    case EmitEvent => UnhandledSame(s, capacity, step);
    case PopEvent => UnhandledSame(s, capacity, step);
    case EndDrain =>
    case _ => WaitingSame(s, capacity, step);
  }

  /** Over every interleaving nothing asked for or reported is lost, doubled or out of
      order. */
  lemma {:induction false} NothingLost(states: seq<State>, steps: seq<Step>, capacity: nat, i: nat)
    requires Interleaving(states, steps, capacity) && i <= |steps|
    ensures Tallied(states, steps, capacity, i)
    decreases i
  {
    hide Inv, After, Enabled, Faithful, Waiting, Unhandled, Process, Translate, Items, Conveys;
    if i == 0 {
      StartEmpty();
    } else {
      var before, step := states[i - 1], steps[i - 1];
      NothingLost(states, steps, capacity, i - 1);
      NothingDropped(states, steps, capacity, i - 1);
      StepConveys(before, capacity, step);
      hide Asked, Done, Answered;
      RunStep(states, steps, capacity, i);
    }
  }

  /** The sums after a step, from those before it and what the step conveys. */
  lemma RunStep(states: seq<State>, steps: seq<Step>, capacity: nat, i: nat)
    requires 0 < i <= |steps| < |states| && Enabled(states[i - 1], steps[i - 1])
    requires states[i] == After(states[i - 1], capacity, steps[i - 1])
    requires Conveys(states[i - 1], capacity, steps[i - 1])
    requires Tallied(states, steps, capacity, i - 1)
    ensures Tallied(states, steps, capacity, i)
  {
    hide After, Enabled, Waiting, Unhandled, Process, Translate, Items;
    hide Conveys, Tallied;
    if steps[i - 1].Execute? {
      RunExecute(states, steps, capacity, i);
    } else {
      RunOther(states, steps, capacity, i);
    }
  }

  lemma RunExecute(states: seq<State>, steps: seq<Step>, capacity: nat, i: nat)
    requires 0 < i <= |steps| < |states| && Enabled(states[i - 1], steps[i - 1])
    requires states[i] == After(states[i - 1], capacity, steps[i - 1])
    requires Conveys(states[i - 1], capacity, steps[i - 1])
    requires Tallied(states, steps, capacity, i - 1)
    requires steps[i - 1].Execute?
    ensures Tallied(states, steps, capacity, i)
  {
    hide After, Enabled, Waiting, Unhandled, Process, Translate, Items;
    var req := states[i - 1].current;
    var done, answered := Done(states, steps, i - 1), Answered(states, steps, i - 1);
    ExecuteReady(states[i - 1]);
    assert Done(states, steps, i) == done + [req.value.item] && Done(states, steps, i)[..|done|] == done;
    assert Asked(states, steps, i) == Asked(states, steps, i - 1) && Answered(states, steps, i) == answered;
    Regroup(done, [req.value.item], Items(Waiting(states[i])));
    Regroup(answered, Items(Unhandled(states[i - 1])), Process(states[i - 1].book, capacity, req.value.item).events);
  }

  lemma RunOther(states: seq<State>, steps: seq<Step>, capacity: nat, i: nat)
    requires 0 < i <= |steps| < |states| && Enabled(states[i - 1], steps[i - 1])
    requires states[i] == After(states[i - 1], capacity, steps[i - 1])
    requires Conveys(states[i - 1], capacity, steps[i - 1])
    requires Tallied(states, steps, capacity, i - 1)
    requires !steps[i - 1].Execute?
    ensures Tallied(states, steps, capacity, i)
  {
    hide After, Enabled, Waiting, Unhandled, Process, Translate, Items, ProcessAll;
    var before, step := states[i - 1], steps[i - 1];
    var done, waiting := Done(states, steps, i - 1), Items(Waiting(states[i]));
    assert Done(states, steps, i) == done && [] + waiting == waiting;
    Regroup(done, Items(Waiting(before)), Asked(states, steps, i)[|Asked(states, steps, i - 1)|..]);
    Regroup(Answered(states, steps, i - 1), if step.Answer? then Items(Opt(before.held)) else [], Items(Unhandled(states[i])));
  }

  lemma Regroup<T>(a: seq<T>, b: seq<T>, c: seq<T>)
    ensures a + (b + c) == (a + b) + c
  {
  }

  lemma StartEmpty()
    ensures Items(Waiting(START)) == [] && Items(Unhandled(START)) == [] && START.book == EmptyBook
  {
  }

  lemma ExecuteReady(s: State)
    requires Enabled(s, Execute)
    ensures s.current.Some? && Items(Opt(s.current)) == [s.current.value.item]
  {
  }
}
