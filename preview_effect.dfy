/**
  The `useEffect` of `PreviewScreen`: for every value of `code` it sets a local `isMounted`
  flag, runs `compileAndRender`, and returns a cleanup that clears the flag.  Transforming and
  evaluating the code are not modelled; their combined outcome is an input.  What is modelled
  is how that outcome reaches the two pieces of component state, `component` and `error`, and
  that it reaches them only while the attempt's flag is still set.
*/
module PreviewEffect {
  import opened Base

  /** The identity of a function value returned by the generated code. */
  type ComponentRef = nat

  /** What a `catch` clause receives. */
  datatype Thrown =
    | ErrorWithMessage(message: string)   // an object whose `message` is a string
    | WithoutMessage                      // any other non-null value: `message` is undefined
    | Nullish                             // `null` or `undefined`: reading `message` throws

  /** The outcome of `Babel.transform` followed by `new Function(...)(scope)`. */
  datatype Outcome =
    | Threw(thrown: Thrown)                  // parsing, transforming or evaluating threw
    | ReturnedFunction(component: ComponentRef)
    | ReturnedOther                          // `exports.default` was not a function

  const InvalidComponentMessage: string := "The code did not export a valid React component."
  const FallbackMessage: string := "An error occurred while rendering the component."

  /** The two `useState` values of `PreviewScreen`; `None` is `null`. */
  datatype ViewState = ViewState(component: Option<ComponentRef>, error: Option<string>)

  const InitialView: ViewState := ViewState(None, None)

  /** JavaScript truthiness of `error`: a non-null, non-empty string. */
  predicate ErrorShown(s: ViewState) {
    s.error.Some? && s.error.value != ""
  }

  /** `error` is never the empty string, so its truthiness is just "not null". */
  predicate NoEmptyError(s: ViewState) {
    s.error != Some("")
  }

  /**
    `error.message || fallback` inside the `catch` clause; `None` when reading `message` itself
    throws (a thrown `null`), so that `setError` is never reached.
  */
  function CatchMessage(t: Thrown): (m: Option<string>)
    ensures m.None? <==> t.Nullish?
    ensures m.Some? ==> m.value != ""
    ensures t.ErrorWithMessage? && t.message != "" ==> m == Some(t.message)
    ensures t.WithoutMessage? || (t.ErrorWithMessage? && t.message == "") ==> m == Some(FallbackMessage)
  {
    match t
    case ErrorWithMessage(msg) => Some(if msg != "" then msg else FallbackMessage)
    case WithoutMessage => Some(FallbackMessage)
    case Nullish => None
  }

  /**
    How one outcome updates the state when it is applied.  A function becomes the component
    and clears the error; any failure leaves the component as it was (the last good one stays
    behind the error) and sets a non-empty error, except a thrown `null`, which changes nothing.
  */
  function ApplyOutcome(s: ViewState, o: Outcome): (r: ViewState)
    ensures o.ReturnedFunction? ==> r.component == Some(o.component) && r.error.None?
    ensures !o.ReturnedFunction? ==> r.component == s.component
    ensures o.ReturnedOther? ==> r.error == Some(InvalidComponentMessage)
    ensures o.Threw? && !o.thrown.Nullish? ==> r.error == CatchMessage(o.thrown)
    ensures o == Threw(Nullish) ==> r == s
    ensures (o.ReturnedOther? || (o.Threw? && !o.thrown.Nullish?)) ==> ErrorShown(r)
    ensures NoEmptyError(s) ==> NoEmptyError(r)
  {
    match o
    case ReturnedFunction(f) => ViewState(Some(f), None)
    case ReturnedOther => s.(error := Some(InvalidComponentMessage))
    case Threw(t) =>
      match CatchMessage(t)
      case Some(m) => s.(error := Some(m))
      case None => s
  }

  /** An attempt's outcome is applied only while its `isMounted` flag is still set. */
  function Settle(s: ViewState, isMounted: bool, o: Outcome): (r: ViewState)
    ensures !isMounted ==> r == s
    ensures isMounted ==> r == ApplyOutcome(s, o)
    ensures r != s ==> isMounted
    ensures NoEmptyError(s) ==> NoEmptyError(r)
  {
    if isMounted then ApplyOutcome(s, o) else s
  }

  /** The component state of `PreviewScreen`, with its two setters. */
  class Preview {
    var component: Option<ComponentRef>
    var error: Option<string>

    /** `useState(null)` twice. */
    constructor ()
      ensures component == None && error == None
    {
      component := None;
      error := None;
    }

    function State(): ViewState
      reads this
    {
      ViewState(component, error)
    }

    method SetComponent(c: ComponentRef)
      modifies this
      ensures component == Some(c) && error == old(error)
    {
      component := Some(c);
    }

    method SetError(e: Option<string>)
      modifies this
      ensures error == e && component == old(component)
    {
      error := e;
    }
  }

  /** One run of the effect: its `isMounted` flag and the state it writes to. */
  class Attempt {
    const preview: Preview
    var isMounted: bool

    /** `let isMounted = true`. */
    constructor (p: Preview)
      ensures preview == p && isMounted
    {
      preview := p;
      isMounted := true;
    }

    /**
      The part of `compileAndRender` after transform and evaluation: each setter is guarded by
      `isMounted`; after cleanup the call leaves the state exactly as it was.
    */
    method CompileAndRender(outcome: Outcome)
      modifies preview
      ensures preview.State() == Settle(old(preview.State()), isMounted, outcome)
      ensures !isMounted ==> unchanged(preview)
    {
      match outcome
      case ReturnedFunction(f) =>
        if isMounted {
          preview.SetComponent(f);
          preview.SetError(None);
        }
      case ReturnedOther =>
        if isMounted {
          preview.SetError(Some(InvalidComponentMessage));
        }
      case Threw(t) =>
        if isMounted {
          var message := CatchMessage(t);
          if message.Some? {
            preview.SetError(message);
          }
        }
    }

    /** The cleanup the effect returns: `isMounted = false`. */
    method Cleanup()
      modifies this
      ensures !isMounted
    {
      isMounted := false;
    }
  }

  // ---------------------------------------------------------------------------------------
  // A timeline of effect runs.  React runs the previous run's cleanup before it starts the
  // run for a new `code`, and runs the last cleanup when the screen unmounts.  Attempts are
  // numbered in the order they start; an attempt may finish at any later point.
  // ---------------------------------------------------------------------------------------

  datatype Event =
    | CodeChanged                                // cleanup of the running attempt, then a new one
    | Resolved(attempt: nat, outcome: Outcome)   // `compileAndRender` of that attempt finishes
    | Unmounted                                  // cleanup of the running attempt

  /** The state, the number of attempts started so far, and the attempts whose flag is set. */
  datatype Timeline = Timeline(view: ViewState, started: nat, mounted: set<nat>)

  const Start: Timeline := Timeline(InitialView, 0, {})

  function Step(t: Timeline, e: Event): (r: Timeline)
    ensures e.CodeChanged? ==> r.view == t.view && r.mounted == {t.started} && r.started == t.started + 1
    ensures e.Resolved? ==> r.started == t.started && r.mounted == t.mounted
    ensures e.Resolved? && e.attempt !in t.mounted ==> r.view == t.view
    ensures e.Resolved? && e.attempt in t.mounted ==> r.view == ApplyOutcome(t.view, e.outcome)
    ensures e.Unmounted? ==> r.view == t.view && r.mounted == {} && r.started == t.started
  {
    match e
    case CodeChanged => Timeline(t.view, t.started + 1, {t.started})
    case Resolved(a, o) => t.(view := Settle(t.view, a in t.mounted, o))
    case Unmounted => t.(mounted := {})
  }

  function Run(t: Timeline, events: seq<Event>): Timeline
    decreases |events|
  {
    if events == [] then t else Run(Step(t, events[0]), events[1..])
  }

  /** At most one attempt has its flag set, and it is the latest one started. */
  ghost predicate OnlyLatestMounted(t: Timeline) {
    forall a :: a in t.mounted ==> a + 1 == t.started
  }

  lemma {:induction false} RunKeepsOnlyLatestMounted(t: Timeline, events: seq<Event>)
    requires OnlyLatestMounted(t)
    ensures OnlyLatestMounted(Run(t, events))
    decreases |events|
  {
    if events != [] {
      RunKeepsOnlyLatestMounted(Step(t, events[0]), events[1..]);
    }
  }

  /** Only the latest attempt can change the state. */
  lemma OnlyLatestAttemptApplies(t: Timeline, a: nat, o: Outcome)
    requires OnlyLatestMounted(t)
    requires Step(t, Resolved(a, o)).view != t.view
    ensures a + 1 == t.started
  {
  }

  /** The attempt has been started and its cleanup has already run. */
  ghost predicate Superseded(t: Timeline, a: nat) {
    a < t.started && a !in t.mounted
  }

  /** The events with every completion of attempt `a` taken out. */
  function WithoutAttempt(events: seq<Event>, a: nat): (r: seq<Event>)
    ensures |r| <= |events|
  {
    if events == [] then []
    else if events[0].Resolved? && events[0].attempt == a then WithoutAttempt(events[1..], a)
    else [events[0]] + WithoutAttempt(events[1..], a)
  }

  /**
    A superseded attempt never has an observable effect: whenever it finishes, the timeline
    ends exactly as if it had never finished at all.
  */
  lemma {:induction false} SupersededAttemptIsDiscarded(t: Timeline, events: seq<Event>, a: nat)
    requires Superseded(t, a)
    ensures Run(t, events) == Run(t, WithoutAttempt(events, a))
    decreases |events|
  {
    if events != [] {
      var e := events[0];
      var t' := Step(t, e);
      assert Superseded(t', a);
      SupersededAttemptIsDiscarded(t', events[1..], a);
      if e.Resolved? && e.attempt == a {
        assert t' == t;
      } else {
        var w := [e] + WithoutAttempt(events[1..], a);
        assert w[0] == e && w[1..] == WithoutAttempt(events[1..], a);
      }
    }
  }

  /** Once the screen has unmounted, no completion changes the state. */
  lemma {:induction false} NothingAppliedAfterUnmount(t: Timeline, events: seq<Event>)
    requires t.mounted == {}
    requires forall i :: 0 <= i < |events| ==> !events[i].CodeChanged?
    ensures Run(t, events).view == t.view
    decreases |events|
  {
    if events != [] {
      var t' := Step(t, events[0]);
      assert t'.mounted == {} && t'.view == t.view;
      NothingAppliedAfterUnmount(t', events[1..]);
    }
  }

  /**
    `code` changes twice before the first attempt finishes; the first attempt finishes last.
    Only the second attempt's outcome is applied.
  */
  lemma LatestOutcomeWinsOutOfOrder(first: Outcome, second: Outcome)
    ensures Run(Start, [CodeChanged, CodeChanged, Resolved(1, second), Resolved(0, first)]).view
            == ApplyOutcome(InitialView, second)
  {
    var t := Run(Start, [CodeChanged, CodeChanged]);
    assert t == Timeline(InitialView, 2, {1});
    var tail := [Resolved(1, second), Resolved(0, first)];
    assert [CodeChanged, CodeChanged] + tail == [CodeChanged, CodeChanged, Resolved(1, second), Resolved(0, first)];
    RunAppend(Start, [CodeChanged, CodeChanged], tail);
    SupersededAttemptIsDiscarded(t, tail, 0);
    assert WithoutAttempt(tail, 0) == [Resolved(1, second)];
  }

  lemma {:induction false} RunAppend(t: Timeline, a: seq<Event>, b: seq<Event>)
    ensures Run(t, a + b) == Run(Run(t, a), b)
    decreases |a|
  {
    if a == [] {
      assert a + b == b;
    } else {
      assert (a + b)[0] == a[0] && (a + b)[1..] == a[1..] + b;
      RunAppend(Step(t, a[0]), a[1..], b);
    }
  }

  /** The state never holds an empty error string, whatever happens. */
  lemma {:induction false} RunKeepsNoEmptyError(t: Timeline, events: seq<Event>)
    requires NoEmptyError(t.view)
    ensures NoEmptyError(Run(t, events).view)
    decreases |events|
  {
    if events != [] {
      RunKeepsNoEmptyError(Step(t, events[0]), events[1..]);
    }
  }
}
