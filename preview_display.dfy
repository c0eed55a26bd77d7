/**
  What `PreviewScreen` displays.  A truthy `error` shows the compilation-error panel; otherwise
  an `ErrorBoundary` wraps either the compiled component's element or a loading placeholder.
  The boundary latches the first render failure beneath it and from then on shows the
  runtime-error panel instead of its children.

  `Screen` adds the one piece of React's reconciliation the display depends on: the boundary
  instance survives every render whose result is again the boundary, and is discarded when the
  compilation-error panel takes its place.
*/
module PreviewDisplay {
  import opened Base
  import opened PreviewEffect

  /** The children handed to the boundary. */
  datatype Child = Element(component: ComponentRef) | Loading

  /** The element `PreviewScreen` returns. */
  datatype Selection = CompilationError(message: string) | InBoundary(child: Child)

  /** What ends up on screen. */
  datatype Output =
    | CompilationErrorPanel(message: string)
    | RuntimeErrorPanel(caught: Option<string>)
    | Rendered(child: Child)

  /** The render of `PreviewScreen`: the error, when truthy, wins over any component. */
  function Select(s: ViewState): (v: Selection)
    ensures v.CompilationError? <==> ErrorShown(s)
    ensures v.CompilationError? ==> v.message == s.error.value
    ensures v.InBoundary? ==> (v.child.Element? <==> s.component.Some?)
    ensures v.InBoundary? && s.component.Some? ==> v.child.component == s.component.value
  {
    if ErrorShown(s) then CompilationError(s.error.value)
    else if s.component.Some? then InBoundary(Element(s.component.value))
    else InBoundary(Loading)
  }

  /**
    End to end for one applied outcome: a function is mounted under the boundary, and every
    failure that reaches `setError` shows the compilation-error panel and mounts nothing.
  */
  lemma SelectAfterOutcome(s: ViewState, o: Outcome)
    ensures o.ReturnedFunction? ==> Select(ApplyOutcome(s, o)) == InBoundary(Element(o.component))
    ensures o.ReturnedOther? ==> Select(ApplyOutcome(s, o)) == CompilationError(InvalidComponentMessage)
    ensures o.Threw? && !o.thrown.Nullish? ==>
      Select(ApplyOutcome(s, o)) == CompilationError(CatchMessage(o.thrown).value)
  {
  }

  /** `this.state.error?.message`. */
  function StoredMessage(e: Option<Thrown>): (m: Option<string>)
    ensures m.Some? <==> e.Some? && e.value.ErrorWithMessage?
    ensures m.Some? ==> m.value == e.value.message
  {
    match e
    case Some(ErrorWithMessage(msg)) => Some(msg)
    case _ => None
  }

  class ErrorBoundary {
    var hasError: bool
    var error: Option<Thrown>

    /** `this.state = { hasError: false, error: null }`. */
    constructor ()
      ensures !hasError && error == None
    {
      hasError := false;
      error := None;
    }

    /**
      `getDerivedStateFromError`: React merges `{ hasError: true, error }` into the state when a
      child throws while rendering.  Nothing ever sets `hasError` back to false.
    */
    method CatchRenderError(e: Thrown)
      modifies this
      ensures hasError && error == Some(e)
    {
      hasError := true;
      error := Some(e);
    }

    /** `render`: the runtime-error panel once an error was caught, the children otherwise. */
    function Render(child: Child): (out: Output)
      reads this
      ensures out.RuntimeErrorPanel? <==> hasError
      ensures hasError ==> out.caught == StoredMessage(error)
      ensures !hasError ==> out == Rendered(child)
    {
      if hasError then RuntimeErrorPanel(StoredMessage(error)) else Rendered(child)
    }
  }

  /** `PreviewScreen` as mounted: its state, and the boundary instance React keeps, if any. */
  class Screen {
    const preview: Preview
    var boundary: ErrorBoundary?
    var boundaryKey: Option<ComponentRef>   // the component the boundary was mounted for

    constructor (p: Preview)
      ensures preview == p && boundary == null && boundaryKey == None
    {
      preview := p;
      boundary := null;
      boundaryKey := None;
    }

    /**
      Render and commit as the source is written: the boundary has no key, so React keeps the
      mounted instance, latched or not, for as long as the boundary is what is rendered.
    */
    method Commit() returns (out: Output)
      modifies this
      ensures boundaryKey == old(boundaryKey)
      ensures Select(preview.State()).CompilationError? ==>
        boundary == null && out == CompilationErrorPanel(Select(preview.State()).message)
      ensures Select(preview.State()).InBoundary? ==>
        && boundary != null
        && (old(boundary) != null ==> boundary == old(boundary))
        && (old(boundary) == null ==> fresh(boundary) && !boundary.hasError)
        && out == boundary.Render(Select(preview.State()).child)
      ensures Select(preview.State()).InBoundary? && old(boundary) != null && old(boundary.hasError) ==>
        out.RuntimeErrorPanel?
    {
      var v := Select(preview.State());
      match v
      case CompilationError(message) =>
        boundary := null;
        out := CompilationErrorPanel(message);
      case InBoundary(child) =>
        if boundary == null {
          boundary := new ErrorBoundary();
        }
        out := boundary.Render(child);
    }

    /** A mounted child threw while rendering; React hands the error to the boundary above it. */
    method ReportRenderError(e: Thrown)
      modifies if boundary != null then {boundary} else {}
      ensures boundary != null ==> boundary.hasError && boundary.error == Some(e)
    {
      if boundary != null {
        boundary.CatchRenderError(e);
      }
    }

    /**
      Corrected commit, as if the boundary carried the component as its React `key`: a
      different component gets a fresh boundary, so a newly compiled component is rendered.
    */
    method CommitKeyed() returns (out: Output)
      modifies this
      ensures Select(preview.State()).CompilationError? ==>
        && boundary == null && boundaryKey == old(boundaryKey)
        && out == CompilationErrorPanel(Select(preview.State()).message)
      ensures Select(preview.State()).InBoundary? ==>
        && boundary != null && boundaryKey == preview.component
        && (old(boundary) != null && old(boundaryKey) == preview.component ==> boundary == old(boundary))
        && (old(boundary) == null || old(boundaryKey) != preview.component ==> fresh(boundary) && !boundary.hasError)
        && out == boundary.Render(Select(preview.State()).child)
      ensures Select(preview.State()).InBoundary? && old(boundaryKey) != preview.component ==>
        out == Rendered(Select(preview.State()).child)
    {
      var v := Select(preview.State());
      match v
      case CompilationError(message) =>
        boundary := null;
        out := CompilationErrorPanel(message);
      case InBoundary(child) =>
        if boundary == null || boundaryKey != preview.component {
          boundary := new ErrorBoundary();
          boundaryKey := preview.component;
        }
        out := boundary.Render(child);
    }
  }

  /**
    As written: component 1 compiles and then throws while rendering; the code changes and
    component 2 compiles without error.  The screen still shows component 1's runtime error.
  */
  method StaleRuntimeErrorAfterRecompile() returns (out: Output)
    ensures out == RuntimeErrorPanel(Some("boom"))
  {
    var preview := new Preview();
    var screen := new Screen(preview);
    var first := new Attempt(preview);
    first.CompileAndRender(ReturnedFunction(1));
    out := screen.Commit();
    assert out == Rendered(Element(1));
    screen.ReportRenderError(ErrorWithMessage("boom"));
    out := screen.Commit();
    first.Cleanup();
    var second := new Attempt(preview);
    second.CompileAndRender(ReturnedFunction(2));
    assert Select(preview.State()) == InBoundary(Element(2));
    out := screen.Commit();
  }

  /** Corrected: the same sequence of events shows component 2. */
  method FreshComponentAfterRecompile() returns (out: Output)
    ensures out == Rendered(Element(2))
  {
    var preview := new Preview();
    var screen := new Screen(preview);
    var first := new Attempt(preview);
    first.CompileAndRender(ReturnedFunction(1));
    out := screen.CommitKeyed();
    screen.ReportRenderError(ErrorWithMessage("boom"));
    out := screen.CommitKeyed();
    assert out == RuntimeErrorPanel(Some("boom"));
    first.Cleanup();
    var second := new Attempt(preview);
    second.CompileAndRender(ReturnedFunction(2));
    out := screen.CommitKeyed();
  }
}
