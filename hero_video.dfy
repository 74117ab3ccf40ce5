/**
 * The hero video handler: the first DOMContentLoaded listener of
 * hero-video-handler.js. Two handlers decide what is visible, `handleVideoLoad`
 * and `handleVideoError`; media events and two timers call them. There is no
 * once-only guard: the load handler may run any number of times.
 */
module HeroVideo {
  import opened Dom

  /** `HTMLMediaElement.readyState`, from HAVE_NOTHING (0) to HAVE_ENOUGH_DATA (4). */
  type ReadyState = r: int | 0 <= r <= 4

  /** The class the load handler adds to the video container. */
  const VideoLoaded := "video-loaded"

  /** The state the handler reads and writes. */
  datatype Hero = Hero(
    videoDisplay: string,                // heroVideo.style.display
    videoOpacity: string,                // heroVideo.style.opacity
    placeholderDisplay: Option<string>,  // heroVideoPlaceholder.style.display; None when the page has no placeholder
    containerClasses: Option<ClassList>, // heroVideoContainer's classes; None when the page has no container
    readyState: ReadyState,              // heroVideo.readyState, reported by the media element
    probePending: bool,                  // the 500 ms readiness probe has not fired yet
    fallbackPending: bool)               // the 3000 ms fallback deadline has neither fired nor been cleared

  /** What the user sees: the video's display and opacity and the placeholder's display. */
  datatype Look = Look(videoDisplay: string, videoOpacity: string, placeholderDisplay: Option<string>)

  function LookOf(h: Hero): Look
  {
    Look(h.videoDisplay, h.videoOpacity, h.placeholderDisplay)
  }

  /** The elements the page has: a placeholder, a container, both or neither. */
  predicate SameElements(h: Hero, g: Hero)
  {
    h.placeholderDisplay.Some? == g.placeholderDisplay.Some? && h.containerClasses.Some? == g.containerClasses.Some?
  }

  /** The state once the DOMContentLoaded listener has run: the video visible by default, both timers armed. */
  function Initial(placeholder: Option<string>, container: Option<ClassList>, readyState: ReadyState): Hero
  {
    Hero("block", "1", placeholder, container, readyState, true, true)
  }

  /** `handleVideoLoad` (the call to `play()` is a no-op here). */
  function Load(h: Hero): Hero
  {
    h.(placeholderDisplay := if h.placeholderDisplay.Some? then Some("none") else None,
       videoOpacity := "1",
       videoDisplay := "block",
       containerClasses := if h.containerClasses.Some? then Some(h.containerClasses.value + {VideoLoaded}) else None)
  }

  /** `handleVideoError`, whatever its argument. */
  function Fail(h: Hero): Hero
  {
    h.(videoDisplay := "none",
       videoOpacity := "0",
       placeholderDisplay := if h.placeholderDisplay.Some? then Some("block") else None)
  }

  /** What the page can deliver to the handler. */
  datatype Event =
    | LoadedData | LoadedMetadata | CanPlay | CanPlayThrough  // readiness events, each bound to handleVideoLoad
    | Error | Abort                                           // failure events, each bound to handleVideoError
    | Stalled                                                 // only logged
    | ProbeTimer                                              // the 500 ms timeout fires
    | FallbackTimer                                           // the 3000 ms timeout fires
    | ReadyStateChange(level: ReadyState)                     // the media element's readyState moves, with no event

  /** One event, with the listeners bound to it run in the order they were added. */
  function Step(h: Hero, e: Event): (r: Hero)
    ensures SameElements(h, r)
    ensures r.fallbackPending ==> h.fallbackPending
    ensures h.containerClasses.Some? && VideoLoaded in h.containerClasses.value ==>
      VideoLoaded in r.containerClasses.value
  {
    match e
    case LoadedData => Load(h).(fallbackPending := false)
    case LoadedMetadata => Load(h)
    case CanPlay => Load(h)
    case CanPlayThrough => Load(h)
    case Error => Fail(h)
    case Abort => Fail(h)
    case Stalled => h
    case ProbeTimer =>
      if !h.probePending then h
      else
        var g := h.(probePending := false);
        if h.readyState >= 2 then Load(g) else g
    case FallbackTimer =>
      if !h.fallbackPending then h
      else
        var g := h.(fallbackPending := false);
        if h.readyState >= 1 then Load(g) else Fail(g)
    case ReadyStateChange(level) => h.(readyState := level)
  }

  /** A sequence of events, in the order the page delivers them. */
  function Run(h: Hero, es: seq<Event>): (r: Hero)
    ensures SameElements(h, r)
    ensures r.fallbackPending ==> h.fallbackPending
    ensures h.containerClasses.Some? && VideoLoaded in h.containerClasses.value ==>
      VideoLoaded in r.containerClasses.value
    decreases |es|
  {
    if es == [] then h else Run(Step(h, es[0]), es[1..])
  }

  /** Which of the two handlers an event runs in a given state, if either. */
  datatype Handler = LoadHandler | ErrorHandler

  function HandlerRun(h: Hero, e: Event): Option<Handler>
  {
    match e
    case LoadedData => Some(LoadHandler)
    case LoadedMetadata => Some(LoadHandler)
    case CanPlay => Some(LoadHandler)
    case CanPlayThrough => Some(LoadHandler)
    case Error => Some(ErrorHandler)
    case Abort => Some(ErrorHandler)
    case Stalled => None
    case ProbeTimer => if h.probePending && h.readyState >= 2 then Some(LoadHandler) else None
    case FallbackTimer =>
      if !h.fallbackPending then None
      else if h.readyState >= 1 then Some(LoadHandler)
      else Some(ErrorHandler)
    case ReadyStateChange(_) => None
  }

  /** The handler the last of a run's events ran, if any of them ran one. */
  function LastHandler(h: Hero, es: seq<Event>): Option<Handler>
    decreases |es|
  {
    if es == [] then None
    else
      var later := LastHandler(Step(h, es[0]), es[1..]);
      if later.Some? then later else HandlerRun(h, es[0])
  }

  /** Some event of the run ran the load handler. */
  predicate LoadHandlerRan(h: Hero, es: seq<Event>)
    decreases |es|
  {
    es != [] && (HandlerRun(h, es[0]) == Some(LoadHandler) || LoadHandlerRan(Step(h, es[0]), es[1..]))
  }

  // ---- the two handlers ----

  /** After the load handler the video shows, the placeholder (if any) is hidden and the container (if any) is marked. */
  lemma LoadShowsVideo(h: Hero)
    ensures Load(h).videoDisplay == "block" && Load(h).videoOpacity == "1"
    ensures h.placeholderDisplay.Some? ==> Load(h).placeholderDisplay == Some("none")
    ensures h.containerClasses.Some? ==> Load(h).containerClasses.Some? && VideoLoaded in Load(h).containerClasses.value
    ensures SameElements(h, Load(h))
    ensures Load(h).readyState == h.readyState && Load(h).probePending == h.probePending
    ensures Load(h).fallbackPending == h.fallbackPending
  {
  }

  /** Running the load handler again changes nothing. */
  lemma LoadIdempotent(h: Hero)
    ensures Load(Load(h)) == Load(h)
  {
    if h.containerClasses.Some? {
      assert h.containerClasses.value + {VideoLoaded} + {VideoLoaded} == h.containerClasses.value + {VideoLoaded};
    }
  }

  /** After the error handler the video is hidden and the placeholder (if any) shows; the container is untouched. */
  lemma FailShowsFallback(h: Hero)
    ensures Fail(h).videoDisplay == "none" && Fail(h).videoOpacity == "0"
    ensures h.placeholderDisplay.Some? ==> Fail(h).placeholderDisplay == Some("block")
    ensures Fail(h).containerClasses == h.containerClasses
    ensures SameElements(h, Fail(h))
    ensures Fail(h).readyState == h.readyState && Fail(h).probePending == h.probePending
    ensures Fail(h).fallbackPending == h.fallbackPending
  {
  }

  lemma FailIdempotent(h: Hero)
    ensures Fail(Fail(h)) == Fail(h)
  {
  }

  /** The later of the two handlers decides what is visible; an error does not remove `video-loaded`. */
  lemma LaterHandlerWins(h: Hero)
    ensures Load(Fail(h)) == Load(h)
    ensures LookOf(Fail(Load(h))) == LookOf(Fail(h))
    ensures Fail(Load(h)).containerClasses == Load(h).containerClasses
  {
  }

  /** What each handler shows depends only on which elements the page has. */
  lemma LookDependsOnElements(h: Hero, g: Hero)
    requires SameElements(h, g)
    ensures LookOf(Load(h)) == LookOf(Load(g))
    ensures LookOf(Fail(h)) == LookOf(Fail(g))
  {
  }

  // ---- single events ----

  /** The 500 ms probe runs the load handler exactly when readyState is at least 2, and otherwise changes nothing visible. */
  lemma ProbeDecision(h: Hero)
    requires h.probePending
    ensures h.readyState >= 2 ==> Step(h, ProbeTimer) == Load(h).(probePending := false)
    ensures h.readyState < 2 ==> Step(h, ProbeTimer) == h.(probePending := false)
    ensures !Step(h, ProbeTimer).probePending
  {
  }

  /** The 3000 ms deadline takes the load path when readyState is at least 1 and the error path ('timeout') otherwise. */
  lemma FallbackDecision(h: Hero)
    requires h.fallbackPending
    ensures h.readyState >= 1 ==> Step(h, FallbackTimer) == Load(h).(fallbackPending := false)
    ensures h.readyState < 1 ==> Step(h, FallbackTimer) == Fail(h).(fallbackPending := false)
  {
  }

  /** Once fired or cleared, the deadline does nothing. */
  lemma FallbackClearedIsInert(h: Hero)
    requires !h.fallbackPending
    ensures Step(h, FallbackTimer) == h
  {
  }

  /** Only `loadeddata` clears the deadline; no event arms it again. */
  lemma OnlyLoadedDataClears(h: Hero, e: Event)
    ensures Step(h, e).fallbackPending ==> h.fallbackPending
    ensures e != LoadedData && e != FallbackTimer ==> Step(h, e).fallbackPending == h.fallbackPending
    ensures !Step(h, LoadedData).fallbackPending
  {
  }

  /** Every event keeps the set of elements the page has, and `video-loaded` once present stays. */
  lemma StepKeeps(h: Hero, e: Event)
    ensures SameElements(h, Step(h, e))
    ensures h.containerClasses.Some? && VideoLoaded in h.containerClasses.value ==>
      VideoLoaded in Step(h, e).containerClasses.value
  {
  }

  /** The load or error handler that an event runs is what changes the visible state, and nothing else does. */
  lemma StepLook(h: Hero, e: Event)
    ensures HandlerRun(h, e) == None ==> LookOf(Step(h, e)) == LookOf(h)
    ensures HandlerRun(h, e) == Some(LoadHandler) ==> LookOf(Step(h, e)) == LookOf(Load(h))
    ensures HandlerRun(h, e) == Some(ErrorHandler) ==> LookOf(Step(h, e)) == LookOf(Fail(h))
  {
  }

  // ---- runs of events ----

  lemma {:induction false} RunKeepsElements(h: Hero, es: seq<Event>)
    ensures SameElements(h, Run(h, es))
    decreases |es|
  {
    if es != [] {
      StepKeeps(h, es[0]);
      RunKeepsElements(Step(h, es[0]), es[1..]);
    }
  }

  /**
   * The visible state after any run of events is the one the last handler
   * to run leaves, or the initial one if no handler ran: redundant
   * readiness events are harmless, and only their order against the
   * failure events matters.
   */
  lemma {:induction false} RunLook(h: Hero, es: seq<Event>)
    ensures LastHandler(h, es) == None ==> LookOf(Run(h, es)) == LookOf(h)
    ensures LastHandler(h, es) == Some(LoadHandler) ==> LookOf(Run(h, es)) == LookOf(Load(h))
    ensures LastHandler(h, es) == Some(ErrorHandler) ==> LookOf(Run(h, es)) == LookOf(Fail(h))
    decreases |es|
  {
    if es != [] {
      var g := Step(h, es[0]);
      RunLook(g, es[1..]);
      StepKeeps(h, es[0]);
      LookDependsOnElements(h, g);
      StepLook(h, es[0]);
    }
  }

  /**
   * The container ends with `video-loaded` exactly when it started with it
   * or the load handler ran at some point, whatever came after.
   */
  lemma {:induction false} RunVideoLoaded(h: Hero, es: seq<Event>)
    requires h.containerClasses.Some?
    ensures Run(h, es).containerClasses.Some?
    ensures VideoLoaded in Run(h, es).containerClasses.value <==>
      VideoLoaded in h.containerClasses.value || LoadHandlerRan(h, es)
    decreases |es|
  {
    if es != [] {
      var g := Step(h, es[0]);
      StepKeeps(h, es[0]);
      RunVideoLoaded(g, es[1..]);
    }
  }

  /** After a `loadeddata` event the deadline never fires. */
  lemma {:induction false} LoadedDataDisarms(h: Hero, es: seq<Event>)
    requires LoadedData in es || !h.fallbackPending
    ensures !Run(h, es).fallbackPending
    decreases |es|
  {
    if es != [] {
      OnlyLoadedDataClears(h, es[0]);
      if es[0] != LoadedData && h.fallbackPending {
        assert LoadedData in es[1..];
      }
      LoadedDataDisarms(Step(h, es[0]), es[1..]);
    }
  }

  /** An error followed by any readiness event shows the video again: a failure is not final. */
  lemma ErrorThenReadinessShowsVideo(h: Hero, e: Event)
    requires e == LoadedData || e == LoadedMetadata || e == CanPlay || e == CanPlayThrough
    ensures LookOf(Run(h, [Error, e])) == LookOf(Load(h))
  {
    assert [Error, e][1..] == [e];
    assert Run(h, [Error, e]) == Run(Fail(h), [e]);
    assert [e][1..] == [];
    assert Run(Fail(h), [e]) == Step(Fail(h), e);
    assert LookOf(Step(Fail(h), e)) == LookOf(Load(Fail(h))) == LookOf(Load(h));
  }

  /** With no media event at all, the deadline alone decides: readiness 0 falls back, any data shows the video. */
  lemma DeadlineAlone(placeholder: Option<string>, container: Option<ClassList>, readyState: ReadyState)
    ensures var h := Initial(placeholder, container, readyState);
      LookOf(Step(h, FallbackTimer)) == if readyState >= 1 then LookOf(Load(h)) else LookOf(Fail(h))
  {
  }

  /**
   * The handler's state as a page object. Each method is one callback the
   * page can invoke; the browser runs them one at a time.
   */
  class HeroVideoHandler {
    var videoDisplay: string
    var videoOpacity: string
    var placeholderDisplay: Option<string>
    var containerClasses: Option<ClassList>
    var readyState: ReadyState
    var probePending: bool
    var fallbackPending: bool

    function State(): Hero
      reads this
    {
      Hero(videoDisplay, videoOpacity, placeholderDisplay, containerClasses, readyState, probePending, fallbackPending)
    }

    /** The DOMContentLoaded listener, for a page that has a hero video. */
    constructor (placeholder: Option<string>, container: Option<ClassList>, initialReadyState: ReadyState)
      ensures State() == Initial(placeholder, container, initialReadyState)
    {
      videoOpacity := "1";
      videoDisplay := "block";
      placeholderDisplay := placeholder;
      containerClasses := container;
      readyState := initialReadyState;
      probePending := true;
      fallbackPending := true;
    }

    method HandleVideoLoad()
      modifies this
      ensures State() == Load(old(State()))
    {
      if placeholderDisplay.Some? {
        placeholderDisplay := Some("none");
      }
      videoOpacity := "1";
      videoDisplay := "block";
      if containerClasses.Some? {
        containerClasses := Some(containerClasses.value + {VideoLoaded});
      }
    }

    method HandleVideoError()
      modifies this
      ensures State() == Fail(old(State()))
    {
      videoDisplay := "none";
      videoOpacity := "0";
      if placeholderDisplay.Some? {
        placeholderDisplay := Some("block");
      }
    }

    /** Delivers one event to the listeners bound to it. */
    method Dispatch(e: Event)
      modifies this
      ensures State() == Step(old(State()), e)
    {
      match e
      case LoadedData =>
        HandleVideoLoad();
        fallbackPending := false;
      case LoadedMetadata => HandleVideoLoad();
      case CanPlay => HandleVideoLoad();
      case CanPlayThrough => HandleVideoLoad();
      case Error => HandleVideoError();
      case Abort => HandleVideoError();
      case Stalled =>
      case ProbeTimer =>
        if probePending {
          probePending := false;
          if readyState >= 2 {
            HandleVideoLoad();
          }
        }
      case FallbackTimer =>
        if fallbackPending {
          fallbackPending := false;
          if readyState >= 1 {
            HandleVideoLoad();
          } else {
            HandleVideoError();
          }
        }
      case ReadyStateChange(level) => readyState := level;
    }

    /** Delivers a sequence of events in order. */
    method DispatchAll(es: seq<Event>)
      modifies this
      ensures State() == Run(old(State()), es)
    {
      var i := 0;
      while i < |es|
        invariant 0 <= i <= |es|
        invariant Run(State(), es[i..]) == Run(old(State()), es)
      {
        assert es[i..][1..] == es[i + 1..];
        Dispatch(es[i]);
        i := i + 1;
      }
    }
  }
}
