/**
 * performance.js: the head elements inserted when absent, the one-time
 * start-up of the optimisations around DOM readiness, the style fields set
 * to prevent layout shift, and the per-image loading classes.
 */
module Performance {
  import opened Dom
  import opened Strings

  // ---- immediate stabilisation ----

  /** The elements `immediateStabilization` queries and creates. */
  datatype Element =
    | Link(rel: string, href: string, media: string)
    | Meta(name: string, content: string)
    | OtherElement(tag: string)

  const SafeModeLink := Link("stylesheet", "safe-mode.css", "all")
  const ViewportMeta := Meta("viewport", "width=device-width, initial-scale=1.0")

  /** Matches `link[href*="safe-mode.css"]`. */
  predicate IsSafeModeLink(e: Element)
  {
    e.Link? && Contains(e.href, "safe-mode.css")
  }

  /** Matches `meta[name="viewport"]`. */
  predicate IsViewportMeta(e: Element)
  {
    e.Meta? && e.name == "viewport"
  }

  predicate HasSafeModeLink(doc: seq<Element>)
  {
    exists k | 0 <= k < |doc| :: IsSafeModeLink(doc[k])
  }

  predicate HasViewportMeta(doc: seq<Element>)
  {
    exists k | 0 <= k < |doc| :: IsViewportMeta(doc[k])
  }

  function CountSafeModeLinks(doc: seq<Element>): nat
  {
    if doc == [] then 0 else CountSafeModeLinks(doc[..|doc| - 1]) + (if IsSafeModeLink(doc[|doc| - 1]) then 1 else 0)
  }

  function CountViewportMetas(doc: seq<Element>): nat
  {
    if doc == [] then 0 else CountViewportMetas(doc[..|doc| - 1]) + (if IsViewportMeta(doc[|doc| - 1]) then 1 else 0)
  }

  /** `immediateStabilization` on the document's elements; created elements go at the end. */
  function Stabilize(doc: seq<Element>): (r: seq<Element>)
    ensures |doc| <= |r| <= |doc| + 2 && r[..|doc|] == doc
    ensures HasSafeModeLink(r) && HasViewportMeta(r)
  {
    var withCss := if HasSafeModeLink(doc) then doc else doc + [SafeModeLink];
    assert IsSafeModeLink(SafeModeLink) && IsViewportMeta(ViewportMeta);
    assert HasSafeModeLink(withCss) by {
      if !HasSafeModeLink(doc) {
        assert IsSafeModeLink(withCss[|doc|]);
      }
    }
    var k :| 0 <= k < |withCss| && IsSafeModeLink(withCss[k]);
    if HasViewportMeta(withCss) then withCss
    else
      var r := withCss + [ViewportMeta];
      assert r[k] == withCss[k] && IsViewportMeta(r[|withCss|]);
      r
  }

  lemma SafeModeLinkMatches()
    ensures IsSafeModeLink(SafeModeLink) && !IsViewportMeta(SafeModeLink)
    ensures IsViewportMeta(ViewportMeta) && !IsSafeModeLink(ViewportMeta)
  {
    assert MatchesAt(SafeModeLink.href, "safe-mode.css", 0);
  }

  lemma {:induction false} CountSafeModeLinksPositive(doc: seq<Element>)
    ensures CountSafeModeLinks(doc) > 0 <==> HasSafeModeLink(doc)
  {
    if doc != [] {
      var init := doc[..|doc| - 1];
      CountSafeModeLinksPositive(init);
      if HasSafeModeLink(init) {
        var k :| 0 <= k < |init| && IsSafeModeLink(init[k]);
        assert doc[k] == init[k];
      }
      if HasSafeModeLink(doc) {
        var k :| 0 <= k < |doc| && IsSafeModeLink(doc[k]);
        if k < |init| {
          assert init[k] == doc[k];
        }
      }
    }
  }

  lemma {:induction false} CountViewportMetasPositive(doc: seq<Element>)
    ensures CountViewportMetas(doc) > 0 <==> HasViewportMeta(doc)
  {
    if doc != [] {
      var init := doc[..|doc| - 1];
      CountViewportMetasPositive(init);
      if HasViewportMeta(init) {
        var k :| 0 <= k < |init| && IsViewportMeta(init[k]);
        assert doc[k] == init[k];
      }
      if HasViewportMeta(doc) {
        var k :| 0 <= k < |doc| && IsViewportMeta(doc[k]);
        if k < |init| {
          assert init[k] == doc[k];
        }
      }
    }
  }

  /** The existing elements stay in place, and only the missing ones of the two are added. */
  lemma StabilizeAppends(doc: seq<Element>)
    ensures Stabilize(doc) == doc
      + (if HasSafeModeLink(doc) then [] else [SafeModeLink])
      + (if HasViewportMeta(doc) then [] else [ViewportMeta])
  {
    SafeModeLinkMatches();
    var withCss := if HasSafeModeLink(doc) then doc else doc + [SafeModeLink];
    if HasViewportMeta(doc) {
      var k :| 0 <= k < |doc| && IsViewportMeta(doc[k]);
      assert withCss[k] == doc[k];
    }
    if HasViewportMeta(withCss) {
      var k :| 0 <= k < |withCss| && IsViewportMeta(withCss[k]);
      if k < |doc| {
        assert doc[k] == withCss[k];
      }
    }
  }

  /** Afterwards there is a stylesheet link and a viewport meta: exactly one of each if there was none, the old number otherwise. */
  lemma StabilizeCounts(doc: seq<Element>)
    ensures HasSafeModeLink(Stabilize(doc)) && HasViewportMeta(Stabilize(doc))
    ensures CountSafeModeLinks(Stabilize(doc)) == if HasSafeModeLink(doc) then CountSafeModeLinks(doc) else 1
    ensures CountViewportMetas(Stabilize(doc)) == if HasViewportMeta(doc) then CountViewportMetas(doc) else 1
  {
    SafeModeLinkMatches();
    StabilizeAppends(doc);
    CountSafeModeLinksPositive(doc);
    CountViewportMetasPositive(doc);
    var withCss := if HasSafeModeLink(doc) then doc else doc + [SafeModeLink];
    if !HasSafeModeLink(doc) {
      AppendCounts(doc, SafeModeLink);
    }
    assert CountSafeModeLinks(withCss) == if HasSafeModeLink(doc) then CountSafeModeLinks(doc) else 1;
    assert CountViewportMetas(withCss) == CountViewportMetas(doc);
    var r := withCss + if HasViewportMeta(doc) then [] else [ViewportMeta];
    assert r == Stabilize(doc);
    if !HasViewportMeta(doc) {
      AppendCounts(withCss, ViewportMeta);
    } else {
      assert r == withCss;
    }
    assert CountSafeModeLinks(r) == CountSafeModeLinks(withCss);
    assert CountViewportMetas(r) == if HasViewportMeta(doc) then CountViewportMetas(doc) else 1;
  }

  /** Appending one element adds one to the count of its own kind only. */
  lemma AppendCounts(doc: seq<Element>, e: Element)
    ensures CountSafeModeLinks(doc + [e]) == CountSafeModeLinks(doc) + if IsSafeModeLink(e) then 1 else 0
    ensures CountViewportMetas(doc + [e]) == CountViewportMetas(doc) + if IsViewportMeta(e) then 1 else 0
  {
    assert (doc + [e])[..|doc|] == doc;
  }

  /** Running the stabilisation again changes nothing. */
  lemma StabilizeIdempotent(doc: seq<Element>)
    ensures Stabilize(Stabilize(doc)) == Stabilize(doc)
  {
    StabilizeCounts(doc);
    StabilizeAppends(Stabilize(doc));
  }

  // ---- start-up around DOM readiness ----

  datatype ReadyState = Loading | Interactive | Complete

  /**
   * Start-up bookkeeping: the document's ready state, whether
   * `initializeOptimizations` waits for `DOMContentLoaded`, and how many
   * times it has run.
   */
  datatype Startup = Startup(readyState: ReadyState, deferred: bool, runs: nat)

  /** The script's own body after `immediateStabilization`: run now, or wait for the DOM. */
  function ScriptStart(s: Startup): Startup
  {
    if s.readyState == Loading then s.(deferred := true) else s.(runs := s.runs + 1)
  }

  /** The browser ends the loading state and fires `DOMContentLoaded`, once. */
  function DomContentLoaded(s: Startup): Startup
    requires s.readyState == Loading
  {
    Startup(Interactive, s.deferred, s.runs + if s.deferred then 1 else 0)
  }

  /** The start-up after the DOM is ready, from the state the script met. */
  function AfterDomReady(readyState: ReadyState): Startup
  {
    var s := ScriptStart(Startup(readyState, false, 0));
    if readyState == Loading then DomContentLoaded(s) else s
  }

  /** Whichever state the script meets, nothing runs while loading and the optimisations run exactly once once the DOM is ready. */
  lemma InitializesOnce(readyState: ReadyState)
    ensures readyState == Loading ==> ScriptStart(Startup(readyState, false, 0)).runs == 0
    ensures AfterDomReady(readyState).runs == 1
    ensures AfterDomReady(readyState).readyState != Loading
  {
  }

  // ---- layout-shift prevention ----

  /** An element's inline style: property name to value, an absent property reading as empty. */
  type Style = map<string, string>

  function Get(style: Style, property: string): string
  {
    if property in style then style[property] else ""
  }

  function HeroStyled(s: Style): Style
  {
    s["minHeight" := "100vh"]["position" := "relative"]
  }

  function ContainerStyled(s: Style): Style
  {
    s["position" := "absolute"]["top" := "0"]["left" := "0"]["width" := "100%"]["height" := "100%"]
  }

  function NavbarStyled(s: Style): Style
  {
    s["height" := "80px"]
  }

  /** The style of one image container: a default size only when its height is unset. */
  function SlotStyled(s: Style): Style
  {
    if Get(s, "height") == "" then s["height" := "250px"]["objectFit" := "cover"] else s
  }

  /** The video container is positioned only when a hero section exists. */
  function ContainerAfter(hero: Option<Style>, container: Option<Style>): Option<Style>
  {
    if hero.Some? && container.Some? then Some(ContainerStyled(container.value)) else container
  }

  function MapStyle(e: Option<Style>, f: Style -> Style): Option<Style>
  {
    if e.Some? then Some(f(e.value)) else None
  }

  /** An unset height becomes 250px with object-fit cover; every other property is kept. */
  lemma SlotUnsetSized(s: Style)
    requires Get(s, "height") == ""
    ensures Get(SlotStyled(s), "height") == "250px" && Get(SlotStyled(s), "objectFit") == "cover"
    ensures forall p :: p != "height" && p != "objectFit" ==> Get(SlotStyled(s), p) == Get(s, p)
  {
  }

  /** A set height is left alone, object-fit included; and sizing twice is sizing once. */
  lemma SlotSetUnchanged(s: Style)
    ensures Get(s, "height") != "" ==> SlotStyled(s) == s
    ensures SlotStyled(SlotStyled(s)) == SlotStyled(s)
  {
  }

  /** Without a hero section the video container keeps its style; with one, it is made to cover the hero. */
  lemma ContainerNeedsHero(hero: Option<Style>, container: Option<Style>)
    ensures hero.None? ==> ContainerAfter(hero, container) == container
    ensures ContainerAfter(hero, container).Some? <==> container.Some?
    ensures hero.Some? && container.Some? ==>
      Get(ContainerAfter(hero, container).value, "position") == "absolute"
      && Get(ContainerAfter(hero, container).value, "width") == "100%"
      && Get(ContainerAfter(hero, container).value, "height") == "100%"
  {
  }

  // ---- image loading classes ----

  const LoadingClass := "loading"
  const LoadedClass := "loaded"
  const ErrorClass := "error"

  /** An `img`: whether it had finished loading when the script ran, its classes, and whether the script's listeners are attached. */
  datatype Image = Image(complete: bool, classes: ClassList, listening: bool)

  /** One image in `optimizeImageLoading`. */
  function Prepare(img: Image): Image
  {
    if img.complete then img.(classes := img.classes + {LoadedClass})
    else img.(classes := img.classes + {LoadingClass}, listening := true)
  }

  datatype ImageEvent = Load | Fail

  /** The `load` and `error` listeners, when attached. */
  function OnImageEvent(img: Image, e: ImageEvent): (r: Image)
    ensures r.complete == img.complete && r.listening == img.listening
    ensures !img.listening ==> r == img
    ensures img.listening ==> LoadingClass !in r.classes
    ensures forall c :: c != LoadingClass && c != LoadedClass && c != ErrorClass ==> (c in r.classes <==> c in img.classes)
  {
    if !img.listening then img
    else match e
      case Load => img.(classes := img.classes - {LoadingClass} + {LoadedClass})
      case Fail => img.(classes := img.classes - {LoadingClass} + {ErrorClass})
  }

  function OnImageEvents(img: Image, es: seq<ImageEvent>): Image
    decreases |es|
  {
    if es == [] then img else OnImageEvents(OnImageEvent(img, es[0]), es[1..])
  }

  /** A finished image is marked loaded and gets no listeners; an unfinished one is marked loading and listens. */
  lemma PrepareMarks(img: Image)
    ensures Prepare(img).complete == img.complete
    ensures img.complete ==> Prepare(img).classes == img.classes + {LoadedClass} && Prepare(img).listening == img.listening
    ensures !img.complete ==> Prepare(img).classes == img.classes + {LoadingClass} && Prepare(img).listening
  {
  }

  /** One event takes off `loading` and adds only its own class. */
  lemma OneEventOneClass(img: Image, e: ImageEvent)
    requires img.listening
    ensures var r := OnImageEvent(img, e);
      && LoadingClass !in r.classes
      && (LoadedClass in r.classes <==> LoadedClass in img.classes || e == Load)
      && (ErrorClass in r.classes <==> ErrorClass in img.classes || e == Fail)
  {
  }

  /** After any events on a listening image: `loading` is gone once one has fired, and `loaded`/`error` were added exactly by the events of their kind. */
  lemma {:induction false} EventsClasses(img: Image, es: seq<ImageEvent>)
    requires img.listening
    ensures OnImageEvents(img, es).listening
    ensures OnImageEvents(img, es).classes ==
      (if es == [] then img.classes else img.classes - {LoadingClass})
      + (if Load in es then {LoadedClass} else {})
      + (if Fail in es then {ErrorClass} else {})
    decreases |es|
  {
    if es != [] {
      var next := OnImageEvent(img, es[0]);
      EventsClasses(next, es[1..]);
      assert forall e :: e in es <==> e == es[0] || e in es[1..];
    }
  }

  /** An image that was still loading and then loaded without error ends `loaded` and never `error`. */
  lemma LoadedNeverError(img: Image, es: seq<ImageEvent>)
    requires !img.complete && ErrorClass !in img.classes && LoadedClass !in img.classes
    requires Load in es && Fail !in es
    ensures var r := OnImageEvents(Prepare(img), es);
      LoadedClass in r.classes && ErrorClass !in r.classes && LoadingClass !in r.classes
  {
    EventsClasses(Prepare(img), es);
  }

  /** A finished image never changes on later events. */
  lemma {:induction false} CompleteImageIgnoresEvents(img: Image, es: seq<ImageEvent>)
    requires !img.listening
    ensures OnImageEvents(img, es) == img
    decreases |es|
  {
    if es != [] {
      CompleteImageIgnoresEvents(img, es[1..]);
    }
  }

  // ---- the page ----

  /** The elements performance.js touches. */
  class Page {
    var elements: seq<Element>
    var readyState: ReadyState
    var deferred: bool
    var runs: nat
    var hero: Option<Style>
    var videoContainer: Option<Style>
    var navbar: Option<Style>
    /** `.property-card-image, .asset-image img, .experience-card img`, in document order. */
    const imageSlots: array<Style>
    /** Every `img`, in document order. */
    const images: array<Image>

    function Boot(): Startup
      reads this
    {
      Startup(readyState, deferred, runs)
    }

    constructor (elements: seq<Element>, readyState: ReadyState, hero: Option<Style>, videoContainer: Option<Style>,
                 navbar: Option<Style>, imageSlots: array<Style>, images: array<Image>)
      ensures this.elements == elements && Boot() == Startup(readyState, false, 0)
      ensures this.hero == hero && this.videoContainer == videoContainer && this.navbar == navbar
      ensures this.imageSlots == imageSlots && this.images == images
    {
      this.elements, this.readyState, deferred, runs := elements, readyState, false, 0;
      this.hero, this.videoContainer, this.navbar := hero, videoContainer, navbar;
      this.imageSlots, this.images := imageSlots, images;
    }

    /** `preventLayoutShift`. */
    method PreventLayoutShift()
      modifies this, imageSlots
      ensures hero == MapStyle(old(hero), HeroStyled)
      ensures videoContainer == ContainerAfter(old(hero), old(videoContainer))
      ensures navbar == MapStyle(old(navbar), NavbarStyled)
      ensures forall k :: 0 <= k < imageSlots.Length ==> imageSlots[k] == SlotStyled(old(imageSlots[k]))
      ensures elements == old(elements) && Boot() == old(Boot())
    {
      if hero.Some? {
        hero := Some(HeroStyled(hero.value));
        if videoContainer.Some? {
          videoContainer := Some(ContainerStyled(videoContainer.value));
        }
      }
      if navbar.Some? {
        navbar := Some(NavbarStyled(navbar.value));
      }
      for k := 0 to imageSlots.Length
        modifies imageSlots
        invariant forall j :: 0 <= j < k ==> imageSlots[j] == SlotStyled(old(imageSlots[j]))
        invariant forall j :: k <= j < imageSlots.Length ==> imageSlots[j] == old(imageSlots[j])
      {
        if Get(imageSlots[k], "height") == "" {
          imageSlots[k] := imageSlots[k]["height" := "250px"]["objectFit" := "cover"];
        }
      }
    }

    /** `optimizeImageLoading`. */
    method OptimizeImageLoading()
      modifies images
      ensures forall k :: 0 <= k < images.Length ==> images[k] == Prepare(old(images[k]))
    {
      for k := 0 to images.Length
        invariant forall j :: 0 <= j < k ==> images[j] == Prepare(old(images[j]))
        invariant forall j :: k <= j < images.Length ==> images[j] == old(images[j])
      {
        var img := images[k];
        if img.complete {
          images[k] := img.(classes := img.classes + {LoadedClass});
        } else {
          images[k] := img.(classes := img.classes + {LoadingClass}, listening := true);
        }
      }
    }

    /** `initializeOptimizations`; the font and widget work of `handleCriticalResources` is not part of this model. */
    method InitializeOptimizations()
      modifies this, imageSlots, images
      ensures hero == MapStyle(old(hero), HeroStyled)
      ensures videoContainer == ContainerAfter(old(hero), old(videoContainer))
      ensures navbar == MapStyle(old(navbar), NavbarStyled)
      ensures forall k :: 0 <= k < imageSlots.Length ==> imageSlots[k] == SlotStyled(old(imageSlots[k]))
      ensures forall k :: 0 <= k < images.Length ==> images[k] == Prepare(old(images[k]))
      ensures elements == old(elements) && Boot() == old(Boot()).(runs := old(runs) + 1)
    {
      PreventLayoutShift();
      OptimizeImageLoading();
      runs := runs + 1;
    }

    /** The head-element checks at the top of the script. */
    method StabilizeHead()
      modifies this
      ensures elements == Stabilize(old(elements))
      ensures Boot() == old(Boot())
      ensures hero == old(hero) && videoContainer == old(videoContainer) && navbar == old(navbar)
    {
      if !HasSafeModeLink(elements) {
        elements := elements + [SafeModeLink];
      }
      if !HasViewportMeta(elements) {
        elements := elements + [ViewportMeta];
      }
    }

    /** The script's immediately run body. */
    method RunScript()
      modifies this, imageSlots, images
      ensures elements == Stabilize(old(elements))
      ensures Boot() == ScriptStart(old(Boot()))
      ensures old(readyState) == Loading ==>
        hero == old(hero) && videoContainer == old(videoContainer) && navbar == old(navbar)
        && imageSlots[..] == old(imageSlots[..]) && images[..] == old(images[..])
      ensures old(readyState) != Loading ==>
        hero == MapStyle(old(hero), HeroStyled) && videoContainer == ContainerAfter(old(hero), old(videoContainer))
        && navbar == MapStyle(old(navbar), NavbarStyled)
        && (forall k :: 0 <= k < imageSlots.Length ==> imageSlots[k] == SlotStyled(old(imageSlots[k])))
        && (forall k :: 0 <= k < images.Length ==> images[k] == Prepare(old(images[k])))
    {
      StabilizeHead();
      if readyState == Loading {
        deferred := true;
      } else {
        InitializeOptimizations();
      }
    }

    /** The document finishes parsing. */
    method DomContentLoadedFired()
      requires readyState == Loading
      modifies this, imageSlots, images
      ensures Boot() == DomContentLoaded(old(Boot()))
      ensures elements == old(elements)
      ensures !old(deferred) ==>
        hero == old(hero) && videoContainer == old(videoContainer) && navbar == old(navbar)
        && imageSlots[..] == old(imageSlots[..]) && images[..] == old(images[..])
      ensures old(deferred) ==>
        hero == MapStyle(old(hero), HeroStyled) && videoContainer == ContainerAfter(old(hero), old(videoContainer))
        && navbar == MapStyle(old(navbar), NavbarStyled)
        && (forall k :: 0 <= k < imageSlots.Length ==> imageSlots[k] == SlotStyled(old(imageSlots[k])))
        && (forall k :: 0 <= k < images.Length ==> images[k] == Prepare(old(images[k])))
    {
      readyState := Interactive;
      if deferred {
        InitializeOptimizations();
      }
    }

    /** A `load` or `error` event on the image at `index`. */
    method ImageEventFired(index: nat, e: ImageEvent)
      requires index < images.Length
      modifies images
      ensures images[..] == old(images[..])[index := OnImageEvent(old(images[index]), e)]
    {
      var img := images[index];
      if img.listening {
        match e
        case Load =>
          images[index] := img.(classes := img.classes - {LoadingClass} + {LoadedClass});
        case Fail =>
          images[index] := img.(classes := img.classes - {LoadingClass} + {ErrorClass});
      }
    }
  }
}
