/**
 * The mobile navigation handler: the second DOMContentLoaded listener of
 * hero-video-handler.js. The toggle button and the menu each carry an
 * `active` class, and the body's overflow follows the menu.
 */
module MobileNav {
  import opened Dom

  /** The toggle's and the menu's classes and `document.body.style.overflow`. */
  datatype Nav = Nav(toggleClasses: ClassList, menuClasses: ClassList, bodyOverflow: string)

  /** Where a click lands; the click runs the target's own listener and then bubbles to the document's. */
  datatype Target =
    | ToggleButton  // the toggle or something inside it
    | MenuLink      // an `a` inside the menu
    | InsideMenu    // anything else inside the menu
    | Outside       // anything outside both

  predicate IsOpen(s: Nav)
  {
    Active in s.menuClasses
  }

  /** The toggle's click listener. */
  function ToggleMenu(s: Nav): Nav
  {
    var menu := Toggle(s.menuClasses, Active);
    Nav(Toggle(s.toggleClasses, Active), menu, if Active in menu then "hidden" else "")
  }

  /** What a menu link's listener and the outside-click branch both do. */
  function CloseMenu(s: Nav): Nav
  {
    Nav(s.toggleClasses - {Active}, s.menuClasses - {Active}, "")
  }

  /** The document's click listener. */
  function DocumentClick(s: Nav, inToggle: bool, inMenu: bool): Nav
  {
    if !inToggle && !inMenu then CloseMenu(s) else s
  }

  /** A whole click: the target's listener, then the document's. */
  function Click(s: Nav, t: Target): Nav
  {
    match t
    case ToggleButton => DocumentClick(ToggleMenu(s), true, false)
    case MenuLink => DocumentClick(CloseMenu(s), false, true)
    case InsideMenu => DocumentClick(s, false, true)
    case Outside => DocumentClick(s, false, false)
  }

  /** Clicks in order; written from the last click back so that a run extends at its end. */
  function Clicks(s: Nav, ts: seq<Target>): Nav
    decreases |ts|
  {
    if ts == [] then s else Click(Clicks(s, ts[..|ts| - 1]), ts[|ts| - 1])
  }

  /** Toggle and menu agree on `active`, and the body scrolls unless the menu is open. */
  predicate Consistent(s: Nav)
  {
    (Active in s.toggleClasses <==> IsOpen(s)) && s.bodyOverflow == (if IsOpen(s) then "hidden" else "")
  }

  /** A toggle click flips both flags and sets the overflow from the menu, whatever the state before. */
  lemma ToggleClickFlips(s: Nav)
    ensures IsOpen(Click(s, ToggleButton)) == !IsOpen(s)
    ensures (Active in Click(s, ToggleButton).toggleClasses) == (Active !in s.toggleClasses)
    ensures Click(s, ToggleButton).bodyOverflow == "hidden" <==> IsOpen(Click(s, ToggleButton))
  {
  }

  /** A link click or an outside click closes everything; a click elsewhere in the menu changes nothing. */
  lemma ClickCloses(s: Nav, t: Target)
    ensures t == MenuLink || t == Outside ==>
      var r := Click(s, t); !IsOpen(r) && Active !in r.toggleClasses && r.bodyOverflow == ""
    ensures t == InsideMenu ==> Click(s, t) == s
  {
  }

  /** Two toggle clicks in a row restore a consistent state. */
  lemma {:induction false} ToggleTwice(s: Nav)
    requires Consistent(s)
    ensures Click(Click(s, ToggleButton), ToggleButton) == s
  {
    var t := Click(Click(s, ToggleButton), ToggleButton);
    assert t.toggleClasses == s.toggleClasses;
    assert t.menuClasses == s.menuClasses;
  }

  lemma ClickKeepsConsistent(s: Nav, t: Target)
    requires Consistent(s)
    ensures Consistent(Click(s, t))
  {
  }

  /** Any run of clicks from a consistent state ends consistent. */
  lemma {:induction false} ClicksKeepConsistent(s: Nav, ts: seq<Target>)
    requires Consistent(s)
    ensures Consistent(Clicks(s, ts))
    decreases |ts|
  {
    if ts != [] {
      ClicksKeepConsistent(s, ts[..|ts| - 1]);
      ClickKeepsConsistent(Clicks(s, ts[..|ts| - 1]), ts[|ts| - 1]);
    }
  }

  /** Some click of the run closes the menu. */
  predicate HasClose(ts: seq<Target>)
  {
    exists i | 0 <= i < |ts| :: ts[i] == MenuLink || ts[i] == Outside
  }

  /** The number of toggle clicks after the last closing click (after the start if there is none). */
  function TogglesSinceClose(ts: seq<Target>): nat
    decreases |ts|
  {
    if ts == [] then 0
    else
      var last := ts[|ts| - 1];
      if last == MenuLink || last == Outside then 0
      else if last == ToggleButton then TogglesSinceClose(ts[..|ts| - 1]) + 1
      else TogglesSinceClose(ts[..|ts| - 1])
  }

  /**
   * Whether the menu ends open: after a closing click, exactly when an odd
   * number of toggle clicks follow the last one; with no closing click, the
   * start state flipped once per toggle click.
   */
  lemma {:induction false} ClicksOpen(s: Nav, ts: seq<Target>)
    ensures HasClose(ts) ==> IsOpen(Clicks(s, ts)) == (TogglesSinceClose(ts) % 2 == 1)
    ensures !HasClose(ts) ==> IsOpen(Clicks(s, ts)) == (IsOpen(s) != (TogglesSinceClose(ts) % 2 == 1))
    decreases |ts|
  {
    if ts != [] {
      var init := ts[..|ts| - 1];
      var last := ts[|ts| - 1];
      ClicksOpen(s, init);
      if HasClose(init) {
        var i :| 0 <= i < |init| && (init[i] == MenuLink || init[i] == Outside);
        assert ts[i] == init[i];
      }
      if !HasClose(ts) {
        assert !HasClose(init) by {
          forall i | 0 <= i < |init|
            ensures init[i] != MenuLink && init[i] != Outside
          {
            assert ts[i] == init[i];
          }
        }
      }
      if last == MenuLink || last == Outside {
        assert ts[|ts| - 1] == last;
      } else if last == ToggleButton {
        ToggleClickFlips(Clicks(s, init));
      }
    }
  }

  /** The navigation handler's state as page objects. */
  class MobileNavHandler {
    var toggleClasses: ClassList
    var menuClasses: ClassList
    var bodyOverflow: string

    function State(): Nav
      reads this
    {
      Nav(toggleClasses, menuClasses, bodyOverflow)
    }

    /** The DOMContentLoaded listener only adds listeners; the page's state is as it was. */
    constructor (toggle: ClassList, menu: ClassList, overflow: string)
      ensures State() == Nav(toggle, menu, overflow)
    {
      toggleClasses, menuClasses, bodyOverflow := toggle, menu, overflow;
    }

    method ToggleClicked()
      modifies this
      ensures State() == ToggleMenu(old(State()))
    {
      toggleClasses := Toggle(toggleClasses, Active);
      menuClasses := Toggle(menuClasses, Active);
      bodyOverflow := if Active in menuClasses then "hidden" else "";
    }

    method Close()
      modifies this
      ensures State() == CloseMenu(old(State()))
    {
      toggleClasses := toggleClasses - {Active};
      menuClasses := menuClasses - {Active};
      bodyOverflow := "";
    }

    method DocumentClicked(inToggle: bool, inMenu: bool)
      modifies this
      ensures State() == DocumentClick(old(State()), inToggle, inMenu)
    {
      if !inToggle && !inMenu {
        Close();
      }
    }

    /** A click on `t`, with its bubbling to the document. */
    method Clicked(t: Target)
      modifies this
      ensures State() == Click(old(State()), t)
    {
      match t
      case ToggleButton =>
        ToggleClicked();
        DocumentClicked(true, false);
      case MenuLink =>
        Close();
        DocumentClicked(false, true);
      case InsideMenu =>
        DocumentClicked(false, true);
      case Outside =>
        DocumentClicked(false, false);
    }
  }
}
