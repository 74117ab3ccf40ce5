/**
 * The decision rules and element updates of script.js: the email test, field
 * validation and its error messages, the newsletter submit guard, the navbar
 * scroll threshold, anchor-link targets and the scene timeline.
 */
module Site {
  import opened Dom
  import opened Strings

  // ---- the email test ----

  /** A character of the class `[^\s@]`. */
  predicate PartChar(c: char)
  {
    !IsWhitespace(c) && c != '@'
  }

  /** A string matched by `[^\s@]+`. */
  predicate IsPart(s: string)
  {
    |s| > 0 && forall i :: 0 <= i < |s| ==> PartChar(s[i])
  }

  /** `^[^\s@]+@[^\s@]+\.[^\s@]+$` matches `s` with its `@` at `at` and its `\.` at `dot`. */
  predicate EmailMatchAt(s: string, at: int, dot: int)
  {
    0 <= at < dot < |s| && s[at] == '@' && s[dot] == '.'
    && IsPart(s[..at]) && IsPart(s[at + 1..dot]) && IsPart(s[dot + 1..])
  }

  /** The regular expression of `isValidEmail` matches `s` in some way. */
  predicate MatchesEmailPattern(s: string)
  {
    exists at, dot | 0 <= at < dot < |s| :: EmailMatchAt(s, at, dot)
  }

  function CountChar(s: string, c: char): nat
    decreases |s|
  {
    if s == [] then 0 else (if s[0] == c then 1 else 0) + CountChar(s[1..], c)
  }

  lemma {:induction false} CountCharZero(s: string, c: char)
    ensures CountChar(s, c) == 0 <==> forall i :: 0 <= i < |s| ==> s[i] != c
    decreases |s|
  {
    if s != [] {
      CountCharZero(s[1..], c);
      assert forall i :: 1 <= i < |s| ==> s[i] == s[1..][i - 1];
    }
  }

  lemma {:induction false} CountCharSplit(s: string, c: char, k: nat)
    requires k < |s|
    ensures CountChar(s, c) == CountChar(s[..k], c) + (if s[k] == c then 1 else 0) + CountChar(s[k + 1..], c)
    decreases k
  {
    if k > 0 {
      CountCharSplit(s[1..], c, k - 1);
      assert s[1..][..k - 1] == s[..k][1..];
      assert s[1..][k - 1 + 1..] == s[k + 1..];
    } else {
      assert s[..0] == [];
    }
  }

  /** A '.' in `domain` that is neither its first nor its last character. */
  predicate HasInnerDot(domain: string)
  {
    exists j | 0 < j < |domain| - 1 :: domain[j] == '.'
  }

  /**
   * `isValidEmail`, decided directly: no white space, exactly one '@', a
   * non-empty part before it, and a '.' after it that is neither the first
   * nor the last character after the '@'.
   */
  predicate IsValidEmail(s: string)
  {
    var at := IndexOf(s, "@");
    && !ContainsWhitespace(s)
    && CountChar(s, '@') == 1
    && at > 0
    && HasInnerDot(s[at + 1..])
  }

  predicate ContainsWhitespace(s: string)
  {
    exists i | 0 <= i < |s| :: IsWhitespace(s[i])
  }

  lemma AtMatch(s: string, i: int)
    ensures MatchesAt(s, "@", i) <==> 0 <= i < |s| && s[i] == '@'
  {
    if 0 <= i < |s| {
      assert |s[i..i + 1]| == 1 && s[i..i + 1][0] == s[i];
    }
  }

  /** A string the direct test accepts is matched by the regular expression. */
  lemma ValidEmailMatches(s: string)
    requires IsValidEmail(s)
    ensures MatchesEmailPattern(s)
  {
    var at := IndexOf(s, "@");
    AtMatch(s, at);
    var d := s[at + 1..];
    var j :| 0 < j < |d| - 1 && d[j] == '.';
    var dot := at + 1 + j;
    CountCharSplit(s, '@', at);
    CountCharZero(s[..at], '@');
    CountCharZero(d, '@');
    assert IsPart(s[..at]);
    assert s[at + 1..dot] == d[..j];
    assert IsPart(d[..j]);
    assert s[dot + 1..] == d[j + 1..];
    assert IsPart(d[j + 1..]);
    assert EmailMatchAt(s, at, dot);
  }

  /** A match leaves no white space anywhere in the string. */
  lemma MatchHasNoWhitespace(s: string, at: int, dot: int)
    requires EmailMatchAt(s, at, dot)
    ensures !ContainsWhitespace(s)
  {
    var a, b, c := s[..at], s[at + 1..dot], s[dot + 1..];
    forall i | 0 <= i < |s|
      ensures !IsWhitespace(s[i])
    {
      if i < at {
        assert s[i] == a[i];
      } else if at < i < dot {
        assert s[i] == b[i - at - 1];
      } else if dot < i {
        assert s[i] == c[i - dot - 1];
      }
    }
  }

  /** After the matched '@' there is no other '@'. */
  lemma MatchDomainHasNoAt(s: string, at: int, dot: int)
    requires EmailMatchAt(s, at, dot)
    ensures forall i :: at + 1 <= i < |s| ==> s[i] != '@'
  {
    var b, c := s[at + 1..dot], s[dot + 1..];
    forall i | at + 1 <= i < |s|
      ensures s[i] != '@'
    {
      if i < dot {
        assert s[i] == b[i - at - 1];
      } else if i > dot {
        assert s[i] == c[i - dot - 1];
      }
    }
  }

  /** A string matched by the regular expression passes the direct test. */
  lemma MatchIsValidEmail(s: string, at: int, dot: int)
    requires EmailMatchAt(s, at, dot)
    ensures IsValidEmail(s)
  {
    MatchHasNoWhitespace(s, at, dot);
    MatchDomainHasNoAt(s, at, dot);
    var a, d := s[..at], s[at + 1..];
    assert forall i :: 0 <= i < |d| ==> d[i] == s[at + 1 + i];
    CountCharZero(a, '@');
    CountCharZero(d, '@');
    CountCharSplit(s, '@', at);
    forall i | 0 <= i < at
      ensures !MatchesAt(s, "@", i)
    {
      AtMatch(s, i);
      assert s[i] == a[i];
    }
    AtMatch(s, at);
    assert IndexOf(s, "@") == at;
    assert d[dot - at - 1] == '.';
    assert HasInnerDot(d);
  }

  /** The direct decision and the regular expression agree on every string. */
  lemma EmailDecision(s: string)
    ensures IsValidEmail(s) <==> MatchesEmailPattern(s)
  {
    if IsValidEmail(s) {
      ValidEmailMatches(s);
    }
    if MatchesEmailPattern(s) {
      var at, dot :| 0 <= at < dot < |s| && EmailMatchAt(s, at, dot);
      MatchIsValidEmail(s, at, dot);
    }
  }

  lemma EmptyIsNotEmail()
    ensures !IsValidEmail("")
  {
  }

  // ---- field validation ----

  const RequiredMessage := "This field is required."
  const InvalidEmailMessage := "Please enter a valid email address."

  datatype Verdict = Accepted | Rejected(message: string)

  /** `validateField`'s decision, on the field's raw value, its `required` attribute and its `type`. */
  function Validate(rawValue: string, required: bool, inputType: string): (v: Verdict)
    ensures v == Rejected(RequiredMessage) <==> required && AllWhitespace(rawValue)
    ensures v.Rejected? ==> v.message == RequiredMessage || v.message == InvalidEmailMessage
    ensures v == Accepted ==> inputType != "email" || AllWhitespace(rawValue) || IsValidEmail(Trim(rawValue))
  {
    var value := Trim(rawValue);
    if required && value == "" then Rejected(RequiredMessage)
    else if inputType == "email" && value != "" && !IsValidEmail(value) then Rejected(InvalidEmailMessage)
    else Accepted
  }

  /** A required field holding only white space is rejected as required, before any email check. */
  lemma RequiredComesFirst(rawValue: string, inputType: string)
    requires AllWhitespace(rawValue)
    ensures Validate(rawValue, true, inputType) == Rejected(RequiredMessage)
  {
  }

  /** An email field with a non-blank value is rejected exactly when the trimmed value is not an email. */
  lemma EmailFieldCheck(rawValue: string, required: bool)
    requires !AllWhitespace(rawValue)
    ensures Validate(rawValue, required, "email") == Rejected(InvalidEmailMessage) <==> !MatchesEmailPattern(Trim(rawValue))
    ensures Validate(rawValue, required, "email") == Accepted <==> MatchesEmailPattern(Trim(rawValue))
  {
    EmailDecision(Trim(rawValue));
  }

  /** A blank field that is not required is accepted, whatever its type. */
  lemma OptionalBlankAccepted(rawValue: string, inputType: string)
    requires AllWhitespace(rawValue)
    ensures Validate(rawValue, false, inputType) == Accepted
  {
  }

  /** The whole decision table: the only two messages, and when each one is given. */
  lemma ValidateTable(rawValue: string, required: bool, inputType: string)
    ensures var v := Validate(rawValue, required, inputType);
      && (v == Rejected(RequiredMessage) <==> required && AllWhitespace(rawValue))
      && (v == Rejected(InvalidEmailMessage) <==>
            !(required && AllWhitespace(rawValue)) && inputType == "email"
            && !AllWhitespace(rawValue) && !MatchesEmailPattern(Trim(rawValue)))
      && (v.Rejected? ==> v.message == RequiredMessage || v.message == InvalidEmailMessage)
  {
    EmailDecision(Trim(rawValue));
  }

  /** The `.form-error` messages under a parent after one validation: the first old one removed, at most one new one appended. */
  function ErrorsAfter(errors: seq<string>, v: Verdict): seq<string>
  {
    (if errors == [] then [] else errors[1..]) + (if v.Rejected? then [v.message] else [])
  }

  /** A parent that holds one field never holds more than one error message, and it is the latest verdict's. */
  lemma OneErrorPerField(errors: seq<string>, v: Verdict)
    requires |errors| <= 1
    ensures |ErrorsAfter(errors, v)| <= 1
    ensures ErrorsAfter(errors, v) == if v.Rejected? then [v.message] else []
  {
  }

  /** The parent element of a field, as the messages of the `.form-error` elements inside it, in document order. */
  class FieldParent {
    var errors: seq<string>

    constructor (errors: seq<string>)
      ensures this.errors == errors
    {
      this.errors := errors;
    }
  }

  /** An input, textarea or select inside a form. */
  class FormField {
    var value: string
    const required: bool
    const inputType: string
    var classes: ClassList
    const parent: FieldParent

    constructor (value: string, required: bool, inputType: string, classes: ClassList, parent: FieldParent)
      ensures this.value == value && this.required == required && this.inputType == inputType
      ensures this.classes == classes && this.parent == parent
    {
      this.value, this.required, this.inputType, this.classes, this.parent := value, required, inputType, classes, parent;
    }

    /** `clearFieldError`: removes the parent's first `.form-error`, if any, and the field's `error` class. */
    method ClearFieldError()
      modifies this, parent
      ensures parent.errors == if old(parent.errors) == [] then [] else old(parent.errors)[1..]
      ensures classes == old(classes) - {"error"}
      ensures value == old(value)
    {
      if parent.errors != [] {
        parent.errors := parent.errors[1..];
      }
      classes := classes - {"error"};
    }

    /** `showFieldError`: marks the field and appends a message to its parent. */
    method ShowFieldError(message: string)
      modifies this, parent
      ensures classes == old(classes) + {"error"}
      ensures parent.errors == old(parent.errors) + [message]
      ensures value == old(value)
    {
      classes := classes + {"error"};
      parent.errors := parent.errors + [message];
    }

    /** `validateField`, the blur listener. */
    method ValidateField() returns (ok: bool)
      modifies this, parent
      ensures value == old(value)
      ensures ok <==> Validate(value, required, inputType) == Accepted
      ensures "error" in classes <==> !ok
      ensures classes - {"error"} == old(classes) - {"error"}
      ensures parent.errors == ErrorsAfter(old(parent.errors), Validate(value, required, inputType))
    {
      ghost var verdict := Validate(value, required, inputType);
      ghost var cleared := if parent.errors == [] then [] else parent.errors[1..];
      var trimmed := Trim(value);
      ClearFieldError();
      if required && trimmed == "" {
        assert verdict == Rejected(RequiredMessage);
        ShowFieldError(RequiredMessage);
        assert parent.errors == cleared + [verdict.message];
        return false;
      }
      if inputType == "email" && trimmed != "" && !IsValidEmail(trimmed) {
        assert verdict == Rejected(InvalidEmailMessage);
        ShowFieldError(InvalidEmailMessage);
        assert parent.errors == cleared + [verdict.message];
        return false;
      }
      assert verdict == Accepted;
      assert parent.errors == cleared + [];
      return true;
    }

    /** The input listener: the value changes, then `clearFieldError` runs. */
    method Typed(newValue: string)
      modifies this, parent
      ensures value == newValue
      ensures parent.errors == if old(parent.errors) == [] then [] else old(parent.errors)[1..]
      ensures classes == old(classes) - {"error"}
    {
      value := newValue;
      ClearFieldError();
    }
  }

  // ---- newsletter form ----

  const SubscribingText := "Subscribing..."
  const SubscribedNotice := "Thank you for joining the Coconut Cartel! \U{1F965}"

  datatype MessageKind = ErrorNotice | SuccessNotice

  /** A message passed to `showMessage`. */
  datatype Notice = Notice(text: string, kind: MessageKind)

  /**
   * The newsletter form: its email input, its submit button, the original
   * button texts captured by submissions whose 1500 ms completion has not
   * run yet (oldest first), and the messages shown so far.
   */
  datatype Newsletter = Newsletter(
    email: string, buttonDisabled: bool, buttonText: string, pending: seq<string>, notices: seq<Notice>)

  /** The submit listener. */
  function Submit(n: Newsletter): (r: Newsletter)
    ensures MatchesEmailPattern(n.email) ==>
      r == n.(pending := n.pending + [n.buttonText], buttonDisabled := true, buttonText := SubscribingText)
    ensures !MatchesEmailPattern(n.email) ==>
      r == n.(notices := n.notices + [Notice(InvalidEmailMessage, ErrorNotice)])
  {
    EmailDecision(n.email);
    if n.email == "" || !IsValidEmail(n.email) then
      n.(notices := n.notices + [Notice(InvalidEmailMessage, ErrorNotice)])
    else
      n.(pending := n.pending + [n.buttonText], buttonDisabled := true, buttonText := SubscribingText)
  }

  /** The oldest pending completion: thank the user, reset the form, restore the button. */
  function Complete(n: Newsletter): (r: Newsletter)
    requires n.pending != []
    ensures n.pending == [r.buttonText] + r.pending
    ensures r.email == "" && !r.buttonDisabled
    ensures r.notices == n.notices + [Notice(SubscribedNotice, SuccessNotice)]
  {
    n.(notices := n.notices + [Notice(SubscribedNotice, SuccessNotice)],
       email := "",
       buttonDisabled := false,
       buttonText := n.pending[0],
       pending := n.pending[1..])
  }

  /** The empty-string test in the guard is subsumed by the email test. */
  lemma SubmitGuard(email: string)
    ensures (email == "" || !IsValidEmail(email)) <==> !MatchesEmailPattern(email)
  {
    EmailDecision(email);
  }

  /** A rejected submission shows an error and leaves the button and the pending work alone. */
  lemma SubmitRejected(n: Newsletter)
    requires !MatchesEmailPattern(n.email)
    ensures Submit(n) == n.(notices := n.notices + [Notice(InvalidEmailMessage, ErrorNotice)])
  {
    EmailDecision(n.email);
  }

  /** An accepted submission disables the button and shows 'Subscribing...'; its completion restores the button. */
  lemma SubmitThenComplete(n: Newsletter)
    requires MatchesEmailPattern(n.email) && n.pending == []
    ensures Submit(n).buttonDisabled && Submit(n).buttonText == SubscribingText
    ensures Submit(n).pending == [n.buttonText]
    ensures var r := Complete(Submit(n));
      && !r.buttonDisabled && r.buttonText == n.buttonText && r.pending == [] && r.email == ""
      && r.notices == n.notices + [Notice(SubscribedNotice, SuccessNotice)]
  {
    EmailDecision(n.email);
  }

  /**
   * The listener has no guard of its own: a second accepted submission while
   * the first is pending captures 'Subscribing...' as the text to restore, so
   * the button keeps that text after both completions.
   */
  lemma DoubleSubmitKeepsSubscribing(n: Newsletter)
    requires MatchesEmailPattern(n.email) && n.pending == [] && n.buttonText != SubscribingText
    ensures Submit(Submit(n)).pending == [n.buttonText, SubscribingText]
    ensures var once := Complete(Submit(Submit(n)));
      once.pending == [SubscribingText] && Complete(once).buttonText == SubscribingText && !Complete(once).buttonDisabled
  {
    EmailDecision(n.email);
  }

  class NewsletterForm {
    var email: string
    var buttonDisabled: bool
    var buttonText: string
    var pending: seq<string>
    var notices: seq<Notice>

    function State(): Newsletter
      reads this
    {
      Newsletter(email, buttonDisabled, buttonText, pending, notices)
    }

    constructor (buttonText: string)
      ensures State() == Newsletter("", false, buttonText, [], [])
    {
      email, buttonDisabled, this.buttonText, pending, notices := "", false, buttonText, [], [];
    }

    method EmailTyped(value: string)
      modifies this
      ensures State() == old(State()).(email := value)
    {
      email := value;
    }

    method Submitted()
      modifies this
      ensures State() == Submit(old(State()))
    {
      if email == "" || !IsValidEmail(email) {
        notices := notices + [Notice(InvalidEmailMessage, ErrorNotice)];
        return;
      }
      var originalText := buttonText;
      buttonDisabled := true;
      buttonText := SubscribingText;
      pending := pending + [originalText];
    }

    /** The 1500 ms timer of the oldest accepted submission fires. */
    method Completed()
      requires pending != []
      modifies this
      ensures State() == Complete(old(State()))
    {
      notices := notices + [Notice(SubscribedNotice, SuccessNotice)];
      email := "";
      buttonDisabled := false;
      buttonText := pending[0];
      pending := pending[1..];
    }
  }

  // ---- navbar ----

  const Scrolled := "scrolled"

  datatype Navbar = Navbar(classes: ClassList, background: string, boxShadow: string)

  /** The navbar's scroll listener, for `window.scrollY` in whole pixels. */
  function NavbarOnScroll(n: Navbar, scrollY: int): Navbar
  {
    if scrollY > 100 then
      Navbar(n.classes + {Scrolled}, "rgba(255, 255, 255, 0.98)", "0 2px 20px rgba(0, 0, 0, 0.1)")
    else
      Navbar(n.classes - {Scrolled}, "rgba(255, 255, 255, 0.95)", "0 1px 3px rgba(0, 0, 0, 0.1)")
  }

  /** `scrolled` is present exactly above 100 px (100 itself is not scrolled); other classes are untouched. */
  lemma NavbarThreshold(n: Navbar, scrollY: int)
    ensures Scrolled in NavbarOnScroll(n, scrollY).classes <==> scrollY > 100
    ensures NavbarOnScroll(n, scrollY).classes - {Scrolled} == n.classes - {Scrolled}
  {
  }

  /** Only the latest scroll position matters. */
  lemma NavbarLatestWins(n: Navbar, a: int, b: int)
    ensures NavbarOnScroll(NavbarOnScroll(n, a), b) == NavbarOnScroll(n, b)
  {
    var x, y := NavbarOnScroll(NavbarOnScroll(n, a), b), NavbarOnScroll(n, b);
    assert x.classes == y.classes;
  }

  class NavbarElement {
    var classes: ClassList
    var background: string
    var boxShadow: string

    function State(): Navbar
      reads this
    {
      Navbar(classes, background, boxShadow)
    }

    constructor (classes: ClassList, background: string, boxShadow: string)
      ensures State() == Navbar(classes, background, boxShadow)
    {
      this.classes, this.background, this.boxShadow := classes, background, boxShadow;
    }

    method WindowScrolled(scrollY: int)
      modifies this
      ensures State() == NavbarOnScroll(old(State()), scrollY)
    {
      if scrollY > 100 {
        classes := classes + {Scrolled};
        background := "rgba(255, 255, 255, 0.98)";
        boxShadow := "0 2px 20px rgba(0, 0, 0, 0.1)";
      } else {
        classes := classes - {Scrolled};
        background := "rgba(255, 255, 255, 0.95)";
        boxShadow := "0 1px 3px rgba(0, 0, 0, 0.1)";
      }
    }
  }

  // ---- anchor links ----

  /** `getAttribute('href').substring(1)`. */
  function TargetId(href: string): string
  {
    if href == [] then [] else href[1..]
  }

  /** Whether a click on an anchor link is taken over: `getElementById` finds the target (never for the empty id). */
  function AnchorTakesOver(href: string, ids: set<string>): bool
  {
    var id := TargetId(href);
    id != "" && id in ids
  }

  /** For `#name` the target id is `name`, and default navigation is prevented exactly when an element has that id. */
  lemma AnchorTarget(name: string, ids: set<string>)
    ensures TargetId("#" + name) == name
    ensures AnchorTakesOver("#" + name, ids) <==> name != "" && name in ids
  {
    assert ("#" + name)[1..] == name;
  }

  // ---- scene timeline ----

  /** `expandScene(item, index)`: strips `active` from every scene item and adds it to the clicked one. */
  method ExpandScene(items: array<ClassList>, index: nat)
    requires index < items.Length
    modifies items
    ensures items[..] == ActiveOnly(old(items[..]), index)
  {
    RemoveFromAll(items, Active);
    items[index] := items[index] + {Active};
    assert forall k :: 0 <= k < items.Length ==> items[..][k] == ActiveOnly(old(items[..]), index)[k];
  }

  /** The keys that expand a scene from the keyboard. */
  predicate ExpandsScene(key: string)
  {
    key == "Enter" || key == " "
  }

  /** The keydown listener on a scene's icon or content; returns whether the default action was prevented. */
  method SceneKeyDown(items: array<ClassList>, index: nat, key: string) returns (prevented: bool)
    requires index < items.Length
    modifies items
    ensures prevented == ExpandsScene(key)
    ensures items[..] == if prevented then ActiveOnly(old(items[..]), index) else old(items[..])
  {
    prevented := false;
    if key == "Enter" || key == " " {
      prevented := true;
      ExpandScene(items, index);
    }
  }
}
