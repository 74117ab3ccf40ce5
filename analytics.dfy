/**
 * The decision rules of analytics.js: page and device classification, the
 * hero call-to-action type, the phone label, and the contact method kept in
 * session storage and reported when the page is left.
 */
module Analytics {
  import opened Dom
  import opened Strings

  // ---- page category ----

  datatype Category = Home | Rentals | Experiences | About | Contact | Faq | Ownership | Cartel | Other

  /** The value sent as `page_category`. */
  function CategoryLabel(c: Category): string
  {
    match c
    case Home => "home"
    case Rentals => "rentals"
    case Experiences => "experiences"
    case About => "about"
    case Contact => "contact"
    case Faq => "faq"
    case Ownership => "ownership"
    case Cartel => "cartel"
    case Other => "other"
  }

  /** `getPageCategory`, given `window.location.pathname`. */
  function PageCategory(pathname: string): (r: Category)
    ensures r == Home <==> ToLower(pathname) == "/" || ToLower(pathname) == "/index.html"
  {
    var path := ToLower(pathname);
    if path == "/" || path == "/index.html" then Home
    else if Contains(path, "rental") then Rentals
    else if Contains(path, "experience") then Experiences
    else if Contains(path, "about") then About
    else if Contains(path, "contact") then Contact
    else if Contains(path, "faq") then Faq
    else if Contains(path, "ownership") then Ownership
    else if Contains(path, "cartel") then Cartel
    else Other
  }

  /** The substring rules as a table, in the order they are tried. */
  const CategoryRules: seq<(string, Category)> := [
    ("rental", Rentals), ("experience", Experiences), ("about", About), ("contact", Contact),
    ("faq", Faq), ("ownership", Ownership), ("cartel", Cartel)]

  /** The category of the first rule whose keyword occurs in `path`, or Other. */
  function FirstMatch(path: string, rules: seq<(string, Category)>): Category
    decreases |rules|
  {
    if rules == [] then Other
    else if Contains(path, rules[0].0) then rules[0].1
    else FirstMatch(path, rules[1..])
  }

  /** FirstMatch picks the rule with the smallest index whose keyword occurs. */
  lemma {:induction false} FirstMatchIsFirst(path: string, rules: seq<(string, Category)>, k: nat)
    requires k < |rules| && Contains(path, rules[k].0)
    requires forall j :: 0 <= j < k ==> !Contains(path, rules[j].0)
    ensures FirstMatch(path, rules) == rules[k].1
    decreases k
  {
    if k > 0 {
      assert !Contains(path, rules[0].0);
      FirstMatchIsFirst(path, rules[1..], k - 1);
    }
  }

  /** With no keyword present, FirstMatch gives Other. */
  lemma {:induction false} FirstMatchNone(path: string, rules: seq<(string, Category)>)
    requires forall j :: 0 <= j < |rules| ==> !Contains(path, rules[j].0)
    ensures FirstMatch(path, rules) == Other
    decreases |rules|
  {
    if rules != [] {
      assert !Contains(path, rules[0].0);
      FirstMatchNone(path, rules[1..]);
    }
  }

  /**
   * `getPageCategory` is the home check followed by the rule table tried in
   * order, on the lower-cased path.
   */
  lemma PageCategoryByRules(pathname: string)
    ensures PageCategory(pathname) ==
      var path := ToLower(pathname);
      if path == "/" || path == "/index.html" then Home else FirstMatch(path, CategoryRules)
  {
    var r := CategoryRules;
    assert r[1..] == [r[1], r[2], r[3], r[4], r[5], r[6]];
    assert r[1..][1..] == [r[2], r[3], r[4], r[5], r[6]];
    assert r[1..][1..][1..] == [r[3], r[4], r[5], r[6]];
    assert r[1..][1..][1..][1..] == [r[4], r[5], r[6]];
    assert r[1..][1..][1..][1..][1..] == [r[5], r[6]];
    assert r[1..][1..][1..][1..][1..][1..] == [r[6]];
    assert r[1..][1..][1..][1..][1..][1..][1..] == [];
  }

  /** The exact home paths win over every substring rule. */
  lemma HomeFirst(pathname: string)
    requires ToLower(pathname) == "/" || ToLower(pathname) == "/index.html"
    ensures PageCategory(pathname) == Home
  {
  }

  /** A path is classified by the first rule of the table whose keyword it contains, ignoring case. */
  lemma PageCategoryFirstRule(pathname: string, k: nat)
    requires ToLower(pathname) != "/" && ToLower(pathname) != "/index.html"
    requires k < |CategoryRules| && Contains(ToLower(pathname), CategoryRules[k].0)
    requires forall j :: 0 <= j < k ==> !Contains(ToLower(pathname), CategoryRules[j].0)
    ensures PageCategory(pathname) == CategoryRules[k].1
  {
    PageCategoryByRules(pathname);
    FirstMatchIsFirst(ToLower(pathname), CategoryRules, k);
  }

  /** A path that is not a home path and contains no keyword is Other. */
  lemma PageCategoryOther(pathname: string)
    requires ToLower(pathname) != "/" && ToLower(pathname) != "/index.html"
    requires forall j :: 0 <= j < |CategoryRules| ==> !Contains(ToLower(pathname), CategoryRules[j].0)
    ensures PageCategory(pathname) == Other
  {
    PageCategoryByRules(pathname);
    FirstMatchNone(ToLower(pathname), CategoryRules);
  }

  /** Classification ignores case: two paths equal up to ASCII case get the same category. */
  lemma PageCategoryIgnoresCase(a: string, b: string)
    requires ToLower(a) == ToLower(b)
    ensures PageCategory(a) == PageCategory(b)
  {
  }

  lemma PageCategoryOfLowered(pathname: string)
    ensures PageCategory(ToLower(pathname)) == PageCategory(pathname)
  {
    ToLowerIdempotent(pathname);
  }

  /** No two categories are sent under the same label. */
  lemma CategoryLabelInjective(a: Category, b: Category)
    ensures CategoryLabel(a) == CategoryLabel(b) ==> a == b
  {
  }

  /** `getPageCategory()`: the label of the category of `window.location.pathname`. */
  function GetPageCategory(pathname: string): (r: string)
    ensures r == "home" <==> ToLower(pathname) == "/" || ToLower(pathname) == "/index.html"
    ensures r != "home" ==> r == CategoryLabel(FirstMatch(ToLower(pathname), CategoryRules))
  {
    PageCategoryByRules(pathname);
    CategoryLabelInjective(PageCategory(pathname), Home);
    CategoryLabel(PageCategory(pathname))
  }

  // ---- device type ----

  datatype Device = Tablet | Mobile | Desktop

  /** The value sent as `device_type`. */
  function DeviceLabel(d: Device): string
  {
    match d
    case Tablet => "tablet"
    case Mobile => "mobile"
    case Desktop => "desktop"
  }

  const TabletKeywords: seq<string> := ["tablet", "ipad", "playbook", "silk"]
  const MobileKeywords: seq<string> :=
    ["mobile", "iphone", "ipod", "android", "blackberry", "opera", "mini", "palm", "smartphone", "iemobile"]

  /** `windows\sce` matches at `i`: "windows", one white-space character, "ce". */
  predicate WindowsCeAt(s: string, i: int)
  {
    0 <= i && i + 10 <= |s| && s[i..i + 7] == "windows" && IsWhitespace(s[i + 7]) && s[i + 8..i + 10] == "ce"
  }

  predicate HasWindowsCe(s: string)
  {
    exists i | 0 <= i <= |s| - 10 :: WindowsCeAt(s, i)
  }

  predicate IsTabletAgent(ua: string)
  {
    ContainsAny(ToLower(ua), TabletKeywords)
  }

  predicate IsMobileAgent(ua: string)
  {
    ContainsAny(ToLower(ua), MobileKeywords) || HasWindowsCe(ToLower(ua))
  }

  /** The string `getDeviceType` tests: `navigator.userAgent || navigator.vendor || window.opera`. */
  function UserAgentString(userAgent: string, vendor: string, opera: Option<string>): string
  {
    if userAgent != "" then userAgent
    else if vendor != "" then vendor
    else if opera.Some? then opera.value
    else "undefined"
  }

  /** `getDeviceType`: the two case-insensitive keyword tests, tablet first. */
  function DeviceType(ua: string): (d: Device)
    ensures d == Tablet <==> IsTabletAgent(ua)
    ensures d == Mobile <==> !IsTabletAgent(ua) && IsMobileAgent(ua)
  {
    if IsTabletAgent(ua) then Tablet
    else if IsMobileAgent(ua) then Mobile
    else Desktop
  }

  /** A tablet keyword decides, whatever mobile keywords the string also has. */
  lemma TabletWins(ua: string, k: nat)
    requires k < |TabletKeywords| && Contains(ToLower(ua), TabletKeywords[k])
    ensures DeviceType(ua) == Tablet
  {
  }

  /** Without a tablet keyword, a mobile keyword or `windows\sce` gives Mobile. */
  lemma MobileWithoutTablet(ua: string)
    requires !IsTabletAgent(ua) && IsMobileAgent(ua)
    ensures DeviceType(ua) == Mobile
  {
  }

  /** Desktop is exactly the absence of every keyword. */
  lemma DesktopIff(ua: string)
    ensures DeviceType(ua) == Desktop <==> !IsTabletAgent(ua) && !IsMobileAgent(ua)
  {
  }

  lemma DeviceTypeIgnoresCase(a: string, b: string)
    requires ToLower(a) == ToLower(b)
    ensures DeviceType(a) == DeviceType(b)
  {
  }

  lemma DeviceTypeOfLowered(ua: string)
    ensures DeviceType(ToLower(ua)) == DeviceType(ua)
  {
    ToLowerIdempotent(ua);
  }

  /**
   * `getDeviceType()`, given `navigator.userAgent`, `navigator.vendor` and the
   * string form of `window.opera` (None when the page has no such object).
   */
  function GetDeviceType(userAgent: string, vendor: string, opera: Option<string>): (r: string)
    ensures r == "tablet" || r == "mobile" || r == "desktop"
    ensures userAgent != "" ==> r == DeviceLabel(DeviceType(userAgent))
    ensures userAgent == "" && vendor != "" ==> r == DeviceLabel(DeviceType(vendor))
    ensures userAgent == "" && vendor == "" && opera.Some? ==> r == DeviceLabel(DeviceType(opera.value))
  {
    DeviceLabel(DeviceType(UserAgentString(userAgent, vendor, opera)))
  }

  /** With no user agent, vendor or `window.opera`, `test` sees the string 'undefined', which is a desktop. */
  lemma NoAgentIsDesktop()
    ensures GetDeviceType("", "", None) == "desktop"
  {
    var s := "undefined";
    assert forall i :: 0 <= i < |s| ==> s[i] in UndefinedChars;
    ToLowerNoUpper(s);
    NoKeywordFrom(s);
  }

  /** The characters of 'undefined'. */
  const UndefinedChars: set<char> := {'u', 'n', 'd', 'e', 'f', 'i'}

  /** A string made only of the characters of 'undefined' has no device keyword. */
  lemma NoKeywordFrom(s: string)
    requires forall i :: 0 <= i < |s| ==> s[i] in UndefinedChars
    ensures !IsTabletAgent(s) && !IsMobileAgent(s)
  {
    ToLowerNoUpper(s);
    NoTabletKeywordFrom(s);
    NoMobileKeywordFrom(s);
    NoWindowsCeFrom(s);
  }

  lemma NoTabletKeywordFrom(s: string)
    requires forall i :: 0 <= i < |s| ==> s[i] in UndefinedChars
    ensures !ContainsAny(s, TabletKeywords)
  {
    var cs, t := UndefinedChars, TabletKeywords;
    AbsentCharNotContained(s, cs, t[0], 0);
    AbsentCharNotContained(s, cs, t[1], 1);
    AbsentCharNotContained(s, cs, t[2], 0);
    AbsentCharNotContained(s, cs, t[3], 0);
  }

  lemma NoMobileKeywordFrom(s: string)
    requires forall i :: 0 <= i < |s| ==> s[i] in UndefinedChars
    ensures !ContainsAny(s, MobileKeywords)
  {
    var cs, m := UndefinedChars, MobileKeywords;
    AbsentCharNotContained(s, cs, m[0], 0);
    AbsentCharNotContained(s, cs, m[1], 1);
    AbsentCharNotContained(s, cs, m[2], 1);
    AbsentCharNotContained(s, cs, m[3], 3);
    AbsentCharNotContained(s, cs, m[4], 4);
    AbsentCharNotContained(s, cs, m[5], 0);
    AbsentCharNotContained(s, cs, m[6], 0);
    AbsentCharNotContained(s, cs, m[7], 0);
    AbsentCharNotContained(s, cs, m[8], 0);
    AbsentCharNotContained(s, cs, m[9], 2);
  }

  lemma NoWindowsCeFrom(s: string)
    requires forall i :: 0 <= i < |s| ==> s[i] in UndefinedChars
    ensures !HasWindowsCe(s)
  {
    forall i | 0 <= i <= |s| - 10
      ensures !WindowsCeAt(s, i)
    {
      assert s[i] in UndefinedChars;
    }
  }

  // ---- hero call to action and phone links ----

  /** `ctaType`: 'primary' for a `btn-primary` element, 'contact' for anything else. */
  function CtaType(classes: ClassList): (t: string)
    ensures t == "primary" <==> "btn-primary" in classes
    ensures t == "primary" || t == "contact"
  {
    if "btn-primary" in classes then "primary" else "contact"
  }

  /** The phone number sent with `phone_call_initiated`: `href.replace('tel:', '')`. */
  function PhoneLabel(href: string): string
  {
    RemoveFirst(href, "tel:")
  }

  /** For a `tel:` link the label is the number after the scheme. */
  lemma PhoneLabelOfTelLink(number: string)
    ensures PhoneLabel("tel:" + number) == number
  {
    RemoveFirstPrefix("tel:", number);
  }

  /** Only the first `tel:` is removed; a string without one is unchanged. */
  lemma PhoneLabelRemovesOne(href: string)
    ensures !Contains(href, "tel:") ==> PhoneLabel(href) == href
    ensures Contains(href, "tel:") ==> |PhoneLabel(href)| == |href| - 4
    ensures Contains(href, "tel:") ==>
      var i := IndexOf(href, "tel:"); PhoneLabel(href) == href[..i] + href[i + 4..]
  {
  }

  // ---- preferred contact method ----

  datatype ContactMethod = Phone | WhatsApp | Email

  /** The value stored under `preferredContactMethod`. */
  function ContactLabel(m: ContactMethod): string
  {
    match m
    case Phone => "phone"
    case WhatsApp => "whatsapp"
    case Email => "email"
  }

  /**
   * The contact listeners a link carries, in the order they were added:
   * `a[href^="tel:"]`, then `a[href*="wa.me"], a[href*="whatsapp"]`, then `a[href^="mailto:"]`.
   */
  function ContactListeners(href: string): (ms: seq<ContactMethod>)
    ensures Phone in ms <==> StartsWith(href, "tel:")
    ensures WhatsApp in ms <==> Contains(href, "wa.me") || Contains(href, "whatsapp")
    ensures Email in ms <==> StartsWith(href, "mailto:")
  {
    (if StartsWith(href, "tel:") then [Phone] else [])
    + (if Contains(href, "wa.me") || Contains(href, "whatsapp") then [WhatsApp] else [])
    + (if StartsWith(href, "mailto:") then [Email] else [])
  }

  /** The stored method after the listeners `ms` have each overwritten it in turn. */
  function Recorded(stored: Option<ContactMethod>, ms: seq<ContactMethod>): Option<ContactMethod>
    decreases |ms|
  {
    if ms == [] then stored else Recorded(Some(ms[0]), ms[1..])
  }

  /** The last write wins; with no write the stored value is kept. */
  lemma {:induction false} RecordedIsLast(stored: Option<ContactMethod>, ms: seq<ContactMethod>)
    ensures Recorded(stored, ms) == if ms == [] then stored else Some(ms[|ms| - 1])
    decreases |ms|
  {
    if ms != [] {
      RecordedIsLast(Some(ms[0]), ms[1..]);
    }
  }

  /** `preferred_contact` in `page_exit`: the stored method, or 'none' when nothing was stored. */
  function ExitContactLabel(stored: Option<ContactMethod>): (r: string)
    ensures r == "none" <==> stored.None?
    ensures stored.Some? ==> r == ContactLabel(stored.value)
  {
    if stored.Some? then ContactLabel(stored.value) else "none"
  }

  /** The session's `preferredContactMethod` entry. */
  class ContactSession {
    var preferredContact: Option<ContactMethod>

    /** A session in which an earlier page may already have stored a method. */
    constructor (stored: Option<ContactMethod>)
      ensures preferredContact == stored
    {
      preferredContact := stored;
    }

    /** A click on a link runs its contact listeners in order; each one overwrites the entry. */
    method LinkClicked(href: string)
      modifies this
      ensures preferredContact == Recorded(old(preferredContact), ContactListeners(href))
    {
      var listeners := ContactListeners(href);
      for k := 0 to |listeners|
        invariant Recorded(preferredContact, listeners[k..]) == Recorded(old(preferredContact), listeners)
      {
        assert listeners[k..][1..] == listeners[k + 1..];
        preferredContact := Some(listeners[k]);
      }
    }

    /** The `preferred_contact` value of the `page_exit` event. */
    function PageExitContact(): (r: string)
      reads this
      ensures r == "none" <==> preferredContact.None?
      ensures preferredContact.Some? ==> r == ContactLabel(preferredContact.value)
    {
      ExitContactLabel(preferredContact)
    }
  }
}
