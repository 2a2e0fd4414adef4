/** `select_autoescape`: a decision, from a template's file name, whether its
    output is HTML-escaped by default. */
module Autoescape {
  import opened Wrappers

  /** `str.lower()` on one character (ASCII letters only). */
  function LowerChar(c: char): char {
    if 'A' <= c <= 'Z' then (c as int + 32) as char else c
  }

  function Lower(s: string): (r: string)
    ensures |r| == |s|
    ensures forall i :: 0 <= i < |s| ==> r[i] == LowerChar(s[i])
  {
    if s == [] then [] else [LowerChar(s[0])] + Lower(s[1..])
  }

  /** `s.lstrip('.')`. */
  function LStripDots(s: string): (r: string)
    ensures r == [] || r[0] != '.'
    ensures |r| <= |s| && r == s[|s| - |r|..]
  {
    if s != [] && s[0] == '.' then LStripDots(s[1..]) else s
  }

  predicate EndsWith(s: string, suffix: string) {
    |suffix| <= |s| && s[|s| - |suffix|..] == suffix
  }

  /** `s.endswith(patterns)` with a tuple of patterns: false for an empty tuple. */
  predicate EndsWithAny(s: string, patterns: seq<string>) {
    exists i :: 0 <= i < |patterns| && EndsWith(s, patterns[i])
  }

  /** The suffix pattern of one extension: `'.' + x.lstrip('.').lower()`. */
  function Pattern(ext: string): (p: string)
    ensures |p| >= 1 && p[0] == '.'
  {
    "." + Lower(LStripDots(ext))
  }

  function Patterns(exts: seq<string>): (ps: seq<string>)
    ensures |ps| == |exts| && forall i :: 0 <= i < |exts| ==> ps[i] == Pattern(exts[i])
  {
    seq(|exts|, i requires 0 <= i < |exts| => Pattern(exts[i]))
  }

  /** The closure `select_autoescape` returns, as the data it captures. */
  datatype Policy = Policy(enabled: seq<string>, disabled: seq<string>, defaultForString: bool, default: bool)

  /** The extensions `select_autoescape` enables when given none. */
  const DefaultEnabledExtensions: seq<string> := ["html", "htm", "xml"]

  /** `select_autoescape(enabled_extensions, disabled_extensions, default_for_string, default)`,
      with the source's default arguments. */
  function SelectAutoescape(enabledExtensions: seq<string> := DefaultEnabledExtensions,
                            disabledExtensions: seq<string> := [],
                            defaultForString: bool := true, default: bool := false): (p: Policy)
    ensures p.enabled == Patterns(enabledExtensions) && p.disabled == Patterns(disabledExtensions)
    ensures p.defaultForString == defaultForString && p.default == default
  {
    Policy(Patterns(enabledExtensions), Patterns(disabledExtensions), defaultForString, default)
  }

  /** `autoescape(template_name)`: no name means a template from a string; otherwise
      the lower-cased name is matched against the enabled, then the disabled patterns. */
  function Decide(p: Policy, templateName: Option<string>): bool {
    match templateName
    case None => p.defaultForString
    case Some(name) =>
      var lowered := Lower(name);
      if EndsWithAny(lowered, p.enabled) then true
      else if EndsWithAny(lowered, p.disabled) then false
      else p.default
  }

  /** The three outcomes for a named template: an enabled suffix wins over a disabled
      one, a disabled one gives false, and a name matching neither gives the default. */
  lemma DecideNamed(p: Policy, name: string)
    ensures EndsWithAny(Lower(name), p.enabled) ==> Decide(p, Some(name))
    ensures !EndsWithAny(Lower(name), p.enabled) && EndsWithAny(Lower(name), p.disabled) ==> !Decide(p, Some(name))
    ensures !EndsWithAny(Lower(name), p.enabled) && !EndsWithAny(Lower(name), p.disabled) ==>
      Decide(p, Some(name)) == p.default
    ensures Decide(p, None) == p.defaultForString
  {
  }

  lemma {:induction false} LowerIdempotent(s: string)
    ensures Lower(Lower(s)) == Lower(s)
  {
    if s != [] {
      LowerIdempotent(s[1..]);
    }
  }

  lemma {:induction false} LowerAppend(a: string, b: string)
    ensures Lower(a + b) == Lower(a) + Lower(b)
  {
    if a != [] {
      assert (a + b)[1..] == a[1..] + b;
      LowerAppend(a[1..], b);
    } else {
      assert a + b == b;
    }
  }

  /** The decision ignores letter case in the template name. */
  lemma DecideIgnoresCase(p: Policy, name: string)
    ensures Decide(p, Some(Lower(name))) == Decide(p, Some(name))
  {
    LowerIdempotent(name);
  }

  /** An extension may be given with a leading dot and in any case: `".HTML"`,
      `"html"` and `"Html"` give the same pattern. */
  lemma {:induction false} PatternNormalises(ext: string)
    ensures Pattern("." + ext) == Pattern(ext)
    ensures Pattern(Lower(ext)) == Pattern(ext)
  {
    assert ("." + ext)[1..] == ext;
    LStripLower(ext);
    LowerIdempotent(LStripDots(ext));
  }

  lemma {:induction false} LStripLower(s: string)
    ensures LStripDots(Lower(s)) == Lower(LStripDots(s))
  {
    if s != [] {
      assert Lower(s)[1..] == Lower(s[1..]);
      LStripLower(s[1..]);
    }
  }

  /** `"." + LStripDots(ext)` is a suffix of `"." + ext`. */
  lemma {:induction false} DotStrippedIsSuffix(ext: string)
    ensures EndsWith("." + ext, "." + LStripDots(ext))
  {
    if ext != [] && ext[0] == '.' {
      var rest := ext[1..];
      DotStrippedIsSuffix(rest);
      assert LStripDots(ext) == LStripDots(rest);
      var stripped := "." + LStripDots(rest);
      assert ext == "." + rest;
      assert ("." + ext)[|"." + ext| - |stripped|..] == ext[|ext| - |stripped|..];
    }
  }

  lemma EndsWithLower(s: string, suffix: string)
    requires EndsWith(s, suffix)
    ensures EndsWith(Lower(s), Lower(suffix))
  {
    var n := |s| - |suffix|;
    var tail := Lower(s)[n..];
    forall i | 0 <= i < |suffix|
      ensures tail[i] == Lower(suffix)[i]
    {
      assert s[n..][i] == suffix[i];
    }
    assert tail == Lower(suffix);
  }

  lemma EndsWithPrefixed(prefix: string, s: string, suffix: string)
    requires EndsWith(s, suffix)
    ensures EndsWith(prefix + s, suffix)
  {
    assert (prefix + s)[|prefix + s| - |suffix|..] == s[|s| - |suffix|..];
  }

  lemma EndsWithExtension(prefix: string, ext: string)
    ensures EndsWith(Lower(prefix + "." + ext), Pattern(ext))
  {
    DotStrippedIsSuffix(ext);
    EndsWithPrefixed(prefix, "." + ext, "." + LStripDots(ext));
    assert prefix + "." + ext == prefix + ("." + ext);
    EndsWithLower(prefix + "." + ext, "." + LStripDots(ext));
    LowerAppend(".", LStripDots(ext));
  }

  /** A template whose name ends in `.<ext>` for an enabled extension is escaped,
      whatever the case of the name and the disabled extensions. */
  lemma EnabledExtensionEscapes(enabledExtensions: seq<string>, disabledExtensions: seq<string>,
                                defaultForString: bool, default: bool, prefix: string, i: nat)
    requires i < |enabledExtensions|
    ensures Decide(SelectAutoescape(enabledExtensions, disabledExtensions, defaultForString, default),
                   Some(prefix + "." + enabledExtensions[i]))
  {
    EndsWithExtension(prefix, enabledExtensions[i]);
  }

  /** A name ending in `.<ext>` for a disabled extension, and matching no enabled
      pattern, is not escaped. */
  lemma DisabledExtensionDoesNotEscape(enabledExtensions: seq<string>, disabledExtensions: seq<string>,
                                       defaultForString: bool, default: bool, prefix: string, i: nat)
    requires i < |disabledExtensions|
    requires !EndsWithAny(Lower(prefix + "." + disabledExtensions[i]), Patterns(enabledExtensions))
    ensures !Decide(SelectAutoescape(enabledExtensions, disabledExtensions, defaultForString, default),
                    Some(prefix + "." + disabledExtensions[i]))
  {
    EndsWithExtension(prefix, disabledExtensions[i]);
  }

  /** An extension in lower case without a leading dot is its own pattern after the dot. */
  lemma LowerPattern(ext: string)
    requires ext != [] && ext[0] != '.'
    requires forall i :: 0 <= i < |ext| ==> !('A' <= ext[i] <= 'Z')
    ensures Pattern(ext) == "." + ext
  {
    assert Lower(ext) == ext;
  }

  /** `select_autoescape()` with its default arguments: templates from strings and
      names ending in `.html`, `.htm` or `.xml` (in any case) are escaped, and no
      other name is. */
  lemma DefaultPolicy(prefix: string, name: string)
    ensures Decide(SelectAutoescape(), None)
    ensures forall i :: 0 <= i < |DefaultEnabledExtensions| ==>
      Decide(SelectAutoescape(), Some(prefix + "." + DefaultEnabledExtensions[i]))
    ensures Decide(SelectAutoescape(), Some(name)) <==> EndsWithAny(Lower(name), Patterns(DefaultEnabledExtensions))
  {
    forall i | 0 <= i < |DefaultEnabledExtensions|
      ensures Decide(SelectAutoescape(), Some(prefix + "." + DefaultEnabledExtensions[i]))
    {
      EnabledExtensionEscapes(DefaultEnabledExtensions, [], true, false, prefix, i);
    }
  }

  /** The default extensions give exactly the suffixes `.html`, `.htm` and `.xml`. */
  lemma DefaultPatterns()
    ensures Patterns(DefaultEnabledExtensions) == [".html", ".htm", ".xml"]
  {
    HtmlPattern();
    HtmPattern();
    XmlPattern();
    ThreeItems(Patterns(DefaultEnabledExtensions), ".html", ".htm", ".xml");
  }

  lemma HtmlPattern()
    ensures Patterns(DefaultEnabledExtensions)[0] == ".html"
  {
    var ext := DefaultEnabledExtensions[0];
    assert ext == "html";
    LowerPattern(ext);
  }

  lemma HtmPattern()
    ensures Patterns(DefaultEnabledExtensions)[1] == ".htm"
  {
    var ext := DefaultEnabledExtensions[1];
    assert ext == "htm";
    LowerPattern(ext);
  }

  lemma XmlPattern()
    ensures Patterns(DefaultEnabledExtensions)[2] == ".xml"
  {
    var ext := DefaultEnabledExtensions[2];
    assert ext == "xml";
    LowerPattern(ext);
  }

  lemma ThreeItems<T>(s: seq<T>, a: T, b: T, c: T)
    requires |s| == 3 && s[0] == a && s[1] == b && s[2] == c
    ensures s == [a, b, c]
  {
  }
}
