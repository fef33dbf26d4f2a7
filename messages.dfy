/**
 * What `show` renders (src/index.js:465-526): the message text chosen by a
 * five-way priority, the `%icon` substitution, and the two class-name
 * strings of the callout. The localized string table (`./i18n`) is an
 * opaque map from locale to a map from platform to template.
 */
module Messages {
  import opened Strings
  import opened Wrappers
  import Environment

  /** The table of localized templates: locale -> platform -> template. */
  type IntlTable = map<string, map<string, string>>

  /** One value of a `message` object: a string, or an object keyed by platform. */
  datatype Entry = Str(s: string) | Nested(byOS: map<string, string>)

  /** The `message` option: a plain string, or an object keyed by locale and/or platform. */
  datatype Message = Text(text: string) | Table(entries: map<string, Entry>)


  /** A JavaScript object used as a property key turns into this string. */
  const OBJECT_KEY := "[object Object]"

  /**
   * The message chosen at src/index.js:465-488. `None` stands for a value
   * that is not a string (an `undefined` lookup or an object), on which the
   * following `message.replace` throws a TypeError, and for the TypeError of
   * `os in intlStrings[language]` when the locale is not in the table.
   */
  function ResolveMessage(msg: Message, language: string, os: string, intl: IntlTable): Option<string>
  {
    match msg
    case Table(entries) =>
      if language in entries then
        (match entries[language]
         case Nested(m) => if os in m then Some(m[os]) else None
         case Str(_) => None)
      else if os in entries then
        (match entries[os]
         case Str(s) => Some(s)
         case Nested(_) => None)
      else if OBJECT_KEY in intl then
        (if os in intl[OBJECT_KEY] then Some(intl[OBJECT_KEY][os]) else None)
      else None
    case Text(t) =>
      if t in intl then
        (if os in intl[t] then Some(intl[t][os]) else None)
      else if t != "" then Some(t)
      else if language !in intl then None
      else if os in intl[language] then Some(intl[language][os])
      else Some("")
  }

  /**
   * The five branches in order: a locale entry (its platform template, or a
   * throw), a platform entry, a forced locale (or the object key when the
   * option is an object no entry matches), a custom string used as is, and
   * the visitor's own locale template; an unknown locale with no message
   * throws.
   */
  lemma ResolveMessageSpec(msg: Message, language: string, os: string, intl: IntlTable)
    ensures (msg.Table? && language in msg.entries && msg.entries[language].Nested?
             && os in msg.entries[language].byOS) ==> ResolveMessage(msg, language, os, intl) == Some(msg.entries[language].byOS[os])
    ensures (msg.Table? && language in msg.entries
             && (msg.entries[language].Str? || os !in msg.entries[language].byOS)) ==> ResolveMessage(msg, language, os, intl) == None
    ensures (msg.Table? && language !in msg.entries && os in msg.entries) ==>
      ResolveMessage(msg, language, os, intl) == (if msg.entries[os].Str? then Some(msg.entries[os].s) else None)
    ensures (msg.Table? && language !in msg.entries && os !in msg.entries) ==>
      ResolveMessage(msg, language, os, intl) == (if OBJECT_KEY in intl && os in intl[OBJECT_KEY] then Some(intl[OBJECT_KEY][os]) else None)
    ensures msg.Text? && msg.text in intl ==>
      ResolveMessage(msg, language, os, intl) == (if os in intl[msg.text] then Some(intl[msg.text][os]) else None)
    ensures msg.Text? && msg.text !in intl && msg.text != "" ==> ResolveMessage(msg, language, os, intl) == Some(msg.text)
    ensures msg.Text? && msg.text == "" && msg.text !in intl && language !in intl ==> ResolveMessage(msg, language, os, intl) == None
    ensures msg.Text? && msg.text == "" && msg.text !in intl && language in intl ==>
      ResolveMessage(msg, language, os, intl) == Some(if os in intl[language] then intl[language][os] else "")
  {
  }

  /** The default text: with no custom message the template of the visitor's own locale and platform is used. */
  lemma DefaultMessageFromTable(language: string, os: string, intl: IntlTable)
    requires "" !in intl && language in intl && os in intl[language]
    ensures ResolveMessage(Text(""), language, os, intl) == Some(intl[language][os])
  {
  }

  /** A message keyed by locale wins over one keyed by platform in the same object. */
  lemma LocaleBeforePlatform(entries: map<string, Entry>, language: string, os: string, intl: IntlTable)
    requires language in entries && os in entries && language != os
    ensures ResolveMessage(Table(entries), language, os, intl)
         == (match entries[language]
             case Nested(m) => if os in m then Some(m[os]) else None
             case Str(_) => None)
  {
  }

  /** The markup an `%icon` token becomes. */
  function IconSpan(caption: string): string
  {
    "<span class=\"ath-action-icon\">" + caption + "</span>"
  }

  /** `/%icon(?:\[([^\]]+)\])?/i` at the start of `s`: the match length and the caption (`icon` by default). */
  function IconAt(s: string): (r: Option<(nat, string)>)
    ensures r.Some? ==> 5 <= r.value.0 <= |s|
    ensures r.Some? <==> |s| >= 5 && s[0] == '%' && Lower(s[1..5]) == "icon"
    ensures r.Some? ==>
      var captioned := |s| > 6 && s[5] == '[' && s[6] != ']' && ']' in s[6..];
      && (!captioned ==> r.value == (5, "icon"))
      && (captioned ==> var (n, caption) := r.value;
            n == |caption| + 7 && caption != [] && ']' !in caption
            && s[6..n - 1] == caption && s[n - 1] == ']')
  {
    if |s| >= 5 && s[0] == '%' && Lower(s[1..5]) == "icon" then
      if |s| > 6 && s[5] == '[' then
        var k := IndexOf(s[6..], ']');
        if 0 < k < |s| - 6 then Some((6 + k + 1, s[6..6 + k])) else Some((5, "icon"))
      else Some((5, "icon"))
    else None
  }

  /** `message.replace(/%icon(?:\[([^\]]+)\])?/gi, ...)`: every token, scanning left to right. */
  function ReplaceIcons(s: string): (r: string)
    ensures '%' !in s ==> r == s
    decreases |s|
  {
    if s == [] then []
    else match IconAt(s)
      case Some((n, caption)) => IconSpan(caption) + ReplaceIcons(s[n..])
      case None =>
        assert forall c :: c in s[1..] ==> c in s;
        [s[0]] + ReplaceIcons(s[1..])
  }

  /** No token starts at a character other than `%`. */
  lemma NoIconAt(s: string)
    requires s != [] && s[0] != '%'
    ensures ReplaceIcons(s) == [s[0]] + ReplaceIcons(s[1..])
  {
  }

  /** A prefix without `%` is kept, and the substitution goes on after it. */
  lemma {:induction false} ReplaceIconsAfterPlainPrefix(a: string, b: string)
    requires '%' !in a
    ensures ReplaceIcons(a + b) == a + ReplaceIcons(b)
    decreases |a|
  {
    if a == [] {
      assert a + b == b;
    } else {
      assert a[0] in a;
      assert (a + b)[0] == a[0] && (a + b)[1..] == a[1..] + b;
      NoIconAt(a + b);
      assert forall c :: c in a[1..] ==> c in a;
      ReplaceIconsAfterPlainPrefix(a[1..], b);
      assert [a[0]] + (a[1..] + ReplaceIcons(b)) == ([a[0]] + a[1..]) + ReplaceIcons(b);
      assert [a[0]] + a[1..] == a;
    }
  }

  /** The word `icon` written in any letter case. */
  predicate IconWord(icon: string)
  {
    |icon| == 4 && Lower(icon) == "icon"
  }

  /** A captioned token, in any letter case, becomes a span carrying the caption. */
  lemma CaptionedIcon(icon: string, caption: string, rest: string)
    requires IconWord(icon) && |caption| > 0 && ']' !in caption
    ensures ReplaceIcons("%" + icon + "[" + caption + "]" + rest) == IconSpan(caption) + ReplaceIcons(rest)
  {
    var s := "%" + icon + "[" + caption + "]" + rest;
    CaptionedIconAt(icon, caption, rest);
    assert s[|caption| + 7..] == rest;
  }

  /**
   * A token in any letter case that is not followed by `[` becomes a span with
   * the default caption, and the rest is substituted in turn.
   */
  lemma PlainIcon(icon: string, rest: string)
    requires IconWord(icon) && (rest == [] || rest[0] != '[')
    ensures ReplaceIcons("%" + icon + rest) == IconSpan("icon") + ReplaceIcons(rest)
  {
    var s := "%" + icon + rest;
    assert s[0] == '%' && s[1..5] == icon;
    assert |s| > 5 ==> s[5] == rest[0];
    assert s[5..] == rest;
  }

  /** The token scanner reads the whole captioned token. */
  lemma CaptionedIconAt(icon: string, caption: string, rest: string)
    requires IconWord(icon) && |caption| > 0 && ']' !in caption
    ensures IconAt("%" + icon + "[" + caption + "]" + rest) == Some((|caption| + 7, caption))
  {
    var t := caption + "]" + rest;
    CaptionedTokenText(icon, caption, rest);
    IndexOfAt(t, ']', |caption|);
  }

  /** Where the parts of a captioned token sit in the text. */
  lemma CaptionedTokenText(icon: string, caption: string, rest: string)
    requires |icon| == 4
    ensures var s := "%" + icon + "[" + caption + "]" + rest;
      && |s| == |caption| + 7 + |rest| && s[0] == '%' && s[5] == '[' && s[1..5] == icon
      && s[6..] == caption + "]" + rest && s[6..6 + |caption|] == caption
      && (caption + "]" + rest)[|caption|] == ']'
      && forall j :: 0 <= j < |caption| ==> (caption + "]" + rest)[j] == caption[j]
  {
    var s := "%" + icon + "[" + caption + "]" + rest;
    assert s == "%" + icon + "[" + (caption + "]" + rest);
  }

  /** The paragraph placed in the callout. */
  function MessageHtml(message: string): (r: string)
    ensures |r| >= 7 && r[..3] == "<p>" && EndsWith(r, "</p>")
    ensures '%' !in message ==> r == "<p>" + message + "</p>"
  {
    "<p>" + ReplaceIcons(message) + "</p>"
  }

  /** Decimal digits of a natural number, with no leading zero except in `0` itself. */
  function NatToString(n: nat): (r: string)
    ensures |r| > 0 && AllDigitsOf(r)
    ensures r[0] == '0' <==> n == 0
  {
    if n < 10 then [('0' as int + n) as char]
    else NatToString(n / 10) + [('0' as int + n % 10) as char]
  }

  predicate AllDigitsOf(r: string)
  {
    forall i :: 0 <= i < |r| ==> IsDigit(r[i])
  }

  /** Printing and reading back a number gives the number. */
  lemma {:induction false} NatToStringRoundTrip(n: nat)
    ensures Environment.AllDigits(NatToString(n))
    ensures Environment.DigitsValue(NatToString(n)) == n
  {
    var r := NatToString(n);
    if n >= 10 {
      NatToStringRoundTrip(n / 10);
      assert r[..|r| - 1] == NatToString(n / 10);
    }
  }

  /** `parseInt(OSVersion) || ''`: the integer part, or nothing when it is 0. */
  function VersionSuffix(osVersion: real): (r: string)
    ensures osVersion >= 1.0 ==> Environment.AllDigits(r) && Environment.DigitsValue(r) == osVersion.Floor
    ensures 0.0 <= osVersion < 1.0 ==> r == ""
    ensures r != [] ==> r[0] != '0'
  {
    var n := if osVersion >= 0.0 then osVersion.Floor else -((-osVersion).Floor);
    if n == 0 then ""
    else if n > 0 then NatToStringRoundTrip(n); NatToString(n)
    else "-" + NatToString(-n)
  }

  /** The class of the message element (src/index.js:518-526, 535-536). */
  function ContainerClass(os: string, osVersion: real, isTablet: bool, showClose: bool, withIcon: bool): (r: string)
    ensures var head := "ath-container ath-" + os + " ath-" + os;
      && head <= r
      && OccursAt(r, VersionSuffix(osVersion), |head|)
      && OccursAt(r, if isTablet then " ath-tablet" else " ath-phone", |head| + |VersionSuffix(osVersion)|)
    ensures var q := 18 + 2 * |os| + 5 + |VersionSuffix(osVersion)| + (if isTablet then 11 else 10);
      && (OccursAt(r, " ath-show-close", q) <==> showClose)
      && |r| == q + (if showClose then 15 else 0) + (if withIcon then 9 else 0)
    ensures EndsWith(r, " ath-icon") <==> withIcon
  {
    var head := "ath-container ath-" + os + " ath-" + os;
    var v := VersionSuffix(osVersion);
    var word := if isTablet then " ath-tablet" else " ath-phone";
    var close := if showClose then " ath-show-close" else "";
    var icon := if withIcon then " ath-icon" else "";
    var r := head + v + word + close + icon;
    ClassParts(head, v, word, close, icon);
    var c := head + v + word + close;
    assert c[|c| - 1] == (if showClose then 'e' else if isTablet then 't' else 'e');
    LastDiffers(c, " ath-icon");
    r
  }

  /** Where the five parts of a class string sit. */
  lemma ClassParts(head: string, v: string, word: string, close: string, icon: string)
    ensures var r := head + v + word + close + icon;
      && head <= r && OccursAt(r, v, |head|) && OccursAt(r, word, |head| + |v|)
      && OccursAt(r, close, |head| + |v| + |word|)
      && r[|head| + |v| + |word| + |close|..] == icon
  {
    var r := head + v + word + close + icon;
    assert r == head + v + (word + close + icon);
    OccursInMiddle(head, v, word + close + icon);
    assert r == (head + v) + word + (close + icon);
    OccursInMiddle(head + v, word, close + icon);
    OccursInMiddle(head + v + word, close, icon);
  }

  /** The class of the viewport element (src/index.js:507-513). */
  function ViewportClass(modal: bool, mandatory: bool): (r: string)
    ensures |r| >= 12 && r[..12] == "ath-viewport"
    ensures OccursAt(r, " ath-modal", 12) <==> modal
    ensures EndsWith(r, " ath-mandatory") <==> mandatory
    ensures |r| == 12 + (if modal then 10 else 0) + (if mandatory then 14 else 0)
  {
    var m := if modal then " ath-modal" else "";
    var d := if mandatory then " ath-mandatory" else "";
    var r := "ath-viewport" + m + d;
    OccursInMiddle("ath-viewport", m, d);
    assert !modal && mandatory ==> r[18] == 'a';
    assert r[|r| - 1] == (if mandatory then 'y' else if modal then 'l' else 't');
    if !mandatory then LastDiffers(r, " ath-mandatory"); r else r
  }
}
