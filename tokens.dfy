/**
 * The URL token manager: the `ath` marker that signals a launch from the
 * homescreen. The three regex transforms of src/index.js (`_reSmartURL`,
 * `_reQueryString` and the `#ath` hash) are written out as string
 * functions over the page's `href`; `location.hash` and `location.search`
 * are derived from the `href`.
 */
module Tokens {
  import opened Strings
  import opened Wrappers

  /** `location.hash`: from the first `#` on; empty when there is no fragment or it is empty. */
  function HashOf(href: string): string
  {
    var k := IndexOf(href, '#');
    if k + 1 >= |href| then "" else href[k..]
  }

  /** The hash is non-empty exactly when a `#` is followed by something. */
  lemma HashNonEmpty(href: string)
    ensures HashOf(href) != [] <==> '#' in href && IndexOf(href, '#') + 1 < |href|
  {
  }

  /** A non-empty hash starts with `#` and is what follows `href.split('#')[0]` up to the end. */
  lemma HashIsTail(href: string)
    ensures var h := HashOf(href);
      h != [] ==> h[0] == '#' && EndsWith(href, h) && BeforeHash(href) + h == href
  {
    var h := HashOf(href);
    if h != [] {
      assert EndsWith(href, h);
    }
  }

  /** `location.search`: from the first `?` before the fragment; empty when the query is empty. */
  function SearchOf(href: string): (s: string)
    ensures s != [] ==> |s| >= 2 && s[0] == '?' && '#' !in s && '?' in href
  {
    var before := BeforeHash(href);
    var j := IndexOf(before, '?');
    if j + 1 >= |before| then "" else before[j..]
  }

  /**
   * `location.search` is the tail of the part before the fragment that
   * starts at its first `?`; it is empty exactly when there is no `?` there
   * or the `?` is the last character.
   */
  lemma SearchIsQuery(href: string)
    ensures var b := BeforeHash(href); var s := SearchOf(href);
      && (s != [] ==> EndsWith(b, s) && '?' !in b[..|b| - |s|])
      && (s == [] <==> '?' !in b || IndexOf(b, '?') + 1 == |b|)
  {
    var b := BeforeHash(href);
    var s := SearchOf(href);
    if s != [] {
      assert s == b[IndexOf(b, '?')..];
      assert forall c :: c in b[..IndexOf(b, '?')] ==> c != '?';
    }
  }

  predicate HasHashToken(href: string)
  {
    HashOf(href) == "#ath"
  }

  /** `_reSmartURL.test(href)`, with `_reSmartURL = /\/ath(\/)?$/`. */
  predicate HasSmartToken(href: string)
  {
    EndsWith(href, "/ath") || EndsWith(href, "/ath/")
  }

  /** A match of `_reQueryString = /([?&]ath=[^&]*$|&ath=[^&]*(&))/`: its span and the text of group 2. */
  datatype QueryMatch = QueryMatch(start: nat, end: nat, group2: string)

  /** The regex tried at position `i`: the first alternative, then the second. */
  function QueryAt(t: string, i: nat): (r: Option<QueryMatch>)
    ensures r.Some? ==> r.value.start == i && i + 5 <= r.value.end <= |t|
  {
    if i + 5 <= |t| && (t[i] == '?' || t[i] == '&') && t[i + 1..i + 5] == "ath=" then
      var k := IndexOf(t[i + 5..], '&');
      if i + 5 + k == |t| then Some(QueryMatch(i, |t|, ""))
      else if t[i] == '&' then Some(QueryMatch(i, i + 5 + k + 1, "&"))
      else None
    else None
  }

  /**
   * The regex matches at `i` exactly when `?ath=` or `&ath=` starts there
   * and, for `?`, no `&` follows; the match runs to the end of the text
   * when no `&` follows, and otherwise up to and including the next `&`.
   */
  lemma QueryAtSpec(t: string, i: nat)
    ensures QueryAt(t, i).Some? <==>
      && i + 5 <= |t| && (t[i] == '?' || t[i] == '&') && t[i + 1..i + 5] == "ath="
      && ('&' !in t[i + 5..] || t[i] == '&')
    ensures QueryAt(t, i).Some? && '&' !in t[i + 5..] ==> QueryAt(t, i).value == QueryMatch(i, |t|, "")
    ensures QueryAt(t, i).Some? && '&' in t[i + 5..] ==>
      QueryAt(t, i).value == QueryMatch(i, i + 5 + IndexOf(t[i + 5..], '&') + 1, "&")
  {
  }


  /** The leftmost match at or after position `i`. */
  function QueryFrom(t: string, i: nat): (r: Option<QueryMatch>)
    ensures r.Some? ==> i <= r.value.start && r.value.start + 5 <= r.value.end <= |t|
    ensures r.Some? ==> QueryAt(t, r.value.start) == r
    decreases |t| + 1 - i
  {
    if i > |t| then None
    else if QueryAt(t, i).Some? then QueryAt(t, i)
    else QueryFrom(t, i + 1)
  }

  /** The search finds nothing exactly when the regex matches at no position from `i` on. */
  lemma {:induction false} QueryFromNone(t: string, i: nat)
    ensures QueryFrom(t, i).None? <==> forall j :: i <= j <= |t| ==> QueryAt(t, j).None?
    decreases |t| + 1 - i
  {
    if i <= |t| && QueryAt(t, i).None? {
      QueryFromNone(t, i + 1);
    }
  }

  /** A successful search returns the match at the leftmost matching position. */
  lemma {:induction false} QueryFromLeftmost(t: string, i: nat)
    requires QueryFrom(t, i).Some?
    ensures forall j :: i <= j < QueryFrom(t, i).value.start ==> QueryAt(t, j).None?
    decreases |t| + 1 - i
  {
    if QueryAt(t, i).None? {
      QueryFromLeftmost(t, i + 1);
    }
  }

  /** `_reQueryString.test(location.search)` */
  predicate HasQueryToken(href: string)
  {
    QueryFrom(SearchOf(href), 0).Some?
  }

  /** `hasToken`, src/index.js:142-145. */
  predicate HasToken(href: string)
    ensures HasToken(href) ==> EndsWith(href, "#ath") || EndsWith(href, "/ath") || EndsWith(href, "/ath/") || '?' in href
  {
    HasHashToken(href) || HasSmartToken(href) || HasQueryToken(href)
  }

  /** `href.split('#')[0]` */
  function BeforeHash(href: string): (r: string)
    ensures '#' !in r && r <= href
    ensures |r| == |href| || href[|r|] == '#'
  {
    href[..IndexOf(href, '#')]
  }

  /** `href.replace(_reSmartURL, '$1')`: drops `/ath`, keeping the trailing `/` if there was one. */
  function StripSmart(href: string): (r: string)
    ensures HasSmartToken(href) ==> r == href[..|href| - 4]
    ensures !HasSmartToken(href) ==> r == href
  {
    if EndsWith(href, "/ath/") then href[..|href| - 5] + "/"
    else if EndsWith(href, "/ath") then href[..|href| - 4]
    else href
  }

  /** `href.replace(_reQueryString, '$2')`: the first match is replaced by its group 2 (`&` or nothing). */
  function StripQuery(href: string): string
  {
    match QueryFrom(href, 0)
    case None => href
    case Some(m) => href[..m.start] + m.group2 + href[m.end..]
  }

  /**
   * Without a match the `href` is unchanged; with one, the text before the
   * match and after it is kept and at least `ath=` and its `?` or `&` go.
   */
  lemma StripQuerySpec(href: string)
    ensures QueryFrom(href, 0).None? ==> StripQuery(href) == href
    ensures QueryFrom(href, 0).Some? ==> var m := QueryFrom(href, 0).value; var r := StripQuery(href);
      |r| <= |href| - 4 && href[..m.start] <= r && EndsWith(r, href[m.end..])
  {
  }

  /**
   * `_removeToken`, src/index.js:739-763: the three forms are tried in turn,
   * each test on the `href` left by the previous step. The query test reads
   * `location.search`, the replacement works on the whole `href`.
   */
  function RemoveToken(href: string): string
  {
    var h1 := if HasHashToken(href) then BeforeHash(href) else href;
    var h2 := if HasSmartToken(h1) then StripSmart(h1) else h1;
    if HasQueryToken(h2) then StripQuery(h2) else h2
  }

  /** Removing leaves an `href` without a token alone and never lengthens one. */
  lemma RemoveTokenSpec(href: string)
    ensures !HasToken(href) ==> RemoveToken(href) == href
    ensures |RemoveToken(href)| <= |href|
  {
    var h1 := if HasHashToken(href) then BeforeHash(href) else href;
    var h2 := if HasSmartToken(h1) then StripSmart(h1) else h1;
    if HasQueryToken(h2) {
      StripQuerySpec(h2);
    }
  }

  /** `href + '#ath'` (src/index.js:268-273). */
  function AddHashToken(href: string): string
  {
    href + "#ath"
  }

  /** On an `href` without a fragment, the added hash is detected and `split('#')[0]` gives the `href` back. */
  lemma HashTokenDetected(href: string)
    requires '#' !in href
    ensures HasHashToken(AddHashToken(href)) && BeforeHash(AddHashToken(href)) == href
  {
    var r := AddHashToken(href);
    assert r[|href|] == '#';
    assert forall j :: 0 <= j < |href| ==> r[j] == href[j];
    IndexOfAt(r, '#', |href|);
  }

  /** `href.replace(/(\/)?$/, '/ath$1')` (src/index.js:274-279). */
  function AddSmartToken(href: string): (r: string)
    ensures HasSmartToken(r)
  {
    if |href| > 0 && href[|href| - 1] == '/' then href[..|href| - 1] + "/ath/"
    else href + "/ath"
  }

  /** `href + (search ? '&' : '?') + 'ath='` (src/index.js:280-287). */
  function AddQueryToken(href: string): (r: string)
    ensures '#' !in href && '?' !in href ==> r == href + "?ath="
  {
    if '#' !in href && '?' !in href then NoSearch(href); href + "?ath="
    else href + (if SearchOf(href) != "" then "&" else "?") + "ath="
  }

  /** On an `href` without fragment or query, the added query-string token is detected. */
  lemma QueryTokenDetected(href: string)
    requires '#' !in href && '?' !in href
    ensures HasQueryToken(AddQueryToken(href))
  {
    SearchOfAppended(href);
    assert QueryAt("?ath=", 0).Some?;
  }

  /**
   * The separator follows `location.search`: `&` when the page already has
   * a query string, `?` otherwise.
   */
  lemma QueryTokenJoin(href: string)
    ensures SearchOf(href) != "" ==> AddQueryToken(href) == href + "&ath="
    ensures SearchOf(href) == "" ==> AddQueryToken(href) == href + "?ath="
  {
    if '#' !in href && '?' !in href {
      NoSearch(href);
    }
  }

  /** A hash token is always the end of the `href`. */
  lemma HashTokenAtEnd(href: string)
    requires HasHashToken(href)
    ensures EndsWith(href, "#ath")
  {
    HashIsTail(href);
  }

  /** Adding the hash token to an `href` without a fragment and then removing every token restores it. */
  lemma HashRoundTrip(href: string)
    requires '#' !in href && !HasToken(href)
    ensures HasToken(AddHashToken(href))
    ensures RemoveToken(AddHashToken(href)) == href
  {
    HashTokenDetected(href);
  }

  /** Adding the smartURL token and then removing every token restores an `href` that carried none. */
  lemma SmartRoundTrip(href: string)
    requires !HasToken(href)
    ensures HasToken(AddSmartToken(href))
    ensures RemoveToken(AddSmartToken(href)) == href
  {
    SmartTokenIsNoHash(href);
    StripSmartAdded(href);
  }

  /** Stripping the smartURL token undoes adding it. */
  lemma StripSmartAdded(href: string)
    ensures StripSmart(AddSmartToken(href)) == href
  {
    var h := AddSmartToken(href);
    if |href| > 0 && href[|href| - 1] == '/' {
      assert EndsWith(h, "/ath/");
      assert h[..|h| - 5] + "/" == href;
    } else {
      assert h[|h| - 1] == 'h';
      assert h[..|h| - 4] == href;
    }
  }

  /** An `href` ending in the smartURL token does not end in the hash token. */
  lemma SmartTokenIsNoHash(href: string)
    ensures !HasHashToken(AddSmartToken(href))
  {
    var h := AddSmartToken(href);
    if |href| > 0 && href[|href| - 1] == '/' {
      LastDiffers(h, "#ath");
    } else {
      assert h[|h| - 4..] == "/ath";
    }
  }

  /** No match can start before the first `?` or `&`. */
  lemma {:induction false} QueryFromSkips(t: string, i: nat, k: nat)
    requires i <= k <= |t|
    requires forall j :: i <= j < k ==> t[j] != '?' && t[j] != '&'
    ensures QueryFrom(t, i) == QueryFrom(t, k)
    decreases k - i
  {
    if i < k {
      assert QueryAt(t, i).None?;
      QueryFromSkips(t, i + 1, k);
    }
  }

  /** Without a `#` or `?` there is no query string. */
  lemma NoSearch(href: string)
    requires '#' !in href && '?' !in href
    ensures SearchOf(href) == ""
  {
    assert href[..IndexOf(href, '#')] == href;
  }

  /** Appending `?ath=` to an `href` without `#` or `?` gives it the query string `?ath=`. */
  lemma SearchOfAppended(href: string)
    requires '#' !in href && '?' !in href
    ensures SearchOf(href + "?ath=") == "?ath="
  {
    var h := href + "?ath=";
    assert '#' !in h by {
      assert forall j :: 0 <= j < |h| ==> h[j] == (if j < |href| then href[j] else "?ath="[j - |href|]);
    }
    assert h[..IndexOf(h, '#')] == h;
    assert IndexOf(h, '?') == |href| by {
      assert h[|href|] == '?';
      assert forall j :: 0 <= j < |href| ==> h[j] == href[j];
    }
    assert h[|href|..] == "?ath=";
  }

  /** The only match in `href + "?ath="` is the appended parameter, and it is removed whole. */
  lemma StripAppendedQuery(href: string)
    requires '?' !in href && '&' !in href
    ensures StripQuery(href + "?ath=") == href
  {
    var h := href + "?ath=";
    forall j | 0 <= j < |href| ensures h[j] != '?' && h[j] != '&' {
      assert h[j] == href[j];
    }
    QueryFromSkips(h, 0, |href|);
    assert h[|href| + 1..|href| + 5] == "ath=";
    assert h[|href| + 5..] == [];
    assert QueryAt(h, |href|) == Some(QueryMatch(|href|, |h|, ""));
    assert h[..|href|] == href;
  }

  /**
   * Adding the query-string token to an `href` with no query, fragment or `&`
   * and then removing every token restores it.
   */
  lemma QueryRoundTrip(href: string)
    requires '#' !in href && '?' !in href && '&' !in href && !HasSmartToken(href)
    ensures HasToken(AddQueryToken(href))
    ensures RemoveToken(AddQueryToken(href)) == href
  {
    var h := AddQueryToken(href);
    QueryTokenDetected(href);
    assert h[|h| - 1] == '=';
    StripAppendedQuery(href);
  }

  /** The second alternative at `i`: the match runs up to and including the next `&`. */
  lemma QueryAtMiddle(t: string, i: nat, v: string)
    requires i + 5 + |v| < |t| && t[i] == '&' && t[i + 1..i + 5] == "ath="
    requires t[i + 5..i + 5 + |v|] == v && '&' !in v && t[i + 5 + |v|] == '&'
    ensures QueryAt(t, i) == Some(QueryMatch(i, i + 5 + |v| + 1, "&"))
  {
    var rest := t[i + 5..];
    assert forall j :: 0 <= j < |v| ==> rest[j] == v[j];
    IndexOfAt(rest, '&', |v|);
  }

  /** Where the parts of `pre + "&ath=" + v + "&" + post` sit. */
  lemma MiddleText(pre: string, v: string, post: string)
    requires '?' !in pre && '&' !in pre
    ensures var t := pre + "&ath=" + v + "&" + post; var i := |pre|;
      && |t| == i + 5 + |v| + 1 + |post|
      && (forall j :: 0 <= j < i ==> t[j] != '?' && t[j] != '&')
      && t[i] == '&' && t[i + 1..i + 5] == "ath=" && t[i + 5..i + 5 + |v|] == v && t[i + 5 + |v|] == '&'
      && t[..i] == pre && t[i + 5 + |v| + 1..] == post
  {
    var t := pre + "&ath=" + v + "&" + post;
    assert t == pre + ("&ath=" + v + "&" + post);
    assert t[|pre|..] == "&ath=" + v + "&" + post;
    assert forall j :: 0 <= j < |pre| ==> t[j] == pre[j];
  }

  /**
   * A token in the middle of the query is removed together with its value,
   * and the `&` that followed it is kept (group 2 of the second alternative).
   */
  lemma QueryMiddleKeepsSeparator(pre: string, v: string, post: string)
    requires '?' !in pre && '&' !in pre && '&' !in v
    ensures StripQuery(pre + "&ath=" + v + "&" + post) == pre + "&" + post
  {
    var t := pre + "&ath=" + v + "&" + post;
    var i := |pre|;
    MiddleText(pre, v, post);
    QueryFromSkips(t, 0, i);
    QueryAtMiddle(t, i, v);
  }

  /** Positions where the regex does not match are passed over by the search. */
  lemma {:induction false} QueryFromSkipsNone(t: string, i: nat, k: nat)
    requires i <= k <= |t| + 1
    requires forall j :: i <= j < k ==> QueryAt(t, j).None?
    ensures QueryFrom(t, i) == QueryFrom(t, k)
    decreases k - i
  {
    if i < k {
      QueryFromSkipsNone(t, i + 1, k);
    }
  }

  /** Appending `&ath=` creates no match before it: any earlier match would need an `&` that was already there. */
  lemma AppendedNoEarlierMatch(t: string, j: nat)
    requires j < |t| && QueryAt(t, j).None?
    ensures QueryAt(t + "&ath=", j).None?
  {
    var u := t + "&ath=";
    QueryAtSpec(t, j);
    QueryAtSpec(u, j);
    if j + 5 <= |t| {
      assert u[j] == t[j] && u[j + 1..j + 5] == t[j + 1..j + 5];
      assert u[j + 5..][|t| - j - 5] == '&';
    } else if j + 5 <= |u| {
      assert u[j + 1..j + 5][|t| - j - 1] == '&';
    }
  }

  /** In a text without a match, the appended `&ath=` is the leftmost match, and it runs to the end. */
  lemma AppendedQueryMatch(t: string)
    requires QueryFrom(t, 0).None?
    ensures QueryFrom(t + "&ath=", 0) == Some(QueryMatch(|t|, |t| + 5, ""))
  {
    var u := t + "&ath=";
    QueryFromNone(t, 0);
    forall j | 0 <= j < |t|
      ensures QueryAt(u, j).None?
    {
      AppendedNoEarlierMatch(t, j);
    }
    QueryFromSkipsNone(u, 0, |t|);
    assert u[|t| + 1..|t| + 5] == "ath=" && u[|t| + 5..] == [];
    assert QueryAt(u, |t|) == Some(QueryMatch(|t|, |u|, ""));
  }

  /** Appending `&ath=` to an `href` with a query string and no fragment extends the query string. */
  lemma AppendedSearch(href: string)
    requires '#' !in href && SearchOf(href) != ""
    ensures SearchOf(href + "&ath=") == SearchOf(href) + "&ath="
  {
    var j := IndexOf(href, '?');
    assert BeforeHash(href) == href;
    assert '?' !in href[..j];
    SearchFrom(href, j);
    AppendedSearchFrom(href, j);
  }

  /** The search part of `href + "&ath="` still starts at the first `?` of `href`. */
  lemma AppendedSearchFrom(href: string, j: nat)
    requires '#' !in href && j + 1 < |href| && href[j] == '?' && '?' !in href[..j]
    ensures SearchOf(href + "&ath=") == href[j..] + "&ath="
  {
    var h := href + "&ath=";
    NoHashAppended(href);
    assert h[..j] == href[..j];
    SearchFrom(h, j);
    assert h[j..] == href[j..] + "&ath=";
  }

  /** Appending `&ath=` adds no fragment. */
  lemma NoHashAppended(href: string)
    requires '#' !in href
    ensures '#' !in href + "&ath="
  {
    var h := href + "&ath=";
    assert forall k :: 0 <= k < |h| ==> h[k] == (if k < |href| then href[k] else "&ath="[k - |href|]);
  }

  /** `href + "&ath="` on an `href` with a query string and no fragment carries only the query token. */
  lemma JoinedTokenForm(href: string)
    requires '#' !in href && SearchOf(href) != ""
    ensures var h := href + "&ath="; HasQueryToken(h) && !HasHashToken(h) && !HasSmartToken(h)
  {
    var h := href + "&ath=";
    NoHashAppended(href);
    AppendedSearch(href);
    EndQueryToken(SearchOf(href));
    HashNonEmpty(h);
    assert h[|h| - 1] == '=';
    LastDiffers(h, "/ath");
    LastDiffers(h, "/ath/");
  }

  /** A search part ending in `&ath=` has a match of the regex. */
  lemma EndQueryToken(s: string)
    ensures QueryFrom(s + "&ath=", 0).Some?
  {
    var u := s + "&ath=";
    assert u[|s| + 1..|s| + 5] == "ath=" && u[|s| + 5..] == [];
    assert QueryAt(u, |s|).Some?;
    QueryFromNone(u, 0);
  }

  /**
   * Adding the query-string token to an `href` that already has a query
   * string (joined with `&`) and no fragment, where the regex matches
   * nowhere, and then removing every token restores it.
   */
  lemma QueryJoinRoundTrip(href: string)
    requires '#' !in href && SearchOf(href) != "" && QueryFrom(href, 0).None?
    ensures HasToken(AddQueryToken(href))
    ensures RemoveToken(AddQueryToken(href)) == href
  {
    var h := href + "&ath=";
    QueryTokenJoin(href);
    JoinedTokenForm(href);
    OnlyQueryRemoved(h);
    AppendedQueryMatch(href);
    JoinedQueryStripped(href);
  }

  /**
   * The page `http://a/?x=1` has a query and no token, so `QueryJoinRoundTrip`
   * applies: it gets `&ath=` and loses it again.
   */
  lemma QueryJoinExample(t: string)
    requires t == "http://a/?x=1"
    ensures '#' !in t && SearchOf(t) == "?x=1"
    ensures QueryFrom(t, 0).None?
  {
    ExampleSearch(t);
    ExampleNoQueryToken(t);
  }

  /** The search part of `http://a/?x=1` is `?x=1`. */
  lemma ExampleSearch(t: string)
    requires t == "http://a/?x=1"
    ensures '#' !in t && SearchOf(t) == "?x=1"
  {
    assert '#' !in t;
    assert t[9] == '?' && '?' !in t[..9];
    SearchFrom(t, 9);
    assert t[9..] == "?x=1";
  }

  /** The query-token regex matches nowhere in `http://a/?x=1`. */
  lemma ExampleNoQueryToken(t: string)
    requires t == "http://a/?x=1"
    ensures QueryFrom(t, 0).None?
  {
    forall j | 0 <= j <= |t|
      ensures QueryAt(t, j).None?
    {
      QueryAtSpec(t, j);
      if j + 5 <= |t| {
        assert t[j + 1..j + 5][3] == t[j + 4];
        assert t[j + 4] != '=' || j + 4 == 11;
      }
    }
    QueryFromNone(t, 0);
  }

  /** Without a fragment, the search part starts at the first `?` when something follows it. */
  lemma SearchFrom(href: string, k: nat)
    requires '#' !in href && k + 1 < |href| && href[k] == '?' && '?' !in href[..k]
    ensures SearchOf(href) == href[k..]
  {
    assert BeforeHash(href) == href;
    IndexOfAt(href, '?', k);
  }

  /** Replacing the appended match at the end by its empty group restores the text. */
  lemma JoinedQueryStripped(href: string)
    requires QueryFrom(href + "&ath=", 0) == Some(QueryMatch(|href|, |href| + 5, ""))
    ensures StripQuery(href + "&ath=") == href
  {
    var h := href + "&ath=";
    assert h[..|href|] == href;
    assert h[|href| + 5..] == "";
  }

  /** With neither a hash nor a smartURL token, removing tokens is the query replace. */
  lemma OnlyQueryRemoved(h: string)
    requires HasQueryToken(h) && !HasHashToken(h) && !HasSmartToken(h)
    ensures RemoveToken(h) == StripQuery(h)
  {
  }
}
