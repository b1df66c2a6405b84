/**
 * The FixupX nudge plugin: a message with X/Twitter post links gets a
 * reply suggesting the same posts on fixupx.com, at most once per
 * cooldown per channel. A guild's settings and its in-memory last-nudge
 * times are one `FixupxNudge` object.
 *
 * The post-link pattern
 *   https?://(?:www\.)?(?:x\.com|twitter\.com)/[^/\s]+/status/\d+[^\s]*
 * (case-insensitive) is written out as a scan: every choice in it has at
 * most one way to succeed, so no backtracking is needed beyond the
 * optional `www.`.
 */
module FixupxNudge {
  import opened Wrappers
  import opened Text
  import ChannelNotify
  import Seqs

  /** The cooldown a guild starts with, in seconds. */
  const DefaultCooldownSeconds := 300
  /** What the conversion puts in place of the scheme and host. */
  const Fixupx := "https://" + Domain
  /** The host of the suggested links. */
  const Domain := "fixupx.com"
  /** The text in front of the suggested links. */
  const Lead := "\U{1F4A1} For better embed support, consider using"

  /** No whitespace anywhere in `s`. */
  predicate NoSpace(s: string)
  {
    forall j :: 0 <= j < |s| ==> !IsSpace(s[j])
  }

  /** The literal `lit` occurs at `i` of `t`. */
  predicate HasAt(t: string, i: nat, lit: string)
  {
    i + |lit| <= |t| && t[i..i + |lit|] == lit
  }

  /*
   * The pattern is matched against the lower-cased message `t`, which has
   * the same length, whitespace, `/` and digits as the message itself.
   */

  /** `https?://` at `i`: the position after it. */
  function SchemeEnd(t: string, i: nat): (r: Option<nat>)
    ensures r.Some? ==> i < r.value <= |t|
  {
    if HasAt(t, i, "https://") then Some(i + 8)
    else if HasAt(t, i, "http://") then Some(i + 7)
    else None
  }

  /** `(?:x\.com|twitter\.com)` at `j`: the position after the host. */
  function HostAt(t: string, j: nat): (r: Option<nat>)
    ensures r.Some? ==> j < r.value <= |t|
  {
    if HasAt(t, j, "x.com") then Some(j + 5)
    else if HasAt(t, j, "twitter.com") then Some(j + 11)
    else None
  }

  /** `(?:www\.)?` then the host: `www.` is tried first and dropped again when no host follows it. */
  function WwwHostAt(t: string, j: nat): (r: Option<nat>)
    ensures r.Some? ==> j < r.value <= |t|
  {
    if HasAt(t, j, "www.") && HostAt(t, j + 4).Some? then HostAt(t, j + 4) else HostAt(t, j)
  }

  /** `https?://(?:www\.)?(?:x\.com|twitter\.com)` at `i`: the position after the host. */
  function HostEnd(t: string, i: nat): (r: Option<nat>)
    ensures r.Some? ==> i < r.value <= |t|
  {
    match SchemeEnd(t, i)
    case None => None
    case Some(j) => WwwHostAt(t, j)
  }

  /** The first position at or after `k` holding whitespace, or the end. */
  function SpaceFrom(t: string, k: nat): (r: nat)
    requires k <= |t|
    ensures k <= r <= |t| && (r == |t| || IsSpace(t[r]))
    ensures forall j :: k <= j < r ==> !IsSpace(t[j])
    decreases |t| - k
  {
    if k == |t| || IsSpace(t[k]) then k else SpaceFrom(t, k + 1)
  }

  /** The first position at or after `k` holding `/` or whitespace, or the end. */
  function SegmentEnd(t: string, k: nat): (r: nat)
    requires k <= |t|
    ensures k <= r <= |t| && (r == |t| || t[r] == '/' || IsSpace(t[r]))
    ensures forall j :: k <= j < r ==> t[j] != '/' && !IsSpace(t[j])
    decreases |t| - k
  {
    if k == |t| || t[k] == '/' || IsSpace(t[k]) then k else SegmentEnd(t, k + 1)
  }

  /**
   * The end of a post link starting at `i`: the host, `/`, a user name
   * of one or more characters other than `/` and whitespace, `/status/`,
   * a digit, and everything up to the next whitespace.
   */
  function MatchEnd(t: string, i: nat): (r: Option<nat>)
    ensures r.Some? ==> i < r.value <= |t|
  {
    match HostEnd(t, i)
    case None => None
    case Some(h) => PathEnd(t, h)
  }

  /** `/[^/\s]+/status/\d\S*` at `h`: the position after the link. */
  function PathEnd(t: string, h: nat): (r: Option<nat>)
    ensures r.Some? ==> h < r.value <= |t|
  {
    if h < |t| && t[h] == '/' then
      var u := SegmentEnd(t, h + 1);
      if u > h + 1 && HasAt(t, u, "/status/") && u + 8 < |t| && IsDigit(t[u + 8])
      then Some(SpaceFrom(t, u + 9))
      else None
    else None
  }

  /**
   * `findall` from position `i`: the leftmost match, then the search goes
   * on after it. `t` is `s` lower-cased; the links are cut from `s`.
   */
  function FindAll(s: string, t: string, i: nat): (r: seq<string>)
    requires |t| == |s| && i <= |s|
    // matches do not overlap, and none is empty
    ensures |r| <= |s| - i
    ensures forall k :: 0 <= k < |r| ==> r[k] != []
    decreases |s| - i
  {
    if i == |s| then []
    else match MatchEnd(t, i)
      case Some(e) => [s[i..e]] + FindAll(s, t, e)
      case None => FindAll(s, t, i + 1)
  }

  /** The links that do not already mention fixupx.com, in order. */
  function Unfixed(links: seq<string>): (r: seq<string>)
    ensures forall l :: l in r <==> l in links && !Contains(Lower(l), "fixupx.com")
  {
    if links == [] then []
    else if Contains(Lower(links[0]), "fixupx.com") then Unfixed(links[1..])
    else [links[0]] + Unfixed(links[1..])
  }

  /** `_extract_post_links`: the post links of a message that are not fixupx.com links already. */
  function Extract(content: string): (r: seq<string>)
    ensures forall l :: l in r ==> !Contains(Lower(l), "fixupx.com")
  {
    Unfixed(FindAll(content, Lower(content), 0))
  }

  /** The literals of the pattern hold no whitespace. */
  lemma LiteralsNoSpace()
    ensures NoSpace("https://") && NoSpace("http://") && NoSpace("www.")
    ensures NoSpace("x.com") && NoSpace("twitter.com")
  {
  }

  /** Nor does the marker in front of the post id. */
  lemma StatusNoSpace()
    ensures NoSpace("/status/")
  {
  }

  /** Joining two strings without whitespace gives one without whitespace. */
  lemma NoSpaceAppend(a: string, b: string)
    requires NoSpace(a) && NoSpace(b)
    ensures NoSpace(a + b)
  {
    assert forall j :: 0 <= j < |a + b| ==> (a + b)[j] == if j < |a| then a[j] else b[j - |a|];
  }

  /** No whitespace in `t` from `a` up to `b`. */
  predicate NoSpaceIn(t: string, a: nat, b: nat)
  {
    a <= b <= |t| && forall j :: a <= j < b ==> !IsSpace(t[j])
  }

  /** Two adjacent stretches without whitespace make one. */
  lemma NoSpaceJoin(t: string, a: nat, b: nat, c: nat)
    requires NoSpaceIn(t, a, b) && NoSpaceIn(t, b, c)
    ensures NoSpaceIn(t, a, c)
  {
  }

  /** A literal without whitespace matched at `k` puts no whitespace there. */
  lemma HasAtNoSpace(t: string, k: nat, lit: string)
    requires HasAt(t, k, lit) && NoSpace(lit)
    ensures NoSpaceIn(t, k, k + |lit|)
  {
    forall j | k <= j < k + |lit| ensures !IsSpace(t[j]) {
      assert t[j] == t[k..k + |lit|][j - k];
    }
  }

  /** The scheme and host hold no whitespace. */
  lemma HostEndNoSpace(t: string, i: nat)
    requires HostEnd(t, i).Some?
    ensures NoSpaceIn(t, i, HostEnd(t, i).value)
  {
    LiteralsNoSpace();
    var j := SchemeEnd(t, i).value;
    if HasAt(t, i, "https://") {
      HasAtNoSpace(t, i, "https://");
    } else {
      HasAtNoSpace(t, i, "http://");
    }
    var k := if HasAt(t, j, "www.") && HostAt(t, j + 4).Some? then j + 4 else j;
    if k == j + 4 {
      HasAtNoSpace(t, j, "www.");
      NoSpaceJoin(t, i, j, k);
    }
    if HasAt(t, k, "x.com") {
      HasAtNoSpace(t, k, "x.com");
    } else {
      HasAtNoSpace(t, k, "twitter.com");
    }
    NoSpaceJoin(t, i, k, HostEnd(t, i).value);
  }

  /** A post link holds no whitespace. */
  lemma MatchNoSpace(t: string, i: nat)
    requires MatchEnd(t, i).Some?
    ensures NoSpaceIn(t, i, MatchEnd(t, i).value)
  {
    var h := HostEnd(t, i).value;
    HostEndNoSpace(t, i);
    PathNoSpace(t, h);
    NoSpaceJoin(t, i, h, MatchEnd(t, i).value);
  }

  /** The path of a post link holds no whitespace. */
  lemma PathNoSpace(t: string, h: nat)
    requires PathEnd(t, h).Some?
    ensures NoSpaceIn(t, h, PathEnd(t, h).value)
  {
    var u := SegmentEnd(t, h + 1);
    var e := SpaceFrom(t, u + 9);
    assert PathEnd(t, h) == Some(e) && t[h] == '/' && IsDigit(t[u + 8]);
    assert NoSpaceIn(t, h, u);
    StatusNoSpace();
    HasAtNoSpace(t, u, "/status/");
    NoSpaceJoin(t, h, u, u + 8);
    assert NoSpaceIn(t, u + 8, e);
    NoSpaceJoin(t, h, u + 8, e);
  }

  /** A literal matched inside a slice is matched at the shifted position of the whole string. */
  lemma HasAtSlice(t: string, i: nat, e: nat, k: nat, lit: string)
    requires i <= e <= |t|
    ensures HasAt(t[i..e], k, lit) <==> i + k + |lit| <= e && HasAt(t, i + k, lit)
  {
    if i + k + |lit| <= e {
      var a, b := t[i..e][k..k + |lit|], t[i + k..i + k + |lit|];
      assert forall j :: 0 <= j < |a| ==> a[j] == b[j];
      assert a == b;
    }
  }

  /** Cutting the string after the host does not change where the host ends. */
  lemma HostAtSlice(t: string, i: nat, e: nat, j: nat)
    requires i <= e <= |t|
    requires HostAt(t, i + j).Some? ==> HostAt(t, i + j).value <= e
    ensures HostAt(t[i..e], j).Some? <==> HostAt(t, i + j).Some?
    ensures HostAt(t[i..e], j).Some? ==> HostAt(t[i..e], j).value == HostAt(t, i + j).value - i
  {
    HasAtSlice(t, i, e, j, "x.com");
    HasAtSlice(t, i, e, j, "twitter.com");
  }

  /** Cutting the string after the host does not change where the host ends. */
  lemma HostEndSlice(t: string, i: nat, e: nat)
    requires HostEnd(t, i).Some? && HostEnd(t, i).value <= e <= |t|
    ensures HostEnd(t[i..e], 0) == Some(HostEnd(t, i).value - i)
  {
    var j := SchemeEnd(t, i).value;
    HasAtSlice(t, i, e, 0, "https://");
    HasAtSlice(t, i, e, 0, "http://");
    assert SchemeEnd(t[i..e], 0) == Some(j - i);
    HasAtSlice(t, i, e, j - i, "www.");
    if HasAt(t, j, "www.") && HostAt(t, j + 4).Some? {
      HostAtSlice(t, i, e, j - i + 4);
    } else {
      HostAtSlice(t, i, e, j - i);
      if HasAt(t, j, "www.") {
        HostAtSlice(t, i, e, j - i + 4);
      }
    }
  }

  /** Lower-casing commutes with slicing. */
  lemma LowerSlice(s: string, i: nat, e: nat)
    requires i <= e <= |s|
    ensures Lower(s[i..e]) == Lower(s)[i..e]
  {
    var a, b := Lower(s[i..e]), Lower(s)[i..e];
    assert |a| == |b|;
    forall j | 0 <= j < |a| ensures a[j] == b[j] {
      assert a[j] == LowerChar(s[i..e][j]);
      assert s[i..e][j] == s[i + j];
      assert b[j] == LowerChar(s[i + j]);
    }
    assert a == b;
  }

  /** A character that lower-cases to a non-space is not a space. */
  lemma LowerNoSpace(s: string, i: nat, e: nat)
    requires NoSpaceIn(Lower(s), i, e)
    ensures NoSpace(s[i..e])
  {
    forall j | 0 <= j < e - i ensures !IsSpace(s[i..e][j]) {
      assert s[i..e][j] == s[i + j];
      assert Lower(s)[i + j] == LowerChar(s[i + j]);
    }
  }

  /** Every link found from `i` starts with a scheme and host and holds no whitespace. */
  lemma {:induction false} FoundShape(s: string, i: nat)
    requires i <= |s|
    ensures forall l :: l in FindAll(s, Lower(s), i) ==> HostEnd(Lower(l), 0).Some? && NoSpace(l)
    decreases |s| - i
  {
    var t := Lower(s);
    if i < |s| {
      match MatchEnd(t, i)
      case Some(e) =>
        FoundShape(s, e);
        MatchShape(s, i, e);
        FoundAt(s, i, e);
      case None =>
        FoundShape(s, i + 1);
        assert FindAll(s, t, i) == FindAll(s, t, i + 1);
    }
  }

  /** A link found at `i` goes in front of the links found after it. */
  lemma FoundAt(s: string, i: nat, e: nat)
    requires i < |s| && MatchEnd(Lower(s), i) == Some(e)
    ensures forall l :: l in FindAll(s, Lower(s), i) ==> l == s[i..e] || l in FindAll(s, Lower(s), e)
  {
    assert FindAll(s, Lower(s), i) == [s[i..e]] + FindAll(s, Lower(s), e);
  }

  /** One link found at `i` starts with a scheme and host and holds no whitespace. */
  lemma MatchShape(s: string, i: nat, e: nat)
    requires i < |s| && MatchEnd(Lower(s), i) == Some(e)
    ensures HostEnd(Lower(s[i..e]), 0).Some? && NoSpace(s[i..e])
  {
    var t := Lower(s);
    HostEndSlice(t, i, e);
    LowerSlice(s, i, e);
    MatchNoSpace(t, i);
    LowerNoSpace(s, i, e);
  }

  /** Where the scheme and X host at the start of `url` end, ignoring case. */
  function HostPrefix(url: string): (r: Option<nat>)
    ensures r.Some? ==> 0 < r.value <= |url|
  {
    HostEnd(Lower(url), 0)
  }

  /**
   * The conversion the nudge suggests: the scheme, optional `www.` and
   * host at the start of the link become `https://fixupx.com`, and the
   * path and query stay. The result never starts with an X host again.
   */
  function Convert(url: string): (r: string)
    ensures HostPrefix(r).None?
  {
    match HostPrefix(url)
    case Some(h) => FixupxNoHost(url[h..]); Fixupx + url[h..]
    case None => url
  }

  /** Neither `www.` nor an X host starts at a character other than `w`, `x` and `t`. */
  lemma NoHostAt(t: string, j: nat)
    requires j < |t| && t[j] != 'w' && t[j] != 'x' && t[j] != 't'
    ensures WwwHostAt(t, j).None?
  {
    if j + 4 <= |t| {
      assert t[j..j + 4][0] == t[j];
    }
    if j + 5 <= |t| {
      assert t[j..j + 5][0] == t[j];
    }
    if j + 11 <= |t| {
      assert t[j..j + 11][0] == t[j];
    }
  }

  /** With `/` at `k + 7` and `f` at `k + 8`, no X host follows a scheme at `k`. */
  lemma SlashFNoHost(t: string, k: nat)
    requires k + 9 <= |t| && t[k + 7] == '/' && t[k + 8] == 'f'
    ensures HostEnd(t, k).None?
  {
    if SchemeEnd(t, k).Some? {
      NoHostAt(t, SchemeEnd(t, k).value);
    }
  }

  /** Whatever follows it, `https://fixupx.com` does not start with an X host. */
  lemma FixupxNoHost(rest: string)
    ensures HostPrefix(Fixupx + rest).None?
  {
    var t := Lower(Fixupx + rest);
    assert t[7] == LowerChar((Fixupx + rest)[7]) == '/';
    assert t[8] == LowerChar((Fixupx + rest)[8]) == 'f';
    SlashFNoHost(t, 0);
  }

  /** No upper-case letters in `s`. */
  predicate NoUpper(s: string)
  {
    forall j :: 0 <= j < |s| ==> !('A' <= s[j] <= 'Z')
  }

  /** Lower-casing keeps an occurrence of a lower-case string. */
  lemma LowerKeepsOccurrence(s: string, d: string, i: nat)
    requires OccursAt(s, d, i) && NoUpper(d)
    ensures OccursAt(Lower(s), d, i)
  {
    forall j | 0 <= j < |d| ensures Lower(s)[i..i + |d|][j] == d[j] {
      assert s[i..i + |d|][j] == s[i + j];
    }
  }

  /** Whatever follows it, `https://fixupx.com` mentions fixupx.com in any case. */
  lemma FixupxMentioned(rest: string)
    ensures Contains(Lower(Fixupx + rest), Domain)
  {
    var s := Fixupx + rest;
    assert s == "https://" + (Domain + rest);
    assert s[8..] == Domain + rest;
    assert s[8..18] == Domain;
    assert NoUpper(Domain);
    LowerKeepsOccurrence(s, Domain, 8);
  }

  /** A converted link mentions fixupx.com, so it would never be nudged about itself. */
  lemma ConvertedIsUnfixed(url: string)
    requires HostPrefix(url).Some?
    ensures Contains(Lower(Convert(url)), Domain)
  {
    FixupxMentioned(url[HostPrefix(url).value..]);
  }

  /**
   * Every link the nudge suggests is `https://fixupx.com` followed by the
   * path and query of a post link found in the message, and holds no
   * whitespace.
   */
  lemma SuggestedLinks(content: string)
    ensures forall l :: l in Extract(content) ==>
      && HostPrefix(l).Some?
      && Convert(l) == Fixupx + l[HostPrefix(l).value..]
      && NoSpace(Convert(l))
  {
    FoundShape(content, 0);
    forall l | l in Extract(content)
      ensures NoSpace(Convert(l))
    {
      ConvertNoSpace(l);
    }
  }

  /** Converting a link without whitespace gives one without whitespace. */
  lemma ConvertNoSpace(l: string)
    requires HostPrefix(l).Some? && NoSpace(l)
    ensures NoSpace(Convert(l))
  {
    var h := HostPrefix(l).value;
    var rest := l[h..];
    assert NoSpace("https://" + Domain);
    assert NoSpace(rest) by {
      assert forall j :: 0 <= j < |rest| ==> rest[j] == l[h + j];
    }
    NoSpaceAppend(Fixupx, rest);
  }

  /** The bulleted lines of a nudge, one per link. */
  function Bullets(links: seq<string>): (r: seq<string>)
    ensures |r| == |links|
    ensures forall k :: 0 <= k < |r| ==> StartsWith(r[k], "- ") && r[k][2..] == links[k]
  {
    seq(|links|, k requires 0 <= k < |links| => "- " + links[k])
  }

  /** The reply: one link inline, several links as a bulleted list below the lead line. */
  function NudgeText(links: seq<string>): (r: string)
    requires links != []
    ensures |r| >= |Lead| + 2 && r[..|Lead| + 1] == Lead + ":"
    ensures |links| == 1 ==> r[|Lead| + 1..] == " " + links[0]
    ensures |links| > 1 ==> r[|Lead| + 1] == '\n'
  {
    if |links| == 1 then Lead + ": " + links[0]
    else Lead + ":\n" + Join(Bullets(links), "\n")
  }

  /**
   * The lines of a reply: a single link shares the lead line; several
   * links give the lead line and then one `- ` line per link, in order.
   */
  lemma NudgeLines(links: seq<string>)
    requires links != []
    requires forall k :: 0 <= k < |links| ==> Avoids(links[k], {'\n'})
    ensures |links| == 1 ==> SplitAny(NudgeText(links), {'\n'}) == [Lead + ": " + links[0]]
    ensures |links| > 1 ==> SplitAny(NudgeText(links), {'\n'}) == [Lead + ":"] + Bullets(links)
  {
    assert Avoids(Lead + ":", {'\n'});
    if |links| == 1 {
      SplitAnyAvoids(Lead + ": " + links[0], '\n');
    } else {
      var b := Bullets(links);
      forall k | 0 <= k < |b| ensures Avoids(b[k], {'\n'}) {
        assert b[k] == "- " + links[k];
      }
      JoinSplitAny(b, '\n');
      SplitAnyAfter(Lead + ":", '\n', Join(b, "\n"));
      assert Lead + ":\n" + Join(b, "\n") == (Lead + ":") + ['\n'] + Join(b, "\n");
    }
  }

  /** The links of a reply, converted one by one. */
  function ConvertAll(links: seq<string>): (r: seq<string>)
    ensures |r| == |links|
  {
    seq(|links|, k requires 0 <= k < |links| => Convert(links[k]))
  }

  /** The reply to a message with post links: one line per suggested link when there are several. */
  lemma NudgeShape(content: string)
    requires Extract(content) != []
    ensures var links := Extract(content);
      var lines := SplitAny(NudgeText(ConvertAll(links)), {'\n'});
      && (|links| == 1 ==> lines == [Lead + ": " + Convert(links[0])])
      && (|links| > 1 ==> lines == [Lead + ":"] + Bullets(ConvertAll(links)))
  {
    SuggestionsSingleLine(content);
    NudgeLines(ConvertAll(Extract(content)));
  }

  /** No suggested link holds a line break. */
  lemma SuggestionsSingleLine(content: string)
    ensures var c := ConvertAll(Extract(content));
      forall k :: 0 <= k < |c| ==> Avoids(c[k], {'\n'})
  {
    var links := Extract(content);
    var c := ConvertAll(links);
    SuggestedLinks(content);
    forall k | 0 <= k < |c| ensures Avoids(c[k], {'\n'}) {
      assert links[k] in links;
    }
  }

  /**
   * `re.sub` without a count: every scheme and X host found anywhere in
   * `s` (matched in its lower-cased copy `t`) becomes `https://fixupx.com`.
   */
  function SubHosts(s: string, t: string, i: nat): (r: string)
    requires |t| == |s| && i <= |s|
    // with no scheme and X host to be found, the text is copied unchanged
    ensures NoHostFrom(t, i) ==> r == s[i..]
    decreases |s| - i
  {
    if i == |s| then ""
    else match HostEnd(t, i)
      case Some(h) => Fixupx + SubHosts(s, t, h)
      case None =>
        assert s[i..] == [s[i]] + s[i + 1..];
        [s[i]] + SubHosts(s, t, i + 1)
  }

  /** No scheme and X host starts at `i` or later. */
  predicate NoHostFrom(t: string, i: nat)
    decreases |t| - i
  {
    i >= |t| || (HostEnd(t, i).None? && NoHostFrom(t, i + 1))
  }

  /**
   * `_convert_to_fixupx` as written. A link with no `h` after its first
   * host converts as intended, and one with no `h` at all is kept.
   */
  function ConvertAsWritten(url: string): (r: string)
    ensures HostPrefix(url).Some? && NoHIn(Lower(url), HostPrefix(url).value, |url|) ==> r == Convert(url)
    ensures NoHIn(Lower(url), 0, |url|) ==> r == url
  {
    SubHostsOnce(url, Lower(url));
    SubHostsNone(url, Lower(url));
    SubHosts(url, Lower(url), 0)
  }

  /** With no `h` after the first host, only that host is replaced. */
  lemma SubHostsOnce(s: string, t: string)
    requires |t| == |s|
    ensures HostEnd(t, 0).Some? && NoHIn(t, HostEnd(t, 0).value, |s|) ==>
      SubHosts(s, t, 0) == Fixupx + s[HostEnd(t, 0).value..]
  {
    if HostEnd(t, 0).Some? && NoHIn(t, HostEnd(t, 0).value, |s|) {
      SubHostsAtHost(s, t, 0);
      SubHostsCopies(s, t, HostEnd(t, 0).value, |s|);
    }
  }

  /** With no `h` at all, the text is kept. */
  lemma SubHostsNone(s: string, t: string)
    requires |t| == |s|
    ensures NoHIn(t, 0, |s|) ==> SubHosts(s, t, 0) == s
  {
    if NoHIn(t, 0, |s|) {
      SubHostsCopies(s, t, 0, |s|);
    }
  }

  /** At a scheme and host, the replacement goes in and the scan resumes after the host. */
  lemma SubHostsAtHost(s: string, t: string, i: nat)
    requires |t| == |s| && i < |s| && HostEnd(t, i).Some?
    ensures SubHosts(s, t, i) == Fixupx + SubHosts(s, t, HostEnd(t, i).value)
  {
  }

  /** No scheme starts at a character other than `h`. */
  lemma NoSchemeAt(t: string, i: nat)
    requires i < |t| && t[i] != 'h'
    ensures SchemeEnd(t, i).None?
  {
    if i + 7 <= |t| {
      assert t[i..i + 7][0] == t[i];
    }
    if i + 8 <= |t| {
      assert t[i..i + 8][0] == t[i];
    }
  }

  /** No `h` in `t[i..j]`. */
  predicate NoHIn(t: string, i: nat, j: nat)
  {
    i <= j <= |t| && forall k :: i <= k < j ==> t[k] != 'h'
  }

  /** A stretch without `h` is copied as it is: no scheme starts there. */
  lemma {:induction false} SubHostsCopies(s: string, t: string, i: nat, j: nat)
    requires |t| == |s| && NoHIn(t, i, j)
    ensures SubHosts(s, t, i) == s[i..j] + SubHosts(s, t, j)
    decreases j - i
  {
    if i < j {
      assert t[i] != 'h';
      NoSchemeAt(t, i);
      SubHostsStep(s, t, i);
      assert NoHIn(t, i + 1, j);
      SubHostsCopies(s, t, i + 1, j);
      Seqs.SliceCons(s, i, j);
      Seqs.AppendAssoc([s[i]], s[i + 1..j], SubHosts(s, t, j));
    }
  }


  /** Where no scheme starts, the character is kept and the scan moves on by one. */
  lemma SubHostsStep(s: string, t: string, i: nat)
    requires |t| == |s| && i < |s| && SchemeEnd(t, i).None?
    ensures SubHosts(s, t, i) == [s[i]] + SubHosts(s, t, i + 1)
  {
  }

  /** As written, a second X link that ends the query is rewritten as well. */
  lemma RewrittenTwice(url: string, k: nat)
    requires SecondHostEnds(url, Lower(url), k)
    ensures ConvertAsWritten(url) == Fixupx + url[HostPrefix(url).value..k] + Fixupx
  {
    SubHostsTwice(url, Lower(url), k);
  }

  /**
   * In the lowered text `t` of `s`, a host is matched at the start, a second
   * one at `k` runs to the end, and no `h` lies between the first host and `k`.
   */
  predicate SecondHostEnds(s: string, t: string, k: nat)
  {
    |t| == |s| && k < |s| && HostEnd(t, 0).Some? && HostEnd(t, 0).value <= k
    && HostEnd(t, k) == Some(|s|)
    && NoHIn(t, HostEnd(t, 0).value, k)
  }

  /** Two hosts, the second ending the text, with no `h` between them. */
  lemma SubHostsTwice(s: string, t: string, k: nat)
    requires SecondHostEnds(s, t, k)
    ensures SubHosts(s, t, 0) == Fixupx + s[HostEnd(t, 0).value..k] + Fixupx
  {
    var h := HostEnd(t, 0).value;
    SubHostsAtHost(s, t, 0);
    SubHostsCopies(s, t, h, k);
    SubHostsAtHost(s, t, k);
    assert SubHosts(s, t, |s|) == [];
  }

  /** Where a host is matched, `/` and then `f` do not follow the first seven characters. */
  lemma HostNotSlashF(t: string, k: nat)
    requires HostEnd(t, k).Some? && k + 9 <= |t|
    ensures t[k + 7] != '/' || t[k + 8] != 'f'
  {
    if t[k + 7] == '/' && t[k + 8] == 'f' {
      SlashFNoHost(t, k);
    }
  }

  /**
   * As written, a second X link that ends the query (at `k`, with no `h`
   * between the first host and it) is rewritten as well, so the converted
   * link does not keep its query; the intended conversion keeps it.
   */
  lemma QueryRewritten(url: string, k: nat)
    requires SecondHostEnds(url, Lower(url), k)
    ensures Convert(url) == Fixupx + url[HostPrefix(url).value..]
    ensures ConvertAsWritten(url) != Convert(url)
  {
    var h, t := HostPrefix(url).value, Lower(url);
    RewrittenTwice(url, k);
    var a, b := Fixupx + url[h..k] + Fixupx, Fixupx + url[h..];
    if |a| == |b| {
      var n := |Fixupx| + (k - h);
      HostNotSlashF(t, k);
      assert t[k + 7] == LowerChar(url[k + 7]) && t[k + 8] == LowerChar(url[k + 8]);
      assert a[n + 7] == '/' && a[n + 8] == 'f';
      assert b[n + 7] == url[k + 7] && b[n + 8] == url[k + 8];
    }
  }

  /** `channels.get(str(id), {}).get("enabled", True)`: a channel is on unless switched off. */
  predicate ChannelEnabled(channels: map<int, bool>, channel: int)
  {
    channel !in channels || channels[channel]
  }

  class FixupxNudge {
    var enabled: bool
    /** The cooldown between nudges in a channel, in seconds. */
    var cooldownSeconds: int
    /** `channels`: channel id to whether nudges are on there. */
    var channels: map<int, bool>
    /** `last_nudge` for this guild: channel id to the time of its last nudge. */
    var lastNudge: map<int, int>

    /** The cooldown is never negative. */
    ghost predicate Valid()
      reads this
    {
      cooldownSeconds >= 0
    }

    constructor()
      ensures Valid()
      ensures enabled && cooldownSeconds == DefaultCooldownSeconds
      ensures channels == map[] && lastNudge == map[]
    {
      enabled := true;
      cooldownSeconds := DefaultCooldownSeconds;
      channels := map[];
      lastNudge := map[];
    }

    /** `_toggle`: flips the guild switch, or sets it; reports the new state. */
    method Toggle(onOff: Option<bool>) returns (state: bool)
      modifies this`enabled
      ensures enabled == (if onOff.None? then !old(enabled) else onOff.value)
      ensures state == enabled
    {
      if onOff.None? {
        enabled := !enabled;
      } else {
        enabled := onOff.value;
      }
      state := enabled;
    }

    /** `_set_cooldown`: any number of seconds that is not negative. */
    method SetCooldown(seconds: int) returns (ok: bool)
      requires Valid()
      modifies this`cooldownSeconds
      ensures Valid()
      ensures ok <==> seconds >= 0
      ensures cooldownSeconds == if ok then seconds else old(cooldownSeconds)
    {
      if seconds < 0 {
        return false;
      }
      cooldownSeconds := seconds;
      ok := true;
    }

    /** `_channel_setting`: shows the channel's setting, or sets it and shows the new one. */
    method ChannelSetting(channel: int, enable: Option<bool>) returns (shown: bool)
      modifies this`channels
      ensures enable.None? ==> channels == old(channels)
      ensures enable.Some? ==> channels == old(channels)[channel := enable.value]
      ensures shown == ChannelEnabled(channels, channel)
    {
      if enable.Some? {
        channels := channels[channel := enable.value];
        shown := enable.value;
      } else {
        shown := ChannelEnabled(channels, channel);
      }
    }

    /**
     * A message: in an enabled guild and channel, a message with post
     * links gets the converted links once the channel's cooldown has
     * passed, and the time of the nudge is recorded before it is sent.
     */
    method OnMessage(channel: int, fromBot: bool, inGuild: bool, content: string, now: int)
      returns (nudge: Option<string>)
      requires Valid()
      modifies this`lastNudge
      ensures Valid()
      ensures var links := Extract(content);
        var eligible := !fromBot && inGuild && enabled && ChannelEnabled(channels, channel) && links != [];
        && (nudge.Some? <==> eligible && ChannelNotify.Due(ChannelNotify.Lookup(old(lastNudge), channel), now, cooldownSeconds))
        && (nudge.Some? ==> links != [] && nudge.value == NudgeText(ConvertAll(links)))
        && (nudge.Some? ==> lastNudge == old(lastNudge)[channel := now])
        && (nudge.None? ==> lastNudge == old(lastNudge))
    {
      nudge := None;
      if fromBot || !inGuild || !enabled || !ChannelEnabled(channels, channel) {
        return;
      }
      var links := Extract(content);
      if links == [] {
        return;
      }
      var last := ChannelNotify.Lookup(lastNudge, channel);
      if channel in lastNudge && now - lastNudge[channel] < cooldownSeconds * ChannelNotify.Second {
        assert !ChannelNotify.Due(last, now, cooldownSeconds);
        return;
      }
      assert ChannelNotify.Due(last, now, cooldownSeconds);
      lastNudge := lastNudge[channel := now];
      nudge := Some(NudgeText(ConvertAll(links)));
    }
  }
}
