/**
 * The link replacer plugin: per-guild rules from a source URL with `*`
 * wildcards to a target template, a cache of those rules, and the
 * rewrite of a message's whitespace-separated words.
 *
 * `_url_to_pattern` escapes every character of the source except `*`,
 * which becomes a greedy `(.*)`, anchors both ends and matches without
 * regard to case. That regex is modelled directly as a glob matcher
 * (`Captures`) that backtracks the way Python's engine does. Case is
 * folded on ASCII letters only.
 */
module LinkReplacer {
  import opened Wrappers
  import opened Text
  import Seqs

  // ---------------------------------------------------------------------
  // Glob matching

  /** `_url_to_pattern`: no pattern for an empty URL; otherwise the URL itself is the glob. */
  function UrlToPattern(url: string): (r: Option<string>)
    ensures r.None? <==> url == []
    ensures r.Some? ==> r.value == url
  {
    if url == [] then None else Some(url)
  }

  /** The number of wildcards, which is the number of capture groups. */
  function Stars(g: string): nat
  {
    if g == [] then 0 else (if g[0] == '*' then 1 else 0) + Stars(g[1..])
  }

  /**
   * The capture groups of the anchored, case-insensitive match of glob
   * `g` against word `w`, or `None` when it does not match. A literal
   * character must equal the next character up to case; a `*` first
   * takes as much as it can and gives back one character at a time.
   */
  function Captures(g: string, w: string): (r: Option<seq<string>>)
    ensures r.Some? ==> |r.value| == Stars(g)
    decreases |g|, 1, 0
  {
    if g == [] then (if w == [] then Some([]) else None)
    else if g[0] == '*' then StarFrom(g[1..], w, |w|)
    else if w != [] && LowerChar(g[0]) == LowerChar(w[0]) then Captures(g[1..], w[1..])
    else None
  }

  /** A `*` followed by `rest` tries the captures `w[..k]`, `w[..k-1]`, ..., `w[..0]` in turn. */
  function StarFrom(rest: string, w: string, k: nat): (r: Option<seq<string>>)
    requires k <= |w|
    ensures r.Some? ==> |r.value| == Stars(rest) + 1
    decreases |rest| + 1, 0, k
  {
    match Captures(rest, w[k..])
    case Some(c) => Some([w[..k]] + c)
    case None => if k == 0 then None else StarFrom(rest, w, k - 1)
  }

  /**
   * The template with its `*`s filled left to right by the parts, one
   * part per `*`; `*`s beyond the parts stay, parts beyond the `*`s are
   * dropped.
   */
  function FillStars(t: string, parts: seq<string>): (r: string)
    ensures parts == [] || Stars(t) == 0 ==> r == t
  {
    if t == [] then []
    else if t[0] == '*' && parts != [] then parts[0] + FillStars(t[1..], parts[1..])
    else [t[0]] + FillStars(t[1..], parts)
  }

  lemma LowerConcat(a: string, b: string)
    ensures Lower(a + b) == Lower(a) + Lower(b)
  {
    assert forall i :: 0 <= i < |a + b| ==> Lower(a + b)[i] == (Lower(a) + Lower(b))[i];
  }

  /** What a star tried: some split point `j` at which the rest matched. */
  lemma {:induction false} StarFromSplit(rest: string, w: string, k: nat)
    requires k <= |w|
    requires StarFrom(rest, w, k).Some?
    ensures exists j :: (0 <= j <= k && Captures(rest, w[j..]).Some? &&
                         StarFrom(rest, w, k).value == [w[..j]] + Captures(rest, w[j..]).value)
    decreases k
  {
    if Captures(rest, w[k..]).None? {
      StarFromSplit(rest, w, k - 1);
    }
  }

  /**
   * Soundness: the captures fill the glob's wildcards one each, and the
   * filled glob is the word up to case.
   */
  lemma {:induction false} CapturesSound(g: string, w: string)
    requires Captures(g, w).Some?
    ensures |Captures(g, w).value| == Stars(g)
    ensures Lower(FillStars(g, Captures(g, w).value)) == Lower(w)
    decreases |g|
  {
    var c := Captures(g, w).value;
    if g == [] {
    } else if g[0] == '*' {
      StarFromSplit(g[1..], w, |w|);
      var j :| 0 <= j <= |w| && Captures(g[1..], w[j..]).Some? &&
        c == [w[..j]] + Captures(g[1..], w[j..]).value;
      CapturesSound(g[1..], w[j..]);
      StarSound(g, w, j, c);
    } else {
      CapturesSound(g[1..], w[1..]);
      LowerConcat([g[0]], FillStars(g[1..], c));
      LowerConcat([w[0]], w[1..]);
      assert [w[0]] + w[1..] == w;
    }
  }

  /** The star case of soundness: the first capture spells the word's first `j` characters. */
  lemma StarSound(g: string, w: string, j: nat, c: seq<string>)
    requires g != [] && g[0] == '*' && j <= |w|
    requires Captures(g[1..], w[j..]).Some? && c == [w[..j]] + Captures(g[1..], w[j..]).value
    requires |Captures(g[1..], w[j..]).value| == Stars(g[1..])
    requires Lower(FillStars(g[1..], Captures(g[1..], w[j..]).value)) == Lower(w[j..])
    ensures |c| == Stars(g)
    ensures Lower(FillStars(g, c)) == Lower(w)
  {
    var head, tail := w[..j], w[j..];
    var f := FillStars(g[1..], c[1..]);
    assert c[1..] == Captures(g[1..], tail).value;
    assert FillStars(g, c) == head + f;
    LowerConcat(head, f);
    LowerConcat(head, tail);
    calc {
      Lower(FillStars(g, c));
      Lower(head) + Lower(f);
      Lower(head) + Lower(tail);
      Lower(head + tail);
      { Seqs.SplitJoin(w, j); }
      Lower(w);
    }
  }

  /** A star finds a split point whenever one at or below `k` works. */
  lemma {:induction false} StarFromFinds(rest: string, w: string, k: nat, j: nat)
    requires j <= k <= |w|
    requires Captures(rest, w[j..]).Some?
    ensures StarFrom(rest, w, k).Some?
    decreases k
  {
    if k > j && Captures(rest, w[k..]).None? {
      StarFromFinds(rest, w, k - 1, j);
    }
  }

  /**
   * Completeness: whenever filling the glob's wildcards with some parts
   * gives the word up to case, the glob matches.
   */
  lemma {:induction false} CapturesComplete(g: string, w: string, c: seq<string>)
    requires |c| == Stars(g)
    requires Lower(FillStars(g, c)) == Lower(w)
    ensures Captures(g, w).Some?
    decreases |g|
  {
    if g == [] {
    } else if g[0] == '*' {
      var j := |c[0]|;
      LowerConcat(c[0], FillStars(g[1..], c[1..]));
      assert Lower(w)[j..] == Lower(w[j..]);
      CapturesComplete(g[1..], w[j..], c[1..]);
      StarFromFinds(g[1..], w, |w|, j);
    } else {
      LowerConcat([g[0]], FillStars(g[1..], c));
      assert Lower(w)[1..] == Lower(w[1..]);
      CapturesComplete(g[1..], w[1..], c);
    }
  }

  /** A word matches a glob exactly when some filling of the wildcards spells it, up to case. */
  ghost predicate Spells(g: string, w: string)
  {
    exists c :: |c| == Stars(g) && Lower(FillStars(g, c)) == Lower(w)
  }

  lemma MatchesIffSpells(g: string, w: string)
    ensures Captures(g, w).Some? <==> Spells(g, w)
  {
    if Captures(g, w).Some? {
      CapturesSound(g, w);
    }
    if Spells(g, w) {
      var c :| |c| == Stars(g) && Lower(FillStars(g, c)) == Lower(w);
      CapturesComplete(g, w, c);
    }
  }

  /** A glob without wildcards matches exactly the words equal to it up to case. */
  lemma {:induction false} LiteralGlob(g: string, w: string)
    requires Stars(g) == 0
    ensures Captures(g, w) == (if Lower(g) == Lower(w) then Some([]) else None)
    decreases |g|
  {
    if g != [] {
      assert g[0] != '*';
      if w != [] {
        LiteralGlob(g[1..], w[1..]);
        assert Lower(g) == [LowerChar(g[0])] + Lower(g[1..]);
        assert Lower(w) == [LowerChar(w[0])] + Lower(w[1..]);
      }
    }
  }

  // ---------------------------------------------------------------------
  // Template substitution

  /** `s.replace("*", part, 1)`: the first `*` becomes `part`. */
  function ReplaceFirstStar(s: string, part: string): (r: string)
    ensures '*' !in s ==> r == s
  {
    if s == [] then []
    else if s[0] == '*' then part + s[1..]
    else [s[0]] + ReplaceFirstStar(s[1..], part)
  }

  /** The template loop as written: each part replaces the first `*` of the text so far. */
  function FillAsWritten(t: string, parts: seq<string>): (r: string)
    ensures '*' !in t ==> r == t
    decreases |parts|
  {
    if parts == [] then t else FillAsWritten(ReplaceFirstStar(t, parts[0]), parts[1..])
  }

  /** The replacement for a matched word, as written: the guard, then the sequential fill. */
  function TemplateAsWritten(template: string, captured: seq<string>): (r: string)
    ensures (forall k :: 0 <= k < |captured| ==> '*' !in captured[k]) ==> r == FillStars(template, captured)
  {
    if '*' in template && captured != [] then
      if forall k :: 0 <= k < |captured| ==> '*' !in captured[k] then
        FillAgrees(template, captured);
        FillAsWritten(template, captured)
      else
        FillAsWritten(template, captured)
    else
      FillVerbatim(template, captured);
      template
  }

  /**
   * A template with no `*`, or no captures to fill it with, is used
   * verbatim, as the guard of the loop as written does.
   */
  lemma {:induction false} FillVerbatim(t: string, parts: seq<string>)
    requires '*' !in t || parts == []
    ensures FillStars(t, parts) == t
    decreases |t|
  {
    if t != [] {
      assert t == [t[0]] + t[1..];
      FillVerbatim(t[1..], parts);
    }
  }

  lemma {:induction false} ReplaceAfterPrefix(p: string, t: string, part: string)
    requires '*' !in p
    ensures ReplaceFirstStar(p + t, part) == p + ReplaceFirstStar(t, part)
    decreases |p|
  {
    if p != [] {
      var rest := p[1..];
      NoStarTail(p);
      ReplaceAfterPrefix(rest, t, part);
      HeadAppend(p, t);
      ReplaceFirstStarCons(p[0], rest + t, part);
      HeadAppend(p, ReplaceFirstStar(t, part));
    } else {
      assert p + t == t;
    }
  }

  /** A leading character other than `*` is kept in front of the fill. */
  lemma ReplaceFirstStarCons(c: char, s: string, part: string)
    requires c != '*'
    ensures ReplaceFirstStar([c] + s, part) == [c] + ReplaceFirstStar(s, part)
  {
    assert ([c] + s)[1..] == s;
  }

  /** A star-free text has a star-free head and tail. */
  lemma NoStarTail(p: string)
    requires p != [] && '*' !in p
    ensures p[0] != '*' && '*' !in p[1..]
  {
    assert p[0] in p;
  }

  /** Appending to a non-empty text keeps its head in front. */
  lemma HeadAppend(p: string, t: string)
    requires p != []
    ensures p + t == [p[0]] + (p[1..] + t)
  {
    assert p == [p[0]] + p[1..];
  }

  /** A star-free prefix is never touched by the fill. */
  lemma {:induction false} PrefixWithoutStar(p: string, t: string, parts: seq<string>)
    requires '*' !in p
    ensures FillAsWritten(p + t, parts) == p + FillAsWritten(t, parts)
    decreases |parts|
  {
    if parts != [] {
      ReplaceAfterPrefix(p, t, parts[0]);
      PrefixWithoutStar(p, ReplaceFirstStar(t, parts[0]), parts[1..]);
    }
  }

  /** Filling nothing leaves no text behind. */
  lemma {:induction false} FillEmpty(parts: seq<string>)
    ensures FillAsWritten([], parts) == []
    decreases |parts|
  {
    if parts != [] {
      FillEmpty(parts[1..]);
    }
  }

  /**
   * When no captured part holds a `*`, the sequential fill agrees with
   * the positional one: each replacement lands on the next wildcard of
   * the template.
   */
  lemma {:induction false} FillAgrees(t: string, parts: seq<string>)
    requires forall k :: 0 <= k < |parts| ==> '*' !in parts[k]
    ensures FillAsWritten(t, parts) == FillStars(t, parts)
    decreases |parts|, |t|
  {
    if parts == [] {
      FillVerbatim(t, parts);
    } else if t == [] {
      FillEmpty(parts);
    } else if t[0] == '*' {
      PrefixWithoutStar(parts[0], t[1..], parts[1..]);
      FillAgrees(t[1..], parts[1..]);
    } else {
      PrefixWithoutStar([t[0]], ReplaceFirstStar(t[1..], parts[0]), parts[1..]);
      FillAgrees(t[1..], parts);
    }
  }

  // As written, a captured part that holds a `*` is itself filled by the
  // next part. With the source glob "*/*" and the target "*/*", the word
  // "a*/b" captures "a*" and "b" and becomes "ab/*" instead of "a*/b".

  lemma RefillCaptures()
    ensures Captures("*/*", "a*/b") == Some(["a*", "b"])
  {
    var w := "a*/b";
    var b := "b";
    assert "*"[1..] == [] && "/*"[1..] == "*" && "*/*"[1..] == "/*";
    assert b[1..] == [] && b[..1] == b;
    assert StarFrom([], b, 1) == Some([b]) by {
      var none: seq<string> := [];
      assert Captures([], b[1..]) == Some(none);
      assert StarFrom([], b, 1) == Some([b[..1]] + none);
      assert [b[..1]] + none == [b];
    }
    assert Captures("*", b) == Some([b]);
    assert w[4..] == [] && w[3..] == b && w[2..] == "/b" && w[..2] == "a*";
    assert "/b"[1..] == b;
    assert Captures("/*", "/b") == Some([b]);
    assert Captures("/*", []) == None;
    assert Captures("/*", b) == None;
    assert StarFrom("/*", w, 2) == Some([w[..2]] + [b]);
    assert [w[..2]] + [b] == ["a*", b];
    assert StarFrom("/*", w, 3) == StarFrom("/*", w, 2);
    assert StarFrom("/*", w, 4) == StarFrom("/*", w, 3);
  }

  lemma RefillAsWritten()
    ensures TemplateAsWritten("*/*", ["a*", "b"]) == "ab/*"
  {
    assert "*/*"[1..] == "/*";
    assert ReplaceFirstStar("*/*", "a*") == "a*/*";
    assert "a*/*"[1..] == "*/*";
    assert ReplaceFirstStar("a*/*", "b") == "ab/*";
  }

  lemma RefillIntended()
    ensures FillStars("*/*", ["a*", "b"]) == "a*/b"
  {
    assert "*/*"[1..] == "/*" && "/*"[1..] == "*" && "*"[1..] == [];
  }

  // ---------------------------------------------------------------------
  // Rewriting a message

  /** One cached rule: the source glob and the target template. */
  datatype LinkRule = LinkRule(source: string, target: string)

  /** What one rule makes of a word: the filled template if the word matches the source. */
  function RuleTarget(word: string, rule: LinkRule): (r: Option<string>)
    ensures r.Some? <==> Captures(rule.source, word).Some?
  {
    match Captures(rule.source, word)
    case None => None
    case Some(c) => Some(FillStars(rule.target, c))
  }

  /**
   * The replacement for a word after the inner loop over the cache:
   * every matching rule overwrites the entry, so the last one wins.
   */
  function Target(word: string, rules: seq<LinkRule>): (r: Option<string>)
    ensures r.Some? ==> exists k :: 0 <= k < |rules| && RuleTarget(word, rules[k]) == r
    ensures r.None? ==> forall k :: 0 <= k < |rules| ==> RuleTarget(word, rules[k]).None?
    decreases |rules|
  {
    if rules == [] then None
    else
      var init := rules[..|rules| - 1];
      assert forall k :: 0 <= k < |init| ==> init[k] == rules[k];
      var last := RuleTarget(word, rules[|rules| - 1]);
      if last.Some? then last else Target(word, init)
  }

  /** Rule `i` matches the word and no later rule does. */
  predicate LastMatchAt(word: string, rules: seq<LinkRule>, i: int)
  {
    0 <= i < |rules| && Captures(rules[i].source, word).Some? &&
    forall j :: i < j < |rules| ==> Captures(rules[j].source, word).None?
  }

  /** The last match among all but the final rule stays the last match when the final rule does not match. */
  lemma LastMatchExtends(word: string, rules: seq<LinkRule>, i: int)
    requires rules != [] && LastMatchAt(word, rules[..|rules| - 1], i)
    requires Captures(rules[|rules| - 1].source, word).None?
    ensures LastMatchAt(word, rules, i)
  {
    var init := rules[..|rules| - 1];
    forall j | i < j < |rules|
      ensures Captures(rules[j].source, word).None?
    {
      if j < |init| {
        assert init[j] == rules[j];
      }
    }
    assert init[i] == rules[i];
  }

  /** A word gets a replacement exactly when some rule matches it, and it is the last such rule's. */
  lemma {:induction false} TargetIsLastMatch(word: string, rules: seq<LinkRule>)
    ensures Target(word, rules).Some? <==> exists i :: 0 <= i < |rules| && Captures(rules[i].source, word).Some?
    ensures Target(word, rules).Some? ==>
      exists i :: LastMatchAt(word, rules, i) && Target(word, rules) == RuleTarget(word, rules[i])
    decreases |rules|
  {
    if rules != [] {
      var n := |rules| - 1;
      var init := rules[..n];
      TargetIsLastMatch(word, init);
      assert forall i :: 0 <= i < n ==> init[i] == rules[i];
      if RuleTarget(word, rules[n]).Some? {
        assert LastMatchAt(word, rules, n);
      } else if Target(word, init).Some? {
        var i :| LastMatchAt(word, init, i) && Target(word, init) == RuleTarget(word, init[i]);
        LastMatchExtends(word, rules, i);
      } else {
        assert forall i :: 0 <= i < |rules| ==> Captures(rules[i].source, word).None?;
      }
    }
  }

  /** The entries of a dictionary in insertion order. */
  type Dict = seq<(string, string)>

  function Keys(d: Dict): (r: seq<string>)
    ensures |r| == |d| && forall i :: 0 <= i < |d| ==> r[i] == d[i].0
  {
    if d == [] then [] else [d[0].0] + Keys(d[1..])
  }

  /** `d.get(k)`: the value of the first entry with that key. */
  function Lookup(d: Dict, k: string): (r: Option<string>)
    ensures r.None? <==> k !in Keys(d)
  {
    if d == [] then None else if d[0].0 == k then Some(d[0].1) else Lookup(d[1..], k)
  }

  /** `d[k] = v`: a present key keeps its place and takes the value, a new key goes last. */
  function Put(d: Dict, k: string, v: string): (r: Dict)
    ensures Lookup(r, k) == Some(v)
    ensures forall x :: x != k ==> Lookup(r, x) == Lookup(d, x)
    ensures forall x :: x in Keys(r) <==> x in Keys(d) || x == k
  {
    if d == [] then [(k, v)]
    else if d[0].0 == k then [(k, v)] + d[1..]
    else [d[0]] + Put(d[1..], k, v)
  }

  /** A put key keeps its place, or goes last when it is new. */
  lemma {:induction false} PutKeys(d: Dict, k: string, v: string)
    ensures Keys(Put(d, k, v)) == if k in Keys(d) then Keys(d) else Keys(d) + [k]
  {
    if d != [] {
      assert Keys(d) == [d[0].0] + Keys(d[1..]);
      PutKeys(d[1..], k, v);
      if d[0].0 != k {
        assert Keys(Put(d, k, v)) == [d[0].0] + Keys(Put(d[1..], k, v));
        assert k in Keys(d) <==> k in Keys(d[1..]);
      }
    }
  }

  /** Putting a key keeps the keys free of duplicates. */
  lemma PutNoDup(d: Dict, k: string, v: string)
    requires Seqs.NoDup(Keys(d))
    ensures Seqs.NoDup(Keys(Put(d, k, v)))
  {
    PutKeys(d, k, v);
    if k !in Keys(d) {
      var r := Keys(d) + [k];
      forall i, j | 0 <= i < j < |r| ensures r[i] != r[j] {
        if j == |r| - 1 {
          assert r[i] == Keys(d)[i];
        }
      }
    }
  }

  /** Putting a key twice keeps the second value only. */
  lemma {:induction false} PutPut(d: Dict, k: string, v1: string, v2: string)
    ensures Put(Put(d, k, v1), k, v2) == Put(d, k, v2)
  {
    if d != [] && d[0].0 != k {
      PutPut(d[1..], k, v1, v2);
    }
  }

  function PutOpt(d: Dict, k: string, v: Option<string>): Dict
  {
    if v.Some? then Put(d, k, v.value) else d
  }

  /**
   * `urls_to_replace` after the outer loop over the words: each word with
   * a replacement, in the order of its first occurrence.
   */
  function Plan(words: seq<string>, rules: seq<LinkRule>): (r: Dict)
    ensures forall x :: x in Keys(r) ==> x in words
    decreases |words|
  {
    if words == [] then []
    else
      var w := words[|words| - 1];
      PutOpt(Plan(words[..|words| - 1], rules), w, Target(w, rules))
  }

  /**
   * The plan maps exactly the message's words that some rule matches,
   * each to its replacement, and lists each such word once.
   */
  lemma {:induction false} PlanMapsWords(words: seq<string>, rules: seq<LinkRule>)
    ensures forall x :: Lookup(Plan(words, rules), x) == if x in words then Target(x, rules) else None
    ensures Seqs.NoDup(Keys(Plan(words, rules)))
    decreases |words|
  {
    if words != [] {
      var init := words[..|words| - 1];
      var w := words[|words| - 1];
      PlanMapsWords(init, rules);
      assert words == init + [w];
      if Target(w, rules).Some? {
        PutNoDup(Plan(init, rules), w, Target(w, rules).value);
      }
    }
  }

  /** `new_content.replace(original, new)` for each planned word in turn. */
  function ApplyPlan(content: string, plan: Dict): (r: string)
    requires forall i :: 0 <= i < |plan| ==> plan[i].0 != []
    // words planned to be replaced by themselves leave the message as it is
    ensures (forall i :: 0 <= i < |plan| ==> plan[i].1 == plan[i].0) ==> r == content
    decreases |plan|
  {
    if plan == [] then content
    else
      var prev := ApplyPlan(content, plan[..|plan| - 1]);
      ReplaceSelf(prev, plan[|plan| - 1].0);
      ReplaceAll(prev, plan[|plan| - 1].0, plan[|plan| - 1].1)
  }

  /** The length of the run of non-space characters at the start of `s`. */
  function RunLength(s: string): (n: nat)
    ensures n <= |s|
    ensures forall i :: 0 <= i < n ==> !IsSpace(s[i])
    ensures n < |s| ==> IsSpace(s[n])
  {
    if s == [] || IsSpace(s[0]) then 0 else 1 + RunLength(s[1..])
  }

  /** `s.split()`: the maximal runs of non-space characters. */
  function Words(s: string): (r: seq<string>)
    ensures forall k :: 0 <= k < |r| ==> r[k] != [] && forall i :: 0 <= i < |r[k]| ==> !IsSpace(r[k][i])
    decreases |s|
  {
    if s == [] then []
    else if IsSpace(s[0]) then Words(s[1..])
    else
      var n := RunLength(s);
      [s[..n]] + Words(s[n..])
  }

  /** Every word occurs in the message, so its replacement acts on it. */
  lemma {:induction false} WordsOccur(s: string)
    ensures forall k :: 0 <= k < |Words(s)| ==> Contains(s, Words(s)[k])
    decreases |s|
  {
    if s != [] {
      if IsSpace(s[0]) {
        WordsOccur(s[1..]);
        forall k | 0 <= k < |Words(s)| ensures Contains(s, Words(s)[k]) {
          var i :| 0 <= i <= |s[1..]| && OccursAt(s[1..], Words(s)[k], i);
          assert s[1..][i..i + |Words(s)[k]|] == s[i + 1..i + 1 + |Words(s)[k]|];
          assert OccursAt(s, Words(s)[k], i + 1);
        }
      } else {
        var n := RunLength(s);
        WordsOccur(s[n..]);
        forall k | 0 <= k < |Words(s)| ensures Contains(s, Words(s)[k]) {
          if k == 0 {
            assert OccursAt(s, s[..n], 0);
          } else {
            var x := Words(s[n..])[k - 1];
            assert Words(s)[k] == x;
            var i :| 0 <= i <= |s[n..]| && OccursAt(s[n..], x, i);
            assert s[n..][i..i + |x|] == s[n + i..n + i + |x|];
            assert OccursAt(s, x, n + i);
          }
        }
      }
    }
  }

  /** The plan's keys are words of the message, so none is empty. */
  lemma PlanKeysNonEmpty(content: string, rules: seq<LinkRule>, plan: Dict)
    requires plan == Plan(Words(content), rules)
    ensures forall i :: 0 <= i < |plan| ==> plan[i].0 != [] && plan[i].0 in Words(content)
  {
    PlanMapsWords(Words(content), rules);
    forall i | 0 <= i < |plan| ensures plan[i].0 != [] && plan[i].0 in Words(content) {
      var k := plan[i].0;
      assert Keys(plan)[i] == k;
      assert Lookup(plan, k).Some?;
      var m :| 0 <= m < |Words(content)| && Words(content)[m] == k;
    }
  }

  /** What `on_message` posts for a message, once it reaches the cached rules. */
  function Repost(content: string, rules: seq<LinkRule>): (r: Option<string>)
    ensures r.Some? ==> r.value != content
  {
    var plan := Plan(Words(content), rules);
    PlanKeysNonEmpty(content, rules, plan);
    if plan == [] then None
    else
      var n := ApplyPlan(content, plan);
      if n != content then Some(n) else None
  }

  /** A message none of whose words any rule matches is left alone. */
  lemma NoMatchNoRepost(content: string, rules: seq<LinkRule>)
    requires forall w, i :: w in Words(content) && 0 <= i < |rules| ==> Captures(rules[i].source, w).None?
    ensures Repost(content, rules).None?
  {
    PlanMapsWords(Words(content), rules);
    var plan := Plan(Words(content), rules);
    if plan != [] {
      var k := plan[0].0;
      assert k in Keys(plan) by { assert Keys(plan)[0] == k; }
      TargetIsLastMatch(k, rules);
    }
  }

  // ---------------------------------------------------------------------
  // The guild's rules and cache

  /** A rule list read from a dictionary of source to target. */
  function AsRules(d: Dict): (r: seq<LinkRule>)
    ensures |r| == |d| && forall i :: 0 <= i < |d| ==> r[i] == LinkRule(d[i].0, d[i].1)
  {
    if d == [] then [] else [LinkRule(d[0].0, d[0].1)] + AsRules(d[1..])
  }

  /** The cache built from the stored rules: those whose source gives a pattern, in order. */
  function Build(d: Dict): (r: Dict)
    ensures |r| <= |d|
  {
    if d == [] then []
    else if UrlToPattern(d[0].0).Some? then [d[0]] + Build(d[1..])
    else Build(d[1..])
  }

  /** With no empty source stored, the cache holds every rule. */
  lemma {:induction false} BuildKeepsAll(d: Dict)
    requires forall i :: 0 <= i < |d| ==> d[i].0 != []
    ensures Build(d) == d
  {
    if d != [] {
      assert forall i :: 0 <= i < |d[1..]| ==> d[1..][i] == d[i + 1];
      BuildKeepsAll(d[1..]);
    }
  }

  /** `del d[k]`: every entry but the one with that key. */
  function Delete(d: Dict, k: string): (r: Dict)
    ensures Lookup(r, k).None?
    ensures forall x :: x != k ==> Lookup(r, x) == Lookup(d, x)
    ensures forall x :: x in Keys(r) ==> x in Keys(d)
  {
    if d == [] then []
    else if d[0].0 == k then Delete(d[1..], k)
    else [d[0]] + Delete(d[1..], k)
  }

  /** Deleting keeps the keys free of duplicates. */
  lemma {:induction false} DeleteNoDup(d: Dict, k: string)
    requires Seqs.NoDup(Keys(d))
    ensures Seqs.NoDup(Keys(Delete(d, k)))
  {
    if d != [] {
      assert Keys(d) == [d[0].0] + Keys(d[1..]);
      DeleteNoDup(d[1..], k);
      if d[0].0 != k {
        var r := Keys(Delete(d, k));
        assert r == [d[0].0] + Keys(Delete(d[1..], k));
        forall i, j | 0 <= i < j < |r| ensures r[i] != r[j] {
          if i == 0 {
            assert r[j] in Keys(Delete(d[1..], k));
          }
        }
      }
    }
  }

  datatype AddReply = MissingUrl | RuleAdded

  class LinkStore {
    /** `link_replacements`: source URL to target template, in insertion order. */
    var replacements: Dict
    var enabled: bool
    /** The guild's entry in the pattern cache, keyed by source. */
    var cache: Option<Dict>

    /** Sources are distinct and non-empty, in the store and in the cache. */
    ghost predicate Valid()
      reads this
    {
      && Seqs.NoDup(Keys(replacements))
      && (forall k :: k in Keys(replacements) ==> k != [])
      && (cache.Some? ==> Seqs.NoDup(Keys(cache.value)) && forall k :: k in Keys(cache.value) ==> k != [])
    }

    constructor()
      ensures Valid()
      ensures replacements == [] && enabled && cache.None?
    {
      replacements := [];
      enabled := true;
      cache := None;
    }

    /** `initialize` for this guild: the cache is rebuilt when enabled with rules. */
    method Initialize()
      requires Valid()
      modifies this`cache
      ensures Valid()
      ensures cache == if enabled && replacements != [] then Some(replacements) else old(cache)
    {
      if enabled && replacements != [] {
        assert forall i :: 0 <= i < |replacements| ==> replacements[i].0 in Keys(replacements) by {
          forall i | 0 <= i < |replacements| ensures replacements[i].0 in Keys(replacements) {
            assert Keys(replacements)[i] == replacements[i].0;
          }
        }
        BuildKeepsAll(replacements);
        cache := Some(Build(replacements));
      }
    }

    /**
     * `linkreplacer add`: both URLs must be non-empty; the rule is put in
     * the store and in the cache, which is created if missing.
     */
    method Add(source: string, target: string) returns (reply: AddReply)
      requires Valid()
      modifies this`replacements, this`cache
      ensures Valid()
      ensures reply == MissingUrl <==> source == [] || target == []
      ensures reply == MissingUrl ==> replacements == old(replacements) && cache == old(cache)
      ensures reply == RuleAdded ==>
        && replacements == Put(old(replacements), source, target)
        && cache == Some(Put(if old(cache).Some? then old(cache).value else [], source, target))
    {
      if source == [] || target == [] {
        return MissingUrl;
      }
      PutNoDup(replacements, source, target);
      replacements := Put(replacements, source, target);
      var current := if cache.Some? then cache.value else [];
      PutNoDup(current, source, target);
      cache := Some(Put(current, source, target));
      reply := RuleAdded;
    }

    /**
     * `linkreplacer remove`: only a stored source is removed, from the
     * store and from the cache when the cache has it.
     */
    method Remove(source: string) returns (found: bool)
      requires Valid()
      modifies this`replacements, this`cache
      ensures Valid()
      ensures found <==> source in Keys(old(replacements))
      ensures found ==> replacements == Delete(old(replacements), source)
      ensures found && old(cache).Some? ==> cache == Some(Delete(old(cache).value, source))
      ensures !found ==> replacements == old(replacements) && cache == old(cache)
      ensures found && old(cache).None? ==> cache.None?
    {
      found := source in Keys(replacements);
      if !found {
        return;
      }
      DeleteNoDup(replacements, source);
      replacements := Delete(replacements, source);
      if cache.Some? {
        var entries := cache.value;
        var i := 0;
        while i < |entries| && entries[i].0 != source
          invariant 0 <= i <= |entries|
          invariant forall j :: 0 <= j < i ==> entries[j].0 != source
        {
          i := i + 1;
        }
        DeleteNoDup(entries, source);
        if i < |entries| {
          cache := Some(Delete(entries, source));
        } else {
          DeleteAbsent(entries, source);
        }
      }
    }

    /**
     * `linkreplacer toggle`: no argument flips the flag; the cache is
     * dropped unless the argument says on, so a bare toggle drops it even
     * when it turns the plugin on.
     */
    method Toggle(onOff: Option<bool>)
      requires Valid()
      modifies this`enabled, this`cache
      ensures Valid()
      ensures enabled == if onOff.Some? then onOff.value else !old(enabled)
      ensures cache == if onOff == Some(true) then old(cache) else None
    {
      enabled := if onOff.Some? then onOff.value else !enabled;
      if onOff != Some(true) {
        cache := None;
      }
    }

    /**
     * A guild message: nothing for bots, outside guilds or when disabled;
     * a missing cache is built from the stored rules (nothing happens when
     * there are none); otherwise the message with every matched word
     * replaced, when that changes it.
     */
    method OnMessage(content: string, fromBot: bool, inGuild: bool) returns (repost: Option<string>)
      requires Valid()
      modifies this`cache
      ensures Valid()
      ensures cache == if !fromBot && inGuild && enabled && old(cache).None? && replacements != []
                       then Some(replacements) else old(cache)
      ensures repost == if fromBot || !inGuild || !enabled || cache.None? || cache.value == [] then None
                        else Repost(content, AsRules(cache.value))
    {
      if fromBot || !inGuild || !enabled {
        return None;
      }
      if cache.None? {
        if replacements == [] {
          return None;
        }
        Initialize();
      }
      if cache.value == [] {
        return None;
      }
      var rules := AsRules(cache.value);
      var urls := PlanWords(Words(content), rules);
      if urls == [] {
        return None;
      }
      PlanKeysNonEmpty(content, rules, urls);
      var text := ApplyAll(content, urls);
      repost := if text != content then Some(text) else None;
    }
  }

  /** The nested loops of `on_message` that build `urls_to_replace`. */
  method PlanWords(words: seq<string>, rules: seq<LinkRule>) returns (urls: Dict)
    ensures urls == Plan(words, rules)
  {
    urls := [];
    var i := 0;
    while i < |words|
      invariant 0 <= i <= |words|
      invariant urls == Plan(words[..i], rules)
    {
      assert words[..i + 1][..i] == words[..i];
      var word := words[i];
      var base := urls;
      var j := 0;
      while j < |rules|
        invariant 0 <= j <= |rules|
        invariant urls == PutOpt(base, word, Target(word, rules[..j]))
      {
        assert rules[..j + 1][..j] == rules[..j];
        var caps := Captures(rules[j].source, word);
        if caps.Some? {
          if Target(word, rules[..j]).Some? {
            PutPut(base, word, Target(word, rules[..j]).value, FillStars(rules[j].target, caps.value));
          }
          urls := Put(urls, word, FillStars(rules[j].target, caps.value));
        }
        j := j + 1;
      }
      assert rules[..j] == rules;
      i := i + 1;
    }
    assert words[..i] == words;
  }

  /** The loop of `on_message` that replaces every occurrence of each planned word in turn. */
  method ApplyAll(content: string, urls: Dict) returns (text: string)
    requires forall i :: 0 <= i < |urls| ==> urls[i].0 != []
    ensures text == ApplyPlan(content, urls)
  {
    text := content;
    var k := 0;
    while k < |urls|
      invariant 0 <= k <= |urls|
      invariant text == ApplyPlan(content, urls[..k])
    {
      assert urls[..k + 1][..k] == urls[..k];
      text := ReplaceAll(text, urls[k].0, urls[k].1);
      k := k + 1;
    }
    assert urls[..k] == urls;
  }

  /** Deleting a key that is not there changes nothing. */
  lemma {:induction false} DeleteAbsent(d: Dict, k: string)
    requires forall j :: 0 <= j < |d| ==> d[j].0 != k
    ensures Delete(d, k) == d
  {
    if d != [] {
      DeleteAbsent(d[1..], k);
    }
  }
}
