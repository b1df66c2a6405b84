/**
 * The regex text replacement plugin: numbered rules (pattern and
 * replacement) kept in insertion order, a per-guild cache of the rules
 * whose pattern compiles, and the rewrite of a message through every
 * cached rule in turn.
 *
 * Python's regex engine is a pair of parameters: `compiles` says whether
 * a pattern compiles, and `sub(pattern, replacement, text)` is
 * `re.compile(pattern, re.IGNORECASE).sub(replacement, text)`. JSON
 * decoding is the parameter `decode`.
 */
module TextReplace {
  import opened Wrappers
  import opened Text
  import Seqs

  // ---------------------------------------------------------------------
  // Code blocks

  /** `\w` on ASCII text. */
  predicate IsWordChar(c: char)
  {
    'a' <= c <= 'z' || 'A' <= c <= 'Z' || '0' <= c <= '9' || c == '_'
  }

  /** The length of the run of word characters starting at `i`. */
  function WordRun(t: string, i: nat): (n: nat)
    requires i <= |t|
    ensures i + n <= |t|
    ensures forall j :: i <= j < i + n ==> IsWordChar(t[j])
    ensures i + n < |t| ==> !IsWordChar(t[i + n])
    decreases |t| - i
  {
    if i < |t| && IsWordChar(t[i]) then 1 + WordRun(t, i + 1) else 0
  }

  /** The last position in `lo..p` where `needle` occurs. */
  function LastAt(t: string, needle: string, lo: nat, p: int): (r: Option<nat>)
    ensures r.Some? ==> lo <= r.value <= p && OccursAt(t, needle, r.value)
    ensures r.Some? ==> forall q :: r.value < q <= p ==> !OccursAt(t, needle, q)
    ensures r.None? ==> forall q :: lo <= q <= p ==> !OccursAt(t, needle, q)
    decreases p - lo + 1
  {
    if p < lo then None
    else if OccursAt(t, needle, p) then Some(p)
    else LastAt(t, needle, lo, p - 1)
  }

  /**
   * The group of `([\s\S]+)` followed by `close`, opened at `start`: the
   * greedy group runs up to the last `close` at least one character on.
   */
  function GroupUpTo(t: string, start: nat, close: string): (r: Option<string>)
    requires start <= |t|
    ensures r.Some? ==> |r.value| >= 1 && start + |r.value| + |close| <= |t|
    ensures r.Some? ==> r.value == t[start..start + |r.value|] && OccursAt(t, close, start + |r.value|)
  {
    var p := LastAt(t, close, start + 1, |t| - |close|);
    if p.Some? then Some(t[start..p.value]) else None
  }

  /** `re.match(r"```(?:\w+\n)?([\s\S]+)```", t)`: the group, trying the language line first. */
  function Fenced(t: string): (r: Option<string>)
    ensures r.Some? ==> StartsWith(t, "```") && |r.value| + 6 <= |t|
  {
    if !StartsWith(t, "```") then None
    else
      var k := WordRun(t, 3);
      var withLang := if k > 0 && 3 + k < |t| && t[3 + k] == '\n' then GroupUpTo(t, 4 + k, "```") else None;
      if withLang.Some? then withLang else GroupUpTo(t, 3, "```")
  }

  /** `re.match(r"`([\s\S]+)`", t)`. */
  function Inline(t: string): (r: Option<string>)
    ensures r.Some? ==> StartsWith(t, "`") && |r.value| + 2 <= |t|
  {
    if StartsWith(t, "`") then GroupUpTo(t, 1, "`") else None
  }

  /**
   * `_extract_from_codeblock`: the stripped content of a fenced block, or
   * else of inline code, in the stripped text; the text itself, unstripped,
   * when neither matches.
   */
  function ExtractFromCodeblock(text: string): (r: string)
    ensures Fenced(Strip(text)).None? && Inline(Strip(text)).None? ==> r == text
    ensures Fenced(Strip(text)).Some? || Inline(Strip(text)).Some? ==> |r| < |text|
  {
    var t := Strip(text);
    var fenced := Fenced(t);
    if fenced.Some? then Strip(fenced.value)
    else
      var inline := Inline(t);
      if inline.Some? then Strip(inline.value) else text
  }

  /** Red's `box(text, lang)`, the form the export command sends. */
  function Box(lang: string, body: string): string
  {
    "```" + lang + "\n" + body + "\n```"
  }

  /** A trailing whitespace character never survives a strip. */
  lemma {:induction false} StripSnocSpace(s: string, c: char)
    requires IsSpace(c)
    ensures Strip(s + [c]) == Strip(s)
  {
    TrimLeftSnoc(s, c);
    var l := TrimLeft(s);
    if l != [] {
      assert (l + [c])[..|l + [c]| - 1] == l;
    }
  }

  lemma {:induction false} TrimLeftSnoc(s: string, c: char)
    requires IsSpace(c)
    ensures TrimLeft(s + [c]) == if TrimLeft(s) == [] then [] else TrimLeft(s) + [c]
  {
    if s != [] {
      assert (s + [c])[1..] == s[1..] + [c];
      if IsSpace(s[0]) {
        TrimLeftSnoc(s[1..], c);
      }
    } else {
      assert [c][1..] == [];
    }
  }

  /** The word run after the fence of a boxed JSON export is `json`. */
  lemma BoxWordRun(t: string)
    requires |t| >= 8 && t[3..8] == "json\n"
    ensures WordRun(t, 3) == 4
  {
    var w := t[3..8];
    assert w[0] == t[3] && w[1] == t[4] && w[2] == t[5] && w[3] == t[6] && w[4] == t[7];
    assert t[3] == 'j' && t[4] == 's' && t[5] == 'o' && t[6] == 'n' && t[7] == '\n';
    assert WordRun(t, 7) == 0;
  }

  /** A boxed JSON export matches the fenced pattern with its language line, and the group is the body and its newline. */
  lemma BoxFenced(body: string)
    ensures Strip(Box("json", body)) == Box("json", body)
    ensures Fenced(Box("json", body)) == Some(body + "\n")
  {
    var t := Box("json", body);
    assert t == "```json\n" + (body + "\n```");
    StripTrimmed(t);
    assert t[..3] == "```";
    assert t[3..8] == "json\n";
    BoxWordRun(t);
    assert t[|t| - 3..] == "```";
    assert OccursAt(t, "```", |t| - 3);
    assert t[8..|t| - 3] == body + "\n";
  }

  /** What the export command sends is accepted as a code block, and yields the stripped body. */
  lemma ExportedBlockExtracts(body: string)
    ensures ExtractFromCodeblock(Box("json", body)) == Strip(body)
    ensures ExtractFromCodeblock(Box("json", body)) != Box("json", body)
  {
    BoxFenced(body);
    StripSnocSpace(body, '\n');
  }

  /** Inline code around text that does not start with a backtick yields the stripped text. */
  lemma InlineExtracts(body: string)
    requires body != [] && body[0] != '`'
    ensures ExtractFromCodeblock("`" + body + "`") == Strip(body)
  {
    var t := "`" + body + "`";
    StripTrimmed(t);
    assert t[1] == body[0];
    assert !StartsWith(t, "```");
    assert OccursAt(t, "`", |t| - 1);
    assert t[1..|t| - 1] == body;
  }

  // ---------------------------------------------------------------------
  // Rules

  datatype Rule = Rule(pattern: string, replacement: string)

  /** A stored rule; its id, as the commands show and accept it, is the decimal text of `num`. */
  datatype Entry = Entry(num: int, rule: Rule)

  /** A compiled rule in the guild's cache. */
  datatype CachedRule = CachedRule(pattern: string, replacement: string, num: int)

  function IdText(e: Entry): string
  {
    IntToString(e.num)
  }

  /** Distinct numbers have distinct id texts, so an id names at most one rule. */
  lemma IdTextInjective(a: int, b: int)
    ensures IntToString(a) == IntToString(b) ==> a == b
  {
    IntToStringRoundTrip(a);
    IntToStringRoundTrip(b);
  }

  /** No two rules share a pattern string. */
  predicate DistinctPatterns(rules: seq<Entry>)
  {
    forall i, j :: 0 <= i < j < |rules| ==> rules[i].rule.pattern != rules[j].rule.pattern
  }

  /** The index of the first rule with that pattern, or the length. */
  function PatternIndex(rules: seq<Entry>, pattern: string): (k: nat)
    ensures k <= |rules|
    ensures forall j :: 0 <= j < k ==> rules[j].rule.pattern != pattern
    ensures k < |rules| ==> rules[k].rule.pattern == pattern
  {
    if rules == [] then 0
    else if rules[0].rule.pattern == pattern then 0
    else 1 + PatternIndex(rules[1..], pattern)
  }

  /** `_pattern_exists`: the id of the first rule with exactly that pattern. */
  function PatternOwner(rules: seq<Entry>, pattern: string): (r: Option<string>)
    ensures r.None? <==> forall i :: 0 <= i < |rules| ==> rules[i].rule.pattern != pattern
  {
    var k := PatternIndex(rules, pattern);
    if k < |rules| then Some(IdText(rules[k])) else None
  }

  /** The rules whose id text is not listed. */
  function DropIds(rules: seq<Entry>, ids: seq<string>): (r: seq<Entry>)
    ensures |r| <= |rules|
    ensures forall e :: e in r ==> e in rules
  {
    if rules == [] then []
    else if IdText(rules[0]) in ids then DropIds(rules[1..], ids)
    else [rules[0]] + DropIds(rules[1..], ids)
  }

  /** Exactly the rules whose id text is not listed survive. */
  lemma {:induction false} DropIdsMember(rules: seq<Entry>, ids: seq<string>, e: Entry)
    ensures e in DropIds(rules, ids) <==> e in rules && IdText(e) !in ids
  {
    if rules != [] {
      DropIdsMember(rules[1..], ids, e);
    }
  }

  /** Dropping no ids changes nothing. */
  lemma {:induction false} DropNoIds(rules: seq<Entry>)
    ensures DropIds(rules, []) == rules
  {
    if rules != [] {
      DropNoIds(rules[1..]);
    }
  }

  /** Dropping one more id drops it from what is left. */
  lemma {:induction false} DropIdsSnoc(rules: seq<Entry>, ids: seq<string>, x: string)
    ensures DropIds(rules, ids + [x]) == DropIds(DropIds(rules, ids), [x])
  {
    if rules != [] {
      DropIdsSnoc(rules[1..], ids, x);
      if IdText(rules[0]) !in ids {
        assert ([rules[0]] + DropIds(rules[1..], ids))[1..] == DropIds(rules[1..], ids);
      }
    }
  }

  /** Numbers strictly increase along the sequence. */
  predicate Increasing(rules: seq<Entry>)
  {
    forall i, j :: 0 <= i < j < |rules| ==> rules[i].num < rules[j].num
  }

  /** A rule numbered below everything in an increasing sequence can go first. */
  lemma ConsIncreasing(e: Entry, rest: seq<Entry>)
    requires Increasing(rest)
    requires forall f :: f in rest ==> e.num < f.num
    ensures Increasing([e] + rest)
  {
    var r := [e] + rest;
    forall i, j | 0 <= i < j < |r| ensures r[i].num < r[j].num {
      assert r[j] == rest[j - 1];
      if i > 0 {
        assert r[i] == rest[i - 1];
      }
    }
  }

  /** Filtering keeps the rules in their order, so increasing numbers stay increasing. */
  lemma {:induction false} DropIdsSorted(rules: seq<Entry>, ids: seq<string>)
    requires Increasing(rules)
    ensures Increasing(DropIds(rules, ids))
  {
    if rules != [] {
      var tail := rules[1..];
      assert Increasing(tail) by {
        forall i, j | 0 <= i < j < |tail| ensures tail[i].num < tail[j].num {
          assert tail[i] == rules[i + 1] && tail[j] == rules[j + 1];
        }
      }
      DropIdsSorted(tail, ids);
      var rest := DropIds(tail, ids);
      if IdText(rules[0]) !in ids {
        forall f | f in rest ensures rules[0].num < f.num {
          var k :| 0 <= k < |tail| && tail[k] == f;
          assert rules[k + 1] == f;
        }
        ConsIncreasing(rules[0], rest);
      }
    }
  }

  /** An id is left after filtering exactly when some rule had it and it is not listed. */
  lemma {:induction false} DropHasIdText(rules: seq<Entry>, ids: seq<string>, x: string)
    ensures HasIdText(DropIds(rules, ids), x) <==> HasIdText(rules, x) && x !in ids
  {
    if rules != [] {
      DropHasIdText(rules[1..], ids, x);
      assert IdTexts(rules) == [IdText(rules[0])] + IdTexts(rules[1..]);
      if IdText(rules[0]) !in ids {
        var r := [rules[0]] + DropIds(rules[1..], ids);
        assert IdTexts(r) == [IdText(rules[0])] + IdTexts(DropIds(rules[1..], ids)) by {
          assert r[1..] == DropIds(rules[1..], ids);
        }
      }
    }
  }

  /** Filtering keeps patterns apart. */
  lemma {:induction false} DropIdsDistinct(rules: seq<Entry>, ids: seq<string>)
    requires DistinctPatterns(rules)
    ensures DistinctPatterns(DropIds(rules, ids))
  {
    if rules != [] {
      DropIdsDistinct(rules[1..], ids);
      var rest := DropIds(rules[1..], ids);
      assert forall e :: e in rest ==> e.rule.pattern != rules[0].rule.pattern;
    }
  }

  /** The cache built from the rules: those whose pattern compiles, in order. */
  function Compiled(rules: seq<Entry>, compiles: string -> bool): (r: seq<CachedRule>)
    ensures forall c :: c in r <==> Entry(c.num, Rule(c.pattern, c.replacement)) in rules && compiles(c.pattern)
  {
    if rules == [] then []
    else
      var e := rules[0];
      var rest := Compiled(rules[1..], compiles);
      if compiles(e.rule.pattern) then [CachedRule(e.rule.pattern, e.rule.replacement, e.num)] + rest else rest
  }

  // ---------------------------------------------------------------------
  // Rewriting a message

  /**
   * `pattern.sub(replacement, text)` is the argument `sub(pattern,
   * replacement, text)`; it is None where Python raises `re.error`, which
   * it does for a malformed replacement template (`\d`, or `\1` without a
   * group) whether or not the pattern matches.
   */
  type Substitution = (string, string, string) -> Option<string>

  /**
   * The loop of `on_message` over the cache: each rule rewrites the text
   * in turn, and the flag says whether some rule changed it. A rule whose
   * substitution raises ends the loop with no result.
   */
  function Rewrite(content: string, cache: seq<CachedRule>, sub: Substitution): (r: Option<(string, bool)>)
    ensures r.Some? && !r.value.1 ==> r.value.0 == content
    decreases |cache|
  {
    if cache == [] then Some((content, false))
    else
      var prev := Rewrite(content, cache[..|cache| - 1], sub);
      var last := cache[|cache| - 1];
      if prev.None? then None
      else
        var next := sub(last.pattern, last.replacement, prev.value.0);
        if next.None? then None
        else if next.value != prev.value.0 then Some((next.value, true)) else prev
  }

  /** Every rule applied in turn, with no bookkeeping; None once one raises. */
  function Applied(content: string, cache: seq<CachedRule>, sub: Substitution): (r: Option<string>)
    // rules that leave every text as it is leave the message as it is
    ensures (forall k, t :: 0 <= k < |cache| ==> sub(cache[k].pattern, cache[k].replacement, t) == Some(t)) ==>
      r == Some(content)
    decreases |cache|
  {
    if cache == [] then Some(content)
    else
      var init := cache[..|cache| - 1];
      assert forall k :: 0 <= k < |init| ==> init[k] == cache[k];
      var prev := Applied(content, init, sub);
      if prev.None? then None
      else sub(cache[|cache| - 1].pattern, cache[|cache| - 1].replacement, prev.value)
  }

  /**
   * The reposted text is every rule applied in turn (what `test` shows),
   * both fail together, and a text that differs from the message is
   * always reported as changed.
   */
  lemma {:induction false} RewriteApplies(content: string, cache: seq<CachedRule>, sub: Substitution)
    ensures Rewrite(content, cache, sub).None? <==> Applied(content, cache, sub).None?
    ensures Rewrite(content, cache, sub).Some? ==> Rewrite(content, cache, sub).value.0 == Applied(content, cache, sub).value
    ensures Applied(content, cache, sub).Some? && Applied(content, cache, sub).value != content ==>
      Rewrite(content, cache, sub).value.1
    decreases |cache|
  {
    if cache != [] {
      RewriteApplies(content, cache[..|cache| - 1], sub);
    }
  }

  /** Once a rule has raised, the later rules do not run: the whole loop has no result. */
  lemma {:induction false} FailureStays(content: string, cache: seq<CachedRule>, sub: Substitution, n: nat)
    requires n <= |cache| && Rewrite(content, cache[..n], sub).None?
    ensures Rewrite(content, cache, sub).None?
    decreases |cache| - n
  {
    if n < |cache| {
      assert cache[..n + 1][..n] == cache[..n];
      FailureStays(content, cache, sub, n + 1);
    } else {
      assert cache[..n] == cache;
    }
  }

  /**
   * A cached rule whose template is malformed raises on every text, so
   * the loop fails on every message: nothing is ever reposted for the
   * guild and `test` always fails.
   */
  lemma BadTemplateBlocks(content: string, cache: seq<CachedRule>, sub: Substitution, k: nat)
    requires k < |cache|
    requires forall t :: sub(cache[k].pattern, cache[k].replacement, t).None?
    ensures Rewrite(content, cache, sub).None?
  {
    assert cache[..k + 1][..k] == cache[..k];
    assert cache[..k + 1][k] == cache[k];
    FailureStays(content, cache, sub, k + 1);
  }

  /** A message that invokes this plugin's own command through one of the prefixes. */
  predicate IsOwnCommand(content: string, prefixes: seq<string>)
  {
    exists i :: 0 <= i < |prefixes| && InvokesVia(content, prefixes[i])
  }

  /** The message starts with the prefix and, after it and any whitespace, with `textreplace `. */
  predicate InvokesVia(content: string, prefix: string)
  {
    StartsWith(content, prefix) && StartsWith(Strip(content[|prefix|..]), "textreplace ")
  }

  /** The check over the bot's prefixes, one at a time. */
  method FindOwnCommand(content: string, prefixes: seq<string>) returns (own: bool)
    ensures own <==> IsOwnCommand(content, prefixes)
  {
    var j := 0;
    while j < |prefixes|
      invariant 0 <= j <= |prefixes|
      invariant forall k :: 0 <= k < j ==> !InvokesVia(content, prefixes[k])
    {
      if InvokesVia(content, prefixes[j]) {
        return true;
      }
      j := j + 1;
    }
    own := false;
  }

  // ---------------------------------------------------------------------
  // Import

  /** One value of the imported JSON object. */
  datatype RawRule = RawRule(pattern: Option<string>, replacement: Option<string>) | NotADict

  datatype Decoded = NotAnObject | Object(entries: seq<(string, RawRule)>)

  /** A value with both keys. */
  predicate Shaped(v: RawRule)
  {
    v.RawRule? && v.pattern.Some? && v.replacement.Some?
  }

  predicate PatternIn(rules: seq<Rule>, pattern: string)
  {
    exists i :: 0 <= i < |rules| && rules[i].pattern == pattern
  }

  /**
   * The rules an import takes, as the source decides it: well-shaped
   * values whose pattern is not already stored and compiles. Patterns
   * taken earlier in the same import are not looked at.
   */
  function AcceptedAsWritten(stored: seq<Entry>, entries: seq<(string, RawRule)>, compiles: string -> bool): (r: seq<Rule>)
    ensures |r| <= |entries|
    ensures forall i :: 0 <= i < |r| ==> PatternOwner(stored, r[i].pattern).None? && compiles(r[i].pattern)
    decreases |entries|
  {
    if entries == [] then []
    else
      var prev := AcceptedAsWritten(stored, entries[..|entries| - 1], compiles);
      var v := entries[|entries| - 1].1;
      if Shaped(v) && PatternOwner(stored, v.pattern.value).None? && compiles(v.pattern.value)
      then prev + [Rule(v.pattern.value, v.replacement.value)]
      else prev
  }

  /** The rules an import takes: as above, and a pattern taken earlier in the same import is a duplicate too. */
  function Accepted(stored: seq<Entry>, entries: seq<(string, RawRule)>, compiles: string -> bool): (r: seq<Rule>)
    ensures |r| <= |entries|
    ensures forall i :: 0 <= i < |r| ==> PatternOwner(stored, r[i].pattern).None?
    ensures forall i, j :: 0 <= i < j < |r| ==> r[i].pattern != r[j].pattern
    decreases |entries|
  {
    if entries == [] then []
    else
      var prev := Accepted(stored, entries[..|entries| - 1], compiles);
      var v := entries[|entries| - 1].1;
      if Admissible(stored, prev, v, compiles) then prev + [Rule(v.pattern.value, v.replacement.value)] else prev
  }

  predicate Admissible(stored: seq<Entry>, prev: seq<Rule>, v: RawRule, compiles: string -> bool)
  {
    Shaped(v) && PatternOwner(stored, v.pattern.value).None? && !PatternIn(prev, v.pattern.value) && compiles(v.pattern.value)
  }

  /** Where the validation loop of an import puts one entry. */
  datatype EntryKind = Takes | Duplicate | Invalid

  /**
   * A value without both keys is invalid; a pattern already stored, or
   * taken earlier in the same import, is a duplicate; a pattern that does
   * not compile is invalid; anything else is taken.
   */
  function KindOf(stored: seq<Entry>, prev: seq<Rule>, v: RawRule, compiles: string -> bool): (k: EntryKind)
    ensures k == Takes <==> Admissible(stored, prev, v, compiles)
  {
    if !Shaped(v) then Invalid
    else if PatternOwner(stored, v.pattern.value).Some? || PatternIn(prev, v.pattern.value) then Duplicate
    else if compiles(v.pattern.value) then Takes
    else Invalid
  }

  /** The kind of entry `i`, judged against the stored rules and the rules taken before it. */
  function KindAt(stored: seq<Entry>, entries: seq<(string, RawRule)>, compiles: string -> bool, i: nat): EntryKind
    requires i < |entries|
  {
    KindOf(stored, Accepted(stored, entries[..i], compiles), entries[i].1, compiles)
  }

  /** The ids of the entries of one kind, in import order. */
  function IdsOf(stored: seq<Entry>, entries: seq<(string, RawRule)>, compiles: string -> bool, kind: EntryKind): seq<string>
    decreases |entries|
  {
    if entries == [] then []
    else
      var n := |entries| - 1;
      var prev := IdsOf(stored, entries[..n], compiles, kind);
      if KindAt(stored, entries, compiles, n) == kind then prev + [entries[n].0] else prev
  }

  /** Every entry of a kind has its id listed under that kind. */
  lemma {:induction false} IdsOfComplete(stored: seq<Entry>, entries: seq<(string, RawRule)>, compiles: string -> bool, kind: EntryKind)
    ensures forall i :: 0 <= i < |entries| && KindAt(stored, entries, compiles, i) == kind ==>
      entries[i].0 in IdsOf(stored, entries, compiles, kind)
    decreases |entries|
  {
    if entries != [] {
      var n := |entries| - 1;
      var init := entries[..n];
      IdsOfComplete(stored, init, compiles, kind);
      var ids := IdsOf(stored, entries, compiles, kind);
      assert IdsOf(stored, init, compiles, kind) <= ids;
      forall i | 0 <= i < n && KindAt(stored, entries, compiles, i) == kind
        ensures entries[i].0 in ids
      {
        assert init[..i] == entries[..i];
        assert KindAt(stored, init, compiles, i) == kind;
        assert init[i].0 in IdsOf(stored, init, compiles, kind);
      }
    }
  }

  /** Every id listed under a kind names an entry of that kind. */
  lemma {:induction false} IdsOfSound(stored: seq<Entry>, entries: seq<(string, RawRule)>, compiles: string -> bool, kind: EntryKind)
    ensures forall x :: x in IdsOf(stored, entries, compiles, kind) ==>
      exists i :: 0 <= i < |entries| && entries[i].0 == x && KindAt(stored, entries, compiles, i) == kind
    decreases |entries|
  {
    if entries != [] {
      var n := |entries| - 1;
      var init := entries[..n];
      IdsOfSound(stored, init, compiles, kind);
      forall i | 0 <= i < n
        ensures KindAt(stored, init, compiles, i) == KindAt(stored, entries, compiles, i) && init[i] == entries[i]
      {
        assert init[..i] == entries[..i];
      }
    }
  }

  /** Every entry is taken, a duplicate or invalid: the three lists share out the entries. */
  lemma {:induction false} KindsShareOut(stored: seq<Entry>, entries: seq<(string, RawRule)>, compiles: string -> bool)
    ensures |Accepted(stored, entries, compiles)| + |IdsOf(stored, entries, compiles, Duplicate)| +
      |IdsOf(stored, entries, compiles, Invalid)| == |entries|
    decreases |entries|
  {
    if entries != [] {
      KindsShareOut(stored, entries[..|entries| - 1], compiles);
    }
  }

  /** Imported rules numbered from `next` on. */
  function Numbered(rules: seq<Rule>, next: int): (r: seq<Entry>)
    ensures |r| == |rules|
    ensures forall i :: 0 <= i < |r| ==> r[i] == Entry(next + i, rules[i])
  {
    seq(|rules|, i requires 0 <= i < |rules| => Entry(next + i, rules[i]))
  }

  /** The corrected import keeps the stored patterns distinct. */
  lemma ImportKeepsDistinct(stored: seq<Entry>, entries: seq<(string, RawRule)>, compiles: string -> bool, next: int)
    requires DistinctPatterns(stored)
    ensures DistinctPatterns(stored + Numbered(Accepted(stored, entries, compiles), next))
  {
    var added := Numbered(Accepted(stored, entries, compiles), next);
    var all := stored + added;
    forall i, j | 0 <= i < j < |all| ensures all[i].rule.pattern != all[j].rule.pattern {
      if j >= |stored| && i < |stored| {
        assert all[j] == added[j - |stored|];
        assert PatternOwner(stored, all[j].rule.pattern).None?;
        assert all[i] == stored[i];
      }
    }
  }

  /** The source's import stores a pattern twice when the import repeats a new pattern. */
  lemma ImportAsWrittenDuplicates()
    ensures var entries := [("1", RawRule(Some("x"), Some("y"))), ("2", RawRule(Some("x"), Some("z")))];
            !DistinctPatterns([] + Numbered(AcceptedAsWritten([], entries, _ => true), 1))
  {
    var entries := [("1", RawRule(Some("x"), Some("y"))), ("2", RawRule(Some("x"), Some("z")))];
    assert entries[..1] == [("1", RawRule(Some("x"), Some("y")))];
    assert entries[..1][..0] == [];
    var r := AcceptedAsWritten([], entries, _ => true);
    assert r == [Rule("x", "y"), Rule("x", "z")];
    var n := [] + Numbered(r, 1);
    assert n[0].rule.pattern == n[1].rule.pattern;
  }

  /**
   * Numbers at least one and below the counter, increasing in insertion
   * order (so an id is never given twice), and no pattern stored twice.
   */
  predicate WellNumbered(rules: seq<Entry>, next: int)
  {
    && next >= 1
    && (forall i :: 0 <= i < |rules| ==> 1 <= rules[i].num < next)
    && Increasing(rules)
    && DistinctPatterns(rules)
  }

  /** Appending a rule with a new pattern under the counter's number keeps the numbering. */
  lemma AppendKeepsNumbering(rules: seq<Entry>, next: int, rule: Rule)
    requires WellNumbered(rules, next)
    requires PatternOwner(rules, rule.pattern).None?
    ensures WellNumbered(rules + [Entry(next, rule)], next + 1)
  {
    var r := rules + [Entry(next, rule)];
    forall i, j | 0 <= i < j < |r| ensures r[i].num < r[j].num && r[i].rule.pattern != r[j].rule.pattern {
      if j == |rules| {
        assert r[i] == rules[i];
      }
    }
  }

  /** The corrected import numbered from the counter keeps the numbering. */
  lemma ImportKeepsNumbering(rules: seq<Entry>, next: int, entries: seq<(string, RawRule)>, compiles: string -> bool)
    requires WellNumbered(rules, next)
    ensures WellNumbered(rules + Numbered(Accepted(rules, entries, compiles), next),
                         next + |Accepted(rules, entries, compiles)|)
  {
    ImportKeepsDistinct(rules, entries, compiles, next);
    var added := Numbered(Accepted(rules, entries, compiles), next);
    var r := rules + added;
    forall i, j | 0 <= i < j < |r| ensures r[i].num < r[j].num {
      if i >= |rules| {
        assert r[i] == added[i - |rules|] && r[j] == added[j - |rules|];
      } else if j >= |rules| {
        assert r[i] == rules[i] && r[j] == added[j - |rules|];
      }
    }
    forall i | 0 <= i < |r| ensures 1 <= r[i].num < next + |added| {
      if i >= |rules| {
        assert r[i] == added[i - |rules|];
      }
    }
  }

  /** Filtering keeps the numbering. */
  lemma DropKeepsNumbering(rules: seq<Entry>, next: int, ids: seq<string>)
    requires WellNumbered(rules, next)
    ensures WellNumbered(DropIds(rules, ids), next)
  {
    DropIdsSorted(rules, ids);
    DropIdsDistinct(rules, ids);
    var r := DropIds(rules, ids);
    forall i | 0 <= i < |r| ensures 1 <= r[i].num < next {
      assert r[i] in rules;
    }
  }

  /** The id texts of the rules, in order. */
  function IdTexts(rules: seq<Entry>): (r: seq<string>)
    ensures |r| == |rules|
    ensures forall i :: 0 <= i < |rules| ==> r[i] == IdText(rules[i])
  {
    if rules == [] then [] else [IdText(rules[0])] + IdTexts(rules[1..])
  }

  /** Some rule has that id text. */
  predicate HasIdText(rules: seq<Entry>, x: string)
  {
    x in IdTexts(rules)
  }

  /** A stored rule's id text is one of the rules' id texts. */
  lemma StoredHasIdText(rules: seq<Entry>, e: Entry)
    requires e in rules
    ensures HasIdText(rules, IdText(e))
  {
    var k :| 0 <= k < |rules| && rules[k] == e;
    assert IdTexts(rules)[k] == IdText(e);
  }

  /**
   * The loop of `textreplace remove` over the listed ids, on the rules
   * the command edits: each id is removed if present, else reported.
   */
  method SplitRemovals(rules: seq<Entry>, ids: seq<string>) returns (kept: seq<Entry>, removed: seq<string>, notFound: seq<string>)
    ensures kept == DropIds(rules, ids)
    ensures |removed| + |notFound| == |ids|
    ensures forall x :: x in removed <==> x in ids && HasIdText(rules, x)
    ensures forall x :: x in notFound ==> x in ids
    ensures forall x :: x in ids && !HasIdText(rules, x) ==> x in notFound
  {
    kept := rules;
    removed := [];
    notFound := [];
    var i := 0;
    ghost var seen: seq<string> := [];
    DropNoIds(rules);
    while i < |ids|
      invariant 0 <= i <= |ids| && seen == ids[..i]
      invariant kept == DropIds(rules, seen)
      invariant |removed| + |notFound| == i
      invariant Reported(rules, seen, removed, notFound)
    {
      var id := ids[i];
      DropIdsSnoc(rules, seen, id);
      ReportedStep(rules, seen, removed, notFound, id);
      var present := HasIdText(kept, id);
      if present {
        kept := DropIds(kept, [id]);
        removed := removed + [id];
      } else {
        DropAbsent(kept, id);
        notFound := notFound + [id];
      }
      Seqs.TakeNext(ids, i);
      seen := seen + [id];
      i := i + 1;
    }
    assert ids[..i] == ids;
  }

  /**
   * Of the ids `seen` so far, the ones some rule had are the removed ones,
   * and every one no rule had is reported as not found.
   */
  ghost predicate Reported(rules: seq<Entry>, seen: seq<string>, removed: seq<string>, notFound: seq<string>)
  {
    && (forall x :: x in removed <==> x in seen && HasIdText(rules, x))
    && (forall x :: x in notFound ==> x in seen)
    && (forall x :: x in seen && !HasIdText(rules, x) ==> x in notFound)
  }

  /** One id further: it is removed when the rules left still have it, and reported otherwise. */
  lemma ReportedStep(rules: seq<Entry>, seen: seq<string>, removed: seq<string>, notFound: seq<string>, id: string)
    requires Reported(rules, seen, removed, notFound)
    ensures HasIdText(DropIds(rules, seen), id) ==> Reported(rules, seen + [id], removed + [id], notFound)
    ensures !HasIdText(DropIds(rules, seen), id) ==> Reported(rules, seen + [id], removed, notFound + [id])
  {
    DropHasIdText(rules, seen, id);
  }

  /** Dropping an id no rule has changes nothing. */
  lemma {:induction false} DropAbsent(rules: seq<Entry>, x: string)
    requires !HasIdText(rules, x)
    ensures DropIds(rules, [x]) == rules
  {
    if rules != [] {
      assert IdTexts(rules) == [IdText(rules[0])] + IdTexts(rules[1..]);
      DropAbsent(rules[1..], x);
    }
  }

  /** Appending rules keeps every cached rule stored. */
  lemma AppendKeepsCache(rules: seq<Entry>, added: seq<Entry>, cache: seq<CachedRule>)
    requires forall c :: c in cache ==> Entry(c.num, Rule(c.pattern, c.replacement)) in rules
    ensures forall c :: c in cache ==> Entry(c.num, Rule(c.pattern, c.replacement)) in rules + added
  {
  }

  /** After a removal the cache still holds only stored rules. */
  lemma DropKeepsCache(rules: seq<Entry>, ids: seq<string>, removed: seq<string>, cache: seq<CachedRule>)
    requires forall x :: x in removed <==> x in ids && HasIdText(rules, x)
    requires forall c :: c in cache ==> Entry(c.num, Rule(c.pattern, c.replacement)) in rules
    ensures forall c :: c in DropCached(cache, removed) ==> Entry(c.num, Rule(c.pattern, c.replacement)) in DropIds(rules, ids)
    ensures removed == [] ==> forall c :: c in cache ==> Entry(c.num, Rule(c.pattern, c.replacement)) in DropIds(rules, ids)
  {
    forall c | c in cache && IntToString(c.num) !in removed
      ensures Entry(c.num, Rule(c.pattern, c.replacement)) in DropIds(rules, ids)
    {
      var e := Entry(c.num, Rule(c.pattern, c.replacement));
      StoredHasIdText(rules, e);
      DropIdsMember(rules, ids, e);
    }
  }

  /**
   * The validation loop of `textreplace import`: a value without both
   * keys is invalid, a pattern already stored (or already taken) is a
   * duplicate, a pattern that does not compile is invalid.
   */
  method Classify(stored: seq<Entry>, entries: seq<(string, RawRule)>, compiles: string -> bool)
    returns (taken: seq<Rule>, duplicates: seq<string>, invalid: seq<string>)
    ensures taken == Accepted(stored, entries, compiles)
    ensures duplicates == IdsOf(stored, entries, compiles, Duplicate)
    ensures invalid == IdsOf(stored, entries, compiles, Invalid)
  {
    taken := [];
    duplicates := [];
    invalid := [];
    var i := 0;
    while i < |entries|
      invariant 0 <= i <= |entries|
      invariant taken == Accepted(stored, entries[..i], compiles)
      invariant duplicates == IdsOf(stored, entries[..i], compiles, Duplicate)
      invariant invalid == IdsOf(stored, entries[..i], compiles, Invalid)
    {
      assert entries[..i + 1][..i] == entries[..i];
      var (id, v) := entries[i];
      if !Shaped(v) {
        invalid := invalid + [id];
      } else {
        var owner := FirstOwner(stored, v.pattern.value);
        var again := TakenBefore(taken, v.pattern.value);
        if owner.Some? || again {
          duplicates := duplicates + [id];
        } else if !compiles(v.pattern.value) {
          invalid := invalid + [id];
        } else {
          taken := taken + [Rule(v.pattern.value, v.replacement.value)];
        }
      }
      i := i + 1;
    }
    assert entries[..i] == entries;
  }

  /** `_pattern_exists`: the id of the first rule with exactly that pattern. */
  method FirstOwner(rules: seq<Entry>, pattern: string) returns (owner: Option<string>)
    ensures owner == PatternOwner(rules, pattern)
  {
    var i := 0;
    while i < |rules|
      invariant 0 <= i <= |rules|
      invariant forall j :: 0 <= j < i ==> rules[j].rule.pattern != pattern
    {
      if rules[i].rule.pattern == pattern {
        assert PatternIndex(rules, pattern) == i by {
          PatternIndexAt(rules, pattern, i);
        }
        return Some(IdText(rules[i]));
      }
      i := i + 1;
    }
    owner := None;
  }

  // ---------------------------------------------------------------------
  // The guild's store

  datatype AddReply = MissingText | DuplicatePattern(existing: string) | InvalidPattern | RuleAdded(id: string)

  datatype ImportReply = NotInCodeblock | BadJson | NotAJsonObject | NothingToImport
                       | ImportDone(imported: nat, duplicates: seq<string>, invalid: seq<string>)

  /** `Failed` is the command error `test` ends with when a substitution raises. */
  datatype TestReply = Disabled | NoRules | Tested(original: string, result: string) | Failed

  /** The substitution loop shared by `test` and `on_message`; None when a substitution raised. */
  method ApplyRules(content: string, rules: seq<CachedRule>, sub: Substitution)
    returns (outcome: Option<(string, bool)>)
    ensures outcome == Rewrite(content, rules, sub)
  {
    var text := content;
    var modified := false;
    var i := 0;
    while i < |rules|
      invariant 0 <= i <= |rules|
      invariant Some((text, modified)) == Rewrite(content, rules[..i], sub)
    {
      assert rules[..i + 1][..i] == rules[..i];
      var next := sub(rules[i].pattern, rules[i].replacement, text);
      if next.None? {
        FailureStays(content, rules, sub, i + 1);
        return None;
      }
      if next.value != text {
        text := next.value;
        modified := true;
      }
      i := i + 1;
    }
    assert rules[..i] == rules;
    outcome := Some((text, modified));
  }

  /** The counter's number is not the id of any stored rule, so ids are never reused. */
  lemma NextIdFresh(rules: seq<Entry>, next: int)
    requires WellNumbered(rules, next)
    ensures !HasIdText(rules, IntToString(next))
  {
    if HasIdText(rules, IntToString(next)) {
      var k :| 0 <= k < |rules| && IdTexts(rules)[k] == IntToString(next);
      IdTextInjective(rules[k].num, next);
    }
  }

  /** `textreplace add`'s checks, on the texts after code block extraction. */
  function CheckAdd(rules: seq<Entry>, next: int, pattern: string, replacement: string, compiles: string -> bool): (r: AddReply)
    ensures r == MissingText <==> pattern == [] || replacement == []
    ensures r.DuplicatePattern? <==> pattern != [] && replacement != [] && PatternOwner(rules, pattern).Some?
    ensures r.RuleAdded? <==> pattern != [] && replacement != [] && PatternOwner(rules, pattern).None? && compiles(pattern)
    ensures r.RuleAdded? ==> r.id == IntToString(next)
  {
    if pattern == [] || replacement == [] then MissingText
    else if PatternOwner(rules, pattern).Some? then DuplicatePattern(PatternOwner(rules, pattern).value)
    else if !compiles(pattern) then InvalidPattern
    else RuleAdded(IntToString(next))
  }

  class RuleStore {
    var rules: seq<Entry>
    var nextId: int
    var enabled: bool
    /** The guild's entry in the pattern cache, if it has one. */
    var cache: Option<seq<CachedRule>>

    /** The rules are well numbered, and the cache holds only stored rules. */
    ghost predicate Valid()
      reads this
    {
      && WellNumbered(rules, nextId)
      && (cache.Some? ==> forall c :: c in cache.value ==> Entry(c.num, Rule(c.pattern, c.replacement)) in rules)
    }

    constructor()
      ensures Valid()
      ensures rules == [] && nextId == 1 && enabled && cache.None?
    {
      rules := [];
      nextId := 1;
      enabled := true;
      cache := None;
    }

    /** `initialize` for this guild: rebuilds the cache when enabled with rules, else leaves it. */
    method Initialize(compiles: string -> bool)
      requires Valid()
      modifies this`cache
      ensures Valid()
      ensures cache == if enabled && rules != [] then Some(Compiled(rules, compiles)) else old(cache)
    {
      if enabled && rules != [] {
        cache := Some(Compiled(rules, compiles));
      }
    }

    /**
     * `textreplace add`: both texts (after code block extraction) must be
     * non-empty, the pattern new and compilable; the rule takes the
     * counter's number and the counter moves on by one.
     */
    method Add(rawPattern: string, rawReplacement: string, compiles: string -> bool) returns (reply: AddReply)
      requires Valid()
      modifies this`rules, this`nextId, this`cache
      ensures Valid()
      ensures reply == CheckAdd(old(rules), old(nextId), ExtractFromCodeblock(rawPattern), ExtractFromCodeblock(rawReplacement), compiles)
      ensures reply.RuleAdded? ==>
        && rules == old(rules) + [Entry(old(nextId), Rule(ExtractFromCodeblock(rawPattern), ExtractFromCodeblock(rawReplacement)))]
        && nextId == old(nextId) + 1
        && cache == Some((if old(cache).Some? then old(cache).value else [])
                         + [CachedRule(ExtractFromCodeblock(rawPattern), ExtractFromCodeblock(rawReplacement), old(nextId))])
      ensures !reply.RuleAdded? ==> rules == old(rules) && nextId == old(nextId) && cache == old(cache)
    {
      var pattern := ExtractFromCodeblock(rawPattern);
      var replacement := ExtractFromCodeblock(rawReplacement);
      if pattern == [] || replacement == [] {
        return MissingText;
      }
      var existing := FirstOwner(rules, pattern);
      if existing.Some? {
        return DuplicatePattern(existing.value);
      }
      if !compiles(pattern) {
        return InvalidPattern;
      }
      AppendKeepsNumbering(rules, nextId, Rule(pattern, replacement));
      var cached := if cache.Some? then cache.value else [];
      cache := Some(cached + [CachedRule(pattern, replacement, nextId)]);
      rules := rules + [Entry(nextId, Rule(pattern, replacement))];
      reply := RuleAdded(IntToString(nextId));
      nextId := nextId + 1;
    }

    /**
     * `textreplace remove`: each listed id is removed if present and
     * reported as not found otherwise; the cache loses the removed rules.
     */
    method Remove(ids: seq<string>) returns (removed: seq<string>, notFound: seq<string>)
      requires Valid()
      modifies this`rules, this`cache
      ensures Valid()
      ensures rules == DropIds(old(rules), ids)
      ensures |removed| + |notFound| == |ids|
      ensures forall x :: x in removed <==> x in ids && HasIdText(old(rules), x)
      ensures forall x :: x in ids && !HasIdText(old(rules), x) ==> x in notFound
      ensures cache == if old(cache).Some? && removed != []
                       then Some(DropCached(old(cache).value, removed)) else old(cache)
    {
      var kept;
      kept, removed, notFound := SplitRemovals(rules, ids);
      DropKeepsNumbering(rules, nextId, ids);
      if cache.Some? {
        DropKeepsCache(rules, ids, removed, cache.value);
        if removed != [] {
          cache := Some(DropCached(cache.value, removed));
        }
      }
      rules := kept;
    }

    /**
     * `textreplace toggle`: no argument flips the flag; turning on
     * rebuilds the cache, turning off drops it.
     */
    method Toggle(onOff: Option<bool>, compiles: string -> bool)
      requires Valid()
      modifies this`enabled, this`cache
      ensures Valid()
      ensures enabled == if onOff.Some? then onOff.value else !old(enabled)
      ensures !enabled ==> cache.None?
      ensures enabled ==> cache == if rules != [] then Some(Compiled(rules, compiles)) else old(cache)
    {
      enabled := if onOff.Some? then onOff.value else !enabled;
      if enabled {
        Initialize(compiles);
      } else {
        cache := None;
      }
    }

    /**
     * `textreplace import`: the data must be in a code block and decode to
     * an object; the rules taken are numbered from the counter on, the
     * counter moves on by their count, and the cache is rebuilt.
     */
    method Import(raw: string, decode: string -> Option<Decoded>, compiles: string -> bool) returns (reply: ImportReply)
      requires Valid()
      modifies this`rules, this`nextId, this`cache
      ensures Valid()
      ensures reply == NotInCodeblock <==> ExtractFromCodeblock(raw) == raw
      ensures ExtractFromCodeblock(raw) != raw ==>
        reply == match decode(ExtractFromCodeblock(raw))
                 case None => BadJson
                 case Some(NotAnObject) => NotAJsonObject
                 case Some(Object(entries)) =>
                   var taken := Accepted(old(rules), entries, compiles);
                   var duplicates := IdsOf(old(rules), entries, compiles, Duplicate);
                   if taken == [] && duplicates == [] then NothingToImport
                   else ImportDone(|taken|, duplicates, IdsOf(old(rules), entries, compiles, Invalid))
      ensures reply.ImportDone? ==>
        && decode(ExtractFromCodeblock(raw)).Some? && decode(ExtractFromCodeblock(raw)).value.Object?
        && var entries := decode(ExtractFromCodeblock(raw)).value.entries;
        && var taken := Accepted(old(rules), entries, compiles);
        && reply.imported == |taken|
        && rules == old(rules) + Numbered(taken, old(nextId))
        && nextId == old(nextId) + |taken|
        && cache == if enabled && rules != [] then Some(Compiled(rules, compiles)) else old(cache)
      ensures !reply.ImportDone? ==> rules == old(rules) && nextId == old(nextId) && cache == old(cache)
    {
      var data := ExtractFromCodeblock(raw);
      if data == raw {
        return NotInCodeblock;
      }
      var decoded := decode(data);
      if decoded.None? {
        return BadJson;
      }
      if decoded.value.NotAnObject? {
        return NotAJsonObject;
      }
      var entries := decoded.value.entries;
      var taken, duplicates, invalid := Classify(rules, entries, compiles);
      if taken == [] && duplicates == [] {
        return NothingToImport;
      }
      ImportKeepsNumbering(rules, nextId, entries, compiles);
      KindsShareOut(rules, entries, compiles);
      Store(taken, compiles);
      reply := ImportDone(|taken|, duplicates, invalid);
    }

    /** Numbers the taken rules from the counter, appends them, moves the counter on and refreshes the cache. */
    method Store(taken: seq<Rule>, compiles: string -> bool)
      requires Valid()
      requires WellNumbered(rules + Numbered(taken, nextId), nextId + |taken|)
      modifies this`rules, this`nextId, this`cache
      ensures Valid()
      ensures rules == old(rules) + Numbered(taken, old(nextId))
      ensures nextId == old(nextId) + |taken|
      ensures cache == if enabled && rules != [] then Some(Compiled(rules, compiles)) else old(cache)
    {
      var added := Numbered(taken, nextId);
      if cache.Some? {
        AppendKeepsCache(rules, added, cache.value);
      }
      rules := rules + added;
      nextId := nextId + |taken|;
      Initialize(compiles);
    }

    /**
     * `textreplace test`: the text after every cached rule, when the
     * plugin is enabled and the guild has cached rules.
     */
    method Test(text: string, sub: Substitution) returns (reply: TestReply)
      ensures !enabled ==> reply == Disabled
      ensures enabled && (cache.None? || cache.value == []) ==> reply == NoRules
      ensures enabled && cache.Some? && cache.value != [] ==>
        reply == match Rewrite(text, cache.value, sub)
                 case None => Failed
                 case Some(r) => Tested(text, r.0)
    {
      if !enabled {
        return Disabled;
      }
      if cache.None? || cache.value == [] {
        return NoRules;
      }
      var outcome := ApplyRules(text, cache.value, sub);
      if outcome.None? {
        return Failed;
      }
      reply := Tested(text, outcome.value.0);
    }

    /**
     * A guild message: nothing for bots, outside guilds, with no cached
     * rules, when disabled, or for this plugin's own command; otherwise
     * the rewritten text when some rule changed it.
     */
    method OnMessage(content: string, fromBot: bool, inGuild: bool, prefixes: seq<string>,
                     sub: Substitution)
      returns (repost: Option<string>)
      ensures repost.Some? <==>
        && !fromBot && inGuild && cache.Some? && cache.value != [] && enabled
        && !IsOwnCommand(content, prefixes)
        && Rewrite(content, cache.value, sub).Some? && Rewrite(content, cache.value, sub).value.1
      ensures repost.Some? ==> repost.value == Rewrite(content, cache.value, sub).value.0
    {
      if fromBot || !inGuild || cache.None? || cache.value == [] || !enabled {
        return None;
      }
      var own := FindOwnCommand(content, prefixes);
      if own {
        return None;
      }
      var outcome := ApplyRules(content, cache.value, sub);
      repost := if outcome.Some? && outcome.value.1 then Some(outcome.value.0) else None;
    }
  }

  /** The cache without the rules whose id text was removed. */
  function DropCached(cache: seq<CachedRule>, removed: seq<string>): (r: seq<CachedRule>)
    ensures forall c :: c in r <==> c in cache && IntToString(c.num) !in removed
  {
    if cache == [] then []
    else if IntToString(cache[0].num) in removed then DropCached(cache[1..], removed)
    else [cache[0]] + DropCached(cache[1..], removed)
  }

  /** Whether the import has already taken a rule with that pattern. */
  method TakenBefore(taken: seq<Rule>, pattern: string) returns (found: bool)
    ensures found <==> PatternIn(taken, pattern)
  {
    var i := 0;
    while i < |taken|
      invariant 0 <= i <= |taken|
      invariant forall j :: 0 <= j < i ==> taken[j].pattern != pattern
    {
      if taken[i].pattern == pattern {
        return true;
      }
      i := i + 1;
    }
    found := false;
  }

  /** A rule with the pattern at `i`, after none with it, is the first one. */
  lemma {:induction false} PatternIndexAt(rules: seq<Entry>, pattern: string, i: nat)
    requires i < |rules| && rules[i].rule.pattern == pattern
    requires forall j :: 0 <= j < i ==> rules[j].rule.pattern != pattern
    ensures PatternIndex(rules, pattern) == i
  {
    if i > 0 {
      PatternIndexAt(rules[1..], pattern, i - 1);
    }
  }
}
