/**
 * The pure helpers of the giveaway plugin: prize-list parsing, the option
 * flags of `giveaway start`, the legacy-tolerant readers of a stored
 * giveaway (`_prizes_list`, `_winner_count`, `_winner_ids_list`) and the
 * channel argument.
 */
module GiveawayParse {
  import opened Wrappers
  import opened Text

  /** Prizes are separated by commas or newlines. */
  const PrizeSeparators: set<char> := {',', '\n'}
  const MaxPrizeLength: nat := 256
  const MaxWinners: int := 50
  const MaxEmojiLength: nat := 100
  const DefaultEmoji: string := "\U{1F389}"
  /** The separator between the prize text and each `--flag` segment. */
  const FlagSeparator: string := " --"

  /** What one piece of the raw prize text contributes: nothing if blank, else its first 256 characters after stripping. */
  function KeptPrize(part: string): seq<string>
  {
    var p := Strip(part);
    if p == [] then [] else [Take(p, MaxPrizeLength)]
  }

  function PrizesFromParts(parts: seq<string>): (r: seq<string>)
    ensures |r| <= |parts|
  {
    if parts == [] then [] else PrizesFromParts(parts[..|parts| - 1]) + KeptPrize(parts[|parts| - 1])
  }

  /** The prize list `_parse_prizes_list` produces for `raw`. */
  function PrizesOf(raw: string): (r: seq<string>)
    ensures |r| <= |SplitAny(raw, PrizeSeparators)|
  {
    PrizesFromParts(SplitAny(raw, PrizeSeparators))
  }

  predicate WellFormedPrize(p: string)
  {
    p != [] && |p| <= MaxPrizeLength && Avoids(p, PrizeSeparators) && !IsSpace(p[0])
  }

  /** `_parse_prizes_list`: split on commas and newlines, strip, skip blanks, cut each to 256 characters. */
  method ParsePrizesList(raw: string) returns (prizes: seq<string>)
    ensures prizes == PrizesOf(raw)
  {
    var parts := SplitAny(raw, PrizeSeparators);
    prizes := [];
    for i := 0 to |parts|
      invariant prizes == PrizesFromParts(parts[..i])
    {
      PrizesFromPartsSnoc(parts, i);
      var p := Strip(parts[i]);
      if p != [] {
        prizes := prizes + [Take(p, MaxPrizeLength)];
      }
    }
    assert parts[..|parts|] == parts;
  }

  /** One more part extends the prize list by what that part contributes. */
  lemma PrizesFromPartsSnoc(parts: seq<string>, i: nat)
    requires i < |parts|
    ensures PrizesFromParts(parts[..i + 1]) == PrizesFromParts(parts[..i]) + KeptPrize(parts[i])
  {
    assert parts[..i + 1][..i] == parts[..i];
  }

  lemma KeptPrizeWellFormed(part: string)
    requires Avoids(part, PrizeSeparators)
    ensures forall k :: 0 <= k < |KeptPrize(part)| ==> WellFormedPrize(KeptPrize(part)[k])
  {
    var p := Strip(part);
    if p != [] {
      StripSlice(part);
      var t := Take(p, MaxPrizeLength);
      forall i | 0 <= i < |t| ensures t[i] !in PrizeSeparators {
        assert t[i] == p[i];
      }
    }
  }

  lemma {:induction false} PrizesFromPartsWellFormed(parts: seq<string>)
    requires forall k :: 0 <= k < |parts| ==> Avoids(parts[k], PrizeSeparators)
    ensures forall k :: 0 <= k < |PrizesFromParts(parts)| ==> WellFormedPrize(PrizesFromParts(parts)[k])
  {
    if parts != [] {
      PrizesFromPartsWellFormed(parts[..|parts| - 1]);
      KeptPrizeWellFormed(parts[|parts| - 1]);
    }
  }

  /** Every parsed prize is non-empty, at most 256 characters, and holds no comma or newline. */
  lemma PrizesWellFormed(raw: string)
    ensures forall k :: 0 <= k < |PrizesOf(raw)| ==> WellFormedPrize(PrizesOf(raw)[k])
  {
    PrizesFromPartsWellFormed(SplitAny(raw, PrizeSeparators));
  }

  /** A text without separators holds at most one prize: itself, stripped and cut. */
  lemma SinglePrize(raw: string)
    requires Avoids(raw, PrizeSeparators)
    ensures PrizesOf(raw) == KeptPrize(raw)
  {
    SplitAnyWithoutSeparator(raw, PrizeSeparators);
    var parts := [raw];
    assert parts[..0] == [];
    assert PrizesFromParts(parts) == PrizesFromParts([]) + KeptPrize(raw);
  }

  lemma {:induction false} SplitAnyWithoutSeparator(s: string, seps: set<char>)
    requires Avoids(s, seps)
    ensures SplitAny(s, seps) == [s]
  {
    if s != [] {
      SplitAnyWithoutSeparator(s[1..], seps);
      assert [s[0]] + s[1..] == s;
    }
  }

  /** `_prizes_list`: the stored `prizes` list if non-empty (stripped, blanks dropped), else the legacy single `prize`. */
  function PrizesList(prizes: seq<string>, prize: Option<string>): (r: seq<string>)
    ensures forall k :: 0 <= k < |r| ==> r[k] != [] && Strip(r[k]) == r[k]
    ensures prizes == [] && (prize.None? || Strip(prize.value) == []) ==> r == []
    ensures prizes == [] && prize.Some? && Strip(prize.value) != [] ==> r == [Strip(prize.value)]
    ensures prizes != [] ==> |r| <= |prizes|
    ensures prizes != [] ==> r == StrippedNonBlank(prizes)
  {
    if prizes != [] then StrippedNonBlank(prizes)
    else if prize.Some? && Strip(prize.value) != [] then
      StripIdempotent(prize.value);
      [Strip(prize.value)]
    else []
  }

  /** `_winner_count`: the stored count if it is an integer of at least 1, capped at 50; otherwise 1. */
  function WinnerCount(n: Option<int>): (r: int)
    ensures 1 <= r <= MaxWinners
    ensures n.Some? && 1 <= n.value <= MaxWinners ==> r == n.value
    ensures n.Some? && n.value > MaxWinners ==> r == MaxWinners
    ensures n.None? || n.value < 1 ==> r == 1
  {
    if n.Some? && n.value >= 1 then (if n.value < MaxWinners then n.value else MaxWinners) else 1
  }

  /** `_winner_ids_list`: the stored `winner_ids` if non-empty, else the legacy single `winner_id`. */
  function WinnerIdsList(winnerIds: seq<int>, winnerId: Option<int>): (r: seq<int>)
    ensures forall u :: u in r <==> (u in winnerIds || (winnerIds == [] && winnerId == Some(u)))
    ensures |r| <= |winnerIds| || |r| <= 1
    ensures winnerIds != [] ==> r == winnerIds
    ensures winnerIds == [] ==> r == if winnerId.Some? then [winnerId.value] else []
  {
    if winnerIds != [] then winnerIds
    else if winnerId.Some? then [winnerId.value]
    else []
  }

  /** The options `giveaway start` reads after the duration. */
  datatype StartOptions = StartOptions(
    prizes: seq<string>,
    winners: int,
    channelRaw: Option<string>,
    claimSeconds: int,
    emoji: string,
    description: Option<string>)

  const DefaultOptions: StartOptions := StartOptions([], 1, None, 0, DefaultEmoji, None)

  /** `max(1, min(50, n))`. */
  function ClampWinners(n: int): (r: int)
    ensures 1 <= r <= MaxWinners
    ensures 1 <= n <= MaxWinners ==> r == n
  {
    if n < 1 then 1 else if n > MaxWinners then MaxWinners else n
  }

  function IndexOfChar(s: string, c: char): (i: nat)
    requires c in s
    ensures i < |s| && s[i] == c && c !in s[..i]
  {
    if s[0] == c then 0
    else
      var j := IndexOfChar(s[1..], c);
      assert s[1..][..j] == s[1..j + 1];
      j + 1
  }

  /** A flag segment split at its first space into a lower-cased key and a stripped value. */
  function KeyValue(segment: string): (kv: (string, string))
  {
    if ' ' in segment then
      var i := IndexOfChar(segment, ' ');
      (Strip(Lower(segment[..i])), Strip(segment[i + 1..]))
    else (Lower(segment), "")
  }

  /**
   * What one `--key value` segment does to the options. `claimDuration`
   * stands for the duration converter (at least 60 seconds, at most 30 days),
   * returning whole seconds or `None` when the text is rejected.
   */
  function ApplyFlag(o: StartOptions, segment: string, claimDuration: string -> Option<int>): StartOptions
  {
    var seg := Strip(segment);
    if seg == [] then o else ApplyKeyValue(o, KeyValue(seg).0, KeyValue(seg).1, claimDuration)
  }

  function ApplyKeyValue(o: StartOptions, key: string, value: string, claimDuration: string -> Option<int>): StartOptions
  {
    if key == "winners" then
      match ParseInt(value)
      case Some(n) => o.(winners := ClampWinners(n))
      case None => o
    else if key == "claim" then
      if value != [] && claimDuration(value).Some? && claimDuration(value).value != 0
      then o.(claimSeconds := claimDuration(value).value) else o
    else if key == "channel" then
      if value != [] then o.(channelRaw := Some(value)) else o
    else if key == "emoji" then
      if value != [] then o.(emoji := Take(value, MaxEmojiLength)) else o
    else if key == "description" then
      o.(description := if value == [] then None else Some(value))
    else o
  }

  function ApplyFlags(o: StartOptions, segments: seq<string>, claimDuration: string -> Option<int>): StartOptions
  {
    if segments == [] then o
    else ApplyFlag(ApplyFlags(o, segments[..|segments| - 1], claimDuration), segments[|segments| - 1], claimDuration)
  }

  /** The options `_parse_start_options` returns for `rest`. */
  function StartOptionsOf(rest: string, claimDuration: string -> Option<int>): (o: StartOptions)
    ensures Strip(rest) == [] ==> o == DefaultOptions
    // the prizes come from the text before the first ` --` alone; no flag changes them
    ensures Strip(rest) != [] ==>
      var prizePart := Strip(SplitOn(Strip(rest), FlagSeparator)[0]);
      o.prizes == if prizePart != [] then PrizesOf(prizePart) else []
  {
    var r := Strip(rest);
    if r == [] then DefaultOptions
    else
      var parts := SplitOn(r, FlagSeparator);
      var prizePart := Strip(parts[0]);
      var base := if prizePart != [] then DefaultOptions.(prizes := PrizesOf(prizePart)) else DefaultOptions;
      ApplyFlagsKeepPrizes(base, parts[1..], claimDuration);
      ApplyFlags(base, parts[1..], claimDuration)
  }

  /** No `--` flag touches the prizes. */
  lemma {:induction false} ApplyFlagsKeepPrizes(o: StartOptions, segments: seq<string>, claimDuration: string -> Option<int>)
    ensures ApplyFlags(o, segments, claimDuration).prizes == o.prizes
  {
    if segments != [] {
      var prev := ApplyFlags(o, segments[..|segments| - 1], claimDuration);
      ApplyFlagsKeepPrizes(o, segments[..|segments| - 1], claimDuration);
      ApplyFlagKeepsPrizes(prev, segments[|segments| - 1], claimDuration);
    }
  }

  /** One `--` flag leaves the prizes alone. */
  lemma ApplyFlagKeepsPrizes(o: StartOptions, segment: string, claimDuration: string -> Option<int>)
    ensures ApplyFlag(o, segment, claimDuration).prizes == o.prizes
  {
    var seg := Strip(segment);
    if seg != [] {
      ApplyKeyValueKeepsPrizes(o, KeyValue(seg).0, KeyValue(seg).1, claimDuration);
    }
  }

  lemma ApplyKeyValueKeepsPrizes(o: StartOptions, key: string, value: string, claimDuration: string -> Option<int>)
    ensures ApplyKeyValue(o, key, value, claimDuration).prizes == o.prizes
  {
  }

  /** The flag loop of `_parse_start_options`: apply each segment in turn. */
  method ApplyFlagSegments(o: StartOptions, segments: seq<string>, claimDuration: string -> Option<int>) returns (r: StartOptions)
    ensures r == ApplyFlags(o, segments, claimDuration)
  {
    r := o;
    for i := 0 to |segments|
      invariant r == ApplyFlags(o, segments[..i], claimDuration)
    {
      assert segments[..i + 1][..i] == segments[..i];
      r := ApplyFlag(r, segments[i], claimDuration);
    }
    assert segments[..|segments|] == segments;
  }

  /** `_parse_start_options`: the prize text before the first ` --`, then each flag segment in turn. */
  method ParseStartOptions(rest: string, claimDuration: string -> Option<int>) returns (options: StartOptions)
    ensures options == StartOptionsOf(rest, claimDuration)
  {
    var r := Strip(rest);
    options := DefaultOptions;
    if r == [] {
      return;
    }
    var parts := SplitOn(r, FlagSeparator);
    var prizePart := Strip(parts[0]);
    if prizePart != [] {
      var prizes := ParsePrizesList(prizePart);
      options := options.(prizes := prizes);
    }
    options := ApplyFlagSegments(options, parts[1..], claimDuration);
  }

  predicate OptionsInvariant(o: StartOptions)
  {
    1 <= o.winners <= MaxWinners && o.emoji != [] && |o.emoji| <= MaxEmojiLength
    && o.claimSeconds >= 0
    && (o.channelRaw.Some? ==> o.channelRaw.value != [])
    && (o.description.Some? ==> o.description.value != [])
  }

  lemma ApplyFlagKeepsInvariant(o: StartOptions, segment: string, claimDuration: string -> Option<int>)
    requires OptionsInvariant(o)
    requires forall v :: claimDuration(v).Some? ==> claimDuration(v).value >= 0
    ensures OptionsInvariant(ApplyFlag(o, segment, claimDuration))
    ensures ApplyFlag(o, segment, claimDuration).prizes == o.prizes
  {
    var seg := Strip(segment);
    if seg != [] {
      ApplyKeyValueKeepsInvariant(o, KeyValue(seg).0, KeyValue(seg).1, claimDuration);
    }
  }

  lemma ApplyKeyValueKeepsInvariant(o: StartOptions, key: string, value: string, claimDuration: string -> Option<int>)
    requires OptionsInvariant(o)
    requires forall v :: claimDuration(v).Some? ==> claimDuration(v).value >= 0
    ensures OptionsInvariant(ApplyKeyValue(o, key, value, claimDuration))
    ensures ApplyKeyValue(o, key, value, claimDuration).prizes == o.prizes
  {
  }

  lemma {:induction false} ApplyFlagsKeepsInvariant(o: StartOptions, segments: seq<string>, claimDuration: string -> Option<int>)
    requires OptionsInvariant(o)
    requires forall v :: claimDuration(v).Some? ==> claimDuration(v).value >= 0
    ensures OptionsInvariant(ApplyFlags(o, segments, claimDuration))
    ensures ApplyFlags(o, segments, claimDuration).prizes == o.prizes
  {
    if segments != [] {
      ApplyFlagsKeepsInvariant(o, segments[..|segments| - 1], claimDuration);
      ApplyFlagKeepsInvariant(ApplyFlags(o, segments[..|segments| - 1], claimDuration), segments[|segments| - 1], claimDuration);
    }
  }

  /**
   * Whatever the flags say, the parsed options have 1 to 50 winners, a
   * non-empty emoji of at most 100 characters, and a non-negative claim
   * window.
   */
  lemma StartOptionsWellFormed(rest: string, claimDuration: string -> Option<int>)
    requires forall v :: claimDuration(v).Some? ==> claimDuration(v).value >= 0
    ensures OptionsInvariant(StartOptionsOf(rest, claimDuration))
  {
    var r := Strip(rest);
    if r != [] {
      var parts := SplitOn(r, FlagSeparator);
      var prizePart := Strip(parts[0]);
      var base := if prizePart != [] then DefaultOptions.(prizes := PrizesOf(prizePart)) else DefaultOptions;
      ApplyFlagsKeepsInvariant(base, parts[1..], claimDuration);
    }
  }

  /** A `winners` flag whose value is not an integer leaves the options unchanged; an integer is clamped to [1, 50]. */
  lemma WinnersFlag(o: StartOptions, value: string, claimDuration: string -> Option<int>)
    requires value == Strip(value) && value != []
    ensures ParseInt(value).None? ==> ApplyFlag(o, "winners" + " " + value, claimDuration) == o
    ensures ParseInt(value).Some? ==>
      ApplyFlag(o, "winners" + " " + value, claimDuration) == o.(winners := ClampWinners(ParseInt(value).value))
  {
    var key := "winners";
    assert forall i | 0 <= i < |key| :: 'a' <= key[i] <= 'z';
    SegmentKeyValue(key, value);
  }

  /** A lower-case key, a space and a stripped value split back into that key and value. */
  lemma SegmentKeyValue(key: string, value: string)
    requires key != [] && forall i :: 0 <= i < |key| ==> 'a' <= key[i] <= 'z'
    requires value == Strip(value) && value != []
    ensures Strip(key + " " + value) == key + " " + value
    ensures KeyValue(key + " " + value) == (key, value)
  {
    var seg := key + " " + value;
    assert seg[0] == key[0] && seg[|seg| - 1] == value[|value| - 1];
    StripTrimmed(seg);
    assert seg[|key|] == ' ' && seg[..|key|] == key;
    assert ' ' !in seg[..|key|];
    assert IndexOfChar(seg, ' ') == |key|;
    assert seg[|key| + 1..] == value;
    LowerKey(key);
    StripTrimmed(key);
  }

  /** A key already in lower case reads as itself. */
  lemma LowerKey(w: string)
    requires forall i :: 0 <= i < |w| ==> 'a' <= w[i] <= 'z'
    ensures Lower(w) == w
  {
    forall i | 0 <= i < |w| ensures Lower(w)[i] == w[i] {
      assert !('A' <= w[i] <= 'Z');
    }
  }

  /**
   * The channel a `--channel` argument names: a `<#id>` mention or a bare
   * id, looked up among the guild's channels (`isText` tells whether each is
   * a text channel); `None` when nothing usable is found.
   */
  function ResolveChannel(raw: string, isText: map<int, bool>): (r: Option<int>)
    ensures r.Some? ==> r.value in isText && isText[r.value]
    ensures r.Some? ==> ParseInt(raw) == Some(r.value) || (IsMention(raw) && ParseInt(raw[2..|raw| - 1]) == Some(r.value))
    // a mention naming a channel of the guild decides, even when that channel is not a text channel
    ensures IsMention(raw) && ParseInt(raw[2..|raw| - 1]).Some? && ParseInt(raw[2..|raw| - 1]).value in isText ==>
      var id := ParseInt(raw[2..|raw| - 1]).value;
      r == if isText[id] then Some(id) else None
    // otherwise a bare id of a channel of the guild decides
    ensures (!IsMention(raw) || ParseInt(raw[2..|raw| - 1]).None? || ParseInt(raw[2..|raw| - 1]).value !in isText) &&
            ParseInt(raw).Some? && ParseInt(raw).value in isText ==>
      r == if isText[ParseInt(raw).value] then ParseInt(raw) else None
  {
    var mentioned := if IsMention(raw) then LookupId(raw[2..|raw| - 1], isText) else None;
    var found := if mentioned.Some? then mentioned else LookupId(raw, isText);
    if found.Some? && isText[found.value] then found else None
  }

  /** `raw` has the `<#...>` shape of a channel mention. */
  predicate IsMention(raw: string)
  {
    StartsWith(raw, "<#") && EndsWith(raw, ">") && |raw| >= 3
  }

  /** The channel whose id `s` spells, when the guild has one. */
  function LookupId(s: string, isText: map<int, bool>): (r: Option<int>)
    ensures r.Some? ==> r.value in isText && ParseInt(s) == Some(r.value)
  {
    match ParseInt(s)
    case Some(id) => if id in isText then Some(id) else None
    case None => None
  }

  /** A mention of a known text channel resolves to that channel. */
  lemma MentionResolves(id: nat, isText: map<int, bool>)
    requires id in isText && isText[id]
    ensures ResolveChannel("<#" + IntToString(id) + ">", isText) == Some(id)
  {
    IntToStringRoundTrip(id);
    MentionOf(IntToString(id), id, isText);
  }

  /** Text naming a known text channel, wrapped as a mention, resolves to that channel. */
  lemma MentionOf(digits: string, id: int, isText: map<int, bool>)
    requires ParseInt(digits) == Some(id) && id in isText && isText[id]
    ensures ResolveChannel("<#" + digits + ">", isText) == Some(id)
  {
    var raw := "<#" + digits + ">";
    assert raw[2..|raw| - 1] == digits;
    assert IsMention(raw) by {
      assert raw[..2] == "<#";
      assert raw[|raw| - 1..] == ">";
    }
    assert LookupId(raw[2..|raw| - 1], isText) == Some(id);
  }
}
