/**
 * The reminder plugin: timers kept as one global list, a command whose
 * first word is a duration or a preset name, per-user presets and
 * presets a guild publishes, firing that removes the timer before
 * delivering, and cancelling by the owner.
 *
 * Red's duration parser is a parameter `parse` from stripped text to a
 * number of seconds; times are integer seconds.
 */
module RemindMe {
  import opened Wrappers
  import opened Text

  /** The bounds the duration parser is given: one second to 365 days. */
  const MinDuration := 1
  const MaxDuration := 365 * 86400

  // ---------------------------------------------------------------------
  // Names and durations

  /** `_normalize_preset_name`: stripped and lower-cased. */
  function NormalizeName(name: string): (r: string)
    ensures |r| <= |name|
    ensures r == [] || (!IsSpace(r[0]) && !IsSpace(r[|r| - 1]))
    ensures forall i :: 0 <= i < |r| ==> !('A' <= r[i] <= 'Z')
  {
    Lower(Strip(name))
  }

  /** Normalizing a normalized name changes nothing. */
  lemma NormalizeIdempotent(name: string)
    ensures NormalizeName(NormalizeName(name)) == NormalizeName(name)
  {
    var t := Strip(name);
    StripTrimmed(Lower(t));
    LowerIdempotent(t);
  }

  /**
   * `_parse_duration`: blank text is no duration; otherwise the parser's
   * reading of the stripped text, when it lies between the bounds.
   */
  function ParseDuration(raw: string, parse: string -> Option<int>): (r: Option<int>)
    ensures r.Some? <==>
      Strip(raw) != [] && parse(Strip(raw)).Some? && MinDuration <= parse(Strip(raw)).value <= MaxDuration
    ensures r.Some? ==> r == parse(Strip(raw))
  {
    var t := Strip(raw);
    if t == [] then None
    else match parse(t)
      case Some(d) => if MinDuration <= d <= MaxDuration then Some(d) else None
      case None => None
  }

  /** Surrounding whitespace never changes a duration. */
  lemma ParseDurationStripped(raw: string, parse: string -> Option<int>)
    ensures ParseDuration(Strip(raw), parse) == ParseDuration(raw, parse)
  {
    StripIdempotent(raw);
  }

  // ---------------------------------------------------------------------
  // The `remindme` argument

  /** What `remindme <rest>` asks for. */
  datatype Request = Interactive | Timed(first: string, dm: bool, name: Option<string>)

  /** The position of the first whitespace character, or the length. */
  function SpaceIndex(s: string): (i: nat)
    ensures i <= |s|
    ensures i < |s| ==> IsSpace(s[i])
    ensures forall j :: 0 <= j < i ==> !IsSpace(s[j])
  {
    if s == [] || IsSpace(s[0]) then 0 else 1 + SpaceIndex(s[1..])
  }

  /** A non-empty word with no whitespace in it. */
  predicate IsToken(s: string)
  {
    s != [] && forall i :: 0 <= i < |s| ==> !IsSpace(s[i])
  }

  /** A non-empty string with no whitespace at either end. */
  predicate IsTrimmed(s: string)
  {
    s != [] && !IsSpace(s[0]) && !IsSpace(s[|s| - 1])
  }

  /** A tail the command reads as the `dm` flag. */
  predicate DmLike(tail: string)
  {
    Lower(tail) == "dm" || StartsWith(Lower(tail), "dm ")
  }

  /**
   * The tail after the first word: `dm` alone, `dm <name>` (a blank name is
   * none), or just a name.
   */
  function ParseTail(tail: string): (r: (bool, Option<string>))
    ensures r.0 <==> tail != [] && DmLike(tail)
    ensures r.1.Some? ==> r.1.value != []
    ensures !r.0 ==> r.1 == (if tail == [] then None else Some(tail))
  {
    if tail == [] then (false, None)
    else if Lower(tail) == "dm" then (true, None)
    else if StartsWith(Lower(tail), "dm ") then
      var n := Strip(tail[3..]);
      (true, if n == [] then None else Some(n))
    else (false, Some(tail))
  }

  /**
   * `rest.strip()`, then `split(maxsplit=1)`: the first word is the
   * duration or preset, and the stripped remainder is the tail.
   */
  function ParseRequest(rest: string): (r: Request)
    ensures r == Interactive <==> Strip(rest) == []
    ensures r.Timed? ==> IsToken(r.first) && StartsWith(Strip(rest), r.first)
  {
    var s := Strip(rest);
    if s == [] then Interactive
    else
      var (first, tail) := SplitFirst(s);
      var (dm, name) := ParseTail(tail);
      Timed(first, dm, name)
  }

  /** `s.split(maxsplit=1)` on stripped text, with the remainder stripped. */
  function SplitFirst(s: string): (r: (string, string))
    requires Strip(s) == s && s != []
    ensures IsToken(r.0) && StartsWith(s, r.0)
  {
    var i := SpaceIndex(s);
    (s[..i], Strip(s[i..]))
  }

  /** The command text a user types for a first word, the flag and a name: `5m`, `5m dm`, `5m dm tea`, `5m tea`. */
  function FormatRequest(first: string, dm: bool, name: Option<string>): string
  {
    var tail := FormattedTail(dm, name);
    if tail == [] then first else first + " " + tail
  }

  /** A word followed by whitespace splits right after the word. */
  lemma {:induction false} SpaceIndexAfterToken(first: string, more: string)
    requires IsToken(first)
    requires more == [] || IsSpace(more[0])
    ensures SpaceIndex(first + more) == |first|
  {
    if |first| > 1 {
      assert (first + more)[1..] == first[1..] + more;
      SpaceIndexAfterToken(first[1..], more);
    }
  }

  /** Stripping a space and a trimmed string yields the string. */
  lemma StripSpaced(t: string)
    requires IsTrimmed(t)
    ensures Strip(" " + t) == t
  {
    assert (" " + t)[1..] == t;
    assert TrimLeft(" " + t) == TrimLeft(t);
  }

  /** The tail a formatted request carries. */
  function FormattedTail(dm: bool, name: Option<string>): string
  {
    if dm then (if name.Some? then "dm " + name.value else "dm")
    else if name.Some? then name.value else ""
  }

  /** A flag and a name written out read back as that flag and name. */
  lemma TailRoundTrip(dm: bool, name: Option<string>)
    requires name.Some? ==> IsTrimmed(name.value) && (!dm ==> !DmLike(name.value))
    ensures ParseTail(FormattedTail(dm, name)) == (dm, name)
    ensures FormattedTail(dm, name) == [] || IsTrimmed(FormattedTail(dm, name))
  {
    var t := FormattedTail(dm, name);
    if dm && name.Some? {
      assert t[|t| - 1] == name.value[|name.value| - 1];
      var l := Lower(t);
      assert l[0] == 'd' && l[1] == 'm' && l[2] == ' ';
      assert l[..3] == "dm ";
      assert |l| > 2;
      assert t[3..] == name.value;
      StripTrimmed(name.value);
    }
  }

  /** A lone word is the first word with an empty tail. */
  lemma SplitWord(first: string)
    requires IsToken(first)
    ensures ParseRequest(first) == Timed(first, false, None)
  {
    StripTrimmed(first);
    SpaceIndexAfterToken(first, []);
    assert first + [] == first;
    assert first[|first|..] == [];
    assert SplitFirst(first) == (first, []);
  }

  /** A word, a space and a trimmed tail have no whitespace at either end. */
  lemma SpacedTrimmed(first: string, t: string)
    requires IsToken(first) && IsTrimmed(t)
    ensures Strip(first + " " + t) == first + " " + t
  {
    var s := first + " " + t;
    assert s[0] == first[0];
    assert s[|s| - 1] == t[|t| - 1];
    StripTrimmed(s);
  }

  /** A word, a space and a trimmed tail split into the word and the tail. */
  lemma SplitSpaced(first: string, t: string)
    requires IsToken(first) && IsTrimmed(t)
    ensures Strip(first + " " + t) == first + " " + t
    ensures SplitFirst(first + " " + t) == (first, t)
  {
    var s := first + " " + t;
    SpacedTrimmed(first, t);
    assert SpaceIndex(s) == |first| by {
      assert s == first + (" " + t);
      SpaceIndexAfterToken(first, " " + t);
    }
    assert s[..|first|] == first;
    assert s[|first|..] == " " + t;
    StripSpaced(t);
  }

  /** A word, then a space and a trimmed tail, parses as that word and that tail. */
  lemma SplitRequest(first: string, t: string)
    requires IsToken(first) && IsTrimmed(t)
    ensures ParseRequest(first + " " + t) == Timed(first, ParseTail(t).0, ParseTail(t).1)
  {
    SplitSpaced(first, t);
  }

  /**
   * Round trip of the command line: a word, the optional `dm` flag and an
   * optional trimmed name (one that does not itself read as the flag)
   * parse back to themselves.
   */
  lemma RequestRoundTrip(first: string, dm: bool, name: Option<string>)
    requires IsToken(first)
    requires name.Some? ==> IsTrimmed(name.value) && (!dm ==> !DmLike(name.value))
    ensures ParseRequest(FormatRequest(first, dm, name)) == Timed(first, dm, name)
  {
    var t := FormattedTail(dm, name);
    TailRoundTrip(dm, name);
    if t == [] {
      SplitWord(first);
    } else {
      SplitRequest(first, t);
    }
  }


  // ---------------------------------------------------------------------
  // Presets

  /** A guild's published preset: a record with its duration and owner, or bare text from older data. */
  datatype PublishedPreset =
    | Published(duration: Option<string>, durationStr: Option<string>, owner: Option<int>)
    | Legacy(text: string)

  /** `entry.get("duration", entry.get("duration_str", ""))`, or `str(entry)`. */
  function EntryText(e: PublishedPreset): string
  {
    match e
    case Published(d, ds, _) => if d.Some? then d.value else if ds.Some? then ds.value else ""
    case Legacy(t) => t
  }

  function EntryOwner(e: PublishedPreset): Option<int>
  {
    if e.Published? then e.owner else None
  }

  /**
   * `_resolve_duration`: a literal duration first; then, under the
   * normalized name, the user's own preset; then the guild's published
   * one. The first non-empty preset text found decides, parsed or not.
   */
  function ResolveDuration(first: string, mine: map<string, string>, guild: Option<map<string, PublishedPreset>>,
                           parse: string -> Option<int>): (r: Option<int>)
    ensures r.Some? ==> MinDuration <= r.value <= MaxDuration
    ensures ParseDuration(first, parse).Some? ==> r == ParseDuration(first, parse)
    ensures ParseDuration(first, parse).None? && NormalizeName(first) == [] ==> r.None?
    ensures ParseDuration(first, parse).None? && NormalizeName(first) != [] &&
            NormalizeName(first) in mine && mine[NormalizeName(first)] != [] ==>
      r == ParseDuration(mine[NormalizeName(first)], parse)
    ensures r.Some? && ParseDuration(first, parse).None? &&
            !(NormalizeName(first) in mine && mine[NormalizeName(first)] != []) ==>
      NormalizeName(first) != [] && guild.Some? && NormalizeName(first) in guild.value &&
      r == ParseDuration(EntryText(guild.value[NormalizeName(first)]), parse)
  {
    var literal := ParseDuration(first, parse);
    if literal.Some? then literal
    else
      var key := NormalizeName(first);
      if key == [] then None
      else if key in mine && mine[key] != [] then ParseDuration(mine[key], parse)
      else if guild.Some? && key in guild.value && EntryText(guild.value[key]) != [] then
        ParseDuration(EntryText(guild.value[key]), parse)
      else None
  }

  /**
   * A preset saved under `name` with a valid duration is what any spelling
   * of that name resolves to, whatever the guild publishes, unless the
   * word is itself a duration.
   */
  lemma SavedPresetResolves(first: string, name: string, duration: string, mine: map<string, string>,
                            guild: Option<map<string, PublishedPreset>>, parse: string -> Option<int>)
    requires NormalizeName(name) != [] && NormalizeName(first) == NormalizeName(name)
    requires ParseDuration(duration, parse).Some? && ParseDuration(first, parse).None?
    ensures ResolveDuration(first, mine[NormalizeName(name) := Strip(duration)], guild, parse) == ParseDuration(duration, parse)
  {
    ParseDurationStripped(duration, parse);
  }

  // ---------------------------------------------------------------------
  // Timers

  datatype Timer = Timer(id: string, user: int, channel: int, guild: Option<int>, endTs: int, dm: bool, name: Option<string>)

  /** The index of the first timer with that id, or the length when there is none. */
  function IndexOfId(timers: seq<Timer>, id: string): (k: nat)
    ensures k <= |timers|
    ensures forall j :: 0 <= j < k ==> timers[j].id != id
    ensures k < |timers| ==> timers[k].id == id
    ensures k == |timers| <==> forall t :: t in timers ==> t.id != id
  {
    if timers == [] then 0
    else if timers[0].id == id then 0
    else 1 + IndexOfId(timers[1..], id)
  }

  predicate HasId(timers: seq<Timer>, id: string)
  {
    IndexOfId(timers, id) < |timers|
  }

  /** The first timer with that id, as `_find_timer` returns it. */
  function FirstWithId(timers: seq<Timer>, id: string): (r: Option<Timer>)
    ensures r.Some? <==> HasId(timers, id)
  {
    var k := IndexOfId(timers, id);
    if k < |timers| then Some(timers[k]) else None
  }

  /** `[t for t in timers if t.get("id") != id]`. */
  function WithoutId(timers: seq<Timer>, id: string): (r: seq<Timer>)
    ensures forall t :: t in r <==> t in timers && t.id != id
    ensures |r| <= |timers|
    ensures |r| == |timers| <==> !HasId(timers, id)
    ensures !HasId(timers, id) ==> r == timers
  {
    if timers == [] then []
    else if timers[0].id == id then WithoutId(timers[1..], id)
    else [timers[0]] + WithoutId(timers[1..], id)
  }

  /** The ids `cog_load` schedules again: timers with an id that end after `now`. */
  function PendingIds(timers: seq<Timer>, now: int): (r: set<string>)
    ensures forall id :: id in r <==> exists t :: t in timers && t.id == id && id != [] && t.endTs > now
  {
    set t | t in timers && t.id != [] && t.endTs > now :: t.id
  }

  /** `f"<@{user_id}>"`. */
  function Mention(user: int): (r: string)
    ensures |r| >= 3 && ParseInt(r[2..|r| - 1]) == Some(user)
  {
    IntToStringRoundTrip(user);
    var m := "<@" + IntToString(user) + ">";
    assert m[2..|m| - 1] == IntToString(user);
    m
  }

  /** The reminder text: a mention, then the name in bold or a generic line. */
  function ReminderText(t: Timer): (r: string)
    ensures StartsWith(r, Mention(t.user))
    ensures t.name.Some? && t.name.value != [] ==> EndsWith(r, t.name.value + "**")
  {
    var m := Mention(t.user);
    var lead := if t.name.Some? && t.name.value != [] then " Reminder: **" else " Your reminder is up.";
    var close := if t.name.Some? && t.name.value != [] then t.name.value + "**" else "";
    Affixes(m, lead, close);
    m + lead + close
  }

  lemma Affixes(a: string, b: string, c: string)
    ensures StartsWith(a + b + c, a) && EndsWith(a + b + c, c)
  {
    assert (a + b + c)[..|a|] == a;
    assert (a + b + c)[|a + b + c| - |c|..] == c;
  }

  /** `strip("`")`: leading and trailing backticks dropped. */
  function StripTicks(s: string): (r: string)
    ensures |r| <= |s|
    ensures r == [] || (r[0] != '`' && r[|r| - 1] != '`')
    decreases |s|
  {
    if s == [] then []
    else if s[0] == '`' then StripTicks(s[1..])
    else if s[|s| - 1] == '`' then StripTicks(s[..|s| - 1])
    else s
  }

  /** The id `timer_cancel` looks up: stripped, then with backticks stripped. */
  function CancelId(raw: string): string
  {
    StripTicks(Strip(raw))
  }

  /** An id as the timer list shows it, in backticks, is the id `cancel` looks up. */
  lemma CancelIdRoundTrip(id: string)
    requires id != [] && id[0] != '`' && id[|id| - 1] != '`'
    ensures CancelId("`" + id + "`") == id
  {
    var s := "`" + id + "`";
    StripTrimmed(s);
    assert s[1..] == id + "`";
    assert StripTicks(s) == StripTicks(id + "`");
    assert (id + "`")[..|id|] == id;
    assert StripTicks(id + "`") == StripTicks(id);
  }

  datatype CancelReply = NoSuchTimer | NotYours | AlreadyFired | Cancelled

  datatype PresetReply = EmptyName | InvalidDuration | NoPersonalPreset | NoSuchPreset | NotAllowed | PresetSaved(key: string) | PresetRemoved(key: string)

  datatype RemindReply = ShowMenu | NoDuration | ReminderSet(id: string, seconds: int, dm: bool, name: Option<string>)

  /**
   * The answer to `remindme <rest>`: no argument opens the menu;
   * otherwise the first word must resolve to a duration, and the timer
   * takes the flag and the name from the tail.
   */
  function RemindAnswer(rest: string, mine: map<string, string>, guild: Option<map<string, PublishedPreset>>,
                        parse: string -> Option<int>, newId: string): (r: RemindReply)
    ensures r == ShowMenu <==> Strip(rest) == []
    ensures r == NoDuration <==>
      ParseRequest(rest).Timed? && ResolveDuration(ParseRequest(rest).first, mine, guild, parse).None?
    ensures r.ReminderSet? ==>
      && ParseRequest(rest).Timed?
      && ResolveDuration(ParseRequest(rest).first, mine, guild, parse) == Some(r.seconds)
      && MinDuration <= r.seconds <= MaxDuration
      && r.dm == ParseRequest(rest).dm && r.name == ParseRequest(rest).name && r.id == newId
  {
    var req := ParseRequest(rest);
    if req == Interactive then ShowMenu
    else
      match ResolveDuration(req.first, mine, guild, parse)
      case None => NoDuration
      case Some(d) => ReminderSet(newId, d, req.dm, req.name)
  }

  /** The global timer list and scheduled tasks, the user presets and the guilds' published presets. */
  class Reminders {
    var timers: seq<Timer>
    /** Ids of the timers with a scheduled task. */
    var tasks: set<string>
    var presets: map<int, map<string, string>>
    var published: map<int, map<string, PublishedPreset>>

    constructor()
      ensures timers == [] && tasks == {} && presets == map[] && published == map[]
    {
      timers := [];
      tasks := {};
      presets := map[];
      published := map[];
    }

    function UserPresets(user: int): map<string, string>
      reads this
    {
      if user in presets then presets[user] else map[]
    }

    function GuildPresets(guild: int): map<string, PublishedPreset>
      reads this
    {
      if guild in published then published[guild] else map[]
    }

    /** `_find_timer`: the first timer with that id. */
    method Find(id: string) returns (found: Option<Timer>)
      ensures found == FirstWithId(timers, id)
    {
      var i := 0;
      while i < |timers|
        invariant 0 <= i <= |timers|
        invariant forall j :: 0 <= j < i ==> timers[j].id != id
      {
        if timers[i].id == id {
          assert IndexOfId(timers, id) == i by {
            IndexOfIdAt(timers, id, i);
          }
          return Some(timers[i]);
        }
        i := i + 1;
      }
      found := None;
    }

    /** `_add_timer`: appends exactly one timer. */
    method Add(t: Timer)
      modifies this`timers
      ensures timers == old(timers) + [t]
    {
      timers := timers + [t];
    }

    /** `_remove_timer`: drops every timer with that id; false when none had it. */
    method Remove(id: string) returns (removed: bool)
      modifies this`timers
      ensures removed <==> HasId(old(timers), id)
      ensures timers == WithoutId(old(timers), id)
      ensures !HasId(timers, id)
    {
      var kept := WithoutId(timers, id);
      if |kept| == |timers| {
        return false;
      }
      timers := kept;
      removed := true;
    }

    /** `_create_timer`: stores a timer ending `seconds` from now and schedules it. */
    method Create(id: string, user: int, channel: int, guild: Option<int>, seconds: int, dm: bool,
                  name: Option<string>, now: int)
      modifies this`timers, this`tasks
      ensures timers == old(timers) + [Timer(id, user, channel, guild, now + seconds, dm, name)]
      ensures tasks == old(tasks) + {id}
    {
      Add(Timer(id, user, channel, guild, now + seconds, dm, name));
      tasks := tasks + {id};
    }

    /**
     * A timer's task: the timer is removed before anything is sent, and
     * nothing is sent when it was already gone, so each timer fires at
     * most once. `userFound` is whether the user could be fetched.
     */
    method Fire(id: string, userFound: bool) returns (text: Option<string>)
      modifies this`timers, this`tasks
      ensures timers == WithoutId(old(timers), id)
      ensures tasks == old(tasks) - {id}
      ensures !HasId(timers, id)
      ensures text.Some? <==> HasId(old(timers), id) && userFound
      ensures text.Some? ==> FirstWithId(old(timers), id).Some? && text == Some(ReminderText(FirstWithId(old(timers), id).value))
    {
      var t := Find(id);
      tasks := tasks - {id};
      if t.None? {
        return None;
      }
      var first := t.value;
      var _ := Remove(id);
      text := if userFound then Some(ReminderText(first)) else None;
    }

    /** `cog_load`: schedules every stored timer with an id that ends after `now`. */
    method Load(now: int)
      modifies this`tasks
      ensures tasks == old(tasks) + PendingIds(timers, now)
    {
      var i := 0;
      while i < |timers|
        invariant 0 <= i <= |timers|
        invariant tasks == old(tasks) + PendingIds(timers[..i], now)
      {
        assert timers[..i + 1] == timers[..i] + [timers[i]];
        if timers[i].id != [] && timers[i].endTs > now {
          tasks := tasks + {timers[i].id};
        }
        i := i + 1;
      }
      assert timers[..i] == timers;
    }

    /** `timer_cancel`: only the owner of the first timer with that id may cancel it. */
    method Cancel(user: int, raw: string) returns (reply: CancelReply)
      modifies this`timers, this`tasks
      ensures reply == Cancelled <==>
        FirstWithId(old(timers), CancelId(raw)).Some? && FirstWithId(old(timers), CancelId(raw)).value.user == user
      ensures reply == Cancelled ==> timers == WithoutId(old(timers), CancelId(raw)) && tasks == old(tasks) - {CancelId(raw)}
      ensures reply != Cancelled ==> timers == old(timers) && tasks == old(tasks)
    {
      var id := CancelId(raw);
      var t := Find(id);
      if t.None? {
        return NoSuchTimer;
      }
      if t.value.user != user {
        return NotYours;
      }
      var removed := Remove(id);
      if removed {
        tasks := tasks - {id};
        reply := Cancelled;
      } else {
        reply := AlreadyFired;
      }
    }

    /**
     * `remindme <rest>`: answers as `RemindAnswer` does on the user's and
     * the guild's presets, and stores and schedules the new timer when a
     * duration resolved.
     */
    method Remind(rest: string, user: int, channel: int, guild: Option<int>, newId: string, now: int,
                  parse: string -> Option<int>)
      returns (reply: RemindReply)
      modifies this`timers, this`tasks
      ensures reply == RemindAnswer(rest, old(UserPresets(user)),
                                    if guild.Some? then Some(old(GuildPresets(guild.value))) else None, parse, newId)
      ensures reply.ReminderSet? ==>
        && timers == old(timers) + [Timer(newId, user, channel, guild, now + reply.seconds, reply.dm, reply.name)]
        && tasks == old(tasks) + {newId}
      ensures !reply.ReminderSet? ==> timers == old(timers) && tasks == old(tasks)
    {
      var g := if guild.Some? then Some(GuildPresets(guild.value)) else None;
      reply := RemindAnswer(rest, UserPresets(user), g, parse, newId);
      match reply
      case ReminderSet(_, seconds, dm, name) =>
        Create(newId, user, channel, guild, seconds, dm, name, now);
      case _ =>
    }

    /** `remindmeset set`: stores the stripped duration under the normalized name. */
    method SetPreset(user: int, name: string, duration: string, parse: string -> Option<int>)
      returns (reply: PresetReply)
      modifies this`presets
      ensures reply == EmptyName <==> NormalizeName(name) == []
      ensures reply == InvalidDuration <==> NormalizeName(name) != [] && ParseDuration(duration, parse).None?
      ensures NormalizeName(name) != [] && ParseDuration(duration, parse).Some? ==> reply == PresetSaved(NormalizeName(name))
      ensures reply.PresetSaved? ==>
        reply.key == NormalizeName(name) &&
        presets == old(presets)[user := old(UserPresets(user))[reply.key := Strip(duration)]]
      ensures !reply.PresetSaved? ==> presets == old(presets)
    {
      var key := NormalizeName(name);
      if key == [] {
        return EmptyName;
      }
      if ParseDuration(duration, parse).None? {
        return InvalidDuration;
      }
      presets := presets[user := UserPresets(user)[key := Strip(duration)]];
      reply := PresetSaved(key);
    }

    /** `remindmeset unset`. */
    method UnsetPreset(user: int, name: string) returns (reply: PresetReply)
      modifies this`presets
      ensures reply == EmptyName <==> NormalizeName(name) == []
      ensures reply.PresetRemoved? <==> NormalizeName(name) != [] && NormalizeName(name) in old(UserPresets(user))
      ensures reply.PresetRemoved? ==> presets == old(presets)[user := old(UserPresets(user)) - {NormalizeName(name)}]
      ensures !reply.PresetRemoved? ==> presets == old(presets)
    {
      var key := NormalizeName(name);
      if key == [] {
        return EmptyName;
      }
      var mine := UserPresets(user);
      if key !in mine {
        return NoSuchPreset;
      }
      presets := presets[user := mine - {key}];
      reply := PresetRemoved(key);
    }

    /**
     * `remindmeset publish`: the given duration, or the user's own preset
     * of that name, published with the user as owner.
     */
    method Publish(guild: int, user: int, name: string, duration: Option<string>, parse: string -> Option<int>)
      returns (reply: PresetReply)
      modifies this`published
      ensures reply == EmptyName <==> NormalizeName(name) == []
      ensures reply == NoPersonalPreset <==>
        NormalizeName(name) != [] && duration.None? && NormalizeName(name) !in old(UserPresets(user))
      ensures NormalizeName(name) != [] && (duration.Some? || NormalizeName(name) in old(UserPresets(user))) ==>
        var text := if duration.Some? then duration.value else old(UserPresets(user))[NormalizeName(name)];
        reply == if ParseDuration(text, parse).Some? then PresetSaved(NormalizeName(name)) else InvalidDuration
      ensures reply.PresetSaved? ==>
        && reply.key == NormalizeName(name)
        && var text := if duration.Some? then duration.value else old(UserPresets(user))[reply.key];
        && ParseDuration(text, parse).Some?
        && published == old(published)[guild := old(GuildPresets(guild))[reply.key := Published(Some(Strip(text)), None, Some(user))]]
      ensures !reply.PresetSaved? ==> published == old(published)
    {
      var key := NormalizeName(name);
      if key == [] {
        return EmptyName;
      }
      var text: string;
      if duration.None? {
        var mine := UserPresets(user);
        if key !in mine {
          return NoPersonalPreset;
        }
        text := mine[key];
      } else {
        text := duration.value;
      }
      if ParseDuration(text, parse).None? {
        return InvalidDuration;
      }
      published := published[guild := GuildPresets(guild)[key := Published(Some(Strip(text)), None, Some(user))]];
      reply := PresetSaved(key);
    }

    /** `remindmeset unpublish`: only the preset's owner or a member with manage_guild may remove it. */
    method Unpublish(guild: int, user: int, name: string, manageGuild: bool) returns (reply: PresetReply)
      modifies this`published
      ensures reply == EmptyName <==> NormalizeName(name) == []
      ensures reply.PresetRemoved? <==>
        && NormalizeName(name) != [] && NormalizeName(name) in old(GuildPresets(guild))
        && (EntryOwner(old(GuildPresets(guild))[NormalizeName(name)]) == Some(user) || manageGuild)
      ensures reply == NotAllowed ==>
        NormalizeName(name) in old(GuildPresets(guild)) &&
        EntryOwner(old(GuildPresets(guild))[NormalizeName(name)]) != Some(user) && !manageGuild
      ensures reply.PresetRemoved? ==>
        published == old(published)[guild := old(GuildPresets(guild)) - {NormalizeName(name)}]
      ensures !reply.PresetRemoved? ==> published == old(published)
    {
      var key := NormalizeName(name);
      if key == [] {
        return EmptyName;
      }
      var data := GuildPresets(guild);
      if key !in data {
        return NoSuchPreset;
      }
      if EntryOwner(data[key]) != Some(user) && !manageGuild {
        return NotAllowed;
      }
      published := published[guild := data - {key}];
      reply := PresetRemoved(key);
    }
  }

  /** A timer with the id at `i`, after none with it, is the first one. */
  lemma {:induction false} IndexOfIdAt(timers: seq<Timer>, id: string, i: nat)
    requires i < |timers| && timers[i].id == id
    requires forall j :: 0 <= j < i ==> timers[j].id != id
    ensures IndexOfId(timers, id) == i
  {
    if i > 0 {
      IndexOfIdAt(timers[1..], id, i - 1);
    }
  }
}
