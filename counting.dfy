/**
 * The counting cog: one record per counting channel, the `on_message`
 * handler that judges every message posted there, and the `countingset`
 * commands that change a channel's settings.
 *
 * The value a message parses to (a number or an arithmetic expression) is
 * an input: `None` when it does not parse, otherwise the integer it stands
 * for.
 */
module Counting {
  import opened Wrappers

  /** A channel's entry in the guild's `channels` setting. */
  datatype Config = Config(
    enabled: bool,
    current: int,
    goal: Option<int>,
    goalInterval: Option<int>,
    lastAnnouncedGoal: Option<int>,
    lastUser: Option<int>,
    maxConsecutive: int,
    ruinEnabled: bool,
    ruinMessage: string,
    reactionsEnabled: bool,
    highestRecord: int,
    consecutiveCount: int,
    consecutiveUser: Option<int>)

  const MaxRuinMessage := 2000

  const DefaultRuinMessage: string :=
    "\U{1F4A5} **The count was ruined!** The count has been reset to 0. Next count will be 1."

  function Max(a: int, b: int): int { if a >= b then a else b }

  /**
   * What the commands allow: a count and a record that are not negative, a
   * streak limit of at least one, goals and intervals that are absent or
   * positive, a streak count that is zero exactly when nobody holds the
   * streak, and a ruin message of at most 2000 characters.
   */
  predicate Sane(c: Config)
  {
    && c.current >= 0
    && c.highestRecord >= 0
    && c.maxConsecutive >= 1
    && (c.goal.Some? ==> c.goal.value > 0)
    && (c.goalInterval.Some? ==> c.goalInterval.value > 0)
    && c.consecutiveCount >= 0
    && (c.consecutiveUser.None? <==> c.consecutiveCount == 0)
    && |c.ruinMessage| <= MaxRuinMessage
  }

  /** The record `countingset channel` creates for a new channel. */
  function Fresh(): (c: Config)
    ensures Sane(c) && c.enabled && c.current == 0 && c.highestRecord == 0
    ensures c.maxConsecutive == 1 && !c.ruinEnabled && c.reactionsEnabled
    ensures c.goal.None? && c.goalInterval.None? && c.lastUser.None? && c.consecutiveUser.None?
  {
    Config(true, 0, None, None, None, None, 1, false, DefaultRuinMessage, true, 0, 0, None)
  }

  /** The highest record raised to the current count if the count beat it. */
  function Recorded(c: Config): (r: Config)
    ensures r == c.(highestRecord := Max(c.highestRecord, c.current))
  {
    if c.current > c.highestRecord then c.(highestRecord := c.current) else c
  }

  /** The count restarted after `restart`: nobody counted last and no goal was announced. */
  function Restarted(c: Config, restart: int): (r: Config)
    ensures r.current == restart && r.lastUser.None? && r.lastAnnouncedGoal.None?
    ensures r.consecutiveUser.None? && r.consecutiveCount == 0
    // the settings and the record are kept
    ensures r.enabled == c.enabled && r.goal == c.goal && r.goalInterval == c.goalInterval
    ensures r.maxConsecutive == c.maxConsecutive && r.ruinEnabled == c.ruinEnabled
    ensures r.ruinMessage == c.ruinMessage && r.reactionsEnabled == c.reactionsEnabled
    ensures r.highestRecord == c.highestRecord
  {
    c.(current := restart, lastUser := None, consecutiveCount := 0, consecutiveUser := None,
       lastAnnouncedGoal := None)
  }

  /** How a message is judged. */
  datatype Verdict = NotANumber | WrongNumber | SameUser | StreakFull | Accepted

  function Judge(c: Config, author: int, parsed: Option<int>): (r: Verdict)
    ensures r == NotANumber <==> parsed.None?
    ensures r == WrongNumber <==> parsed.Some? && parsed.value != c.current + 1
    ensures r == Accepted ==>
      && parsed == Some(c.current + 1)
      && (c.maxConsecutive == 1 ==> c.lastUser != Some(author))
      && (c.maxConsecutive != 1 && c.consecutiveUser == Some(author) ==> c.consecutiveCount < c.maxConsecutive)
  {
    if parsed.None? then NotANumber
    else if parsed.value != c.current + 1 then WrongNumber
    else if c.maxConsecutive == 1 && c.lastUser == Some(author) then SameUser
    else if c.maxConsecutive != 1 && c.consecutiveUser == Some(author) && c.consecutiveCount >= c.maxConsecutive then StreakFull
    else Accepted
  }

  /**
   * What the handler does with a message: nothing; delete it (after
   * sending the ruin message naming the count `count` that was lost, when
   * `ruined`); or count it, queueing a check-mark reaction when `react` and
   * announcing the goal `announce`.
   */
  datatype Outcome = Ignored | Deleted(ruined: bool, count: int) | Counted(react: bool, announce: Option<int>)

  /** `n` rounded down to a multiple of `interval`. */
  function Milestone(n: int, interval: int): (m: int)
    requires interval > 0
    ensures m == n - n % interval && m <= n < m + interval
  {
    n - n % interval
  }

  /** `(n // interval) * interval` is that milestone. */
  lemma FloorMultiple(n: int, interval: int)
    requires interval > 0
    ensures (n / interval) * interval == Milestone(n, interval)
  {
    var q := n / interval;
    assert n == interval * q + n % interval;
  }

  /** A multiple of the goal interval other than the last announced goal was reached. */
  predicate NewMilestone(n: int, interval: Option<int>, last: Option<int>)
  {
    interval.Some? && interval.value > 0 && Milestone(n, interval.value) > 0
    && Some(Milestone(n, interval.value)) != last
  }

  /** The fixed goal was reached and is not the last announced goal. */
  predicate GoalReached(n: int, goal: Option<int>, last: Option<int>)
  {
    goal.Some? && goal.value != 0 && n >= goal.value && goal != last
  }

  /**
   * The goal announced when the count reaches `n`: the fixed goal takes
   * precedence over a milestone, and nothing already announced last is
   * announced again.
   */
  function Announcement(n: int, goal: Option<int>, interval: Option<int>, last: Option<int>): (r: Option<int>)
    ensures r.Some? ==> r != last
    ensures r.Some? ==> (r == goal && n >= goal.value) || (interval.Some? && interval.value > 0 && r.value == Milestone(n, interval.value) > 0)
    ensures r.None? <==> !GoalReached(n, goal, last) && !NewMilestone(n, interval, last)
  {
    if GoalReached(n, goal, last) then goal
    else if NewMilestone(n, interval, last) then Some(Milestone(n, interval.value))
    else None
  }

  /** The record after a wrong or unparsable message. */
  function Missed(c: Config): (r: Config)
    ensures r.highestRecord == Max(c.highestRecord, c.current) && r.highestRecord >= c.current
    ensures r.current == if c.ruinEnabled then 0 else c.current
    ensures !c.ruinEnabled ==> r.lastUser == c.lastUser && r.consecutiveUser == c.consecutiveUser
    ensures c.ruinEnabled ==> r.lastUser.None? && r.consecutiveUser.None? && r.consecutiveCount == 0
    ensures Sane(c) ==> Sane(r)
  {
    if c.ruinEnabled then Restarted(Recorded(c), 0) else Recorded(c)
  }

  /** The record after the accepted count `current + 1` by `author`. */
  function Advanced(c: Config, author: int): (r: Config)
    ensures r.current == c.current + 1 && r.lastUser == Some(author) && r.consecutiveUser == Some(author)
    ensures r.highestRecord >= r.current && r.highestRecord >= c.highestRecord
    ensures r.consecutiveCount == if c.consecutiveUser == Some(author) then c.consecutiveCount + 1 else 1
    ensures Sane(c) ==> Sane(r)
  {
    var n := c.current + 1;
    var a := Announcement(n, c.goal, c.goalInterval, c.lastAnnouncedGoal);
    c.(current := n, lastUser := Some(author), highestRecord := Max(c.highestRecord, n),
       consecutiveCount := if c.consecutiveUser == Some(author) then c.consecutiveCount + 1 else 1,
       consecutiveUser := Some(author),
       lastAnnouncedGoal := if a.Some? then a else c.lastAnnouncedGoal)
  }

  /** `on_message` on an enabled counting channel: the new record and what the handler does. */
  function Step(c: Config, author: int, parsed: Option<int>): (r: (Config, Outcome))
    ensures Sane(c) ==> Sane(r.0)
    ensures r.1 != Ignored
  {
    match Judge(c, author, parsed)
    case NotANumber => (Missed(c), Deleted(c.ruinEnabled, c.current))
    case WrongNumber => (Missed(c), Deleted(c.ruinEnabled, c.current))
    case SameUser => if c.ruinEnabled then (Missed(c), Deleted(true, c.current)) else (c, Deleted(false, c.current))
    case StreakFull => (c, Deleted(false, c.current))
    case Accepted =>
      (Advanced(c, author),
       Counted(c.reactionsEnabled, Announcement(c.current + 1, c.goal, c.goalInterval, c.lastAnnouncedGoal)))
  }

  /**
   * A message is counted exactly when it is the next number and its
   * author is not blocked by the same-user rule or the streak limit; the
   * count then goes up by one, the author becomes the last user and the
   * record is the larger of the old record and the new count.
   */
  lemma CountAccepted(c: Config, author: int, parsed: Option<int>)
    ensures Step(c, author, parsed).1.Counted? <==>
      && parsed == Some(c.current + 1)
      && !(c.maxConsecutive == 1 && c.lastUser == Some(author))
      && !(c.maxConsecutive != 1 && c.consecutiveUser == Some(author) && c.consecutiveCount >= c.maxConsecutive)
    ensures Step(c, author, parsed).1.Counted? ==>
      var d := Step(c, author, parsed).0;
      && d.current == c.current + 1
      && d.lastUser == Some(author)
      && d.highestRecord == Max(c.highestRecord, c.current + 1)
      && d.consecutiveUser == Some(author)
      && d.consecutiveCount == (if c.consecutiveUser == Some(author) then c.consecutiveCount + 1 else 1)
      && Step(c, author, parsed).1.react == c.reactionsEnabled
  {
  }

  /**
   * An unparsable or wrong number is deleted and raises the record to the
   * count if the count beat it; with ruin enabled the count restarts at
   * zero with nobody as last user or streak holder and no goal announced,
   * and without ruin the count stays.
   */
  lemma WrongNumberHandled(c: Config, author: int, parsed: Option<int>)
    requires parsed != Some(c.current + 1)
    ensures Step(c, author, parsed).1 == Deleted(c.ruinEnabled, c.current)
    ensures var d := Step(c, author, parsed).0;
      && d.highestRecord == Max(c.highestRecord, c.current)
      && (c.ruinEnabled ==> d.current == 0 && d.lastUser.None? && d.consecutiveCount == 0
                            && d.consecutiveUser.None? && d.lastAnnouncedGoal.None?)
      && (!c.ruinEnabled ==> d == c.(highestRecord := d.highestRecord))
  {
  }

  /**
   * With a streak limit of one, the last user counting again is deleted;
   * the record changes (ruined, with the record kept) only when ruin is
   * enabled.
   */
  lemma SameUserRejected(c: Config, author: int)
    requires c.maxConsecutive == 1 && c.lastUser == Some(author)
    ensures var r := Step(c, author, Some(c.current + 1));
      && r.1 == Deleted(c.ruinEnabled, c.current)
      && (c.ruinEnabled ==> r.0 == Restarted(c.(highestRecord := Max(c.highestRecord, c.current)), 0))
      && (!c.ruinEnabled ==> r.0 == c)
  {
  }

  /**
   * With a streak limit above one, the streak holder is refused once the
   * streak reached the limit, leaving everything as it was; below the
   * limit the streak grows by one, and another user starts a streak of one.
   */
  lemma StreakLimit(c: Config, author: int)
    requires c.maxConsecutive > 1
    ensures var r := Step(c, author, Some(c.current + 1));
      && (c.consecutiveUser == Some(author) && c.consecutiveCount >= c.maxConsecutive ==>
            r == (c, Deleted(false, c.current)))
      && (c.consecutiveUser == Some(author) && c.consecutiveCount < c.maxConsecutive ==>
            r.1.Counted? && r.0.consecutiveCount == c.consecutiveCount + 1)
      && (c.consecutiveUser != Some(author) ==>
            r.1.Counted? && r.0.consecutiveCount == 1 && r.0.consecutiveUser == Some(author))
  {
  }

  /**
   * An accepted count records what it announced as the last announced
   * goal, and a goal is never announced twice in a row.
   */
  lemma GoalAnnouncedOnce(c: Config, author: int)
    requires Step(c, author, Some(c.current + 1)).1.Counted?
    ensures var r := Step(c, author, Some(c.current + 1));
      && (r.1.announce.Some? ==> r.0.lastAnnouncedGoal == r.1.announce && r.1.announce != c.lastAnnouncedGoal)
      && (r.1.announce.None? ==> r.0.lastAnnouncedGoal == c.lastAnnouncedGoal)
  {
  }

  /** The goal check as the handler writes it: milestone first, then the fixed goal. */
  method GoalToAnnounce(n: int, goal: Option<int>, interval: Option<int>, last: Option<int>) returns (reached: Option<int>)
    ensures reached == Announcement(n, goal, interval, last)
  {
    reached := None;
    if interval.Some? && interval.value != 0 && interval.value > 0 {
      var milestone := (n / interval.value) * interval.value;
      FloorMultiple(n, interval.value);
      if milestone > 0 && Some(milestone) != last {
        reached := Some(milestone);
      }
    }
    if goal.Some? && goal.value != 0 && n >= goal.value && goal != reached {
      if goal != last {
        reached := goal;
      }
    }
  }

  /**
   * The handler's judgement of one message on an enabled counting channel,
   * step by step as the handler writes it.
   */
  method Judged(c0: Config, author: int, parsed: Option<int>) returns (c: Config, outcome: Outcome)
    ensures (c, outcome) == Step(c0, author, parsed)
  {
    c := c0;
    var current := c.current;
    var consecutiveCount := c.consecutiveCount;
    var consecutiveUser := c.consecutiveUser;
    // An unparsable message and a wrong number are handled alike.
    if parsed.None? || parsed.value != current + 1 {
      if current > c.highestRecord {
        c := c.(highestRecord := current);
      }
      if c.ruinEnabled {
        c := Restarted(c, 0);
      }
      return c, Deleted(c.ruinEnabled, current);
    }
    if c.maxConsecutive == 1 {
      if c.lastUser == Some(author) {
        if c.ruinEnabled {
          if current > c.highestRecord {
            c := c.(highestRecord := current);
          }
          c := Restarted(c, 0);
        }
        return c, Deleted(c.ruinEnabled, current);
      }
    } else {
      if consecutiveUser == Some(author) {
        if consecutiveCount >= c.maxConsecutive {
          return c, Deleted(false, current);
        }
      } else {
        consecutiveCount := 0;
      }
    }
    var n := parsed.value;
    c := c.(current := n, lastUser := Some(author));
    if n > c.highestRecord {
      c := c.(highestRecord := n);
    }
    if consecutiveUser == Some(author) {
      consecutiveCount := consecutiveCount + 1;
    } else {
      consecutiveCount := 1;
      consecutiveUser := Some(author);
    }
    c := c.(consecutiveCount := consecutiveCount, consecutiveUser := consecutiveUser);
    var reached := GoalToAnnounce(n, c.goal, c.goalInterval, c.lastAnnouncedGoal);
    if reached.Some? {
      c := c.(lastAnnouncedGoal := reached);
    }
    outcome := Counted(c.reactionsEnabled, reached);
  }

  /** Replies of the `countingset` commands. */
  datatype Reply = Done | OutOfRange | NotConfigured

  /** A counting channel: guild id and channel id. */
  type Where = (int, int)

  class CountingCog {
    var channels: map<Where, Config>

    ghost predicate Valid()
      reads this
    {
      forall k :: k in channels ==> Sane(channels[k])
    }

    constructor ()
      ensures Valid() && channels == map[]
    {
      channels := map[];
    }

    /**
     * `on_message`: bots, direct messages and channels that are not enabled
     * for counting are ignored; otherwise the channel's record moves as
     * `Step` says.
     */
    method OnMessage(guild: Option<int>, channel: int, author: int, authorIsBot: bool, parsed: Option<int>)
      returns (outcome: Outcome)
      requires Valid()
      modifies this
      ensures Valid()
      ensures authorIsBot || guild.None? || (guild.value, channel) !in old(channels)
              || !old(channels)[(guild.value, channel)].enabled ==>
        channels == old(channels) && outcome == Ignored
      ensures !authorIsBot && guild.Some? && (guild.value, channel) in old(channels)
              && old(channels)[(guild.value, channel)].enabled ==>
        var r := Step(old(channels)[(guild.value, channel)], author, parsed);
        channels == old(channels)[(guild.value, channel) := r.0] && outcome == r.1
    {
      if authorIsBot || guild.None? {
        return Ignored;
      }
      var k := (guild.value, channel);
      if k !in channels || !channels[k].enabled {
        return Ignored;
      }
      var c;
      c, outcome := Judged(channels[k], author, parsed);
      channels := channels[k := c];
    }

    /** `countingset channel`: create the record, or re-enable an existing one. */
    method SetChannel(k: Where)
      requires Valid()
      modifies this
      ensures Valid()
      ensures k !in old(channels) ==> channels == old(channels)[k := Fresh()]
      ensures k in old(channels) ==> channels == old(channels)[k := old(channels)[k].(enabled := true)]
    {
      if k !in channels {
        channels := channels[k := Fresh()];
      } else {
        channels := channels[k := channels[k].(enabled := true)];
      }
    }

    /** `countingset disable`. */
    method Disable(k: Where) returns (reply: Reply)
      requires Valid()
      modifies this
      ensures Valid()
      ensures reply == (if k in old(channels) then Done else NotConfigured)
      ensures k in old(channels) ==> channels == old(channels)[k := old(channels)[k].(enabled := false)]
      ensures k !in old(channels) ==> channels == old(channels)
    {
      if k !in channels {
        return NotConfigured;
      }
      channels := channels[k := channels[k].(enabled := false)];
      reply := Done;
    }

    /** `countingset goal`: negative goals are refused; 0 or no goal means no goal. */
    method SetGoal(k: Where, goal: Option<int>) returns (reply: Reply)
      requires Valid()
      modifies this
      ensures Valid()
      ensures reply == (if goal.Some? && goal.value < 0 then OutOfRange
                        else if k !in old(channels) then NotConfigured else Done)
      ensures reply == Done ==>
        channels == old(channels)[k := old(channels)[k].(goal := if goal == Some(0) then None else goal)]
      ensures reply != Done ==> channels == old(channels)
    {
      if goal.Some? && goal.value < 0 {
        return OutOfRange;
      }
      if k !in channels {
        return NotConfigured;
      }
      var value := if goal == Some(0) then None else goal;
      channels := channels[k := channels[k].(goal := value)];
      reply := Done;
    }

    /**
     * `countingset goalinterval`: negative intervals are refused; 0 or none
     * turns milestones off; any change forgets the last announced goal.
     */
    method SetGoalInterval(k: Where, interval: Option<int>) returns (reply: Reply)
      requires Valid()
      modifies this
      ensures Valid()
      ensures reply == (if interval.Some? && interval.value < 0 then OutOfRange
                        else if k !in old(channels) then NotConfigured else Done)
      ensures reply == Done ==>
        channels == old(channels)[k := old(channels)[k].(goalInterval := if interval == Some(0) then None else interval,
                                                         lastAnnouncedGoal := None)]
      ensures reply != Done ==> channels == old(channels)
    {
      if interval.Some? && interval.value < 0 {
        return OutOfRange;
      }
      if k !in channels {
        return NotConfigured;
      }
      var value := if interval == Some(0) then None else interval;
      channels := channels[k := channels[k].(goalInterval := value, lastAnnouncedGoal := None)];
      reply := Done;
    }

    /** `countingset reset`: the next count is 1 and anyone may make it. */
    method ResetCount(k: Where) returns (reply: Reply)
      requires Valid()
      modifies this
      ensures Valid()
      ensures reply == (if k in old(channels) then Done else NotConfigured)
      ensures reply == Done ==> channels == old(channels)[k := Restarted(old(channels)[k], 0)]
      ensures reply != Done ==> channels == old(channels)
    {
      if k !in channels {
        return NotConfigured;
      }
      channels := channels[k := Restarted(channels[k], 0)];
      reply := Done;
    }

    /** `countingset setnext`: next numbers below 1 are refused; the count becomes `next - 1`. */
    method SetNextNumber(k: Where, next: int) returns (reply: Reply)
      requires Valid()
      modifies this
      ensures Valid()
      ensures reply == (if next < 1 then OutOfRange else if k !in old(channels) then NotConfigured else Done)
      ensures reply == Done ==> channels == old(channels)[k := Restarted(old(channels)[k], next - 1)]
      ensures reply != Done ==> channels == old(channels)
    {
      if next < 1 {
        return OutOfRange;
      }
      if k !in channels {
        return NotConfigured;
      }
      channels := channels[k := Restarted(channels[k], next - 1)];
      reply := Done;
    }

    /** `countingset consecutive`: limits below 1 are refused. */
    method SetConsecutive(k: Where, maxCount: int) returns (reply: Reply)
      requires Valid()
      modifies this
      ensures Valid()
      ensures reply == (if maxCount < 1 then OutOfRange else if k !in old(channels) then NotConfigured else Done)
      ensures reply == Done ==> channels == old(channels)[k := old(channels)[k].(maxConsecutive := maxCount)]
      ensures reply != Done ==> channels == old(channels)
    {
      if maxCount < 1 {
        return OutOfRange;
      }
      if k !in channels {
        return NotConfigured;
      }
      channels := channels[k := channels[k].(maxConsecutive := maxCount)];
      reply := Done;
    }

    /** `countingset ruin`. */
    method SetRuin(k: Where, enable: bool) returns (reply: Reply)
      requires Valid()
      modifies this
      ensures Valid()
      ensures reply == (if k in old(channels) then Done else NotConfigured)
      ensures reply == Done ==> channels == old(channels)[k := old(channels)[k].(ruinEnabled := enable)]
      ensures reply != Done ==> channels == old(channels)
    {
      if k !in channels {
        return NotConfigured;
      }
      channels := channels[k := channels[k].(ruinEnabled := enable)];
      reply := Done;
    }

    /** `countingset ruinmessage`: messages over 2000 characters are refused. */
    method SetRuinMessage(k: Where, message: string) returns (reply: Reply)
      requires Valid()
      modifies this
      ensures Valid()
      ensures reply == (if |message| > MaxRuinMessage then OutOfRange
                        else if k !in old(channels) then NotConfigured else Done)
      ensures reply == Done ==> channels == old(channels)[k := old(channels)[k].(ruinMessage := message)]
      ensures reply != Done ==> channels == old(channels)
    {
      if |message| > MaxRuinMessage {
        return OutOfRange;
      }
      if k !in channels {
        return NotConfigured;
      }
      channels := channels[k := channels[k].(ruinMessage := message)];
      reply := Done;
    }

    /** `countingset reactions`. */
    method SetReactions(k: Where, enable: bool) returns (reply: Reply)
      requires Valid()
      modifies this
      ensures Valid()
      ensures reply == (if k in old(channels) then Done else NotConfigured)
      ensures reply == Done ==> channels == old(channels)[k := old(channels)[k].(reactionsEnabled := enable)]
      ensures reply != Done ==> channels == old(channels)
    {
      if k !in channels {
        return NotConfigured;
      }
      channels := channels[k := channels[k].(reactionsEnabled := enable)];
      reply := Done;
    }

    /** `countingset setrecord`: negative records are refused. */
    method SetRecord(k: Where, record: int) returns (reply: Reply)
      requires Valid()
      modifies this
      ensures Valid()
      ensures reply == (if record < 0 then OutOfRange else if k !in old(channels) then NotConfigured else Done)
      ensures reply == Done ==> channels == old(channels)[k := old(channels)[k].(highestRecord := record)]
      ensures reply != Done ==> channels == old(channels)
    {
      if record < 0 {
        return OutOfRange;
      }
      if k !in channels {
        return NotConfigured;
      }
      channels := channels[k := channels[k].(highestRecord := record)];
      reply := Done;
    }

    /** `countingset removerecord`: the record goes back to 0. */
    method RemoveRecord(k: Where) returns (reply: Reply)
      requires Valid()
      modifies this
      ensures Valid()
      ensures reply == (if k in old(channels) then Done else NotConfigured)
      ensures reply == Done ==> channels == old(channels)[k := old(channels)[k].(highestRecord := 0)]
      ensures reply != Done ==> channels == old(channels)
    {
      if k !in channels {
        return NotConfigured;
      }
      channels := channels[k := channels[k].(highestRecord := 0)];
      reply := Done;
    }
  }
}
