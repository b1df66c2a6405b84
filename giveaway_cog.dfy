/**
 * The giveaway cog's state: the per-guild record store, the in-memory timer
 * table `_end_tasks`, and the builder drafts, with the event and command
 * handlers that change them.
 */
module GiveawayCogs {
  import opened Wrappers
  import opened Text
  import opened Seqs
  import opened GiveawayParse
  import opened Giveaways

  /** A giveaway's place in the store: guild id and message id. */
  datatype GKey = GKey(guild: int, message: int)

  /** Keys of `_end_tasks`: `(guild, msg)` for the end timer, `(guild, msg, "claim")` for the claim timer. */
  datatype TaskKey = EndKey(gk: GKey) | ClaimKey(gk: GKey)

  /** A scheduled task that has not finished: its key, when it wakes, and whether `cancel()` was called on it. */
  datatype Timer = Timer(key: TaskKey, due: int, cancelled: bool)

  /**
   * The timer table is accurate: every key names an unfinished, uncancelled
   * task scheduled under that key, and every unfinished, uncancelled task is
   * the one its key names.
   */
  predicate Tracked(tasks: map<TaskKey, nat>, timers: map<nat, Timer>)
  {
    && (forall k :: k in tasks ==> tasks[k] in timers && timers[tasks[k]].key == k && !timers[tasks[k]].cancelled)
    && (forall id :: id in timers && !timers[id].cancelled ==> timers[id].key in tasks && tasks[timers[id].key] == id)
  }

  /** In an accurate table no two live tasks share a key. */
  lemma TrackedOnePerKey(tasks: map<TaskKey, nat>, timers: map<nat, Timer>, a: nat, b: nat)
    requires Tracked(tasks, timers)
    requires a in timers && b in timers && !timers[a].cancelled && !timers[b].cancelled
    requires timers[a].key == timers[b].key
    ensures a == b
  {
  }

  /** `task.cancel()` on every task scheduled under one of `keys`. */
  function CancelKeys(timers: map<nat, Timer>, keys: set<TaskKey>): (r: map<nat, Timer>)
    ensures r.Keys == timers.Keys
    ensures forall t :: t in r ==> r[t].key == timers[t].key
  {
    map t | t in timers :: if timers[t].key in keys then timers[t].(cancelled := true) else timers[t]
  }

  /**
   * Popping a key and cancelling the timer task it names cancels every task of
   * that key (the others were cancelled already), and keeps the table
   * accurate.
   */
  lemma PopCancelTracked(tasks: map<TaskKey, nat>, timers: map<nat, Timer>, key: TaskKey)
    requires Tracked(tasks, timers)
    ensures key in tasks ==> CancelKeys(timers, {key}) == timers[tasks[key] := timers[tasks[key]].(cancelled := true)]
    ensures key !in tasks ==> CancelKeys(timers, {key}) == timers
    ensures Tracked(tasks - {key}, CancelKeys(timers, {key}))
  {
    var r := CancelKeys(timers, {key});
    forall t | t in timers && timers[t].key == key && !(key in tasks && tasks[key] == t)
      ensures timers[t].cancelled
    {
    }
    if key in tasks {
      var u := timers[tasks[key] := timers[tasks[key]].(cancelled := true)];
      assert forall t :: t in r ==> r[t] == u[t];
    } else {
      assert forall t :: t in r ==> r[t] == timers[t];
    }
  }

  /** Storing a fresh task under a key no live task holds keeps the table accurate. */
  lemma ArmTracked(tasks: map<TaskKey, nat>, timers: map<nat, Timer>, key: TaskKey, id: nat, due: int)
    requires Tracked(tasks, timers) && key !in tasks && id !in timers
    ensures Tracked(tasks[key := id], timers[id := Timer(key, due, false)])
  {
  }

  /** Cancelling two key sets in turn is cancelling their union. */
  lemma CancelKeysTwice(timers: map<nat, Timer>, a: set<TaskKey>, b: set<TaskKey>)
    ensures CancelKeys(CancelKeys(timers, a), b) == CancelKeys(timers, a + b)
  {
    var l := CancelKeys(CancelKeys(timers, a), b);
    var r := CancelKeys(timers, a + b);
    assert forall t :: t in l ==> l[t] == r[t];
  }

  /**
   * The `finally` of a timer task as the source writes it: pop the timer task's
   * key whatever task the key names by then.
   */
  function FinishAsWritten(tasks: map<TaskKey, nat>, timers: map<nat, Timer>, id: nat): (r: (map<TaskKey, nat>, map<nat, Timer>))
    requires id in timers
    ensures r.0 == tasks - {timers[id].key} && r.1 == timers - {id}
  {
    (tasks - {timers[id].key}, timers - {id})
  }

  /** The `finally` as intended: pop the key only while it still names this task. */
  function Finish(tasks: map<TaskKey, nat>, timers: map<nat, Timer>, id: nat): (r: (map<TaskKey, nat>, map<nat, Timer>))
    requires id in timers
    ensures r.1 == timers - {id}
    ensures forall k :: k in r.0 ==> k in tasks && r.0[k] == tasks[k]
    ensures forall k :: k in tasks && tasks[k] != id ==> k in r.0
    ensures timers[id].key in tasks && tasks[timers[id].key] == id ==> timers[id].key !in r.0
  {
    var key := timers[id].key;
    (if key in tasks && tasks[key] == id then tasks - {key} else tasks, timers - {id})
  }

  /** A task finishing, cancelled or not, leaves an accurate table accurate. */
  lemma FinishKeepsTracked(tasks: map<TaskKey, nat>, timers: map<nat, Timer>, id: nat)
    requires Tracked(tasks, timers) && id in timers
    ensures Tracked(Finish(tasks, timers, id).0, Finish(tasks, timers, id).1)
  {
    var (t, m) := Finish(tasks, timers, id);
    forall k | k in t ensures t[k] in m && m[t[k]].key == k && !m[t[k]].cancelled {
      assert tasks[k] != id;
    }
  }

  /**
   * The source's `finally` loses a live task: a replaced timer that was
   * cancelled finishes after its replacement was stored and pops the
   * replacement's key, leaving a live task that no key names.
   */
  lemma OrphanedTimer()
    ensures var key := EndKey(GKey(1, 2));
      var tasks := map[key := 1];
      var timers := map[0 := Timer(key, 600, true), 1 := Timer(key, 7200, false)];
      && Tracked(tasks, timers)
      && !Tracked(FinishAsWritten(tasks, timers, 0).0, FinishAsWritten(tasks, timers, 0).1)
      && Tracked(Finish(tasks, timers, 0).0, Finish(tasks, timers, 0).1)
  {
    var key := EndKey(GKey(1, 2));
    var tasks := map[key := 1];
    var timers := map[0 := Timer(key, 600, true), 1 := Timer(key, 7200, false)];
    var after := FinishAsWritten(tasks, timers, 0);
    assert 1 in after.1 && !after.1[1].cancelled && key !in after.0;
    FinishKeepsTracked(tasks, timers, 0);
  }
  /**
   * The source's `finally` on an accurate table: when the timer task's key names
   * another task, popping it leaves that task live and untracked.
   */
  lemma Orphaned(tasks: map<TaskKey, nat>, timers: map<nat, Timer>, id: nat, other: nat)
    requires Tracked(tasks, timers) && id in timers && timers[id].key in tasks
    requires tasks[timers[id].key] == other && other != id
    ensures !Tracked(FinishAsWritten(tasks, timers, id).0, FinishAsWritten(tasks, timers, id).1)
  {
    var after := FinishAsWritten(tasks, timers, id);
    assert other in after.1 && !after.1[other].cancelled && timers[id].key !in after.0;
  }


  /** The fields the builder stores in a draft, one per key it writes. */
  datatype DraftField = PrizesField | PrizeField | DescriptionField | WinnerCountField | DurationField
                      | EmojiField | ClaimEnabledField | ClaimSecondsField | ChannelField

  /** What a builder draft field may hold. */
  datatype DraftValue = Num(n: int) | Str(s: string) | Strs(items: seq<string>) | Flag(b: bool) | Null

  /** Python truthiness of a draft value. */
  predicate Truthy(v: DraftValue)
  {
    match v
    case Num(n) => n != 0
    case Str(s) => s != []
    case Strs(items) => items != []
    case Flag(b) => b
    case Null => false
  }

  /** `draft.get(key) or 0`, for the integer fields. */
  function DraftInt(d: map<DraftField, DraftValue>, key: DraftField): (n: int)
    ensures key in d && d[key].Num? ==> n == d[key].n
    ensures !(key in d && d[key].Num?) ==> n == 0
  {
    if key in d && d[key].Num? then d[key].n else 0
  }

  /** The draft's prizes, read as `_prizes_list` reads a record. */
  function DraftPrizes(d: map<DraftField, DraftValue>): (r: seq<string>)
    ensures forall k :: 0 <= k < |r| ==> r[k] != [] && Strip(r[k]) == r[k]
  {
    PrizesList(if PrizesField in d && d[PrizesField].Strs? then d[PrizesField].items else [],
               if PrizeField in d && d[PrizeField].Str? then Some(d[PrizeField].s) else None)
  }

  /** The draft's description: blank or missing means none. */
  function DraftDescription(d: map<DraftField, DraftValue>): (r: Option<string>)
    ensures r.Some? ==> r.value != [] && Strip(r.value) == r.value
  {
    if DescriptionField in d && d[DescriptionField].Str? && Strip(d[DescriptionField].s) != [] then
      StripIdempotent(d[DescriptionField].s);
      Some(Strip(d[DescriptionField].s))
    else None
  }

  /** The draft's emoji, or the party popper. */
  function DraftEmoji(d: map<DraftField, DraftValue>): (r: string)
    ensures r != []
    ensures !(EmojiField in d && d[EmojiField].Str? && d[EmojiField].s != []) ==> r == DefaultEmoji
  {
    if EmojiField in d && d[EmojiField].Str? && d[EmojiField].s != [] then d[EmojiField].s else DefaultEmoji
  }

  /** The draft's winner count, read as `_winner_count` reads a record. */
  function DraftWinnerCount(d: map<DraftField, DraftValue>): (r: int)
    ensures 1 <= r <= MaxWinners
  {
    WinnerCount(if WinnerCountField in d && d[WinnerCountField].Num? then Some(d[WinnerCountField].n) else None)
  }

  /** A user's draft, empty when there is none. */
  function DraftOf(drafts: map<(int, int), map<DraftField, DraftValue>>, guild: int, user: int): map<DraftField, DraftValue>
  {
    if (guild, user) in drafts then drafts[(guild, user)] else map[]
  }

  /** The record `_launch_from_draft` stores for draft `d`. */
  function FromDraft(d: map<DraftField, DraftValue>, channel: int, host: int, now: int): (g: Giveaway)
    requires DraftPrizes(d) != []
    ensures WellFormed(g) && g.status == Active
  {
    var prizes := DraftPrizes(d);
    StrippedNonBlankKeeps(prizes);
    Fresh(channel, host, prizes, DraftDescription(d), now + DraftInt(d, DurationField), DraftEmoji(d),
          DraftWinnerCount(d), ClaimEnabledField in d && Truthy(d[ClaimEnabledField]), DraftInt(d, ClaimSecondsField))
  }

  /** The stored record carries the draft's settings, read with the source's fallbacks. */
  lemma FromDraftFields(d: map<DraftField, DraftValue>, channel: int, host: int, now: int)
    requires DraftPrizes(d) != []
    ensures var g := FromDraft(d, channel, host, now);
      && g.entries == [] && Winners(g) == [] && g.channelId == channel && g.hostId == host
      && Prizes(g) == DraftPrizes(d) && g.emoji == DraftEmoji(d) && Count(g) == DraftWinnerCount(d)
      && g.endTs == now + DraftInt(d, DurationField) && g.description == DraftDescription(d)
      && g.claimEnabled == (ClaimEnabledField in d && Truthy(d[ClaimEnabledField]))
      && g.claimSeconds == DraftInt(d, ClaimSecondsField)
  {
    StrippedNonBlankKeeps(DraftPrizes(d));
  }

  /** What `giveaway start` decided before sending: a refusal, or the options and the channel. */
  datatype StartPlan = Rejected(reply: StartReply) | Accepted(options: StartOptions, channel: int)

  /** The argument checks of `giveaway start`, in the order it makes them. */
  function PlanStart(rest: string, duration: int, claimDuration: string -> Option<int>,
                     textChannels: map<int, bool>, currentChannel: int, currentIsText: bool): (p: StartPlan)
    requires forall v :: claimDuration(v).Some? ==> claimDuration(v).value >= 0
    ensures p.Rejected? ==> !p.reply.Started? && p.reply != SendFailed
    ensures Strip(rest) == [] ==> p == Rejected(NoPrize)
    ensures Strip(rest) != [] && duration < 60 ==> p == Rejected(TooShort)
    ensures p.Accepted? ==>
      && Strip(rest) != [] && duration >= 60
      && p.options == StartOptionsOf(rest, claimDuration)
      && p.options.prizes != [] && OptionsInvariant(p.options)
    ensures p.Accepted? && p.options.channelRaw.Some? ==> p.channel in textChannels && textChannels[p.channel]
    ensures p.Accepted? && p.options.channelRaw.None? ==> p.channel == currentChannel && currentIsText
  {
    if Strip(rest) == [] then Rejected(NoPrize)
    else if duration < 60 then Rejected(TooShort)
    else
      var o := StartOptionsOf(rest, claimDuration);
      StartOptionsWellFormed(rest, claimDuration);
      if o.prizes == [] then Rejected(NoPrizes)
      else if o.channelRaw.Some? then
        match ResolveChannel(o.channelRaw.value, textChannels)
        case None => Rejected(InvalidChannel)
        case Some(c) => Accepted(o, c)
      else if currentIsText then Accepted(o, currentChannel)
      else Rejected(NotTextChannel)
  }

  /** The record `giveaway start` stores; claiming is on when the claim window is at least a minute. */
  function FromOptions(o: StartOptions, channel: int, host: int, endTs: int): (g: Giveaway)
    requires o.prizes != [] && OptionsInvariant(o)
    ensures WellFormed(g) && g.status == Active
  {
    Fresh(channel, host, o.prizes, o.description, endTs, if o.emoji == [] then DefaultEmoji else o.emoji,
          o.winners, o.claimSeconds >= 60, o.claimSeconds)
  }

  /** An unclaimed ended giveaway whose claim window survives a restart. */
  predicate ReloadsClaim(g: Giveaway)
  {
    g.status == Ended && !g.claimed && g.claimEnabled && g.claimDeadline.Some? && g.claimDeadline.value != 0
  }

  /** Replies of the host commands. */
  datatype CommandReply = NotAGiveaway | CannotManage | WrongStatus | NoOtherEntries | NothingToEdit | Done

  /** Replies of `giveaway start`. */
  datatype StartReply = NoPrize | TooShort | NoPrizes | InvalidChannel | NotTextChannel | SendFailed | Started(key: GKey)

  /** Replies of the builder's launch. */
  datatype LaunchReply = LaunchNoPrize | LaunchSendFailed | Launched(key: GKey)

  /** The stored record carries the parsed options; claiming is on when the claim window is at least a minute. */
  lemma FromOptionsFields(o: StartOptions, channel: int, host: int, endTs: int)
    requires o.prizes != [] && OptionsInvariant(o)
    ensures var g := FromOptions(o, channel, host, endTs);
      && g.entries == [] && Winners(g) == [] && g.channelId == channel && g.hostId == host
      && g.prizes == o.prizes && Count(g) == o.winners && g.endTs == endTs && g.description == o.description
      && g.emoji == o.emoji
      && (g.claimEnabled <==> o.claimSeconds >= 60)
      && g.claimSeconds == o.claimSeconds
  {
  }

  class GiveawayCog {
    var giveaways: map<GKey, Giveaway>
    var endTasks: map<TaskKey, nat>
    var timers: map<nat, Timer>
    var nextTimer: nat
    var drafts: map<(int, int), map<DraftField, DraftValue>>

    ghost predicate Valid()
      reads this`giveaways, this`endTasks, this`timers, this`nextTimer
    {
      StoreOk() && TimersOk()
    }

    /** Every stored record is well formed. */
    ghost predicate StoreOk()
      reads this`giveaways
    {
      forall k :: k in giveaways ==> WellFormed(giveaways[k])
    }

    /** The timer table is accurate and every timer id was handed out. */
    ghost predicate TimersOk()
      reads this`endTasks, this`timers, this`nextTimer
    {
      Tracked(endTasks, timers) && (forall id :: id in timers ==> id < nextTimer)
    }

    /** The live task scheduled under `key` wakes at `due`. */
    ghost predicate Armed(key: TaskKey, due: int)
      reads this`endTasks, this`timers
    {
      key in endTasks && endTasks[key] in timers && timers[endTasks[key]].due == due
    }

    /** Every live timer of `gk` is `id`. */
    ghost predicate OnlyLive(gk: GKey, id: nat)
      reads this`timers
    {
      forall t :: t in timers && !timers[t].cancelled && timers[t].key.gk == gk ==> t == id
    }

    constructor ()
      ensures Valid()
      ensures giveaways == map[] && endTasks == map[] && timers == map[] && drafts == map[]
    {
      giveaways := map[];
      endTasks := map[];
      timers := map[];
      nextTimer := 0;
      drafts := map[];
    }

    /** Write one record back to the store. */
    method Put(gk: GKey, g: Giveaway)
      requires StoreOk() && WellFormed(g)
      modifies this`giveaways
      ensures StoreOk()
      ensures giveaways == old(giveaways)[gk := g]
    {
      giveaways := giveaways[gk := g];
    }

    /** Pop `key` from the table and cancel the timer task it named. */
    method PopAndCancel(key: TaskKey)
      requires TimersOk()
      modifies this`endTasks, this`timers
      ensures TimersOk()
      ensures endTasks == old(endTasks) - {key}
      ensures timers == CancelKeys(old(timers), {key})
    {
      PopCancelTracked(endTasks, timers, key);
      if key in endTasks {
        var id := endTasks[key];
        endTasks := endTasks - {key};
        timers := timers[id := timers[id].(cancelled := true)];
      }
    }

    /** `_cancel_tasks_for`: pop and cancel both timers of a giveaway. */
    method CancelTasksFor(gk: GKey)
      requires TimersOk()
      modifies this`endTasks, this`timers
      ensures TimersOk()
      ensures endTasks == old(endTasks) - {EndKey(gk), ClaimKey(gk)}
      ensures timers == CancelKeys(old(timers), {EndKey(gk), ClaimKey(gk)})
    {
      PopAndCancel(EndKey(gk));
      PopAndCancel(ClaimKey(gk));
      CancelKeysTwice(old(timers), {EndKey(gk)}, {ClaimKey(gk)});
    }

    /** `_schedule_end_task`: cancel both timers of the giveaway, then arm a new end timer. */
    method ScheduleEndTask(gk: GKey, delay: int, now: int) returns (id: nat)
      requires TimersOk()
      modifies this`endTasks, this`timers, this`nextTimer
      ensures TimersOk()
      ensures id !in old(timers)
      ensures timers == CancelKeys(old(timers), {EndKey(gk), ClaimKey(gk)})[id := Timer(EndKey(gk), now + Max(delay, 0), false)]
      ensures endTasks == (old(endTasks) - {ClaimKey(gk)})[EndKey(gk) := id]
      ensures OnlyLive(gk, id)
      ensures Armed(EndKey(gk), now + Max(delay, 0))
      ensures forall key: TaskKey, due: int :: key.gk != gk && old(Armed(key, due)) ==> Armed(key, due)
    {
      CancelTasksFor(gk);
      id := nextTimer;
      ArmTracked(endTasks, timers, EndKey(gk), id, now + Max(delay, 0));
      nextTimer := nextTimer + 1;
      timers := timers[id := Timer(EndKey(gk), now + Max(delay, 0), false)];
      endTasks := endTasks[EndKey(gk) := id];
    }

    /**
     * `_schedule_claim_task_impl`: cancel the claim timer the key names
     * (leaving the key in place) and store a new one under it.
     */
    method ScheduleClaimTask(gk: GKey, delay: int, now: int) returns (id: nat)
      requires TimersOk()
      modifies this`endTasks, this`timers, this`nextTimer
      ensures TimersOk()
      ensures id !in old(timers)
      ensures timers == CancelKeys(old(timers), {ClaimKey(gk)})[id := Timer(ClaimKey(gk), now + Max(delay, 0), false)]
      ensures endTasks == old(endTasks)[ClaimKey(gk) := id]
      ensures Armed(ClaimKey(gk), now + Max(delay, 0))
      ensures forall key: TaskKey, due: int :: key != ClaimKey(gk) && old(Armed(key, due)) ==> Armed(key, due)
    {
      var key := ClaimKey(gk);
      PopCancelTracked(endTasks, timers, key);
      if key in endTasks {
        var prev := endTasks[key];
        timers := timers[prev := timers[prev].(cancelled := true)];
      }
      id := nextTimer;
      ArmTracked(old(endTasks) - {key}, timers, key, id, now + Max(delay, 0));
      assert (old(endTasks) - {key})[key := id] == endTasks[key := id];
      nextTimer := nextTimer + 1;
      timers := timers[id := Timer(key, now + Max(delay, 0), false)];
      endTasks := endTasks[key := id];
    }

    /** The `finally` of a timer task, as intended: see `Finish`. */
    method FinishTimer(id: nat)
      requires TimersOk() && id in timers
      modifies this`endTasks, this`timers
      ensures TimersOk()
      ensures (endTasks, timers) == Finish(old(endTasks), old(timers), id)
    {
      var key := timers[id].key;
      if key in endTasks && endTasks[key] == id {
        endTasks := endTasks - {key};
      }
      timers := timers - {id};
      FinishKeepsTracked(old(endTasks), old(timers), id);
    }

    /** The `finally` of a timer task as the source writes it: see `FinishAsWritten`. */
    method FinishTimerAsWritten(id: nat)
      requires TimersOk() && id in timers
      modifies this`endTasks, this`timers
      ensures (endTasks, timers) == FinishAsWritten(old(endTasks), old(timers), id)
      ensures var key := old(timers)[id].key;
        key in old(endTasks) && old(endTasks)[key] != id ==> !Tracked(endTasks, timers)
    {
      var key := timers[id].key;
      if key in endTasks && endTasks[key] != id {
        Orphaned(endTasks, timers, id, endTasks[key]);
      }
      endTasks := endTasks - {key};
      timers := timers - {id};
    }

    /**
     * `_end_giveaway_task`: an active giveaway whose message is still there
     * ends with a draw from its entrants, and opens its claim window when
     * claiming is on; one whose channel or message is gone is deleted.
     */
    method EndGiveaway(gk: GKey, channelFound: bool, messageFound: bool, now: int) returns (winners: seq<int>)
      requires Valid()
      modifies this`giveaways, this`endTasks, this`timers, this`nextTimer
      ensures Valid()
      ensures old(timers).Keys <= timers.Keys
      ensures forall t :: t in old(timers) ==> timers[t].key == old(timers)[t].key
      ensures endTasks.Keys <= old(endTasks).Keys + {ClaimKey(gk)}
      ensures !(gk in old(giveaways) && old(giveaways)[gk].status == Active) ==>
        giveaways == old(giveaways) && endTasks == old(endTasks) && timers == old(timers) && winners == []
      ensures gk in old(giveaways) && old(giveaways)[gk].status == Active && !(channelFound && messageFound) ==>
        giveaways == old(giveaways) - {gk} && endTasks == old(endTasks) && timers == old(timers) && winners == []
      ensures gk in old(giveaways) && old(giveaways)[gk].status == Active && channelFound && messageFound ==>
        && IsSample(old(giveaways)[gk].entries, EndDrawSize(old(giveaways)[gk]), winners)
        && giveaways == old(giveaways)[gk := AfterEnd(old(giveaways)[gk], winners, now)]
        && (OpensClaim(old(giveaways)[gk], winners) ==> Armed(ClaimKey(gk), now + Max(old(giveaways)[gk].claimSeconds, 0)))
        && (!OpensClaim(old(giveaways)[gk], winners) ==> endTasks == old(endTasks) && timers == old(timers))
    {
      winners := [];
      if gk !in giveaways || giveaways[gk].status != Active {
        return;
      }
      var g := giveaways[gk];
      if !channelFound || !messageFound {
        giveaways := giveaways - {gk};
        return;
      }
      if g.entries != [] {
        winners := Sample(g.entries, EndDrawSize(g));
      }
      EndedWellFormed(g, winners, now);
      Put(gk, AfterEnd(g, winners, now));
      if g.claimEnabled && g.claimSeconds != 0 && winners != [] {
        var _ := ScheduleClaimTask(gk, g.claimSeconds, now);
      }
    }

    /**
     * `_claim_timeout_task`: when some winner has not claimed and others
     * entered, every winner is replaced by a fresh draw and, while the
     * message is still there, the claim timer is armed again.
     */
    method ClaimTimeout(gk: GKey, channelFound: bool, messageFound: bool, now: int) returns (winners: seq<int>)
      requires Valid()
      modifies this`giveaways, this`endTasks, this`timers, this`nextTimer
      ensures Valid()
      ensures old(timers).Keys <= timers.Keys
      ensures forall t :: t in old(timers) ==> timers[t].key == old(timers)[t].key
      ensures !(gk in old(giveaways) && TimeoutRedraws(old(giveaways)[gk])) ==>
        giveaways == old(giveaways) && endTasks == old(endTasks) && timers == old(timers) && winners == []
      ensures gk in old(giveaways) && TimeoutRedraws(old(giveaways)[gk]) ==>
        && IsSample(Pool(old(giveaways)[gk]), RedrawSize(old(giveaways)[gk]), winners)
        && giveaways == old(giveaways)[gk := Redrawn(old(giveaways)[gk], winners, now)]
        && (channelFound && messageFound && old(giveaways)[gk].claimSeconds > 0 ==>
              Armed(ClaimKey(gk), now + old(giveaways)[gk].claimSeconds) && endTasks[ClaimKey(gk)] !in old(timers))
        && (!(channelFound && messageFound && old(giveaways)[gk].claimSeconds > 0) ==>
              endTasks == old(endTasks) && timers == old(timers))
    {
      winners := [];
      if gk !in giveaways || !TimeoutRedraws(giveaways[gk]) {
        return;
      }
      var g := giveaways[gk];
      winners := Sample(Pool(g), RedrawSize(g));
      RedrawnWellFormed(g, winners, now);
      Put(gk, Redrawn(g, winners, now));
      if channelFound && messageFound && g.claimSeconds > 0 {
        var _ := ScheduleClaimTask(gk, g.claimSeconds, now);
      }
    }

    /**
     * The body of a timer task: a cancelled one does nothing; a live end
     * timer ends its giveaway, a live claim timer runs the claim timeout.
     */
    method RunHandler(id: nat, channelFound: bool, messageFound: bool, now: int) returns (winners: seq<int>)
      requires Valid() && id in timers
      modifies this`giveaways, this`endTasks, this`timers, this`nextTimer
      ensures Valid() && id in timers && timers[id].key == old(timers)[id].key
      ensures old(timers)[id].cancelled ==>
        giveaways == old(giveaways) && endTasks == old(endTasks) && timers == old(timers) && winners == []
      ensures var key := old(timers)[id].key;
        && !old(timers)[id].cancelled && key.ClaimKey? && key.gk in old(giveaways)
        && TimeoutRedraws(old(giveaways)[key.gk]) && channelFound && messageFound
        && old(giveaways)[key.gk].claimSeconds > 0
        ==> key in endTasks && endTasks[key] != id
    {
      winners := [];
      var t := timers[id];
      if !t.cancelled {
        if t.key.EndKey? {
          winners := EndGiveaway(t.key.gk, channelFound, messageFound, now);
        } else {
          winners := ClaimTimeout(t.key.gk, channelFound, messageFound, now);
        }
      }
    }

    /**
     * A timer task running to its end: a cancelled one only runs its
     * `finally`; a live one first runs its handler.
     */
    method RunTimer(id: nat, channelFound: bool, messageFound: bool, now: int) returns (winners: seq<int>)
      requires Valid() && id in timers
      modifies this`giveaways, this`endTasks, this`timers, this`nextTimer
      ensures Valid() && id !in timers
      ensures old(timers)[id].cancelled ==> giveaways == old(giveaways) && winners == []
    {
      winners := RunHandler(id, channelFound, messageFound, now);
      FinishTimer(id);
    }

    /**
     * A timer task running to its end with the `finally` the source writes
     * (`FinishAsWritten`): its key is popped even when, by then, the key
     * names a newer task. A replaced task that was cancelled, and a claim
     * task whose redraw armed its successor, both leave that newer task
     * live with no key naming it, so no later edit, reroll or cancel can
     * reach it.
     */
    method RunTimerAsWritten(id: nat, channelFound: bool, messageFound: bool, now: int) returns (winners: seq<int>)
      requires Valid() && id in timers
      modifies this`giveaways, this`endTasks, this`timers, this`nextTimer
      ensures StoreOk() && id !in timers
      ensures old(timers)[id].key !in endTasks
      ensures old(timers)[id].cancelled ==>
        && giveaways == old(giveaways) && winners == []
        && endTasks == old(endTasks) - {old(timers)[id].key} && timers == old(timers) - {id}
      ensures old(timers)[id].cancelled && old(timers)[id].key in old(endTasks) ==> !Tracked(endTasks, timers)
      ensures var key := old(timers)[id].key;
        && !old(timers)[id].cancelled && key.ClaimKey? && key.gk in old(giveaways)
        && TimeoutRedraws(old(giveaways)[key.gk]) && channelFound && messageFound
        && old(giveaways)[key.gk].claimSeconds > 0
        ==> !Tracked(endTasks, timers)
    {
      var t := timers[id];
      if t.cancelled && t.key in endTasks {
        assert endTasks[t.key] != id;
      }
      winners := RunHandler(id, channelFound, messageFound, now);
      FinishTimerAsWritten(id);
    }

    /** `_handle_claim_click`: an accepted claim records the claimer and pops the claim timer. */
    method ClaimClick(gk: GKey, user: int) returns (reply: ClaimReply)
      requires Valid()
      modifies this`giveaways, this`endTasks, this`timers
      ensures Valid()
      ensures reply == ClaimCheck(if gk in old(giveaways) then Some(old(giveaways)[gk]) else None, user)
      ensures reply == ClaimAccepted ==>
        giveaways == old(giveaways)[gk := ClaimedBy(old(giveaways)[gk], user)]
        && endTasks == old(endTasks) - {ClaimKey(gk)}
        && timers == CancelKeys(old(timers), {ClaimKey(gk)})
      ensures reply != ClaimAccepted ==>
        giveaways == old(giveaways) && endTasks == old(endTasks) && timers == old(timers)
    {
      reply := ClaimCheck(if gk in giveaways then Some(giveaways[gk]) else None, user);
      if reply == ClaimAccepted {
        var g := giveaways[gk];
        ClaimKeepsWellFormed(g, user);
        Put(gk, ClaimedBy(g, user));
        PopAndCancel(ClaimKey(gk));
      }
    }

    /** `on_raw_reaction_add`: the bot itself, unknown members and bots are ignored. */
    method ReactionAdd(gk: GKey, user: int, emoji: string, botUserId: int, memberFound: bool, memberIsBot: bool)
      requires Valid()
      modifies this`giveaways
      ensures Valid()
      ensures user == botUserId || !memberFound || memberIsBot || gk !in old(giveaways) ==> giveaways == old(giveaways)
      ensures user != botUserId && memberFound && !memberIsBot && gk in old(giveaways) ==>
        giveaways == old(giveaways)[gk := Entered(old(giveaways)[gk], user, emoji)]
    {
      if user != botUserId && memberFound && !memberIsBot && gk in giveaways {
        ReactionsKeepWellFormed(giveaways[gk], user, emoji);
        Put(gk, Entered(giveaways[gk], user, emoji));
      }
    }

    /** `on_raw_reaction_remove`. */
    method ReactionRemove(gk: GKey, user: int, emoji: string)
      requires Valid()
      modifies this`giveaways
      ensures Valid()
      ensures gk !in old(giveaways) ==> giveaways == old(giveaways)
      ensures gk in old(giveaways) ==> giveaways == old(giveaways)[gk := Left(old(giveaways)[gk], user, emoji)]
    {
      if gk in giveaways {
        ReactionsKeepWellFormed(giveaways[gk], user, emoji);
        Put(gk, Left(giveaways[gk], user, emoji));
      }
    }

    /** Store a new active record under `gk` and arm its end timer `delay` seconds from now. */
    method Open(gk: GKey, g: Giveaway, delay: int, now: int)
      requires Valid() && WellFormed(g)
      modifies this`giveaways, this`endTasks, this`timers, this`nextTimer
      ensures Valid()
      ensures giveaways == old(giveaways)[gk := g]
      ensures Armed(EndKey(gk), now + Max(delay, 0))
      ensures OnlyLive(gk, endTasks[EndKey(gk)])
    {
      Put(gk, g);
      var _ := ScheduleEndTask(gk, delay, now);
    }

    /**
     * `giveaway start`: checks the arguments, stores a new active record under
     * the message the bot sent and arms its end timer.
     */
    method Start(guild: int, author: int, rest: string, duration: int, claimDuration: string -> Option<int>,
                 textChannels: map<int, bool>, currentChannel: int, currentIsText: bool,
                 sent: bool, messageId: int, now: int) returns (reply: StartReply)
      requires Valid()
      requires forall v :: claimDuration(v).Some? ==> claimDuration(v).value >= 0
      modifies this`giveaways, this`endTasks, this`timers, this`nextTimer
      ensures Valid()
      ensures var p := PlanStart(rest, duration, claimDuration, textChannels, currentChannel, currentIsText);
        && (p.Rejected? ==> reply == p.reply)
        && (p.Accepted? && !sent ==> reply == SendFailed)
        && (p.Accepted? && sent ==> reply == Started(GKey(guild, messageId)))
        && (!reply.Started? ==> giveaways == old(giveaways) && endTasks == old(endTasks) && timers == old(timers))
        && (reply.Started? ==>
              && giveaways == old(giveaways)[reply.key := FromOptions(p.options, p.channel, author, now + duration)]
              && Armed(EndKey(reply.key), now + duration)
              && OnlyLive(reply.key, endTasks[EndKey(reply.key)]))
    {
      if Strip(rest) == [] {
        return NoPrize;
      }
      if duration < 60 {
        return TooShort;
      }
      var options := ParseStartOptions(rest, claimDuration);
      StartOptionsWellFormed(rest, claimDuration);
      if options.prizes == [] {
        return NoPrizes;
      }
      var channel := currentChannel;
      if options.channelRaw.Some? {
        var found := ResolveChannel(options.channelRaw.value, textChannels);
        if found.None? {
          return InvalidChannel;
        }
        channel := found.value;
      } else if !currentIsText {
        return NotTextChannel;
      }
      if !sent {
        return SendFailed;
      }
      var gk := GKey(guild, messageId);
      Open(gk, FromOptions(options, channel, author, now + duration), duration, now);
      reply := Started(gk);
    }

    /** `_get_draft`: a copy of the user's draft, empty when there is none. */
    method GetDraft(guild: int, user: int) returns (d: map<DraftField, DraftValue>)
      ensures d == DraftOf(drafts, guild, user)
    {
      d := if (guild, user) in drafts then drafts[(guild, user)] else map[];
    }

    /** `_set_draft_field`: one field of one user's draft is set; nothing else changes. */
    method SetDraftField(guild: int, user: int, field: DraftField, value: DraftValue)
      modifies this`drafts
      ensures drafts.Keys == old(drafts).Keys + {(guild, user)}
      ensures field in drafts[(guild, user)] && drafts[(guild, user)][field] == value
      ensures forall f :: f != field && f in drafts[(guild, user)] ==> (guild, user) in old(drafts) && f in old(drafts)[(guild, user)] && drafts[(guild, user)][f] == old(drafts)[(guild, user)][f]
      ensures forall k :: k in old(drafts) && k != (guild, user) ==> drafts[k] == old(drafts)[k]
    {
      var entry := if (guild, user) in drafts then drafts[(guild, user)] else map[];
      entry := entry[field := value];
      drafts := drafts[(guild, user) := entry];
    }

    /** `_clear_draft`. */
    method ClearDraft(guild: int, user: int)
      modifies this`drafts
      ensures drafts == old(drafts) - {(guild, user)}
    {
      drafts := drafts - {(guild, user)};
    }

    /**
     * `_launch_from_draft`: stores the user's draft as a new active giveaway
     * in `channel`, clears the draft and arms the end timer.
     */
    method LaunchFromDraft(guild: int, user: int, channel: int, d: map<DraftField, DraftValue>,
                           sent: bool, messageId: int, now: int) returns (reply: LaunchReply)
      requires Valid()
      modifies this`giveaways, this`endTasks, this`timers, this`nextTimer, this`drafts
      ensures Valid()
      ensures reply.Launched? <==> DraftPrizes(d) != [] && sent
      ensures DraftPrizes(d) == [] ==> reply == LaunchNoPrize
      ensures !reply.Launched? ==>
        giveaways == old(giveaways) && drafts == old(drafts) && endTasks == old(endTasks) && timers == old(timers)
      ensures reply.Launched? ==>
        && reply.key == GKey(guild, messageId)
        && giveaways == old(giveaways)[reply.key := FromDraft(d, channel, user, now)]
        && drafts == old(drafts) - {(guild, user)}
        && Armed(EndKey(reply.key), now + Max(DraftInt(d, DurationField), 0))
        && OnlyLive(reply.key, endTasks[EndKey(reply.key)])
    {
      if DraftPrizes(d) == [] {
        return LaunchNoPrize;
      }
      if !sent {
        return LaunchSendFailed;
      }
      reply := Launched(GKey(guild, messageId));
      StoreDraft(reply.key, user, FromDraft(d, channel, user, now), DraftInt(d, DurationField), now);
    }

    /** The storing half of a launch: the record, the cleared draft and the end timer. */
    method StoreDraft(gk: GKey, user: int, g: Giveaway, delay: int, now: int)
      requires Valid() && WellFormed(g)
      modifies this`giveaways, this`endTasks, this`timers, this`nextTimer, this`drafts
      ensures Valid()
      ensures giveaways == old(giveaways)[gk := g]
      ensures drafts == old(drafts) - {(gk.guild, user)}
      ensures Armed(EndKey(gk), now + Max(delay, 0))
      ensures OnlyLive(gk, endTasks[EndKey(gk)])
    {
      Open(gk, g, delay, now);
      ClearDraft(gk.guild, user);
    }

    /** `giveaway reroll`: from `ended` or `claimed`, replace the winners by a draw from the other entrants. */
    method Reroll(gk: GKey, author: int, manageGuild: bool, now: int) returns (reply: CommandReply, winners: seq<int>)
      requires Valid()
      modifies this`giveaways, this`endTasks, this`timers, this`nextTimer
      ensures Valid()
      ensures gk !in old(giveaways) ==> reply == NotAGiveaway
      ensures gk in old(giveaways) ==>
        reply == (if !CanManage(author, manageGuild, old(giveaways)[gk]) then CannotManage
                  else if !(old(giveaways)[gk].status == Ended || old(giveaways)[gk].status == Claimed) then WrongStatus
                  else if Pool(old(giveaways)[gk]) == [] then NoOtherEntries
                  else Done)
      ensures reply != Done ==> giveaways == old(giveaways) && endTasks == old(endTasks) && timers == old(timers) && winners == []
      ensures reply == Done ==>
        && IsSample(Pool(old(giveaways)[gk]), RedrawSize(old(giveaways)[gk]), winners)
        && giveaways == old(giveaways)[gk := Rerolled(old(giveaways)[gk], winners, now)]
        && (old(giveaways)[gk].claimEnabled && old(giveaways)[gk].claimSeconds != 0 ==>
              Armed(ClaimKey(gk), now + Max(old(giveaways)[gk].claimSeconds, 0)))
    {
      winners := [];
      if gk !in giveaways {
        return NotAGiveaway, [];
      }
      var g := giveaways[gk];
      if !CanManage(author, manageGuild, g) {
        return CannotManage, [];
      }
      if !(g.status == Ended || g.status == Claimed) {
        return WrongStatus, [];
      }
      if Pool(g) == [] {
        return NoOtherEntries, [];
      }
      winners := Sample(Pool(g), RedrawSize(g));
      RerolledWellFormed(g, winners, now);
      Put(gk, Rerolled(g, winners, now));
      if g.claimEnabled && g.claimSeconds != 0 {
        var _ := ScheduleClaimTask(gk, g.claimSeconds, now);
      }
      reply := Done;
    }

    /** `giveaway end`: cancel the giveaway's timers and end it now. */
    method EndCommand(gk: GKey, author: int, manageGuild: bool, channelFound: bool, messageFound: bool, now: int)
      returns (reply: CommandReply, winners: seq<int>)
      requires Valid()
      modifies this`giveaways, this`endTasks, this`timers, this`nextTimer
      ensures Valid()
      ensures gk !in old(giveaways) ==> reply == NotAGiveaway
      ensures gk in old(giveaways) ==>
        reply == (if !CanManage(author, manageGuild, old(giveaways)[gk]) then CannotManage
                  else if old(giveaways)[gk].status != Active then WrongStatus
                  else Done)
      ensures reply != Done ==> giveaways == old(giveaways) && endTasks == old(endTasks) && timers == old(timers) && winners == []
      ensures reply == Done && channelFound && messageFound ==>
        && IsSample(old(giveaways)[gk].entries, EndDrawSize(old(giveaways)[gk]), winners)
        && giveaways == old(giveaways)[gk := AfterEnd(old(giveaways)[gk], winners, now)]
        && EndKey(gk) !in endTasks
        && (OpensClaim(old(giveaways)[gk], winners) ==>
              Armed(ClaimKey(gk), now + Max(old(giveaways)[gk].claimSeconds, 0)))
      ensures reply == Done && !(channelFound && messageFound && OpensClaim(old(giveaways)[gk], winners)) ==>
        && endTasks == old(endTasks) - {EndKey(gk), ClaimKey(gk)}
        && timers == CancelKeys(old(timers), {EndKey(gk), ClaimKey(gk)})
      ensures reply == Done && !(channelFound && messageFound) ==> giveaways == old(giveaways) - {gk}
    {
      winners := [];
      if gk !in giveaways {
        return NotAGiveaway, [];
      }
      var g := giveaways[gk];
      if !CanManage(author, manageGuild, g) {
        return CannotManage, [];
      }
      if g.status != Active {
        return WrongStatus, [];
      }
      CancelTasksFor(gk);
      winners := EndGiveaway(gk, channelFound, messageFound, now);
      reply := Done;
    }

    /**
     * `giveaway edit`: on an active giveaway, apply the given prize,
     * duration and description; a duration re-arms the end timer.
     */
    method EditCommand(gk: GKey, author: int, manageGuild: bool, prize: Option<string>, duration: Option<int>,
                       description: Option<string>, now: int) returns (reply: CommandReply)
      requires Valid()
      modifies this`giveaways, this`endTasks, this`timers, this`nextTimer
      ensures Valid()
      ensures gk !in old(giveaways) ==> reply == NotAGiveaway
      ensures gk in old(giveaways) ==>
        reply == (if !CanManage(author, manageGuild, old(giveaways)[gk]) then CannotManage
                  else if old(giveaways)[gk].status != Active then WrongStatus
                  else if Edited(old(giveaways)[gk], prize, duration, description, now).None? then NothingToEdit
                  else Done)
      ensures reply != Done ==> giveaways == old(giveaways) && endTasks == old(endTasks) && timers == old(timers)
      ensures reply == Done ==>
        giveaways == old(giveaways)[gk := Edited(old(giveaways)[gk], prize, duration, description, now).value]
      ensures reply == Done && DurationGiven(duration) ==>
        Armed(EndKey(gk), now + duration.value) && OnlyLive(gk, endTasks[EndKey(gk)])
      ensures reply == Done && !DurationGiven(duration) ==> endTasks == old(endTasks) && timers == old(timers)
    {
      if gk !in giveaways {
        return NotAGiveaway;
      }
      var g := giveaways[gk];
      if !CanManage(author, manageGuild, g) {
        return CannotManage;
      }
      if g.status != Active {
        return WrongStatus;
      }
      var edited := Edited(g, prize, duration, description, now);
      if DurationGiven(duration) {
        CancelTasksFor(gk);
        var _ := ScheduleEndTask(gk, duration.value, now);
      }
      if edited.None? {
        return NothingToEdit;
      }
      EditedWellFormed(g, prize, duration, description, now);
      Put(gk, edited.value);
      reply := Done;
    }

    /** `giveaway cancel`: from `active` or `ended`, cancel both timers and mark the giveaway cancelled. */
    method CancelCommand(gk: GKey, author: int, manageGuild: bool) returns (reply: CommandReply)
      requires Valid()
      modifies this`giveaways, this`endTasks, this`timers
      ensures Valid()
      ensures gk !in old(giveaways) ==> reply == NotAGiveaway
      ensures gk in old(giveaways) ==>
        reply == (if !CanManage(author, manageGuild, old(giveaways)[gk]) then CannotManage
                  else if !CanCancel(old(giveaways)[gk]) then WrongStatus
                  else Done)
      ensures reply != Done ==> giveaways == old(giveaways) && endTasks == old(endTasks) && timers == old(timers)
      ensures reply == Done ==>
        && giveaways == old(giveaways)[gk := AfterCancel(old(giveaways)[gk])]
        && endTasks == old(endTasks) - {EndKey(gk), ClaimKey(gk)}
        && timers == CancelKeys(old(timers), {EndKey(gk), ClaimKey(gk)})
    {
      if gk !in giveaways {
        return NotAGiveaway;
      }
      var g := giveaways[gk];
      if !CanManage(author, manageGuild, g) {
        return CannotManage;
      }
      if !CanCancel(g) {
        return WrongStatus;
      }
      CancelRecord(gk);
      reply := Done;
    }

    /** The effect of `giveaway cancel`: both timers cancelled and popped, the record marked cancelled. */
    method CancelRecord(gk: GKey)
      requires Valid() && gk in giveaways && CanCancel(giveaways[gk])
      modifies this`giveaways, this`endTasks, this`timers
      ensures Valid()
      ensures giveaways == old(giveaways)[gk := AfterCancel(old(giveaways)[gk])]
      ensures endTasks == old(endTasks) - {EndKey(gk), ClaimKey(gk)}
      ensures timers == CancelKeys(old(timers), {EndKey(gk), ClaimKey(gk)})
    {
      var g := giveaways[gk];
      CancelTasksFor(gk);
      endTasks := endTasks - {ClaimKey(gk)};
      CancelledWellFormed(g);
      Put(gk, AfterCancel(g));
    }

    /** The timer `cog_load` arms for record `k` is in place. */
    ghost predicate Reloaded(k: GKey, now: int)
      reads this`giveaways, this`endTasks, this`timers
      requires k in giveaways
    {
      && (giveaways[k].status == Active ==> Armed(EndKey(k), now + Max(0, giveaways[k].endTs - now)))
      && (ReloadsClaim(giveaways[k]) ==> Armed(ClaimKey(k), now + Max(0, giveaways[k].claimDeadline.value - now)))
    }

    /** One record of `cog_load`: re-arm the timer its status calls for. */
    method Reload(k: GKey, now: int)
      requires TimersOk() && k in giveaways
      modifies this`endTasks, this`timers, this`nextTimer
      ensures TimersOk()
      ensures Reloaded(k, now)
      ensures forall j :: j in giveaways && j != k && old(Reloaded(j, now)) ==> Reloaded(j, now)
    {
      var g := giveaways[k];
      if g.status == Active {
        var _ := ScheduleEndTask(k, Max(0, g.endTs - now), now);
      } else if ReloadsClaim(g) {
        var _ := ScheduleClaimTask(k, Max(0, g.claimDeadline.value - now), now);
      }
    }

    /**
     * `cog_load`: every active giveaway gets an end timer at its end time (or
     * now, if that has passed), every unclaimed ended one with an open claim
     * window a claim timer at its deadline.
     */
    method CogLoad(now: int)
      requires Valid()
      modifies this`endTasks, this`timers, this`nextTimer
      ensures Valid()
      ensures forall k :: k in giveaways ==> Reloaded(k, now)
    {
      var todo := giveaways.Keys;
      while todo != {}
        invariant TimersOk()
        invariant todo <= giveaways.Keys
        invariant forall k :: k in giveaways && k !in todo ==> Reloaded(k, now)
        decreases todo
      {
        var k :| k in todo;
        Reload(k, now);
        todo := todo - {k};
      }
    }

    /** `cog_unload`: cancel every task the table names, then empty the table. */
    method Unload()
      requires TimersOk()
      modifies this`endTasks, this`timers
      ensures TimersOk()
      ensures endTasks == map[]
      ensures timers.Keys == old(timers).Keys
      ensures forall t :: t in timers ==> timers[t].cancelled
    {
      var todo := endTasks.Keys;
      while todo != {}
        invariant todo <= endTasks.Keys
        invariant endTasks == old(endTasks)
        invariant timers.Keys == old(timers).Keys
        invariant forall t :: t in timers && !timers[t].cancelled ==> timers[t].key in todo && endTasks[timers[t].key] == t
        invariant forall k :: k in todo ==> endTasks[k] in timers && timers[endTasks[k]].key == k
        invariant forall t :: t in timers ==> t < nextTimer
        decreases todo
      {
        var k :| k in todo;
        var id := endTasks[k];
        timers := timers[id := timers[id].(cancelled := true)];
        todo := todo - {k};
      }
      endTasks := map[];
    }
  }
}
