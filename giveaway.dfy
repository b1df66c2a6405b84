/**
 * The giveaway lifecycle: one stored record per giveaway message, moving
 * `active -> ended -> claimed | cancelled`, the entry list changed by
 * reactions, the winner draw, claims and the claim-timeout redraw, and the
 * per-key timer table the cog keeps in memory.
 */
module Giveaways {
  import opened Wrappers
  import opened Text
  import opened Seqs
  import opened GiveawayParse

  datatype Status = Active | Ended | Claimed | Cancelled

  /** One entry of the guild's `giveaways` store, keyed there by message id. */
  datatype Giveaway = Giveaway(
    channelId: int,
    hostId: int,
    prize: Option<string>,          // legacy single prize
    prizes: seq<string>,
    description: Option<string>,
    endTs: int,
    emoji: string,
    entries: seq<int>,
    winnerId: Option<int>,          // legacy single winner
    winnerIds: seq<int>,
    winnerCount: Option<int>,
    claimedIds: seq<int>,
    status: Status,
    claimEnabled: bool,
    claimSeconds: int,
    claimDeadline: Option<int>,
    claimed: bool)

  function Min(a: int, b: int): int { if a <= b then a else b }
  function Max(a: int, b: int): int { if a >= b then a else b }

  /** The record as the handlers read it. */
  function Winners(g: Giveaway): seq<int> { WinnerIdsList(g.winnerIds, g.winnerId) }
  function Count(g: Giveaway): int { WinnerCount(g.winnerCount) }
  function Prizes(g: Giveaway): seq<string> { PrizesList(g.prizes, g.prize) }

  /** Entrants who are not current winners: the pool of a redraw or reroll. */
  function Pool(g: Giveaway): seq<int> { Excluding(g.entries, Winners(g)) }

  /**
   * What every handler keeps true of a stored record: entrants and winners
   * are distinct, winners are entrants, claimers are winners, there are never
   * more winners than the winner count, an active giveaway has no winners,
   * and a claimed one has been claimed by every winner.
   */
  predicate WellFormed(g: Giveaway)
  {
    && NoDup(g.entries)
    && NoDup(Winners(g))
    && NoDup(g.claimedIds)
    && (forall u :: u in Winners(g) ==> u in g.entries)
    && (forall u :: u in g.claimedIds ==> u in Winners(g))
    && |Winners(g)| <= Count(g)
    && (g.status == Active ==> Winners(g) == [] && g.claimedIds == [])
    && (g.status == Claimed ==> |g.claimedIds| == |Winners(g)|)
  }

  // ---------------------------------------------------------------------
  // The random draw
  // ---------------------------------------------------------------------

  /** `random.sample(pool, k)`: `k` picks from distinct positions of `pool`. */
  predicate IsSample(pool: seq<int>, k: int, w: seq<int>)
  {
    |w| == k && multiset(w) <= multiset(pool)
  }

  /** `random.sample`, specified by what it may return and not by its distribution. */
  method Sample(pool: seq<int>, k: int) returns (w: seq<int>)
    requires 0 <= k <= |pool|
    ensures IsSample(pool, k, w)
  {
    assert pool == pool[..k] + pool[k..];
    assert multiset(pool) == multiset(pool[..k]) + multiset(pool[k..]);
    assert IsSample(pool, k, pool[..k]);
    w :| IsSample(pool, k, w);
  }

  lemma {:induction false} NoDupMultiplicity(s: seq<int>, x: int)
    requires NoDup(s)
    ensures multiset(s)[x] <= 1
  {
    if s != [] {
      NoDupMultiplicity(s[1..], x);
      assert s == [s[0]] + s[1..];
      assert s[0] !in s[1..];
      assert multiset(s) == multiset{s[0]} + multiset(s[1..]);
    }
  }

  lemma RepeatCounted(w: seq<int>, i: int, j: int)
    requires 0 <= i < j < |w| && w[i] == w[j]
    ensures multiset(w)[w[i]] >= 2
  {
    assert w == w[..i] + [w[i]] + w[i + 1..j] + [w[j]] + w[j + 1..];
    assert multiset(w) == multiset(w[..i]) + multiset{w[i]} + multiset(w[i + 1..j]) + multiset{w[j]} + multiset(w[j + 1..]);
  }

  /** A sample of distinct entrants names distinct entrants. */
  lemma SampleDistinct(pool: seq<int>, k: int, w: seq<int>)
    requires NoDup(pool) && IsSample(pool, k, w)
    ensures NoDup(w)
    ensures forall u :: u in w ==> u in pool
  {
    forall u | u in w ensures u in pool {
      assert u in multiset(w);
    }
    forall i, j | 0 <= i < j < |w| ensures w[i] != w[j] {
      if w[i] == w[j] {
        RepeatCounted(w, i, j);
        NoDupMultiplicity(pool, w[i]);
      }
    }
  }

  // ---------------------------------------------------------------------
  // Reactions
  // ---------------------------------------------------------------------

  /** `on_raw_reaction_add` for a member who is not a bot. */
  function Entered(g: Giveaway, user: int, emoji: string): (r: Giveaway)
    ensures r.(entries := g.entries) == g
    ensures user in r.entries <==> user in g.entries || (g.status == Active && emoji == g.emoji)
    ensures forall u :: u != user ==> (u in r.entries <==> u in g.entries)
    ensures |g.entries| <= |r.entries| <= |g.entries| + 1 && r.entries[..|g.entries|] == g.entries
    ensures NoDup(g.entries) ==> NoDup(r.entries)
  {
    if g.status == Active && emoji == g.emoji && user !in g.entries
    then g.(entries := g.entries + [user])
    else g
  }

  /** Reacting twice counts once. */
  lemma EnteredIdempotent(g: Giveaway, user: int, emoji: string)
    ensures Entered(Entered(g, user, emoji), user, emoji) == Entered(g, user, emoji)
  {
    if g.status == Active && emoji == g.emoji {
      assert user in Entered(g, user, emoji).entries;
    }
  }

  /** `on_raw_reaction_remove`. */
  function Left(g: Giveaway, user: int, emoji: string): (r: Giveaway)
    ensures r.(entries := g.entries) == g
    ensures g.status == Active && emoji == g.emoji ==> user !in r.entries
    ensures g.status != Active || emoji != g.emoji || user !in g.entries ==> r == g
    ensures forall u :: u != user ==> (u in r.entries <==> u in g.entries)
    ensures NoDup(g.entries) ==> NoDup(r.entries)
  {
    if g.status == Active && emoji == g.emoji && user in g.entries
    then
      WithoutNoDupIf(g.entries, user);
      g.(entries := Without(g.entries, user))
    else g
  }

  lemma WithoutNoDupIf(s: seq<int>, x: int)
    ensures NoDup(s) ==> NoDup(Without(s, x))
  {
    if NoDup(s) { WithoutNoDup(s, x); }
  }

  /** Removing a reaction undoes adding it. */
  lemma LeftUndoesEntered(g: Giveaway, user: int, emoji: string)
    requires g.status == Active && emoji == g.emoji && user !in g.entries
    ensures Left(Entered(g, user, emoji), user, emoji) == g
  {
    WithoutAppended(g.entries, user);
  }

  /** Reactions never break a record's invariant. */
  lemma ReactionsKeepWellFormed(g: Giveaway, user: int, emoji: string)
    requires WellFormed(g)
    ensures WellFormed(Entered(g, user, emoji))
    ensures WellFormed(Left(g, user, emoji))
  {
  }

  // ---------------------------------------------------------------------
  // Ending, claiming, redrawing
  // ---------------------------------------------------------------------

  /** How many winners the end draw picks. */
  function EndDrawSize(g: Giveaway): (k: int)
    ensures 0 <= k <= |g.entries| && k <= Count(g)
    ensures g.entries != [] ==> k >= 1
  {
    Min(Count(g), |g.entries|)
  }

  /** Claiming opens when it is enabled, has a duration and somebody won. */
  predicate OpensClaim(g: Giveaway, winners: seq<int>)
  {
    g.claimEnabled && g.claimSeconds != 0 && winners != []
  }

  /** The record after `_end_giveaway_task` drew `winners` at time `now`. */
  function AfterEnd(g: Giveaway, winners: seq<int>, now: int): (r: Giveaway)
    ensures r.status == Ended && Winners(r) == winners && r.claimedIds == []
    ensures r.claimDeadline.Some? <==> OpensClaim(g, winners)
    ensures r.claimDeadline.Some? ==> r.claimDeadline.value == now + g.claimSeconds
    ensures r.entries == g.entries && Prizes(r) == Prizes(g) && Count(r) == Count(g)
    ensures r.claimEnabled == g.claimEnabled && r.claimSeconds == g.claimSeconds && r.claimed == g.claimed
  {
    g.(status := Ended,
       winnerId := if winners == [] then None else Some(winners[0]),
       winnerIds := winners,
       claimedIds := [],
       claimDeadline := if OpensClaim(g, winners) then Some(now + g.claimSeconds) else None)
  }

  /**
   * Ending an active record with a draw from its entrants keeps it well
   * formed; with no entrants the winner list is empty.
   */
  lemma EndedWellFormed(g: Giveaway, winners: seq<int>, now: int)
    requires WellFormed(g) && g.status == Active
    requires IsSample(g.entries, EndDrawSize(g), winners)
    ensures WellFormed(AfterEnd(g, winners, now))
    ensures g.entries == [] ==> Winners(AfterEnd(g, winners, now)) == []
    ensures |Winners(AfterEnd(g, winners, now))| == Min(Count(g), |g.entries|)
  {
    SampleDistinct(g.entries, EndDrawSize(g), winners);
  }

  /** Why a claim click is refused, or that it is accepted. */
  datatype ClaimReply = NoLongerActive | OnlyWinners | AlreadyClaimed | ClaimAccepted

  /** The checks of `_handle_claim_click`, in the order the handler makes them. */
  function ClaimCheck(g: Option<Giveaway>, user: int): (r: ClaimReply)
    ensures r == ClaimAccepted <==>
      g.Some? && g.value.status == Ended && user in Winners(g.value) && user !in g.value.claimedIds
    ensures r == NoLongerActive <==> g.None? || g.value.status != Ended
    ensures r == OnlyWinners ==> user !in Winners(g.value)
    ensures r == AlreadyClaimed ==> user in Winners(g.value) && user in g.value.claimedIds
  {
    if g.None? || g.value.status != Ended then NoLongerActive
    else if user !in Winners(g.value) then OnlyWinners
    else if user in g.value.claimedIds then AlreadyClaimed
    else ClaimAccepted
  }

  /** The record after `user` claimed. */
  function ClaimedBy(g: Giveaway, user: int): (r: Giveaway)
    ensures r.claimedIds == g.claimedIds + [user]
    ensures r.status == Claimed <==> g.status == Claimed || |g.claimedIds| + 1 >= |Winners(g)|
    ensures r.status != Claimed ==> r.status == g.status && r.claimed == g.claimed
    ensures r.status == Claimed && g.status != Claimed ==> r.claimed
    ensures r.entries == g.entries && Winners(r) == Winners(g) && r.claimDeadline == g.claimDeadline
  {
    var g' := g.(claimedIds := g.claimedIds + [user]);
    if |g'.claimedIds| >= |Winners(g)| then g'.(status := Claimed, claimed := true) else g'
  }

  /**
   * An accepted claim keeps the record well formed, and the giveaway becomes
   * `claimed` exactly when every winner has now claimed.
   */
  lemma ClaimKeepsWellFormed(g: Giveaway, user: int)
    requires WellFormed(g) && ClaimCheck(Some(g), user) == ClaimAccepted
    ensures WellFormed(ClaimedBy(g, user))
    ensures ClaimedBy(g, user).status == Claimed <==>
      forall u :: u in Winners(g) ==> u in ClaimedBy(g, user).claimedIds
  {
    var r := ClaimedBy(g, user);
    assert NoDup(r.claimedIds) by {
      assert user !in g.claimedIds;
    }
    assert g.status == Ended && user in Winners(g) && user !in g.claimedIds;
    assert forall u :: u in r.claimedIds ==> u in g.claimedIds || u == user;
    assert forall u :: u in r.claimedIds ==> u in Winners(g);
    SubsetLength(r.claimedIds, Winners(g));
    assert |r.claimedIds| == |g.claimedIds| + 1;
    assert r.status == Claimed <==> |r.claimedIds| == |Winners(g)|;
    if r.status != Claimed {
      assert !(forall u :: u in Winners(g) ==> u in r.claimedIds);
    }
  }

  /** Whether the claim timeout redraws: some winner has not claimed and there are other entrants. */
  predicate TimeoutRedraws(g: Giveaway)
  {
    g.status == Ended && |g.claimedIds| < |Winners(g)| && Pool(g) != []
  }

  /** How many winners a redraw or reroll picks. */
  function RedrawSize(g: Giveaway): (k: int)
    ensures 0 <= k <= |Pool(g)| && k <= Count(g)
    ensures Pool(g) != [] ==> k >= 1
  {
    Min(Count(g), |Pool(g)|)
  }

  /** The record after the claim timeout replaced the winners by `winners` at time `now`. */
  function Redrawn(g: Giveaway, winners: seq<int>, now: int): (r: Giveaway)
    ensures Winners(r) == winners && r.claimedIds == []
    ensures r.claimDeadline == Some(now + g.claimSeconds)
    ensures r.status == g.status && r.entries == g.entries && r.claimed == g.claimed
  {
    g.(winnerId := if winners == [] then None else Some(winners[0]),
       winnerIds := winners,
       claimedIds := [],
       claimDeadline := Some(now + g.claimSeconds))
  }

  /** A redraw picks only entrants who were not winners, and keeps the record well formed. */
  lemma RedrawnWellFormed(g: Giveaway, winners: seq<int>, now: int)
    requires WellFormed(g) && TimeoutRedraws(g)
    requires IsSample(Pool(g), RedrawSize(g), winners)
    ensures WellFormed(Redrawn(g, winners, now))
    ensures forall u :: u in winners ==> u in g.entries && u !in Winners(g)
    ensures 1 <= |winners| <= Count(g)
  {
    ExcludingNoDup(g.entries, Winners(g));
    SampleDistinct(Pool(g), RedrawSize(g), winners);
  }

  /** Reroll is allowed from `ended` or `claimed` when somebody else entered. */
  predicate CanReroll(g: Giveaway)
  {
    (g.status == Ended || g.status == Claimed) && Pool(g) != []
  }

  /** The record after a host reroll drew `winners` at time `now`. */
  function Rerolled(g: Giveaway, winners: seq<int>, now: int): (r: Giveaway)
    ensures r.status == Ended && !r.claimed && Winners(r) == winners && r.claimedIds == []
    ensures g.claimEnabled && g.claimSeconds != 0 ==> r.claimDeadline == Some(now + g.claimSeconds)
    ensures !(g.claimEnabled && g.claimSeconds != 0) ==> r.claimDeadline == g.claimDeadline
    ensures r.entries == g.entries
  {
    g.(winnerId := if winners == [] then None else Some(winners[0]),
       winnerIds := winners,
       claimedIds := [],
       status := Ended,
       claimed := false,
       claimDeadline := if g.claimEnabled && g.claimSeconds != 0 then Some(now + g.claimSeconds) else g.claimDeadline)
  }

  /** A reroll picks only entrants who were not winners, and keeps the record well formed. */
  lemma RerolledWellFormed(g: Giveaway, winners: seq<int>, now: int)
    requires WellFormed(g) && CanReroll(g)
    requires IsSample(Pool(g), RedrawSize(g), winners)
    ensures WellFormed(Rerolled(g, winners, now))
    ensures forall u :: u in winners ==> u in g.entries && u !in Winners(g)
    ensures 1 <= |winners| <= Count(g)
  {
    ExcludingNoDup(g.entries, Winners(g));
    SampleDistinct(Pool(g), RedrawSize(g), winners);
  }

  // ---------------------------------------------------------------------
  // Host commands
  // ---------------------------------------------------------------------

  /** `_can_manage`: the host, or anybody with Manage Server. */
  predicate CanManage(userId: int, manageGuild: bool, g: Giveaway)
  {
    userId == g.hostId || manageGuild
  }

  /** Cancel is allowed from `active` or `ended`. */
  predicate CanCancel(g: Giveaway)
  {
    g.status == Active || g.status == Ended
  }

  /** The record after `giveaway cancel`. */
  function AfterCancel(g: Giveaway): (r: Giveaway)
    ensures r.status == Cancelled && r.(status := g.status) == g
  {
    g.(status := Cancelled)
  }

  lemma CancelledWellFormed(g: Giveaway)
    requires WellFormed(g)
    ensures WellFormed(AfterCancel(g))
  {
  }

  /** A prize argument counts when it is not blank. */
  predicate PrizeGiven(prize: Option<string>)
  {
    prize.Some? && Strip(prize.value) != []
  }

  /** A duration argument counts when it is at least a minute. */
  predicate DurationGiven(duration: Option<int>)
  {
    duration.Some? && duration.value >= 60
  }

  /**
   * `giveaway edit`: a new first prize, a new description (blank clears it)
   * and a new end time `now + duration`; `None` when nothing was given.
   */
  function Edited(g: Giveaway, prize: Option<string>, duration: Option<int>, description: Option<string>, now: int): (r: Option<Giveaway>)
    ensures r.None? <==> !PrizeGiven(prize) && !DurationGiven(duration) && description.None?
    ensures r.Some? ==> r.value.(prize := g.prize, prizes := g.prizes, description := g.description, endTs := g.endTs) == g
  {
    if !PrizeGiven(prize) && !DurationGiven(duration) && description.None? then None
    else
      var g1 := if PrizeGiven(prize) then WithFirstPrize(g, Strip(prize.value)) else g;
      var g2 := if description.Some? then
          g1.(description := if Strip(description.value) == [] then None else Some(Strip(description.value)))
        else g1;
      var g3 := if DurationGiven(duration) then g2.(endTs := now + duration.value) else g2;
      Some(g3)
  }

  /** The first prize replaced by `p`, the others kept. */
  function WithFirstPrize(g: Giveaway, p: string): (r: Giveaway)
    requires p != [] && Strip(p) == p
    ensures Prizes(r) == [p] + (if |Prizes(g)| > 1 then Prizes(g)[1..] else [])
    ensures r.(prize := g.prize, prizes := g.prizes) == g
  {
    var ps := [p] + (if |Prizes(g)| > 1 then Prizes(g)[1..] else []);
    FirstPrizeReplaced(Prizes(g), p);
    g.(prize := Some(p), prizes := ps)
  }

  lemma FirstPrizeReplaced(prizes: seq<string>, p: string)
    requires p != [] && Strip(p) == p
    requires forall k :: 0 <= k < |prizes| ==> prizes[k] != [] && Strip(prizes[k]) == prizes[k]
    ensures var ps := [p] + (if |prizes| > 1 then prizes[1..] else []);
      PrizesList(ps, Some(p)) == ps
  {
    var ps := [p] + (if |prizes| > 1 then prizes[1..] else []);
    forall k | 0 <= k < |ps| ensures ps[k] != [] && Strip(ps[k]) == ps[k] {
      if k > 0 {
        assert ps[k] == prizes[k];
      }
    }
    StrippedNonBlankKeeps(ps);
  }

  /**
   * What an edit changes: the first prize (the others kept), the description
   * (stripped, blank meaning none) and the end time, each only when given.
   */
  lemma EditedFields(g: Giveaway, prize: Option<string>, duration: Option<int>, description: Option<string>, now: int)
    requires Edited(g, prize, duration, description, now).Some?
    ensures var r := Edited(g, prize, duration, description, now).value;
      && (PrizeGiven(prize) ==>
            |Prizes(r)| == Max(1, |Prizes(g)|) && Prizes(r)[0] == Strip(prize.value)
            && Prizes(r)[1..] == (if |Prizes(g)| > 1 then Prizes(g)[1..] else []))
      && (!PrizeGiven(prize) ==> r.prizes == g.prizes && r.prize == g.prize)
      && (description.Some? ==>
            r.description == (if Strip(description.value) == [] then None else Some(Strip(description.value))))
      && (description.None? ==> r.description == g.description)
      && r.endTs == (if DurationGiven(duration) then now + duration.value else g.endTs)
  {
    if PrizeGiven(prize) {
      var p := Strip(prize.value);
      var ps := Prizes(WithFirstPrize(g, p));
      assert ps == [p] + (if |Prizes(g)| > 1 then Prizes(g)[1..] else []);
      assert ps[1..] == (if |Prizes(g)| > 1 then Prizes(g)[1..] else []);
    }
  }

  lemma EditedWellFormed(g: Giveaway, prize: Option<string>, duration: Option<int>, description: Option<string>, now: int)
    requires WellFormed(g)
    requires Edited(g, prize, duration, description, now).Some?
    ensures WellFormed(Edited(g, prize, duration, description, now).value)
  {
    var r := Edited(g, prize, duration, description, now).value;
    assert Winners(r) == Winners(g) && Count(r) == Count(g);
  }

  /** A new active record, as `giveaway start` and the builder's launch store it. */
  function Fresh(channelId: int, hostId: int, prizes: seq<string>, description: Option<string>,
                 endTs: int, emoji: string, winnerCount: int, claimEnabled: bool, claimSeconds: int): (r: Giveaway)
    requires prizes != []
    requires 1 <= winnerCount <= MaxWinners
    ensures WellFormed(r) && r.status == Active && r.entries == [] && Winners(r) == []
    ensures r.prizes == prizes && r.prize == Some(prizes[0]) && Count(r) == winnerCount
    ensures r.channelId == channelId && r.hostId == hostId && r.endTs == endTs && r.emoji == emoji
    ensures r.claimEnabled == claimEnabled && r.claimSeconds == claimSeconds
    ensures r.claimDeadline.None? && !r.claimed
  {
    Giveaway(channelId, hostId, Some(prizes[0]), prizes, description, endTs, emoji, [],
             None, [], Some(winnerCount), [], Active, claimEnabled, claimSeconds, None, false)
  }
}
