/**
 * The auto voice channel plugin: joining a configured source channel
 * creates a voice channel for the member (rate limited, and guarded
 * against creating two at once), an owner who leaves makes the channel
 * claimable after five minutes, and empty or vanished channels are
 * forgotten.
 *
 * Times are integers in milliseconds. Whether a channel exists, how many
 * members it has and whether a platform call succeeded are parameters.
 */
module AutoVc {
  import opened Wrappers
  import opened Text
  import Seqs

  /** The sliding window of the creation rate limit, and the creations allowed in it. */
  const RateWindow := 30_000
  const RateMax := 3
  /** How long a member stays marked as being processed. */
  const ProcessingWindow := 5_000
  /** A channel this young is not deleted when someone leaves it. */
  const FreshWindow := 2_000
  /** How long after its owner left a channel may be claimed. */
  const ClaimWait := 300_000

  datatype VcKind = Public | Personal | Private

  function KindName(k: VcKind): string
  {
    match k
    case Public => "public"
    case Personal => "personal"
    case Private => "private"
  }

  /** The channel type word, already lower-cased. */
  function ParseKind(word: string): (r: Option<VcKind>)
    ensures r.Some? ==> KindName(r.value) == word
    ensures r.None? ==> forall k :: KindName(k) != word
  {
    if word == "public" then Some(Public)
    else if word == "personal" then Some(Personal)
    else if word == "private" then Some(Private)
    else None
  }

  /** Personal and private channels have an owner; public ones do not. */
  predicate Owned(k: VcKind) { k == Personal || k == Private }

  datatype Source = Source(kind: VcKind, category: int)

  datatype CreatedVc = CreatedVc(source: int, owner: Option<int>, role: Option<int>, kind: VcKind, createdAt: int)

  datatype Claim = Claim(ownerLeftAt: int, originalOwner: int)

  /** The record of a channel just created for `member`. */
  function NewVc(source: int, kind: VcKind, member: int, ownerRole: Option<int>, now: int): (v: CreatedVc)
    ensures v.owner.Some? <==> Owned(kind)
    ensures v.owner.Some? ==> v.owner.value == member
    ensures v.role.Some? ==> Owned(kind) && v.role == ownerRole
    ensures v.kind == kind && v.source == source && v.createdAt == now
  {
    CreatedVc(
      source,
      if Owned(kind) then Some(member) else None,
      if Owned(kind) then ownerRole else None,
      kind,
      now)
  }

  // ---------------------------------------------------------------------
  // Rate limit

  /** `[ts for ts in stamps if ts > cutoff]`. */
  function Recent(stamps: seq<int>, cutoff: int): (r: seq<int>)
    ensures |r| <= |stamps|
    ensures forall t :: t in r <==> t in stamps && t > cutoff
    ensures forall i :: 0 <= i < |r| ==> r[i] > cutoff
  {
    if stamps == [] then []
    else if stamps[0] > cutoff then [stamps[0]] + Recent(stamps[1..], cutoff)
    else Recent(stamps[1..], cutoff)
  }

  /** Filtering twice with the same cutoff changes nothing more. */
  lemma {:induction false} RecentIdempotent(stamps: seq<int>, cutoff: int)
    ensures Recent(Recent(stamps, cutoff), cutoff) == Recent(stamps, cutoff)
  {
    if stamps != [] {
      RecentIdempotent(stamps[1..], cutoff);
      if stamps[0] > cutoff {
        assert ([stamps[0]] + Recent(stamps[1..], cutoff))[1..] == Recent(stamps[1..], cutoff);
      }
    }
  }

  /** Stamps that were all recent stay untouched. */
  lemma {:induction false} RecentKeepsRecent(stamps: seq<int>, cutoff: int)
    requires forall i :: 0 <= i < |stamps| ==> stamps[i] > cutoff
    ensures Recent(stamps, cutoff) == stamps
  {
    if stamps != [] {
      RecentKeepsRecent(stamps[1..], cutoff);
    }
  }

  // ---------------------------------------------------------------------
  // Decisions

  datatype ClaimReply = NotInVoice | NotManaged | OwnerPresent | NotClaimable | TooSoon(secondsLeft: int) | Claimed

  /**
   * The `claim` command's checks: the channel (named, or the member's
   * current one) must be a created channel with a claim record whose owner
   * left at least five minutes ago.
   */
  function ClaimCheck(vc: Option<int>, created: map<int, CreatedVc>, claimable: map<int, Claim>,
                      ownerPresent: bool, now: int): (r: ClaimReply)
    ensures r == Claimed <==>
      vc.Some? && vc.value in created && vc.value in claimable && now - claimable[vc.value].ownerLeftAt >= ClaimWait
    ensures r.TooSoon? ==> vc.Some? && vc.value in claimable && r.secondsLeft >= 0 && r.secondsLeft * 1000 <= ClaimWait - (now - claimable[vc.value].ownerLeftAt)
    ensures r == OwnerPresent ==> ownerPresent
  {
    if vc.None? then NotInVoice
    else if vc.value !in created then NotManaged
    else if vc.value !in claimable then
      if ownerPresent && created[vc.value].owner.Some? then OwnerPresent else NotClaimable
    else
      var passed := now - claimable[vc.value].ownerLeftAt;
      if passed < ClaimWait then TooSoon((ClaimWait - passed) / 1000) else Claimed
  }

  /** What leaving a channel does to the plugin's records. */
  datatype LeaveAction = NoAction | KeepFresh | DeleteVc | MarkClaimable(claim: Claim)

  /**
   * A member left `before` (possibly for `after`): a created channel is
   * kept when the member stayed in it or it is under two seconds old,
   * deleted when nobody is left, and made claimable when its owner left.
   */
  function LeaveDecision(data: Option<CreatedVc>, before: int, after: Option<int>, member: int,
                         remaining: nat, now: int): (r: LeaveAction)
    ensures data.None? ==> r == NoAction
    ensures after == Some(before) ==> r == NoAction
    ensures r == DeleteVc <==>
      data.Some? && after != Some(before) && now - data.value.createdAt >= FreshWindow && remaining == 0
    ensures r.MarkClaimable? <==>
      && data.Some? && after != Some(before) && now - data.value.createdAt >= FreshWindow && remaining > 0
      && data.value.owner == Some(member)
    ensures r.MarkClaimable? ==> r.claim == Claim(now, member)
  {
    if data.None? || after == Some(before) then NoAction
    else if now - data.value.createdAt < FreshWindow then KeepFresh
    else if remaining == 0 then DeleteVc
    else if data.value.owner == Some(member) then MarkClaimable(Claim(now, member))
    else NoAction
  }

  /** The created channels the cleanup pass forgets: gone, or with nobody in them. */
  function Doomed(created: map<int, CreatedVc>, present: set<int>, occupied: set<int>): (r: set<int>)
    ensures forall v :: v in r <==> v in created && (v !in present || v !in occupied)
  {
    set v | v in created && (v !in present || v !in occupied)
  }

  /** A map without the given keys, the rest untouched. */
  function Dropped<V>(m: map<int, V>, keys: set<int>): (r: map<int, V>)
    ensures forall k :: k in r <==> k in m && k !in keys
    ensures forall k :: k in r ==> r[k] == m[k]
  {
    map k | k in m && k !in keys :: m[k]
  }

  // ---------------------------------------------------------------------
  // The plugin's state (one guild, plus the in-memory tables)

  datatype AddReply = InvalidType | NoCategory | SourceAdded

  datatype JoinOutcome = NotASource | AlreadyProcessing | RateLimited | CreateFailed | Created(vc: int)

  /** The member's creation times, pruned to the rate window. */
  function Pruned(rateLimit: map<int, seq<int>>, member: int, now: int): seq<int>
  {
    Recent(if member in rateLimit then rateLimit[member] else [], now - RateWindow)
  }

  /** A creation for the member started less than five seconds ago. */
  predicate Busy(processing: map<int, int>, member: int, now: int)
  {
    member in processing && now - processing[member] < ProcessingWindow
  }

  /**
   * What joining `joined` comes to, from the state before the join: only a
   * source channel counts, a member being processed is skipped, three
   * creations within the window are refused, and otherwise the channel is
   * created unless the platform failed to create it.
   */
  function JoinResult(sources: map<int, Source>, processing: map<int, int>, rateLimit: map<int, seq<int>>,
                      member: int, joined: int, now: int, newVc: Option<int>): (r: JoinOutcome)
    ensures r.Created? <==>
      joined in sources && !Busy(processing, member, now) && |Pruned(rateLimit, member, now)| < RateMax && newVc.Some?
    ensures r.Created? ==> newVc == Some(r.vc)
    ensures r == RateLimited <==>
      joined in sources && !Busy(processing, member, now) && |Pruned(rateLimit, member, now)| >= RateMax
  {
    if joined !in sources then NotASource
    else if Busy(processing, member, now) then AlreadyProcessing
    else if |Pruned(rateLimit, member, now)| >= RateMax then RateLimited
    else if newVc.None? then CreateFailed
    else Created(newVc.value)
  }

  /** The created and claimable records after a leave action on `vc`. */
  function AfterLeave(created: map<int, CreatedVc>, claimable: map<int, Claim>, vc: int, action: LeaveAction)
    : (r: (map<int, CreatedVc>, map<int, Claim>))
    // only the channel left can change
    ensures forall x :: x != vc ==> (x in r.0 <==> x in created) && (x in r.1 <==> x in claimable)
    ensures forall x :: x != vc && x in r.0 ==> r.0[x] == created[x]
    ensures forall x :: x != vc && x in r.1 ==> r.1[x] == claimable[x]
    ensures vc !in r.0 <==> vc !in created || action == DeleteVc
    ensures action.MarkClaimable? ==> vc in r.1 && r.1[vc] == action.claim
  {
    match action
    case DeleteVc => (created - {vc}, claimable - {vc})
    case MarkClaimable(c) => (created, claimable[vc := c])
    case NoAction => (created, claimable)
    case KeepFresh => (created, claimable)
  }

  class AutoVcState {
    var sources: map<int, Source>
    var created: map<int, CreatedVc>
    var claimable: map<int, Claim>
    var memberRole: Option<int>
    /** Creation times per member, pruned when checked. */
    var rateLimit: map<int, seq<int>>
    /** When each member's channel creation started. */
    var processing: map<int, int>

    /** Every claim record belongs to a created channel. */
    ghost predicate Valid()
      reads this
    {
      claimable.Keys <= created.Keys
    }

    constructor()
      ensures Valid()
      ensures sources == map[] && created == map[] && claimable == map[]
      ensures memberRole.None? && rateLimit == map[] && processing == map[]
    {
      sources := map[];
      created := map[];
      claimable := map[];
      memberRole := None;
      rateLimit := map[];
      processing := map[];
    }

    /**
     * Prunes the member's creation times to the last 30 seconds and
     * reports whether three or more remain. Adds no time.
     */
    method CheckRateLimit(member: int, now: int) returns (limited: bool)
      modifies this`rateLimit
      ensures rateLimit == old(rateLimit)[member := Recent(if member in old(rateLimit) then old(rateLimit)[member] else [], now - RateWindow)]
      ensures limited <==> |rateLimit[member]| >= RateMax
      ensures forall t :: t in rateLimit[member] ==> member in old(rateLimit) && t in old(rateLimit)[member] && t > now - RateWindow
    {
      var stamps := if member in rateLimit then rateLimit[member] else [];
      var kept := Recent(stamps, now - RateWindow);
      rateLimit := rateLimit[member := kept];
      limited := |kept| >= RateMax;
    }

    /** Records one more creation time for the member. */
    method RecordCreation(member: int, now: int)
      modifies this`rateLimit
      ensures rateLimit == old(rateLimit)[member := (if member in old(rateLimit) then old(rateLimit)[member] else []) + [now]]
      ensures |rateLimit[member]| == (if member in old(rateLimit) then |old(rateLimit)[member]| else 0) + 1
    {
      var stamps := if member in rateLimit then rateLimit[member] else [];
      rateLimit := rateLimit[member := stamps + [now]];
    }

    /** `autovc add`: the type must be public, personal or private, and a category must be known. */
    method AddSource(source: int, typeWord: string, category: Option<int>, sourceCategory: Option<int>)
      returns (reply: AddReply)
      requires Valid()
      modifies this`sources
      ensures Valid()
      ensures reply == InvalidType <==> ParseKind(Lower(typeWord)).None?
      ensures reply == NoCategory <==> ParseKind(Lower(typeWord)).Some? && category.None? && sourceCategory.None?
      ensures reply != SourceAdded ==> sources == old(sources)
      ensures reply == SourceAdded ==>
        sources == old(sources)[source := Source(ParseKind(Lower(typeWord)).value,
                                                 if category.Some? then category.value else sourceCategory.value)]
    {
      var kind := ParseKind(Lower(typeWord));
      if kind.None? {
        return InvalidType;
      }
      var cat := if category.Some? then category else sourceCategory;
      if cat.None? {
        return NoCategory;
      }
      sources := sources[source := Source(kind.value, cat.value)];
      reply := SourceAdded;
    }

    /** `autovc remove`: reports whether the channel was a source. */
    method RemoveSource(source: int) returns (removed: bool)
      requires Valid()
      modifies this`sources
      ensures Valid()
      ensures removed <==> source in old(sources)
      ensures sources == old(sources) - {source}
    {
      removed := source in sources;
      if removed {
        sources := sources - {source};
      }
    }

    /** `autovc memberrole`: set, or clear with no role. */
    method SetMemberRole(role: Option<int>)
      modifies this`memberRole
      ensures memberRole == role
    {
      memberRole := role;
    }

    /**
     * `autovc claim`. On success the claim record goes; an owned channel
     * passes to the claimant when the new owner role was created.
     */
    method ClaimVc(vc: Option<int>, member: int, ownerPresent: bool, newRole: Option<int>, now: int)
      returns (reply: ClaimReply)
      requires Valid()
      modifies this`created, this`claimable
      ensures Valid()
      ensures reply == ClaimCheck(vc, old(created), old(claimable), ownerPresent, now)
      ensures reply != Claimed ==> created == old(created) && claimable == old(claimable)
      ensures reply == Claimed ==>
        && vc.Some? && vc.value in old(claimable)
        && claimable == old(claimable) - {vc.value}
        && var data := old(created)[vc.value];
        && created == (if Owned(data.kind) && newRole.Some?
                       then old(created)[vc.value := data.(role := newRole, owner := Some(member))]
                       else old(created))
    {
      reply := ClaimCheck(vc, created, claimable, ownerPresent, now);
      if reply != Claimed {
        return;
      }
      var data := created[vc.value];
      if Owned(data.kind) && newRole.Some? {
        created := created[vc.value := data.(role := newRole, owner := Some(member))];
      }
      claimable := claimable - {vc.value};
    }

    /**
     * A member joined `joined`. For a source channel: a member whose
     * creation started under five seconds ago is skipped, an older mark is
     * replaced; a rate-limited member is turned away and unmarked; a
     * failed creation unmarks; a created channel is recorded along with
     * the creation time.
     */
    method Join(member: int, joined: int, now: int, newVc: Option<int>, ownerRole: Option<int>)
      returns (outcome: JoinOutcome)
      requires Valid()
      modifies this
      ensures Valid()
      ensures sources == old(sources) && claimable == old(claimable) && memberRole == old(memberRole)
      ensures outcome == JoinResult(old(sources), old(processing), old(rateLimit), member, joined, now, newVc)
      ensures outcome == NotASource || outcome == AlreadyProcessing ==>
        rateLimit == old(rateLimit) && processing == old(processing) && created == old(created)
      ensures outcome.Created? ==>
        && processing == old(processing)[member := now]
        && rateLimit == old(rateLimit)[member := Pruned(old(rateLimit), member, now) + [now]]
        && created == old(created)[outcome.vc := NewVc(joined, old(sources)[joined].kind, member, ownerRole, now)]
      ensures outcome == RateLimited || outcome == CreateFailed ==>
        && processing == old(processing) - {member} && created == old(created)
        && rateLimit == old(rateLimit)[member := Pruned(old(rateLimit), member, now)]
      ensures outcome == CreateFailed || outcome.Created? ==> member in rateLimit && |rateLimit[member]| <= RateMax
    {
      if joined !in sources {
        return NotASource;
      }
      if member in processing && now - processing[member] < ProcessingWindow {
        return AlreadyProcessing;
      }
      processing := processing[member := now];
      var limited := CheckRateLimit(member, now);
      if limited {
        processing := processing - {member};
        return RateLimited;
      }
      if newVc.None? {
        processing := processing - {member};
        return CreateFailed;
      }
      created := created[newVc.value := NewVc(joined, sources[joined].kind, member, ownerRole, now)];
      RecordCreation(member, now);
      outcome := Created(newVc.value);
    }

    /** The delayed task that unmarks a member two seconds after a move. */
    method ReleaseProcessing(member: int)
      modifies this`processing
      ensures processing == old(processing) - {member}
    {
      processing := processing - {member};
    }

    /** Forgets a channel in both records. */
    method DeleteVcImmediately(vc: int)
      requires Valid()
      modifies this`created, this`claimable
      ensures Valid()
      ensures created == old(created) - {vc} && claimable == old(claimable) - {vc}
    {
      created := created - {vc};
      claimable := claimable - {vc};
    }

    /** A member left `before`, going to `after` or nowhere; `remaining` is who is still in `before`. */
    method Leave(member: int, before: int, after: Option<int>, remaining: nat, now: int)
      returns (action: LeaveAction)
      requires Valid()
      modifies this`created, this`claimable
      ensures Valid()
      ensures action == LeaveDecision(if before in old(created) then Some(old(created)[before]) else None,
                                      before, after, member, remaining, now)
      ensures action == DeleteVc ==> created == old(created) - {before} && claimable == old(claimable) - {before}
      ensures action.MarkClaimable? ==> created == old(created) && claimable == old(claimable)[before := action.claim]
      ensures action == NoAction || action == KeepFresh ==> created == old(created) && claimable == old(claimable)
    {
      var data := if before in created then Some(created[before]) else None;
      action := LeaveDecision(data, before, after, member, remaining, now);
      match action {
        case DeleteVc => DeleteVcImmediately(before);
        case MarkClaimable(c) => claimable := claimable[before := c];
        case NoAction =>
        case KeepFresh =>
      }
    }

    /**
     * A voice state change: a bot is ignored; the join part runs first,
     * and when it stops early (already processing or rate limited) the
     * leave part does not run.
     */
    method VoiceStateUpdate(member: int, isBot: bool, before: Option<int>, after: Option<int>, now: int,
                            newVc: Option<int>, ownerRole: Option<int>, remaining: nat)
      requires Valid()
      modifies this
      ensures Valid()
      ensures isBot ==> created == old(created) && claimable == old(claimable) && processing == old(processing) && rateLimit == old(rateLimit)
      ensures sources == old(sources) && memberRole == old(memberRole)
      ensures !isBot ==>
        var outcome := if after.Some? then JoinResult(old(sources), old(processing), old(rateLimit), member, after.value, now, newVc)
                       else NotASource;
        var joinedCreated := if outcome.Created? then
                               old(created)[outcome.vc := NewVc(after.value, old(sources)[after.value].kind, member, ownerRole, now)]
                             else old(created);
        if outcome == AlreadyProcessing || outcome == RateLimited || before.None? then
          created == joinedCreated && claimable == old(claimable)
        else
          var data := if before.value in joinedCreated then Some(joinedCreated[before.value]) else None;
          (created, claimable) ==
            AfterLeave(joinedCreated, old(claimable), before.value, LeaveDecision(data, before.value, after, member, remaining, now))
    {
      if isBot {
        return;
      }
      if after.Some? {
        var outcome := Join(member, after.value, now, newVc, ownerRole);
        if outcome == AlreadyProcessing || outcome == RateLimited {
          return;
        }
      }
      if before.Some? {
        var _ := Leave(member, before.value, after, remaining, now);
      }
    }

    /**
     * The periodic cleanup: channels that are gone or empty leave both
     * records; the others are untouched.
     */
    method CleanupGuild(present: set<int>, occupied: set<int>) returns (removed: set<int>)
      requires Valid()
      modifies this`created, this`claimable
      ensures Valid()
      ensures removed == Doomed(old(created), present, occupied)
      ensures created == Dropped(old(created), removed)
      ensures claimable == Dropped(old(claimable), removed)
    {
      removed := ScanDoomed(created, present, occupied);
      var todo := removed;
      while todo != {}
        invariant todo <= removed
        invariant created == Dropped(old(created), removed - todo)
        invariant claimable == Dropped(old(claimable), removed - todo)
        invariant Valid()
        decreases |todo|
      {
        ghost var some := Seqs.Pick(todo);
        var v :| v in todo;
        created := created - {v};
        claimable := claimable - {v};
        todo := todo - {v};
      }
    }
  }

  /** The cleanup's first loop: collects the channels to forget. */
  method ScanDoomed(created: map<int, CreatedVc>, present: set<int>, occupied: set<int>) returns (doomed: set<int>)
    ensures doomed == Doomed(created, present, occupied)
  {
    doomed := {};
    var todo := created.Keys;
    while todo != {}
      invariant todo <= created.Keys
      invariant doomed == set v | v in created && v !in todo && (v !in present || v !in occupied)
      decreases |todo|
    {
      ghost var some := Seqs.Pick(todo);
      var v :| v in todo;
      if v !in present || v !in occupied {
        doomed := doomed + {v};
      }
      todo := todo - {v};
    }
  }
}
