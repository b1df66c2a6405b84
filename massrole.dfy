/**
 * The MassRole plugin: give one role to every member of another role, or
 * to every human member of the server. Each member is handled in turn:
 * one who already has the role is skipped, the others get it through a
 * retry loop that waits out rate limits. Successes, skips and failures
 * are tallied, failures by their error text, and a progress message is
 * edited every ten members and at the end.
 *
 * The platform's answers are parameters: `respond(k)` is the answer to
 * the `k`-th attempt of adding the role to one member.
 */
module MassRole {
  import opened Wrappers
  import opened Text
  import Seqs

  /** The attempts `_add_role_with_retry` makes by default. */
  const MaxRetries := 5
  /** The error text when every attempt was rate limited. */
  const MaxRetriesMessage := "Max retries exceeded"
  /** How many processed members between two progress messages. */
  const ProgressStep := 10

  /**
   * The answer to one `add_roles` call. The platform's `Forbidden` and
   * `NotFound` are HTTP errors with status 403 and 404, so they arrive
   * as `HttpError`; `retryAfter` is the wait the platform suggests, in
   * seconds.
   */
  datatype Outcome = Added | HttpError(status: int, retryAfter: Option<real>) | OtherError(message: string)

  /** An answer asking to slow down: HTTP 429. */
  predicate RateLimited(o: Outcome)
  {
    o.HttpError? && o.status == 429
  }

  /** `(success, error_message)`. */
  datatype AddResult = AddResult(success: bool, error: Option<string>)

  /** The result of an answer that ends the attempts. */
  function Settle(o: Outcome): (r: AddResult)
    requires !RateLimited(o)
    ensures r.success <==> o.Added?
    ensures r.success <==> r.error.None?
  {
    match o
    case Added => AddResult(true, None)
    case HttpError(status, _) =>
      if status == 403 then AddResult(false, Some("Missing permissions"))
      else if status == 404 then AddResult(false, Some("Member or role not found"))
      else AddResult(false, Some("HTTP " + IntToString(status)))
    case OtherError(message) => AddResult(false, Some(message))
  }

  function Pow2(n: nat): (r: nat)
    ensures r >= 1
  {
    if n == 0 then 1 else 2 * Pow2(n - 1)
  }

  /**
   * The wait after a rate-limited attempt `attempt`: the suggested wait
   * plus one second, or `2^(attempt + 1)` seconds when none is suggested.
   */
  function WaitTime(o: Outcome, attempt: nat): real
    requires o.HttpError?
  {
    if o.retryAfter.None? then Pow2(attempt + 1) as real else o.retryAfter.value + 1.0
  }

  /** The attempts from `attempt` on: rate limits are waited out until `maxRetries` attempts are used. */
  function RetryFrom(respond: nat -> Outcome, maxRetries: int, attempt: nat): (r: AddResult)
    ensures r.success <==> r.error.None?
    ensures r.success ==> attempt < maxRetries
    ensures attempt >= maxRetries ==> r.error == Some(MaxRetriesMessage)
    decreases maxRetries - attempt
  {
    if attempt >= maxRetries then AddResult(false, Some(MaxRetriesMessage))
    else if RateLimited(respond(attempt)) then RetryFrom(respond, maxRetries, attempt + 1)
    else Settle(respond(attempt))
  }

  /** The first attempt that is not rate limited decides the result. */
  lemma {:induction false} RetrySettlesAt(respond: nat -> Outcome, maxRetries: int, a: nat, k: nat)
    requires a <= k < maxRetries && !RateLimited(respond(k))
    requires forall j :: a <= j < k ==> RateLimited(respond(j))
    ensures RetryFrom(respond, maxRetries, a) == Settle(respond(k))
    decreases k - a
  {
    if a < k {
      RetrySettlesAt(respond, maxRetries, a + 1, k);
    }
  }

  /** When every attempt left is rate limited, the retries run out. */
  lemma {:induction false} RetryExhausted(respond: nat -> Outcome, maxRetries: int, a: nat)
    requires forall j :: a <= j < maxRetries ==> RateLimited(respond(j))
    ensures RetryFrom(respond, maxRetries, a) == AddResult(false, Some(MaxRetriesMessage))
    decreases maxRetries - a
  {
    if a < maxRetries {
      RetryExhausted(respond, maxRetries, a + 1);
    }
  }

  /**
   * `_add_role_with_retry`: at most `maxRetries` attempts; every wait
   * follows a rate-limited attempt and is that attempt's wait; the last
   * attempt, unless all were rate limited, decides the result.
   */
  method AddRoleWithRetry(respond: nat -> Outcome, maxRetries: int)
    returns (result: AddResult, attempts: nat, waits: seq<real>)
    ensures result == RetryFrom(respond, maxRetries, 0)
    ensures attempts <= if maxRetries > 0 then maxRetries else 0
    ensures forall j :: 0 <= j < |waits| ==> RateLimited(respond(j)) && waits[j] == WaitTime(respond(j), j)
    ensures attempts == |waits| + 1 || attempts == |waits|
    ensures attempts == |waits| + 1 ==> !RateLimited(respond(|waits|)) && result == Settle(respond(|waits|))
    ensures attempts == |waits| ==>
      attempts == (if maxRetries > 0 then maxRetries else 0) && result == AddResult(false, Some(MaxRetriesMessage))
  {
    attempts, waits := 0, [];
    while attempts < maxRetries
      invariant attempts == |waits| && (attempts == 0 || attempts <= maxRetries)
      invariant forall j :: 0 <= j < |waits| ==> RateLimited(respond(j)) && waits[j] == WaitTime(respond(j), j)
      invariant RetryFrom(respond, maxRetries, 0) == RetryFrom(respond, maxRetries, attempts)
      decreases maxRetries - attempts
    {
      var answer := respond(attempts);
      if !RateLimited(answer) {
        result := Settle(answer);
        attempts := attempts + 1;
        return;
      }
      waits := waits + [WaitTime(answer, attempts)];
      attempts := attempts + 1;
    }
    result := AddResult(false, Some(MaxRetriesMessage));
  }

  /** A member: the roles they hold and whether they are a bot. */
  datatype Member = Member(roles: set<int>, bot: bool)

  /** What happened to one member. */
  datatype MemberResult = Skipped | Succeeded | Failed(errorType: string)

  /** `error or "Unknown error"`: a missing or empty error text counts as unknown. */
  function ErrorType(error: Option<string>): (r: string)
    ensures r != []
    ensures error.Some? && error.value != [] ==> r == error.value
    ensures error.None? || error.value == [] ==> r == "Unknown error"
  {
    if error.None? || error.value == [] then "Unknown error" else error.value
  }

  /** One member's turn: skipped when they hold the role, otherwise the result of the retries. */
  function MemberResultOf(m: Member, role: int, respond: nat -> Outcome): (r: MemberResult)
    ensures r == Skipped <==> role in m.roles
  {
    if role in m.roles then Skipped
    else
      var added := RetryFrom(respond, MaxRetries, 0);
      if added.success then Succeeded else Failed(ErrorType(added.error))
  }

  /** The members' results in order; `respond(k)` answers the attempts for member `k`. */
  function Results(members: seq<Member>, role: int, respond: nat -> nat -> Outcome): (r: seq<MemberResult>)
    ensures |r| == |members|
  {
    seq(|members|, k requires 0 <= k < |members| => MemberResultOf(members[k], role, respond(k)))
  }

  /** `results`: the counters and `errors`, the failures counted by error text. */
  datatype Tally = Tally(success: nat, failed: nat, skipped: nat, errors: multiset<string>)

  function Count(t: Tally, r: MemberResult): Tally
  {
    match r
    case Skipped => t.(skipped := t.skipped + 1)
    case Succeeded => t.(success := t.success + 1)
    case Failed(e) => t.(failed := t.failed + 1, errors := t.errors + multiset{e})
  }

  /** The tally of a run of results. */
  function TallyOf(rs: seq<MemberResult>): (t: Tally)
    ensures t.success + t.failed + t.skipped == |rs|
  {
    if rs == [] then Tally(0, 0, 0, multiset{}) else Count(TallyOf(rs[..|rs| - 1]), rs[|rs| - 1])
  }

  /** The tally of one more result is that result counted on top. */
  lemma TallyAppend(rs: seq<MemberResult>, p: nat)
    requires p < |rs|
    ensures TallyOf(rs[..p + 1]) == Count(TallyOf(rs[..p]), rs[p])
  {
    assert rs[..p + 1][..p] == rs[..p];
  }

  /**
   * Every member is counted once, as a success, a failure or a skip, so
   * the counts add up to the number of members; each failure adds one
   * error, so the error counts add up to the failures.
   */
  lemma {:induction false} TallySums(rs: seq<MemberResult>)
    ensures var t := TallyOf(rs);
      t.success + t.failed + t.skipped == |rs| && |t.errors| == t.failed
  {
    if rs != [] {
      TallySums(rs[..|rs| - 1]);
    }
  }

  /**
   * The tally agrees with a multiset of results: successes and skips
   * are their multiplicities, and each error text is counted as often
   * as a failure with that text occurs.
   */
  ghost predicate Agrees(t: Tally, m: multiset<MemberResult>)
  {
    && t.success == m[Succeeded]
    && t.skipped == m[Skipped]
    && forall e :: t.errors[e] == m[Failed(e)]
  }

  /** Counting one more result keeps the tally in agreement with the results. */
  lemma CountAgrees(t: Tally, m: multiset<MemberResult>, r: MemberResult)
    requires Agrees(t, m)
    ensures Agrees(Count(t, r), m + multiset{r})
  {
    var m' := m + multiset{r};
    forall e ensures Count(t, r).errors[e] == m'[Failed(e)] {
      assert m'[Failed(e)] == m[Failed(e)] + multiset{r}[Failed(e)];
    }
  }

  /**
   * Each count is the number of results of its kind, and each error text
   * is counted as often as it ended a member's turn.
   */
  lemma {:induction false} TallyCounts(rs: seq<MemberResult>)
    ensures Agrees(TallyOf(rs), multiset(rs))
  {
    if rs != [] {
      var init, last := rs[..|rs| - 1], rs[|rs| - 1];
      TallyCounts(init);
      assert rs == init + [last];
      CountAgrees(TallyOf(init), multiset(init), last);
    }
  }

  /** No members, nothing counted. */
  lemma NoMembersNoCounts(role: int, respond: nat -> nat -> Outcome)
    ensures TallyOf(Results([], role, respond)) == Tally(0, 0, 0, multiset{})
  {
    assert Results([], role, respond) == [];
  }

  /** The members from `i` on who do not hold the role, by position: the ones an add is attempted for. */
  function NeedingFrom(members: seq<Member>, role: int, i: nat): (r: seq<nat>)
    requires i <= |members|
    ensures forall j :: j in r <==> i <= j < |members| && role !in members[j].roles
    ensures forall a, b :: 0 <= a < b < |r| ==> r[a] < r[b]
    decreases |members| - i
  {
    if i == |members| then []
    else if role in members[i].roles then NeedingFrom(members, role, i + 1)
    else
      var rest := NeedingFrom(members, role, i + 1);
      assert forall b :: 0 <= b < |rest| ==> rest[b] in rest;
      [i] + rest
  }

  /**
   * The progress updates from member `i` on, `last` being the count at
   * the last update: after a member who did not hold the role, when ten
   * or more members were processed since the last update or the member
   * is the last one. A skipped member never triggers an update.
   */
  function ProgressFrom(members: seq<Member>, role: int, i: nat, last: nat): (r: seq<nat>)
    requires i <= |members|
    ensures forall k :: 0 <= k < |r| ==> i < r[k] <= |members|
    decreases |members| - i
  {
    if i == |members| then []
    else if role in members[i].roles then ProgressFrom(members, role, i + 1, last)
    else if i + 1 - last >= ProgressStep || i + 1 == |members| then [i + 1] + ProgressFrom(members, role, i + 1, i + 1)
    else ProgressFrom(members, role, i + 1, last)
  }

  /**
   * Updates rise, each at least ten past the one before (the first past
   * `last`) unless it shows the total `total`.
   */
  predicate SpacedFrom(u: seq<nat>, last: nat, total: nat)
    decreases |u|
  {
    u == [] || (last < u[0] && (u[0] == total || u[0] - last >= ProgressStep) && SpacedFrom(u[1..], u[0], total))
  }

  /** Every update lies past `i` and follows a member who did not hold the role. */
  predicate AfterNewcomers(members: seq<Member>, role: int, u: seq<nat>, i: nat)
  {
    forall k :: 0 <= k < |u| ==> i < u[k] <= |members| && role !in members[u[k] - 1].roles
  }

  /** An update for member `i`, who did not hold the role, may go in front of later updates. */
  lemma NewcomerFirst(members: seq<Member>, role: int, i: nat, rest: seq<nat>)
    requires i < |members| && role !in members[i].roles
    requires AfterNewcomers(members, role, rest, i + 1)
    ensures AfterNewcomers(members, role, [i + 1] + rest, i)
  {
    var u := [i + 1] + rest;
    forall k | 0 <= k < |u| ensures i < u[k] <= |members| && role !in members[u[k] - 1].roles {
      if k > 0 {
        assert u[k] == rest[k - 1];
      }
    }
  }

  /**
   * The updates rise; each follows a member who did not hold the role,
   * and comes ten or more members after the previous one (or after the
   * start), unless it is the last member's.
   */
  lemma {:induction false} ProgressSpaced(members: seq<Member>, role: int, i: nat, last: nat)
    requires last <= i <= |members|
    ensures SpacedFrom(ProgressFrom(members, role, i, last), last, |members|)
    ensures AfterNewcomers(members, role, ProgressFrom(members, role, i, last), i)
    decreases |members| - i
  {
    if i < |members| {
      var u := ProgressFrom(members, role, i, last);
      if role in members[i].roles || !(i + 1 - last >= ProgressStep || i + 1 == |members|) {
        assert u == ProgressFrom(members, role, i + 1, last);
        ProgressSpaced(members, role, i + 1, last);
        assert AfterNewcomers(members, role, u, i + 1);
      } else {
        var rest := ProgressFrom(members, role, i + 1, i + 1);
        assert u == [i + 1] + rest;
        ProgressSpaced(members, role, i + 1, i + 1);
        assert u[1..] == rest;
        NewcomerFirst(members, role, i, rest);
      }
    }
  }

  /** The final count is shown exactly when the last member did not hold the role. */
  lemma {:induction false} ProgressFinal(members: seq<Member>, role: int, i: nat, last: nat)
    requires last <= i <= |members|
    ensures |members| in ProgressFrom(members, role, i, last)
      <==> i < |members| && role !in members[|members| - 1].roles
    decreases |members| - i
  {
    ProgressSpaced(members, role, i, last);
    if i < |members| {
      if role in members[i].roles || !(i + 1 - last >= ProgressStep || i + 1 == |members|) {
        ProgressFinal(members, role, i + 1, last);
      } else {
        ProgressFinal(members, role, i + 1, i + 1);
      }
    }
  }

  /** When nobody holds the role yet, the counts shown are the multiples of ten and the total. */
  lemma {:induction false} ProgressEveryTenth(members: seq<Member>, role: int, i: nat, last: nat)
    requires i <= |members| && (i < |members| ==> last == i - i % ProgressStep)
    requires forall j :: i <= j < |members| ==> role !in members[j].roles
    ensures forall p :: i < p <= |members| ==>
      (p in ProgressFrom(members, role, i, last) <==> p % ProgressStep == 0 || p == |members|)
    decreases |members| - i
  {
    if i < |members| {
      assert (i + 1) % ProgressStep == if i % ProgressStep == ProgressStep - 1 then 0 else i % ProgressStep + 1;
      if (i + 1) % ProgressStep == 0 || i + 1 == |members| {
        var rest := ProgressFrom(members, role, i + 1, i + 1);
        assert ProgressFrom(members, role, i, last) == [i + 1] + rest;
        ProgressSpaced(members, role, i + 1, i + 1);
        ProgressEveryTenth(members, role, i + 1, i + 1);
      } else {
        assert ProgressFrom(members, role, i, last) == ProgressFrom(members, role, i + 1, last);
        ProgressSpaced(members, role, i + 1, last);
        ProgressEveryTenth(members, role, i + 1, last);
      }
    }
  }

  /**
   * `_assign_role_to_members`: goes through the members in order and
   * returns the tally of their results, the positions of the members an
   * add was attempted for, and the counts at which progress was shown.
   */
  method AssignRoleToMembers(members: seq<Member>, role: int, respond: nat -> nat -> Outcome)
    returns (results: Tally, attempted: seq<nat>, updates: seq<nat>)
    ensures results == TallyOf(Results(members, role, respond))
    ensures attempted == NeedingFrom(members, role, 0)
    ensures updates == ProgressFrom(members, role, 0, 0)
  {
    results, attempted, updates := Tally(0, 0, 0, multiset{}), [], [];
    ghost var rs := Results(members, role, respond);
    ghost var allNeeding, allShown := NeedingFrom(members, role, 0), ProgressFrom(members, role, 0, 0);
    var processed: nat, lastUpdate: nat := 0, 0;
    while processed < |members|
      invariant lastUpdate <= processed <= |members|
      invariant results == TallyOf(rs[..processed])
      invariant attempted + NeedingFrom(members, role, processed) == allNeeding
      invariant updates + ProgressFrom(members, role, processed, lastUpdate) == allShown
    {
      TallyAppend(rs, processed);
      NeedingStep(members, role, processed);
      ProgressStepAt(members, role, processed, lastUpdate);
      ghost var p := processed;
      var member := members[processed];
      var r := MemberTurn(member, role, respond(processed));
      results := Count(results, r);
      if r == Skipped {
        processed := processed + 1;
        assert ProgressFrom(members, role, p, lastUpdate) == ProgressFrom(members, role, processed, lastUpdate);
        continue;
      }
      ghost var needing := NeedingFrom(members, role, processed + 1);
      Seqs.AppendAssoc(attempted, [processed], needing);
      attempted := attempted + [processed];
      processed := processed + 1;
      if processed - lastUpdate >= ProgressStep || processed == |members| {
        assert ProgressFrom(members, role, p, lastUpdate) == [processed] + ProgressFrom(members, role, processed, processed);
        Seqs.AppendAssoc(updates, [processed], ProgressFrom(members, role, processed, processed));
        updates := updates + [processed];
        lastUpdate := processed;
      } else {
        assert ProgressFrom(members, role, p, lastUpdate) == ProgressFrom(members, role, processed, lastUpdate);
      }
    }
    assert rs[..processed] == rs;
  }

  /**
   * One member's turn in the loop: a member who holds the role is
   * skipped, anyone else gets the role added with retries.
   */
  method MemberTurn(member: Member, role: int, respond: nat -> Outcome) returns (r: MemberResult)
    ensures r == MemberResultOf(member, role, respond)
  {
    if role in member.roles {
      return Skipped;
    }
    var added, _, _ := AddRoleWithRetry(respond, MaxRetries);
    r := if added.success then Succeeded else Failed(ErrorType(added.error));
  }

  /** One member further in `NeedingFrom`. */
  lemma NeedingStep(members: seq<Member>, role: int, p: nat)
    requires p < |members|
    ensures role in members[p].roles ==> NeedingFrom(members, role, p) == NeedingFrom(members, role, p + 1)
    ensures role !in members[p].roles ==> NeedingFrom(members, role, p) == [p] + NeedingFrom(members, role, p + 1)
  {
  }

  /** One member further in `ProgressFrom`. */
  lemma ProgressStepAt(members: seq<Member>, role: int, p: nat, last: nat)
    requires p < |members|
    ensures role in members[p].roles ==> ProgressFrom(members, role, p, last) == ProgressFrom(members, role, p + 1, last)
    ensures role !in members[p].roles && (p + 1 - last >= ProgressStep || p + 1 == |members|) ==>
      ProgressFrom(members, role, p, last) == [p + 1] + ProgressFrom(members, role, p + 1, p + 1)
    ensures role !in members[p].roles && !(p + 1 - last >= ProgressStep || p + 1 == |members|) ==>
      ProgressFrom(members, role, p, last) == ProgressFrom(members, role, p + 1, last)
  {
  }

  /** `[m for m in members if target_role in m.roles]`. */
  function WithRole(members: seq<Member>, target: int): (r: seq<Member>)
    ensures forall m :: m in r <==> m in members && target in m.roles
    ensures |r| <= |members|
  {
    if members == [] then []
    else if target in members[0].roles then [members[0]] + WithRole(members[1..], target)
    else WithRole(members[1..], target)
  }

  /** `[m for m in members if not m.bot]`. */
  function Humans(members: seq<Member>): (r: seq<Member>)
    ensures forall m :: m in r <==> m in members && !m.bot
    ensures |r| <= |members|
  {
    if members == [] then []
    else if !members[0].bot then [members[0]] + Humans(members[1..])
    else Humans(members[1..])
  }

  /** The invoker's answer to the confirmation: the first matching reaction, or none within a minute. */
  datatype Confirmation = Confirmed | Declined | TimedOut

  /** How a command ends. */
  datatype CommandOutcome =
    | CannotManageRoles
    | TargetTooHigh
    | RoleTooHigh
    | NoMembers
    | Cancelled
    | ConfirmationTimedOut
    | Completed(results: Tally)

  /**
   * The shared tail of both commands: nothing to do without members,
   * then the confirmation, then the assignment.
   */
  method ConfirmAndAssign(members: seq<Member>, role: int, confirm: Confirmation, respond: nat -> nat -> Outcome)
    returns (outcome: CommandOutcome)
    ensures members == [] ==> outcome == NoMembers
    ensures members != [] && confirm == TimedOut ==> outcome == ConfirmationTimedOut
    ensures members != [] && confirm == Declined ==> outcome == Cancelled
    ensures members != [] && confirm == Confirmed ==> outcome == Completed(TallyOf(Results(members, role, respond)))
  {
    if members == [] {
      return NoMembers;
    }
    match confirm
    case TimedOut => outcome := ConfirmationTimedOut;
    case Declined => outcome := Cancelled;
    case Confirmed =>
      var results, _, _ := AssignRoleToMembers(members, role, respond);
      outcome := Completed(results);
  }

  /**
   * `massrole torole`: with the right to manage roles, and the bot's top
   * role above both roles (ranks compared as the platform orders roles),
   * the members holding `target` get `assign` once confirmed.
   */
  method ToRole(canManage: bool, topRank: int, target: int, targetRank: int, assign: int, assignRank: int,
                guildMembers: seq<Member>, confirm: Confirmation, respond: nat -> nat -> Outcome)
    returns (outcome: CommandOutcome)
    ensures !canManage ==> outcome == CannotManageRoles
    ensures canManage && topRank <= targetRank ==> outcome == TargetTooHigh
    ensures canManage && topRank > targetRank && topRank <= assignRank ==> outcome == RoleTooHigh
    ensures canManage && topRank > targetRank && topRank > assignRank ==>
      var members := WithRole(guildMembers, target);
      && (members == [] ==> outcome == NoMembers)
      && (members != [] && confirm == Confirmed ==> outcome == Completed(TallyOf(Results(members, assign, respond))))
      && (members != [] && confirm == Declined ==> outcome == Cancelled)
      && (members != [] && confirm == TimedOut ==> outcome == ConfirmationTimedOut)
  {
    if !canManage {
      return CannotManageRoles;
    }
    if topRank <= targetRank {
      return TargetTooHigh;
    }
    if topRank <= assignRank {
      return RoleTooHigh;
    }
    outcome := ConfirmAndAssign(WithRole(guildMembers, target), assign, confirm, respond);
  }

  /**
   * `massrole toall`: with the right to manage roles and the bot's top
   * role above `assign`, every member who is not a bot gets `assign`
   * once confirmed.
   */
  method ToAll(canManage: bool, topRank: int, assign: int, assignRank: int,
               guildMembers: seq<Member>, confirm: Confirmation, respond: nat -> nat -> Outcome)
    returns (outcome: CommandOutcome)
    ensures !canManage ==> outcome == CannotManageRoles
    ensures canManage && topRank <= assignRank ==> outcome == RoleTooHigh
    ensures canManage && topRank > assignRank ==>
      var members := Humans(guildMembers);
      && (members == [] ==> outcome == NoMembers)
      && (members != [] && confirm == Confirmed ==> outcome == Completed(TallyOf(Results(members, assign, respond))))
      && (members != [] && confirm == Declined ==> outcome == Cancelled)
      && (members != [] && confirm == TimedOut ==> outcome == ConfirmationTimedOut)
  {
    if !canManage {
      return CannotManageRoles;
    }
    if topRank <= assignRank {
      return RoleTooHigh;
    }
    outcome := ConfirmAndAssign(Humans(guildMembers), assign, confirm, respond);
  }
}
