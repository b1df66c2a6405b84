/**
 * The self-roles plugin: a per-user builder that collects role
 * assignments (button, reaction, both or command) and exclusive groups,
 * the published message configurations keyed by message id, and the
 * handlers that give a member a role or take it away.
 *
 * A member's roles are modelled as a set of role ids; the guild's roles as
 * the set (or, where names matter, the map id -> name) of ids that still
 * exist. Sending, editing and deleting platform messages are outcomes
 * passed in as parameters.
 */
module SelfRoles {
  import opened Wrappers
  import opened Text
  import Seqs

  // ---------------------------------------------------------------------
  // Assignment methods

  datatype Method = ButtonMethod | ReactionMethod | BothMethod | CommandMethod

  function MethodName(m: Method): string
  {
    match m
    case ButtonMethod => "button"
    case ReactionMethod => "reaction"
    case BothMethod => "both"
    case CommandMethod => "command"
  }

  /** The method named by an already stripped and lower-cased word. */
  function ParseMethod(word: string): (r: Option<Method>)
    ensures r.Some? ==> MethodName(r.value) == word
    ensures r.None? ==> forall m :: MethodName(m) != word
  {
    if word == "button" then Some(ButtonMethod)
    else if word == "reaction" then Some(ReactionMethod)
    else if word == "both" then Some(BothMethod)
    else if word == "command" then Some(CommandMethod)
    else None
  }

  lemma MethodNameRoundTrip(m: Method)
    ensures ParseMethod(MethodName(m)) == Some(m)
  {
  }

  predicate HasButton(m: Method) { m == ButtonMethod || m == BothMethod }

  predicate HasReaction(m: Method) { m == ReactionMethod || m == BothMethod }

  predicate ByCommand(m: Method) { m == CommandMethod || m == BothMethod }

  // ---------------------------------------------------------------------
  // Builder and published configuration

  datatype Role = Role(id: int, name: string)

  datatype Assignment = Assignment(
    roleId: int,
    how: Method,
    buttonLabel: Option<string>,
    buttonEmoji: Option<string>,
    reactionEmoji: Option<string>,
    group: Option<string>)

  datatype Embed = Embed(
    title: string,
    description: Option<string>,
    color: Option<int>,
    colorHex: Option<string>,
    footer: Option<string>,
    thumbnail: Option<string>)

  /** A user's unfinished message: `embed` is `None` until configured. */
  datatype Builder = Builder(
    embed: Option<Embed>,
    assignments: seq<Assignment>,
    groups: map<string, seq<int>>)

  const EmptyBuilder := Builder(None, [], map[])

  /** A published message: where it lives and what it offers. */
  datatype MessageConfig = MessageConfig(
    channelId: int,
    embed: Option<Embed>,
    assignments: seq<Assignment>,
    groups: map<string, seq<int>>)

  /** A group id counts only when present and non-empty. */
  predicate Truthy(o: Option<string>) { o.Some? && o.value != [] }

  function RoleIds(assignments: seq<Assignment>): (r: seq<int>)
    ensures |r| == |assignments|
    ensures forall k :: 0 <= k < |r| ==> r[k] == assignments[k].roleId
  {
    seq(|assignments|, k requires 0 <= k < |assignments| => assignments[k].roleId)
  }

  /** Every role appears in one assignment at most and in each group at most once. */
  predicate ListsOk(assignments: seq<Assignment>, groups: map<string, seq<int>>)
  {
    && Seqs.NoDup(RoleIds(assignments))
    && forall g :: g in groups ==> Seqs.NoDup(groups[g])
  }

  predicate BuilderOk(b: Builder) { ListsOk(b.assignments, b.groups) }

  predicate ConfigOk(c: MessageConfig) { ListsOk(c.assignments, c.groups) }

  /** The first assignment for `roleId`, as `next(...)` finds it. */
  function FirstFor(assignments: seq<Assignment>, roleId: int): (r: Option<nat>)
    ensures r.Some? ==>
      && r.value < |assignments|
      && assignments[r.value].roleId == roleId
      && forall k :: 0 <= k < r.value ==> assignments[k].roleId != roleId
    ensures r.None? ==> roleId !in RoleIds(assignments)
  {
    if assignments == [] then None
    else if assignments[0].roleId == roleId then Some(0)
    else match FirstFor(assignments[1..], roleId)
      case None => None
      case Some(k) => Some(k + 1)
  }

  /**
   * The group each assignment names, as a relation: a role is listed in a
   * group exactly when its assignment names that group, and no group is
   * empty. Adding and deleting through the builder keep it; a role cleaned
   * out of a published configuration stays in its group list.
   */
  predicate GroupsMatch(assignments: seq<Assignment>, groups: map<string, seq<int>>)
  {
    && (forall g :: g in groups ==> g != [] && groups[g] != [])
    && (forall k :: 0 <= k < |assignments| && Truthy(assignments[k].group) ==>
          && assignments[k].group.value in groups
          && assignments[k].roleId in groups[assignments[k].group.value])
    && (forall g, r :: g in groups && r in groups[g] ==> InGroup(assignments, r, g))
  }

  /** Some assignment gives role `r` group `g`. */
  predicate InGroup(assignments: seq<Assignment>, r: int, g: string)
  {
    exists k :: 0 <= k < |assignments| && assignments[k].roleId == r && assignments[k].group == Some(g)
  }

  // ---------------------------------------------------------------------
  // Adding a role (the add-role modal)

  /** `<@&digits>` at the start of the text, as `re.match` finds a role mention. */
  function MentionId(s: string): (r: Option<nat>)
    ensures r.Some? ==> StartsWith(s, "<@&")
  {
    if StartsWith(s, "<@&") then
      var d := DigitRun(s[3..]);
      if d != [] && 3 + |d| < |s| && s[3 + |d|] == '>' then Some(DigitsValue(d)) else None
    else None
  }

  /** The longest run of digits that starts the text. */
  function DigitRun(s: string): (r: string)
    ensures |r| <= |s| && r == s[..|r|]
    ensures forall i :: 0 <= i < |r| ==> IsDigit(r[i])
    ensures |r| == |s| || !IsDigit(s[|r|])
  {
    if s == [] || !IsDigit(s[0]) then [] else [s[0]] + DigitRun(s[1..])
  }

  lemma {:induction false} DigitRunStops(d: string, rest: string)
    requires forall i :: 0 <= i < |d| ==> IsDigit(d[i])
    requires rest != [] && !IsDigit(rest[0])
    ensures DigitRun(d + rest) == d
  {
    if d != [] {
      assert (d + rest)[1..] == d[1..] + rest;
      DigitRunStops(d[1..], rest);
    } else {
      assert d + rest == rest;
    }
  }

  /** A mention written for a role id gives that id back, whatever follows it. */
  lemma MentionRoundTrip(id: nat, rest: string)
    ensures MentionId("<@&" + NatToDigits(id) + ">" + rest) == Some(id)
  {
    var d := NatToDigits(id);
    var s := "<@&" + d + ">" + rest;
    assert s[3..] == d + (">" + rest);
    DigitRunStops(d, ">" + rest);
    assert s[3 + |d|] == '>';
  }

  /** The first guild role with the given id, as `guild.get_role` finds it. */
  function RoleById(roles: seq<Role>, id: int): (r: Option<Role>)
    ensures r.Some? ==> r.value in roles && r.value.id == id
    ensures r.None? ==> forall k :: 0 <= k < |roles| ==> roles[k].id != id
  {
    if roles == [] then None
    else if roles[0].id == id then Some(roles[0])
    else RoleById(roles[1..], id)
  }

  /** How a typed role name is compared with a guild role's name. */
  datatype NameTest = Exact | Folded | Partial

  predicate NameFits(test: NameTest, name: string, typed: string)
  {
    match test
    case Exact => name == typed
    case Folded => Lower(name) == Lower(typed)
    case Partial => Contains(Lower(name), Lower(typed)) || Contains(Lower(typed), Lower(name))
  }

  /** The first guild role whose name passes the test. */
  function FirstNamed(roles: seq<Role>, test: NameTest, typed: string): (r: Option<Role>)
    ensures r.Some? ==> r.value in roles && NameFits(test, r.value.name, typed)
    ensures r.None? ==> forall k :: 0 <= k < |roles| ==> !NameFits(test, roles[k].name, typed)
  {
    if roles == [] then None
    else if NameFits(test, roles[0].name, typed) then Some(roles[0])
    else FirstNamed(roles[1..], test, typed)
  }

  /**
   * The role the modal's text names, trying in turn a mention, a raw id, the
   * exact name, the name ignoring case, and a name either containing or
   * contained in the text (ignoring case).
   */
  function ResolveRole(typed: string, roles: seq<Role>): (r: Option<Role>)
    ensures r.Some? ==> r.value in roles
    // a mention of an existing role wins over everything else
    ensures MentionId(typed).Some? && (exists k :: 0 <= k < |roles| && roles[k].id == MentionId(typed).value) ==>
      r.Some? && r.value.id == MentionId(typed).value
    // then a raw id of an existing role, still before any name test
    ensures (MentionId(typed).None? || forall k :: 0 <= k < |roles| ==> roles[k].id != MentionId(typed).value) &&
            ParseInt(typed).Some? && (exists k :: 0 <= k < |roles| && roles[k].id == ParseInt(typed).value) ==>
      r.Some? && r.value.id == ParseInt(typed).value
    ensures (exists k :: 0 <= k < |roles| && roles[k].name == typed) ==> r.Some?
    ensures r.None? ==> forall k :: 0 <= k < |roles| ==> !NameFits(Partial, roles[k].name, typed)
  {
    var byMention := if MentionId(typed).Some? then RoleById(roles, MentionId(typed).value) else None;
    if byMention.Some? then byMention
    else
      var byId := if ParseInt(typed).Some? then RoleById(roles, ParseInt(typed).value) else None;
      if byId.Some? then byId
      else
        var exact := FirstNamed(roles, Exact, typed);
        if exact.Some? then exact
        else
          var folded := FirstNamed(roles, Folded, typed);
          if folded.Some? then folded
          else
            var partial := FirstNamed(roles, Partial, typed);
            assert partial.None? ==> forall k :: 0 <= k < |roles| ==> roles[k].name != typed by {
              if partial.None? {
                forall k | 0 <= k < |roles| ensures roles[k].name != typed {
                  assert !NameFits(Exact, roles[k].name, typed);
                }
              }
            }
            partial
  }

  /** The emoji field: stripped, and absent when blank. */
  function ParseEmoji(raw: string): (r: Option<string>)
    ensures r.Some? ==> r.value != [] && Strip(r.value) == r.value
    ensures r.None? <==> Strip(raw) == []
  {
    var s := Strip(raw);
    StripIdempotent(raw);
    if s == [] then None else Some(s)
  }

  const LabelLimit := 80

  /** The button text: the label, or the role name when the label is blank, cut to 77 characters and `...` when longer than 80. */
  function ButtonLabel(caption: string, roleName: string): (r: string)
    ensures |r| <= LabelLimit
    ensures var l := if caption != [] then caption else roleName;
      && (|l| <= LabelLimit ==> r == l)
      && (|l| > LabelLimit ==> r == l[..77] + "...")
  {
    var l := if caption != [] then caption else roleName;
    if |l| > LabelLimit then l[..77] + "..." else l
  }

  /** The assignment the modal builds for a resolved role. */
  function NewAssignment(role: Role, m: Method, caption: string, emoji: Option<string>, group: string): (a: Assignment)
    ensures a.roleId == role.id && a.how == m
    ensures a.buttonLabel.Some? <==> HasButton(m)
    ensures a.buttonLabel.Some? ==> |a.buttonLabel.value| <= LabelLimit
    ensures a.buttonEmoji == (if HasButton(m) then emoji else None)
    ensures a.reactionEmoji == (if HasReaction(m) then emoji else None)
    ensures Truthy(a.group) <==> group != []
    ensures a.group.Some? ==> a.group.value == group
  {
    Assignment(
      role.id, m,
      if HasButton(m) then Some(ButtonLabel(caption, role.name)) else None,
      if HasButton(m) then emoji else None,
      if HasReaction(m) then emoji else None,
      if group != [] then Some(group) else None)
  }

  /**
   * Appends a new role's assignment and, when it names a group, adds the
   * role to that group's list unless it is already there.
   */
  function AddedRole(b: Builder, a: Assignment): (r: Builder)
    requires a.roleId !in RoleIds(b.assignments)
    ensures r.embed == b.embed && r.assignments == b.assignments + [a]
    ensures BuilderOk(b) ==> BuilderOk(r)
    ensures Truthy(a.group) ==>
      && a.group.value in r.groups
      && a.roleId in r.groups[a.group.value]
      && (forall x :: x in r.groups[a.group.value] <==>
            x == a.roleId || (a.group.value in b.groups && x in b.groups[a.group.value]))
      && (a.group.value in b.groups ==> b.groups[a.group.value] <= r.groups[a.group.value])
    ensures forall g :: g in r.groups ==> g in b.groups || (Truthy(a.group) && g == a.group.value)
    ensures forall g :: g in b.groups && !(Truthy(a.group) && g == a.group.value) ==>
      g in r.groups && r.groups[g] == b.groups[g]
  {
    var ids := RoleIds(b.assignments + [a]);
    assert ids == RoleIds(b.assignments) + [a.roleId];
    if Truthy(a.group) then
      var g := a.group.value;
      var list := if g in b.groups then b.groups[g] else [];
      var r := Builder(b.embed, b.assignments + [a], b.groups[g := if a.roleId in list then list else list + [a.roleId]]);
      assert BuilderOk(b) ==> Seqs.NoDup(r.groups[g]) by {
        if BuilderOk(b) && a.roleId !in list {
          assert Seqs.NoDup(list);
        }
      }
      r
    else
      Builder(b.embed, b.assignments + [a], b.groups)
  }

  /** Adding keeps the group relation: the role lands in its own group and nowhere else. */
  lemma AddKeepsGroupsMatch(b: Builder, a: Assignment)
    requires a.roleId !in RoleIds(b.assignments)
    requires BuilderOk(b) && GroupsMatch(b.assignments, b.groups)
    ensures GroupsMatch(AddedRole(b, a).assignments, AddedRole(b, a).groups)
  {
    var r := AddedRole(b, a);
    var n := |b.assignments|;
    assert r.assignments[n] == a;
    forall k | 0 <= k < |r.assignments| && Truthy(r.assignments[k].group)
      ensures r.assignments[k].group.value in r.groups
      ensures r.assignments[k].roleId in r.groups[r.assignments[k].group.value]
    {
      if k < n {
        assert r.assignments[k] == b.assignments[k];
      }
    }
    forall g, x | g in r.groups && x in r.groups[g]
      ensures InGroup(r.assignments, x, g)
    {
      if Truthy(a.group) && g == a.group.value && x == a.roleId {
        assert r.assignments[n].roleId == x && r.assignments[n].group == Some(g);
      } else {
        assert g in b.groups && x in b.groups[g];
        var k :| 0 <= k < n && b.assignments[k].roleId == x && b.assignments[k].group == Some(g);
        assert r.assignments[k] == b.assignments[k];
      }
    }
  }

  // ---------------------------------------------------------------------
  // Deleting a role (the role select menu)

  /**
   * Drops the assignment at `k` (the first one for its role) and takes the
   * role out of its group's list, deleting a list left empty.
   */
  function Deleted(b: Builder, k: nat): (r: Builder)
    requires k < |b.assignments|
    ensures r.embed == b.embed
    ensures r.assignments == b.assignments[..k] + b.assignments[k + 1..]
    ensures BuilderOk(b) ==> BuilderOk(r)
    ensures BuilderOk(b) ==> b.assignments[k].roleId !in RoleIds(r.assignments)
    ensures forall g :: g in r.groups ==> g in b.groups
    ensures (forall g :: g in b.groups ==> b.groups[g] != []) ==> forall g :: g in r.groups ==> r.groups[g] != []
    ensures forall g :: g in b.groups && !(Truthy(b.assignments[k].group) && g == b.assignments[k].group.value) ==>
      g in r.groups && r.groups[g] == b.groups[g]
    ensures Truthy(b.assignments[k].group) && b.assignments[k].group.value in b.groups ==>
      var g := b.assignments[k].group.value;
      && (forall x :: x != b.assignments[k].roleId ==> (x in b.groups[g] <==> g in r.groups && x in r.groups[g]))
      && (BuilderOk(b) && g in r.groups ==> b.assignments[k].roleId !in r.groups[g])
  {
    var a := b.assignments[k];
    var rest := b.assignments[..k] + b.assignments[k + 1..];
    RemovedAtKeepsIds(b.assignments, k);
    var groups :=
      if Truthy(a.group) && a.group.value in b.groups && a.roleId in b.groups[a.group.value] then
        var list := Seqs.RemoveFirst(b.groups[a.group.value], a.roleId);
        Seqs.RemoveFirstFacts(b.groups[a.group.value], a.roleId);
        if list == [] then b.groups - {a.group.value} else b.groups[a.group.value := list]
      else b.groups;
    var r := Builder(b.embed, rest, groups);
    r
  }

  /** Dropping the assignment at `k` drops the role id at `k`. */
  lemma RoleIdsRemovedAt(assignments: seq<Assignment>, k: nat)
    requires k < |assignments|
    ensures RoleIds(assignments[..k] + assignments[k + 1..]) == RoleIds(assignments)[..k] + RoleIds(assignments)[k + 1..]
  {
    var ids := RoleIds(assignments);
    var rest := assignments[..k] + assignments[k + 1..];
    var left := ids[..k] + ids[k + 1..];
    forall i | 0 <= i < |left| ensures RoleIds(rest)[i] == left[i] {
      if i < k {
        assert rest[i] == assignments[i];
      } else {
        assert rest[i] == assignments[i + 1];
      }
    }
  }

  /** The role ids left after dropping index `k` stay distinct and lack the dropped one. */
  lemma RemovedAtKeepsIds(assignments: seq<Assignment>, k: nat)
    requires k < |assignments|
    ensures Seqs.NoDup(RoleIds(assignments)) ==>
      && Seqs.NoDup(RoleIds(assignments[..k] + assignments[k + 1..]))
      && assignments[k].roleId !in RoleIds(assignments[..k] + assignments[k + 1..])
  {
    RoleIdsRemovedAt(assignments, k);
    if Seqs.NoDup(RoleIds(assignments)) {
      Seqs.NoDupRemovedAt(RoleIds(assignments), k);
    }
  }

  /** A role without an assignment is in no group's list. */
  lemma UnassignedUnlisted(b: Builder, x: int)
    requires x !in RoleIds(b.assignments)
    requires GroupsMatch(b.assignments, b.groups)
    ensures forall g :: g in b.groups ==> x !in b.groups[g]
  {
  }

  /** Deleting a role just added gives back the builder it was added to. */
  lemma AddThenDelete(b: Builder, a: Assignment)
    requires a.roleId !in RoleIds(b.assignments)
    requires GroupsMatch(b.assignments, b.groups)
    ensures Deleted(AddedRole(b, a), |b.assignments|) == b
  {
    var n := |b.assignments|;
    var r := AddedRole(b, a);
    assert r.assignments[n] == a;
    assert r.assignments[..n] + r.assignments[n + 1..] == b.assignments;
    if Truthy(a.group) {
      var g := a.group.value;
      var list := if g in b.groups then b.groups[g] else [];
      UnassignedUnlisted(b, a.roleId);
      Seqs.RemoveFirstAppended(list, a.roleId);
      assert r.groups[g] == list + [a.roleId];
    }
  }

  // ---------------------------------------------------------------------
  // Button custom ids

  const CustomIdPrefix := "selfrole:"

  /** The custom id of a role's button. */
  function CustomId(roleId: int): (r: string)
    ensures StartsWith(r, CustomIdPrefix) && |r| > |CustomIdPrefix|
  {
    CustomIdPrefix + IntToString(roleId)
  }

  /** The role id of a component's custom id: our prefix, then an integer (spaces allowed). */
  function ParseCustomId(id: string): (r: Option<int>)
    ensures !StartsWith(id, CustomIdPrefix) ==> r.None?
    ensures StartsWith(id, CustomIdPrefix) ==> r == ParseInt(id[|CustomIdPrefix|..])
  {
    if StartsWith(id, CustomIdPrefix) then
      ParseIntStripped(id[|CustomIdPrefix|..]);
      ParseInt(Strip(id[|CustomIdPrefix|..]))
    else None
  }

  /** A button's custom id leads back to its role. */
  lemma CustomIdRoundTrip(roleId: int)
    ensures ParseCustomId(CustomId(roleId)) == Some(roleId)
  {
    var id := CustomId(roleId);
    assert id[|CustomIdPrefix|..] == IntToString(roleId);
    IntToStringRoundTrip(roleId);
  }

  /**
   * The role a component interaction is dispatched to: only component
   * interactions not yet answered, whose custom id parses, are handled.
   */
  function DispatchedRole(isComponent: bool, customId: Option<string>, answered: bool): (r: Option<int>)
    ensures r.Some? ==> isComponent && !answered && customId.Some?
    ensures r.Some? ==> CustomId(r.value) == CustomIdPrefix + IntToString(r.value) && StartsWith(customId.value, CustomIdPrefix)
    ensures isComponent && !answered && customId.Some? ==> r == ParseCustomId(customId.value)
  {
    if !isComponent then None
    else
      var id := customId.GetOr("");
      if !StartsWith(id, CustomIdPrefix) then None
      else if answered then None
      else ParseCustomId(id)
  }

  // ---------------------------------------------------------------------
  // Embed colour

  predicate IsHexDigit(c: char) { '0' <= c <= '9' || 'a' <= c <= 'f' || 'A' <= c <= 'F' }

  function HexDigitValue(c: char): (v: nat)
    requires IsHexDigit(c)
    ensures v < 16
  {
    if '0' <= c <= '9' then c as int - '0' as int
    else if 'a' <= c <= 'f' then c as int - 'a' as int + 10
    else c as int - 'A' as int + 10
  }

  predicate AllHex(s: string) { forall i :: 0 <= i < |s| ==> IsHexDigit(s[i]) }

  function HexValue(s: string): nat
    requires AllHex(s)
    decreases |s|
  {
    if s == [] then 0 else HexValue(s[..|s| - 1]) * 16 + HexDigitValue(s[|s| - 1])
  }

  /**
   * `int(s, 16)`: surrounding whitespace, an optional sign, an optional
   * `0x`/`0X` prefix and at least one hex digit; otherwise `None`.
   */
  function ParseHex(s: string): (r: Option<int>)
    ensures r.Some? ==> Strip(s) != []
    ensures AllHex(s) && s != [] && !(|s| >= 2 && s[0] == '0' && (s[1] == 'x' || s[1] == 'X')) ==> r == Some(HexValue(s))
  {
    var t := Strip(s);
    assert AllHex(s) && s != [] ==> t == s by {
      if AllHex(s) && s != [] {
        StripTrimmed(s);
      }
    }
    if t == [] then None
    else
      var unsigned := if t[0] == '-' || t[0] == '+' then t[1..] else t;
      var body := if |unsigned| >= 2 && unsigned[0] == '0' && (unsigned[1] == 'x' || unsigned[1] == 'X') then unsigned[2..] else unsigned;
      if body != [] && AllHex(body) then
        Some(if t[0] == '-' then -(HexValue(body) as int) else HexValue(body))
      else None
  }

  function Pow16(n: nat): (p: nat)
    ensures p >= 1
  {
    if n == 0 then 1 else 16 * Pow16(n - 1)
  }

  function HexChar(d: nat): (c: char)
    requires d < 16
    ensures IsHexDigit(c) && HexDigitValue(c) == d
    ensures '0' <= c <= '9' || 'a' <= c <= 'f'
  {
    if d < 10 then (d + '0' as int) as char else (d - 10 + 'a' as int) as char
  }

  /** `n` as exactly `width` lower-case hex digits, the way a colour such as `#1abc9c` is written. */
  function ToHex(n: nat, width: nat): (s: string)
    requires n < Pow16(width)
    ensures |s| == width && AllHex(s)
    ensures forall i :: 0 <= i < |s| ==> '0' <= s[i] <= '9' || 'a' <= s[i] <= 'f'
    ensures HexValue(s) == n
    decreases width
  {
    if width == 0 then []
    else
      var p := ToHex(n / 16, width - 1);
      var s := p + [HexChar(n % 16)];
      assert s[..|s| - 1] == p;
      s
  }

  /** `s.lstrip("#")`. */
  function LStripHash(s: string): (r: string)
    ensures |r| <= |s| && r == s[|s| - |r|..]
    ensures r == [] || r[0] != '#'
    ensures forall i :: 0 <= i < |s| - |r| ==> s[i] == '#'
  {
    if s != [] && s[0] == '#' then LStripHash(s[1..]) else s
  }

  datatype Colour = Colour(value: Option<int>, hex: Option<string>)

  /**
   * The colour field: stripped and with leading `#`s removed; six
   * characters are parsed as hex, and a failed parse clears both parts;
   * any other non-empty text is kept as the hex string with no value.
   */
  function ParseColour(raw: string): (r: Colour)
    ensures Strip(raw) == [] ==> r == Colour(None, None)
    ensures r.value.Some? ==> r.hex.Some? && |r.hex.value| == 6 && ParseHex(r.hex.value) == r.value
    ensures r.hex.Some? ==> r.hex.value != [] && r.hex.value[0] != '#' && (|r.hex.value| == 6 ==> r.value.Some?)
  {
    var s := Strip(raw);
    if s == [] then Colour(None, None)
    else
      var h := LStripHash(s);
      if |h| == 6 then
        match ParseHex(h)
        case Some(v) => Colour(Some(v), Some(h))
        case None => Colour(None, None)
      else Colour(None, if h == [] then None else Some(h))
  }

  lemma HashedHexTrimmed(h: string)
    requires h != [] && AllHex(h)
    ensures Strip("#" + h) == "#" + h
  {
    var s := "#" + h;
    assert s[|s| - 1] == h[|h| - 1];
    StripTrimmed(s);
  }

  /** One leading `#` before text that does not start with one is removed. */
  lemma HashStripped(h: string)
    requires h != [] && h[0] != '#'
    ensures LStripHash("#" + h) == h
  {
    assert ("#" + h)[1..] == h;
  }

  /** Lower-case hex digits, as `ToHex` writes them, parse back to their value. */
  lemma LowerHexParses(h: string)
    requires h != [] && forall i :: 0 <= i < |h| ==> '0' <= h[i] <= '9' || 'a' <= h[i] <= 'f'
    ensures AllHex(h) && ParseHex(h) == Some(HexValue(h))
  {
    if |h| >= 2 {
      assert h[1] != 'x' && h[1] != 'X';
    }
  }

  /** A colour written as `#` and six hex digits is read back with its value. */
  lemma ColourRoundTrip(c: nat)
    requires c < 0x100_0000
    ensures ParseColour("#" + ToHex(c, 6)) == Colour(Some(c), Some(ToHex(c, 6)))
  {
    assert Pow16(6) == 0x100_0000 by {
      assert Pow16(2) == 256;
      assert Pow16(4) == 256 * 256;
    }
    var h := ToHex(c, 6);
    HashedHexTrimmed(h);
    HashStripped(h);
    LowerHexParses(h);
  }

  // ---------------------------------------------------------------------
  // Giving and taking roles

  /** The first assignment for a role, if the message has one. */
  function AssignmentFor(assignments: seq<Assignment>, roleId: int): (r: Option<Assignment>)
    ensures r.Some? ==> r.value in assignments && r.value.roleId == roleId
    ensures r.None? ==> roleId !in RoleIds(assignments)
  {
    match FirstFor(assignments, roleId)
    case Some(k) => Some(assignments[k])
    case None => None
  }

  /** The role ids of the group an assignment names (`groups.get(id, [])`); none without a group. */
  function GroupRoles(groups: map<string, seq<int>>, a: Option<Assignment>): (r: seq<int>)
    ensures r != [] ==> a.Some? && Truthy(a.value.group) && a.value.group.value in groups
  {
    if a.Some? && Truthy(a.value.group) && a.value.group.value in groups then groups[a.value.group.value] else []
  }

  /**
   * Giving `role`: the member's other roles listed in the group that the
   * guild still has are taken away first, then the role is added.
   */
  function Granted(held: set<int>, role: int, group: seq<int>, guildRoles: set<int>): (r: set<int>)
    ensures role in r && r <= held + {role}
    ensures forall x :: x != role && x !in group ==> (x in r <==> x in held)
    ensures forall x :: x != role && x in group && x in guildRoles ==> x !in r
    ensures held <= guildRoles ==> forall x :: x in group && x in r ==> x == role
  {
    (held - set x | x in group && x != role && x in guildRoles && x in held) + {role}
  }

  /** A click or a `role` command: a held role is taken away, any other is granted. */
  function Toggled(held: set<int>, role: int, group: seq<int>, guildRoles: set<int>): (r: set<int>)
    ensures role in r <==> role !in held
    ensures role in held ==> r == held - {role}
    ensures forall x :: x != role && x !in group ==> (x in r <==> x in held)
    ensures role !in held && held <= guildRoles ==> forall x :: x in group && x in r ==> x == role
  {
    if role in held then held - {role} else Granted(held, role, group, guildRoles)
  }

  datatype Click = NotInGuild | RoleGone | Unconfigured | Clicked(held: set<int>)

  /**
   * A role button pressed on a message: refused outside a guild, for a
   * role the guild no longer has, or on a message no longer configured;
   * otherwise the role is toggled, keeping its group exclusive.
   */
  function ButtonClick(inGuild: bool, config: Option<MessageConfig>, role: int, guildRoles: set<int>, held: set<int>): (r: Click)
    ensures r.Clicked? <==> inGuild && role in guildRoles && config.Some?
    ensures !inGuild ==> r == NotInGuild
    ensures inGuild && role !in guildRoles ==> r == RoleGone
    ensures r.Clicked? ==>
      r.held == Toggled(held, role, GroupRoles(config.value.groups, AssignmentFor(config.value.assignments, role)), guildRoles)
  {
    if !inGuild then NotInGuild
    else if role !in guildRoles then RoleGone
    else if config.None? then Unconfigured
    else
      var group := GroupRoles(config.value.groups, AssignmentFor(config.value.assignments, role));
      Clicked(Toggled(held, role, group, guildRoles))
  }

  /** A `role` command query matches an assignment offered by command whose role's name contains it, ignoring case. */
  predicate CommandMatch(a: Assignment, names: map<int, string>, typed: string)
  {
    a.roleId in names && Contains(Lower(names[a.roleId]), Lower(typed)) && ByCommand(a.how)
  }

  /** Every (message, position) whose assignment matches the query. */
  function Matches(messages: map<int, MessageConfig>, names: map<int, string>, typed: string): (r: set<(int, int)>)
    ensures forall p :: p in r <==>
      && p.0 in messages
      && 0 <= p.1 < |messages[p.0].assignments|
      && CommandMatch(messages[p.0].assignments[p.1], names, typed)
  {
    var r := set m, k | m in messages && 0 <= k < |messages[m].assignments| && CommandMatch(messages[m].assignments[k], names, typed) :: (m, k);
    assert forall p: (int, int) | p.0 in messages && 0 <= p.1 < |messages[p.0].assignments| && CommandMatch(messages[p.0].assignments[p.1], names, typed) :: p in r by {
      forall p: (int, int) | p.0 in messages && 0 <= p.1 < |messages[p.0].assignments| && CommandMatch(messages[p.0].assignments[p.1], names, typed)
        ensures p in r
      {
        var m, k := p.0, p.1;
        assert CommandMatch(messages[m].assignments[k], names, typed);
        assert (m, k) in r;
      }
    }
    r
  }

  datatype CommandReply = NoMatch | Ambiguous(count: nat) | Commanded(roleId: int, held: set<int>)

  /**
   * The `role` command: no match and several matches are refused; a single
   * match toggles its role, keeping its group exclusive.
   */
  method RoleCommand(messages: map<int, MessageConfig>, names: map<int, string>, typed: string, held: set<int>)
    returns (r: CommandReply)
    ensures r == NoMatch <==> Matches(messages, names, typed) == {}
    ensures r.Ambiguous? <==> |Matches(messages, names, typed)| > 1
    ensures r.Ambiguous? ==> r.count == |Matches(messages, names, typed)|
    ensures r.Commanded? ==> exists m, k ::
      && Matches(messages, names, typed) == {(m, k)}
      && r.roleId == messages[m].assignments[k].roleId
      && r.held == Toggled(held, r.roleId, GroupRoles(messages[m].groups, Some(messages[m].assignments[k])), names.Keys)
  {
    var found := Matches(messages, names, typed);
    if found == {} {
      return NoMatch;
    }
    if |found| > 1 {
      return Ambiguous(|found|);
    }
    ghost var some := Seqs.Pick(found);
    var p :| p in found;
    assert found == {p} by {
      assert |found - {p}| == 0;
    }
    var a := messages[p.0].assignments[p.1];
    var group := GroupRoles(messages[p.0].groups, Some(a));
    r := Commanded(a.roleId, Toggled(held, a.roleId, group, names.Keys));
  }

  /** How the stored reaction emoji compares with the reacted one (`str(None)` is `"None"`). */
  function EmojiText(e: Option<string>): string
  {
    if e.Some? then e.value else "None"
  }

  /** The first reaction-offering assignment whose emoji is the reacted one. */
  function ReactionIndex(assignments: seq<Assignment>, emoji: string): (r: Option<nat>)
    ensures r.Some? ==>
      && r.value < |assignments|
      && HasReaction(assignments[r.value].how)
      && EmojiText(assignments[r.value].reactionEmoji) == emoji
    ensures r.None? ==> forall k :: 0 <= k < |assignments| && HasReaction(assignments[k].how) ==>
      EmojiText(assignments[k].reactionEmoji) != emoji
    ensures r.Some? ==> forall k :: 0 <= k < r.value && HasReaction(assignments[k].how) ==>
      EmojiText(assignments[k].reactionEmoji) != emoji
  {
    if assignments == [] then None
    else if HasReaction(assignments[0].how) && EmojiText(assignments[0].reactionEmoji) == emoji then Some(0)
    else match ReactionIndex(assignments[1..], emoji)
      case None => None
      case Some(k) => Some(k + 1)
  }

  datatype Reaction = Ignored | Stale(roleId: int) | Reacted(held: set<int>)

  /** The role a reaction on a configured message is for, if any. */
  function ReactionRole(config: Option<MessageConfig>, emoji: string): (r: Option<Assignment>)
    ensures r.Some? ==> config.Some? && r.value in config.value.assignments && HasReaction(r.value.how)
  {
    if config.None? then None
    else match ReactionIndex(config.value.assignments, emoji)
      case Some(k) => Some(config.value.assignments[k])
      case None => None
  }

  /**
   * A reaction added by a member (not a bot): a deleted role is reported
   * stale; without the manage-roles permission, for a role at or above the
   * bot's, or for a role already held nothing happens; otherwise the role
   * is granted, keeping its group exclusive.
   */
  function ReactionAdded(human: bool, config: Option<MessageConfig>, emoji: string, guildRoles: set<int>,
                         manageRoles: bool, manageable: set<int>, held: set<int>): (r: Reaction)
    ensures r.Stale? ==> ReactionRole(config, emoji).Some? && r.roleId == ReactionRole(config, emoji).value.roleId && r.roleId !in guildRoles
    ensures ReactionRole(config, emoji).Some? && ReactionRole(config, emoji).value.roleId in held ==> !r.Reacted?
    ensures r.Reacted? ==>
      && human && manageRoles && ReactionRole(config, emoji).Some?
      && var a := ReactionRole(config, emoji).value;
      && a.roleId in manageable && a.roleId !in held
      && r.held == Granted(held, a.roleId, GroupRoles(config.value.groups, Some(a)), guildRoles)
    ensures !human || ReactionRole(config, emoji).None? ==> r == Ignored
    ensures human && ReactionRole(config, emoji).Some? && ReactionRole(config, emoji).value.roleId !in guildRoles ==>
      r == Stale(ReactionRole(config, emoji).value.roleId)
    ensures human && manageRoles && ReactionRole(config, emoji).Some? ==>
      var a := ReactionRole(config, emoji).value;
      a.roleId in guildRoles && a.roleId in manageable && a.roleId !in held ==>
        r == Reacted(Granted(held, a.roleId, GroupRoles(config.value.groups, Some(a)), guildRoles))
  {
    var a := ReactionRole(config, emoji);
    if !human || a.None? then Ignored
    else if a.value.roleId !in guildRoles then Stale(a.value.roleId)
    else if !manageRoles || a.value.roleId !in manageable || a.value.roleId in held then Ignored
    else Reacted(Granted(held, a.value.roleId, GroupRoles(config.value.groups, a), guildRoles))
  }

  /**
   * A reaction removed by a member: a deleted role is reported stale;
   * without the manage-roles permission or for a role not held nothing
   * happens; otherwise only that role is taken away.
   */
  function ReactionRemoved(human: bool, config: Option<MessageConfig>, emoji: string, guildRoles: set<int>,
                           manageRoles: bool, held: set<int>): (r: Reaction)
    ensures r.Stale? ==> ReactionRole(config, emoji).Some? && r.roleId == ReactionRole(config, emoji).value.roleId && r.roleId !in guildRoles
    ensures ReactionRole(config, emoji).Some? && ReactionRole(config, emoji).value.roleId !in held && ReactionRole(config, emoji).value.roleId in guildRoles ==> r == Ignored
    ensures r.Reacted? ==> human && manageRoles && ReactionRole(config, emoji).Some? && r.held == held - {ReactionRole(config, emoji).value.roleId}
    ensures r.Reacted? ==> |r.held| == |held| - 1
    ensures !human || ReactionRole(config, emoji).None? ==> r == Ignored
    ensures human && ReactionRole(config, emoji).Some? && ReactionRole(config, emoji).value.roleId !in guildRoles ==>
      r == Stale(ReactionRole(config, emoji).value.roleId)
    ensures human && manageRoles && ReactionRole(config, emoji).Some? ==>
      var id := ReactionRole(config, emoji).value.roleId;
      id in guildRoles && id in held ==> r == Reacted(held - {id})
  {
    var a := ReactionRole(config, emoji);
    if !human || a.None? then Ignored
    else if a.value.roleId !in guildRoles then Stale(a.value.roleId)
    else if !manageRoles || a.value.roleId !in held then Ignored
    else Reacted(held - {a.value.roleId})
  }

  /** `[a for a in assignments if a["role_id"] != roleId]`. */
  function WithoutRole(assignments: seq<Assignment>, roleId: int): (r: seq<Assignment>)
    ensures forall a :: a in r <==> a in assignments && a.roleId != roleId
    ensures roleId !in RoleIds(r)
    ensures forall x :: x in RoleIds(r) ==> x in RoleIds(assignments)
    ensures Seqs.NoDup(RoleIds(assignments)) ==> Seqs.NoDup(RoleIds(r))
  {
    if assignments == [] then []
    else
      var rest := WithoutRole(assignments[1..], roleId);
      RoleIdsCons(assignments[0], assignments[1..]);
      assert [assignments[0]] + assignments[1..] == assignments;
      Seqs.NoDupCons(assignments[0].roleId, RoleIds(assignments[1..]));
      if assignments[0].roleId == roleId then rest
      else
        RoleIdsCons(assignments[0], rest);
        Seqs.NoDupCons(assignments[0].roleId, RoleIds(rest));
        [assignments[0]] + rest
  }

  /** The role ids of a list with one more assignment in front. */
  lemma RoleIdsCons(a: Assignment, s: seq<Assignment>)
    ensures RoleIds([a] + s) == [a.roleId] + RoleIds(s)
  {
  }

  // ---------------------------------------------------------------------
  // The plugin's state

  datatype AddReply = InvalidMethod | RoleNotFound | NoManageRoles | RoleTooHigh | AlreadyAdded | RoleAdded

  datatype Reply = NoSession | RoleMissing | AssignmentMissing | ChannelMissing | SendFailed | NotConfigured | Done

  datatype AddCheck = Refused(reply: AddReply) | Accepted(role: Role, how: Method)

  /**
   * The add-role modal's checks, in order: the method word (stripped and
   * lower-cased), the role, the manage-roles permission, and the role
   * ranking below the bot's highest role.
   */
  function CheckAdd(roleText: string, methodText: string, roles: seq<Role>, manageRoles: bool, manageable: set<int>): (r: AddCheck)
    ensures r == Refused(InvalidMethod) <==> ParseMethod(Lower(Strip(methodText))).None?
    ensures r == Refused(RoleNotFound) <==>
      ParseMethod(Lower(Strip(methodText))).Some? && ResolveRole(Strip(roleText), roles).None?
    ensures r.Refused? ==> r.reply in {InvalidMethod, RoleNotFound, NoManageRoles, RoleTooHigh}
    ensures r.Accepted? ==>
      && manageRoles && r.role.id in manageable && r.role in roles
      && MethodName(r.how) == Lower(Strip(methodText))
  {
    var how := ParseMethod(Lower(Strip(methodText)));
    var role := ResolveRole(Strip(roleText), roles);
    if how.None? then Refused(InvalidMethod)
    else if role.None? then Refused(RoleNotFound)
    else if !manageRoles then Refused(NoManageRoles)
    else if role.value.id !in manageable then Refused(RoleTooHigh)
    else Accepted(role.value, how.value)
  }

  /** The embed the configuration modal stores. */
  function ModalEmbed(title: string, description: string, colour: string, footer: string, thumbnail: string): (e: Embed)
    ensures e.title == title
    ensures e.description.None? <==> description == []
    ensures e.footer.None? <==> footer == []
    ensures e.color == ParseColour(colour).value && e.colorHex == ParseColour(colour).hex
    ensures e.thumbnail.None? <==> thumbnail == []
  {
    var c := ParseColour(colour);
    Embed(
      title,
      if description == [] then None else Some(description),
      c.value,
      c.hex,
      if footer == [] then None else Some(footer),
      if thumbnail == [] then None else Some(Strip(thumbnail)))
  }

  datatype SendCheck = SendNoSession | NoTitle | NoRoles | NoChannel | PickChannel

  /**
   * The send button of a new message: it needs an open builder whose embed
   * has a title and which offers at least one role, and some text channel
   * where the bot may send messages with embeds (`writable`); then the
   * channel select opens.
   */
  function SendCheckOf(b: Option<Builder>, writable: bool): (r: SendCheck)
    ensures r == SendNoSession <==> b.None?
    ensures r == NoTitle <==> b.Some? && (b.value.embed.None? || b.value.embed.value.title == [])
    ensures r == NoRoles <==> b.Some? && b.value.embed.Some? && b.value.embed.value.title != [] && b.value.assignments == []
    ensures r == PickChannel <==>
      b.Some? && b.value.embed.Some? && b.value.embed.value.title != [] && b.value.assignments != [] && writable
  {
    if b.None? then SendNoSession
    else if b.value.embed.None? || b.value.embed.value.title == [] then NoTitle
    else if b.value.assignments == [] then NoRoles
    else if !writable then NoChannel
    else PickChannel
  }

  /** A builder given a titled embed and then a role is ready to be sent wherever the bot may write. */
  lemma ConfiguredIsSendable(b: Builder, a: Assignment, title: string, description: string, colour: string, footer: string, thumbnail: string)
    requires title != [] && a.roleId !in RoleIds(b.assignments)
    ensures SendCheckOf(Some(AddedRole(b.(embed := Some(ModalEmbed(title, description, colour, footer, thumbnail))), a)), true) == PickChannel
    ensures SendCheckOf(Some(b.(embed := Some(ModalEmbed(title, description, colour, footer, thumbnail)))), true) == PickChannel <==> b.assignments != []
  {
  }

  /** The builders of users part-way through a message, and the published messages of one guild. */
  class SelfRoleStore {
    var builders: map<int, Builder>
    var messages: map<int, MessageConfig>

    ghost predicate Valid()
      reads this
    {
      && (forall u :: u in builders ==> BuilderOk(builders[u]))
      && (forall m :: m in messages ==> ConfigOk(messages[m]))
    }

    constructor()
      ensures Valid()
      ensures builders == map[] && messages == map[]
    {
      builders := map[];
      messages := map[];
    }

    /** The user's builder, or a fresh one. */
    function Session(user: int): (b: Builder)
      reads this
      ensures user !in builders ==> b == EmptyBuilder
      ensures Valid() ==> BuilderOk(b)
    {
      if user in builders then builders[user] else EmptyBuilder
    }

    /** The embed modal: stores the embed in the user's builder, opening one if needed. */
    method ConfigureEmbed(user: int, title: string, description: string, colour: string, footer: string, thumbnail: string)
      requires Valid()
      modifies this
      ensures Valid()
      ensures builders == old(builders)[user := old(Session(user)).(embed := Some(ModalEmbed(title, description, colour, footer, thumbnail)))]
      ensures messages == old(messages)
    {
      var b := Session(user);
      builders := builders[user := b.(embed := Some(ModalEmbed(title, description, colour, footer, thumbnail)))];
    }

    /**
     * The add-role modal: once the checks pass, opens a builder if needed,
     * refuses a role already added and otherwise adds the assignment.
     */
    method AddRole(user: int, roleText: string, methodText: string, captionText: string, emojiText: string,
                   groupText: string, roles: seq<Role>, manageRoles: bool, manageable: set<int>)
      returns (reply: AddReply)
      requires Valid()
      modifies this
      ensures Valid()
      ensures messages == old(messages)
      ensures var c := CheckAdd(roleText, methodText, roles, manageRoles, manageable);
        && (c.Refused? ==> reply == c.reply)
        && (c.Accepted? ==> (reply == AlreadyAdded <==> c.role.id in RoleIds(old(Session(user)).assignments)))
        && (c.Accepted? && c.role.id !in RoleIds(old(Session(user)).assignments) ==> reply == RoleAdded)
        && (reply != RoleAdded ==> builders == old(builders))
        && (reply == RoleAdded ==>
              && c.Accepted?
              && builders == old(builders)[user := AddedRole(old(Session(user)),
                   NewAssignment(c.role, c.how, Strip(captionText), ParseEmoji(emojiText), Strip(groupText)))])
    {
      var c := CheckAdd(roleText, methodText, roles, manageRoles, manageable);
      if c.Refused? {
        return c.reply;
      }
      var a := NewAssignment(c.role, c.how, Strip(captionText), ParseEmoji(emojiText), Strip(groupText));
      var added := AddAssignment(user, a);
      reply := if added then RoleAdded else AlreadyAdded;
    }

    /** The end of the add-role modal: a role already in the user's builder is refused, any other appended. */
    method AddAssignment(user: int, a: Assignment) returns (added: bool)
      requires Valid()
      modifies this
      ensures Valid()
      ensures messages == old(messages)
      ensures added <==> a.roleId !in RoleIds(old(Session(user)).assignments)
      ensures !added ==> builders == old(builders)
      ensures added ==> builders == old(builders)[user := AddedRole(old(Session(user)), a)]
    {
      var b := Session(user);
      if a.roleId in RoleIds(b.assignments) {
        return false;
      }
      builders := builders[user := AddedRole(b, a)];
      added := true;
    }

    /** The delete choice of the role select menu. */
    method DeleteRole(user: int, roleId: int, guildRoles: set<int>) returns (reply: Reply)
      requires Valid()
      modifies this
      ensures Valid()
      ensures messages == old(messages)
      ensures reply == RoleMissing <==> roleId !in guildRoles
      ensures reply == NoSession <==> roleId in guildRoles && user !in old(builders)
      ensures reply == AssignmentMissing <==>
        roleId in guildRoles && user in old(builders) && roleId !in RoleIds(old(builders)[user].assignments)
      ensures reply == Done <==>
        roleId in guildRoles && user in old(builders) && roleId in RoleIds(old(builders)[user].assignments)
      ensures reply != Done ==> builders == old(builders)
      ensures reply == Done ==>
        && user in old(builders)
        && FirstFor(old(builders)[user].assignments, roleId).Some?
        && builders == old(builders)[user := Deleted(old(builders)[user], FirstFor(old(builders)[user].assignments, roleId).value)]
        && roleId !in RoleIds(builders[user].assignments)
    {
      if roleId !in guildRoles {
        return RoleMissing;
      }
      if user !in builders {
        return NoSession;
      }
      var b := builders[user];
      var k := FirstFor(b.assignments, roleId);
      if k.None? {
        return AssignmentMissing;
      }
      builders := builders[user := Deleted(b, k.value)];
      reply := Done;
    }

    /**
     * The channel select: once the message is sent (`sent` is its id) the
     * builder becomes that message's configuration and is closed.
     */
    method Publish(user: int, channelFound: bool, channelId: int, sent: Option<int>) returns (reply: Reply)
      requires Valid()
      modifies this
      ensures Valid()
      ensures reply == ChannelMissing <==> !channelFound
      ensures reply == NoSession <==> channelFound && user !in old(builders)
      ensures reply == SendFailed <==> channelFound && user in old(builders) && sent.None?
      ensures reply == Done <==> channelFound && user in old(builders) && sent.Some?
      ensures reply != Done ==> builders == old(builders) && messages == old(messages)
      ensures reply == Done ==>
        && user in old(builders) && sent.Some?
        && var b := old(builders)[user];
        && messages == old(messages)[sent.value := MessageConfig(channelId, b.embed, b.assignments, b.groups)]
        && builders == old(builders) - {user}
    {
      if !channelFound {
        return ChannelMissing;
      }
      if user !in builders {
        return NoSession;
      }
      if sent.None? {
        return SendFailed;
      }
      var b := builders[user];
      messages := messages[sent.value := MessageConfig(channelId, b.embed, b.assignments, b.groups)];
      builders := builders - {user};
      reply := Done;
    }

    /** The cancel button: the user's builder is discarded. */
    method Cancel(user: int)
      requires Valid()
      modifies this
      ensures Valid()
      ensures builders == old(builders) - {user} && messages == old(messages)
    {
      builders := builders - {user};
    }

    /** `selfroles delete`: forgets a message's configuration. */
    method DeleteMessage(messageId: int) returns (reply: Reply)
      requires Valid()
      modifies this
      ensures Valid()
      ensures reply == NotConfigured <==> messageId !in old(messages)
      ensures reply == Done <==> messageId in old(messages)
      ensures reply == Done ==> messages == old(messages) - {messageId}
      ensures reply != Done ==> messages == old(messages)
      ensures builders == old(builders)
    {
      if messageId !in messages {
        return NotConfigured;
      }
      messages := messages - {messageId};
      reply := Done;
    }

    /**
     * `selfroles refresh`: the message is sent again and its configuration
     * moves, unchanged, to the new message id.
     */
    method Refresh(messageId: int, channelFound: bool, sent: Option<int>) returns (reply: Reply)
      requires Valid()
      modifies this
      ensures Valid()
      ensures reply == NotConfigured <==> messageId !in old(messages)
      ensures reply == ChannelMissing <==> messageId in old(messages) && !channelFound
      ensures reply == SendFailed <==> messageId in old(messages) && channelFound && sent.None?
      ensures reply == Done <==> messageId in old(messages) && channelFound && sent.Some?
      ensures reply != Done ==> messages == old(messages)
      ensures reply == Done ==>
        && messageId in old(messages) && sent.Some?
        && sent.value in messages && messages[sent.value] == old(messages)[messageId]
        && messages == (old(messages) - {messageId})[sent.value := old(messages)[messageId]]
      ensures builders == old(builders)
    {
      if messageId !in messages {
        return NotConfigured;
      }
      if !channelFound {
        return ChannelMissing;
      }
      if sent.None? {
        return SendFailed;
      }
      var config := messages[messageId];
      messages := (messages - {messageId})[sent.value := config];
      reply := Done;
    }

    /** Drops a deleted role's assignments from a message's configuration; its groups are left as they are. */
    method CleanupInvalidRole(messageId: int, roleId: int)
      requires Valid()
      modifies this
      ensures Valid()
      ensures messageId !in old(messages) ==> messages == old(messages)
      ensures messageId in old(messages) ==>
        messages == old(messages)[messageId := old(messages)[messageId].(assignments := WithoutRole(old(messages)[messageId].assignments, roleId))]
      ensures builders == old(builders)
    {
      if messageId in messages {
        var c := messages[messageId];
        messages := messages[messageId := c.(assignments := WithoutRole(c.assignments, roleId))];
      }
    }

    /** A reaction added to a message; a deleted role is cleaned out of its configuration. */
    method OnReactionAdd(human: bool, messageId: int, emoji: string, guildRoles: set<int>,
                         manageRoles: bool, manageable: set<int>, held: set<int>)
      returns (now: set<int>)
      requires Valid()
      modifies this
      ensures Valid()
      ensures var r := ReactionAdded(human, if messageId in old(messages) then Some(old(messages)[messageId]) else None,
                                     emoji, guildRoles, manageRoles, manageable, held);
        && (r.Reacted? ==> now == r.held)
        && (!r.Reacted? ==> now == held)
        && (r.Stale? ==>
              && messageId in old(messages)
              && messages == old(messages)[messageId := old(messages)[messageId].(assignments := WithoutRole(old(messages)[messageId].assignments, r.roleId))])
        && (!r.Stale? ==> messages == old(messages))
      ensures builders == old(builders)
    {
      var config := if messageId in messages then Some(messages[messageId]) else None;
      var r := ReactionAdded(human, config, emoji, guildRoles, manageRoles, manageable, held);
      now := held;
      match r {
        case Reacted(h) => now := h;
        case Stale(roleId) => CleanupInvalidRole(messageId, roleId);
        case Ignored =>
      }
    }

    /** A reaction taken off a message; a deleted role is cleaned out of its configuration. */
    method OnReactionRemove(human: bool, messageId: int, emoji: string, guildRoles: set<int>,
                            manageRoles: bool, held: set<int>)
      returns (now: set<int>)
      requires Valid()
      modifies this
      ensures Valid()
      ensures var r := ReactionRemoved(human, if messageId in old(messages) then Some(old(messages)[messageId]) else None,
                                       emoji, guildRoles, manageRoles, held);
        && (r.Reacted? ==> now == r.held)
        && (!r.Reacted? ==> now == held)
        && (r.Stale? ==>
              && messageId in old(messages)
              && messages == old(messages)[messageId := old(messages)[messageId].(assignments := WithoutRole(old(messages)[messageId].assignments, r.roleId))])
        && (!r.Stale? ==> messages == old(messages))
      ensures builders == old(builders)
    {
      var config := if messageId in messages then Some(messages[messageId]) else None;
      var r := ReactionRemoved(human, config, emoji, guildRoles, manageRoles, held);
      now := held;
      match r {
        case Reacted(h) => now := h;
        case Stale(roleId) => CleanupInvalidRole(messageId, roleId);
        case Ignored =>
      }
    }
  }
}
