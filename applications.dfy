/**
 * The applications cog: the guild's application form (a list of fields
 * edited by commands and by the field manager's modals and menus), the
 * answer checks run when an applicant submits the form, the applications
 * with their `pending → approved | denied` decision and scheduled cleanup,
 * and the role lists that grant bypass, access and management.
 */
module Applications {
  import opened Wrappers
  import opened Text
  import opened Seqs

  // ---------------------------------------------------------------- form

  datatype FieldKind = ShortText | Paragraph | Number | Select(options: seq<string>) | Confirm(text: string)

  datatype Field = Field(name: string, caption: string, kind: FieldKind, required: bool, placeholder: string)

  /** The five type names a field may be given, without their payload. */
  datatype FieldType = TextType | ParagraphType | NumberType | SelectType | ConfirmType

  const TypeNames: seq<string> := ["text", "paragraph", "number", "select", "confirm"]
  const TrueWords: seq<string> := ["true", "yes", "1", "required"]
  const FalseWords: seq<string> := ["false", "no", "0", "optional"]

  /** The type a (lower-cased) type name stands for. */
  function ParseType(t: string): (r: Option<FieldType>)
    ensures r.Some? <==> t in TypeNames
    ensures r == Some(SelectType) <==> t == "select"
    ensures r == Some(ConfirmType) <==> t == "confirm"
  {
    if t == "text" then Some(TextType)
    else if t == "paragraph" then Some(ParagraphType)
    else if t == "number" then Some(NumberType)
    else if t == "select" then Some(SelectType)
    else if t == "confirm" then Some(ConfirmType)
    else None
  }

  /** The modal's required flag: one of four true words or four false words. */
  function ParseRequired(word: string): (r: Option<bool>)
    ensures r == Some(true) <==> word in TrueWords
    ensures r == Some(false) <==> word in FalseWords
  {
    if word in TrueWords then Some(true) else if word in FalseWords then Some(false) else None
  }

  /** A select field's options typed as one comma-separated line. */
  function OptionsOf(raw: string): (r: seq<string>)
    ensures forall k :: 0 <= k < |r| ==> r[k] != [] && Strip(r[k]) == r[k]
  {
    StrippedNonBlank(SplitAny(raw, {','}))
  }

  /** A select field offers at least two non-blank options; a confirm field has non-blank text. */
  predicate KindOk(k: FieldKind)
  {
    && (k.Select? ==> |k.options| >= 2 && forall j :: 0 <= j < |k.options| ==> k.options[j] != [])
    && (k.Confirm? ==> k.text != [])
  }

  predicate FieldOk(f: Field)
  {
    KindOk(f.kind)
  }

  /** The fields' names, in form order. */
  function Names(fields: seq<Field>): (r: seq<string>)
    ensures |r| == |fields| && forall i :: 0 <= i < |fields| ==> r[i] == fields[i].name
  {
    if fields == [] then [] else [fields[0].name] + Names(fields[1..])
  }

  predicate DistinctNames(fields: seq<Field>)
  {
    NoDup(Names(fields))
  }

  predicate FormOk(fields: seq<Field>)
  {
    DistinctNames(fields) && forall i :: 0 <= i < |fields| ==> FieldOk(fields[i])
  }

  predicate HasName(fields: seq<Field>, name: string)
  {
    name in Names(fields)
  }

  /** The form a guild starts with: a short `name` question and a paragraph `reason` question. */
  function DefaultForm(): (r: seq<Field>)
    ensures FormOk(r) && |r| == 2
  {
    [Field("name", "What is your name?", ShortText, true, "Enter your name"),
     Field("reason", "Why do you want to join this server?", Paragraph, true,
           "Tell us why you're interested in joining...")]
  }

  /** Replies of the form-editing commands, modals and menus. */
  datatype FieldReply =
    | FieldDone | InvalidType | InvalidRequired | MissingOptions | NoOptions | TooFewOptions
    | MissingConfirmText | EmptyConfirmText | DuplicateName | FieldNotFound | NotSelect | NotConfirm
    | NoFields | AtTop | AtBottom

  /** A field built from typed input, or the reason it was refused. */
  datatype Parsed = Parsed(field: Field) | Rejected(reply: FieldReply)

  /** A field's kind once its type and its options or confirmation text are checked, or the refusal. */
  datatype KindParsed = KindParsed(kind: FieldKind) | KindRejected(reply: FieldReply)

  /** The kind of a field of a type without options or text. */
  function PlainKind(t: FieldType): FieldKind
  {
    match t
    case TextType => ShortText
    case ParagraphType => Paragraph
    case NumberType => Number
    case SelectType => Select([])
    case ConfirmType => Confirm([])
  }

  /**
   * The modals' checks on the fifth input, already stripped: a select
   * field needs two options, a confirm field its text.
   */
  function ModalKind(t: FieldType, extra: string): (r: KindParsed)
    ensures r.KindParsed? ==> KindOk(r.kind)
    ensures r.KindParsed? <==> (t == SelectType ==> extra != [] && |OptionsOf(extra)| >= 2) && (t == ConfirmType ==> extra != [])
    ensures r.KindParsed? && t == SelectType ==> r.kind == Select(OptionsOf(extra))
    ensures r.KindParsed? && t == ConfirmType ==> r.kind == Confirm(extra)
  {
    match t
    case SelectType =>
      if extra == [] then KindRejected(MissingOptions)
      else if |OptionsOf(extra)| < 2 then KindRejected(TooFewOptions)
      else KindParsed(Select(OptionsOf(extra)))
    case ConfirmType =>
      if extra == [] then KindRejected(MissingConfirmText) else KindParsed(Confirm(extra))
    case _ => KindParsed(PlainKind(t))
  }

  /**
   * The command's checks on its last argument: a select field needs two
   * options, a confirm field text that is not blank, stored stripped.
   */
  function CommandKind(t: FieldType, extra: Option<string>): (r: KindParsed)
    ensures r.KindParsed? ==> KindOk(r.kind)
    ensures r.KindParsed? <==>
      && (t == SelectType ==> extra.Some? && extra.value != [] && |OptionsOf(extra.value)| >= 2)
      && (t == ConfirmType ==> extra.Some? && Strip(extra.value) != [])
    ensures r.KindParsed? && t == SelectType ==> r.kind == Select(OptionsOf(extra.value))
    ensures r.KindParsed? && t == ConfirmType ==> r.kind == Confirm(Strip(extra.value))
    ensures t == SelectType && extra.Some? && extra.value != [] && OptionsOf(extra.value) == [] ==> r == KindRejected(NoOptions)
  {
    match t
    case SelectType =>
      if extra.None? || extra.value == [] then KindRejected(MissingOptions)
      else if OptionsOf(extra.value) == [] then KindRejected(NoOptions)
      else if |OptionsOf(extra.value)| < 2 then KindRejected(TooFewOptions)
      else KindParsed(Select(OptionsOf(extra.value)))
    case ConfirmType =>
      if extra.None? || extra.value == [] then KindRejected(MissingConfirmText)
      else if Strip(extra.value) == [] then KindRejected(EmptyConfirmText)
      else KindParsed(Confirm(Strip(extra.value)))
    case _ => KindParsed(PlainKind(t))
  }

  /**
   * What the add and edit modals make of their five inputs: the name is
   * stripped and lower-cased, the type and the required flag are checked
   * against their word lists, then the options or confirmation text.
   */
  function FieldFromModal(nameIn: string, labelIn: string, typeIn: string, requiredIn: string, extraIn: string): (r: Parsed)
    ensures r.Parsed? ==> FieldOk(r.field) && r.field.placeholder == []
    ensures r.Parsed? ==> r.field.name == Lower(Strip(nameIn)) && r.field.caption == Strip(labelIn)
    ensures r.Parsed? <==>
      && ParseType(Lower(Strip(typeIn))).Some?
      && ParseRequired(Lower(Strip(requiredIn))).Some?
      && ModalKind(ParseType(Lower(Strip(typeIn))).value, Strip(extraIn)).KindParsed?
    ensures r.Parsed? ==> r.field.required == ParseRequired(Lower(Strip(requiredIn))).value
  {
    var t := ParseType(Lower(Strip(typeIn)));
    var req := ParseRequired(Lower(Strip(requiredIn)));
    if t.None? then Rejected(InvalidType)
    else if req.None? then Rejected(InvalidRequired)
    else
      var k := ModalKind(t.value, Strip(extraIn));
      if k.KindRejected? then Rejected(k.reply)
      else Parsed(Field(Lower(Strip(nameIn)), Strip(labelIn), k.kind, req.value, ""))
  }

  /**
   * The modals accept a field exactly when its type is one of the five
   * names, its required flag one of the eight words, a select field has two
   * or more options and a confirm field non-blank text; the flag is true
   * for the four true words.
   */
  lemma ModalFieldChecks(nameIn: string, labelIn: string, typeIn: string, requiredIn: string, extraIn: string)
    ensures var r := FieldFromModal(nameIn, labelIn, typeIn, requiredIn, extraIn);
      var t := Lower(Strip(typeIn));
      var req := Lower(Strip(requiredIn));
      && (r.Parsed? <==>
            && t in TypeNames
            && (req in TrueWords || req in FalseWords)
            && (t == "select" ==> Strip(extraIn) != [] && |OptionsOf(Strip(extraIn))| >= 2)
            && (t == "confirm" ==> Strip(extraIn) != []))
      && (r.Parsed? ==> r.field.required == (req in TrueWords))
  {
  }

  /**
   * What `applications field add` makes of its arguments: the name and
   * caption are kept as typed, only the type is lower-cased, and the
   * options or confirmation text come from the last argument.
   */
  function FieldFromCommand(name: string, caption: string, fieldType: string, required: bool, extra: Option<string>): (r: Parsed)
    ensures r.Parsed? ==> FieldOk(r.field) && r.field.placeholder == []
    ensures r.Parsed? ==> r.field.name == name && r.field.caption == caption && r.field.required == required
    ensures r.Parsed? <==> ParseType(Lower(fieldType)).Some? && CommandKind(ParseType(Lower(fieldType)).value, extra).KindParsed?
  {
    var t := ParseType(Lower(fieldType));
    if t.None? then Rejected(InvalidType)
    else
      var k := CommandKind(t.value, extra);
      if k.KindRejected? then Rejected(k.reply)
      else Parsed(Field(name, caption, k.kind, required, ""))
  }

  /** `[f for f in fields if f.get("name") != name]`. */
  function Unnamed(fields: seq<Field>, name: string): (r: seq<Field>)
    ensures forall f :: f in r <==> f in fields && f.name != name
    ensures |r| <= |fields|
  {
    if fields == [] then []
    else if fields[0].name == name then Unnamed(fields[1..], name)
    else [fields[0]] + Unnamed(fields[1..], name)
  }

  /** Dropping the fields of one name drops that name from the names, and nothing else. */
  lemma {:induction false} UnnamedNames(fields: seq<Field>, name: string)
    ensures Names(Unnamed(fields, name)) == Without(Names(fields), name)
    ensures !HasName(fields, name) ==> Unnamed(fields, name) == fields
  {
    if fields != [] {
      var rest := fields[1..];
      UnnamedNames(rest, name);
      assert Names(fields)[1..] == Names(rest);
      if fields[0].name != name {
        var u := Unnamed(rest, name);
        assert ([fields[0]] + u)[1..] == u;
        assert fields == [fields[0]] + rest;
      }
    }
  }

  /** Dropping the fields of one name keeps the rest in order and the form well formed. */
  lemma UnnamedKeepsForm(fields: seq<Field>, name: string)
    requires FormOk(fields)
    ensures FormOk(Unnamed(fields, name))
    ensures !HasName(Unnamed(fields, name), name)
    ensures HasName(fields, name) ==> |Unnamed(fields, name)| == |fields| - 1
    ensures !HasName(fields, name) ==> Unnamed(fields, name) == fields
  {
    UnnamedNames(fields, name);
    WithoutNoDup(Names(fields), name);
    RemoveFirstNoDup(Names(fields), name);
    var u := Unnamed(fields, name);
    forall i | 0 <= i < |u| ensures FieldOk(u[i]) {
      assert u[i] in fields;
    }
  }

  /** `l[i], l[j] = l[j], l[i]`. */
  function Swapped<T>(s: seq<T>, i: nat, j: nat): (r: seq<T>)
    requires i < |s| && j < |s|
    ensures |r| == |s| && r[i] == s[j] && r[j] == s[i]
    ensures forall k :: 0 <= k < |s| && k != i && k != j ==> r[k] == s[k]
  {
    s[i := s[j]][j := s[i]]
  }

  /** Swapping twice puts every field back. */
  lemma SwapTwice<T>(s: seq<T>, i: nat, j: nat)
    requires i < |s| && j < |s|
    ensures Swapped(Swapped(s, i, j), i, j) == s
  {
  }

  lemma SwapKeepsForm(fields: seq<Field>, i: nat, j: nat)
    requires FormOk(fields) && i < |fields| && j < |fields|
    ensures FormOk(Swapped(fields, i, j))
  {
    var r := Swapped(fields, i, j);
    forall a, b | 0 <= a < b < |r| ensures r[a].name != r[b].name {
      var a' := if a == i then j else if a == j then i else a;
      var b' := if b == i then j else if b == j then i else b;
      assert r[a] == fields[a'] && r[b] == fields[b'];
    }
    forall a | 0 <= a < |r| ensures FieldOk(r[a]) {
      var a' := if a == i then j else if a == j then i else a;
      assert r[a] == fields[a'];
    }
  }

  // ------------------------------------------------------------- answers

  datatype AnswerError = NotAnOption(caption: string, options: seq<string>) | NotConfirmed(caption: string, text: string)

  datatype Answer = Answered(value: string) | Invalid(error: AnswerError)

  /** The first option that equals `value` ignoring case. */
  function FirstMatch(options: seq<string>, value: string): (r: Option<string>)
    ensures r.Some? ==> r.value in options && Lower(r.value) == Lower(value)
    ensures r.None? <==> forall o :: o in options ==> Lower(o) != Lower(value)
  {
    if options == [] then None
    else if Lower(options[0]) == Lower(value) then Some(options[0])
    else FirstMatch(options[1..], value)
  }

  /** The option search of the submit handler: the first option matching case-insensitively. */
  method MatchOption(options: seq<string>, value: string) returns (matched: Option<string>)
    ensures matched == FirstMatch(options, value)
  {
    matched := None;
    var valueLower := Lower(value);
    var i := 0;
    while i < |options|
      invariant 0 <= i <= |options|
      invariant FirstMatch(options, value) == FirstMatch(options[i..], value)
      decreases |options| - i
    {
      if Lower(options[i]) == valueLower {
        matched := Some(options[i]);
        return;
      }
      assert options[i..][1..] == options[i + 1..];
      i := i + 1;
    }
  }

  /** The inputs as the submit handler reads them: each value stripped. */
  function StrippedInputs(inputs: map<string, string>): (r: map<string, string>)
    ensures r.Keys == inputs.Keys
    ensures forall k :: k in inputs ==> r[k] == Strip(inputs[k])
  {
    map k | k in inputs :: Strip(inputs[k])
  }

  /**
   * One field's answer, given its stripped input: a select field with
   * options must match one of them and stores that option's own text; a
   * confirm field with text must match it and stores the field's text.
   */
  function CheckAnswer(f: Field, value: string): (r: Answer)
  {
    match f.kind
    case Select(options) =>
      if options == [] then Answered(value)
      else
        var m := FirstMatch(options, value);
        if m.None? || m.value == [] then Invalid(NotAnOption(f.caption, options)) else Answered(m.value)
    case Confirm(text) =>
      if text == [] then Answered(value)
      else if Lower(value) != Lower(text) then Invalid(NotConfirmed(f.caption, text))
      else Answered(text)
    case _ => Answered(value)
  }

  /**
   * A select answer of a well-formed field is accepted exactly when it
   * equals one of the options ignoring case, and then the stored value is
   * that option as configured.
   */
  lemma SelectAnswer(f: Field, value: string)
    requires FieldOk(f) && f.kind.Select?
    ensures CheckAnswer(f, value).Answered? <==> exists o :: o in f.kind.options && Lower(o) == Lower(value)
    ensures CheckAnswer(f, value).Answered? ==>
      CheckAnswer(f, value).value in f.kind.options && Lower(CheckAnswer(f, value).value) == Lower(value)
  {
    var m := FirstMatch(f.kind.options, value);
    if m.Some? {
      var k :| 0 <= k < |f.kind.options| && f.kind.options[k] == m.value;
    }
  }

  /** A confirm answer is accepted exactly when it equals the text ignoring case, and stores the text itself. */
  lemma ConfirmAnswer(f: Field, value: string)
    requires FieldOk(f) && f.kind.Confirm?
    ensures CheckAnswer(f, value).Answered? <==> Lower(value) == Lower(f.kind.text)
    ensures CheckAnswer(f, value).Answered? ==> CheckAnswer(f, value).value == f.kind.text
  {
  }

  /** Other fields take the stripped input as it is. */
  lemma PlainAnswer(f: Field, value: string)
    requires !f.kind.Select? && !f.kind.Confirm?
    ensures CheckAnswer(f, value) == Answered(value)
  {
  }

  /**
   * The submit loop over the form as shown, on the stripped inputs:
   * answered fields either add a response under their name or an error;
   * fields without an input are skipped.
   */
  function CheckAll(fields: seq<Field>, values: map<string, string>): (r: (map<string, string>, seq<AnswerError>))
    decreases |fields|
  {
    if fields == [] then (map[], [])
    else
      var prev := CheckAll(fields[..|fields| - 1], values);
      var f := fields[|fields| - 1];
      if f.name !in values then prev
      else
        match CheckAnswer(f, values[f.name])
        case Answered(v) => (prev.0[f.name := v], prev.1)
        case Invalid(e) => (prev.0, prev.1 + [e])
  }

  /** The checks report no error exactly when every answered field's answer is accepted. */
  lemma {:induction false} CheckAllErrors(fields: seq<Field>, values: map<string, string>)
    ensures CheckAll(fields, values).1 == [] <==>
      forall i :: 0 <= i < |fields| && fields[i].name in values ==> CheckAnswer(fields[i], values[fields[i].name]).Answered?
    decreases |fields|
  {
    if fields != [] {
      var n := |fields| - 1;
      var init := fields[..n];
      CheckAllErrors(init, values);
      assert forall i :: 0 <= i < n ==> init[i] == fields[i];
    }
  }

  /** Responses are recorded only under the names of answered fields. */
  lemma {:induction false} CheckAllKeys(fields: seq<Field>, values: map<string, string>)
    ensures forall k :: k in CheckAll(fields, values).0 ==> k in values && HasName(fields, k)
    decreases |fields|
  {
    if fields != [] {
      var n := |fields| - 1;
      var init := fields[..n];
      CheckAllKeys(init, values);
      forall k | k in CheckAll(init, values).0 ensures HasName(fields, k) {
        var i :| 0 <= i < n && Names(init)[i] == k;
        assert Names(fields)[i] == k;
      }
      assert Names(fields)[n] == fields[n].name;
    }
  }

  /** Dropping the last field keeps the names distinct, and the last name differs from all others. */
  lemma DistinctInit(fields: seq<Field>)
    requires fields != [] && DistinctNames(fields)
    ensures DistinctNames(fields[..|fields| - 1])
    ensures forall i :: 0 <= i < |fields| - 1 ==> fields[i].name != fields[|fields| - 1].name
  {
    var n := |fields| - 1;
    var names := Names(fields[..n]);
    forall i, j | 0 <= i < j < |names| ensures names[i] != names[j] {
      assert names[i] == Names(fields)[i] && names[j] == Names(fields)[j];
    }
    forall i | 0 <= i < n ensures fields[i].name != fields[n].name {
      assert Names(fields)[i] != Names(fields)[n];
    }
  }

  /** With distinct names, every accepted answer is recorded under its field's name. */
  lemma {:induction false} CheckAllValues(fields: seq<Field>, values: map<string, string>)
    requires DistinctNames(fields)
    ensures forall i :: 0 <= i < |fields| && fields[i].name in values && CheckAnswer(fields[i], values[fields[i].name]).Answered? ==>
      fields[i].name in CheckAll(fields, values).0
      && CheckAll(fields, values).0[fields[i].name] == CheckAnswer(fields[i], values[fields[i].name]).value
    decreases |fields|
  {
    if fields != [] {
      var n := |fields| - 1;
      var init := fields[..n];
      DistinctInit(fields);
      CheckAllValues(init, values);
      var prev := CheckAll(init, values).0;
      var r := CheckAll(fields, values).0;
      assert forall k :: k != fields[n].name && k in prev ==> k in r && r[k] == prev[k];
      forall i | 0 <= i < |fields| && fields[i].name in values && CheckAnswer(fields[i], values[fields[i].name]).Answered?
        ensures fields[i].name in r && r[fields[i].name] == CheckAnswer(fields[i], values[fields[i].name]).value
      {
        if i < n {
          assert init[i] == fields[i];
        }
      }
    }
  }

  /** The body of the submit handler's loop for one field and its stripped input. */
  method CheckField(f: Field, value: string) returns (answer: Answer)
    ensures answer == CheckAnswer(f, value)
  {
    if f.kind.Select? && f.kind.options != [] {
      var matched := MatchOption(f.kind.options, value);
      if matched.None? || matched.value == [] {
        return Invalid(NotAnOption(f.caption, f.kind.options));
      }
      return Answered(matched.value);
    }
    if f.kind.Confirm? && f.kind.text != [] {
      if Lower(value) != Lower(f.kind.text) {
        return Invalid(NotConfirmed(f.caption, f.kind.text));
      }
      return Answered(f.kind.text);
    }
    answer := Answered(value);
  }

  /** The submit handler's loop, building the responses and the error list field by field. */
  method Validate(fields: seq<Field>, inputs: map<string, string>)
    returns (responses: map<string, string>, errors: seq<AnswerError>)
    ensures (responses, errors) == CheckAll(fields, StrippedInputs(inputs))
  {
    responses := map[];
    errors := [];
    ghost var values := StrippedInputs(inputs);
    for i := 0 to |fields|
      invariant (responses, errors) == CheckAll(fields[..i], values)
    {
      assert fields[..i + 1][..i] == fields[..i];
      var f := fields[i];
      if f.name in inputs {
        var answer := CheckField(f, Strip(inputs[f.name]));
        match answer
        case Answered(v) => responses := responses[f.name := v];
        case Invalid(e) => errors := errors + [e];
      }
    }
    assert fields[..|fields|] == fields;
  }

  // -------------------------------------------------------- applications

  datatype Status = Pending | Approved | Denied

  /** An applicant's record; the decision keys appear once a decision is made. */
  datatype Application = Application(
    channelId: int, status: Status, submittedAt: int, responses: map<string, string>,
    approvedBy: Option<int>, approvedAt: Option<int>,
    deniedBy: Option<int>, deniedAt: Option<int>, denialReason: Option<string>,
    cleanupAt: Option<int>)

  /** Every decided application has a cleanup time. */
  predicate Scheduled(a: Application)
  {
    a.status != Pending ==> a.cleanupAt.Some?
  }

  /** `submit_application`: the record is created if missing, then its channel, status, time and responses are overwritten. */
  function Submitted(prior: Option<Application>, channel: int, responses: map<string, string>, now: int): (r: Application)
    ensures r.status == Pending && r.channelId == channel && r.responses == responses && r.submittedAt == now
    ensures prior.Some? ==> r == prior.value.(channelId := channel, status := Pending, submittedAt := now, responses := responses)
    ensures prior.None? ==> r.cleanupAt.None? && r.approvedBy.None? && r.deniedBy.None?
  {
    var base := if prior.Some? then prior.value else Application(0, Pending, 0, map[], None, None, None, None, None, None);
    base.(channelId := channel, status := Pending, submittedAt := now, responses := responses)
  }

  /**
   * Submitting again keeps what the earlier decision recorded, its cleanup
   * time included, so a pending re-submission is still removed at the time
   * the earlier decision scheduled.
   */
  lemma ResubmitKeepsCleanup(a: Application, channel: int, responses: map<string, string>, now: int)
    requires a.status != Pending && Scheduled(a)
    ensures Submitted(Some(a), channel, responses, now).status == Pending
    ensures Submitted(Some(a), channel, responses, now).cleanupAt == a.cleanupAt
    ensures Submitted(Some(a), channel, responses, now).cleanupAt.Some?
  {
  }

  const SecondsPerHour := 3600

  /** The role changes an approval attempts. */
  datatype RoleChange = RemoveRole(role: int) | AddRoles(roles: seq<int>) | NoRoleChange

  /** `[r for r in ids if guild.get_role(r)]`. */
  function Existing(ids: seq<int>, guildRoles: set<int>): (r: seq<int>)
    ensures forall x :: x in r <==> x in ids && x in guildRoles
  {
    if ids == [] then [] else (if ids[0] in guildRoles then [ids[0]] else []) + Existing(ids[1..], guildRoles)
  }

  /**
   * Approval either removes the restricted role (when one is set, exists
   * and the member holds it) or, when no restricted role is set, adds the
   * access roles that still exist.
   */
  function ApprovalRoles(restricted: Option<int>, access: seq<int>, guildRoles: set<int>, memberRoles: set<int>): (r: RoleChange)
    ensures r.RemoveRole? ==> restricted == Some(r.role) && r.role in memberRoles
    ensures r.AddRoles? ==>
      && (restricted.None? || restricted.value == 0)
      && r.roles != []
      && forall x :: x in r.roles <==> x in access && x in guildRoles
  {
    if restricted.Some? && restricted.value != 0 then
      if restricted.value in guildRoles && restricted.value in memberRoles then RemoveRole(restricted.value) else NoRoleChange
    else if access != [] then
      var roles := Existing(access, guildRoles);
      if roles != [] then AddRoles(roles) else NoRoleChange
    else NoRoleChange
  }

  /** `len(s) > limit` shows as the first `limit - 3` characters and `...`. */
  function Truncated(s: string, limit: nat): (r: string)
    requires limit >= 3
    ensures |r| <= limit
    ensures |s| <= limit ==> r == s
    ensures |s| > limit ==> |r| == limit && r[..limit - 3] == s[..limit - 3] && EndsWith(r, "...")
  {
    if |s| > limit then s[..limit - 3] + "..." else s
  }

  /** Review embeds show at most 1024 characters per response. */
  const ReviewLimit := 1024
  /** Log embeds show at most 500 characters per response. */
  const LogLimit := 500

  // --------------------------------------------------------------- roles

  /** `any(r in member_roles for r in listed)`. */
  function AnyHeld(listed: seq<int>, held: set<int>): (r: bool)
    ensures r <==> exists x :: x in listed && x in held
  {
    if listed == [] then false
    else
      assert forall x :: x in listed <==> x == listed[0] || x in listed[1..];
      listed[0] in held || AnyHeld(listed[1..], held)
  }

  /** `has_bypass_role`: the member holds one of the bypass roles. */
  function HasBypassRole(bypass: seq<int>, memberRoles: set<int>): (r: bool)
    ensures r <==> exists x :: x in bypass && x in memberRoles
  {
    if bypass == [] then false else AnyHeld(bypass, memberRoles)
  }

  /** `can_manage_applications`: manage-guild permission, or one of the manager roles. */
  function CanManage(manageGuild: bool, managers: seq<int>, userRoles: set<int>): (r: bool)
    ensures r <==> manageGuild || exists x :: x in managers && x in userRoles
  {
    if manageGuild then true else if managers == [] then false else AnyHeld(managers, userRoles)
  }

  datatype RoleList = BypassRoles | AccessRoles | ManagerRoles

  datatype RoleReply = RoleAdded | RoleRemoved | AlreadyListed | NotListed | InvalidAction | NoRoleGiven

  /** `add` appends a role that is not listed; `remove` drops a listed one. */
  function ListEdited(list: seq<int>, add: bool, role: int): (r: seq<int>)
    ensures NoDup(list) ==> NoDup(r)
    ensures add ==> (forall x :: x in r <==> x in list || x == role)
    ensures !add && NoDup(list) ==> (forall x :: x in r <==> x in list && x != role)
  {
    if add then
      if role in list then list
      else
        assert forall i :: 0 <= i < |list| ==> list[i] != role;
        list + [role]
    else if role in list then
      if NoDup(list) then
        RemoveFirstNoDup(list, role);
        WithoutNoDup(list, role);
        RemoveFirst(list, role)
      else RemoveFirst(list, role)
    else list
  }

  /** Adding a role and removing it again gives back the list. */
  lemma AddThenRemove(list: seq<int>, role: int)
    requires NoDup(list) && role !in list
    ensures ListEdited(ListEdited(list, true, role), false, role) == list
  {
    var added := list + [role];
    assert ListEdited(list, true, role) == added;
    assert NoDup(added);
    RemoveFirstNoDup(added, role);
    WithoutAppended(list, role);
  }

  /** In a form with distinct names, `i` is the only position holding its name. */
  lemma OnlyNamed(fields: seq<Field>, name: string, i: nat)
    requires DistinctNames(fields) && i < |fields| && fields[i].name == name
    ensures forall j :: 0 <= j < |fields| && fields[j].name == name ==> j == i
  {
    var names := Names(fields);
    forall j | 0 <= j < |fields| && fields[j].name == name ensures j == i {
      assert names[j] == names[i];
    }
  }

  // ------------------------------------------------------------- the cog

  datatype DecisionReply = Decided | NoApplication | AlreadyDecided(status: Status) | SystemDisabled | NoPermission

  /** The answer to approving or denying `user`: only a pending application can be decided. */
  function DecisionFor(apps: map<int, Application>, user: int): (r: DecisionReply)
    ensures r == Decided <==> user in apps && apps[user].status == Pending
    ensures r == NoApplication <==> user !in apps
    ensures r.AlreadyDecided? ==> user in apps && r == AlreadyDecided(apps[user].status) && r.status != Pending
  {
    if user !in apps then NoApplication
    else if apps[user].status != Pending then AlreadyDecided(apps[user].status)
    else Decided
  }

  /** The approved record: approver and time, and the cleanup `delay` hours on. */
  function ApprovedApp(a: Application, decider: int, now: int, delay: int): Application
  {
    a.(status := Approved, approvedBy := Some(decider), approvedAt := Some(now),
       cleanupAt := Some(now + delay * SecondsPerHour))
  }

  /** The denied record: the decider and time, the reason when one is given, and the cleanup `delay` hours on. */
  function DeniedApp(a: Application, decider: int, reason: Option<string>, now: int, delay: int): Application
  {
    a.(status := Denied, deniedBy := Some(decider), deniedAt := Some(now),
       denialReason := if reason.Some? then reason else a.denialReason,
       cleanupAt := Some(now + delay * SecondsPerHour))
  }

  datatype SettingReply = SettingDone | NegativeDelay

  /** One guild's application settings and records. */
  class GuildApplications {
    var enabled: bool
    var restrictedRole: Option<int>
    var accessRoles: seq<int>
    var bypassRoles: seq<int>
    var managerRoles: seq<int>
    var cleanupDelay: int
    var formFields: seq<Field>
    var applications: map<int, Application>

    ghost predicate Valid()
      reads this
    {
      FormOk(formFields) && RolesOk() && cleanupDelay >= 0 && AppsOk()
    }

    /** The role lists never hold a role twice. */
    ghost predicate RolesOk()
      reads this`accessRoles, this`bypassRoles, this`managerRoles
    {
      NoDup(accessRoles) && NoDup(bypassRoles) && NoDup(managerRoles)
    }

    ghost predicate AppsOk()
      reads this`applications
    {
      forall u :: u in applications ==> Scheduled(applications[u])
    }

    constructor ()
      ensures Valid()
      ensures !enabled && restrictedRole.None? && accessRoles == [] && bypassRoles == [] && managerRoles == []
      ensures cleanupDelay == 24 && formFields == DefaultForm() && applications == map[]
    {
      enabled := false;
      restrictedRole := None;
      accessRoles := [];
      bypassRoles := [];
      managerRoles := [];
      cleanupDelay := 24;
      formFields := DefaultForm();
      applications := map[];
    }

    /** The first field called `name`, searched as the handlers do. */
    method FindField(name: string) returns (index: Option<nat>)
      ensures index.Some? ==> index.value < |formFields| && formFields[index.value].name == name
      ensures index.Some? ==> forall j :: 0 <= j < index.value ==> formFields[j].name != name
      ensures index.None? <==> !HasName(formFields, name)
    {
      for i := 0 to |formFields|
        invariant forall j :: 0 <= j < i ==> formFields[j].name != name
      {
        if formFields[i].name == name {
          return Some(i);
        }
      }
      return None;
    }

    /** Append a checked field unless its name is taken. */
    method AppendField(f: Field) returns (reply: FieldReply)
      requires FormOk(formFields) && FieldOk(f)
      modifies this`formFields
      ensures FormOk(formFields)
      ensures reply == (if HasName(old(formFields), f.name) then DuplicateName else FieldDone)
      ensures reply == FieldDone ==> formFields == old(formFields) + [f]
      ensures reply != FieldDone ==> formFields == old(formFields)
    {
      var found := FindField(f.name);
      if found.Some? {
        return DuplicateName;
      }
      formFields := formFields + [f];
      reply := FieldDone;
    }

    /** `FieldAddModal.on_submit`. */
    method AddFieldModal(nameIn: string, labelIn: string, typeIn: string, requiredIn: string, extraIn: string)
      returns (reply: FieldReply)
      requires FormOk(formFields)
      modifies this`formFields
      ensures FormOk(formFields)
      ensures var p := FieldFromModal(nameIn, labelIn, typeIn, requiredIn, extraIn);
        && (p.Rejected? ==> reply == p.reply && formFields == old(formFields))
        && (p.Parsed? && HasName(old(formFields), p.field.name) ==> reply == DuplicateName && formFields == old(formFields))
        && (p.Parsed? && !HasName(old(formFields), p.field.name) ==> reply == FieldDone && formFields == old(formFields) + [p.field])
    {
      var p := FieldFromModal(nameIn, labelIn, typeIn, requiredIn, extraIn);
      if p.Rejected? {
        return p.reply;
      }
      reply := AppendField(p.field);
    }

    /** `applications field add`. */
    method AddFieldCommand(name: string, caption: string, fieldType: string, required: bool, extra: Option<string>)
      returns (reply: FieldReply)
      requires FormOk(formFields)
      modifies this`formFields
      ensures FormOk(formFields)
      ensures var p := FieldFromCommand(name, caption, fieldType, required, extra);
        && (p.Rejected? ==> reply == p.reply && formFields == old(formFields))
        && (p.Parsed? && HasName(old(formFields), name) ==> reply == DuplicateName && formFields == old(formFields))
        && (p.Parsed? && !HasName(old(formFields), name) ==> reply == FieldDone && formFields == old(formFields) + [p.field])
    {
      var p := FieldFromCommand(name, caption, fieldType, required, extra);
      if p.Rejected? {
        return p.reply;
      }
      reply := AppendField(p.field);
    }

    /**
     * Put `f` in place of the field first named `original`, keeping that
     * field's placeholder, unless `f` takes the name of another field.
     */
    method ReplaceField(original: string, f: Field) returns (reply: FieldReply)
      requires FormOk(formFields) && FieldOk(f)
      modifies this`formFields
      ensures FormOk(formFields)
      ensures reply == (if !HasName(old(formFields), original) then FieldNotFound
                        else if f.name != original && HasName(old(formFields), f.name) then DuplicateName
                        else FieldDone)
      ensures reply != FieldDone ==> formFields == old(formFields)
      ensures reply == FieldDone ==>
        exists i :: 0 <= i < |old(formFields)| && old(formFields)[i].name == original
          && formFields == old(formFields)[i := f.(placeholder := old(formFields)[i].placeholder)]
    {
      var found := FindField(original);
      if found.None? {
        return FieldNotFound;
      }
      var i := found.value;
      if f.name != original {
        var clash := FindField(f.name);
        if clash.Some? {
          return DuplicateName;
        }
      }
      ghost var names := Names(formFields);
      formFields := formFields[i := f.(placeholder := formFields[i].placeholder)];
      ghost var renamed := Names(formFields);
      forall a, b | 0 <= a < b < |renamed| ensures renamed[a] != renamed[b] {
        if a == i || b == i {
          var other := if a == i then b else a;
          assert renamed[other] == names[other] && names[other] != names[i];
        } else {
          assert renamed[a] == names[a] && renamed[b] == names[b];
        }
      }
      reply := FieldDone;
    }

    /**
     * `FieldEditModal.on_submit`: the modal's inputs are checked as when
     * adding a field, then the field first named `original` is replaced.
     */
    method EditFieldModal(original: string, nameIn: string, labelIn: string, typeIn: string, requiredIn: string, extraIn: string)
      returns (reply: FieldReply)
      requires FormOk(formFields)
      modifies this`formFields
      ensures FormOk(formFields)
      ensures var p := FieldFromModal(nameIn, labelIn, typeIn, requiredIn, extraIn);
        && (p.Rejected? ==> reply == p.reply)
        && (p.Parsed? ==> reply == (if !HasName(old(formFields), original) then FieldNotFound
                                    else if p.field.name != original && HasName(old(formFields), p.field.name) then DuplicateName
                                    else FieldDone))
        && (reply != FieldDone ==> formFields == old(formFields))
        && (reply == FieldDone ==>
              && p.Parsed?
              && exists i ::
                   && 0 <= i < |old(formFields)| && old(formFields)[i].name == original
                   && formFields == old(formFields)[i := p.field.(placeholder := old(formFields)[i].placeholder)])
    {
      var p := FieldFromModal(nameIn, labelIn, typeIn, requiredIn, extraIn);
      if p.Rejected? {
        return p.reply;
      }
      reply := ReplaceField(original, p.field);
    }

    /**
     * The field manager's move buttons: the chosen field swaps with its
     * neighbour above (`up`) or below; the top field cannot go up nor the
     * bottom one down.
     */
    method MoveField(index: int, up: bool) returns (reply: FieldReply)
      requires FormOk(formFields) && index >= -1
      modifies this`formFields
      ensures FormOk(formFields)
      ensures reply ==
        if index == -1 then NoFields
        else if index >= |old(formFields)| then FieldNotFound
        else if up && index == 0 then AtTop
        else if !up && index == |old(formFields)| - 1 then AtBottom
        else FieldDone
      ensures reply != FieldDone ==> formFields == old(formFields)
      ensures reply == FieldDone ==>
        && 0 <= index < |old(formFields)|
        && formFields == Swapped(old(formFields), index, if up then index - 1 else index + 1)
    {
      if index == -1 {
        return NoFields;
      }
      if index >= |formFields| {
        return FieldNotFound;
      }
      if up && index == 0 {
        return AtTop;
      }
      if !up && index == |formFields| - 1 {
        return AtBottom;
      }
      var other := if up then index - 1 else index + 1;
      SwapKeepsForm(formFields, index, other);
      formFields := Swapped(formFields, index, other);
      reply := FieldDone;
    }

    /** The delete confirmation: every field with the chosen name goes. */
    method DeleteFieldConfirmed(name: string)
      requires FormOk(formFields)
      modifies this`formFields
      ensures FormOk(formFields)
      ensures formFields == Unnamed(old(formFields), name)
    {
      UnnamedKeepsForm(formFields, name);
      formFields := Unnamed(formFields, name);
    }

    /** `applications field remove`: refused when no field has the name. */
    method RemoveFieldCommand(name: string) returns (reply: FieldReply)
      requires FormOk(formFields)
      modifies this`formFields
      ensures FormOk(formFields)
      ensures reply == (if HasName(old(formFields), name) then FieldDone else FieldNotFound)
      ensures formFields == Unnamed(old(formFields), name)
      ensures reply == FieldDone ==> |formFields| == |old(formFields)| - 1
    {
      UnnamedKeepsForm(formFields, name);
      var found := FindField(name);
      if found.None? {
        return FieldNotFound;
      }
      formFields := Unnamed(formFields, name);
      reply := FieldDone;
    }

    /** Give the field at `i` a new kind; names, and so the form's validity, are untouched. */
    method SetKindAt(i: nat, kind: FieldKind)
      requires FormOk(formFields) && i < |formFields| && KindOk(kind)
      modifies this`formFields
      ensures FormOk(formFields)
      ensures formFields == old(formFields)[i := old(formFields)[i].(kind := kind)]
    {
      ghost var names := Names(formFields);
      formFields := formFields[i := formFields[i].(kind := kind)];
      assert Names(formFields) == names;
    }

    /** `applications field options`: only select fields, and at least two options. */
    method SetOptions(name: string, raw: string) returns (reply: FieldReply)
      requires FormOk(formFields)
      modifies this`formFields
      ensures FormOk(formFields)
      ensures !HasName(old(formFields), name) ==> reply == FieldNotFound
      ensures forall i :: 0 <= i < |old(formFields)| && old(formFields)[i].name == name ==>
        reply == if !old(formFields)[i].kind.Select? then NotSelect
                 else if OptionsOf(raw) == [] then NoOptions
                 else if |OptionsOf(raw)| < 2 then TooFewOptions
                 else FieldDone
      ensures reply != FieldDone ==> formFields == old(formFields)
      ensures reply == FieldDone ==>
        exists i ::
          && 0 <= i < |old(formFields)| && old(formFields)[i].name == name
          && old(formFields)[i].kind.Select? && |OptionsOf(raw)| >= 2
          && formFields == old(formFields)[i := old(formFields)[i].(kind := Select(OptionsOf(raw)))]
    {
      var found := FindField(name);
      if found.None? {
        return FieldNotFound;
      }
      var i := found.value;
      OnlyNamed(formFields, name, i);
      if !formFields[i].kind.Select? {
        return NotSelect;
      }
      var options := OptionsOf(raw);
      if options == [] {
        return NoOptions;
      }
      if |options| < 2 {
        return TooFewOptions;
      }
      SetKindAt(i, Select(options));
      reply := FieldDone;
    }

    /** `applications field confirmtext`: only confirm fields, and non-blank text. */
    method SetConfirmText(name: string, raw: string) returns (reply: FieldReply)
      requires FormOk(formFields)
      modifies this`formFields
      ensures FormOk(formFields)
      ensures !HasName(old(formFields), name) ==> reply == FieldNotFound
      ensures forall i :: 0 <= i < |old(formFields)| && old(formFields)[i].name == name ==>
        reply == if !old(formFields)[i].kind.Confirm? then NotConfirm
                 else if Strip(raw) == [] then EmptyConfirmText
                 else FieldDone
      ensures reply != FieldDone ==> formFields == old(formFields)
      ensures reply == FieldDone ==>
        exists i ::
          && 0 <= i < |old(formFields)| && old(formFields)[i].name == name
          && old(formFields)[i].kind.Confirm? && Strip(raw) != []
          && formFields == old(formFields)[i := old(formFields)[i].(kind := Confirm(Strip(raw)))]
    {
      var found := FindField(name);
      if found.None? {
        return FieldNotFound;
      }
      var i := found.value;
      OnlyNamed(formFields, name, i);
      if !formFields[i].kind.Confirm? {
        return NotConfirm;
      }
      var text := Strip(raw);
      if text == [] {
        return EmptyConfirmText;
      }
      SetKindAt(i, Confirm(text));
      reply := FieldDone;
    }

    /** `submit_application`. */
    method Submit(user: int, channel: int, responses: map<string, string>, now: int)
      requires AppsOk()
      modifies this`applications
      ensures AppsOk()
      ensures applications == old(applications)[user :=
        Submitted(if user in old(applications) then Some(old(applications)[user]) else None, channel, responses, now)]
    {
      var prior := if user in applications then Some(applications[user]) else None;
      applications := applications[user := Submitted(prior, channel, responses, now)];
    }

    /**
     * `ApplicationModal.on_submit` on the form as it was shown: any answer
     * error is reported and nothing is submitted; otherwise the checked
     * responses are.
     */
    method SubmitForm(form: seq<Field>, user: int, channel: int, answers: map<string, string>, now: int)
      returns (errors: seq<AnswerError>)
      requires AppsOk()
      modifies this`applications
      ensures AppsOk()
      ensures errors == CheckAll(form, StrippedInputs(answers)).1
      ensures errors != [] ==> applications == old(applications)
      ensures errors == [] ==> applications == old(applications)[user :=
        Submitted(if user in old(applications) then Some(old(applications)[user]) else None,
                  channel, CheckAll(form, StrippedInputs(answers)).0, now)]
    {
      var responses;
      responses, errors := Validate(form, answers);
      if errors != [] {
        return;
      }
      Submit(user, channel, responses, now);
    }

    /** Approval's state change: pending only; the cleanup is scheduled `cleanup_delay` hours on. */
    method Approve(user: int, decider: int, now: int, guildRoles: set<int>, memberRoles: set<int>)
      returns (reply: DecisionReply, change: RoleChange)
      requires AppsOk()
      modifies this`applications
      ensures AppsOk()
      ensures reply == DecisionFor(old(applications), user)
      ensures reply != Decided ==> applications == old(applications) && change == NoRoleChange
      ensures reply == Decided ==>
        && user in old(applications) && old(applications)[user].status == Pending
        && change == ApprovalRoles(restrictedRole, accessRoles, guildRoles, memberRoles)
        && applications == old(applications)[user := ApprovedApp(old(applications)[user], decider, now, cleanupDelay)]
    {
      change := NoRoleChange;
      if user !in applications {
        return NoApplication, change;
      }
      var a := applications[user];
      if a.status != Pending {
        return AlreadyDecided(a.status), change;
      }
      change := ApprovalRoles(restrictedRole, accessRoles, guildRoles, memberRoles);
      a := a.(status := Approved, approvedBy := Some(decider), approvedAt := Some(now));
      a := a.(cleanupAt := Some(now + cleanupDelay * SecondsPerHour));
      applications := applications[user := a];
      reply := Decided;
    }

    /** Denial's state change: pending only; the reason is stored when given. */
    method Deny(user: int, decider: int, reason: Option<string>, now: int) returns (reply: DecisionReply)
      requires AppsOk()
      modifies this`applications
      ensures AppsOk()
      ensures reply == DecisionFor(old(applications), user)
      ensures reply != Decided ==> applications == old(applications)
      ensures reply == Decided ==>
        && user in old(applications) && old(applications)[user].status == Pending
        && applications == old(applications)[user := DeniedApp(old(applications)[user], decider, reason, now, cleanupDelay)]
    {
      if user !in applications {
        return NoApplication;
      }
      var a := applications[user];
      if a.status != Pending {
        return AlreadyDecided(a.status);
      }
      a := a.(status := Denied, deniedBy := Some(decider), deniedAt := Some(now));
      if reason.Some? {
        a := a.(denialReason := reason);
      }
      a := a.(cleanupAt := Some(now + cleanupDelay * SecondsPerHour));
      applications := applications[user := a];
      reply := Decided;
    }

    /** `applications approve`: refused while the system is disabled. */
    method ApproveCommand(user: int, decider: int, now: int, guildRoles: set<int>, memberRoles: set<int>)
      returns (reply: DecisionReply, change: RoleChange)
      requires AppsOk()
      modifies this`applications
      ensures AppsOk()
      ensures reply == if !enabled then SystemDisabled else DecisionFor(old(applications), user)
      ensures reply == Decided ==>
        && change == ApprovalRoles(restrictedRole, accessRoles, guildRoles, memberRoles)
        && applications == old(applications)[user := ApprovedApp(old(applications)[user], decider, now, cleanupDelay)]
      ensures reply != Decided ==> applications == old(applications) && change == NoRoleChange
    {
      if !enabled {
        return SystemDisabled, NoRoleChange;
      }
      reply, change := Approve(user, decider, now, guildRoles, memberRoles);
    }

    /** `applications deny`: refused while the system is disabled; an empty reason is not stored. */
    method DenyCommand(user: int, decider: int, reason: Option<string>, now: int) returns (reply: DecisionReply)
      requires AppsOk()
      modifies this`applications
      ensures AppsOk()
      ensures reply == if !enabled then SystemDisabled else DecisionFor(old(applications), user)
      ensures reply == Decided ==>
        applications == old(applications)[user := DeniedApp(old(applications)[user], decider,
          if reason.Some? && reason.value != [] then reason else None, now, cleanupDelay)]
      ensures reply != Decided ==> applications == old(applications)
    {
      if !enabled {
        return SystemDisabled;
      }
      reply := Deny(user, decider, if reason.Some? && reason.value != [] then reason else None, now);
    }

    /** The review message's approve button: managers only. */
    method ApproveButton(user: int, decider: int, byManageGuild: bool, byRoles: set<int>, now: int,
                         guildRoles: set<int>, memberRoles: set<int>)
      returns (reply: DecisionReply, change: RoleChange)
      requires AppsOk()
      modifies this`applications
      ensures AppsOk()
      ensures reply == if !CanManage(byManageGuild, managerRoles, byRoles) then NoPermission
                       else DecisionFor(old(applications), user)
      ensures reply == Decided ==>
        && change == ApprovalRoles(restrictedRole, accessRoles, guildRoles, memberRoles)
        && applications == old(applications)[user := ApprovedApp(old(applications)[user], decider, now, cleanupDelay)]
      ensures reply != Decided ==> applications == old(applications) && change == NoRoleChange
    {
      if !CanManage(byManageGuild, managerRoles, byRoles) {
        return NoPermission, NoRoleChange;
      }
      reply, change := Approve(user, decider, now, guildRoles, memberRoles);
    }

    /** The deny modal opened from the review message: managers only; the typed reason is stored. */
    method DenyModal(user: int, decider: int, byManageGuild: bool, byRoles: set<int>, reason: string, now: int)
      returns (reply: DecisionReply)
      requires AppsOk()
      modifies this`applications
      ensures AppsOk()
      ensures reply == if !CanManage(byManageGuild, managerRoles, byRoles) then NoPermission
                       else DecisionFor(old(applications), user)
      ensures reply == Decided ==>
        && applications == old(applications)[user := DeniedApp(old(applications)[user], decider, Some(reason), now, cleanupDelay)]
        && applications[user].denialReason == Some(reason)
      ensures reply != Decided ==> applications == old(applications)
    {
      if !CanManage(byManageGuild, managerRoles, byRoles) {
        return NoPermission;
      }
      reply := Deny(user, decider, Some(reason), now);
    }

    /** `applications close` and `on_member_remove`: the applicant's record is dropped. */
    method Close(user: int) returns (found: bool)
      requires AppsOk()
      modifies this`applications
      ensures AppsOk()
      ensures found == (user in old(applications))
      ensures applications == old(applications) - {user}
    {
      found := user in applications;
      applications := applications - {user};
    }

    /**
     * `cleanup_channels`: every application whose cleanup time has come is
     * dropped, whether or not its channel could be deleted; the count is of
     * due applications whose channel was deleted or was already gone.
     */
    method Cleanup(now: int, present: set<int>, undeletable: set<int>) returns (cleaned: nat)
      requires AppsOk()
      modifies this`applications
      ensures AppsOk()
      ensures !enabled ==> cleaned == 0 && applications == old(applications)
      ensures enabled ==> applications == map u | u in old(applications) && !Due(old(applications)[u], now) :: old(applications)[u]
      ensures enabled ==> cleaned == |CleanedUsers(old(applications), now, present, undeletable)|
    {
      if !enabled {
        return 0;
      }
      var toRemove;
      toRemove, cleaned := ScanDue(applications, now, present, undeletable);
      applications := map u | u in applications && u !in toRemove :: applications[u];
    }

    /** `applications toggle`: without an argument the switch flips. */
    method Toggle(onOff: Option<bool>)
      modifies this`enabled
      ensures enabled == if onOff.Some? then onOff.value else !old(enabled)
    {
      if onOff.None? {
        enabled := !enabled;
      } else {
        enabled := onOff.value;
      }
    }

    /** `applications restrictedrole`: no role clears it. */
    method SetRestrictedRole(role: Option<int>)
      modifies this`restrictedRole
      ensures restrictedRole == role
    {
      restrictedRole := role;
    }

    /** `applications cleanupdelay`: negative delays are refused. */
    method SetCleanupDelay(hours: int) returns (reply: SettingReply)
      requires cleanupDelay >= 0
      modifies this`cleanupDelay
      ensures cleanupDelay >= 0
      ensures reply == (if hours < 0 then NegativeDelay else SettingDone)
      ensures cleanupDelay == if hours < 0 then old(cleanupDelay) else hours
    {
      if hours < 0 {
        return NegativeDelay;
      }
      cleanupDelay := hours;
      reply := SettingDone;
    }

    /** `applications bypassrole|accessrole|managerrole add|remove`. */
    method EditRoleList(which: RoleList, action: string, role: Option<int>) returns (reply: RoleReply)
      requires RolesOk()
      modifies this`accessRoles, this`bypassRoles, this`managerRoles
      ensures RolesOk()
      ensures reply ==
        var list := match which
          case AccessRoles => old(accessRoles)
          case BypassRoles => old(bypassRoles)
          case ManagerRoles => old(managerRoles);
        if Lower(action) != "add" && Lower(action) != "remove" then InvalidAction
        else if role.None? then NoRoleGiven
        else if Lower(action) == "add" then (if role.value in list then AlreadyListed else RoleAdded)
        else if role.value in list then RoleRemoved else NotListed
      ensures reply in {InvalidAction, NoRoleGiven, AlreadyListed, NotListed} ==>
        accessRoles == old(accessRoles) && bypassRoles == old(bypassRoles) && managerRoles == old(managerRoles)
      ensures reply in {RoleAdded, RoleRemoved} ==> role.Some? && Lower(action) == (if reply == RoleAdded then "add" else "remove")
      ensures reply in {RoleAdded, RoleRemoved} ==> var add := reply == RoleAdded;
        && accessRoles == (if which == AccessRoles then ListEdited(old(accessRoles), add, role.value) else old(accessRoles))
        && bypassRoles == (if which == BypassRoles then ListEdited(old(bypassRoles), add, role.value) else old(bypassRoles))
        && managerRoles == (if which == ManagerRoles then ListEdited(old(managerRoles), add, role.value) else old(managerRoles))
    {
      var act := Lower(action);
      if act != "add" && act != "remove" {
        return InvalidAction;
      }
      if role.None? {
        return NoRoleGiven;
      }
      var add := act == "add";
      var list := match which
        case AccessRoles => accessRoles
        case BypassRoles => bypassRoles
        case ManagerRoles => managerRoles;
      if add && role.value in list {
        return AlreadyListed;
      }
      if !add && role.value !in list {
        return NotListed;
      }
      var edited := ListEdited(list, add, role.value);
      match which {
        case AccessRoles => accessRoles := edited;
        case BypassRoles => bypassRoles := edited;
        case ManagerRoles => managerRoles := edited;
      }
      reply := if add then RoleAdded else RoleRemoved;
    }
  }

  /** An application whose cleanup time has come. */
  predicate Due(a: Application, now: int)
  {
    a.cleanupAt.Some? && now >= a.cleanupAt.value
  }

  /**
   * A due application counts as cleaned when it names a channel that is
   * gone (not in `present`) or whose deletion succeeds (not in
   * `undeletable`).
   */
  predicate Cleaned(a: Application, present: set<int>, undeletable: set<int>)
  {
    a.channelId != 0 && (a.channelId !in present || a.channelId !in undeletable)
  }

  function DueUsers(apps: map<int, Application>, now: int): set<int>
  {
    set u | u in apps && Due(apps[u], now)
  }

  function CleanedUsers(apps: map<int, Application>, now: int, present: set<int>, undeletable: set<int>): set<int>
  {
    set u | u in apps && Due(apps[u], now) && Cleaned(apps[u], present, undeletable)
  }

  /** The due applications among those already scanned (all but `todo`). */
  function DueOutside(apps: map<int, Application>, now: int, todo: set<int>): set<int>
  {
    set u | u in apps && u !in todo && Due(apps[u], now)
  }

  /** The scanned due applications whose channel counts as cleaned. */
  function CleanedOutside(apps: map<int, Application>, now: int, present: set<int>, undeletable: set<int>, todo: set<int>): set<int>
  {
    set u | u in DueOutside(apps, now, todo) && Cleaned(apps[u], present, undeletable)
  }

  /** Scanning one more application adds it to the sets it belongs to, and it was in neither before. */
  lemma ScanStep(apps: map<int, Application>, now: int, present: set<int>, undeletable: set<int>, todo: set<int>, u: int)
    requires u in todo && todo <= apps.Keys
    ensures u !in DueOutside(apps, now, todo)
    ensures DueOutside(apps, now, todo - {u}) ==
      DueOutside(apps, now, todo) + (if Due(apps[u], now) then {u} else {})
    ensures CleanedOutside(apps, now, present, undeletable, todo - {u}) ==
      CleanedOutside(apps, now, present, undeletable, todo)
      + (if Due(apps[u], now) && Cleaned(apps[u], present, undeletable) then {u} else {})
  {
  }

  /** The cleanup loop over the applications: which to drop and how many channels count as cleaned. */
  method ScanDue(apps: map<int, Application>, now: int, present: set<int>, undeletable: set<int>)
    returns (toRemove: set<int>, cleaned: nat)
    ensures toRemove == DueUsers(apps, now)
    ensures cleaned == |CleanedUsers(apps, now, present, undeletable)|
    ensures CleanedUsers(apps, now, present, undeletable) <= toRemove
  {
    toRemove := {};
    cleaned := 0;
    var todo := apps.Keys;
    ghost var counted: set<int> := {};
    while todo != {}
      invariant todo <= apps.Keys
      invariant toRemove == DueOutside(apps, now, todo)
      invariant counted == CleanedOutside(apps, now, present, undeletable, todo)
      invariant cleaned == |counted|
      decreases |todo|
    {
      ghost var some := Pick(todo);
      var u :| u in todo;
      ScanStep(apps, now, present, undeletable, todo, u);
      var a := apps[u];
      if Due(a, now) {
        if Cleaned(a, present, undeletable) {
          cleaned := cleaned + 1;
          counted := counted + {u};
        }
        toRemove := toRemove + {u};
      }
      todo := todo - {u};
    }
    assert toRemove == DueUsers(apps, now);
    assert counted == CleanedUsers(apps, now, present, undeletable);
  }
}
