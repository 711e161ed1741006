/**
 Two-stage prompt assembly: `assemble_final_prompt` and its block builders in backend/app/services/prompts.py, and the
 `dynamic_variables` of `get_agent_runtime_config` in backend/app/services/agent_service.py.

 The prompt synced to the voice platform carries five placeholders; the platform fills them per call from
 `dynamic_variables`. The wording is a parameter.
*/
module Prompts {
  import Products
  import opened Options
  import opened PromptText

  function Placeholder(name: string): string {
    "{{" + name + "}}"
  }

  /** What the platform replaces: the keys of `dynamic_variables` in double braces. */
  const PLACEHOLDERS := Texts(
    Placeholder("caller_context"), Placeholder("memory_context"), Placeholder("temperament_block"),
    Placeholder("swearing_block"), Placeholder("time_limit_block"))

  /** What the assembler puts into the slots of a prompt that is to be synced. */
  const SYNCED := Texts(
    "{{caller_context}}", "{{memory_context}}", "{{temperament_block}}", "{{swearing_block}}", "{{time_limit_block}}")

  // ---------------------------------------------------------------------------------------------
  // Arguments
  // ---------------------------------------------------------------------------------------------

  datatype ScreeningPart = Wording(text: string) | User | Duration | Days

  datatype Slot =
    | AgentName | UserName | FunctionLabel | TodayDate | CallerPhone | UserTimezone
    | RecordingSlot | GreetingSlot | ScreeningSlot | HandoffSlot | InstructionsSlot
    | CallSlot(v: Var)

  /** A system prompt template: wording and slots. */
  datatype Part = Text(text: string) | Slot(slot: Slot)

  /** The fixed sentences of the block builders. */
  datatype Sentences = Sentences(
    temperaments: map<string, string>, defaultTemperament: string,
    swearingRules: map<string, string>, defaultSwearing: string,
    vipLine: string, vipName: (string, string), vipCritical: (string, string), vipAdvice: string,
    vipLabel: string, standardLabel: string, limitMiddle: string, limitTail: string,
    firstTimeCaller: string, memoryHead: seq<string>, memoryVip: string, memoryTail: seq<string>,
    recordedLine: string, handoffLine: string,
    instructionsHead: string, instructionsMiddle: string, instructionsTail: string,
    contactHead: string, contactTail: string,
    screeningWithBooking: seq<ScreeningPart>, screeningPlain: seq<ScreeningPart>)

  datatype VipInfo = VipInfo(displayName: string, company: string, relationship: string, notes: string)

  datatype MemoryItem = MemoryItem(subject: string, value: string)

  /** What the agent is configured with. `upperUser` is the display name in capitals, numbers are given as text. */
  datatype Agent = Agent(
    agentName: string, user: string, upperUser: string, functionLabel: string, recordingLine: bool,
    instructions: string, greeting: string, booking: bool, duration: string, days: string)

  /** What is known about the caller and the settings resolved for the call. */
  datatype Caller = Caller(
    isVip: bool, vip: Option<VipInfo>, items: seq<MemoryItem>, repeatContext: string,
    temperament: string, swearing: string, maxSeconds: string, nameFromMemory: Option<string>)

  // ---------------------------------------------------------------------------------------------
  // Block builders
  // ---------------------------------------------------------------------------------------------

  function Join(lines: seq<string>): string {
    if lines == [] then ""
    else if |lines| == 1 then lines[0]
    else lines[0] + "\n" + Join(lines[1..])
  }

  function OneIf(condition: bool, line: string): seq<string> {
    if condition then [line] else []
  }

  function CallerLines(s: Sentences, name: string): seq<string> {
    [s.vipLine]
    + OneIf(name != "", s.vipName.0 + name + s.vipName.1)
    + OneIf(name != "", s.vipCritical.0 + name + s.vipCritical.1)
    + [s.vipAdvice]
  }

  function VipName(c: Caller): string {
    if c.vip.Some? then c.vip.value.displayName else ""
  }

  function CallerContextText(s: Sentences, c: Caller): string {
    if !c.isVip then "" else Join(CallerLines(s, VipName(c)))
  }

  function TimeLimitText(s: Sentences, c: Caller): string {
    (if c.isVip then s.vipLabel else s.standardLabel) + s.limitMiddle + c.maxSeconds + s.limitTail
  }

  function ItemLines(items: seq<MemoryItem>): seq<string> {
    if items == [] then []
    else
      (if items[0].value != "" then [items[0].subject + ": " + items[0].value]
       else OneIf(items[0].subject != "", items[0].subject)) + ItemLines(items[1..])
  }

  function VipLines(s: Sentences, v: VipInfo): seq<string> {
    [s.memoryVip]
    + OneIf(v.displayName != "", "Name: " + v.displayName)
    + OneIf(v.company != "", "Company: " + v.company)
    + OneIf(v.relationship != "", "Relationship: " + v.relationship)
    + OneIf(v.notes != "", "Owner note: \"" + v.notes + "\"")
    + [""]
  }

  function MemoryLines(s: Sentences, c: Caller): seq<string> {
    s.memoryHead
    + (if c.vip.Some? then VipLines(s, c.vip.value) else [])
    + (if c.items != [] then ItemLines(c.items) + [""] else [])
    + (if c.repeatContext != "" then [c.repeatContext, ""] else [])
    + s.memoryTail
  }

  function MemoryText(s: Sentences, c: Caller): string {
    if c.items == [] && c.vip == None && c.repeatContext == "" then s.firstTimeCaller else Join(MemoryLines(s, c))
  }

  function Lookup(m: map<string, string>, key: string, default_: string): string {
    if key in m then m[key] else default_
  }

  /** The five blocks computed for a call. */
  function CallBlocks(s: Sentences, c: Caller): Texts {
    Texts(CallerContextText(s, c), MemoryText(s, c),
          Lookup(s.temperaments, c.temperament, s.defaultTemperament),
          Lookup(s.swearingRules, c.swearing, s.defaultSwearing),
          TimeLimitText(s, c))
  }

  predicate Space(ch: char) {
    ch == ' ' || ch == '\t' || ch == '\n' || ch == '\r'
  }

  function Stripped(s: string): string
    decreases |s|
  {
    if s != "" && Space(s[0]) then Stripped(s[1..])
    else if s != "" && Space(s[|s| - 1]) then Stripped(s[..|s| - 1])
    else s
  }

  predicate AllSpace(s: string) {
    forall i :: 0 <= i < |s| ==> Space(s[i])
  }

  /** Stripping takes away spaces around the text, all of them and nothing else. */
  lemma {:induction false} StrippedKeepsCore(s: string) returns (lead: string, trail: string)
    ensures s == lead + Stripped(s) + trail && AllSpace(lead) && AllSpace(trail)
    ensures var core := Stripped(s); core != "" ==> !Space(core[0]) && !Space(core[|core| - 1])
    decreases |s|
  {
    if s != "" && Space(s[0]) {
      lead, trail := StrippedKeepsCore(s[1..]);
      lead := [s[0]] + lead;
    } else if s != "" && Space(s[|s| - 1]) {
      lead, trail := StrippedKeepsCore(s[..|s| - 1]);
      trail := trail + [s[|s| - 1]];
    } else {
      lead, trail := "", "";
    }
  }

  function ContactInstructions(s: Sentences, custom: string): string {
    if Stripped(custom) == "" then "" else s.contactHead + Stripped(custom) + s.contactTail
  }

  /** What the runtime sends under each key, computed apart from the assembler: the caller context with the
      owner's instructions for this contact appended, and the other blocks. */
  function DynamicVariables(s: Sentences, c: Caller, contactCustom: string): Texts {
    Texts(CallerContextText(s, c) + ContactInstructions(s, contactCustom),
          MemoryText(s, c),
          if c.temperament in s.temperaments then s.temperaments[c.temperament] else s.defaultTemperament,
          if c.swearing in s.swearingRules then s.swearingRules[c.swearing] else s.defaultSwearing,
          TimeLimitText(s, c))
  }

  // ---------------------------------------------------------------------------------------------
  // Assembly
  // ---------------------------------------------------------------------------------------------

  function ScreeningPieces(parts: seq<ScreeningPart>, a: Agent): seq<Piece> {
    if parts == [] then []
    else
      [match parts[0]
       case Wording(t) => Fixed(t)
       case User => Inserted(a.user)
       case Duration => Inserted(a.duration)
       case Days => Inserted(a.days)] + ScreeningPieces(parts[1..], a)
  }

  /** The greeting is personalised with the caller's name only when the prompt is not for sync. */
  function Greeting(a: Agent, name: Option<string>): string {
    if name.Some? && name.value != "" then "Hey " + name.value + "! " + a.greeting else a.greeting
  }

  function SlotPieces(slot: Slot, s: Sentences, a: Agent, name: Option<string>): seq<Piece> {
    match slot
    case AgentName => [Inserted(a.agentName)]
    case UserName => [Inserted(a.user)]
    case FunctionLabel => [Inserted(a.functionLabel)]
    case TodayDate => [Inserted(Placeholder("today_date"))]
    case CallerPhone => [Inserted(Placeholder("caller_phone"))]
    case UserTimezone => [Inserted(Placeholder("user_timezone"))]
    case RecordingSlot => if a.recordingLine then [Fixed(s.recordedLine)] else []
    case GreetingSlot => [Inserted(Greeting(a, name))]
    case ScreeningSlot => ScreeningPieces(if a.booking then s.screeningWithBooking else s.screeningPlain, a)
    case HandoffSlot => [Fixed(s.handoffLine)]
    case InstructionsSlot =>
      if Stripped(a.instructions) == "" then []
      else [Fixed(s.instructionsHead), Inserted(a.upperUser), Fixed(s.instructionsMiddle),
            Inserted(Stripped(a.instructions)), Fixed(s.instructionsTail)]
    case CallSlot(v) => [Dynamic(v)]
  }

  function PartPieces(p: Part, s: Sentences, a: Agent, name: Option<string>): seq<Piece> {
    match p
    case Text(t) => [Fixed(t)]
    case Slot(slot) => SlotPieces(slot, s, a, name)
  }

  function Pieces(template: seq<Part>, s: Sentences, a: Agent, name: Option<string>): seq<Piece> {
    if template == [] then [] else PartPieces(template[0], s, a, name) + Pieces(template[1..], s, a, name)
  }

  function AssembleFinalPrompt(template: seq<Part>, s: Sentences, a: Agent, c: Caller, forSync: bool): string {
    var pieces := Pieces(template, s, a, if forSync then None else c.nameFromMemory);
    Rendered(pieces, if forSync then SYNCED else CallBlocks(s, c))
  }

  // ---------------------------------------------------------------------------------------------
  // What the source's templates look like
  // ---------------------------------------------------------------------------------------------

  predicate Simple(p: Part) {
    p.Slot? && p.slot in {AgentName, UserName, FunctionLabel, TodayDate, CallerPhone, UserTimezone}
  }

  /** Both templates: plain wording, no greeting slot, every simple slot followed by wording. */
  ghost predicate TemplateShape(template: seq<Part>) {
    && (forall i :: 0 <= i < |template| && template[i].Text? ==> Plain(template[i].text))
    && Slot(GreetingSlot) !in template
    && (forall i :: 0 <= i < |template| - 1 && Simple(template[i]) ==> template[i + 1].Text?)
  }

  ghost predicate ScreeningShape(parts: seq<ScreeningPart>) {
    && (forall i :: 0 <= i < |parts| && parts[i].Wording? ==> Plain(parts[i].text))
    && (forall i :: 0 <= i < |parts| && !parts[i].Wording? ==> i + 1 < |parts| && parts[i + 1].Wording?)
  }

  ghost predicate SentencesShape(s: Sentences) {
    && Plain(s.recordedLine) && Plain(s.handoffLine)
    && Plain(s.instructionsHead) && Plain(s.instructionsMiddle) && Plain(s.instructionsTail)
    && Plain(s.contactHead)
    && ScreeningShape(s.screeningWithBooking) && ScreeningShape(s.screeningPlain)
  }

  /** None of the texts inserted at sync time contains one of the five placeholders. */
  ghost predicate CleanAgent(a: Agent) {
    && Clean(a.agentName, PLACEHOLDERS) && Clean(a.user, PLACEHOLDERS) && Clean(a.upperUser, PLACEHOLDERS)
    && Clean(a.functionLabel, PLACEHOLDERS) && Clean(Stripped(a.instructions), PLACEHOLDERS)
    && Clean(a.duration, PLACEHOLDERS) && Clean(a.days, PLACEHOLDERS)
  }

  ghost predicate IsName(name: string) {
    2 <= |name| && forall i :: 0 <= i < |name| ==> NameChar(name[i])
  }

  lemma PlaceholderIsBraced(name: string)
    requires IsName(name)
    ensures var p := Placeholder(name); Braced(p) && p[2] == name[0] && p[3] == name[1]
  {
  }

  lemma WellMarkedByParts(m: Texts)
    requires Braced(m.callerContext) && Braced(m.memoryContext) && Braced(m.temperament)
    requires Braced(m.swearing) && Braced(m.timeLimit)
    requires m.callerContext[2] == 'c' && m.memoryContext[2] == 'm' && m.swearing[2] == 's'
    requires m.temperament[2] == m.timeLimit[2] == 't' && m.temperament[3] == 'e' && m.timeLimit[3] == 'i'
    ensures WellMarked(m)
  {
  }

  lemma PlaceholdersAreWellMarked()
    ensures WellMarked(PLACEHOLDERS)
  {
    PlaceholderIsBraced("caller_context");
    PlaceholderIsBraced("memory_context");
    PlaceholderIsBraced("temperament_block");
    PlaceholderIsBraced("swearing_block");
    PlaceholderIsBraced("time_limit_block");
    WellMarkedByParts(PLACEHOLDERS);
  }

  lemma CallerContextIsReplaced()
    ensures Placeholder("caller_context") == "{{caller_context}}"
  {
  }

  lemma MemoryContextIsReplaced()
    ensures Placeholder("memory_context") == "{{memory_context}}"
  {
  }

  lemma TemperamentBlockIsReplaced()
    ensures Placeholder("temperament_block") == "{{temperament_block}}"
  {
  }

  lemma SwearingBlockIsReplaced()
    ensures Placeholder("swearing_block") == "{{swearing_block}}"
  {
  }

  lemma TimeLimitBlockIsReplaced()
    ensures Placeholder("time_limit_block") == "{{time_limit_block}}"
  {
  }

  /** The synced prompt carries exactly what the platform replaces. */
  lemma SyncedIsReplaced()
    ensures SYNCED == PLACEHOLDERS
  {
    CallerContextIsReplaced();
    MemoryContextIsReplaced();
    TemperamentBlockIsReplaced();
    SwearingBlockIsReplaced();
    TimeLimitBlockIsReplaced();
  }

  /** The other placeholders are shorter than each of the five. */
  lemma ShortTextIsClean(t: string)
    requires |t| < 18
    ensures Clean(t, PLACEHOLDERS)
  {
    forall v
      ensures 18 <= |PLACEHOLDERS.Of(v)|
    {
    }
  }

  lemma {:induction false} ScreeningIsSeparated(parts: seq<ScreeningPart>, a: Agent)
    requires ScreeningShape(parts) && CleanAgent(a)
    ensures Separated(ScreeningPieces(parts, a), PLACEHOLDERS)
    ensures var ps := ScreeningPieces(parts, a); ps != [] ==> ps[|ps| - 1].Fixed?
    ensures parts != [] && parts[0].Wording? ==> ScreeningPieces(parts, a) != [] && ScreeningPieces(parts, a)[0].Fixed?
    decreases |parts|
  {
    if parts != [] {
      var rest := parts[1..];
      assert forall i :: 0 <= i < |rest| ==> rest[i] == parts[i + 1];
      ScreeningIsSeparated(rest, a);
    }
  }

  lemma InstructionsAreSeparated(s: Sentences, a: Agent)
    requires SentencesShape(s) && CleanAgent(a)
    ensures
      var ps := SlotPieces(InstructionsSlot, s, a, None);
      Separated(ps, PLACEHOLDERS) && (ps != [] ==> ps[|ps| - 1].Fixed?)
  {
  }

  lemma OtherPlaceholdersAreClean()
    ensures Clean(Placeholder("today_date"), PLACEHOLDERS)
    ensures Clean(Placeholder("caller_phone"), PLACEHOLDERS)
    ensures Clean(Placeholder("user_timezone"), PLACEHOLDERS)
  {
    ShortTextIsClean(Placeholder("today_date"));
    ShortTextIsClean(Placeholder("caller_phone"));
    ShortTextIsClean(Placeholder("user_timezone"));
  }

  lemma SlotIsSeparated(slot: Slot, s: Sentences, a: Agent)
    requires SentencesShape(s) && CleanAgent(a) && slot != GreetingSlot
    ensures Separated(SlotPieces(slot, s, a, None), PLACEHOLDERS)
    ensures
      var ps := SlotPieces(slot, s, a, None);
      ps != [] && ps[|ps| - 1].Inserted? ==> Simple(Slot(slot))
  {
    if slot == ScreeningSlot {
      ScreeningIsSeparated(if a.booking then s.screeningWithBooking else s.screeningPlain, a);
    } else if slot == InstructionsSlot {
      InstructionsAreSeparated(s, a);
    } else if slot in {TodayDate, CallerPhone, UserTimezone} {
      OtherPlaceholdersAreClean();
    }
  }

  lemma SeparatedConcat(xs: seq<Piece>, ys: seq<Piece>, marks: Texts)
    requires Separated(xs, marks) && Separated(ys, marks)
    requires xs != [] && ys != [] && xs[|xs| - 1].Inserted? ==> !ys[0].Inserted?
    ensures Separated(xs + ys, marks)
  {
    var all := xs + ys;
    assert forall i :: 0 <= i < |all| ==> all[i] == if i < |xs| then xs[i] else ys[i - |xs|];
  }

  lemma {:induction false} TemplateIsSeparated(template: seq<Part>, s: Sentences, a: Agent)
    requires TemplateShape(template) && SentencesShape(s) && CleanAgent(a)
    ensures Separated(Pieces(template, s, a, None), PLACEHOLDERS)
    decreases |template|
  {
    if template != [] {
      var rest := template[1..];
      assert forall i :: 0 <= i < |rest| ==> rest[i] == template[i + 1];
      TemplateIsSeparated(rest, s, a);
      var head, tail := PartPieces(template[0], s, a, None), Pieces(rest, s, a, None);
      if template[0].Slot? {
        assert template[0] in template;
        SlotIsSeparated(template[0].slot, s, a);
        if Simple(template[0]) && rest != [] {
          assert template[1].Text? && rest[0] == template[1];
          assert tail[0] == Fixed(rest[0].text);
        }
      }
      SeparatedConcat(head, tail, PLACEHOLDERS);
    }
  }

  // ---------------------------------------------------------------------------------------------
  // Main results
  // ---------------------------------------------------------------------------------------------

  /** Without a greeting slot the caller's name cannot reach the prompt through the greeting. */
  lemma {:induction false} PiecesIgnoreName(template: seq<Part>, s: Sentences, a: Agent, name: Option<string>)
    requires Slot(GreetingSlot) !in template
    ensures Pieces(template, s, a, name) == Pieces(template, s, a, None)
    decreases |template|
  {
    if template != [] {
      assert template[0] in template;
      PiecesIgnoreName(template[1..], s, a, name);
    }
  }

  function SlotCount(ps: seq<Piece>, v: Var): nat {
    if ps == [] then 0 else (if ps[0] == Dynamic(v) then 1 else 0) + SlotCount(ps[1..], v)
  }

  /** Lengthening one value lengthens the text once for each of its slots. */
  lemma {:induction false} LongerContext(ps: seq<Piece>, fill: Texts, extra: string)
    ensures
      var longer := fill.(callerContext := fill.callerContext + extra);
      |Rendered(ps, longer)| == |Rendered(ps, fill)| + SlotCount(ps, CallerContext) * |extra|
    decreases |ps|
  {
    if ps != [] {
      LongerContext(ps[1..], fill, extra);
      if ps[0] == Dynamic(CallerContext) {
        Products.OneMore(SlotCount(ps[1..], CallerContext), |extra|);
      }
    }
  }

  lemma {:induction false} SlotCountAppend(xs: seq<Piece>, ys: seq<Piece>, v: Var)
    ensures SlotCount(xs + ys, v) == SlotCount(xs, v) + SlotCount(ys, v)
    decreases |xs|
  {
    if xs == [] {
      assert xs + ys == ys;
    } else {
      assert (xs + ys)[1..] == xs[1..] + ys;
      SlotCountAppend(xs[1..], ys, v);
    }
  }

  lemma {:induction false} TemplateHasSlot(template: seq<Part>, s: Sentences, a: Agent, v: Var)
    requires Slot(CallSlot(v)) in template
    ensures 0 < SlotCount(Pieces(template, s, a, None), v)
    decreases |template|
  {
    var head, tail := PartPieces(template[0], s, a, None), Pieces(template[1..], s, a, None);
    SlotCountAppend(head, tail, v);
    if template[0] == Slot(CallSlot(v)) {
      assert head == [Dynamic(v)];
      assert SlotCount(head, v) == 1;
    } else {
      TemplateHasSlot(template[1..], s, a, v);
    }
  }

  /** Staged assembly preserves meaning: substituting the runtime's dynamic variables into the synced prompt gives
      exactly the prompt assembled for the call, if and only if the contact has no custom instructions. */
  lemma StagedAssemblyIffNoContactInstructions(
    template: seq<Part>, s: Sentences, a: Agent, c: Caller, contactCustom: string)
    requires TemplateShape(template) && Slot(CallSlot(CallerContext)) in template
    requires SentencesShape(s) && CleanAgent(a)
    ensures
      Substitute(AssembleFinalPrompt(template, s, a, c, true), PLACEHOLDERS, DynamicVariables(s, c, contactCustom))
        == AssembleFinalPrompt(template, s, a, c, false)
      <==> Stripped(contactCustom) == ""
  {
    var pieces := Pieces(template, s, a, None);
    var blocks, extra := CallBlocks(s, c), ContactInstructions(s, contactCustom);
    assert DynamicVariables(s, c, contactCustom) == blocks.(callerContext := blocks.callerContext + extra);
    PiecesIgnoreName(template, s, a, c.nameFromMemory);
    TemplateIsSeparated(template, s, a);
    PlaceholdersAreWellMarked();
    SyncedIsReplaced();
    SubstituteRendered(pieces, PLACEHOLDERS, DynamicVariables(s, c, contactCustom));
    if Stripped(contactCustom) == "" {
      assert blocks.callerContext + "" == blocks.callerContext;
    } else {
      LongerContext(pieces, blocks, extra);
      TemplateHasSlot(template, s, a, CallerContext);
      Products.Positive(SlotCount(pieces, CallerContext), |extra|);
    }
  }

  /** What is synced to the platform is the same for every caller. */
  lemma SyncIgnoresCaller(template: seq<Part>, s: Sentences, a: Agent, c: Caller, d: Caller)
    ensures AssembleFinalPrompt(template, s, a, c, true) == AssembleFinalPrompt(template, s, a, d, true)
  {
  }

  // ---------------------------------------------------------------------------------------------
  // Every field goes to its own slot
  // ---------------------------------------------------------------------------------------------

  /** A setting of the call moves its own block and no other. */
  lemma SettingsMoveTheirBlocks(s: Sentences, c: Caller, x: string)
    ensures
      var b := CallBlocks(s, c);
      && CallBlocks(s, c.(temperament := x)) == b.(temperament := Lookup(s.temperaments, x, s.defaultTemperament))
      && CallBlocks(s, c.(swearing := x)) == b.(swearing := Lookup(s.swearingRules, x, s.defaultSwearing))
      && CallBlocks(s, c.(maxSeconds := x)) == b.(timeLimit := CallBlocks(s, c.(maxSeconds := x)).timeLimit)
      && CallBlocks(s, c.(repeatContext := x)) == b.(memoryContext := CallBlocks(s, c.(repeatContext := x)).memoryContext)
  {
  }

  lemma {:induction false} ScreeningFieldsGoToTheirParts(parts: seq<ScreeningPart>, a: Agent, x: string)
    ensures User !in parts ==> ScreeningPieces(parts, a.(user := x)) == ScreeningPieces(parts, a)
    ensures Duration !in parts ==> ScreeningPieces(parts, a.(duration := x)) == ScreeningPieces(parts, a)
    ensures Days !in parts ==> ScreeningPieces(parts, a.(days := x)) == ScreeningPieces(parts, a)
    decreases |parts|
  {
    if parts != [] {
      assert parts[0] in parts;
      ScreeningFieldsGoToTheirParts(parts[1..], a, x);
    }
  }

  lemma SlotReadsItsField(slot: Slot, s: Sentences, a: Agent, x: string)
    ensures slot != AgentName ==> SlotPieces(slot, s, a.(agentName := x), None) == SlotPieces(slot, s, a, None)
    ensures slot != UserName && slot != ScreeningSlot ==>
      SlotPieces(slot, s, a.(user := x), None) == SlotPieces(slot, s, a, None)
    ensures slot != FunctionLabel ==> SlotPieces(slot, s, a.(functionLabel := x), None) == SlotPieces(slot, s, a, None)
    ensures slot != InstructionsSlot ==> SlotPieces(slot, s, a.(instructions := x), None) == SlotPieces(slot, s, a, None)
    ensures slot != GreetingSlot ==> SlotPieces(slot, s, a.(greeting := x), None) == SlotPieces(slot, s, a, None)
  {
    ScreeningFieldsGoToTheirParts(if a.booking then s.screeningWithBooking else s.screeningPlain, a, x);
    var parts := if a.booking then s.screeningWithBooking else s.screeningPlain;
    UnrelatedFieldsKeepScreening(parts, a, x);
  }

  lemma {:induction false} UnrelatedFieldsKeepScreening(parts: seq<ScreeningPart>, a: Agent, x: string)
    ensures ScreeningPieces(parts, a.(agentName := x)) == ScreeningPieces(parts, a)
    ensures ScreeningPieces(parts, a.(functionLabel := x)) == ScreeningPieces(parts, a)
    ensures ScreeningPieces(parts, a.(instructions := x)) == ScreeningPieces(parts, a)
    ensures ScreeningPieces(parts, a.(greeting := x)) == ScreeningPieces(parts, a)
    decreases |parts|
  {
    if parts != [] {
      UnrelatedFieldsKeepScreening(parts[1..], a, x);
    }
  }

  /** What a prompt does not have a slot for cannot reach it: each name, label and instruction has its own. */
  lemma {:induction false} FieldsGoToTheirSlots(template: seq<Part>, s: Sentences, a: Agent, x: string)
    ensures Slot(AgentName) !in template ==>
      Pieces(template, s, a.(agentName := x), None) == Pieces(template, s, a, None)
    ensures Slot(UserName) !in template && Slot(ScreeningSlot) !in template ==>
      Pieces(template, s, a.(user := x), None) == Pieces(template, s, a, None)
    ensures Slot(FunctionLabel) !in template ==>
      Pieces(template, s, a.(functionLabel := x), None) == Pieces(template, s, a, None)
    ensures Slot(InstructionsSlot) !in template ==>
      Pieces(template, s, a.(instructions := x), None) == Pieces(template, s, a, None)
    ensures Slot(GreetingSlot) !in template ==>
      Pieces(template, s, a.(greeting := x), None) == Pieces(template, s, a, None)
    decreases |template|
  {
    if template != [] {
      assert template[0] in template;
      if template[0].Slot? {
        SlotReadsItsField(template[0].slot, s, a, x);
      }
      FieldsGoToTheirSlots(template[1..], s, a, x);
    }
  }

  // ---------------------------------------------------------------------------------------------
  // What the blocks tell
  // ---------------------------------------------------------------------------------------------

  predicate EndsLine(text: string) {
    text == "" || text[|text| - 1] == '\n'
  }

  predicate StartsLine(text: string) {
    text == "" || text[0] == '\n'
  }

  /** The text contains this as whole lines. */
  ghost predicate HasLine(text: string, line: string) {
    exists before: string, after: string :: text == before + line + after && EndsLine(before) && StartsLine(after)
  }

  lemma {:induction false} JoinHasLine(lines: seq<string>, line: string)
    requires line in lines
    ensures HasLine(Join(lines), line)
    decreases |lines|
  {
    var text := Join(lines);
    if |lines| == 1 {
      assert text == "" + line + "" && EndsLine("") && StartsLine("");
    } else if line == lines[0] {
      var after := "\n" + Join(lines[1..]);
      assert text == "" + line + after && EndsLine("") && StartsLine(after);
    } else {
      JoinHasLine(lines[1..], line);
      var before: string, after: string :|
        Join(lines[1..]) == before + line + after && EndsLine(before) && StartsLine(after);
      var more := lines[0] + "\n" + before;
      assert text == more + line + after && EndsLine(more);
    }
  }

  /** A remembered item is told with its value, or by its subject alone; one with neither is left out. */
  predicate TellsItem(item: MemoryItem, line: string) {
    if item.value != "" then line == item.subject + ": " + item.value else line == item.subject != ""
  }

  predicate TellsVip(s: Sentences, v: VipInfo, line: string) {
    || line == s.memoryVip
    || (v.displayName != "" && line == "Name: " + v.displayName)
    || (v.company != "" && line == "Company: " + v.company)
    || (v.relationship != "" && line == "Relationship: " + v.relationship)
    || (v.notes != "" && line == "Owner note: \"" + v.notes + "\"")
  }

  /** The line tells something known about the caller. */
  ghost predicate TellsCaller(s: Sentences, c: Caller, line: string) {
    || (c.vip.Some? && TellsVip(s, c.vip.value, line))
    || (exists i :: 0 <= i < |c.items| && TellsItem(c.items[i], line))
    || (c.repeatContext != "" && line == c.repeatContext)
  }

  lemma {:induction false} ItemLinesTell(items: seq<MemoryItem>, line: string)
    ensures line in ItemLines(items) <==> exists i :: 0 <= i < |items| && TellsItem(items[i], line)
    decreases |items|
  {
    if items != [] {
      ItemLinesTell(items[1..], line);
      if i :| 0 <= i < |items| && TellsItem(items[i], line) {
        assert i != 0 ==> items[1..][i - 1] == items[i];
      }
      if i :| 0 <= i < |items[1..]| && TellsItem(items[1..][i], line) {
        assert items[i + 1] == items[1..][i];
      }
    }
  }

  /** The memory block of a caller about whom nothing is known says so. Otherwise its lines between the fixed ones are
      exactly what is known, one line for every field, item and context that is not blank, and empty lines. */
  lemma MemoryTellsExactly(s: Sentences, c: Caller, line: string)
    ensures c.items == [] && c.vip == None && c.repeatContext == "" ==> MemoryText(s, c) == s.firstTimeCaller
    ensures
      c.items != [] || c.vip.Some? || c.repeatContext != "" ==>
        && (line in MemoryLines(s, c)
            <==> line in s.memoryHead || line in s.memoryTail || line == "" || TellsCaller(s, c, line))
        && (line in MemoryLines(s, c) ==> HasLine(MemoryText(s, c), line))
  {
    ItemLinesTell(c.items, line);
    if c.vip.Some? {
      var v := c.vip.value;
      assert line in VipLines(s, v) <==> line == "" || TellsVip(s, v, line);
    }
    if line in MemoryLines(s, c) {
      JoinHasLine(MemoryLines(s, c), line);
    }
  }

  /** The caller context is empty exactly for callers who are not VIPs; a VIP's has the sentences with the name exactly
      when there is one. */
  lemma CallerContextTellsExactly(s: Sentences, c: Caller, line: string)
    requires s.vipLine != ""
    ensures CallerContextText(s, c) == "" <==> !c.isVip
    ensures
      var n := VipName(c);
      line in CallerLines(s, n) <==>
        || line in {s.vipLine, s.vipAdvice}
        || (n != "" && line in {s.vipName.0 + n + s.vipName.1, s.vipCritical.0 + n + s.vipCritical.1})
    ensures c.isVip && line in CallerLines(s, VipName(c)) ==> HasLine(CallerContextText(s, c), line)
  {
    if line in CallerLines(s, VipName(c)) {
      JoinHasLine(CallerLines(s, VipName(c)), line);
    }
  }

  /** The time limit names the kind of caller first, and the optional slots show exactly what is set. */
  lemma SettingsShow(s: Sentences, c: Caller, a: Agent)
    ensures (if c.isVip then s.vipLabel else s.standardLabel) <= TimeLimitText(s, c)
    ensures SlotPieces(RecordingSlot, s, a, None) != [] <==> a.recordingLine
    ensures SlotPieces(InstructionsSlot, s, a, None) != [] <==> Stripped(a.instructions) != ""
    ensures
      var text := Stripped(a.instructions);
      text != "" ==> Inserted(text) in SlotPieces(InstructionsSlot, s, a, None)
  {
  }
}
