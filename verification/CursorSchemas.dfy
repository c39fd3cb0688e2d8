/** The pinned schema table of src/chat/agentKv.ts. */
module CursorSchemas {
  import opened Basics
  import opened Schema

  function Length(action: Option<Action>): Option<Rule> {
    Some(Rule({2}, action, None, false))
  }

  function LengthRepeated(action: Option<Action>): Option<Rule> {
    Some(Rule({2}, action, None, true))
  }

  function LengthOneof(action: Option<Action>, oneof: string): Option<Rule> {
    Some(Rule({2}, action, Some(oneof), false))
  }

  const PLAIN := Length(None)
  const NUMBER: Option<Rule> := Some(Rule({0}, None, None, false))
  const NUMBERS: Option<Rule> := Some(Rule({0, 2}, None, None, true))
  const BLOB := Some(Reference(Opaque))

  function CursorRules(schema: SchemaName, n: nat): Option<Rule> {
    match schema
    case Typed(ConversationState) => ConversationStateRules(n)
    case FileState => if n == 1 || n == 2 then Length(BLOB) else None
    case Typed(SubagentState) =>
      if n == 1 then Length(Some(Message(Typed(ConversationState))))
      else if n in {2, 3, 6} then NUMBER
      else if n in {4, 5, 7, 8, 9, 10} then PLAIN else None
    case Typed(ConversationTurn) =>
      if n == 1 then LengthOneof(Some(Message(AgentTurn)), "turn")
      else if n == 2 then LengthOneof(Some(Message(ShellTurn)), "turn") else None
    case AgentTurn =>
      if n == 1 then Length(Some(Reference(UserMessage)))
      else if n == 2 then LengthRepeated(Some(Reference(ConversationStep)))
      else if n in {3, 4, 10} then PLAIN
      else if n == 5 then NUMBER
      else if n == 6 then NUMBERS
      else if n == 9 then LengthRepeated(None) else None
    case ShellTurn => if n == 1 || n == 2 then Length(BLOB) else None
    case Typed(UserMessage) =>
      if n == 3 then Length(Some(Message(SelectedContext)))
      else if n == 10 then Length(Some(Reference(ConversationState)))
      else if n in {4, 5, 7, 9, 24, 25, 26} then NUMBER
      else if n in {1, 2, 6, 8, 11, 13, 14, 15, 16, 17, 18, 19, 22, 23} then PLAIN
      else if n == 21 then LengthRepeated(None) else None
    case SelectedContext =>
      if n == 1 then LengthRepeated(Some(Message(SelectedImage)))
      else if n == 2 then Length(Some(Message(InvocationContext)))
      else if n == 16 then LengthRepeated(Some(Message(ExtraContextEntry)))
      else if n == 20 then LengthRepeated(Some(Message(SelectedGitPrDiff)))
      else if n == 21 then LengthRepeated(Some(Message(SelectedPullRequest)))
      else if 1 <= n <= 27 || n == 34 then PLAIN else None
    case SelectedImage =>
      if n == 1 then LengthOneof(BLOB, "data")
      else if n in {2, 3, 4, 7} then PLAIN
      else if n == 9 then LengthOneof(Some(SelectedImageWithData), "data")
      else if n == 8 || n == 10 then LengthOneof(None, "data") else None
    case ExtraContextEntry =>
      if n == 1 then LengthOneof(None, "data") else if n == 2 then LengthOneof(BLOB, "data") else None
    case InvocationContext =>
      if n in {1, 2, 3, 4} then LengthOneof(None, "data")
      else if n == 10 then LengthOneof(BLOB, "data") else None
    case SelectedPullRequest =>
      if n == 1 then NUMBER else if 2 <= n <= 6 then PLAIN else if n == 7 then Length(BLOB) else None
    case SelectedGitPrDiff =>
      if n in {1, 2, 5} then PLAIN
      else if n == 3 || n == 4 then NUMBER
      else if n == 6 then Length(BLOB) else None
    case Typed(ConversationStep) =>
      if n == 1 || n == 3 then LengthOneof(None, "message")
      else if n == 2 then LengthOneof(Some(Message(ToolCall)), "message") else None
    case ToolCall => ToolCallRules(n)
    case ReadToolCall =>
      if n == 1 then PLAIN else if n == 2 then Length(Some(Message(ReadToolResult))) else None
    case ReadToolResult =>
      if n == 1 then LengthOneof(Some(Message(ReadToolSuccess)), "result")
      else if n == 2 then LengthOneof(None, "result") else None
    case ReadToolSuccess =>
      if n == 1 || n == 6 then LengthOneof(None, "output")
      else if n in {2, 3, 4, 5, 11} then NUMBER
      else if n == 7 || n == 8 then PLAIN
      else if n == 9 || n == 10 then LengthOneof(BLOB, "output")
      else if n == 12 || n == 13 then LengthRepeated(None) else None
    case TaskToolCall =>
      if n == 1 || n == 3 then PLAIN else if n == 2 then Length(Some(Message(TaskResult))) else None
    case TaskResult =>
      if n == 1 then LengthOneof(Some(Message(TaskSuccess)), "result")
      else if n == 2 then LengthOneof(None, "result") else None
    case TaskSuccess =>
      if n == 1 then LengthRepeated(Some(Message(Typed(ConversationStep))))
      else if n in {2, 5, 7} then PLAIN
      else if n in {3, 4, 6} then NUMBER else None
    case TruncatedToolCall =>
      if n == 1 then Length(Some(Reference(ConversationStep))) else if n == 2 || n == 3 then PLAIN else None
    case Typed(Opaque) => None
  }

  function ConversationStateRules(n: nat): Option<Rule> {
    if n in {1, 3, 13} then LengthRepeated(BLOB)
    else if n in {6, 7, 11} then Length(BLOB)
    else if n == 8 then LengthRepeated(Some(Reference(ConversationTurn)))
    else if n == 12 then LengthRepeated(Some(MapReference(Opaque)))
    else if n == 15 then LengthRepeated(Some(MapMessage(FileState)))
    else if n == 16 then LengthRepeated(Some(MapMessage(Typed(SubagentState))))
    else if n == 31 then LengthRepeated(Some(MapReference(SubagentState)))
    else if n in {10, 17, 26, 33, 37, 39} then NUMBER
    else if n == 38 then LengthRepeated(None)
    else if n in {4, 5, 9, 14, 18, 19, 20, 21, 22, 23, 24, 25, 27, 28, 29, 30, 32, 34, 35, 36} then PLAIN
    else None
  }

  function ToolCallRules(n: nat): Option<Rule> {
    if n == 8 then LengthOneof(Some(Message(ReadToolCall)), "tool")
    else if n == 19 then LengthOneof(Some(Message(TaskToolCall)), "tool")
    else if n == 34 then LengthOneof(Some(Message(TruncatedToolCall)), "tool")
    else if n == 54 then LengthRepeated(None)
    else if n == 57 then PLAIN
    else if n == 59 || n == 60 then NUMBER
    else if 1 <= n <= 78 && n !in {2, 6, 7, 11, 26, 27, 47} then LengthOneof(None, "tool")
    else None
  }

  /** In the pinned table every rule that acts takes length-delimited payloads
      only, no oneof member is a map, and maps are always repeated: so a role is
      settled by the rule alone, and an action never meets a field without
      contents. */
  lemma ActionsTakePayloads(schema: SchemaName, n: nat)
    ensures var rule := CursorRules(schema, n);
            rule.Some? && rule.value.action.Some? ==>
              && rule.value.wires == {2}
              && (rule.value.action.value.MapReference? || rule.value.action.value.MapMessage? ==>
                    rule.value.oneof == None && rule.value.repeated)
              && (rule.value.oneof.Some? ==> !rule.value.repeated)
  {
  }

  // ----- The table by what it is for -----

  /** Field n of the schema holds ids of values of the target type. */
  predicate HoldsIds(schema: SchemaName, n: nat, target: MessageType) {
    match target
    case Opaque =>
      || (schema == Typed(ConversationState) && n in {1, 3, 6, 7, 11, 13})
      || (schema in {FileState, ShellTurn} && n in {1, 2}) || (schema == SelectedImage && n == 1)
      || (schema == ExtraContextEntry && n == 2) || (schema == InvocationContext && n == 10)
      || (schema == SelectedPullRequest && n == 7) || (schema == SelectedGitPrDiff && n == 6)
      || (schema == ReadToolSuccess && n in {9, 10})
    case ConversationTurn => schema == Typed(ConversationState) && n == 8
    case UserMessage => schema == AgentTurn && n == 1
    case ConversationStep => (schema == AgentTurn && n == 2) || (schema == TruncatedToolCall && n == 1)
    case ConversationState => schema == Typed(UserMessage) && n == 10
    case SubagentState => false
  }

  /** Field n of the outer schema holds a message of the inner one. */
  predicate HoldsMessage(outer: SchemaName, n: nat, inner: SchemaName) {
    match inner
    case Typed(ConversationState) => outer == Typed(SubagentState) && n == 1
    case Typed(ConversationStep) => outer == TaskSuccess && n == 1
    case AgentTurn => outer == Typed(ConversationTurn) && n == 1
    case ShellTurn => outer == Typed(ConversationTurn) && n == 2
    case SelectedContext => outer == Typed(UserMessage) && n == 3
    case SelectedImage => outer == SelectedContext && n == 1
    case InvocationContext => outer == SelectedContext && n == 2
    case ExtraContextEntry => outer == SelectedContext && n == 16
    case SelectedGitPrDiff => outer == SelectedContext && n == 20
    case SelectedPullRequest => outer == SelectedContext && n == 21
    case ToolCall => outer == Typed(ConversationStep) && n == 2
    case ReadToolCall => outer == ToolCall && n == 8
    case TaskToolCall => outer == ToolCall && n == 19
    case TruncatedToolCall => outer == ToolCall && n == 34
    case ReadToolResult => outer == ReadToolCall && n == 2
    case ReadToolSuccess => outer == ReadToolResult && n == 1
    case TaskResult => outer == TaskToolCall && n == 2
    case TaskSuccess => outer == TaskResult && n == 1
    case _ => false
  }

  predicate InOneof(schema: SchemaName, n: nat, oneof: string) {
    match schema
    case Typed(ConversationTurn) => oneof == "turn" && 1 <= n <= 2
    case Typed(ConversationStep) => oneof == "message" && 1 <= n <= 3
    case SelectedImage => oneof == "data" && n in {1, 8, 9, 10}
    case ExtraContextEntry => oneof == "data" && 1 <= n <= 2
    case InvocationContext => oneof == "data" && n in {1, 2, 3, 4, 10}
    case ToolCall => oneof == "tool" && 1 <= n <= 78 && n !in {2, 6, 7, 11, 26, 27, 47, 54, 57, 59, 60}
    case ReadToolResult => oneof == "result" && 1 <= n <= 2
    case TaskResult => oneof == "result" && 1 <= n <= 2
    case ReadToolSuccess => oneof == "output" && n in {1, 6, 9, 10}
    case _ => false
  }

  predicate IsRepeated(schema: SchemaName, n: nat) {
    match schema
    case Typed(ConversationState) => n in {1, 3, 8, 12, 13, 15, 16, 31, 38}
    case AgentTurn => n in {2, 6, 9}
    case Typed(UserMessage) => n == 21
    case SelectedContext => n in {1, 16, 20, 21}
    case ToolCall => n == 54
    case ReadToolSuccess => n in {12, 13}
    case TaskSuccess => n == 1
    case _ => false
  }

  predicate IsNumber(schema: SchemaName, n: nat) {
    match schema
    case Typed(ConversationState) => n in {10, 17, 26, 33, 37, 39}
    case Typed(SubagentState) => n in {2, 3, 6}
    case AgentTurn => n in {5, 6}
    case Typed(UserMessage) => n in {4, 5, 7, 9, 24, 25, 26}
    case SelectedPullRequest => n == 1
    case SelectedGitPrDiff => n in {3, 4}
    case ToolCall => n in {59, 60}
    case ReadToolSuccess => n in {2, 3, 4, 5, 11}
    case TaskSuccess => n in {3, 4, 6}
    case _ => false
  }

  predicate IsField(schema: SchemaName, n: nat) {
    match schema
    case Typed(ConversationState) => 1 <= n <= 39 && n != 2
    case Typed(ConversationTurn) => 1 <= n <= 2
    case Typed(UserMessage) => 1 <= n <= 26 && n != 12 && n != 20
    case Typed(ConversationStep) => 1 <= n <= 3
    case Typed(SubagentState) => 1 <= n <= 10
    case Typed(Opaque) => false
    case AgentTurn => 1 <= n <= 10 && n != 7 && n != 8
    case SelectedContext => 1 <= n <= 27 || n == 34
    case SelectedImage => 1 <= n <= 10 && n != 5 && n != 6
    case InvocationContext => 1 <= n <= 4 || n == 10
    case SelectedPullRequest => 1 <= n <= 7
    case SelectedGitPrDiff => 1 <= n <= 6
    case ToolCall => 1 <= n <= 78 && n !in {2, 6, 7, 11, 26, 27, 47}
    case ReadToolSuccess => 1 <= n <= 13
    case TaskToolCall => 1 <= n <= 3
    case TaskSuccess => 1 <= n <= 7
    case TruncatedToolCall => 1 <= n <= 3
    case _ => 1 <= n <= 2
  }

  /** Which fields the table knows, and which of them are repeated. */
  lemma TableFields(schema: SchemaName, n: nat)
    ensures var rule := CursorRules(schema, n);
            (rule.Some? <==> IsField(schema, n)) && (rule.Some? ==> rule.value.repeated == IsRepeated(schema, n))
  {
  }

  /** Everything but a number is delimited, and a repeated number may be packed. */
  lemma TableWires(schema: SchemaName, n: nat)
    ensures var rule := CursorRules(schema, n);
            rule.Some? ==>
              rule.value.wires == (if !IsNumber(schema, n) then {2} else if IsRepeated(schema, n) then {0, 2} else {0})
  {
  }

  lemma TableOneofs(schema: SchemaName, n: nat, oneof: string)
    ensures var rule := CursorRules(schema, n);
            (rule.Some? && rule.value.oneof == Some(oneof)) <==> InOneof(schema, n, oneof)
  {
  }

  /** What the action of field n of the schema has to be for. */
  predicate IsAction(schema: SchemaName, n: nat, action: Action) {
    match action
    case Reference(target) => HoldsIds(schema, n, target)
    case Message(inner) => HoldsMessage(schema, n, inner)
    case MapReference(target) =>
      schema == Typed(ConversationState) && ((n == 12 && target == Opaque) || (n == 31 && target == SubagentState))
    case MapMessage(inner) =>
      schema == Typed(ConversationState)
      && ((n == 15 && inner == FileState) || (n == 16 && inner == Typed(SubagentState)))
    case SelectedImageWithData => schema == SelectedImage && n == 9
  }

  predicate Acts(schema: SchemaName, n: nat, action: Action) {
    CursorRules(schema, n).Some? && CursorRules(schema, n).value.action == Some(action)
  }

  /** The table acts exactly on the fields that refer to something, nest something or
      are maps. */
  lemma TableActions(schema: SchemaName, n: nat, action: Action)
    ensures Acts(schema, n, action) <==> IsAction(schema, n, action)
  {
    hide IsAction;
    if schema == Typed(ConversationState) {
      StateActions(n, action);
    } else if schema == ToolCall {
      ToolActions(n, action);
    } else if action.Message? && schema.Typed? {
      TypedMessages(schema.messageType, n, action.schema);
    } else if action.Message? {
      OtherMessages(schema, n, action.schema);
    } else {
      OtherActions(schema, n, action);
    }
  }

  lemma StateActions(n: nat, action: Action)
    ensures Acts(Typed(ConversationState), n, action) <==> IsAction(Typed(ConversationState), n, action)
  {
    hide ToolCallRules;
  }

  lemma ToolActions(n: nat, action: Action)
    ensures Acts(ToolCall, n, action) <==> IsAction(ToolCall, n, action)
  {
    hide ConversationStateRules;
  }

  lemma TypedMessages(t: MessageType, n: nat, inner: SchemaName)
    requires t != ConversationState
    ensures Acts(Typed(t), n, Message(inner)) <==> IsAction(Typed(t), n, Message(inner))
  {
    hide ConversationStateRules, ToolCallRules, HoldsIds;
  }

  lemma OtherMessages(schema: SchemaName, n: nat, inner: SchemaName)
    requires !schema.Typed? && schema != ToolCall
    ensures Acts(schema, n, Message(inner)) <==> IsAction(schema, n, Message(inner))
  {
    hide ConversationStateRules, ToolCallRules, HoldsIds;
  }

  lemma OtherActions(schema: SchemaName, n: nat, action: Action)
    requires schema != Typed(ConversationState) && schema != ToolCall && !action.Message?
    ensures Acts(schema, n, action) <==> IsAction(schema, n, action)
  {
    hide ConversationStateRules, ToolCallRules, HoldsMessage;
  }
}
