/** The chat route: per-session history kept in memory, one agent turn per
    message, the choice of the reply among the agent's messages, and the
    create and update wrappers the agent calls as tools. */
module ChatRoute {
  import opened Common
  import opened Schemas
  import opened Models
  import opened RegService
  import opened RegistrationTools

  /** One `{"user": ..., "bot": ...}` history entry. */
  datatype Exchange = Exchange(user: string, bot: string)

  /** A message of the agent's result: its text and whether it requests tool
      calls. */
  datatype AgentMessage = AgentMessage(content: string, hasToolCalls: bool)

  /** `agent.invoke` with the user's text and the session as `thread_id`: the
      result's messages, or `None` when the call raises. */
  type Agent = (string, string) -> Option<seq<AgentMessage>>

  const NoResponse: string := "No response"

  /** A message the reply may be taken from: non-empty text and no tool calls. */
  predicate Qualifies(m: AgentMessage) {
    m.content != "" && !m.hasToolCalls
  }

  /** The position of the last qualifying message, if there is one. */
  function LastQualifying(messages: seq<AgentMessage>): (r: Option<nat>)
    ensures r.Some? ==> r.value < |messages| && Qualifies(messages[r.value])
    ensures r.Some? ==> forall j :: r.value < j < |messages| ==> !Qualifies(messages[j])
    ensures r.None? <==> forall j :: 0 <= j < |messages| ==> !Qualifies(messages[j])
  {
    if messages == [] then None
    else if Qualifies(messages[|messages| - 1]) then Some(|messages| - 1)
    else LastQualifying(messages[..|messages| - 1])
  }

  /** The reply of a turn: the last qualifying message; failing that, the last
      message; with no messages at all, "No response". */
  function Reply(messages: seq<AgentMessage>): (r: string)
    ensures messages == [] ==> r == NoResponse
    ensures messages != [] ==> exists i :: 0 <= i < |messages| && r == messages[i].content
    ensures messages != [] && LastQualifying(messages).None? ==> r == messages[|messages| - 1].content
  {
    if messages == [] then NoResponse
    else
      match LastQualifying(messages)
      case Some(i) => messages[i].content
      case None => messages[|messages| - 1].content
  }

  /** When a message qualifies, the reply is the text of a message that asks
      for no tool calls, and no later message qualifies. */
  lemma ReplySkipsToolCalls(messages: seq<AgentMessage>)
    requires exists j :: 0 <= j < |messages| && Qualifies(messages[j])
    ensures exists i :: 0 <= i < |messages| && Qualifies(messages[i]) && Reply(messages) == messages[i].content
                        && forall j :: i < j < |messages| ==> !Qualifies(messages[j])
  {
    var i := LastQualifying(messages).value;
    assert Reply(messages) == messages[i].content;
  }

  /** The scan over the messages from last to first, stopping at the first
      qualifying one, with the fallbacks. */
  method SelectReply(messages: seq<AgentMessage>) returns (reply: string)
    ensures reply == Reply(messages)
  {
    if messages == [] {
      return NoResponse;
    }
    var i := |messages|;
    while i > 0
      invariant 0 <= i <= |messages|
      invariant LastQualifying(messages) == LastQualifying(messages[..i])
    {
      var m := messages[i - 1];
      if Qualifies(m) {
        return m.content;
      }
      assert messages[..i][..i - 1] == messages[..i - 1];
      i := i - 1;
    }
    reply := messages[|messages| - 1].content;
  }

  datatype ChatOutcome = ChatReply(reply: string) | AgentFailed

  /** The module-level `SESSIONS` dictionary. */
  class Sessions {
    var history: map<string, seq<Exchange>>

    constructor()
      ensures history == map[]
    {
      history := map[];
    }

    function HistoryOf(sessionId: string): seq<Exchange>
      reads this
    {
      if sessionId in history then history[sessionId] else []
    }

    /** `POST /chat/{session_id}`: strip the message, create the session if it
        is new, run the agent on it under the session's thread and append one
        exchange. When the agent raises, the session exists but nothing is
        appended. */
    method Chat(sessionId: string, message: string, agent: Agent) returns (r: ChatOutcome)
      modifies this
      ensures var userMsg := Trim(message);
              match agent(sessionId, userMsg)
              case None =>
                r == AgentFailed && history == old(history)[sessionId := old(HistoryOf(sessionId))]
              case Some(messages) =>
                && r == ChatReply(Reply(messages))
                && history == old(history)[sessionId := old(HistoryOf(sessionId)) + [Exchange(userMsg, Reply(messages))]]
    {
      var userMsg := Trim(message);
      if sessionId !in history {
        history := history[sessionId := []];
      }
      var result := agent(sessionId, userMsg);
      if result.None? {
        return AgentFailed;
      }
      var reply := SelectReply(result.value);
      history := history[sessionId := history[sessionId] + [Exchange(userMsg, reply)]];
      r := ChatReply(reply);
    }
  }

  // ---------------------------------------------------------------------------
  // Tool wrappers

  /** `create_wrapper`: all five fields forwarded, the address defaulting to
      the empty string. */
  function CreatePayload(fullName: string, email: string, phone: string, dateOfBirth: string, address: string): (p: Payload)
    ensures p.Keys == {FullName, Email, Phone, DateOfBirth, Address}
    ensures p[FullName] == fullName && p[Email] == email && p[Phone] == phone
            && p[DateOfBirth] == dateOfBirth && p[Address] == address
    ensures MissingFields(p) == [] <==> fullName != "" && email != "" && phone != "" && dateOfBirth != ""
  {
    var p := map[FullName := fullName, Email := email, Phone := phone, DateOfBirth := dateOfBirth, Address := address];
    assert FullName in RequiredFields && Email in RequiredFields && Phone in RequiredFields && DateOfBirth in RequiredFields;
    assert MissingFields(p) != [] ==> MissingFields(p)[0] in MissingFields(p);
    p
  }

  /** The wrapper's address is stored as given, the empty string included:
      a successful create keeps it rather than clearing it. */
  lemma WrapperAddressKept(env: Env, fullName: string, email: string, phone: string, dateOfBirth: string, address: string)
    requires Precheck(env, CreatePayload(fullName, email, phone, dateOfBirth, address)).Ok?
    ensures Precheck(env, CreatePayload(fullName, email, phone, dateOfBirth, address)).value.address == Some(address)
  {
  }

  method CreateWrapper(tools: Tools, id: Id, now: Timestamp,
                       fullName: string, email: string, phone: string, dateOfBirth: string, address: string := "")
    returns (r: ToolResult)
    requires tools.Valid() && id !in tools.db.rows
    modifies tools.db
    ensures tools.Valid()
    ensures var payload := CreatePayload(fullName, email, phone, dateOfBirth, address);
            var pre := Precheck(tools.env, payload);
            && (pre.Err? ==> r == Failed(pre.error) && tools.db.rows == old(tools.db.rows))
            && (pre.Ok? ==>
                  var stored := Insert(old(tools.db.rows), pre.value, id, now);
                  && r == StoreOutcome(pre.value, stored)
                  && tools.db.rows == (if stored.Ok? then old(tools.db.rows)[id := stored.value] else old(tools.db.rows)))
  {
    r := tools.Create(CreatePayload(fullName, email, phone, dateOfBirth, address), id, now);
  }

  /** `if value: updates[key] = value`: `None` and the empty string are left
      out. */
  function Truthy(v: Option<string>): Option<string> {
    if v.Some? && v.value != "" then v else None
  }

  /** The `updates` the wrapper collects: exactly the arguments given with
      non-empty text; the address is never set to null this way. */
  function CollectUpdates(fullName: Option<string>, email: Option<string>, phone: Option<string>,
                          dateOfBirth: Option<string>, address: Option<string>): (u: RawUpdate)
    ensures u.fullName.Some? <==> fullName.Some? && fullName.value != ""
    ensures u.email.Some? <==> email.Some? && email.value != ""
    ensures u.phone.Some? <==> phone.Some? && phone.value != ""
    ensures u.dateOfBirth.Some? <==> dateOfBirth.Some? && dateOfBirth.value != ""
    ensures u.address.Some? <==> address.Some? && address.value != ""
    ensures u.fullName.Some? ==> u.fullName == fullName
    ensures u.email.Some? ==> u.email == email
    ensures u.phone.Some? ==> u.phone == phone
    ensures u.dateOfBirth.Some? ==> u.dateOfBirth == dateOfBirth
    ensures u.address.Some? ==> u.address == Some(address)
    ensures u == RawUpdate(None, None, None, None, None) <==>
              forall v :: v in [fullName, email, phone, dateOfBirth, address] ==> v.None? || v.value == ""
  {
    var a := Truthy(address);
    RawUpdate(Truthy(fullName), Truthy(email), Truthy(phone), Truthy(dateOfBirth), if a.Some? then Some(a) else None)
  }

  /** `update_wrapper`: resolve the user, collect the non-empty fields, and
      hand them to the update tool under the user's id. An unknown user or an
      empty update writes nothing. */
  method UpdateWrapper(tools: Tools, userId: string,
                       fullName: Option<string> := None, email: Option<string> := None, phone: Option<string> := None,
                       dateOfBirth: Option<string> := None, address: Option<string> := None)
    returns (r: ToolResult)
    requires tools.Valid() && IdsCanonical(tools.db.rows, tools.env.parseUuid)
    requires var found := Resolution(tools.db.rows, tools.env.parseUuid, userId);
             var v := ValidateUpdate(tools.env, CollectUpdates(fullName, email, phone, dateOfBirth, address));
             found.Some? && v.Ok? ==> Admits(tools.db.rows, found.value.id, v.value)
    modifies tools.db
    ensures tools.Valid()
    ensures var found := Resolution(old(tools.db.rows), tools.env.parseUuid, userId);
            var updates := CollectUpdates(fullName, email, phone, dateOfBirth, address);
            var v := ValidateUpdate(tools.env, updates);
            && (found.None? ==> r == Failed(NotFound(userId, ProvideValidEmailOrId)) && tools.db.rows == old(tools.db.rows))
            && (found.Some? && updates == RawUpdate(None, None, None, None, None) ==>
                  r == Failed(NoFieldsToUpdate) && tools.db.rows == old(tools.db.rows))
            && (found.Some? && updates != RawUpdate(None, None, None, None, None) && v.Err? ==>
                  r == Failed(UpdateRejected(tools.env.renderErrors(v.error))) && tools.db.rows == old(tools.db.rows))
            && (found.Some? && updates != RawUpdate(None, None, None, None, None) && v.Ok? ==>
                  r == Updated(found.value.id)
                  && tools.db.rows == old(tools.db.rows)[found.value.id := Patched(found.value, v.value)])
  {
    var user := tools.Resolve(userId);
    if user.None? {
      return Failed(NotFound(userId, ProvideValidEmailOrId));
    }
    var updates := CollectUpdates(fullName, email, phone, dateOfBirth, address);
    if updates == RawUpdate(None, None, None, None, None) {
      return Failed(NoFieldsToUpdate);
    }
    ResolveOwnId(tools.db.rows, tools.env.parseUuid, user.value.id);
    r := tools.Update(user.value.id, updates);
  }
}
