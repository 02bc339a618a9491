/** The conversation logic of the chat endpoints (api/chat.py): title
    derivation, model fallback, the new-or-existing conversation branch, the
    two messages appended per exchange, the title update and the single
    conversation lookup. The language model is an oracle and every clock
    reading is a parameter. */
module Chat {
  import opened Wrappers
  import opened Records
  import opened Backend
  import opened Http
  import opened ConversationStore

  /** Model names, in order of preference. */
  const Models := ["gemini-2.0-flash", "gemini-1.5-pro", "gemini-1.0-pro"]

  /** The assistant's text whenever no reply could be generated. */
  const Apology := "I apologize, but I'm currently experiencing high demand. Please try again in a few moments."

  /** Longest message used verbatim as a title. */
  const TitleLimit := 30

  const Ellipsis := "..."

  const NotFoundDetail := "Conversation not found"

  // ---------------------------------------------------------------------
  // Titles

  /** The title of a conversation started by `message`. */
  function Title(message: string): (t: string)
    ensures |message| <= TitleLimit ==> t == message
    ensures |message| > TitleLimit ==>
      |t| == TitleLimit + |Ellipsis| && t[..TitleLimit] == message[..TitleLimit] && t[TitleLimit..] == Ellipsis
  {
    if |message| > TitleLimit then message[..TitleLimit] + Ellipsis else message
  }

  /** A title is never longer than 33 characters, always starts with the
      message's first 30, and is the message itself when the message fits. */
  lemma TitleShape(message: string)
    ensures |Title(message)| <= TitleLimit + |Ellipsis|
    ensures |message| <= TitleLimit ==> Title(message) == message
    ensures var n := if |message| < TitleLimit then |message| else TitleLimit;
      Title(message)[..n] == message[..n]
  {
  }

  /** Deriving a title from a title changes nothing. */
  lemma TitleIdempotent(message: string)
    ensures Title(Title(message)) == Title(message)
  {
  }

  // ---------------------------------------------------------------------
  // Model fallback

  /** The language model: the models that currently answer a probe, and what a
      model generates for a prompt (None when generation fails). */
  datatype Llm = Llm(serving: set<string>, generate: (string, string) -> Option<string>)

  /** The first name in `names` that is serving. */
  function FirstServing(names: seq<string>, serving: set<string>): (r: Option<string>)
    ensures r.None? <==> forall i :: 0 <= i < |names| ==> names[i] !in serving
    ensures r.Some? ==> exists i :: (0 <= i < |names| && names[i] == r.value && r.value in serving
                                     && forall j :: 0 <= j < i ==> names[j] !in serving)
  {
    if names == [] then None
    else if names[0] in serving then Some(names[0])
    else
      var rest := FirstServing(names[1..], serving);
      if rest.Some? then
        var i :| 0 <= i < |names[1..]| && names[1..][i] == rest.value && rest.value in serving
          && forall j :: 0 <= j < i ==> names[1..][j] !in serving;
        assert names[i + 1] == rest.value;
        rest
      else
        rest
  }

  /** get_available_model: the first model, in preference order, that answers. */
  function GetAvailableModel(llm: Llm): (r: Option<string>)
    ensures r.None? <==> (forall m :: m in Models ==> m !in llm.serving)
    ensures r == Some(Models[0]) <==> Models[0] in llm.serving
    ensures r == Some(Models[1]) <==> Models[0] !in llm.serving && Models[1] in llm.serving
    ensures r == Some(Models[2]) <==>
      Models[0] !in llm.serving && Models[1] !in llm.serving && Models[2] in llm.serving
  {
    FirstServing(Models, llm.serving)
  }

  /** The assistant's reply: the chosen model's text, or the apology when no
      model answers or generation fails. */
  function ReplyText(llm: Llm, message: string): (r: string)
    ensures r != Apology ==>
      exists m :: m in Models && m in llm.serving && llm.generate(m, message) == Some(r)
    ensures GetAvailableModel(llm).None? ==> r == Apology
    ensures GetAvailableModel(llm).Some? && llm.generate(GetAvailableModel(llm).value, message).None? ==>
      r == Apology
    ensures GetAvailableModel(llm).Some? && llm.generate(GetAvailableModel(llm).value, message).Some? ==>
      r == llm.generate(GetAvailableModel(llm).value, message).value
  {
    match GetAvailableModel(llm)
    case None => Apology
    case Some(m) =>
      match llm.generate(m, message)
      case None => Apology
      case Some(text) => text
  }

  // ---------------------------------------------------------------------
  // Conversation update

  datatype ChatRequest = ChatRequest(message: string, conversationId: Option<string>)

  datatype ChatResponse = ChatResponse(response: string, conversationId: string)

  /** The clock readings one request takes, in the order it takes them. */
  datatype Clock = Clock(createdAt: string, updatedAt: string, userAt: string, assistantAt: string)

  /** A missing or empty conversation id starts a new conversation. */
  predicate StartsNew(req: ChatRequest)
  {
    req.conversationId.None? || req.conversationId.value == ""
  }

  /** The first conversation in `convs` with the given id. */
  function FindById(convs: seq<Conversation>, id: string): (r: Option<Conversation>)
    ensures r.None? <==> forall i :: 0 <= i < |convs| ==> convs[i].id != id
    ensures r.Some? ==> exists i :: (0 <= i < |convs| && convs[i] == r.value && r.value.id == id
                                     && forall j :: 0 <= j < i ==> convs[j].id != id)
  {
    if convs == [] then None
    else if convs[0].id == id then Some(convs[0])
    else
      var rest := FindById(convs[1..], id);
      if rest.Some? then
        var i :| 0 <= i < |convs[1..]| && convs[1..][i] == rest.value && rest.value.id == id
          && forall j :: 0 <= j < i ==> convs[1..][j].id != id;
        assert convs[i + 1] == rest.value;
        rest
      else
        rest
  }

  /** The two messages one request appends: the user's, then the assistant's. */
  function Exchange(message: string, reply: string, clock: Clock): (ms: seq<Message>)
    ensures |ms| == 2
    ensures ms[0].role == UserRole && ms[0].content == message
    ensures ms[1].role == AssistantRole && ms[1].content == reply
  {
    [Message(UserRole, message, clock.userAt), Message(AssistantRole, reply, clock.assistantAt)]
  }

  /** The record a new conversation starts as. */
  function NewConversation(id: string, message: string, clock: Clock): (c: Conversation)
    ensures c.id == id && c.title == Title(message) && c.messages == []
    ensures c.createdAt == clock.createdAt && c.updatedAt == clock.updatedAt
  {
    Conversation(id, Title(message), [], clock.createdAt, clock.updatedAt)
  }

  /** An exception raised inside an endpoint's try block. */
  datatype Raised = NotFound | BackendFailure(error: StoreError)

  /** str() of the exception: an HTTPException renders as "status: detail". */
  function RaisedText(e: Raised): (t: string)
    ensures e.NotFound? ==> t == "404: Conversation not found"
    ensures e.BackendFailure? ==> t == ErrorText(e.error)
  {
    match e
    case NotFound => "404: " + NotFoundDetail
    case BackendFailure(err) => ErrorText(err)
  }

  /** The endpoints' `except Exception` clause as written: whatever was
      raised, including the 404 HTTPException, leaves as a 500. */
  function Reraise(e: Raised): (h: HttpError)
    ensures h.statusCode == 500
    ensures e.NotFound? ==> h.detail == "404: " + NotFoundDetail
    ensures e.BackendFailure? ==> h.detail == ErrorText(e.error)
  {
    HttpError(500, RaisedText(e))
  }

  /** The conversation chat_endpoint saves, computed from the listing it read,
      the request, a fresh id, the clock readings and the reply. */
  function ChatUpdate(convs: seq<Conversation>, req: ChatRequest, freshId: string, clock: Clock, reply: string)
    : (r: Result<Conversation, Raised>)
    ensures r.Success? ==>
      |r.value.messages| >= 2 && r.value.messages[|r.value.messages| - 2..] == Exchange(req.message, reply, clock)
    ensures r.Failure? ==> !StartsNew(req) && r.error == NotFound
    ensures !StartsNew(req) ==>
      (r.Failure? <==> forall i :: 0 <= i < |convs| ==> convs[i].id != req.conversationId.value)
    ensures !StartsNew(req) && r.Success? ==>
      var found := FindById(convs, req.conversationId.value).value;
      && r.value.id == found.id == req.conversationId.value
      && r.value.title == found.title
      && r.value.createdAt == found.createdAt
      && r.value.updatedAt == clock.updatedAt
      && r.value.messages == found.messages + Exchange(req.message, reply, clock)
    ensures StartsNew(req) && (forall i :: 0 <= i < |convs| ==> convs[i].id != freshId) ==>
      r == Success(NewConversation(freshId, req.message, clock).(messages := Exchange(req.message, reply, clock)))
  {
    var exchange := Exchange(req.message, reply, clock);
    if StartsNew(req) then
      var created := NewConversation(freshId, req.message, clock);
      var all := convs + [created];
      assert all[|convs|] == created;
      var current := FindById(all, freshId);
      if current.Some? then
        var updated := current.value.(messages := current.value.messages + exchange);
        assert updated.messages[|updated.messages| - 2..] == exchange;
        assert (forall i :: 0 <= i < |convs| ==> convs[i].id != freshId) ==> current.value == created by {
          if forall i :: 0 <= i < |convs| ==> convs[i].id != freshId {
            var i :| 0 <= i < |all| && all[i] == current.value && current.value.id == freshId;
            assert i == |convs|;
          }
        }
        Success(updated)
      else
        assert false;
        Failure(NotFound)
    else
      match FindById(convs, req.conversationId.value)
      case None => Failure(NotFound)
      case Some(c) =>
        var updated := c.(updatedAt := clock.updatedAt, messages := c.messages + exchange);
        assert updated.messages[|updated.messages| - 2..] == exchange;
        Success(updated)
  }

  /** chat_endpoint: list the stored conversations, pick or create the
      conversation, append the exchange and save it. Any failure leaves the
      store as it was and is reported as a 500. */
  method ChatEndpoint(s: Store, now: int, req: ChatRequest, freshId: string, clock: Clock, llm: Llm)
    returns (r: Result<ChatResponse, HttpError>, s': Store)
    ensures r.Failure? ==> s' == s && r.error.statusCode == 500
    ensures r.Success? ==> r.value.response == ReplyText(llm, req.message)
    ensures WellFormed(s) ==> WellFormed(s')
    ensures WellFormed(s) && !StartsNew(req) && GetConversation(s, req.conversationId.value, now) == Success(None) ==>
      r == Failure(HttpError(500, "404: " + NotFoundDetail)) && s' == s
    ensures WellFormed(s) && !StartsNew(req) && GetConversation(s, req.conversationId.value, now).value.Some? ==>
      var c := GetConversation(s, req.conversationId.value, now).value.value;
      && r == Success(ChatResponse(ReplyText(llm, req.message), req.conversationId.value))
      && s' == SaveConversation(s, c.(updatedAt := clock.updatedAt,
                                      messages := c.messages + Exchange(req.message, ReplyText(llm, req.message), clock)))
    ensures WellFormed(s) && StartsNew(req) && !LiveKey(s, Key(freshId), now) ==>
      && r == Success(ChatResponse(ReplyText(llm, req.message), freshId))
      && s' == SaveConversation(s, Conversation(freshId, Title(req.message),
                                                Exchange(req.message, ReplyText(llm, req.message), clock),
                                                clock.createdAt, clock.updatedAt))
  {
    var listing, order := GetConversations(s, now);
    match listing {
      case Failure(e) =>
        r, s' := Failure(Reraise(BackendFailure(e))), s;
      case Success(convs) =>
        var id := if StartsNew(req) then freshId else req.conversationId.value;
        if WellFormed(s) {
          ListingMatchesGet(s, now, convs, order, id);
          if !StartsNew(req) && GetConversation(s, id, now).value.Some? {
            var found := FindById(convs, id).value;
            assert found in convs;
          }
        }
        var reply := ReplyText(llm, req.message);
        match ChatUpdate(convs, req, freshId, clock, reply) {
          case Failure(e) =>
            r, s' := Failure(Reraise(e)), s;
          case Success(c) =>
            s' := SaveConversation(s, c);
            r := Success(ChatResponse(reply, id));
        }
    }
  }

  // ---------------------------------------------------------------------
  // Title update and single lookup

  /** update_conversation_title: replace the title and restamp updated_at. */
  function UpdateConversationTitle(s: Store, id: string, title: string, now: int, stamp: string)
    : (r: Result<Store, HttpError>)
    ensures r.Success? <==> GetConversation(s, id, now).Success? && GetConversation(s, id, now).value.Some?
    ensures r.Failure? ==> r.error.statusCode == 500
    ensures !LiveKey(s, Key(id), now) ==> r == Failure(HttpError(500, "404: " + NotFoundDetail))
    ensures r.Success? ==>
      var before := GetConversation(s, id, now).value.value;
      var k := Key(before.id);
      && k in r.value && r.value[k] == Entry(Record(before.(title := title, updatedAt := stamp)), None)
      && r.value - {k} == s - {k}
    ensures WellFormed(s) && r.Success? ==>
      var before := GetConversation(s, id, now).value.value;
      && r.value - {Key(id)} == s - {Key(id)}
      && GetConversation(r.value, id, now) == Success(Some(Conversation(id, title, before.messages, before.createdAt, stamp)))
      && WellFormed(r.value)
  {
    match GetConversation(s, id, now)
    case Failure(e) => Failure(Reraise(BackendFailure(e)))
    case Success(None) => Failure(Reraise(NotFound))
    case Success(Some(c)) => Success(SaveConversation(s, c.(title := title, updatedAt := stamp)))
  }

  /** get_conversation_endpoint as written: a missing conversation raises a
      404 inside the try block, which the except clause turns into a 500. */
  function GetConversationEndpoint(s: Store, id: string, now: int): (r: Result<Conversation, HttpError>)
    ensures forall c :: r == Success(c) <==> GetConversation(s, id, now) == Success(Some(c))
    ensures r.Failure? ==> r.error.statusCode == 500
  {
    match GetConversation(s, id, now)
    case Failure(e) => Failure(Reraise(BackendFailure(e)))
    case Success(None) => Failure(Reraise(NotFound))
    case Success(Some(c)) => Success(c)
  }

  /** The discrepancy: a conversation that is not there is reported as a
      server error, 500 "404: Conversation not found", never as a 404. */
  lemma MissingConversationIsServerError(s: Store, id: string, now: int)
    requires !LiveKey(s, Key(id), now)
    ensures GetConversationEndpoint(s, id, now) == Failure(HttpError(500, "404: Conversation not found"))
  {
    assert "404: " + NotFoundDetail == "404: Conversation not found";
  }

  /** The except clause as evidently intended: an HTTPException keeps its own
      status and detail; anything else becomes a 500. */
  function ReraiseIntended(e: Raised): (h: HttpError)
    ensures e == NotFound ==> h == HttpError(404, NotFoundDetail)
    ensures e.BackendFailure? ==> h.statusCode == 500
  {
    match e
    case NotFound => HttpError(404, NotFoundDetail)
    case BackendFailure(err) => HttpError(500, ErrorText(err))
  }

  /** get_conversation_endpoint as evidently intended: 404 for a missing
      conversation, 500 only for a backend failure. */
  function GetConversationEndpointIntended(s: Store, id: string, now: int): (r: Result<Conversation, HttpError>)
    ensures forall c :: r == Success(c) <==> GetConversation(s, id, now) == Success(Some(c))
    ensures r == Failure(HttpError(404, NotFoundDetail)) <==> GetConversation(s, id, now) == Success(None)
    ensures WellFormed(s) ==> r.Success? || r.error.statusCode == 404
  {
    match GetConversation(s, id, now)
    case Failure(e) => Failure(ReraiseIntended(BackendFailure(e)))
    case Success(None) => Failure(ReraiseIntended(NotFound))
    case Success(Some(c)) => Success(c)
  }
}
