/** The chat session of the `AIChat` component: an append-only list of turns,
    an input buffer, and a loading flag that blocks a second send while the
    gateway call is outstanding. The awaited call is split in two steps: the
    send (up to the call) and the completion (when the reply arrives). */
module Chat {
  import opened Wrappers
  import opened Text

  /** Who wrote a turn (`'user' | 'model'`). */
  datatype Role = User | Model

  datatype Part = Part(text: string)

  /** One turn of the conversation (`ChatMessage` in types.ts). */
  datatype ChatMessage = ChatMessage(role: Role, parts: seq<Part>)

  /** A turn as the component builds it: one part holding the text. */
  function Turn(role: Role, text: string): ChatMessage
  {
    ChatMessage(role, [Part(text)])
  }

  /** The arguments of one gateway call: the earlier turns and the new text. */
  datatype Request = Request(history: seq<ChatMessage>, message: string)

  /** The turns the gateway forwards to the model: the history followed by
      the new message as a user turn. */
  function GatewayContents(r: Request): seq<ChatMessage>
  {
    r.history + [Turn(User, r.message)]
  }

  /** The three state cells `messages`, `input`, `isLoading`. */
  datatype ChatState = ChatState(messages: seq<ChatMessage>, input: string, isLoading: bool)

  /** The `useState` initial values. */
  const Initial := ChatState([], "", false)

  /** Turns alternate user, model, user, ... starting with the user, and each
      is a single-part turn (the view renders `parts[0]`). */
  predicate Alternating(ms: seq<ChatMessage>)
  {
    forall i :: 0 <= i < |ms| ==>
      |ms[i].parts| == 1 && ms[i].role == (if i % 2 == 0 then User else Model)
  }

  /** Non-blank text that neither starts nor ends with white space. */
  predicate IsTrimmed(t: string)
  {
    t != [] && !IsSpace(t[0]) && !IsSpace(t[|t| - 1])
  }

  /** Every user turn holds trimmed, non-blank text. */
  predicate UserTurnsTrimmed(ms: seq<ChatMessage>)
  {
    forall i :: 0 <= i < |ms| && ms[i].role == User && |ms[i].parts| == 1 ==>
      IsTrimmed(ms[i].parts[0].text)
  }

  /** What every reachable session satisfies: alternation, trimmed user
      turns, and an odd number of turns exactly while a reply is awaited. */
  predicate Inv(s: ChatState)
  {
    Alternating(s.messages) && UserTurnsTrimmed(s.messages) &&
    (|s.messages| % 2 == 1 <==> s.isLoading)
  }

  /** The guard of `handleSend`: there is non-blank input and no call is
      outstanding. */
  predicate Accepts(s: ChatState)
  {
    Trim(s.input) != [] && !s.isLoading
  }

  /** The send button: `disabled={!input.trim() || isLoading}`. */
  predicate SendButtonEnabled(s: ChatState)
  {
    !(Trim(s.input) == [] || s.isLoading)
  }

  /** `handleSend` up to the `await`: when the guard accepts, the trimmed
      input becomes a user turn, the buffer is cleared, loading is set, and
      the gateway is asked with the turns that came before. Otherwise
      nothing changes and no request is made. */
  function Submit(s: ChatState): (ChatState, Option<Request>)
  {
    if !Accepts(s) then (s, None)
    else
      var text := Trim(s.input);
      (ChatState(s.messages + [Turn(User, text)], "", true), Some(Request(s.messages, text)))
  }

  /** `handleSend` after the `await`: the reply is appended as a model turn
      and loading is cleared. A reply arrives only for an outstanding send;
      with none outstanding there is no continuation, so nothing happens. */
  function Receive(s: ChatState, reply: string): ChatState
  {
    if s.isLoading then ChatState(s.messages + [Turn(Model, reply)], s.input, false)
    else s
  }

  /** The input's `onChange`: only the buffer changes. */
  function Edit(s: ChatState, text: string): ChatState
  {
    s.(input := text)
  }

  /** What can happen to a session: typing, pressing send (or Enter), and
      the gateway answering. */
  datatype Event = EditInput(text: string) | PressSend | GatewayReply(reply: string)

  /** One event. Every event keeps the invariant and only appends turns. */
  function Step(s: ChatState, e: Event): (r: ChatState)
    requires Inv(s)
    ensures Inv(r) && s.messages <= r.messages
  {
    match e
    case EditInput(text) => Edit(s, text)
    case PressSend =>
      SubmitKeepsInv(s);
      Submit(s).0
    case GatewayReply(reply) =>
      if s.isLoading then
        AppendKeepsInv(s.messages, Model, reply);
        Receive(s, reply)
      else s
  }

  /** Appending a turn of the role whose turn it is (a trimmed, non-blank
      text for the user) keeps the list alternating with trimmed user turns. */
  lemma AppendKeepsInv(ms: seq<ChatMessage>, role: Role, text: string)
    requires Alternating(ms) && UserTurnsTrimmed(ms)
    requires role == (if |ms| % 2 == 0 then User else Model)
    requires role == User ==> IsTrimmed(text)
    ensures Alternating(ms + [Turn(role, text)]) && UserTurnsTrimmed(ms + [Turn(role, text)])
  {
    var ms' := ms + [Turn(role, text)];
    forall i | 0 <= i < |ms'|
      ensures |ms'[i].parts| == 1 && ms'[i].role == (if i % 2 == 0 then User else Model)
    {
      if i < |ms| {
        assert ms'[i] == ms[i];
      }
    }
  }

  /** A send, accepted or not, keeps the invariant and only appends. */
  lemma SubmitKeepsInv(s: ChatState)
    requires Inv(s)
    ensures Inv(Submit(s).0) && s.messages <= Submit(s).0.messages
  {
    var text := Trim(s.input);
    if text != [] && !s.isLoading {
      AppendKeepsInv(s.messages, User, text);
    }
  }

  /** The session after a sequence of events: still consistent, and the old
      turns are a prefix of the new ones (nothing is modified, removed or
      reordered). */
  function Run(s: ChatState, events: seq<Event>): (r: ChatState)
    requires Inv(s)
    ensures Inv(r) && s.messages <= r.messages
    decreases |events|
  {
    if events == [] then s else Run(Step(s, events[0]), events[1..])
  }

  /** A fresh session is consistent. */
  lemma InitialInv()
    ensures Inv(Initial) && !SendButtonEnabled(Initial)
  {
  }

  /** The send is a no-op, and no request is made, when the input is blank
      or a reply is still awaited. */
  lemma SubmitRejected(s: ChatState)
    requires IsBlank(s.input) || s.isLoading
    ensures Submit(s) == (s, None)
  {
    TrimEmptyIffBlank(s.input);
  }

  /** An accepted send clears the buffer, appends exactly one user turn with
      the trimmed input, sets loading, and hands the gateway the turns as
      they were before that turn, together with the same text; what the
      gateway forwards is exactly the new turn list. */
  lemma SubmitAccepted(s: ChatState)
    requires !IsBlank(s.input) && !s.isLoading
    ensures var (r, request) := Submit(s);
            r.messages == s.messages + [Turn(User, Trim(s.input))] &&
            r.input == "" && r.isLoading &&
            request == Some(Request(s.messages, Trim(s.input))) &&
            GatewayContents(request.value) == r.messages &&
            request.value.message != []
  {
    TrimEmptyIffBlank(s.input);
  }

  /** The send button is enabled exactly when the input is not blank and no
      reply is awaited, that is, exactly when pressing it makes a request. */
  lemma SendButtonMatchesGuard(s: ChatState)
    ensures SendButtonEnabled(s) <==> !IsBlank(s.input) && !s.isLoading
    ensures SendButtonEnabled(s) <==> Submit(s).1.Some?
  {
    TrimEmptyIffBlank(s.input);
  }

  /** Running a concatenation runs the two parts one after the other. */
  lemma {:induction false} RunAppend(s: ChatState, xs: seq<Event>, ys: seq<Event>)
    requires Inv(s)
    ensures Run(s, xs + ys) == Run(Run(s, xs), ys)
    decreases |xs|
  {
    if xs == [] {
      assert xs + ys == ys;
    } else {
      var t := Step(s, xs[0]);
      assert (xs + ys)[0] == xs[0];
      assert (xs + ys)[1..] == xs[1..] + ys;
      assert Run(s, xs + ys) == Run(t, xs[1..] + ys);
      RunAppend(t, xs[1..], ys);
    }
  }

  /** No event of `events` is a gateway reply: only typing and presses of
      send (or Enter), which the input box allows during the `await`. */
  predicate ReplyFree(events: seq<Event>)
  {
    forall i :: 0 <= i < |events| ==> !events[i].GatewayReply?
  }

  /** While a reply is awaited, typing and further sends leave the turns as
      they are and the session still loading: only the reply changes them. */
  lemma {:induction false} LoadingFreezesTurns(s: ChatState, events: seq<Event>)
    requires Inv(s) && s.isLoading && ReplyFree(events)
    ensures Run(s, events).messages == s.messages && Run(s, events).isLoading
    decreases |events|
  {
    if events != [] {
      var t := Step(s, events[0]);
      assert t.messages == s.messages && t.isLoading;
      assert ReplyFree(events[1..]) by {
        forall i | 0 <= i < |events[1..]|
          ensures !events[1..][i].GatewayReply?
        {
          assert events[1..][i] == events[i + 1];
        }
      }
      LoadingFreezesTurns(t, events[1..]);
    }
  }

  /** A whole exchange, with any typing and further presses of send during
      the `await`: the turns become the old turns, then the user turn, then
      one model turn with the reply, and loading is off again. The reply does
      not touch the input buffer, and with nothing in between it is empty. */
  lemma Exchange(s: ChatState, mid: seq<Event>, reply: string)
    requires Inv(s) && Accepts(s) && ReplyFree(mid)
    ensures var waiting := Run(s, [PressSend] + mid);
            var r := Run(s, [PressSend] + mid + [GatewayReply(reply)]);
            r.messages == s.messages + [Turn(User, Trim(s.input)), Turn(Model, reply)] &&
            !r.isLoading && r.input == waiting.input &&
            (mid == [] ==> r.input == "")
  {
    var text := Trim(s.input);
    var a := ChatState(s.messages + [Turn(User, text)], "", true);
    assert Step(s, PressSend) == a;
    var xs := [PressSend] + mid;
    assert xs[0] == PressSend && xs[1..] == mid;
    assert Run(s, xs) == Run(a, mid);
    var b := Run(a, mid);
    LoadingFreezesTurns(a, mid);
    assert mid == [] ==> b == a;
    RunAppend(s, xs, [GatewayReply(reply)]);
    assert [GatewayReply(reply)][1..] == [];
    assert Run(b, [GatewayReply(reply)]) == Step(b, GatewayReply(reply));
    assert Step(b, GatewayReply(reply)) == ChatState(a.messages + [Turn(Model, reply)], b.input, false);
    assert a.messages + [Turn(Model, reply)] == s.messages + [Turn(User, text), Turn(Model, reply)];
  }

  /** While a reply is awaited, a second send is rejected whatever the user
      typed meanwhile. */
  lemma SecondSendRejected(s: ChatState, text: string)
    requires Inv(s) && Accepts(s)
    ensures var pending := Edit(Submit(s).0, text);
            Submit(pending) == (pending, None)
  {
  }

  /** Two quick sends of "hi" followed by the reply add exactly one user turn
      "hi" and one model turn. */
  lemma DoubleSendHi(messages: seq<ChatMessage>, reply: string)
    requires Inv(ChatState(messages, "hi", false))
    ensures Run(ChatState(messages, "hi", false), [PressSend, PressSend, GatewayReply(reply)]).messages ==
            messages + [Turn(User, "hi"), Turn(Model, reply)]
  {
    var s := ChatState(messages, "hi", false);
    assert !IsSpace('h') && !IsSpace('i');
    assert Trim("hi") == "hi" by {
      assert "hi"[1..] == "i";
      assert TrimStart("hi") == "hi";
      assert "hi"[..1] == "h";
      assert TrimEnd("hi") == "hi";
    }
    var a := Step(s, PressSend);
    assert a == ChatState(messages + [Turn(User, "hi")], "", true);
    var evs := [PressSend, PressSend, GatewayReply(reply)];
    assert evs[1..] == [PressSend, GatewayReply(reply)];
    assert Run(s, evs) == Run(a, evs[1..]);
    assert Step(a, PressSend) == a;
    assert evs[1..][1..] == [GatewayReply(reply)];
    assert Run(a, evs[1..]) == Run(a, [GatewayReply(reply)]);
    assert [GatewayReply(reply)][1..] == [];
    assert messages + [Turn(User, "hi")] + [Turn(Model, reply)] ==
           messages + [Turn(User, "hi"), Turn(Model, reply)];
  }

  /** How many turns of `ms` have the given role. */
  function CountRole(ms: seq<ChatMessage>, role: Role): (n: nat)
    ensures n <= |ms|
  {
    if ms == [] then 0
    else CountRole(ms[..|ms| - 1], role) + (if ms[|ms| - 1].role == role then 1 else 0)
  }

  /** In an alternating list every user turn but the last is answered by one
      model turn: there is one more user turn than model turns exactly when
      the length is odd (a reply is awaited), and as many otherwise. */
  lemma {:induction false} AlternatingCounts(ms: seq<ChatMessage>)
    requires Alternating(ms)
    ensures CountRole(ms, User) == CountRole(ms, Model) + |ms| % 2
  {
    if ms != [] {
      var init := ms[..|ms| - 1];
      assert Alternating(init) by {
        forall i | 0 <= i < |init|
          ensures |init[i].parts| == 1 && init[i].role == (if i % 2 == 0 then User else Model)
        {
          assert init[i] == ms[i];
        }
      }
      AlternatingCounts(init);
    }
  }

  /** The component: three state cells updated in place by the handlers. */
  class ChatSession {
    var messages: seq<ChatMessage>
    var input: string
    var isLoading: bool

    function State(): ChatState
      reads this
    {
      ChatState(messages, input, isLoading)
    }

    ghost predicate Valid()
      reads this
    {
      Inv(State())
    }

    /** Mounting the component with the initial `useState` values. */
    constructor ()
      ensures Valid() && State() == Initial
    {
      messages, input, isLoading := [], "", false;
    }

    /** The input's `onChange`. */
    method SetInput(text: string)
      requires Valid()
      modifies this
      ensures Valid() && State() == Edit(old(State()), text)
      ensures input == text && messages == old(messages) && isLoading == old(isLoading)
    {
      input := text;
    }

    /** `handleSend` up to the `await`; `request` holds the arguments handed
      to the gateway, or nothing when the guard rejects. */
    method BeginSend() returns (request: Option<Request>)
      requires Valid()
      modifies this
      ensures Valid() && (State(), request) == Submit(old(State()))
      ensures !Accepts(old(State())) ==> State() == old(State()) && request == None
      ensures Accepts(old(State())) ==>
                messages == old(messages) + [Turn(User, Trim(old(input)))] &&
                input == "" && isLoading &&
                request == Some(Request(old(messages), Trim(old(input))))
    {
      var history := messages;
      var userMsg := Trim(input);
      if userMsg == [] || isLoading {
        return None;
      }
      SubmitKeepsInv(State());
      input := "";
      messages := messages + [Turn(User, userMsg)];
      isLoading := true;
      request := Some(Request(history, userMsg));
    }

    /** `handleSend` after the `await`, given the gateway's reply. */
    method CompleteSend(reply: string)
      requires Valid() && isLoading
      modifies this
      ensures Valid() && State() == Receive(old(State()), reply)
      ensures messages == old(messages) + [Turn(Model, reply)] && !isLoading && input == old(input)
    {
      messages := messages + [Turn(Model, reply)];
      isLoading := false;
    }
  }
}
