/**
  The API-token panel: the user's tokens as the token service last
  reported them, which of them are shown unmasked, which were just copied,
  the status banner, and the flags for a listing or a creation in flight.
  Each request handler is split at its `await`: the reply of the token
  service is a parameter, and timers firing are events of their own.
 */
module TokenDisplay {
  import opened Wrappers
  import opened JsBuiltins

  datatype ApiToken = ApiToken(
    id: string,
    token: string,
    name: string,
    lastUsed: Option<string>,
    createdAt: string)

  datatype MessageKind = Success | Error

  /** The status banner. */
  datatype Message = Message(kind: MessageKind, text: string)

  /**
    How an awaited request ended: a body with `success: true` and its
    payload, a body with `success: false` and its optional `error` text,
    or an exception (the network failed or the body was not JSON).
   */
  datatype Reply<T> = Ok(payload: T) | Err(error: Option<string>) | Thrown

  /** The most tokens a user may hold; creation is offered only below it. */
  const MaxTokens: nat := 50

  const FetchFailedText: string := "Failed to fetch tokens"
  const CreateFailedText: string := "Failed to create token"
  const DeleteFailedText: string := "Failed to delete token"
  const CreatedText: string := "Token created successfully!"
  const DeletedText: string := "Token deleted successfully!"

  /** The bullet that stands for each hidden character of a token. */
  const Bullet: char := '\U{2022}'

  // ---------------------------------------------------------------------
  // Pure helpers

  /** `data.error || fallback`: the server's own text when it sent a non-empty one. */
  function ErrorText(error: Option<string>, fallback: string): (text: string)
    ensures text == fallback || error == Some(text)
    ensures error.Some? && error.value != "" ==> text == error.value
    ensures text == "" ==> fallback == ""
  {
    if error.Some? && error.value != "" then error.value else fallback
  }

  /** The error banner for a request that did not succeed. */
  function FailureMessage<T>(reply: Reply<T>, fallback: string): (m: Message)
    requires !reply.Ok?
    ensures m.kind == Error
    ensures reply.Thrown? ==> m.text == fallback
    ensures reply.Err? ==> m.text == ErrorText(reply.error, fallback)
  {
    match reply
    case Err(error) => Message(Error, ErrorText(error, fallback))
    case Thrown => Message(Error, fallback)
  }

  /**
    Hides all but the last four characters of a token behind one bullet
    each; a token of four characters or fewer is shown as it is.
   */
  function MaskToken(token: string): (masked: string)
    ensures |masked| == |token|
    ensures |token| <= 4 ==> masked == token
    ensures |token| > 4 ==> forall i :: 0 <= i < |token| - 4 ==> masked[i] == Bullet
    ensures |token| > 4 ==> masked[|token| - 4..] == token[|token| - 4..]
  {
    if |token| <= 4 then token else Repeat(Bullet, |token| - 4) + SliceFrom(token, -4)
  }

  /** The mask gives away the length and the last four characters, and nothing else. */
  lemma MaskRevealsOnlyLengthAndSuffix(a: string, b: string)
    requires |a| == |b| > 4 && a[|a| - 4..] == b[|b| - 4..]
    ensures MaskToken(a) == MaskToken(b)
  {
    var ma, mb := MaskToken(a), MaskToken(b);
    forall i | 0 <= i < |a|
      ensures ma[i] == mb[i]
    {
      if i >= |a| - 4 {
        assert ma[i] == ma[|a| - 4..][i - (|a| - 4)];
        assert mb[i] == mb[|b| - 4..][i - (|b| - 4)];
      }
    }
  }

  /** Masking a masked token changes nothing. */
  lemma MaskTokenIdempotent(token: string)
    ensures MaskToken(MaskToken(token)) == MaskToken(token)
  {
    var m := MaskToken(token);
    var mm := MaskToken(m);
    if |token| > 4 {
      forall i | 0 <= i < |token|
        ensures mm[i] == m[i]
      {
        if i >= |token| - 4 {
          assert mm[i] == mm[|m| - 4..][i - (|m| - 4)];
        }
      }
    }
  }

  lemma MaskTokenExamples()
    ensures MaskToken("abcdefgh") == [Bullet, Bullet, Bullet, Bullet] + "efgh"
    ensures MaskToken("ab") == "ab"
  {
  }

  /** What the token field shows: the secret itself when its id is visible, its mask otherwise. */
  function DisplayedToken(t: ApiToken, visible: set<string>): (shown: string)
    ensures |shown| == |t.token|
    ensures t.id in visible ==> shown == t.token
    ensures t.id !in visible ==> shown == MaskToken(t.token)
  {
    if t.id in visible then t.token else MaskToken(t.token)
  }

  /** The create button's guard: no creation in flight and fewer than the maximum of tokens. */
  function CreateEnabled(creatingToken: bool, tokenCount: nat): (enabled: bool)
    ensures enabled ==> tokenCount + 1 <= MaxTokens
    ensures enabled <==> !creatingToken && tokenCount < MaxTokens
  {
    !(creatingToken || tokenCount >= MaxTokens)
  }

  /** The membership of `id` flipped and every other id left alone. */
  function Toggled(visible: set<string>, id: string): (r: set<string>)
    ensures id in r <==> id !in visible
    ensures forall other :: other != id ==> (other in r <==> other in visible)
  {
    if id in visible then visible - {id} else visible + {id}
  }

  /** Toggling the same id twice restores the set. */
  lemma ToggleTwiceRestores(visible: set<string>, id: string)
    ensures Toggled(Toggled(visible, id), id) == visible
  {
  }

  /** Toggling one id changes how no other token is shown. */
  lemma ToggleShowsOnlyThatToken(t: ApiToken, visible: set<string>, id: string)
    ensures t.id != id ==> DisplayedToken(t, Toggled(visible, id)) == DisplayedToken(t, visible)
    ensures t.id == id ==>
              (DisplayedToken(t, Toggled(visible, id)) != DisplayedToken(t, visible)
               <==> t.token != MaskToken(t.token))
  {
  }

  /** `tokens.filter(t => t.id !== id)`. */
  function WithoutId(tokens: seq<ApiToken>, id: string): (r: seq<ApiToken>)
    ensures |r| <= |tokens|
    ensures forall i :: 0 <= i < |r| ==> r[i].id != id
  {
    if tokens == [] then []
    else if tokens[0].id != id then [tokens[0]] + WithoutId(tokens[1..], id)
      else WithoutId(tokens[1..], id)
  }

  /** Every token with another id is kept, as many times as it occurs. */
  lemma {:induction false} WithoutIdKeepsOthers(tokens: seq<ApiToken>, id: string, t: ApiToken)
    requires t.id != id
    ensures multiset(WithoutId(tokens, id))[t] == multiset(tokens)[t]
  {
    if tokens != [] {
      assert tokens == [tokens[0]] + tokens[1..];
      WithoutIdKeepsOthers(tokens[1..], id, t);
    }
  }

  /** Filtering splits over concatenation, so the kept tokens stay in their order. */
  lemma {:induction false} WithoutIdAppend(a: seq<ApiToken>, b: seq<ApiToken>, id: string)
    ensures WithoutId(a + b, id) == WithoutId(a, id) + WithoutId(b, id)
  {
    if a == [] {
      assert a + b == b;
    } else {
      var ab := a + b;
      assert ab[0] == a[0] && ab[1..] == a[1..] + b;
      WithoutIdAppend(a[1..], b, id);
      if a[0].id != id {
        assert WithoutId(ab, id) == [a[0]] + WithoutId(a[1..] + b, id);
        assert WithoutId(a, id) == [a[0]] + WithoutId(a[1..], id);
      } else {
        assert WithoutId(ab, id) == WithoutId(a[1..] + b, id);
        assert WithoutId(a, id) == WithoutId(a[1..], id);
      }
    }
  }

  /** A list without the id is left exactly as it is. */
  lemma {:induction false} WithoutIdAbsent(tokens: seq<ApiToken>, id: string)
    requires forall i :: 0 <= i < |tokens| ==> tokens[i].id != id
    ensures WithoutId(tokens, id) == tokens
  {
    if tokens != [] {
      WithoutIdAbsent(tokens[1..], id);
    }
  }

  /** Deleting a token just created, whose id was new, restores the list it was prepended to. */
  lemma DeleteUndoesCreate(created: ApiToken, tokens: seq<ApiToken>)
    requires forall i :: 0 <= i < |tokens| ==> tokens[i].id != created.id
    ensures WithoutId([created] + tokens, created.id) == tokens
  {
    WithoutIdAppend([created], tokens, created.id);
    WithoutIdAbsent(tokens, created.id);
  }

  // ---------------------------------------------------------------------
  // The component's state

  class CLITokenDisplay {
    var tokens: seq<ApiToken>
    var loading: bool
    var visibleTokens: set<string>
    var copiedTokens: set<string>
    var newTokenName: string
    var creatingToken: bool
    var message: Option<Message>
    /** The ids whose 2000 ms copy reset is scheduled and has not fired yet, once per copy. */
    var pendingCopyResets: multiset<string>

    /**
      Every token marked as copied has a reset on its way: for every id in
      `copiedTokens`, `CopyResetFires(id)` can be called, so no "Copied"
      mark is left on screen for good.
     */
    ghost predicate Valid()
      reads this`copiedTokens, this`pendingCopyResets
    {
      forall id :: id in copiedTokens ==> id in pendingCopyResets
    }

    /** A copied id always meets the precondition of its reset. */
    lemma CopiedCanBeReset(id: string)
      requires Valid() && id in copiedTokens
      ensures id in pendingCopyResets
    {
    }

    constructor ()
      ensures Valid()
      ensures tokens == [] && !loading && visibleTokens == {} && copiedTokens == {}
      ensures newTokenName == "" && !creatingToken && message == None
      ensures pendingCopyResets == multiset{}
    {
      tokens := [];
      loading := false;
      visibleTokens := {};
      copiedTokens := {};
      newTokenName := "";
      creatingToken := false;
      message := None;
      pendingCopyResets := multiset{};
    }

    /** Whether the "Create Token" button can be pressed. */
    function CreateButtonEnabled(): bool
      reads this`creatingToken, this`tokens
    {
      CreateEnabled(creatingToken, |tokens|)
    }

    /** The name field's change handler; the field is disabled while a creation is in flight. */
    method EditTokenName(name: string)
      modifies this`newTokenName
      ensures newTokenName == if old(creatingToken) then old(newTokenName) else name
    {
      if !creatingToken {
        newTokenName := name;
      }
    }

    // -------------------------------------------------------------------
    // fetchTokens

    /** `fetchTokens` up to its `await`: the listing is marked as loading. */
    method BeginFetch()
      modifies this`loading
      ensures loading
    {
      loading := true;
    }

    /**
      `fetchTokens` after its `await`: a successful listing replaces the
      tokens; otherwise the tokens stay and an error banner is set. The
      `finally` clears the loading flag in every case.
     */
    method FinishFetch(reply: Reply<seq<ApiToken>>)
      modifies this`tokens, this`message, this`loading
      ensures !loading
      ensures reply.Ok? ==> tokens == reply.payload && message == old(message)
      ensures !reply.Ok? ==> tokens == old(tokens) && message == Some(FailureMessage(reply, FetchFailedText))
    {
      match reply {
        case Ok(list) =>
          tokens := list;
        case Err(error) =>
          message := Some(Message(Error, ErrorText(error, FetchFailedText)));
        case Thrown =>
          message := Some(Message(Error, FetchFailedText));
      }
      loading := false;
    }

    /** `fetchTokens`: nothing happens without a session. */
    method FetchTokens(hasSession: bool, reply: Reply<seq<ApiToken>>)
      modifies this`tokens, this`message, this`loading
      ensures !hasSession ==> unchanged(this)
      ensures hasSession ==> !loading
      ensures hasSession && reply.Ok? ==> tokens == reply.payload && message == old(message)
      ensures hasSession && !reply.Ok? ==>
                tokens == old(tokens) && message == Some(FailureMessage(reply, FetchFailedText))
    {
      if !hasSession {
        return;
      }
      BeginFetch();
      FinishFetch(reply);
    }

    /** The effect run when the session changes: list the tokens, or clear the loading flag. */
    method SessionChanged(hasSession: bool, reply: Reply<seq<ApiToken>>)
      modifies this`tokens, this`message, this`loading
      ensures !loading
      ensures !hasSession ==> tokens == old(tokens) && message == old(message)
      ensures hasSession && reply.Ok? ==> tokens == reply.payload && message == old(message)
      ensures hasSession && !reply.Ok? ==>
                tokens == old(tokens) && message == Some(FailureMessage(reply, FetchFailedText))
    {
      if hasSession {
        FetchTokens(hasSession, reply);
      } else {
        loading := false;
      }
    }

    // -------------------------------------------------------------------
    // createNewToken

    /**
      `createNewToken` up to its `await`: the creation is marked in flight,
      the banner is cleared, and the name is sent only when non-empty.
     */
    method BeginCreate() returns (requestName: Option<string>)
      modifies this`creatingToken, this`message
      ensures creatingToken && message == None
      ensures requestName == None <==> newTokenName == ""
      ensures requestName.Some? ==> requestName.value == newTokenName
    {
      creatingToken := true;
      message := None;
      requestName := if newTokenName == "" then None else Some(newTokenName);
    }

    /**
      `createNewToken` after its `await`: a created token goes to the front
      of the list and is shown unmasked, and the name field is emptied;
      otherwise only an error banner is set. The `finally` clears the
      in-flight flag in every case.
     */
    method FinishCreate(reply: Reply<ApiToken>)
      modifies this`tokens, this`visibleTokens, this`newTokenName, this`message, this`creatingToken
      ensures !creatingToken
      ensures reply.Ok? ==>
                && tokens == [reply.payload] + old(tokens)
                && visibleTokens == old(visibleTokens) + {reply.payload.id}
                && newTokenName == ""
                && message == Some(Message(Success, CreatedText))
      ensures !reply.Ok? ==>
                && tokens == old(tokens)
                && visibleTokens == old(visibleTokens)
                && newTokenName == old(newTokenName)
                && message == Some(FailureMessage(reply, CreateFailedText))
    {
      match reply {
        case Ok(created) =>
          tokens := [created] + tokens;
          visibleTokens := visibleTokens + {created.id};
          newTokenName := "";
          message := Some(Message(Success, CreatedText));
        case Err(error) =>
          message := Some(Message(Error, ErrorText(error, CreateFailedText)));
        case Thrown =>
          message := Some(Message(Error, CreateFailedText));
      }
      creatingToken := false;
    }

    /** `createNewToken`: nothing happens without a session. */
    method CreateNewToken(hasSession: bool, reply: Reply<ApiToken>)
      modifies this`tokens, this`visibleTokens, this`newTokenName, this`message, this`creatingToken
      ensures !hasSession ==> unchanged(this)
      ensures hasSession ==> !creatingToken
      ensures hasSession && reply.Ok? ==>
                && tokens == [reply.payload] + old(tokens)
                && visibleTokens == old(visibleTokens) + {reply.payload.id}
                && newTokenName == ""
                && message == Some(Message(Success, CreatedText))
      ensures hasSession && !reply.Ok? ==>
                && tokens == old(tokens)
                && visibleTokens == old(visibleTokens)
                && newTokenName == old(newTokenName)
                && message == Some(FailureMessage(reply, CreateFailedText))
    {
      if !hasSession {
        return;
      }
      var _ := BeginCreate();
      FinishCreate(reply);
    }

    /**
      A press of the create button: it reaches `createNewToken` only while
      the button is enabled, so a press never takes the list past the
      maximum.
     */
    method PressCreateButton(hasSession: bool, reply: Reply<ApiToken>) returns (requested: bool)
      modifies this`tokens, this`visibleTokens, this`newTokenName, this`message, this`creatingToken
      ensures requested <==> hasSession && old(CreateButtonEnabled())
      ensures !requested ==> unchanged(this)
      ensures requested && reply.Ok? ==> tokens == [reply.payload] + old(tokens)
      ensures requested && !reply.Ok? ==> tokens == old(tokens)
      ensures requested ==> |tokens| <= MaxTokens
    {
      requested := hasSession && CreateButtonEnabled();
      if requested {
        CreateNewToken(hasSession, reply);
      }
    }

    // -------------------------------------------------------------------
    // deleteToken

    /**
      `deleteToken`, applied once the service has answered: on success the
      token leaves the list and the visible set; otherwise only an error
      banner is set. The copied set is left for its timer.
     */
    method DeleteToken(hasSession: bool, tokenId: string, reply: Reply<()>)
      modifies this`tokens, this`visibleTokens, this`message
      ensures !hasSession ==> unchanged(this)
      ensures hasSession && reply.Ok? ==>
                && tokens == WithoutId(old(tokens), tokenId)
                && visibleTokens == old(visibleTokens) - {tokenId}
                && message == Some(Message(Success, DeletedText))
      ensures hasSession && !reply.Ok? ==>
                && tokens == old(tokens)
                && visibleTokens == old(visibleTokens)
                && message == Some(FailureMessage(reply, DeleteFailedText))
    {
      if !hasSession {
        return;
      }
      match reply
      case Ok(_) =>
        tokens := WithoutId(tokens, tokenId);
        visibleTokens := visibleTokens - {tokenId};
        message := Some(Message(Success, DeletedText));
      case Err(error) =>
        message := Some(Message(Error, ErrorText(error, DeleteFailedText)));
      case Thrown =>
        message := Some(Message(Error, DeleteFailedText));
    }

    // -------------------------------------------------------------------
    // copyToken and its reset timer

    /**
      `copyToken`, once the clipboard write has finished: on success the id
      is marked as copied and its reset is scheduled; a failed write is
      only logged.
     */
    method CopyToken(tokenId: string, written: bool)
      requires Valid()
      modifies this`copiedTokens, this`pendingCopyResets
      ensures Valid()
      ensures written ==> copiedTokens == old(copiedTokens) + {tokenId}
      ensures written ==> pendingCopyResets == old(pendingCopyResets) + multiset{tokenId}
      ensures !written ==> unchanged(this)
    {
      if written {
        copiedTokens := copiedTokens + {tokenId};
        pendingCopyResets := pendingCopyResets + multiset{tokenId};
      }
    }

    /** A scheduled copy reset fires: that id, and no other, stops being marked as copied. */
    method CopyResetFires(tokenId: string)
      requires Valid()
      requires tokenId in pendingCopyResets
      modifies this`copiedTokens, this`pendingCopyResets
      ensures Valid()
      ensures copiedTokens == old(copiedTokens) - {tokenId}
      ensures pendingCopyResets == old(pendingCopyResets) - multiset{tokenId}
    {
      copiedTokens := copiedTokens - {tokenId};
      pendingCopyResets := pendingCopyResets - multiset{tokenId};
    }

    // -------------------------------------------------------------------
    // Visibility and the banner timer

    method ToggleTokenVisibility(tokenId: string)
      modifies this`visibleTokens
      ensures visibleTokens == Toggled(old(visibleTokens), tokenId)
    {
      if tokenId in visibleTokens {
        visibleTokens := visibleTokens - {tokenId};
      } else {
        visibleTokens := visibleTokens + {tokenId};
      }
    }

    /** The 5000 ms timer of the banner on show fires and clears it. */
    method MessageTimerFires()
      requires message.Some?
      modifies this`message
      ensures message == None
    {
      message := None;
    }
  }
}
