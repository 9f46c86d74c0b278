/** The frontend's basic session/status store: login state, a stack of
    pending requests ("loading"), a list of API errors and the user messages
    pushed by the server, together with the connection-test flags derived
    from them. Each mutation is a method of `Store`. */
module BaseStore {
  import opened Wrappers

  /** The `token` slot: `false` before the first login, the API key after
      LOGIN and `null` after LOGOUT. */
  datatype Token = NoToken | NullToken | Key(key: string)

  /** The HTTP response attached to an API failure. */
  datatype HttpResponse = HttpResponse(statusText: string)

  /** An API failure as the REST client reports it; `response` is absent
      (undefined) when no response arrived at all. */
  datatype ApiError = ApiError(response: Option<HttpResponse>, message: string)

  /** One entry of the `errors` list. */
  datatype ErrorRecord = ErrorRecord(message: string, id: int, fullError: ApiError)

  /** `conWorker` / `conRemote`: `null` until a connection test reports. */
  datatype ConnectionStatus = Untested | Tested(success: bool)

  /** A user message pushed by the server. Messages are JavaScript objects
      and are removed by identity, so they are modelled as objects whose
      fields never change. */
  class UserMessage {
    const created: Option<bool>
    const jobType: string
    const success: bool

    constructor (created: Option<bool>, jobType: string, success: bool)
      ensures this.created == created && this.jobType == jobType && this.success == success
    {
      this.created := created;
      this.jobType := jobType;
      this.success := success;
    }
  }

  const RemoteTestJob := "test_connection_servershark"
  const WorkerTestJob := "test_connection_worker"
  const LoginFailedMessage := "Login failed"

  /** Every field of the store, as one value. */
  datatype StoreState = StoreState(
    token: Token,
    user: string,
    isSuperuser: bool,
    channel: string,
    loading: seq<bool>,
    errors: seq<ErrorRecord>,
    loginSuccess: bool,
    loginMessage: string,
    userMessages: seq<UserMessage>,
    conWorker: ConnectionStatus,
    conRemote: ConnectionStatus)

  /** The text shown for an API failure: the response's status text when a
      response arrived, the error's own message otherwise. */
  function ErrorText(error: ApiError): (text: string)
    ensures error.response.Some? ==> text == error.response.value.statusText
    ensures error.response.None? ==> text == error.message
  {
    match error.response
    case Some(r) => r.statusText
    case None => error.message
  }

  /** The index at which JavaScript's `splice(id, 1)` starts on a list of
      length `len`: a negative `id` counts from the end, and the result is
      clamped to `0 .. len`. */
  function SpliceStart(len: nat, id: int): (start: nat)
    ensures start <= len
    ensures 0 <= id <= len ==> start == id
    ensures id < 0 && 0 <= len as int + id ==> start as int == len as int + id
    ensures id > len ==> start == len
    ensures len as int + id < 0 ==> start == 0
  {
    if id < 0 then (if len + id < 0 then 0 else len + id)
    else if id > len then len
    else id
  }

  /** JavaScript's `s.splice(id, 1)`: removes the one element at the start
      index, if there is one. Negative ids count from the end. */
  function RemoveAt<T>(s: seq<T>, id: int): (r: seq<T>)
    ensures var k := SpliceStart(|s|, id);
      k < |s| ==>
        && |r| == |s| - 1
        && (forall i :: 0 <= i < k ==> r[i] == s[i])
        && (forall i :: k < i < |s| ==> r[i - 1] == s[i])
        && multiset(r) + multiset{s[k]} == multiset(s)
    ensures SpliceStart(|s|, id) == |s| ==> r == s
  {
    var k := SpliceStart(|s|, id);
    if k < |s| then
      assert s == s[..k] + [s[k]] + s[k + 1..];
      s[..k] + s[k + 1..]
    else s
  }

  /** `s.filter(item => item !== m)`. */
  function Without<T(==)>(s: seq<T>, m: T): (r: seq<T>)
    ensures m !in r
    ensures forall i :: 0 <= i < |r| ==> r[i] in s
    ensures forall i :: 0 <= i < |s| && s[i] != m ==> s[i] in r
  {
    if s == [] then []
    else if s[0] == m then Without(s[1..], m)
    else [s[0]] + Without(s[1..], m)
  }

  /** Filtering distributes over concatenation, so the kept elements stay in
      their original order. */
  lemma {:induction false} WithoutAppend<T>(a: seq<T>, b: seq<T>, m: T)
    ensures Without(a + b, m) == Without(a, m) + Without(b, m)
    decreases |a|
  {
    if a != [] {
      assert (a + b)[0] == a[0] && (a + b)[1..] == a[1..] + b;
      WithoutAppend(a[1..], b, m);
    } else {
      assert a + b == b;
    }
  }

  /** Filtering removes every occurrence of `m` and leaves the number of
      occurrences of every other element unchanged. */
  lemma {:induction false} WithoutCounts<T>(s: seq<T>, m: T)
    ensures multiset(Without(s, m)) == multiset(s)[m := 0]
    decreases |s|
  {
    if s != [] {
      WithoutCounts(s[1..], m);
      assert s == [s[0]] + s[1..];
    }
  }

  /** Error ids equal their positions in the list. */
  ghost predicate IdsArePositions(errors: seq<ErrorRecord>)
  {
    forall i :: 0 <= i < |errors| ==> errors[i].id == i
  }

  /** Pushing keeps ids equal to positions: the new id is the old length. */
  lemma PushKeepsIdsPositional(errors: seq<ErrorRecord>, error: ApiError)
    requires IdsArePositions(errors)
    ensures IdsArePositions(errors + [ErrorRecord(ErrorText(error), |errors|, error)])
  {
  }

  /** Ids are never renumbered: removing any error but the last leaves a
      record whose id no longer equals its position, so a later POP_ERROR
      with that id removes a different record (or none). */
  lemma RemoveInsideShiftsIds(errors: seq<ErrorRecord>, id: int)
    requires IdsArePositions(errors)
    requires 0 <= id < |errors| - 1
    ensures !IdsArePositions(RemoveAt(errors, id))
    ensures RemoveAt(errors, id)[id].id == id + 1
  {
    assert SpliceStart(|errors|, id) == id;
    assert RemoveAt(errors, id)[id] == errors[id + 1];
  }

  class Store {
    var token: Token
    var user: string
    var isSuperuser: bool
    var channel: string
    var loading: seq<bool>
    var errors: seq<ErrorRecord>
    var loginSuccess: bool
    var loginMessage: string
    var userMessages: seq<UserMessage>
    var conWorker: ConnectionStatus
    var conRemote: ConnectionStatus

    /** The whole state of the store. */
    function State(): StoreState
      reads this
    {
      StoreState(token, user, isSuperuser, channel, loading, errors, loginSuccess,
                 loginMessage, userMessages, conWorker, conRemote)
    }

    /** The initial state. */
    constructor ()
      ensures State() == StoreState(NoToken, "", false, "", [], [], false, "", [], Untested, Untested)
    {
      token, user, isSuperuser, channel := NoToken, "", false, "";
      loading, errors := [], [];
      loginSuccess, loginMessage := false, "";
      userMessages, conWorker, conRemote := [], Untested, Untested;
    }

    /** The `loading` getter. */
    function IsLoading(): (b: bool)
      reads this
      ensures b <==> loading != []
    {
      |loading| > 0
    }

    /** The `error` getter. */
    function HasError(): (b: bool)
      reads this
      ensures b <==> errors != []
    {
      |errors| > 0
    }

    /** LOGIN: records the session from the login payload. */
    method Login(key: string, username: string, superuser: bool, userChannel: string)
      modifies this
      ensures State() == old(State()).(token := Key(key), user := username,
        isSuperuser := superuser, channel := userChannel,
        loginSuccess := true, loginMessage := "")
    {
      token := Key(key);
      user := username;
      isSuperuser := superuser;
      channel := userChannel;
      loginSuccess := true;
      loginMessage := "";
    }

    /** LOGOUT: clears the session; the user name, the loading stack, the
        errors and the user messages stay. */
    method Logout()
      modifies this
      ensures State() == old(State()).(loginSuccess := false, loginMessage := "",
        token := NullToken, channel := "", isSuperuser := false)
      ensures user == old(user) && loading == old(loading) && errors == old(errors)
      ensures userMessages == old(userMessages)
    {
      loginSuccess := false;
      loginMessage := "";
      token := NullToken;
      channel := "";
      isSuperuser := false;
    }

    /** PUSH_LOADING: one more pending request. */
    method PushLoading()
      modifies this
      ensures State() == old(State()).(loading := old(loading) + [true])
      ensures IsLoading()
    {
      loading := loading + [true];
    }

    /** POP_LOADING: `Array.prototype.pop`, which does nothing on an empty
        stack. */
    method PopLoading()
      modifies this
      ensures State() == old(State()).(loading :=
        if old(loading) == [] then [] else old(loading)[..|old(loading)| - 1])
      ensures IsLoading() <==> |old(loading)| > 1
    {
      if |loading| > 0 {
        loading := loading[..|loading| - 1];
      }
    }

    /** LOGIN_ERROR: only the login message changes. */
    method LoginError(error: ApiError)
      modifies this
      ensures State() == old(State()).(loginMessage := LoginFailedMessage)
    {
      loginMessage := LoginFailedMessage;
    }

    /** PUSH_ERROR: appends one record whose id is the number of errors
        before the push. */
    method PushError(error: ApiError)
      modifies this
      ensures State() == old(State()).(errors := old(errors) + [ErrorRecord(ErrorText(error), |old(errors)|, error)])
      ensures HasError()
      ensures errors[|errors| - 1].id == |old(errors)|
    {
      var message := "";
      if error.response.Some? {
        message := error.response.value.statusText;
      } else {
        message := error.message;
      }
      var record := ErrorRecord(message, |errors|, error);
      errors := errors + [record];
    }

    /** POP_ERROR: `errors.splice(id, 1)`, by position, not by record id. */
    method PopError(id: int)
      modifies this
      ensures State() == old(State()).(errors := RemoveAt(old(errors), id))
      ensures 0 <= id < |old(errors)| ==> |errors| == |old(errors)| - 1
      ensures id >= |old(errors)| ==> errors == old(errors)
    {
      var start := SpliceStart(|errors|, id);
      if start < |errors| {
        errors := errors[..start] + errors[start + 1..];
      }
    }

    /** PUSH_USER_MESSAGE: always appends the message; a finished connection
        test (`created === false`) also sets the matching flag. */
    method PushUserMessage(message: UserMessage)
      modifies this
      ensures userMessages == old(userMessages) + [message]
      ensures conRemote == if message.created == Some(false) && message.jobType == RemoteTestJob
        then Tested(message.success) else old(conRemote)
      ensures conWorker == if message.created == Some(false) && message.jobType == WorkerTestJob
        then Tested(message.success) else old(conWorker)
      ensures State() == old(State()).(userMessages := userMessages, conRemote := conRemote, conWorker := conWorker)
    {
      if message.created == Some(false) && message.jobType == RemoteTestJob {
        conRemote := Tested(message.success);
      }
      if message.created == Some(false) && message.jobType == WorkerTestJob {
        conWorker := Tested(message.success);
      }
      userMessages := userMessages + [message];
    }

    /** SET_USER_MESSAGES: replaces the whole list. */
    method SetUserMessages(messages: seq<UserMessage>)
      modifies this
      ensures State() == old(State()).(userMessages := messages)
    {
      userMessages := messages;
    }

    /** POP_USER_MESSAGE: removes every occurrence of that very message
        object and keeps the others in order. */
    method PopUserMessage(message: UserMessage)
      modifies this
      ensures State() == old(State()).(userMessages := Without(old(userMessages), message))
      ensures message !in userMessages
    {
      userMessages := Without(userMessages, message);
    }
  }
}
