/** The authentication state shared by the pages: the signed-in user, whether the
    session is still loading, and guest mode. The session and logout services'
    answers are parameters; the requests sent are logged in `requests`, and the one
    full-page navigation the provider makes is recorded in `location`. */
module AuthContext {
  import opened Wrappers
  import opened JsValues

  datatype Request = SessionRequest | LogoutRequest

  /** The answer to the session request: a network error, a rejected status with its
      text, a body that is not JSON, or the parsed body. */
  datatype SessionOutcome = SessionNetworkError | SessionRejected(statusText: string) | SessionUnparsable
                          | SessionData(data: Json)

  datatype LogoutOutcome = LogoutNetworkError | LogoutRejected | LoggedOut

  /** The user a session body names: its truthy `user` field, else none. A `null` body
      throws when its field is read, which the provider catches. */
  function SessionUser(data: Json): (r: Result<Option<Json>>)
    ensures r.Failure? <==> data.JNull?
    ensures r.Success? && r.value.Some? ==> Truthy(r.value.value)
    ensures data.JObj? && "user" in data.fields && Truthy(data.fields["user"]) ==> r == Success(Some(data.fields["user"]))
    ensures data.JObj? && !("user" in data.fields && Truthy(data.fields["user"])) ==> r == Success(None)
  {
    match Read(data, "user")
    case Failure(e) => Failure(e)
    case Success(u) => Success(if Present(u) then u else None)
  }

  class AuthProvider {
    /** The user object, `None` for `null`. */
    var user: Option<Json>
    var isLoading: bool
    var isGuest: bool
    var requests: seq<Request>
    /** Where `window.location.href` was last sent, if anywhere. */
    var location: Option<string>

    /** The user is a real object when set, and a guest never has one. */
    predicate Valid()
      reads this
    {
      (user.Some? ==> Truthy(user.value)) && (isGuest ==> user.None?)
    }

    constructor()
      ensures Valid()
      ensures user.None? && isLoading && !isGuest && requests == [] && location.None?
    {
      user := None;
      isLoading := true;
      isGuest := false;
      requests := [];
      location := None;
    }

    /** The effect that runs on mount and whenever `isGuest` changes: a guest only
        stops loading; otherwise the session is fetched, and the user is set from an
        ok reply and left alone on any failure. Loading ends in every case. */
    method SessionEffect(outcome: SessionOutcome)
      requires Valid()
      modifies this
      ensures Valid()
      ensures !isLoading && isGuest == old(isGuest) && location == old(location)
      ensures old(isGuest) ==> user == old(user) && requests == old(requests)
      ensures !old(isGuest) ==> requests == old(requests) + [SessionRequest]
      ensures !old(isGuest) && outcome.SessionData? && SessionUser(outcome.data).Success? ==>
        user == SessionUser(outcome.data).value
      ensures !old(isGuest) && !(outcome.SessionData? && SessionUser(outcome.data).Success?) ==> user == old(user)
    {
      if isGuest {
        isLoading := false;
        return;
      }
      requests := requests + [SessionRequest];
      if outcome.SessionData? {
        var found := SessionUser(outcome.data);
        if found.Success? {
          user := found.value;
        }
      }
      isLoading := false;
    }

    /** `logout`: a successful logout clears the user and guest mode and sends the
        window to `/`; a failed one changes nothing but the request log. */
    method Logout(outcome: LogoutOutcome)
      requires Valid()
      modifies this
      ensures Valid()
      ensures requests == old(requests) + [LogoutRequest] && isLoading == old(isLoading)
      ensures outcome.LoggedOut? ==> user.None? && !isGuest && location == Some("/")
      ensures !outcome.LoggedOut? ==> user == old(user) && isGuest == old(isGuest) && location == old(location)
    {
      requests := requests + [LogoutRequest];
      if outcome.LoggedOut? {
        user := None;
        isGuest := false;
        location := Some("/");
      }
    }

    /** `enableGuestMode`. */
    method EnableGuestMode()
      requires Valid()
      modifies this
      ensures Valid()
      ensures isGuest && user.None?
      ensures isLoading == old(isLoading) && requests == old(requests) && location == old(location)
    {
      isGuest := true;
      user := None;
    }

    /** `setUserAndUpdateGuestMode`, the `setUser` the context hands out: a user ends
        guest mode; clearing the user leaves guest mode as it was. */
    method SetUserAndUpdateGuestMode(newUser: Option<Json>)
      requires Valid()
      requires newUser.Some? ==> Truthy(newUser.value)
      modifies this
      ensures Valid()
      ensures user == newUser
      ensures newUser.Some? ==> !isGuest
      ensures newUser.None? ==> isGuest == old(isGuest)
      ensures isLoading == old(isLoading) && requests == old(requests) && location == old(location)
    {
      user := newUser;
      if newUser.Some? {
        isGuest := false;
      }
    }
  }
}
