/**
 * The session the browser script keeps in `localStorage` (frontend/scripts/app.js): the
 * access token and the signed-in user. `JSON.stringify` followed by `JSON.parse` is taken to
 * give the stored user back unchanged, so the user is kept as a value.
 */
module FrontendSession {
  import opened Wrappers

  /** The part of the stored user profile the script reads. */
  datatype SessionUser = SessionUser(username: string)

  /** JavaScript truthiness of a stored string: a missing key and "" are both falsy. */
  predicate Present(s: Option<string>)
  {
    s.Some? && s.value != ""
  }

  class SessionStore {
    var authToken: Option<string>
    var currentUser: Option<SessionUser>

    /** `if (token && user)` of `checkAuth`. */
    predicate SignedIn()
      reads this
    {
      Present(authToken) && currentUser.Some?
    }

    /** A browser with nothing stored. */
    constructor ()
      ensures authToken == None && currentUser == None
      ensures !SignedIn()
    {
      authToken := None;
      currentUser := None;
    }

    /** `setAuthToken`. */
    method SetAuthToken(token: string)
      modifies this
      ensures authToken == Some(token) && currentUser == old(currentUser)
    {
      authToken := Some(token);
    }

    /** `removeAuthToken`. */
    method RemoveAuthToken()
      modifies this
      ensures authToken == None && currentUser == old(currentUser)
      ensures !SignedIn()
    {
      authToken := None;
    }

    /** `setCurrentUser`. */
    method SetCurrentUser(user: SessionUser)
      modifies this
      ensures currentUser == Some(user) && authToken == old(authToken)
    {
      currentUser := Some(user);
    }

    /** `removeCurrentUser`. */
    method RemoveCurrentUser()
      modifies this
      ensures currentUser == None && authToken == old(authToken)
      ensures !SignedIn()
    {
      currentUser := None;
    }

    /** The successful path of `handleLogin`: store the token, then the profile fetched with it.
        The session is signed in afterwards unless the server sent an empty token. */
    method CompleteLogin(token: string, user: SessionUser)
      modifies this
      ensures authToken == Some(token) && currentUser == Some(user)
      ensures SignedIn() <==> token != ""
    {
      SetAuthToken(token);
      SetCurrentUser(user);
    }

    /** `logout`: both keys are removed, so the session is signed out. */
    method Logout()
      modifies this
      ensures authToken == None && currentUser == None
      ensures !SignedIn()
    {
      RemoveAuthToken();
      RemoveCurrentUser();
    }
  }

  /** What the header's auth link offers. */
  datatype AuthLink = Greeting(text: string) | LoginLink

  /** `checkAuth`: with a token and a user the link greets the user (and logs out when clicked);
      otherwise it offers the login dialog. */
  function AuthLinkOf(token: Option<string>, user: Option<SessionUser>): (a: AuthLink)
    ensures a.Greeting? <==> Present(token) && user.Some?
    ensures a.Greeting? ==> a.text == "Hi, " + user.value.username
  {
    if Present(token) && user.Some? then Greeting("Hi, " + user.value.username) else LoginLink
  }
}
