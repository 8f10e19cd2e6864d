/** The admin login: the fixed credentials, the `admin_logged_in` session
    flag that login sets and logout forgets. */
module AuthController {
  import opened Strings
  import opened Js
  import opened Php

  const AdminUsername: string := "admin"
  const AdminPassword: string := "password"
  const LoggedInKey: string := "admin_logged_in"

  datatype Outcome =
    | Redirect(route: string)
    | ValidationFailed(fields: set<string>)
    | Back(errors: map<string, string>)

  /** The fields the `required` rules reject. */
  function MissingFields(req: Record): set<string>
  {
    (if Filled(Get(req, "username")) then {} else {"username"})
    + (if Filled(Get(req, "password")) then {} else {"password"})
  }

  /** `$request->username === 'admin' && $request->password === 'password'`:
      strict comparison, so only these two strings match. */
  predicate Credentials(req: Record)
  {
    Input(req, "username") == Str(AdminUsername) && Input(req, "password") == Str(AdminPassword)
  }

  /** Credentials that match are never rejected by the required rules, so
      the comparison decides a login that gets that far. */
  lemma CredentialsAreFilled(req: Record)
    requires Credentials(req)
    ensures MissingFields(req) == {}
  {
    assert !PhpSpace(AdminUsername[0]) && !PhpSpace(AdminPassword[0]);
  }

  /** The session store. */
  class Session {
    var data: map<string, Value>

    constructor (data: map<string, Value>)
      ensures this.data == data
    {
      this.data := data;
    }

    predicate LoggedIn()
      reads this
    {
      LoggedInKey in data && data[LoggedInKey] == Bool(true)
    }

    /** login */
    method Login(req: Record) returns (outcome: Outcome)
      modifies this
      ensures MissingFields(req) != {} ==>
                outcome == ValidationFailed(MissingFields(req)) && data == old(data)
      ensures MissingFields(req) == {} && Credentials(req) ==>
                outcome == Redirect("admin.dashboard") && data == old(data)[LoggedInKey := Bool(true)]
      ensures MissingFields(req) == {} && !Credentials(req) ==>
                outcome == Back(map["credentials" := "Invalid admin credentials."]) && data == old(data)
    {
      var missing := MissingFields(req);
      if missing != {} {
        return ValidationFailed(missing);
      }
      if Input(req, "username") == Str(AdminUsername) && Input(req, "password") == Str(AdminPassword) {
        data := data[LoggedInKey := Bool(true)];
        return Redirect("admin.dashboard");
      }
      outcome := Back(map["credentials" := "Invalid admin credentials."]);
    }

    /** logout */
    method Logout() returns (outcome: Outcome)
      modifies this
      ensures data == old(data) - {LoggedInKey}
      ensures outcome == Redirect("admin.login")
    {
      data := data - {LoggedInKey};
      outcome := Redirect("admin.login");
    }
  }

  /** A login logs the session in exactly when the credentials are the
      fixed pair; otherwise the session's login state is what it was. */
  method LoginSpec(session: Session, req: Record) returns (outcome: Outcome)
    modifies session
    ensures outcome.Redirect? <==> Credentials(req)
    ensures Credentials(req) ==> session.LoggedIn()
    ensures !Credentials(req) ==> session.data == old(session.data)
  {
    if Credentials(req) {
      CredentialsAreFilled(req);
    }
    outcome := session.Login(req);
  }

  /** After a logout the session is not logged in, whatever it held. */
  method LogoutSpec(session: Session) returns (outcome: Outcome)
    modifies session
    ensures !session.LoggedIn()
    ensures forall k :: k in old(session.data) && k != LoggedInKey ==>
              k in session.data && session.data[k] == old(session.data)[k]
  {
    outcome := session.Logout();
  }
}
