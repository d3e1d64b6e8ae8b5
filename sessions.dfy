/** The ad-session helpers of src/utils.js and the ad network's postback
    handler of src/monetag.js: a session table that gains rows with
    `completed = false` and whose rows are marked completed by id, and a
    user lookup by `telegram_id`. */
module Sessions {
  import opened Common

  /** A session row: the user it belongs to and whether it is completed. */
  datatype Session = Session(owner: int, completed: bool)

  /** A `users` row of src/db.js's schema. */
  datatype UserRecord = UserRecord(
    username: Option<string>, firstName: Option<string>, referredBy: Option<int>,
    coins: int, balance: int, bankName: Option<string>, accountNumber: Option<string>,
    accountName: Option<string>, isBanned: bool)

  /** `UPDATE sessions SET completed=true WHERE id=$1`: the session with that
      id becomes completed at once (there is no view count), every other
      session is kept, and an unknown id changes nothing. */
  function Completed(sessions: map<string, Session>, id: string): (r: map<string, Session>)
    ensures r.Keys == sessions.Keys
    ensures id in sessions ==> r[id] == Session(sessions[id].owner, true)
    ensures forall k :: k in sessions && k != id ==> r[k] == sessions[k]
    ensures id !in sessions ==> r == sessions
  {
    if id in sessions then sessions[id := sessions[id].(completed := true)] else sessions
  }

  /** Completing a session twice leaves the same table as completing it once;
      completions of two sessions can be done in either order. */
  lemma CompletedIdempotent(sessions: map<string, Session>, id: string, other: string)
    ensures Completed(Completed(sessions, id), id) == Completed(sessions, id)
    ensures Completed(Completed(sessions, id), other) == Completed(Completed(sessions, other), id)
  {
  }

  /** A value of the postback's JSON body. Only integer numbers are modelled. */
  datatype JsonValue = Undefined | Null | Bool(b: bool) | Number(n: int) | Str(s: string)

  /** JavaScript truthiness: `undefined`, `null`, `false`, `0` and `""` are falsy. */
  predicate Truthy(v: JsonValue)
  {
    match v
    case Undefined => false
    case Null => false
    case Bool(b) => b
    case Number(n) => n != 0
    case Str(s) => s != ""
  }

  /** The text the query parameter carries for a truthy value. */
  function ParamText(v: JsonValue): string
    requires Truthy(v)
  {
    match v
    case Bool(_) => "true"
    case Number(n) => IntText(n)
    case Str(s) => s
  }

  /** The request body: absent (destructuring it throws), or an object whose
      `sessionId` property is `sessionId` (`Undefined` when it has none). */
  datatype PostbackBody = NoBody | Body(sessionId: JsonValue)

  /** An HTTP response: its status and its text. */
  datatype Response = Response(status: int, text: string)

  const MissingSessionId := Response(400, "Missing sessionId")
  const Ok := Response(200, "OK")
  const ServerError := Response(500, "Error")

  /** `handleMonetagPostback` as a transition of the session table: a falsy
      or missing `sessionId` answers 400; a thrown error (no body, or the
      update failing in the database, `dbFails`) answers 500; otherwise the
      session is completed and the answer is "OK", whether or not it exists. */
  function Postback(sessions: map<string, Session>, body: PostbackBody, dbFails: bool): (map<string, Session>, Response)
  {
    match body
    case NoBody => (sessions, ServerError)
    case Body(v) =>
      if !Truthy(v) then (sessions, MissingSessionId)
      else if dbFails then (sessions, ServerError)
      else (Completed(sessions, ParamText(v)), Ok)
  }

  /** The postback's answers and effects, case by case: 400 for a falsy or
      missing `sessionId`, 500 for a missing body or a failing update, "OK"
      otherwise; only a successful "OK" changes the table, and then only the
      named session. */
  lemma PostbackOutcomes(sessions: map<string, Session>, body: PostbackBody, dbFails: bool)
    ensures var (s', resp) := Postback(sessions, body, dbFails);
            && (body.Body? && !Truthy(body.sessionId) ==> resp == MissingSessionId && s' == sessions)
            && (body.Body? && Truthy(body.sessionId) && !dbFails ==>
                  resp == Ok && s' == Completed(sessions, ParamText(body.sessionId)))
            && (body.Body? && Truthy(body.sessionId) && ParamText(body.sessionId) !in sessions ==>
                  s' == sessions)
            && (body.NoBody? || (Truthy(body.sessionId) && dbFails) ==> resp == ServerError && s' == sessions)
            && (resp != Ok ==> s' == sessions)
            && resp in {MissingSessionId, Ok, ServerError}
  {
  }

  /** A repeated postback for the same session, successful or failing, leaves
      the table as the first successful one did. */
  lemma PostbackIdempotent(sessions: map<string, Session>, body: PostbackBody, dbFails: bool)
    ensures var once := Postback(sessions, body, false).0;
            Postback(once, body, dbFails).0 == once
  {
    if body.Body? && Truthy(body.sessionId) {
      CompletedIdempotent(sessions, ParamText(body.sessionId), ParamText(body.sessionId));
    }
  }

  /** The `users` rows and the session table, with the counter the database
      uses to issue session ids (issued ids are its values in decimal). */
  class Store {
    var users: map<int, UserRecord>
    var sessions: map<string, Session>
    var nextSerial: nat

    /** Every session id is an issued one, so the next id is fresh. */
    ghost predicate Valid()
      reads this
    {
      forall k :: k in sessions ==> AllDigits(k) && ParseDigits(k) < nextSerial
    }

    constructor (users: map<int, UserRecord>)
      ensures Valid() && this.users == users && sessions == map[]
    {
      this.users := users;
      sessions := map[];
      nextSerial := 0;
    }

    /** `getUser(userId)`: the row whose `telegram_id` is `userId`, or
        undefined when there is none. */
    method GetUser(userId: int) returns (r: Option<UserRecord>)
      ensures r.Some? <==> userId in users
      ensures r.Some? ==> r.value == users[userId]
    {
      if userId in users {
        r := Some(users[userId]);
      } else {
        r := None;
      }
    }

    /** `startTaskSession(userId)`: insert one session for the user, not
        completed, and return its fresh id. */
    method StartTaskSession(userId: int) returns (id: string)
      requires Valid()
      modifies this
      ensures Valid()
      ensures id !in old(sessions)
      ensures sessions == old(sessions)[id := Session(userId, false)]
      ensures users == old(users)
    {
      id := Digits(nextSerial);
      ParseDigitsOfDigits(nextSerial);
      sessions := sessions[id := Session(userId, false)];
      nextSerial := nextSerial + 1;
    }

    /** `completeAdView(sessionId)`; a failure of the database (`dbFails`)
        rejects with nothing written. */
    method CompleteAdView(id: string, dbFails: bool) returns (r: Result<()>)
      requires Valid()
      modifies this`sessions
      ensures Valid()
      ensures r.Success? <==> !dbFails
      ensures sessions == if dbFails then old(sessions) else Completed(old(sessions), id)
    {
      if dbFails {
        return Failure("database error");
      }
      if id in sessions {
        sessions := sessions[id := sessions[id].(completed := true)];
      }
      r := Success(());
    }

    /** `handleMonetagPostback`: check `sessionId`, delegate to
        `CompleteAdView`, and answer. */
    method HandleMonetagPostback(body: PostbackBody, dbFails: bool) returns (resp: Response)
      requires Valid()
      modifies this`sessions
      ensures Valid()
      ensures (sessions, resp) == Postback(old(sessions), body, dbFails)
    {
      if body.NoBody? {
        return ServerError;
      }
      var sessionId := body.sessionId;
      if !Truthy(sessionId) {
        return MissingSessionId;
      }
      var done := CompleteAdView(ParamText(sessionId), dbFails);
      if done.Failure? {
        return ServerError;
      }
      resp := Ok;
    }
  }
}
