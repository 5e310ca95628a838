/**
 * AuthService: the browser's localStorage holding the signed-in principal
 * under the key "user". A stored value is kept as the JSON value it
 * serialises (JSON.stringify and JSON.parse are taken to round-trip).
 * Requests over the network are out of scope: login receives the response
 * body as a parameter.
 */
module AuthService {
  import opened Wrappers
  import opened JsValues

  const UserKey: string := "user"

  /** localStorage.getItem(key) was set to a value; `user && user.accessToken` holds. */
  predicate HasToken(user: Option<Json>) {
    TruthyOpt(user) && TruthyOpt(Field(user, "accessToken"))
  }

  /** getAuthHeader for a given current user. */
  function AuthHeader(user: Option<Json>): (h: map<string, string>)
    ensures h.Keys <= {"Authorization"} && ("Authorization" in h <==> HasToken(user))
    ensures HasToken(user) ==> h == map["Authorization" := "Bearer " + ToJsString(Field(user, "accessToken").value)]
  {
    if HasToken(user) then map["Authorization" := "Bearer " + ToJsString(Field(user, "accessToken").value)] else map[]
  }

  /** The request interceptor: the header is set when a token is present, the config is otherwise untouched. */
  function Intercept(headers: map<string, string>, user: Option<Json>): (r: map<string, string>)
    ensures HasToken(user) ==> r.Keys == headers.Keys + {"Authorization"} && r["Authorization"] == AuthHeader(user)["Authorization"]
    ensures HasToken(user) ==> forall k :: k in headers && k != "Authorization" ==> r[k] == headers[k]
    ensures !HasToken(user) ==> r == headers
  {
    if HasToken(user) then headers["Authorization" := "Bearer " + ToJsString(Field(user, "accessToken").value)] else headers
  }

  /** The sign-up body: roles default to ["user"] when not passed, and travel under the key "role". */
  function RegisterPayload(username: string, email: string, password: string, fullName: string,
                           enrollmentDate: string, roles: Option<seq<string>>): (p: map<string, Json>)
    ensures p.Keys == {"username", "email", "password", "fullName", "enrollmentDate", "role"}
    ensures p["username"] == JStr(username) && p["email"] == JStr(email) && p["password"] == JStr(password)
    ensures p["fullName"] == JStr(fullName) && p["enrollmentDate"] == JStr(enrollmentDate)
    ensures p["role"].JArr? && |p["role"].items| == |roles.GetOr(["user"])|
    ensures forall k :: 0 <= k < |roles.GetOr(["user"])| ==> p["role"].items[k] == JStr(roles.GetOr(["user"])[k])
  {
    var rs := roles.GetOr(["user"]);
    map["username" := JStr(username), "email" := JStr(email), "password" := JStr(password),
        "fullName" := JStr(fullName), "enrollmentDate" := JStr(enrollmentDate),
        "role" := JArr(seq(|rs|, k requires 0 <= k < |rs| => JStr(rs[k])))]
  }

  /** The omitted roles argument is the singleton list ["user"]. */
  lemma RegisterDefaultRole(username: string, email: string, password: string, fullName: string, enrollmentDate: string)
    ensures RegisterPayload(username, email, password, fullName, enrollmentDate, None)["role"] == JArr([JStr("user")])
  {
  }

  /** The key/value store of the browser. */
  class Storage {
    var items: map<string, Json>

    constructor (items: map<string, Json>)
      ensures this.items == items
    {
      this.items := items;
    }

    /** getCurrentUser: the stored principal, or null. */
    function CurrentUser(): (r: Option<Json>)
      reads this
      ensures r.Some? <==> UserKey in items
      ensures r.Some? ==> r.value == items[UserKey]
    {
      if UserKey in items then Some(items[UserKey]) else None
    }

    /** getAuthHeader. */
    function GetAuthHeader(): (r: map<string, string>)
      reads this
      ensures "Authorization" in r <==> UserKey in items && HasToken(Some(items[UserKey]))
      ensures r.Keys <= {"Authorization"}
    {
      AuthHeader(CurrentUser())
    }

    /**
     * login, once the sign-in response body has arrived: stored only when it
     * carries a truthy token. A null body makes `response.data.accessToken`
     * throw a TypeError (None), and nothing is stored.
     */
    method Login(data: Json) returns (r: Option<Json>)
      modifies this
      ensures r.None? <==> data.JNull?
      ensures r.Some? ==> r.value == data
      ensures HasToken(Some(data)) ==> items == old(items)[UserKey := data]
      ensures !HasToken(Some(data)) ==> items == old(items)
    {
      if data.JNull? {
        return None;
      }
      if HasToken(Some(data)) {
        items := items[UserKey := data];
      }
      r := Some(data);
    }

    method Logout()
      modifies this
      ensures items == old(items) - {UserKey}
      ensures CurrentUser().None?
    {
      items := items - {UserKey};
    }

    /** localStorage.setItem("user", JSON.stringify(value)). */
    method SetUser(value: Json)
      modifies this
      ensures items == old(items)[UserKey := value]
      ensures CurrentUser() == Some(value)
    {
      items := items[UserKey := value];
    }
  }
}
