/**
 * The login handling of app.js: the institution directory loaded from the
 * credentials document, the ID-to-password map built from it, and the three
 * module-level session variables that login sets and logout clears.
 */
module Session {
  import opened Wrappers

  /** One entry of the credentials document's `institutions` list. */
  datatype Institution = Institution(id: string, name: Option<string>, password: Option<string>)

  /** `credentialMap`: ID to the entry's `Password` property (absent when the entry has none). */
  type CredentialMap = map<string, Option<string>>

  /** The `session` variable: `{}` or `{ institutionID, loggedIn: true }`. */
  datatype SessionContext = NoSession | Context(institutionID: string, loggedIn: bool)

  const INVALID_CREDENTIALS := "Invalid credentials."

  /** `i` is the last position of `list` holding an entry with ID `id`. */
  ghost predicate LastWithId(list: seq<Institution>, id: string, i: int) {
    0 <= i < |list| && list[i].id == id && forall j :: i < j < |list| ==> list[j].id != id
  }

  /** `i` is the first position of `list` holding an entry with ID `id`. */
  ghost predicate FirstWithId(list: seq<Institution>, id: string, i: int) {
    0 <= i < |list| && list[i].id == id && forall j :: 0 <= j < i ==> list[j].id != id
  }

  /**
   * `Object.fromEntries(institutionList.map(inst => [inst.ID, inst.Password]))`:
   * entries are added in list order, so a later entry with the same ID overwrites.
   */
  function BuildCredentialMap(list: seq<Institution>): CredentialMap {
    if |list| == 0 then map[]
    else BuildCredentialMap(list[..|list| - 1])[list[|list| - 1].id := list[|list| - 1].password]
  }

  /** The map's keys are exactly the IDs that occur in the list. */
  lemma {:induction false} CredentialMapKeys(list: seq<Institution>, id: string)
    ensures id in BuildCredentialMap(list) <==> exists i :: 0 <= i < |list| && list[i].id == id
  {
    if |list| > 0 {
      var init := list[..|list| - 1];
      CredentialMapKeys(init, id);
      if id in BuildCredentialMap(init) {
        var i :| 0 <= i < |init| && init[i].id == id;
        assert list[i].id == id;
      } else if exists i :: 0 <= i < |list| && list[i].id == id {
        var i :| 0 <= i < |list| && list[i].id == id;
        if i < |init| {
          assert init[i].id == id;
        }
      }
    }
  }

  /** For an ID listed more than once, the map holds the password of its last entry. */
  lemma {:induction false} CredentialMapLast(list: seq<Institution>, i: int)
    requires 0 <= i < |list| && LastWithId(list, list[i].id, i)
    ensures list[i].id in BuildCredentialMap(list) && BuildCredentialMap(list)[list[i].id] == list[i].password
  {
    var init := list[..|list| - 1];
    if i < |init| {
      assert init[i] == list[i];
      assert LastWithId(init, init[i].id, i);
      CredentialMapLast(init, i);
    }
  }

  /**
   * `institutionList.find(i => i.ID === id)?.Name || ''`: the name of the FIRST
   * entry with that ID, or the empty string when there is none or it has no name.
   */
  function DisplayName(list: seq<Institution>, id: string): (name: string)
    ensures forall i :: FirstWithId(list, id, i) ==> name == list[i].name.GetOr("")
    ensures (forall i :: 0 <= i < |list| ==> list[i].id != id) ==> name == ""
  {
    if |list| == 0 then ""
    else if list[0].id == id then list[0].name.GetOr("")
    else
      var name := DisplayName(list[1..], id);
      assert forall i :: 1 <= i < |list| ==> list[i] == list[1..][i - 1];
      assert forall i :: FirstWithId(list, id, i) ==> FirstWithId(list[1..], id, i - 1);
      name
  }

  /**
   * The login test `credentialMap[selectedID] && credentialMap[selectedID] === password`:
   * the stored password is present, non-empty (truthy) and equal to the one entered.
   */
  predicate Accepts(m: CredentialMap, id: string, password: string) {
    id in m && m[id].Some? && m[id].value != "" && m[id].value == password
  }

  /**
   * Login against the map built from the directory succeeds exactly when the
   * entered password is non-empty and is the password of the last entry with that ID.
   */
  lemma AcceptsIff(list: seq<Institution>, id: string, password: string)
    ensures Accepts(BuildCredentialMap(list), id, password)
        <==> password != "" && exists i :: LastWithId(list, id, i) && list[i].password == Some(password)
  {
    var m := BuildCredentialMap(list);
    CredentialMapKeys(list, id);
    if id in m {
      var k :| 0 <= k < |list| && list[k].id == id;
      var i := LastIndexFrom(list, id, k);
      CredentialMapLast(list, i);
      forall i' | LastWithId(list, id, i') ensures i' == i { }
    }
  }

  /** Some last entry with ID `id` exists at or after any entry with that ID. */
  lemma {:induction false} LastIndexFrom(list: seq<Institution>, id: string, k: int) returns (i: int)
    requires 0 <= k < |list| && list[k].id == id
    ensures k <= i && LastWithId(list, id, i)
    decreases |list| - k
  {
    if forall j :: k < j < |list| ==> list[j].id != id {
      i := k;
    } else {
      var j :| k < j < |list| && list[j].id == id;
      i := LastIndexFrom(list, id, j);
    }
  }

  /** With an ID listed twice, only the later entry's password opens the session. */
  lemma DuplicateIdLastPasswordWins(a: Institution, b: Institution)
    requires a.id == b.id && a.password == Some("old") && b.password == Some("new")
    ensures !Accepts(BuildCredentialMap([a, b]), a.id, "old")
    ensures Accepts(BuildCredentialMap([a, b]), a.id, "new")
    ensures DisplayName([a, b], a.id) == a.name.GetOr("")
  {
    assert LastWithId([a, b], b.id, 1);
    AcceptsIff([a, b], a.id, "old");
    assert FirstWithId([a, b], a.id, 0);
  }

  /** The module-level login state of app.js (lines 5-9) and the two handlers that change it. */
  class SessionManager {
    var institutionList: seq<Institution>
    var credentialMap: CredentialMap
    var institutionID: string
    var institutionName: string
    var session: SessionContext
    /** Text of the `login-error` element. */
    var loginError: string
    /** Whether the dashboard (rather than the login form) is shown. */
    var dashboardVisible: bool

    /**
     * The map is always the one built from the list; while `session` is `{}` no
     * institution is selected and the login form shows; a live session names
     * `institutionID` and the dashboard shows.
     */
    ghost predicate Valid()
      reads this
    {
      && credentialMap == BuildCredentialMap(institutionList)
      && (session.NoSession? ==> institutionID == "" && institutionName == "" && !dashboardVisible)
      && (session.Context? ==> session.institutionID == institutionID && session.loggedIn && dashboardVisible)
    }

    /** The state when the page has loaded and before the credentials document arrives. */
    constructor ()
      ensures Valid()
      ensures institutionList == [] && credentialMap == map[]
      ensures institutionID == "" && institutionName == "" && session == NoSession
      ensures loginError == "" && !dashboardVisible
    {
      institutionList := [];
      credentialMap := map[];
      institutionID := "";
      institutionName := "";
      session := NoSession;
      loginError := "";
      dashboardVisible := false;
    }

    /**
     * The `.then` of the credentials fetch: `data.institutions || []` becomes the
     * list and the map is rebuilt from it; on a failed fetch only an error is logged.
     */
    method OnCredentialsLoaded(response: Fetch<Option<seq<Institution>>>)
      requires Valid()
      modifies this
      ensures Valid()
      ensures response.Received? ==> institutionList == response.body.GetOr([])
      ensures response.Failed? ==> institutionList == old(institutionList)
      ensures institutionID == old(institutionID) && institutionName == old(institutionName)
      ensures session == old(session) && loginError == old(loginError)
      ensures dashboardVisible == old(dashboardVisible)
    {
      if response.Received? {
        institutionList := response.body.GetOr([]);
        credentialMap := BuildCredentialMap(institutionList);
      }
    }

    /**
     * The login form's submit handler. On acceptance the institution becomes the
     * session's and the dashboard is shown; on rejection only the error text is set.
     */
    method Login(selectedID: string, password: string) returns (ok: bool)
      requires Valid()
      modifies this
      ensures Valid()
      ensures ok == Accepts(credentialMap, selectedID, password)
      ensures institutionList == old(institutionList) && credentialMap == old(credentialMap)
      ensures ok ==> && institutionID == selectedID
                     && institutionName == DisplayName(institutionList, selectedID)
                     && session == Context(selectedID, true)
                     && dashboardVisible
                     && loginError == old(loginError)
      ensures !ok ==> && institutionID == old(institutionID)
                      && institutionName == old(institutionName)
                      && session == old(session)
                      && dashboardVisible == old(dashboardVisible)
                      && loginError == INVALID_CREDENTIALS
    {
      ok := Accepts(credentialMap, selectedID, password);
      if ok {
        institutionID := selectedID;
        institutionName := DisplayName(institutionList, institutionID);
        session := Context(institutionID, true);
        dashboardVisible := true;
      } else {
        loginError := INVALID_CREDENTIALS;
      }
    }

    /**
     * The logout button: clears the session unconditionally and shows the login
     * form. On a state that is already logged out it changes nothing, so a second
     * logout is the same as one.
     */
    method Logout()
      requires Valid()
      modifies this
      ensures Valid()
      ensures session == NoSession && institutionID == "" && institutionName == ""
      ensures !dashboardVisible
      ensures institutionList == old(institutionList) && credentialMap == old(credentialMap)
      ensures loginError == old(loginError)
      ensures old(session) == NoSession ==> unchanged(this)
    {
      session := NoSession;
      institutionID := "";
      institutionName := "";
      dashboardVisible := false;
    }
  }
}
