/**
 * `FormSubmitter` (modules/form_submission.py): find the login forms of a
 * page, describe each one (where it posts, how, and its named inputs), put
 * the credentials into a descriptor and build the request for it, and judge
 * from a response body whether the login worked.
 */
module FormSubmission {
  import opened Wrappers
  import opened Text
  import opened Html

  /** The lower-cased input names that mark a username field. */
  predicate UsernameName(name: string)
  {
    name == "username" || name == "email" || name == "login"
  }

  /** `any(i.get('name', '').lower() in ['username', 'email', 'login'] for i in inputs)`. */
  predicate HasUsername(inputs: seq<Element>)
  {
    exists k :: 0 <= k < |inputs| && UsernameName(Lower(GetOr(inputs[k].attrs, "name", "")))
  }

  /** `any(i.get('type') == 'password' for i in inputs)`. */
  predicate HasPassword(inputs: seq<Element>)
  {
    exists k :: 0 <= k < |inputs| && Get(inputs[k].attrs, "type") == Some("password")
  }

  predicate IsLoginForm(form: Form)
  {
    HasUsername(form.inputs) && HasPassword(form.inputs)
  }

  /** The inputs of a descriptor: a value, or `None` once a missing credential was put in. */
  type Inputs = map<string, Option<string>>

  /** `{i.get('name'): i.get('value', '') for i in inputs if i.get('name')}`:
      later inputs of the same name override earlier ones. */
  function InputMap(inputs: seq<Element>): Inputs
    decreases |inputs|
  {
    if inputs == [] then map[]
    else
      var before := InputMap(inputs[..|inputs| - 1]);
      var last := inputs[|inputs| - 1];
      if HasNonEmpty(last.attrs, "name") then before[last.attrs["name"] := Some(GetOr(last.attrs, "value", ""))]
      else before
  }

  /** The input at `i` has the non-empty name `name`. */
  predicate NamedAt(inputs: seq<Element>, i: int, name: string)
    requires 0 <= i < |inputs|
  {
    HasNonEmpty(inputs[i].attrs, "name") && inputs[i].attrs["name"] == name
  }

  /** The input map holds a key exactly for each non-empty input name. */
  lemma {:induction false} InputMapKeys(inputs: seq<Element>)
    ensures forall name :: name in InputMap(inputs) <==> exists i :: 0 <= i < |inputs| && NamedAt(inputs, i, name)
    decreases |inputs|
  {
    if inputs != [] {
      var n := |inputs|;
      var init := inputs[..n - 1];
      InputMapKeys(init);
      forall name
        ensures name in InputMap(inputs) <==> exists i :: 0 <= i < n && NamedAt(inputs, i, name)
      {
        if NamedAt(inputs, n - 1, name) {
          assert name in InputMap(inputs);
        } else {
          assert name in InputMap(inputs) <==> name in InputMap(init);
          if name in InputMap(init) {
            var i :| 0 <= i < n - 1 && NamedAt(init, i, name);
            assert init[i] == inputs[i];
            assert NamedAt(inputs, i, name);
          }
          if exists i :: 0 <= i < n && NamedAt(inputs, i, name) {
            var i :| 0 <= i < n && NamedAt(inputs, i, name);
            assert init[i] == inputs[i];
            assert NamedAt(init, i, name);
          }
        }
      }
    }
  }

  /** The value under a name is the `value` (or '') of the last input of that name. */
  lemma {:induction false} InputMapValues(inputs: seq<Element>, i: int)
    requires 0 <= i < |inputs| && HasNonEmpty(inputs[i].attrs, "name")
    requires forall j :: i < j < |inputs| ==> !NamedAt(inputs, j, inputs[i].attrs["name"])
    ensures inputs[i].attrs["name"] in InputMap(inputs)
    ensures InputMap(inputs)[inputs[i].attrs["name"]] == Some(GetOr(inputs[i].attrs, "value", ""))
    decreases |inputs|
  {
    var n := |inputs|;
    if i < n - 1 {
      var init := inputs[..n - 1];
      var name := inputs[i].attrs["name"];
      assert !NamedAt(inputs, n - 1, name);
      assert init[i] == inputs[i];
      forall j | i < j < n - 1
        ensures !NamedAt(init, j, name)
      {
        assert init[j] == inputs[j];
        assert !NamedAt(inputs, j, name);
      }
      InputMapValues(init, i);
    }
  }

  /** A login form as `detect_login_form` reports it. */
  datatype LoginForm = LoginForm(action: string, httpMethod: string, inputs: Inputs)

  /** The descriptor of a form found on the page at `url`; `resolve` stands for `urljoin`. */
  function Descriptor(url: string, form: Form, resolve: (string, string) -> string): (d: LoginForm)
    ensures d.action == resolve(url, GetOr(form.attrs, "action", ""))
    ensures "method" !in form.attrs ==> d.httpMethod == "GET"
    ensures "method" in form.attrs ==> d.httpMethod == Upper(form.attrs["method"])
    ensures d.inputs == InputMap(form.inputs)
  {
    assert Upper("get") == "GET";
    LoginForm(resolve(url, GetOr(form.attrs, "action", "")), Upper(GetOr(form.attrs, "method", "get")), InputMap(form.inputs))
  }

  /** The descriptors of the forms among `forms` that `qualifies` accepts, in
      document order; `detect_login_form` reports those `IsLoginForm` accepts.
      The lemmas below hold for any `qualifies`. */
  function Reported(url: string, forms: seq<Form>, resolve: (string, string) -> string,
                    qualifies: Form -> bool): seq<LoginForm>
    decreases |forms|
  {
    if forms == [] then []
    else
      var before := Reported(url, forms[..|forms| - 1], resolve, qualifies);
      var last := forms[|forms| - 1];
      if qualifies(last) then before + [Descriptor(url, last, resolve)] else before
  }

  /** The positions of the accepted forms among `forms`, in increasing order. */
  function Positions(forms: seq<Form>, qualifies: Form -> bool): seq<int>
    decreases |forms|
  {
    if forms == [] then []
    else
      var before := Positions(forms[..|forms| - 1], qualifies);
      if qualifies(forms[|forms| - 1]) then before + [|forms| - 1] else before
  }

  /**
   * The positions are strictly increasing, each one holds an accepted form,
   * and every accepted form's position is among them.
   */
  lemma {:induction false} PositionsExact(forms: seq<Form>, qualifies: Form -> bool)
    ensures var p := Positions(forms, qualifies);
      && (forall j :: 0 <= j < |p| ==> 0 <= p[j] < |forms| && qualifies(forms[p[j]]))
      && (forall j, k :: 0 <= j < k < |p| ==> p[j] < p[k])
      && (forall i :: 0 <= i < |forms| && qualifies(forms[i]) ==> i in p)
    decreases |forms|
  {
    if forms != [] {
      var n := |forms|;
      var init := forms[..n - 1];
      PositionsExact(init, qualifies);
      assert forall i :: 0 <= i < n - 1 ==> init[i] == forms[i];
      var before := Positions(init, qualifies);
      if qualifies(forms[n - 1]) {
        var p := before + [n - 1];
        assert Positions(forms, qualifies) == p;
        assert forall j :: 0 <= j < |before| ==> p[j] == before[j];
        assert p[|before|] == n - 1;
        forall i | 0 <= i < n && qualifies(forms[i])
          ensures i in p
        {
          if i < n - 1 {
            assert qualifies(init[i]);
            assert i in before;
          }
        }
      } else {
        assert Positions(forms, qualifies) == before;
        forall i | 0 <= i < n && qualifies(forms[i])
          ensures i in before
        {
          assert i < n - 1;
          assert qualifies(init[i]);
        }
      }
    }
  }

  /** The reported descriptors are those of the forms at `Positions`, in that order. */
  lemma {:induction false} ReportedAtPositions(url: string, forms: seq<Form>, resolve: (string, string) -> string,
                                               qualifies: Form -> bool)
    ensures var p := Positions(forms, qualifies);
      var r := Reported(url, forms, resolve, qualifies);
      && |r| == |p|
      && forall j :: 0 <= j < |p| ==> 0 <= p[j] < |forms| && r[j] == Descriptor(url, forms[p[j]], resolve)
    decreases |forms|
  {
    if forms != [] {
      var n := |forms|;
      var init := forms[..n - 1];
      ReportedAtPositions(url, init, resolve, qualifies);
      assert forall i :: 0 <= i < n - 1 ==> init[i] == forms[i];
    }
  }

  /** A form is reported exactly when it is accepted: none is dropped, none added. */
  lemma ReportedIff(url: string, forms: seq<Form>, resolve: (string, string) -> string, qualifies: Form -> bool, i: int)
    requires 0 <= i < |forms|
    ensures qualifies(forms[i]) ==> Descriptor(url, forms[i], resolve) in Reported(url, forms, resolve, qualifies)
    ensures forall d :: d in Reported(url, forms, resolve, qualifies) ==>
              exists k :: 0 <= k < |forms| && qualifies(forms[k]) && d == Descriptor(url, forms[k], resolve)
  {
    PositionsExact(forms, qualifies);
    ReportedAtPositions(url, forms, resolve, qualifies);
    var p := Positions(forms, qualifies);
    var r := Reported(url, forms, resolve, qualifies);
    if qualifies(forms[i]) {
      var j :| 0 <= j < |p| && p[j] == i;
      assert r[j] == Descriptor(url, forms[i], resolve);
    }
    forall d | d in r
      ensures exists k :: 0 <= k < |forms| && qualifies(forms[k]) && d == Descriptor(url, forms[k], resolve)
    {
      var j :| 0 <= j < |r| && r[j] == d;
      assert qualifies(forms[p[j]]);
    }
  }

  /** `detect_login_form` on the forms the page request found. */
  method DetectLoginForm(url: string, forms: seq<Form>, resolve: (string, string) -> string)
    returns (loginForms: seq<LoginForm>)
    ensures loginForms == Reported(url, forms, resolve, IsLoginForm)
  {
    loginForms := [];
    for i := 0 to |forms|
      invariant loginForms == Reported(url, forms[..i], resolve, IsLoginForm)
    {
      var form := forms[i];
      var isLogin := IsLoginForm(form);
      if isLogin {
        loginForms := loginForms + [Descriptor(url, form, resolve)];
      }
      assert forms[..i + 1][..i] == forms[..i];
    }
    assert forms[..|forms|] == forms;
  }

  /** `form_data['inputs'].update({'username': ..., 'password': ...})`; a missing
      credential (`credentials.get` gives `None`) is stored as `None`. */
  function WithCredentials(inputs: Inputs, credentials: map<string, string>): (r: Inputs)
    ensures r.Keys == inputs.Keys + {"username", "password"}
    ensures r["username"] == Get(credentials, "username") && r["password"] == Get(credentials, "password")
    ensures forall k :: k in inputs && k != "username" && k != "password" ==> r[k] == inputs[k]
  {
    inputs["username" := Get(credentials, "username")]["password" := Get(credentials, "password")]
  }

  /** The request `submit_login_form` sends. */
  datatype Request =
    | PostRequest(url: string, data: Inputs, headers: map<string, string>)
    | GetRequest(url: string, params: Inputs)

  /** POST for the method "POST" (with the action as `Referer`), GET otherwise. */
  function Dispatch(action: string, httpMethod: string, inputs: Inputs): Request
  {
    if httpMethod == "POST" then PostRequest(action, inputs, map["Referer" := action]) else GetRequest(action, inputs)
  }

  /** The request is a POST exactly for the method "POST"; either way it goes to
      the action and carries the inputs. */
  lemma DispatchByMethod(action: string, httpMethod: string, inputs: Inputs)
    ensures var r := Dispatch(action, httpMethod, inputs);
      && (r.PostRequest? <==> httpMethod == "POST")
      && r.url == action
      && (r.PostRequest? ==> r.data == inputs && r.headers == map["Referer" := action])
      && (r.GetRequest? ==> r.params == inputs)
  {
  }

  /** A descriptor handed to `submit_login_form`, whose `inputs` it updates in place. */
  class FormData {
    var action: string
    var httpMethod: string
    var inputs: Inputs

    constructor (form: LoginForm)
      ensures action == form.action && httpMethod == form.httpMethod && inputs == form.inputs
    {
      action := form.action;
      httpMethod := form.httpMethod;
      inputs := form.inputs;
    }

    /** `submit_login_form`: put the credentials in and build the request. */
    method SubmitLoginForm(credentials: map<string, string>) returns (request: Request)
      modifies this
      ensures inputs == WithCredentials(old(inputs), credentials)
      ensures action == old(action) && httpMethod == old(httpMethod)
      ensures request == Dispatch(action, httpMethod, inputs)
    {
      inputs := inputs["username" := Get(credentials, "username")]["password" := Get(credentials, "password")];
      if httpMethod == "POST" {
        request := PostRequest(action, inputs, map["Referer" := action]);
      } else {
        request := GetRequest(action, inputs);
      }
    }
  }

  /** Submitting twice with the same credentials gives the same inputs as once. */
  lemma WithCredentialsIdempotent(inputs: Inputs, credentials: map<string, string>)
    ensures WithCredentials(WithCredentials(inputs, credentials), credentials) == WithCredentials(inputs, credentials)
  {
  }

  /** `is_logged_in`: the lower-cased body mentions "logout" or "welcome". */
  predicate IsLoggedIn(text: string)
  {
    Contains(Lower(text), "logout") || Contains(Lower(text), "welcome")
  }

  lemma LowerUpperChar(c: char)
    ensures LowerChar(UpperChar(c)) == LowerChar(c)
  {
  }

  /** The heuristic ignores case: an upper-cased body is judged the same. */
  lemma IsLoggedInIgnoresCase(text: string)
    ensures IsLoggedIn(Upper(text)) == IsLoggedIn(text)
  {
    forall i | 0 <= i < |text|
      ensures Lower(Upper(text))[i] == Lower(text)[i]
    {
      LowerUpperChar(text[i]);
    }
    assert Lower(Upper(text)) == Lower(text);
  }

  /** More text around a body that is judged logged in keeps it so. */
  lemma IsLoggedInSurvivesExtension(a: string, text: string, b: string)
    requires IsLoggedIn(text)
    ensures IsLoggedIn(a + text + b)
  {
    if Contains(Lower(text), "logout") {
      LowerContainsExtends(a, text, b, "logout");
    } else {
      LowerContainsExtends(a, text, b, "welcome");
    }
  }

  lemma LowerContainsExtends(a: string, text: string, b: string, t: string)
    requires Contains(Lower(text), t)
    ensures Contains(Lower(a + text + b), t)
  {
    var s := a + text + b;
    var i :| 0 <= i <= |Lower(text)| && OccursAt(Lower(text), t, i);
    assert s[|a|..|a| + |text|] == text;
    LowerSlice(s, |a|, |a| + |text|);
    assert Lower(s)[|a|..|a| + |text|] == Lower(text);
    assert Lower(text)[i..i + |t|] == t;
    assert Lower(s)[|a|..|a| + |text|][i..i + |t|] == Lower(s)[|a| + i..|a| + i + |t|];
    assert OccursAt(Lower(s), t, |a| + i);
  }
}
