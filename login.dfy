/**
 * `perform_login` (main.py): take the first form of the login page, fill its
 * named inputs (username into text and e-mail inputs, password into password
 * inputs, the input's own value into every other one), post the data to the
 * form's action and judge the response.
 */
module Login {
  import opened Wrappers
  import opened Text
  import opened Html

  const LoginFormNotFound := "Login form not found."
  const LoginRejected := "Login failed. Please check your credentials."
  /** What Python raises for `response.urljoin`: `requests.Response` has no such method. */
  const NoUrljoin := "'Response' object has no attribute 'urljoin'"

  /** The value posted for one named input. */
  function FieldValue(input: Element, username: string, password: string): string
  {
    var inputType := Get(input.attrs, "type");
    if inputType == Some("text") || inputType == Some("email") then username
    else if inputType == Some("password") then password
    else GetOr(input.attrs, "value", "")
  }

  /** The input at `i` has the non-empty name `name`. */
  predicate NamedAt(inputs: seq<Element>, i: int, name: string)
    requires 0 <= i < |inputs|
  {
    HasNonEmpty(inputs[i].attrs, "name") && inputs[i].attrs["name"] == name
  }

  /** `login_data` after the inputs have been visited in order: later inputs
      overwrite earlier ones of the same name. */
  function Fill(inputs: seq<Element>, username: string, password: string): map<string, string>
    decreases |inputs|
  {
    if inputs == [] then map[]
    else
      var before := Fill(inputs[..|inputs| - 1], username, password);
      var last := inputs[|inputs| - 1];
      if HasNonEmpty(last.attrs, "name") then before[last.attrs["name"] := FieldValue(last, username, password)]
      else before
  }

  /** The loop of `perform_login` that builds `login_data`. */
  method LoginData(inputs: seq<Element>, username: string, password: string) returns (data: map<string, string>)
    ensures data == Fill(inputs, username, password)
  {
    data := map[];
    for i := 0 to |inputs|
      invariant data == Fill(inputs[..i], username, password)
    {
      var field := inputs[i];
      var name := Get(field.attrs, "name");
      var inputType := Get(field.attrs, "type");
      if name.Some? && name.value != "" {
        if inputType == Some("text") || inputType == Some("email") {
          data := data[name.value := username];
        } else if inputType == Some("password") {
          data := data[name.value := password];
        } else {
          data := data[name.value := GetOr(field.attrs, "value", "")];
        }
      }
      assert inputs[..i + 1][..i] == inputs[..i];
    }
    assert inputs[..|inputs|] == inputs;
  }

  /**
   * The posted data holds a key exactly for each non-empty input name, and the
   * value under a name is the one its last input of that name calls for.
   */
  lemma {:induction false} FillCharacterised(inputs: seq<Element>, username: string, password: string)
    ensures forall name :: name in Fill(inputs, username, password)
              <==> exists i :: 0 <= i < |inputs| && NamedAt(inputs, i, name)
    ensures forall i :: 0 <= i < |inputs| && HasNonEmpty(inputs[i].attrs, "name")
              && (forall j :: i < j < |inputs| ==> !NamedAt(inputs, j, inputs[i].attrs["name"]))
              ==> && inputs[i].attrs["name"] in Fill(inputs, username, password)
                  && Fill(inputs, username, password)[inputs[i].attrs["name"]] == FieldValue(inputs[i], username, password)
    decreases |inputs|
  {
    if inputs != [] {
      var n := |inputs|;
      var init := inputs[..n - 1];
      var last := inputs[n - 1];
      var before := Fill(init, username, password);
      var after := Fill(inputs, username, password);
      FillCharacterised(init, username, password);
      assert forall i :: 0 <= i < n - 1 ==> init[i] == inputs[i];
      forall name
        ensures name in after <==> exists i :: 0 <= i < n && NamedAt(inputs, i, name)
      {
        if NamedAt(inputs, n - 1, name) {
          assert name in after;
        } else {
          assert name in after <==> name in before;
          if name in before {
            var i :| 0 <= i < n - 1 && NamedAt(init, i, name);
            assert NamedAt(inputs, i, name);
          }
          if exists i :: 0 <= i < n && NamedAt(inputs, i, name) {
            var i :| 0 <= i < n && NamedAt(inputs, i, name);
            assert NamedAt(init, i, name);
          }
        }
      }
      forall i | 0 <= i < n && HasNonEmpty(inputs[i].attrs, "name")
          && (forall j :: i < j < n ==> !NamedAt(inputs, j, inputs[i].attrs["name"]))
        ensures inputs[i].attrs["name"] in after
        ensures after[inputs[i].attrs["name"]] == FieldValue(inputs[i], username, password)
      {
        var name := inputs[i].attrs["name"];
        if i < n - 1 {
          assert !NamedAt(inputs, n - 1, name);
          assert forall j :: i < j < n - 1 ==> !NamedAt(init, j, name) by {
            forall j | i < j < n - 1 ensures !NamedAt(init, j, name) {
              assert !NamedAt(inputs, j, name);
            }
          }
          assert init[i] == inputs[i];
        }
      }
    }
  }

  /** The empty name is never posted. */
  lemma EmptyNameNeverPosted(inputs: seq<Element>, username: string, password: string)
    ensures "" !in Fill(inputs, username, password)
  {
    FillCharacterised(inputs, username, password);
  }

  /** The post URL as written: a non-empty `action` sends the code into
      `response.urljoin`, which raises `AttributeError`. */
  function LoginUrlAsWritten(form: Form, url: string): Result<string>
  {
    if HasNonEmpty(form.attrs, "action") then Err(NoUrljoin) else Ok(url)
  }

  /** The post URL as intended: the form's action resolved against the page URL
      (`resolve` stands for `urljoin`), or the page URL when there is no action. */
  function LoginUrl(form: Form, url: string, resolve: (string, string) -> string): string
  {
    if HasNonEmpty(form.attrs, "action") then resolve(url, form.attrs["action"]) else url
  }

  /** The intended post URL agrees with the written one wherever the latter does not
      raise, and it is defined for every form. */
  lemma LoginUrlExtendsAsWritten(form: Form, url: string, resolve: (string, string) -> string)
    ensures LoginUrlAsWritten(form, url).Ok? ==> LoginUrl(form, url, resolve) == LoginUrlAsWritten(form, url).value
    ensures LoginUrlAsWritten(form, url).Err? <==> HasNonEmpty(form.attrs, "action")
    ensures HasNonEmpty(form.attrs, "action") ==> LoginUrl(form, url, resolve) == resolve(url, form.attrs["action"])
  {
  }

  /** The response to the login post: where it ended up and its body. */
  datatype Response = Response(url: string, text: string)

  datatype LoginResult = LoggedIn | NotLoggedIn(message: string)

  /** The success test: the post came back to the page URL, or the body mentions "logout". */
  predicate LoginConfirmed(url: string, response: Response)
  {
    response.url == url || Contains(Lower(response.text), "logout")
  }

  /**
   * `perform_login` given the login page's forms (`Err` when the page request
   * raised), the post oracle and how the post URL is chosen.
   */
  function PerformLoginWith(url: string, username: string, password: string, page: Result<seq<Form>>,
                            post: (string, map<string, string>) -> Result<Response>,
                            loginUrl: Form -> Result<string>): LoginResult
  {
    match page
    case Err(message) => NotLoggedIn("Login request error: " + message)
    case Ok(forms) =>
      if forms == [] then NotLoggedIn(LoginFormNotFound)
      else
        var form := forms[0];
        var data := Fill(form.inputs, username, password);
        match loginUrl(form)
        case Err(message) => NotLoggedIn("Login error: " + message)
        case Ok(target) =>
          match post(target, data)
          case Err(message) => NotLoggedIn("Login request error: " + message)
          case Ok(response) =>
            if LoginConfirmed(url, response) then LoggedIn else NotLoggedIn(LoginRejected)
  }

  /** `perform_login` as written. */
  function PerformLoginAsWritten(url: string, username: string, password: string, page: Result<seq<Form>>,
                                 post: (string, map<string, string>) -> Result<Response>): LoginResult
  {
    PerformLoginWith(url, username, password, page, post, form => LoginUrlAsWritten(form, url))
  }

  /** `perform_login` with the post URL resolved as intended. */
  function PerformLogin(url: string, username: string, password: string, page: Result<seq<Form>>,
                        post: (string, map<string, string>) -> Result<Response>,
                        resolve: (string, string) -> string): LoginResult
  {
    PerformLoginWith(url, username, password, page, post, form => Ok(LoginUrl(form, url, resolve)))
  }

  /** As written, a login page whose first form has an action never logs in,
      whatever the server would answer. */
  lemma AsWrittenFailsWithAction(url: string, username: string, password: string, forms: seq<Form>,
                                 post: (string, map<string, string>) -> Result<Response>)
    requires forms != [] && HasNonEmpty(forms[0].attrs, "action")
    ensures PerformLoginAsWritten(url, username, password, Ok(forms), post) == NotLoggedIn("Login error: " + NoUrljoin)
  {
  }

  /** The concrete case: a form posting to `/session` and a server that accepts it. */
  lemma AsWrittenRejectsWorkingLogin()
    ensures var form := Form(map["action" := "/session"], []);
      var post := (target: string, data: map<string, string>) => Ok(Response("https://example.org/", ""));
      && PerformLoginAsWritten("https://example.org/", "u", "p", Ok([form]), post) != LoggedIn
      && PerformLogin("https://example.org/", "u", "p", Ok([form]), post, (base: string, ref: string) => base + ref) == LoggedIn
  {
    var form := Form(map["action" := "/session"], []);
    assert HasNonEmpty(form.attrs, "action");
  }

  /**
   * Login succeeds exactly when the page has a form, the post of its filled
   * data to the resolved URL returns, and the response passes the success test.
   */
  lemma PerformLoginSucceedsIff(url: string, username: string, password: string, page: Result<seq<Form>>,
                                post: (string, map<string, string>) -> Result<Response>,
                                resolve: (string, string) -> string)
    ensures PerformLogin(url, username, password, page, post, resolve) == LoggedIn <==>
      && page.Ok? && page.value != []
      && var form := page.value[0];
         var r := post(LoginUrl(form, url, resolve), Fill(form.inputs, username, password));
         r.Ok? && LoginConfirmed(url, r.value)
  {
  }

  /** Without an action the written and the intended login behave alike. */
  lemma AsWrittenAgreesWithoutAction(url: string, username: string, password: string, forms: seq<Form>,
                                     post: (string, map<string, string>) -> Result<Response>,
                                     resolve: (string, string) -> string)
    requires forms != [] && !HasNonEmpty(forms[0].attrs, "action")
    ensures PerformLoginAsWritten(url, username, password, Ok(forms), post)
         == PerformLogin(url, username, password, Ok(forms), post, resolve)
  {
  }
}
