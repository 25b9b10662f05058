/** The password-reset page: it accepts the recovery link's tokens from the
    URL fragment, then checks and submits the new password. */
module ResetPassword {
  import opened Wrappers
  import Seqs
  import Text

  /** A query-string pair, not percent-decoded. */
  datatype Param = Param(name: string, value: string)

  /** One `name=value` piece: the name runs to the first '=', the value is
      the rest; a piece without '=' has an empty value. */
  function ParsePair(piece: string): Param
  {
    var parts := Text.Split(piece, '=');
    Param(parts[0], Text.Join(parts[1..], "="))
  }

  function NonEmpty(piece: string): bool { piece != "" }

  /** `new URLSearchParams(query)`: the non-empty '&'-separated pieces, in order. */
  function ParseParams(query: string): seq<Param>
  {
    Seqs.Map(Seqs.Filter(Text.Split(query, '&'), NonEmpty), ParsePair)
  }

  /** `params.get(name)`: the value of the first pair with that name. */
  function Get(params: seq<Param>, name: string): (r: Option<string>)
    ensures r.None? <==> forall i :: 0 <= i < |params| ==> params[i].name != name
  {
    if params == [] then None
    else if params[0].name == name then Some(params[0].value)
    else
      var r := Get(params[1..], name);
      assert forall i :: 1 <= i < |params| ==> params[i] == params[1..][i - 1];
      r
  }

  /** A found value belongs to the first pair with the name. */
  lemma {:induction false} GetFirst(params: seq<Param>, name: string)
    requires Get(params, name).Some?
    ensures exists i :: 0 <= i < |params| && params[i] == Param(name, Get(params, name).value) &&
                        forall k :: 0 <= k < i ==> params[k].name != name
    decreases |params|
  {
    if params[0].name != name {
      GetFirst(params[1..], name);
      var v := Get(params, name).value;
      var i :| 0 <= i < |params[1..]| && params[1..][i] == Param(name, v) &&
               forall k :: 0 <= k < i ==> params[1..][k].name != name;
      assert params[i + 1] == Param(name, v);
      assert forall k :: 0 <= k < i + 1 ==> params[k].name != name by {
        forall k | 0 <= k < i + 1 ensures params[k].name != name {
          if k > 0 { assert params[k] == params[1..][k - 1]; }
        }
      }
    } else {
      assert params[0] == Param(name, Get(params, name).value);
    }
  }

  function PieceOf(p: Param): string { p.name + "=" + p.value }

  /** The query string of a list of pairs. */
  function Serialize(params: seq<Param>): string
  {
    Text.Join(Seqs.Map(params, PieceOf), "&")
  }

  /** A serialised piece parses back into its pair. */
  lemma ParsePairPiece(p: Param)
    requires '=' !in p.name && '=' !in p.value
    ensures ParsePair(PieceOf(p)) == p
  {
    Text.SplitNoSep(p.name, '=');
    Text.SplitNoSep(p.value, '=');
    Text.SplitConcat(p.name, p.value, '=');
    assert PieceOf(p) == p.name + ['='] + p.value;
  }

  /** Parsing undoes serialising, for names and values free of '&' and '='. */
  lemma {:induction false} ParseSerialize(params: seq<Param>)
    requires forall i :: 0 <= i < |params| ==>
               '=' !in params[i].name && '=' !in params[i].value && '&' !in params[i].name && '&' !in params[i].value
    ensures ParseParams(Serialize(params)) == params
  {
    if params == [] {
      assert Serialize(params) == "";
      assert Text.Split("", '&') == [""];
      return;
    }
    var pieces := Seqs.Map(params, PieceOf);
    forall i | 0 <= i < |pieces| ensures '&' !in pieces[i] && pieces[i] != "" {
      assert pieces[i] == params[i].name + "=" + params[i].value;
      assert pieces[i][|params[i].name|] == '=';
    }
    Text.SplitJoin(pieces, '&');
    Seqs.FilterKeepsAll(pieces, NonEmpty);
    forall i | 0 <= i < |params| ensures ParsePair(pieces[i]) == params[i] {
      ParsePairPiece(params[i]);
    }
  }

  /** `hash.substring(1)`: the fragment without its '#'. */
  function FragmentQuery(hash: string): string
  {
    if |hash| >= 1 then hash[1..] else ""
  }

  datatype SessionRequest = SessionRequest(accessToken: string, refreshToken: string)

  /** The fragment check: the session it asks for, if any, and the error it shows. */
  datatype TokenCheck = TokenCheck(request: Option<SessionRequest>, error: Option<string>)

  const InvalidLink := "Link de recuperação inválido."
  const ExpiredLink := "Link de recuperação inválido ou expirado."

  /** A recovery fragment with an access token asks for a session (with the
      refresh token, or an empty one); `accepts` is the backend's answer. */
  function CheckToken(hash: string, accepts: SessionRequest -> bool): TokenCheck
  {
    var params := ParseParams(FragmentQuery(hash));
    var accessToken := Get(params, "access_token");
    var kind := Get(params, "type");
    if kind == Some("recovery") && accessToken.Some? && accessToken.value != "" then
      var refresh := Get(params, "refresh_token");
      var request := SessionRequest(accessToken.value, if refresh.Some? then refresh.value else "");
      TokenCheck(Some(request), if accepts(request) then None else Some(ExpiredLink))
    else TokenCheck(None, Some(InvalidLink))
  }

  /** A session is requested exactly for a recovery fragment with a
      non-empty access token; the page is usable exactly when that session is
      accepted; otherwise one of the two link errors shows. */
  lemma CheckTokenSpec(hash: string, accepts: SessionRequest -> bool)
    ensures var params := ParseParams(FragmentQuery(hash));
            var check := CheckToken(hash, accepts);
            (check.request.Some? <==>
               Get(params, "type") == Some("recovery") && Get(params, "access_token").Some? &&
               Get(params, "access_token").value != "") &&
            (check.request.Some? ==> check.request.value.accessToken == Get(params, "access_token").value) &&
            (check.error.None? <==> check.request.Some? && accepts(check.request.value)) &&
            (check.error.Some? ==> check.error.value == InvalidLink || check.error.value == ExpiredLink)
  {
  }

  const Mismatch := "As senhas não coincidem."
  const TooShort := "A senha deve ter pelo menos 6 caracteres."
  const UpdateFailed := "Erro ao redefinir senha. Tente novamente."
  const SuccessPath := "/auth/reset-password-success"
  const MinPasswordLength := 6

  /** The form's own checks, the mismatch first. */
  function ValidatePasswords(password: string, confirm: string): Option<string>
  {
    if password != confirm then Some(Mismatch)
    else if |password| < MinPasswordLength then Some(TooShort)
    else None
  }

  /** A password is submitted exactly when both entries agree and it has at
      least six characters; a mismatch is reported even for a short password. */
  lemma ValidatePasswordsSpec(password: string, confirm: string)
    ensures ValidatePasswords(password, confirm).None? <==> password == confirm && |password| >= MinPasswordLength
    ensures password != confirm ==> ValidatePasswords(password, confirm) == Some(Mismatch)
  {
  }

  class ResetPasswordPage {
    var password: string
    var confirmPassword: string
    var isLoading: bool
    var error: Option<string>
    var isValidToken: bool
    /** The passwords sent to the backend, oldest first. */
    var updates: seq<string>
    /** The pages navigated to, oldest first. */
    var navigations: seq<string>

    constructor ()
      ensures password == "" && confirmPassword == "" && !isLoading && error.None? && !isValidToken
      ensures updates == [] && navigations == []
    {
      password := "";
      confirmPassword := "";
      isLoading := false;
      error := None;
      isValidToken := false;
      updates := [];
      navigations := [];
    }

    /** A spinner shows until the link is accepted or rejected. */
    predicate ShowsLoadingView()
      reads this
    {
      !isValidToken && error.None?
    }

    /** The check run on mount. */
    method Mount(hash: string, accepts: SessionRequest -> bool)
      modifies this`isValidToken, this`error
      ensures isValidToken == (old(isValidToken) || CheckToken(hash, accepts).error.None?)
      ensures error == if CheckToken(hash, accepts).error.Some? then CheckToken(hash, accepts).error else old(error)
      ensures !ShowsLoadingView()
    {
      var check := CheckToken(hash, accepts);
      if check.error.None? {
        isValidToken := true;
      } else {
        error := check.error;
      }
    }

    /** Submits the form. `updateError` is the backend's answer: `None` for
        success, or the failure's message (possibly empty). */
    method HandleResetPassword(updateError: Option<string>)
      modifies this`isLoading, this`error, this`updates, this`navigations
      ensures ValidatePasswords(password, confirmPassword).Some? ==>
                error == ValidatePasswords(password, confirmPassword) &&
                updates == old(updates) && navigations == old(navigations) && isLoading == old(isLoading)
      ensures ValidatePasswords(password, confirmPassword).None? ==>
                updates == old(updates) + [password] && !isLoading &&
                (updateError.None? ==> navigations == old(navigations) + [SuccessPath] && error.None?) &&
                (updateError.Some? ==>
                   navigations == old(navigations) &&
                   error == Some(if updateError.value != "" then updateError.value else UpdateFailed))
    {
      error := None;
      if password != confirmPassword {
        error := Some(Mismatch);
        return;
      }
      if |password| < MinPasswordLength {
        error := Some(TooShort);
        return;
      }
      isLoading := true;
      updates := updates + [password];
      if updateError.None? {
        navigations := navigations + [SuccessPath];
      } else {
        error := Some(if updateError.value != "" then updateError.value else UpdateFailed);
      }
      isLoading := false;
    }
  }
}
