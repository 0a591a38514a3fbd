/** The logic of components/user-settings.tsx: when a new name, e-mail
    address or password is sent, what is sent, and the message and flags
    each handler leaves behind. The account calls themselves are
    asynchronous callbacks outside this model: their outcome is a parameter. */
module UserSettings {
  import opened Basics
  import Text

  datatype MessageKind = SuccessMessage | ErrorMessage

  /** The line shown under a settings field. */
  datatype Message = Message(kind: MessageKind, text: string)

  /** What an account update callback reports. */
  datatype UpdateResult = Updated | Rejected(error: Option<string>)

  const UsernameUpdated: string := "昵称已更新"
  const EmailUpdated: string := "邮箱已更新，请查收验证邮件"
  const PasswordUpdated: string := "密码已更新"
  const PasswordTooShort: string := "密码至少需要6个字符"
  const PasswordMismatch: string := "两次输入的密码不一致"
  const UpdateFailed: string := "更新失败"

  /** The message after a callback: the handler's success text, or the
      callback's error, or the generic failure when it gives none. */
  function ResultMessage(result: UpdateResult, successText: string): (m: Message)
    ensures m.kind == SuccessMessage <==> result.Updated?
    ensures result.Updated? ==> m.text == successText
    ensures result.Rejected? && result.error.Some? && result.error.value != "" ==> m.text == result.error.value
    ensures result.Rejected? && (result.error.None? || result.error.value == "") ==> m.text == UpdateFailed
  {
    match result
    case Updated => Message(SuccessMessage, successText)
    case Rejected(error) =>
      Message(ErrorMessage, if error.None? || error.value == "" then UpdateFailed else error.value)
  }

  /** The value `handleUpdateUsername` (and likewise `handleUpdateEmail`)
      sends: nothing when the field is blank or equal, untrimmed, to the
      current value; otherwise the trimmed field. */
  function FieldToSend(input: string, current: Option<string>): (r: Option<string>)
    ensures r.None? <==> Text.IsBlank(input) || current == Some(input)
    ensures r.Some? ==> r.value == Text.Trim(input) && r.value != "" && Text.IsTrimmed(r.value)
  {
    if Text.Trim(input) == "" || current == Some(input) then None else Some(Text.Trim(input))
  }

  /** Once a trimmed value is saved, pressing the button again sends nothing. */
  lemma SavedValueNotResent(input: string)
    requires Text.IsTrimmed(input) && !Text.IsBlank(input)
    ensures FieldToSend(input, FieldToSend(input, None)) == None
  {
    Text.TrimTrimmed(input);
  }

  /** The equality test is on the untrimmed field: a value typed with a
      trailing space is sent again after it was saved, although the trimmed
      value sent is the same. */
  lemma PaddedValueResent(name: string)
    requires Text.IsTrimmed(name) && !Text.IsBlank(name)
    ensures var saved := FieldToSend(name + " ", None);
      saved == Some(name) && FieldToSend(name + " ", saved) == Some(name)
  {
    Text.TrimBeforeSpace(name);
    assert name + " " != name by {
      assert |name + " "| != |name|;
    }
  }

  /** `handleUpdatePassword`'s checks, in order: the length first, then the
      confirmation. */
  function PasswordError(password: string, confirmPassword: string): (r: Option<string>)
    ensures r.None? <==> |password| >= 6 && password == confirmPassword
    ensures |password| < 6 ==> r == Some(PasswordTooShort)
    ensures |password| >= 6 && password != confirmPassword ==> r == Some(PasswordMismatch)
  {
    if password == "" || |password| < 6 then Some(PasswordTooShort)
    else if password != confirmPassword then Some(PasswordMismatch)
    else None
  }

  /** The settings page's fields. */
  class SettingsForm {
    var username: string
    var email: string
    var password: string
    var confirmPassword: string
    var isUpdatingUsername: bool
    var isUpdatingEmail: bool
    var isUpdatingPassword: bool
    var usernameMessage: Option<Message>
    var emailMessage: Option<Message>
    var passwordMessage: Option<Message>

    /** The page opened for a user (or for nobody): the name and address
      prefilled, everything else empty. */
    constructor (user: Option<(string, string)>)
      ensures username == (if user.Some? then user.value.0 else "")
      ensures email == (if user.Some? then user.value.1 else "")
      ensures password == "" && confirmPassword == ""
      ensures !isUpdatingUsername && !isUpdatingEmail && !isUpdatingPassword
      ensures usernameMessage.None? && emailMessage.None? && passwordMessage.None?
    {
      username := if user.Some? then user.value.0 else "";
      email := if user.Some? then user.value.1 else "";
      password, confirmPassword := "", "";
      isUpdatingUsername, isUpdatingEmail, isUpdatingPassword := false, false, false;
      usernameMessage, emailMessage, passwordMessage := None, None, None;
    }

    /** `handleUpdateUsername`; `sent` is the argument given to the callback. */
    method UpdateUsername(currentUsername: Option<string>, result: UpdateResult) returns (sent: Option<string>)
      modifies this`isUpdatingUsername, this`usernameMessage
      ensures sent == FieldToSend(old(username), currentUsername)
      ensures sent.None? ==> usernameMessage == old(usernameMessage) && isUpdatingUsername == old(isUpdatingUsername)
      ensures sent.Some? ==> usernameMessage == Some(ResultMessage(result, UsernameUpdated)) && !isUpdatingUsername
    {
      var trimmed := Text.Trim(username);
      if trimmed == "" || currentUsername == Some(username) {
        return None;
      }
      isUpdatingUsername := true;
      usernameMessage := None;
      sent := Some(trimmed);
      usernameMessage := Some(ResultMessage(result, UsernameUpdated));
      isUpdatingUsername := false;
    }

    /** `handleUpdateEmail`; `sent` is the argument given to the callback. */
    method UpdateEmail(currentEmail: Option<string>, result: UpdateResult) returns (sent: Option<string>)
      modifies this`isUpdatingEmail, this`emailMessage
      ensures sent == FieldToSend(old(email), currentEmail)
      ensures sent.None? ==> emailMessage == old(emailMessage) && isUpdatingEmail == old(isUpdatingEmail)
      ensures sent.Some? ==> emailMessage == Some(ResultMessage(result, EmailUpdated)) && !isUpdatingEmail
    {
      var trimmed := Text.Trim(email);
      if trimmed == "" || currentEmail == Some(email) {
        return None;
      }
      isUpdatingEmail := true;
      emailMessage := None;
      sent := Some(trimmed);
      emailMessage := Some(ResultMessage(result, EmailUpdated));
      isUpdatingEmail := false;
    }

    /** `handleUpdatePassword`: a rejected password only sets the error
      message; an accepted one is sent as typed, and a successful update
      clears both password fields. */
    method UpdatePassword(result: UpdateResult) returns (sent: Option<string>)
      modifies this`password, this`confirmPassword, this`isUpdatingPassword, this`passwordMessage
      ensures var error := PasswordError(old(password), old(confirmPassword));
        sent == (if error.Some? then None else Some(old(password))) &&
        (error.Some? ==> passwordMessage == Some(Message(ErrorMessage, error.value)) &&
                         password == old(password) && confirmPassword == old(confirmPassword) &&
                         isUpdatingPassword == old(isUpdatingPassword))
      ensures sent.Some? ==> passwordMessage == Some(ResultMessage(result, PasswordUpdated)) && !isUpdatingPassword
      ensures sent.Some? && result.Updated? ==> password == "" && confirmPassword == ""
      ensures sent.Some? && result.Rejected? ==> password == old(password) && confirmPassword == old(confirmPassword)
    {
      if password == "" || |password| < 6 {
        passwordMessage := Some(Message(ErrorMessage, PasswordTooShort));
        return None;
      }
      if password != confirmPassword {
        passwordMessage := Some(Message(ErrorMessage, PasswordMismatch));
        return None;
      }
      isUpdatingPassword := true;
      passwordMessage := None;
      sent := Some(password);
      passwordMessage := Some(ResultMessage(result, PasswordUpdated));
      if result.Updated? {
        password := "";
        confirmPassword := "";
      }
      isUpdatingPassword := false;
    }
  }
}
