/** The rejection texts the user handlers put in the `msg` field of their JSON replies. */
module Messages {

  datatype Msg =
    | NullObject           // checkUser: no user object was bound
    | BlankNameOrPassword  // checkUser, create mode: name or password blank
    | BlankPassword        // checkUser, update mode: password blank
    | BadPasswordLength    // checkUser: trimmed password not 6 to 12 characters
    | NameExists           // checkUser, create mode: name already stored
    | BadId                // checkUser, update mode: id below 1
    | BadCaptcha           // login: captcha mismatch
    | BadCredentials       // login: no user with that name and password
    | BadNewPassword       // update: new password blank or shorter than 6
    | CannotDeleteSelf     // delete: the target is the signed-in user

  /** The literal text the handler returns for each rejection. */
  function Text(m: Msg): string
  {
    match m
    case NullObject => "空对象"
    case BlankNameOrPassword => "用户名/密码不能为空"
    case BlankPassword => "密码不能为空"
    case BadPasswordLength => "密码长度错误"
    case NameExists => "用户名已经存在"
    case BadId => "用户Id非法"
    case BadCaptcha => "验证码错误"
    case BadCredentials => "用户名或密码错误"
    case BadNewPassword => "密码不符合要求"
    case CannotDeleteSelf => "不能删除当前用户!!"
  }

  /** Different rejections read differently, so a client can tell them apart
      by their text alone. */
  lemma TextIsInjective(m: Msg, m': Msg)
    requires Text(m) == Text(m')
    ensures m == m'
  {
  }
}
