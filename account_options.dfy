/** `AccountOptions`, the login page's fixed switches and message. */
module AccountOptions {
  const AllowLocalLogin := true
  const AllowRememberLogin := true
  const ShowLogoutPrompt := false
  const AutomaticRedirectAfterSignOut := true
  const InvalidCredentialsErrorMessage := "登录账号或密码无效"
}
