/** Creating an account (pages/Register.tsx, `handleSubmit`). */
module Register {
  import opened Wrappers
  import opened Types

  datatype RegisterForm = RegisterForm(
    username: string,
    phone: string,
    password: string,
    confirmPassword: string,
    referCode: string)

  /** The form is refused when username, phone or password is empty, then
      when the two passwords differ; otherwise the new user has the entered
      name and phone, empty balances, no tier, no expiry, no PIN, no task
      yet, is neither blocked nor admin, and records the referral code when
      one was entered. `id` is the freshly generated identifier. */
  function Register(f: RegisterForm, id: string, now: int): (r: Result<User, Error>)
    ensures f.username == "" || f.phone == "" || f.password == "" ==> r == Failure(MissingFields)
    ensures f.username != "" && f.phone != "" && f.password != "" && f.password != f.confirmPassword
            ==> r == Failure(PasswordMismatch)
    ensures r.Success? <==> f.username != "" && f.phone != "" && f.password != "" && f.password == f.confirmPassword
    ensures r.Success? ==>
            var u := r.value;
            && u.id == id && u.username == f.username && u.phone == f.phone
            && u.totalBalance == 0 && u.withdrawableBalance == 0
            && u.activeVip.None? && u.vipExpiryDate.None? && u.withdrawPin.None? && u.lastTaskCompletedAt.None?
            && !u.isBlocked && !u.isAdmin
            && (u.referrerId.Some? <==> f.referCode != "")
            && (u.referrerId.Some? ==> u.referrerId.value == f.referCode)
            && u.createdAt == now
  {
    if f.username == "" || f.phone == "" || f.password == "" then Failure(MissingFields)
    else if f.password != f.confirmPassword then Failure(PasswordMismatch)
    else
      Success(User(
        id, f.username, f.phone, "",
        0, 0,
        None, None,
        if f.referCode == "" then None else Some(f.referCode),
        None,
        false, false,
        None,
        now))
  }
}
