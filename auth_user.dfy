/** The `auth_user` entity: a principal of the user role, with the one-way
    lock flag and the fixed answers it gives as a security principal. */
module AuthUserEntity {
  import opened Common
  import opened Credentials

  class AuthUser {
    var id: Option<int>
    var userUuid: string
    var email: string
    var password: Option<string>
    var loginType: LoginType
    var provider: SocialProvider
    var accountLocked: bool

    /** The builder: each field takes its argument. */
    constructor (id: Option<int>, userUuid: string, email: string, password: Option<string>,
                 loginType: LoginType, provider: SocialProvider, accountLocked: bool)
      ensures Record() == Row(id, userUuid, email, password, loginType, provider, accountLocked)
    {
      this.id := id;
      this.userUuid := userUuid;
      this.email := email;
      this.password := password;
      this.loginType := loginType;
      this.provider := provider;
      this.accountLocked := accountLocked;
    }

    /** The entity the repository hands out for a stored row. */
    constructor Load(row: Row)
      ensures Record() == row
    {
      id := row.id;
      userUuid := row.uuid;
      email := row.email;
      password := row.password;
      loginType := row.loginType;
      provider := row.provider;
      accountLocked := row.locked;
    }

    /** The row this entity is written back as. */
    function Record(): Row
      reads this
    {
      Row(id, userUuid, email, password, loginType, provider, accountLocked)
    }

    /** Sets the flag; no other field may change, and calling it again
        changes nothing more. */
    method LockAccount()
      modifies this`accountLocked
      ensures accountLocked
      ensures Record() == old(Record()).(locked := true)
    {
      accountLocked := true;
    }

    function IsAccountLocked(): (r: bool)
      reads this
      ensures r <==> Record().locked
    {
      accountLocked
    }

    /** The principal is usable exactly when it is not locked. */
    function IsAccountNonLocked(): (r: bool)
      reads this
      ensures r <==> !IsAccountLocked()
    {
      !accountLocked
    }

    /** The principal's name is its email. */
    function GetUsername(): (r: string)
      reads this
      ensures r == Record().email
    {
      email
    }

    function IsAccountNonExpired(): (r: bool)
      ensures r
    {
      true
    }

    function IsCredentialsNonExpired(): (r: bool)
      ensures r
    {
      true
    }

    function IsEnabled(): (r: bool)
      ensures r
    {
      true
    }
  }
}
