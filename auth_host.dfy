/** The `auth_host` entity: a principal of the host role. Its row is always
    a normal (password) login without a social provider. */
module AuthHostEntity {
  import opened Common
  import opened Credentials

  class AuthHost {
    var id: Option<int>
    var hostUuid: string
    var email: string
    var password: Option<string>
    var accountLocked: bool

    /** The builder: each field takes its argument. */
    constructor (id: Option<int>, hostUuid: string, email: string, password: Option<string>, accountLocked: bool)
      ensures Record() == Row(id, hostUuid, email, password, Normal, NoProvider, accountLocked)
    {
      this.id := id;
      this.hostUuid := hostUuid;
      this.email := email;
      this.password := password;
      this.accountLocked := accountLocked;
    }

    /** The entity the repository hands out for a stored row. */
    constructor Load(row: Row)
      ensures Record() == row.(loginType := Normal, provider := NoProvider)
    {
      id := row.id;
      hostUuid := row.uuid;
      email := row.email;
      password := row.password;
      accountLocked := row.locked;
    }

    /** The row this entity is written back as. */
    function Record(): Row
      reads this
    {
      Row(id, hostUuid, email, password, Normal, NoProvider, accountLocked)
    }

    /** Sets the flag; no other field may change. */
    method LockAccount()
      modifies this`accountLocked
      ensures accountLocked
      ensures Record() == old(Record()).(locked := true)
    {
      accountLocked := true;
    }

    /** The generated getter of the flag. */
    function IsAccountLocked(): (r: bool)
      reads this
      ensures r <==> Record().locked
    {
      accountLocked
    }

    function IsAccountNonLocked(): (r: bool)
      reads this
      ensures r <==> !IsAccountLocked()
    {
      !accountLocked
    }

    function GetUsername(): (r: string)
      reads this
      ensures r == Record().email
    {
      email
    }

    function IsAccountNonExpired(): (r: bool)
      ensures r
    {
      true
    }

    function IsCredentialsNonExpired(): (r: bool)
      ensures r
    {
      true
    }

    function IsEnabled(): (r: bool)
      ensures r
    {
      true
    }
  }
}
