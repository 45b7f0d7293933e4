/** The process-wide set of revoked tokens. */
module TokenBlacklistService {
  import opened Wrappers

  class TokenBlacklist {
    var blacklist: set<string>

    constructor ()
      ensures blacklist == {}
    {
      blacklist := {};
    }

    /** `add`: the token is revoked; revoking twice is the same as once. */
    method Add(token: string)
      modifies this
      ensures blacklist == old(blacklist) + {token}
    {
      blacklist := blacklist + {token};
    }

    /** `has`. */
    method Has(token: string) returns (r: bool)
      ensures r <==> token in blacklist
    {
      r := token in blacklist;
    }
  }

  /** The class's static `instance` slot. */
  class Registry {
    var instance: Option<TokenBlacklist>

    constructor ()
      ensures instance.None?
    {
      instance := None;
    }

    /**
     * `new TokenBlacklistService()`: the first construction creates the
     * shared instance with an empty blacklist; every later one returns that
     * same instance.
     */
    method Construct() returns (s: TokenBlacklist)
      modifies this
      ensures old(instance).Some? ==> s == old(instance).value && instance == old(instance)
      ensures old(instance).None? ==> fresh(s) && s.blacklist == {} && instance == Some(s)
    {
      if instance.None? {
        var created := new TokenBlacklist();
        instance := Some(created);
      }
      s := instance.value;
    }
  }
}
