/** The two Redis namespaces the issuer uses: the access-token blacklist and the
    refresh-token allowlist. Each command, and the rotation script, is atomic. */
module RedisStore {
  import opened Basics

  class Redis {
    /** Blacklisted identifiers with the instant their key expires. */
    var blacklist: map<Jti, real>
    /** Identifiers of live refresh tokens. */
    var allowlist: set<Jti>

    constructor ()
      ensures blacklist == map[] && allowlist == {}
    {
      blacklist, allowlist := map[], {};
    }

    method BlacklistJti(jti: Jti, ttl: nat, now: real)
      modifies this`blacklist
      ensures blacklist == old(blacklist)[jti := now + ttl as real]
    {
      blacklist := blacklist[jti := now + ttl as real];
    }

    method Register(jti: Jti)
      modifies this`allowlist
      ensures allowlist == old(allowlist) + {jti}
    {
      allowlist := allowlist + {jti};
    }

    method Revoke(jti: Jti)
      modifies this`allowlist
      ensures allowlist == old(allowlist) - {jti}
    {
      allowlist := allowlist - {jti};
    }

    /** The check-and-swap script: it consumes the old identifier and admits the new one,
        or reports that the old one is gone and changes nothing. */
    method Rotate(oldJti: Jti, newJti: Jti) returns (rotated: bool)
      modifies this`allowlist
      ensures rotated <==> oldJti in old(allowlist)
      ensures allowlist == if rotated then old(allowlist) - {oldJti} + {newJti} else old(allowlist)
    {
      if oldJti !in allowlist {
        return false;
      }
      allowlist := allowlist - {oldJti};
      allowlist := allowlist + {newJti};
      return true;
    }
  }
}
