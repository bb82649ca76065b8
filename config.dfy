/** The platform configuration record: its admin, its treasury, the pause
    switch, and the two-step admin hand-over (propose, accept, cancel). */
module Config {
  import opened Base

  class PlatformConfig {
    var admin: Pubkey
    var treasury: Pubkey
    var paused: bool
    var pendingAdmin: Option<Pubkey>

    /** The treasury is never the default key, and a proposed admin never is. */
    predicate Valid()
      reads this
    {
      && treasury != DEFAULT_PUBKEY
      && (pendingAdmin.Some? ==> pendingAdmin.value != DEFAULT_PUBKEY)
    }

    constructor (admin: Pubkey, treasury: Pubkey)
      ensures this.admin == admin && this.treasury == treasury
      ensures !paused && pendingAdmin == None
    {
      this.admin := admin;
      this.treasury := treasury;
      paused := false;
      pendingAdmin := None;
    }

    /** `initialize_config`: the signer becomes the admin; the treasury must
        not be the default key. */
    static method Initialize(caller: Pubkey, treasury: Pubkey) returns (r: Result<PlatformConfig>)
      ensures r.Err? <==> treasury == DEFAULT_PUBKEY
      ensures r.Err? ==> r.error == InvalidTreasury
      ensures r.Ok? ==> fresh(r.value) && r.value.Valid()
      ensures r.Ok? ==> r.value.admin == caller && r.value.treasury == treasury
      ensures r.Ok? ==> !r.value.paused && r.value.pendingAdmin == None
    {
      if treasury == DEFAULT_PUBKEY {
        return Err(InvalidTreasury);
      }
      var config := new PlatformConfig(caller, treasury);
      return Ok(config);
    }

    /** `update_config`: admin only (checked before the body); a new treasury
        must not be the default key, and a failed call changes nothing, not
        even the pause switch passed beside the rejected treasury. */
    method UpdateConfig(caller: Pubkey, newTreasury: Option<Pubkey>, newPaused: Option<bool>)
      returns (r: Outcome)
      modifies this
      ensures caller != old(admin) ==> r == Fail(Unauthorized)
      ensures caller == old(admin) && newTreasury == Some(DEFAULT_PUBKEY) ==> r == Fail(InvalidTreasury)
      ensures r.Pass? <==> caller == old(admin) && newTreasury != Some(DEFAULT_PUBKEY)
      ensures r.Fail? ==> unchanged(this)
      ensures r.Pass? ==> treasury == (if newTreasury.Some? then newTreasury.value else old(treasury))
      ensures r.Pass? ==> paused == (if newPaused.Some? then newPaused.value else old(paused))
      ensures admin == old(admin) && pendingAdmin == old(pendingAdmin)
      ensures old(Valid()) ==> Valid()
    {
      if caller != admin {
        return Fail(Unauthorized);
      }
      if newTreasury.Some? {
        if newTreasury.value == DEFAULT_PUBKEY {
          return Fail(InvalidTreasury);
        }
        treasury := newTreasury.value;
      }
      if newPaused.Some? {
        paused := newPaused.value;
      }
      return Pass;
    }

    /** `propose_admin`: admin only; the proposed key must not be the default
        key; the admin itself does not change yet. */
    method ProposeAdmin(caller: Pubkey, newAdmin: Pubkey) returns (r: Outcome)
      modifies this`pendingAdmin
      ensures caller != admin ==> r == Fail(Unauthorized)
      ensures caller == admin && newAdmin == DEFAULT_PUBKEY ==> r == Fail(InvalidAdmin)
      ensures r.Pass? <==> caller == admin && newAdmin != DEFAULT_PUBKEY
      ensures r.Pass? ==> pendingAdmin == Some(newAdmin)
      ensures r.Fail? ==> pendingAdmin == old(pendingAdmin)
      ensures old(Valid()) ==> Valid()
    {
      if caller != admin {
        return Fail(Unauthorized);
      }
      if newAdmin == DEFAULT_PUBKEY {
        return Fail(InvalidAdmin);
      }
      pendingAdmin := Some(newAdmin);
      return Pass;
    }

    /** `accept_admin`: only the pending admin may accept; on success the
        pending key becomes the admin and nothing is pending any more. */
    method AcceptAdmin(caller: Pubkey) returns (r: Outcome)
      modifies this`admin, this`pendingAdmin
      ensures old(pendingAdmin).None? ==> r == Fail(NoPendingAdmin)
      ensures old(pendingAdmin).Some? && caller != old(pendingAdmin).value ==> r == Fail(Unauthorized)
      ensures r.Pass? <==> old(pendingAdmin) == Some(caller)
      ensures r.Pass? ==> admin == caller && pendingAdmin == None
      ensures r.Fail? ==> admin == old(admin) && pendingAdmin == old(pendingAdmin)
      ensures old(Valid()) ==> Valid()
    {
      if pendingAdmin.None? {
        return Fail(NoPendingAdmin);
      }
      var pending := pendingAdmin.value;
      if caller != pending {
        return Fail(Unauthorized);
      }
      admin := pending;
      pendingAdmin := None;
      return Pass;
    }

    /** `cancel_admin_transfer`: admin only (checked before the body), and
        there must be a pending transfer; the admin never changes. */
    method CancelAdminTransfer(caller: Pubkey) returns (r: Outcome)
      modifies this`pendingAdmin
      ensures caller != admin ==> r == Fail(Unauthorized)
      ensures caller == admin && old(pendingAdmin).None? ==> r == Fail(NoPendingAdmin)
      ensures r.Pass? <==> caller == admin && old(pendingAdmin).Some?
      ensures r.Pass? ==> pendingAdmin == None
      ensures r.Fail? ==> pendingAdmin == old(pendingAdmin)
      ensures old(Valid()) ==> Valid()
    {
      if caller != admin {
        return Fail(Unauthorized);
      }
      if pendingAdmin.None? {
        return Fail(NoPendingAdmin);
      }
      pendingAdmin := None;
      return Pass;
    }
  }

  /** The hand-over end to end: the admin proposes a new key, the admin is
      unchanged until the new key accepts, after which the new key is the
      admin and nothing is pending; a second accept finds no proposal, and
      the old admin can no longer propose. */
  method HandOver(config: PlatformConfig, newAdmin: Pubkey)
    returns (proposed: Outcome, accepted: Outcome, again: Outcome, retry: Outcome)
    requires newAdmin != DEFAULT_PUBKEY && newAdmin != config.admin
    modifies config
    ensures proposed == Pass && accepted == Pass
    ensures again == Fail(NoPendingAdmin) && retry == Fail(Unauthorized)
    ensures config.admin == newAdmin && config.pendingAdmin == None
  {
    var oldAdmin := config.admin;
    proposed := config.ProposeAdmin(oldAdmin, newAdmin);
    assert config.admin == oldAdmin;
    accepted := config.AcceptAdmin(newAdmin);
    again := config.AcceptAdmin(newAdmin);
    retry := config.ProposeAdmin(oldAdmin, newAdmin);
  }
}
