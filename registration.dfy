/** Sign-up: create the account with the identity provider, then write the user's profile
    with the counters its job level gives. */
module Registration {
  import opened Records
  import opened JobLevels
  import LedgerSpec
  import opened LedgerStore

  datatype Credentials = Credentials(email: string, password: string)

  /** How a sign-up ends: refused before anything is created, an account created but the
      profile not written (unknown job level), or account and profile both created. */
  datatype SignUpResult = Incomplete | AccountOnly(uid: nat) | Registered(uid: nat)

  /** The identity provider's accounts (a user id is an account's position) and the
      profiles stored under those ids. */
  class Directory {
    var accounts: seq<Credentials>
    var profiles: map<nat, Ledger>

    ghost predicate Valid()
      reads this
    {
      forall uid :: uid in profiles ==> uid < |accounts|
    }

    constructor ()
      ensures Valid() && accounts == [] && profiles == map[]
    {
      accounts := [];
      profiles := map[];
    }

    method SignUp(email: string, password: string, name: string, jobLevel: string, isManager: bool)
      returns (r: SignUpResult)
      requires Valid()
      modifies this
      ensures Valid()
      ensures r.Incomplete? <==> email == "" || password == "" || name == "" || jobLevel == ""
      ensures r.Incomplete? ==> accounts == old(accounts) && profiles == old(profiles)
      ensures !r.Incomplete? ==>
                accounts == old(accounts) + [Credentials(email, password)] && r.uid == |old(accounts)|
      ensures r.AccountOnly? <==> !r.Incomplete? && Find(SignUpLevels, jobLevel).None?
      ensures r.AccountOnly? ==> profiles == old(profiles)
      ensures r.Registered? ==>
                && r.uid !in old(profiles)
                && r.uid in profiles
                && fresh(profiles[r.uid])
                && profiles == old(profiles)[r.uid := profiles[r.uid]]
                && profiles[r.uid].State()
                   == LedgerSpec.NewProfile(name, email, jobLevel, isManager, Find(SignUpLevels, jobLevel).value.days)
                && LedgerSpec.Consistent(profiles[r.uid].State())
    {
      if email == "" || password == "" || name == "" || jobLevel == "" {
        return Incomplete;
      }
      // The account exists from here on, whatever happens to the profile.
      var uid := |accounts|;
      accounts := accounts + [Credentials(email, password)];
      var selectedLevel := Find(SignUpLevels, jobLevel);
      if selectedLevel.None? {
        return AccountOnly(uid);
      }
      var profile := new Ledger.SignUpInit(name, email, jobLevel, isManager, selectedLevel.value.days);
      profiles := profiles[uid := profile];
      return Registered(uid);
    }
  }
}
