/** Mock authentication (src/context/AuthContext.tsx): a fixed directory of accounts,
    the signed-in `user`, and an `otpStore` of one-time codes. The clock (`Date.now()`)
    and the generated code (`Math.random()`) are parameters. */
module Auth {
  import opened Wrappers
  import opened Seqs

  /** A directory entry, password included. */
  datatype Account = Account(id: string, name: string, email: string, password: string, isAdmin: bool)
  {
    /** `const { password, ...userWithoutPassword } = foundUser`. */
    function Public(): (u: User)
      ensures u.id == id && u.name == name && u.email == email && u.isAdmin == isAdmin
    {
      User(id, name, email, isAdmin)
    }
  }

  /** The signed-in user as the application sees it: no password. */
  datatype User = User(id: string, name: string, email: string, isAdmin: bool)

  /** A pending one-time code: for whom, until when (milliseconds), and the code. */
  datatype OtpInfo = OtpInfo(email: string, expiresAt: int, code: string)

  /** How long a requested code stays valid: ten minutes, in milliseconds. */
  const OtpLifetimeMs: int := 10 * 60 * 1000

  /** The directory the provider is written against. */
  const MockUsers: seq<Account> := [
    Account("1", "Admin User", "admin@gamegear.com", "admin123", true),
    Account("2", "Regular User", "user@example.com", "user123", false)
  ]

  /** What a verification attempt ends in; each failure is a distinct message in the
      source. */
  datatype OtpOutcome = NoOtpRequested | Expired | InvalidCode | UserNotFound | Verified

  /** `mockUsers.some(u => u.email === email)`. */
  predicate Registered(accounts: seq<Account>, email: string) {
    exists a :: a in accounts && a.email == email
  }

  function HasCredentials(email: string, password: string): Account -> bool {
    (a: Account) => a.email == email && a.password == password
  }

  function HasEmail(email: string): Account -> bool {
    (a: Account) => a.email == email
  }

  function OtpFor(email: string): OtpInfo -> bool {
    (o: OtpInfo) => o.email == email
  }

  function OtpNotFor(email: string): OtpInfo -> bool {
    (o: OtpInfo) => o.email != email
  }

  function EmailOf(o: OtpInfo): string {
    o.email
  }

  function EmailOfAccount(a: Account): string {
    a.email
  }

  /** `otpStore.find(o => o.email === email)`. */
  function EntryFor(store: seq<OtpInfo>, email: string): (r: Option<OtpInfo>)
    ensures r.None? <==> forall o :: o in store ==> o.email != email
    ensures r.Some? ==> r.value in store && r.value.email == email
  {
    FindFirst(store, OtpFor(email))
  }

  /** The three checks of `verifyOtp`, in order: a code was requested for `email`, it
      has not expired (it is still good at exactly `expiresAt`), and it equals `otp`. */
  function OtpCheck(store: seq<OtpInfo>, email: string, otp: string, now: int): (r: OtpOutcome)
    ensures r == NoOtpRequested <==> EntryFor(store, email).None?
    ensures r == Expired <==> EntryFor(store, email).Some? && now > EntryFor(store, email).value.expiresAt
    ensures r == Verified <==> EntryFor(store, email).Some? && now <= EntryFor(store, email).value.expiresAt
                                && EntryFor(store, email).value.code == otp
    ensures r != UserNotFound
  {
    var entry := EntryFor(store, email);
    if entry.None? then NoOtpRequested
    else if now > entry.value.expiresAt then Expired
    else if entry.value.code != otp then InvalidCode
    else Verified
  }

  /** The store without any entry for `email` (what a successful verification leaves). */
  function WithoutOtp(store: seq<OtpInfo>, email: string): (r: seq<OtpInfo>)
    ensures forall o :: o in r ==> o in store && o.email != email
    ensures forall o :: o in store && o.email != email ==> o in r
  {
    Filter(store, OtpNotFor(email))
  }

  /** The store after a code is issued: earlier entries for `email` dropped, the new one
      appended. */
  function WithFreshOtp(store: seq<OtpInfo>, email: string, now: int, code: string): seq<OtpInfo> {
    WithoutOtp(store, email) + [OtpInfo(email, now + OtpLifetimeMs, code)]
  }

  /** Issuing a code leaves exactly one entry for that email, the new one with expiry
      `now` plus ten minutes, and keeps the entries of every other email in order. */
  lemma FreshOtpIsTheOnlyEntry(store: seq<OtpInfo>, email: string, now: int, code: string)
    ensures Filter(WithFreshOtp(store, email, now, code), OtpFor(email))
            == [OtpInfo(email, now + OtpLifetimeMs, code)]
    ensures WithoutOtp(WithFreshOtp(store, email, now, code), email) == WithoutOtp(store, email)
    ensures EntryFor(WithFreshOtp(store, email, now, code), email)
            == Some(OtpInfo(email, now + OtpLifetimeMs, code))
  {
    var entry := OtpInfo(email, now + OtpLifetimeMs, code);
    var kept := WithoutOtp(store, email);
    assert Filter([entry], OtpFor(email)) == [entry] && Filter([entry], OtpNotFor(email)) == [] by {
      assert [entry][1..] == [];
    }
    FreshOtpForEmail(kept, entry);
    FreshOtpForOthers(kept, entry);
    var r := EntryFor(kept + [entry], email);
    assert r.value == entry by {
      var i :| 0 <= i < |kept| + 1 && (kept + [entry])[i] == r.value && r.value.email == email;
    }
  }

  lemma FreshOtpForEmail(kept: seq<OtpInfo>, entry: OtpInfo)
    requires forall o :: o in kept ==> o.email != entry.email
    requires Filter([entry], OtpFor(entry.email)) == [entry]
    ensures Filter(kept + [entry], OtpFor(entry.email)) == [entry]
  {
    FilterAppend(kept, [entry], OtpFor(entry.email));
    assert Filter(kept, OtpFor(entry.email)) == [];
  }

  lemma FreshOtpForOthers(kept: seq<OtpInfo>, entry: OtpInfo)
    requires forall o :: o in kept ==> o.email != entry.email
    requires Filter([entry], OtpNotFor(entry.email)) == []
    ensures Filter(kept + [entry], OtpNotFor(entry.email)) == kept
  {
    FilterAppend(kept, [entry], OtpNotFor(entry.email));
    FilterKeepsAll(kept, OtpNotFor(entry.email));
    assert kept + [] == kept;
  }

  /** After a successful verification no code is left for that email. */
  lemma ConsumedOtpIsGone(store: seq<OtpInfo>, email: string)
    ensures EntryFor(WithoutOtp(store, email), email).None?
  {
  }

  /** Every stored code belongs to a registered email, and no email has two codes. */
  predicate StoreInvariant(accounts: seq<Account>, store: seq<OtpInfo>) {
    (forall o :: o in store ==> Registered(accounts, o.email)) && DistinctBy(store, EmailOf)
  }

  /** Issuing a code for a registered email keeps the invariant. */
  lemma FreshOtpKeepsInvariant(accounts: seq<Account>, store: seq<OtpInfo>, email: string, now: int, code: string)
    requires StoreInvariant(accounts, store) && Registered(accounts, email)
    ensures StoreInvariant(accounts, WithFreshOtp(store, email, now, code))
  {
    var kept := WithoutOtp(store, email);
    var r := WithFreshOtp(store, email, now, code);
    FilterExactly(store, OtpNotFor(email));
    SubseqKeepsDistinct(kept, store, EmailOf);
    forall i, j | 0 <= i < j < |r| ensures EmailOf(r[i]) != EmailOf(r[j]) {
      if j == |kept| {
        assert r[i] == kept[i] && kept[i] in kept;
      } else {
        assert r[i] == kept[i] && r[j] == kept[j];
      }
    }
  }

  /** Consuming the codes of an email keeps the invariant. */
  lemma WithoutOtpKeepsInvariant(accounts: seq<Account>, store: seq<OtpInfo>, email: string)
    requires StoreInvariant(accounts, store)
    ensures StoreInvariant(accounts, WithoutOtp(store, email))
  {
    FilterExactly(store, OtpNotFor(email));
    SubseqKeepsDistinct(WithoutOtp(store, email), store, EmailOf);
  }

  /** The provider's state. */
  class AuthState {
    /** The directory of accounts (`mockUsers` in the source). */
    const accounts: seq<Account>
    var user: Option<User>
    var otpStore: seq<OtpInfo>

    ghost predicate Valid()
      reads this
    {
      StoreInvariant(accounts, otpStore)
    }

    /** Nobody signed in, no codes pending (restoring a saved user is browser storage and
        is not modelled). */
    constructor(accounts: seq<Account>)
      ensures this.accounts == accounts && user == None && otpStore == [] && Valid()
    {
      this.accounts := accounts;
      user := None;
      otpStore := [];
    }

    /** `login`: succeeds iff some account has both this email and this password; the
        first such account becomes the user, without its password. */
    method Login(email: string, password: string) returns (ok: bool)
      modifies this
      ensures ok <==> exists a :: a in accounts && a.email == email && a.password == password
      ensures ok ==> user == Some(FindFirst(accounts, HasCredentials(email, password)).value.Public())
      ensures !ok ==> user == old(user)
      ensures otpStore == old(otpStore)
    {
      var found := FindFirst(accounts, HasCredentials(email, password));
      if found.Some? {
        user := Some(found.value.Public());
        ok := true;
      } else {
        ok := false;
      }
    }

    /** `signup`: refuses an email already in the directory and otherwise reports
        success; it never adds an account and never signs anybody in. */
    method Signup(name: string, email: string, password: string) returns (ok: bool)
      ensures ok <==> !Registered(accounts, email)
    {
      ok := !Registered(accounts, email);
    }

    /** `logout`. */
    method Logout()
      modifies this
      ensures user == None && otpStore == old(otpStore)
    {
      user := None;
    }

    /** `requestOtp`: for a registered email, replaces any earlier code for it with
        `code`, valid until `now` plus ten minutes; an unknown email changes nothing. */
    method RequestOtp(email: string, now: int, code: string) returns (ok: bool)
      requires Valid()
      modifies this
      ensures Valid()
      ensures ok <==> Registered(accounts, email)
      ensures ok ==> otpStore == WithFreshOtp(old(otpStore), email, now, code)
      ensures !ok ==> otpStore == old(otpStore)
      ensures user == old(user)
    {
      if !Registered(accounts, email) {
        ok := false;
        return;
      }
      FreshOtpKeepsInvariant(accounts, otpStore, email, now, code);
      otpStore := WithFreshOtp(otpStore, email, now, code);
      ok := true;
    }

    /** `verifyOtp`: three checks in order (a code was requested, it has not expired
        -- it is still good at exactly `expiresAt` -- and it matches); on success the
        account becomes the user and its codes are consumed. The "user not found" branch
        cannot be reached while the store invariant holds. */
    method VerifyOtp(email: string, otp: string, now: int) returns (outcome: OtpOutcome)
      requires Valid()
      modifies this
      ensures Valid()
      ensures outcome == OtpCheck(old(otpStore), email, otp, now)
      ensures outcome != Verified ==> user == old(user) && otpStore == old(otpStore)
      ensures outcome == Verified ==>
                user == Some(FindFirst(accounts, HasEmail(email)).value.Public()) &&
                otpStore == WithoutOtp(old(otpStore), email)
    {
      var entry := EntryFor(otpStore, email);
      if entry.None? {
        return NoOtpRequested;
      }
      if now > entry.value.expiresAt {
        return Expired;
      }
      if entry.value.code != otp {
        return InvalidCode;
      }
      var found := FindFirst(accounts, HasEmail(email));
      if found.Some? {
        user := Some(found.value.Public());
        WithoutOtpKeepsInvariant(accounts, otpStore, email);
        otpStore := WithoutOtp(otpStore, email);
        outcome := Verified;
      } else {
        outcome := UserNotFound;
      }
    }
  }

  /** After a code is issued at `now`, a verification at `later` with that code
      succeeds up to ten minutes on and is refused as expired from one millisecond
      after; with any other code it is refused as invalid, or as expired once the ten
      minutes are over. Earlier codes for the email no longer verify. */
  lemma IssuedCodeVerifiesUntilExpiry(store: seq<OtpInfo>, email: string, now: int, code: string, otp: string, later: int)
    ensures OtpCheck(WithFreshOtp(store, email, now, code), email, code, later)
            == if later > now + OtpLifetimeMs then Expired else Verified
    ensures otp != code ==>
              OtpCheck(WithFreshOtp(store, email, now, code), email, otp, later)
              == if later > now + OtpLifetimeMs then Expired else InvalidCode
  {
    FreshOtpIsTheOnlyEntry(store, email, now, code);
  }

  /** The directory the source ships with: the admin credentials sign in as the only
      administrator, the other pair as a regular user, and no email is listed twice, so
      a successful sign-in by email and code names a single account. */
  lemma MockDirectorySignIns()
    ensures FindFirst(MockUsers, HasCredentials("admin@gamegear.com", "admin123")).value.Public()
            == User("1", "Admin User", "admin@gamegear.com", true)
    ensures FindFirst(MockUsers, HasCredentials("user@example.com", "user123")).value.Public()
            == User("2", "Regular User", "user@example.com", false)
    ensures forall a :: a in MockUsers && a.isAdmin ==> a.email == "admin@gamegear.com"
    ensures DistinctBy(MockUsers, EmailOfAccount)
  {
    assert MockUsers[0].email != MockUsers[1].email;
  }
}
