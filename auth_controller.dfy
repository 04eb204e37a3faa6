/** The account state machine of the authentication handlers: the login
    lockout (five failed passwords lock the account for thirty minutes),
    registration (always a customer account), refresh-token rotation and
    password reset.

    Password hashing and comparison, token signing and verification, and the
    reset-token hash are foreign code: their results arrive as parameters.
    Times are milliseconds on an abstract clock `now`. */
module AuthController {
  import opened Models

  const MaxAttempts: int := 5
  /** Thirty minutes, in milliseconds. */
  const LockTime: int := 30 * 60 * 1000

  // ---------------------------------------------------------------------
  // Strings.
  // ---------------------------------------------------------------------

  function LowerChar(c: char): char
  {
    if 'A' <= c <= 'Z' then (c as int + 32) as char else c
  }

  /** `toLowerCase`, on the ASCII letters. */
  function ToLower(s: string): (r: string)
    ensures |r| == |s|
    ensures forall i :: 0 <= i < |s| ==> r[i] == LowerChar(s[i])
    ensures forall i :: 0 <= i < |r| ==> !('A' <= r[i] <= 'Z')
  {
    if s == [] then []
    else
      assert forall i :: 1 <= i < |s| ==> s[1..][i - 1] == s[i];
      [LowerChar(s[0])] + ToLower(s[1..])
  }

  lemma ToLowerIdempotent(s: string)
    ensures ToLower(ToLower(s)) == ToLower(s)
  {
  }

  predicate IsSpace(c: char)
  {
    c == ' ' || c == '\t' || c == '\n' || c == '\r'
  }

  function TrimStart(s: string): (r: string)
    ensures |r| <= |s|
    ensures r == [] || !IsSpace(r[0])
  {
    if s == [] || !IsSpace(s[0]) then s else TrimStart(s[1..])
  }

  function TrimEnd(s: string): (r: string)
    ensures |r| <= |s|
    ensures r == [] || !IsSpace(r[|r| - 1])
  {
    if s == [] || !IsSpace(s[|s| - 1]) then s else TrimEnd(s[..|s| - 1])
  }

  /** TrimStart drops a prefix made only of white space. */
  lemma {:induction false} TrimStartDropsSpaces(s: string)
    ensures TrimStart(s) == s[|s| - |TrimStart(s)|..]
    ensures forall i :: 0 <= i < |s| - |TrimStart(s)| ==> IsSpace(s[i])
  {
    if s != [] && IsSpace(s[0]) {
      TrimStartDropsSpaces(s[1..]);
      assert forall i :: 1 <= i < |s| ==> s[1..][i - 1] == s[i];
    }
  }

  /** TrimEnd drops a suffix made only of white space. */
  lemma {:induction false} TrimEndDropsSpaces(s: string)
    ensures TrimEnd(s) == s[..|TrimEnd(s)|]
    ensures forall i :: |TrimEnd(s)| <= i < |s| ==> IsSpace(s[i])
  {
    if s != [] && IsSpace(s[|s| - 1]) {
      TrimEndDropsSpaces(s[..|s| - 1]);
    }
  }

  /** r is s[k..k + |r|], and everything of s before and after it is white space. */
  predicate TrimmedAt(s: string, r: string, k: int)
  {
    && 0 <= k && k + |r| <= |s| && r == s[k..k + |r|]
    && (forall i :: 0 <= i < k ==> IsSpace(s[i]))
    && (forall i :: k + |r| <= i < |s| ==> IsSpace(s[i]))
  }

  /** `trim`: the input without its leading and trailing white space. */
  function Trim(s: string): (r: string)
    ensures |r| <= |s|
    ensures r == [] || (!IsSpace(r[0]) && !IsSpace(r[|r| - 1]))
  {
    TrimEndDropsSpaces(TrimStart(s));
    TrimEnd(TrimStart(s))
  }

  /** What trim drops is white space at either end, and nothing else. */
  lemma TrimKeepsTheMiddle(s: string)
    ensures exists k :: TrimmedAt(s, Trim(s), k)
  {
    var t := TrimStart(s);
    var r := TrimEnd(t);
    TrimStartDropsSpaces(s);
    TrimEndDropsSpaces(t);
    var k := |s| - |t|;
    assert r == s[k..k + |r|];
    assert forall i :: k + |r| <= i < |s| ==> s[i] == t[i - k];
    assert Trim(s) == r;
    assert TrimmedAt(s, r, k);
  }

  lemma TrimIdempotent(s: string)
    ensures Trim(Trim(s)) == Trim(s)
  {
  }

  /** The e-mail address as the schema keeps it: lower-cased and trimmed. The
      schema's setters also run on the value a query on the field is matched
      against, so this is the key of every e-mail lookup as well. */
  function NormalizedEmail(email: string): string
  {
    Trim(ToLower(email))
  }

  /** Lower-casing leaves a string without upper-case letters unchanged. */
  lemma {:induction false} ToLowerOfLower(s: string)
    requires forall i :: 0 <= i < |s| ==> !('A' <= s[i] <= 'Z')
    ensures ToLower(s) == s
  {
    if s != [] {
      ToLowerOfLower(s[1..]);
    }
  }

  /** Trimming cannot bring back an upper-case letter. */
  lemma TrimKeepsLowerCase(t: string)
    requires forall i :: 0 <= i < |t| ==> !('A' <= t[i] <= 'Z')
    ensures forall i :: 0 <= i < |Trim(t)| ==> !('A' <= Trim(t)[i] <= 'Z')
  {
    TrimKeepsTheMiddle(t);
    var k :| TrimmedAt(t, Trim(t), k);
    assert forall i :: 0 <= i < |Trim(t)| ==> Trim(t)[i] == t[k + i];
  }

  /** A normalized address has no upper-case letter and no white space at
      either end, and normalizing it again changes nothing. */
  lemma NormalizedEmailIsCanonical(email: string)
    ensures var r := NormalizedEmail(email);
            && (forall i :: 0 <= i < |r| ==> !('A' <= r[i] <= 'Z'))
            && (r == [] || (!IsSpace(r[0]) && !IsSpace(r[|r| - 1])))
            && NormalizedEmail(r) == r
  {
    var t := ToLower(email);
    TrimKeepsLowerCase(t);
    ToLowerOfLower(Trim(t));
    TrimIdempotent(t);
  }

  /** The handlers lower-case the address before querying; with the schema's
      setters on top, the key is still the normalized address. */
  lemma QueryKeyIsStoredKey(email: string)
    ensures NormalizedEmail(ToLower(email)) == NormalizedEmail(email)
  {
    ToLowerIdempotent(email);
  }

  // ---------------------------------------------------------------------
  // Finding an account (the findOne / findById queries).
  // ---------------------------------------------------------------------

  function FindByEmail(users: seq<Account>, email: string): (i: int)
    reads users
    ensures -1 <= i < |users|
    ensures i >= 0 ==> users[i].email == email
    ensures i == -1 ==> forall j :: 0 <= j < |users| ==> users[j].email != email
  {
    if users == [] then -1
    else if users[0].email == email then 0
    else
      assert forall j :: 1 <= j < |users| ==> users[1..][j - 1] == users[j];
      var k := FindByEmail(users[1..], email);
      if k == -1 then -1 else k + 1
  }

  function FindById(users: seq<Account>, id: UserId): (i: int)
    reads users
    ensures -1 <= i < |users|
    ensures i >= 0 ==> users[i].id == id
    ensures i == -1 ==> forall j :: 0 <= j < |users| ==> users[j].id != id
  {
    if users == [] then -1
    else if users[0].id == id then 0
    else
      assert forall j :: 1 <= j < |users| ==> users[1..][j - 1] == users[j];
      var k := FindById(users[1..], id);
      if k == -1 then -1 else k + 1
  }

  /** The reset query: the stored token hash matches and has not expired. */
  predicate ResetTokenValid(a: Account, tokenHash: string, now: int)
    reads a
  {
    a.passwordResetToken == Some(tokenHash) && a.passwordResetExpires.Some? && a.passwordResetExpires.value > now
  }

  function FindByResetToken(users: seq<Account>, tokenHash: string, now: int): (i: int)
    reads users
    ensures -1 <= i < |users|
    ensures i >= 0 ==> ResetTokenValid(users[i], tokenHash, now)
    ensures i == -1 ==> forall j :: 0 <= j < |users| ==> !ResetTokenValid(users[j], tokenHash, now)
  {
    if users == [] then -1
    else if ResetTokenValid(users[0], tokenHash, now) then 0
    else
      assert forall j :: 1 <= j < |users| ==> users[1..][j - 1] == users[j];
      var k := FindByResetToken(users[1..], tokenHash, now);
      if k == -1 then -1 else k + 1
  }

  // ---------------------------------------------------------------------
  // The lockout state machine.
  // ---------------------------------------------------------------------

  /** The two fields the lockout reads and writes. */
  datatype LockState = LockState(attempts: int, lockUntil: Option<int>)

  datatype LoginStatus = LoginOk | NoSuchUser | Locked | Deactivated | WrongPassword | LockedOut

  /** The HTTP status each outcome is answered with. */
  function HttpStatus(s: LoginStatus): int
  {
    match s
    case LoginOk => 200
    case NoSuchUser => 401
    case Locked => 423
    case Deactivated => 403
    case WrongPassword => 401
    case LockedOut => 423
  }

  predicate IsLocked(lockUntil: Option<int>, now: int)
  {
    lockUntil.Some? && lockUntil.value > now
  }

  datatype LoginStep = LoginStep(state: LockState, status: LoginStatus)

  /** One login by an existing account: a live lock refuses before anything
      else; then a deactivated account; then a wrong password counts a
      strike, and the strike that would be the fifth resets the counter and
      locks; a right password clears both fields. */
  function LoginTransition(s: LockState, isActive: bool, passwordOk: bool, now: int): (r: LoginStep)
    ensures r.status == LoginOk <==> !IsLocked(s.lockUntil, now) && isActive && passwordOk
    ensures r.status == LoginOk ==> r.state == LockState(0, None)
    ensures r.status == Locked || r.status == Deactivated ==> r.state == s
    ensures 0 <= s.attempts < MaxAttempts ==> 0 <= r.state.attempts < MaxAttempts
    ensures HttpStatus(r.status) == 423 <==> IsLocked(r.state.lockUntil, now)
  {
    if IsLocked(s.lockUntil, now) then LoginStep(s, Locked)
    else if !isActive then LoginStep(s, Deactivated)
    else if !passwordOk then
      if s.attempts < MaxAttempts - 1 then LoginStep(LockState(s.attempts + 1, s.lockUntil), WrongPassword)
      else LoginStep(LockState(0, Some(now + LockTime)), LockedOut)
    else LoginStep(LockState(0, None), LoginOk)
  }

  /** A login attempt: when it happens and whether the password matched. */
  datatype Attempt = Attempt(now: int, passwordOk: bool)

  /** The lock state after a sequence of attempts on one account. */
  function Replay(s: LockState, isActive: bool, attempts: seq<Attempt>): (r: LockState)
    ensures !isActive ==> r == s
    decreases |attempts|
  {
    if attempts == [] then s
    else Replay(LoginTransition(s, isActive, attempts[0].passwordOk, attempts[0].now).state, isActive, attempts[1..])
  }

  /** Starting inside [0, 4], the strike counter stays inside [0, 4] whatever happens. */
  lemma {:induction false} AttemptsStayInRange(s: LockState, isActive: bool, attempts: seq<Attempt>)
    requires 0 <= s.attempts < MaxAttempts
    ensures 0 <= Replay(s, isActive, attempts).attempts < MaxAttempts
    decreases |attempts|
  {
    if attempts != [] {
      AttemptsStayInRange(LoginTransition(s, isActive, attempts[0].passwordOk, attempts[0].now).state,
                          isActive, attempts[1..]);
    }
  }

  /** Wrong passwords while unlocked count up one strike each. */
  lemma {:induction false} StrikesCountUp(s: LockState, attempts: seq<Attempt>)
    requires 0 <= s.attempts && s.attempts + |attempts| < MaxAttempts
    requires forall k :: 0 <= k < |attempts| ==> !attempts[k].passwordOk && !IsLocked(s.lockUntil, attempts[k].now)
    ensures Replay(s, true, attempts) == LockState(s.attempts + |attempts|, s.lockUntil)
    decreases |attempts|
  {
    if attempts != [] {
      var next := LockState(s.attempts + 1, s.lockUntil);
      assert forall k :: 0 <= k < |attempts[1..]| ==> attempts[1..][k] == attempts[k + 1];
      StrikesCountUp(next, attempts[1..]);
    }
  }

  /** From a clean account, four wrong passwords are answered 401 and the
      fifth is answered 423 and locks the account until thirty minutes after it. */
  lemma FifthStrikeLocks(attempts: seq<Attempt>, last: Attempt)
    requires |attempts| == MaxAttempts - 1 && !last.passwordOk
    requires forall k :: 0 <= k < |attempts| ==> !attempts[k].passwordOk
    ensures forall k :: 0 <= k < |attempts| ==>
              HttpStatus(LoginTransition(LockState(k, None), true, false, attempts[k].now).status) == 401
    ensures Replay(LockState(0, None), true, attempts) == LockState(MaxAttempts - 1, None)
    ensures LoginTransition(LockState(MaxAttempts - 1, None), true, false, last.now)
            == LoginStep(LockState(0, Some(last.now + LockTime)), LockedOut)
    ensures HttpStatus(LockedOut) == 423
  {
    StrikesCountUp(LockState(0, None), attempts);
  }

  /** While the lock lasts every attempt, right password or wrong, is refused
      and changes nothing. */
  lemma {:induction false} LockHolds(s: LockState, isActive: bool, attempts: seq<Attempt>)
    requires forall k :: 0 <= k < |attempts| ==> IsLocked(s.lockUntil, attempts[k].now)
    ensures Replay(s, isActive, attempts) == s
    ensures forall k :: 0 <= k < |attempts| ==>
              LoginTransition(s, isActive, attempts[k].passwordOk, attempts[k].now) == LoginStep(s, Locked)
    decreases |attempts|
  {
    if attempts != [] {
      assert forall k :: 0 <= k < |attempts[1..]| ==> attempts[1..][k] == attempts[k + 1];
      LockHolds(s, isActive, attempts[1..]);
    }
  }

  /** Once the lock has run out, the right password gets in again. */
  lemma LockExpires(t: int, now: int)
    requires now >= t + LockTime
    ensures LoginTransition(LockState(0, Some(t + LockTime)), true, true, now) == LoginStep(LockState(0, None), LoginOk)
  {
  }

  // ---------------------------------------------------------------------
  // The handlers.
  // ---------------------------------------------------------------------

  /** login. `passwordOk` is the password comparison's verdict for the
      account found; `newRefreshToken` is the token signed on success. */
  method Login(db: Db, email: string, passwordOk: bool, now: int, newRefreshToken: string)
    returns (status: LoginStatus)
    modifies db.users
    ensures db.users == old(db.users)
    ensures var i := old(FindByEmail(db.users, NormalizedEmail(email)));
            && (i == -1 ==> status == NoSuchUser && forall a :: a in db.users ==> unchanged(a))
            && (i >= 0 ==>
                var a := db.users[i];
                var step := LoginTransition(old(LockState(a.loginAttempts, a.lockUntil)), old(a.isActive), passwordOk, now);
                && status == step.status
                && a.loginAttempts == step.state.attempts && a.lockUntil == step.state.lockUntil
                && (status == LoginOk ==> a.refreshToken == Some(newRefreshToken) && a.lastLogin == Some(now))
                && (status != LoginOk ==> a.refreshToken == old(a.refreshToken) && a.lastLogin == old(a.lastLogin))
                && a.name == old(a.name) && a.email == old(a.email) && a.passwordHash == old(a.passwordHash) && a.role == old(a.role) && a.isActive == old(a.isActive)
                && a.passwordResetToken == old(a.passwordResetToken) && a.passwordResetExpires == old(a.passwordResetExpires)
                && forall b :: b in db.users && b != a ==> unchanged(b))
  {
    var i := FindByEmail(db.users, NormalizedEmail(email));
    if i == -1 {
      return NoSuchUser;
    }
    var user := db.users[i];
    if user.lockUntil.Some? && user.lockUntil.value > now {
      return Locked;
    }
    if !user.isActive {
      return Deactivated;
    }
    if !passwordOk {
      if user.loginAttempts < MaxAttempts - 1 {
        user.loginAttempts := user.loginAttempts + 1;
      } else {
        user.loginAttempts := 0;
        user.lockUntil := Some(now + LockTime);
        return LockedOut;
      }
      return WrongPassword;
    }
    user.loginAttempts := 0;
    user.lockUntil := None;
    user.lastLogin := Some(now);
    user.refreshToken := Some(newRefreshToken);
    status := LoginOk;
  }

  datatype RegisterError = InvalidRole | EmailExists

  datatype RegisterResponse = Registered(account: Account) | RegisterRefused(error: RegisterError)

  /** `role && role !== 'customer'`: only a non-empty role other than
      "customer" is refused. */
  predicate RoleRefused(role: Option<string>)
  {
    role.Some? && role.value != "" && role.value != "customer"
  }

  /** Stored addresses are distinct, as the unique index on the address demands. */
  ghost predicate EmailsDistinct(users: seq<Account>)
    reads users
  {
    forall i, j :: 0 <= i < j < |users| ==> users[i].email != users[j].email
  }

  /** The account `User.create` stores: a customer, signed in at `now`. */
  method NewCustomer(newId: UserId, name: string, email: string, passwordHash: string, now: int,
                     refreshToken: string)
    returns (a: Account)
    ensures fresh(a)
    ensures && a.id == newId && a.role == Customer
            && a.name == Trim(name) && a.email == NormalizedEmail(email)
            && a.passwordHash == passwordHash
            && a.refreshToken == Some(refreshToken) && a.lastLogin == Some(now)
            && a.loginAttempts == 0 && a.lockUntil == None && a.isActive
            && a.passwordResetToken == None && a.passwordResetExpires == None
  {
    a := new Account(newId, Trim(name), NormalizedEmail(email), passwordHash, Customer);
    a.refreshToken := Some(refreshToken);
    a.lastLogin := Some(now);
  }

  /** register. `newId` is the id the database assigns, `passwordHash` the
      hash of the chosen password and `refreshToken` the token signed for the
      new account. The duplicate test and the stored account both use the
      normalized address. */
  method Register(db: Db, newId: UserId, name: string, email: string, passwordHash: string,
                  role: Option<string>, now: int, refreshToken: string)
    returns (res: RegisterResponse)
    modifies db
    ensures db.products == old(db.products) && db.rentals == old(db.rentals)
    ensures db.orders == old(db.orders) && db.carts == old(db.carts)
    ensures forall a :: a in old(db.users) ==> unchanged(a)
    ensures res.RegisterRefused? ==> db.users == old(db.users)
    ensures RoleRefused(role) ==> res == RegisterRefused(InvalidRole)
    ensures !RoleRefused(role) && old(FindByEmail(db.users, NormalizedEmail(email))) >= 0 ==>
              res == RegisterRefused(EmailExists)
    ensures !RoleRefused(role) && old(FindByEmail(db.users, NormalizedEmail(email))) == -1 ==>
              && res.Registered? && fresh(res.account)
              && db.users == old(db.users) + [res.account]
              && var a := res.account;
                 && a.id == newId && a.role == Customer
                 && a.name == Trim(name) && a.email == NormalizedEmail(email)
                 && a.passwordHash == passwordHash
                 && a.refreshToken == Some(refreshToken) && a.lastLogin == Some(now)
                 && a.loginAttempts == 0 && a.lockUntil == None && a.isActive
                 && a.passwordResetToken == None && a.passwordResetExpires == None
    ensures old(EmailsDistinct(db.users)) ==> EmailsDistinct(db.users)
  {
    if role.Some? && role.value != "" && role.value != "customer" {
      return RegisterRefused(InvalidRole);
    }
    var existing := FindByEmail(db.users, NormalizedEmail(email));
    if existing != -1 {
      return RegisterRefused(EmailExists);
    }
    var user := NewCustomer(newId, name, email, passwordHash, now, refreshToken);
    db.users := db.users + [user];
    res := Registered(user);
  }

  /** An address that differs from a stored one only by case and surrounding
      spaces has the same key: registering it is refused as taken, and logging
      in with it reaches the stored account. */
  lemma PaddedAddressMatchesStored()
    ensures NormalizedEmail(" A@b.c ") == NormalizedEmail("a@b.c") == "a@b.c"
  {
    LowerExample();
    TrimExample();
  }

  lemma LowerExample()
    ensures ToLower(" A@b.c ") == " a@b.c "
    ensures ToLower("a@b.c") == "a@b.c"
  {
    var padded := " A@b.c ";
    var lowered := " a@b.c ";
    assert forall i :: 0 <= i < |padded| ==> LowerChar(padded[i]) == lowered[i];
    assert forall i :: 0 <= i < 5 ==> LowerChar("a@b.c"[i]) == "a@b.c"[i];
  }

  lemma TrimExample()
    ensures Trim(" a@b.c ") == "a@b.c"
    ensures Trim("a@b.c") == "a@b.c"
  {
    assert " a@b.c "[1..] == "a@b.c ";
    assert "a@b.c "[..5] == "a@b.c";
  }

  datatype RefreshStatus = Rotated | TokenMissing | TokenInvalid

  /** A refresh is honoured only for a present token equal to the one stored. */
  predicate RefreshAccepted(stored: Option<string>, presented: string)
  {
    presented != "" && stored == Some(presented)
  }

  /** refreshToken. `decodedId` is the account id the token verification
      yields, or None when verification fails; `newToken` is the token signed
      for the rotation. */
  method RefreshToken(db: Db, presented: string, decodedId: Option<UserId>, newToken: string)
    returns (status: RefreshStatus)
    modifies db.users
    ensures db.users == old(db.users)
    ensures presented == "" ==> status == TokenMissing
    ensures presented != "" && decodedId.None? ==> status == TokenInvalid
    ensures status != Rotated ==> forall a :: a in db.users ==> unchanged(a)
    ensures presented != "" && decodedId.Some? ==>
              var i := old(FindById(db.users, decodedId.value));
              && (status == Rotated <==> i >= 0 && old(RefreshAccepted(db.users[i].refreshToken, presented)))
              && (status != Rotated ==> status == TokenInvalid)
              && (status == Rotated ==>
                    && db.users[i].refreshToken == Some(newToken)
                    && old(db.users[i].refreshToken) == Some(presented)
                    && (newToken != presented ==> !RefreshAccepted(db.users[i].refreshToken, presented))
                    && db.users[i].name == old(db.users[i].name) && db.users[i].email == old(db.users[i].email) && db.users[i].passwordHash == old(db.users[i].passwordHash) && db.users[i].role == old(db.users[i].role)
                    && db.users[i].loginAttempts == old(db.users[i].loginAttempts) && db.users[i].lockUntil == old(db.users[i].lockUntil) && db.users[i].lastLogin == old(db.users[i].lastLogin) && db.users[i].isActive == old(db.users[i].isActive)
                    && db.users[i].passwordResetToken == old(db.users[i].passwordResetToken) && db.users[i].passwordResetExpires == old(db.users[i].passwordResetExpires)
                    && forall b :: b in db.users && b != db.users[i] ==> unchanged(b))
  {
    if presented == "" {
      return TokenMissing;
    }
    if decodedId.None? {
      return TokenInvalid;
    }
    var i := FindById(db.users, decodedId.value);
    if i == -1 || db.users[i].refreshToken != Some(presented) {
      return TokenInvalid;
    }
    db.users[i].refreshToken := Some(newToken);
    status := Rotated;
  }

  datatype ResetStatus = PasswordReset | ResetTokenRejected

  /** resetPassword. `tokenHash` is the hash of the presented reset token,
      `newHash` the hash of the new password. */
  method ResetPassword(db: Db, tokenHash: string, newHash: string, now: int) returns (status: ResetStatus)
    modifies db.users
    ensures db.users == old(db.users)
    ensures var i := old(FindByResetToken(db.users, tokenHash, now));
            && (i == -1 ==> status == ResetTokenRejected && forall a :: a in db.users ==> unchanged(a))
            && (i >= 0 ==>
                var a := db.users[i];
                && status == PasswordReset
                && a.passwordHash == newHash
                && a.passwordResetToken == None && a.passwordResetExpires == None
                && a.loginAttempts == 0 && a.lockUntil == None
                && !ResetTokenValid(a, tokenHash, now)
                && a.name == old(a.name) && a.email == old(a.email) && a.role == old(a.role) && a.refreshToken == old(a.refreshToken) && a.lastLogin == old(a.lastLogin) && a.isActive == old(a.isActive)
                && forall b :: b in db.users && b != a ==> unchanged(b))
  {
    var i := FindByResetToken(db.users, tokenHash, now);
    if i == -1 {
      return ResetTokenRejected;
    }
    var user := db.users[i];
    user.passwordHash := newHash;
    user.passwordResetToken := None;
    user.passwordResetExpires := None;
    user.loginAttempts := 0;
    user.lockUntil := None;
    status := PasswordReset;
  }

  /** After a reset, the account is unlocked: an active account gets in with
      the right password at any time. */
  lemma ResetUnlocks(isActive: bool, now: int)
    ensures LoginTransition(LockState(0, None), isActive, true, now).status == (if isActive then LoginOk else Deactivated)
  {
  }
}
