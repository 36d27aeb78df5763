/**
 * Accounts: the password strength meter, sign-up (field checks, the unique
 * username rule and the append) and log-in (an exact match on username and
 * plain-text password).
 */
module Accounts {
  import opened Wrappers
  import opened Records

  // ---------------------------------------------------------------- strength

  predicate IsUpper(c: char) { 'A' <= c <= 'Z' }
  predicate IsLower(c: char) { 'a' <= c <= 'z' }
  predicate IsDigit(c: char) { '0' <= c <= '9' }

  predicate ContainsUpper(p: string) { exists i :: 0 <= i < |p| && IsUpper(p[i]) }
  predicate ContainsLower(p: string) { exists i :: 0 <= i < |p| && IsLower(p[i]) }
  predicate ContainsDigit(p: string) { exists i :: 0 <= i < |p| && IsDigit(p[i]) }
  /** `/[^A-Za-z0-9]/`: some character that is neither an ASCII letter nor a digit. */
  predicate ContainsSymbol(p: string) { exists i :: 0 <= i < |p| && !IsUpper(p[i]) && !IsLower(p[i]) && !IsDigit(p[i]) }

  const MinStrongLength: nat := 8
  const MaxScore: nat := 4

  /** The five criteria the meter checks, in its order. */
  function Criteria(p: string): seq<bool>
  {
    [|p| >= MinStrongLength, ContainsUpper(p), ContainsLower(p), ContainsDigit(p), ContainsSymbol(p)]
  }

  function CountTrue(bs: seq<bool>): nat
  {
    if |bs| == 0 then 0 else (if bs[0] then 1 else 0) + CountTrue(bs[1..])
  }

  lemma CountTrueFive(c: seq<bool>)
    requires |c| == 5
    ensures CountTrue(c) == (if c[0] then 1 else 0) + (if c[1] then 1 else 0) + (if c[2] then 1 else 0)
                            + (if c[3] then 1 else 0) + (if c[4] then 1 else 0)
  {
    assert c[4..][1..] == [];
    assert CountTrue(c[4..]) == (if c[4] then 1 else 0);
    assert c[3..][1..] == c[4..];
    assert CountTrue(c[3..]) == (if c[3] then 1 else 0) + CountTrue(c[4..]);
    assert c[2..][1..] == c[3..];
    assert CountTrue(c[2..]) == (if c[2] then 1 else 0) + CountTrue(c[3..]);
    assert c[1..][1..] == c[2..];
    assert CountTrue(c[1..]) == (if c[1] then 1 else 0) + CountTrue(c[2..]);
  }

  /** The meter's score: criteria met, at most four; the empty password scores 0. */
  function StrengthScore(p: string): nat
  {
    if |p| == 0 then 0
    else if CountTrue(Criteria(p)) > MaxScore then MaxScore
    else CountTrue(Criteria(p))
  }

  const StrengthLabels: seq<string> := ["Very weak", "Weak", "Fair", "Good", "Strong"]

  /**
   * The score lies in 0..4, it is 0 exactly for the empty password (every
   * character falls in one of the four character classes), and a password
   * meeting all five criteria is capped at 4.
   */
  lemma StrengthScoreSpec(p: string)
    ensures 0 <= StrengthScore(p) <= MaxScore
    ensures StrengthScore(p) == 0 <==> |p| == 0
    ensures (forall k :: 0 <= k < 5 ==> Criteria(p)[k]) ==> StrengthScore(p) == MaxScore
  {
    if |p| > 0 {
      var c := Criteria(p);
      assert c[0] == (|p| >= MinStrongLength);
      assert IsUpper(p[0]) || IsLower(p[0]) || IsDigit(p[0]) || (!IsUpper(p[0]) && !IsLower(p[0]) && !IsDigit(p[0]));
      assert c[1] || c[2] || c[3] || c[4];
      CountTrueFive(c);
      if forall k :: 0 <= k < 5 ==> c[k] {
        assert c[0] && c[1] && c[2] && c[3] && c[4];
      }
    } else {
      assert !Criteria(p)[1];
    }
  }

  /** `calculatePasswordStrength`: the score is built up one criterion at a time, then capped. */
  method CalculatePasswordStrength(password: string) returns (score: nat, verdict: string)
    ensures score == StrengthScore(password)
    ensures score <= MaxScore && verdict == StrengthLabels[score]
    ensures |password| == 0 ==> score == 0 && verdict == "Very weak"
  {
    if |password| == 0 {
      return 0, "Very weak";
    }
    CountTrueFive(Criteria(password));
    score := 0;
    if |password| >= MinStrongLength { score := score + 1; }
    if ContainsUpper(password) { score := score + 1; }
    if ContainsLower(password) { score := score + 1; }
    if ContainsDigit(password) { score := score + 1; }
    if ContainsSymbol(password) { score := score + 1; }
    if score > MaxScore { score := MaxScore; }
    verdict := StrengthLabels[score];
  }

  // ------------------------------------------------------------------ log-in

  datatype LoginField = UsernameInput | PasswordInput

  datatype LoginError = MissingFields(fields: set<LoginField>) | InvalidCredentials

  /** The first user whose username and password both equal the given ones. */
  function FindUser(users: seq<User>, username: string, password: string): (r: Option<nat>)
    ensures r.Some? ==> r.value < |users| && users[r.value].username == username && users[r.value].password == password
    ensures r.Some? ==> forall j :: 0 <= j < r.value ==> !(users[j].username == username && users[j].password == password)
    ensures r.None? <==> forall j :: 0 <= j < |users| ==> !(users[j].username == username && users[j].password == password)
  {
    if |users| == 0 then None
    else if users[0].username == username && users[0].password == password then Some(0)
    else match FindUser(users[1..], username, password)
      case None => None
      case Some(i) => Some(i + 1)
  }

  function MissingLoginFields(username: string, password: string): (r: set<LoginField>)
    ensures UsernameInput in r <==> |username| == 0
    ensures PasswordInput in r <==> |password| == 0
    ensures r == {} <==> |username| > 0 && |password| > 0
  {
    (if |username| == 0 then {UsernameInput} else {}) + (if |password| == 0 then {PasswordInput} else {})
  }

  /** Log-in with an already trimmed username. */
  function Login(users: seq<User>, username: string, password: string): (r: Result<User, LoginError>)
    ensures r.Success? ==> r.value in users && r.value.username == username && r.value.password == password
    ensures r.Success? <==> (|username| > 0 && |password| > 0 &&
              exists j :: 0 <= j < |users| && users[j].username == username && users[j].password == password)
    ensures r.Success? ==> FindUser(users, username, password).Some? &&
                           r.value == users[FindUser(users, username, password).value]
    ensures r.Failure? && r.error.MissingFields? <==> |username| == 0 || |password| == 0
  {
    var missing := MissingLoginFields(username, password);
    if missing != {} then
      assert |username| == 0 ==> UsernameInput in missing;
      Failure(MissingFields(missing))
    else
      match FindUser(users, username, password)
      case Some(i) => Success(users[i])
      case None => Failure(InvalidCredentials)
  }

  // ----------------------------------------------------------------- sign-up

  const MinUsernameLength: nat := 3
  const MinSignupScore: nat := 2

  datatype SignupField = UsernameField | EmailField | PasswordField | ConfirmField

  datatype SignupError = InvalidFields(fields: set<SignupField>) | DuplicateUsername

  /**
   * The fields the sign-up form flags. `emailValid` is the outcome of the
   * email pattern test, which is not modelled.
   */
  function SignupProblems(username: string, emailValid: bool, password: string, confirm: string): (r: set<SignupField>)
    ensures UsernameField in r <==> |username| < MinUsernameLength
    ensures EmailField in r <==> !emailValid
    ensures PasswordField in r <==> StrengthScore(password) < MinSignupScore
    ensures ConfirmField in r <==> password != confirm
  {
    (if |username| < MinUsernameLength then {UsernameField} else {}) +
    (if !emailValid then {EmailField} else {}) +
    (if StrengthScore(password) < MinSignupScore then {PasswordField} else {}) +
    (if password != confirm then {ConfirmField} else {})
  }

  predicate UsernameTaken(users: seq<User>, username: string)
  {
    exists j :: 0 <= j < |users| && users[j].username == username
  }

  /** Sign-up with already trimmed username and email; `id` is the creation timestamp. */
  function Signup(users: seq<User>, id: int, username: string, email: string, emailValid: bool,
                  password: string, confirm: string): (r: Result<seq<User>, SignupError>)
    ensures r.Success? <==> SignupProblems(username, emailValid, password, confirm) == {} && !UsernameTaken(users, username)
    ensures r.Success? ==> r.value == users + [User(id, username, email, password)]
    ensures r == Failure(DuplicateUsername) <==>
              SignupProblems(username, emailValid, password, confirm) == {} && UsernameTaken(users, username)
    ensures r.Success? ==> |username| >= MinUsernameLength && StrengthScore(password) >= MinSignupScore && password == confirm
  {
    var problems := SignupProblems(username, emailValid, password, confirm);
    if problems != {} then Failure(InvalidFields(problems))
    else if UsernameTaken(users, username) then Failure(DuplicateUsername)
    else Success(users + [User(id, username, email, password)])
  }

  predicate UniqueUsernames(users: seq<User>)
  {
    forall i, j :: 0 <= i < j < |users| ==> users[i].username != users[j].username
  }

  /** Sign-up keeps usernames unique. */
  lemma SignupKeepsUnique(users: seq<User>, id: int, username: string, email: string, emailValid: bool,
                          password: string, confirm: string)
    requires UniqueUsernames(users)
    ensures var r := Signup(users, id, username, email, emailValid, password, confirm);
      r.Success? ==> UniqueUsernames(r.value)
  {
  }

  /** Whoever has just signed up can log in with the same username and password, and gets their own record. */
  lemma SignupThenLogin(users: seq<User>, id: int, username: string, email: string, emailValid: bool,
                        password: string, confirm: string)
    requires Signup(users, id, username, email, emailValid, password, confirm).Success?
    ensures Login(Signup(users, id, username, email, emailValid, password, confirm).value, username, password)
            == Success(User(id, username, email, password))
  {
    var after := Signup(users, id, username, email, emailValid, password, confirm).value;
    StrengthScoreSpec(password);
    assert after[|users|].username == username && after[|users|].password == password;
    var i := FindUser(after, username, password).value;
    assert i == |users|;
  }
}
