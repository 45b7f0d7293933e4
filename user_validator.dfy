/** The checks on a registration request and on the uniqueness of a new user's email and name. */
module UserValidator {
  import opened Wrappers
  import opened Errors
  import opened Js
  import opened Store

  /** Neither whitespace nor '@': a character `[^\s@]` accepts. */
  predicate CleanChar(c: char)
  {
    !IsWhitespace(c) && c != '@'
  }

  predicate Clean(t: string)
  {
    forall k :: 0 <= k < |t| ==> CleanChar(t[k])
  }

  /** Every character of `s` from `lo` up to `hi` is clean. */
  predicate CleanBetween(s: string, lo: int, hi: int)
  {
    forall p :: lo <= p < hi && 0 <= p < |s| ==> CleanChar(s[p])
  }

  lemma CleanSlice(s: string, lo: nat, hi: nat)
    requires lo <= hi <= |s|
    ensures Clean(s[lo..hi]) <==> CleanBetween(s, lo, hi)
  {
    if CleanBetween(s, lo, hi) {
      forall k | 0 <= k < hi - lo ensures CleanChar(s[lo..hi][k]) {
        assert s[lo..hi][k] == s[lo + k];
      }
    }
    if Clean(s[lo..hi]) {
      forall p | lo <= p < hi ensures CleanChar(s[p]) {
        assert s[lo..hi][p - lo] == s[p];
      }
    }
  }

  /**
   * The language of the regular expression `^[^\s@]+@[^\s@]+\.[^\s@]+$`:
   * a clean local part, '@', a clean host, '.', and a clean suffix.
   */
  ghost predicate MatchesEmailPattern(s: string)
  {
    exists i, j :: 0 < i && i + 1 < j && j + 1 < |s| && s[i] == '@' && s[j] == '.'
                   && Clean(s[..i]) && Clean(s[i + 1..j]) && Clean(s[j + 1..])
  }

  /** The position of the first '@', or |s| when there is none. */
  function FindAt(s: string): (i: nat)
    ensures i <= |s| && (i < |s| ==> s[i] == '@')
    ensures forall k :: 0 <= k < i ==> s[k] != '@'
  {
    if s == [] then 0
    else if s[0] == '@' then 0
    else 1 + FindAt(s[1..])
  }

  /** `isValidEmail`: split at the first '@'; both sides clean and the domain has an inner '.'. */
  function IsValidEmail(s: string): bool
  {
    var i := FindAt(s);
    0 < i < |s| && Clean(s[..i]) && Clean(s[i + 1..])
    && exists j :: i + 1 < j < |s| - 1 && s[j] == '.'
  }

  /** The check accepts exactly the strings the regular expression matches. */
  lemma EmailCheckMatchesPattern(s: string)
    ensures IsValidEmail(s) <==> MatchesEmailPattern(s)
  {
    if IsValidEmail(s) {
      EmailCheckSound(s);
    }
    if MatchesEmailPattern(s) {
      var i, j :| 0 < i && i + 1 < j && j + 1 < |s| && s[i] == '@' && s[j] == '.'
                  && Clean(s[..i]) && Clean(s[i + 1..j]) && Clean(s[j + 1..]);
      EmailCheckComplete(s, i, j);
    }
  }

  lemma EmailCheckSound(s: string)
    requires IsValidEmail(s)
    ensures MatchesEmailPattern(s)
  {
    var i := FindAt(s);
    var j :| i + 1 < j < |s| - 1 && s[j] == '.';
    CleanSlice(s, i + 1, |s|);
    CleanSlice(s, i + 1, j);
    CleanSlice(s, j + 1, |s|);
    assert s[i] == '@';
    assert Clean(s[..i]) && Clean(s[i + 1..j]) && Clean(s[j + 1..]);
  }

  lemma EmailCheckComplete(s: string, i: nat, j: nat)
    requires 0 < i && i + 1 < j && j + 1 < |s| && s[i] == '@' && s[j] == '.'
    requires Clean(s[..i]) && Clean(s[i + 1..j]) && Clean(s[j + 1..])
    ensures IsValidEmail(s)
  {
    CleanSlice(s, 0, i);
    assert s[..i] == s[0..i];
    assert FindAt(s) == i;
    CleanSlice(s, i + 1, j);
    CleanSlice(s, j + 1, |s|);
    assert CleanChar(s[j]) by {
      assert !IsWhitespace('.');
    }
    CleanSlice(s, i + 1, |s|);
  }

  /** A string holding at most `n` characters, or any value that is not a string (whose `.length` is undefined). */
  predicate ShorterThan(v: JsValue, n: nat)
  {
    v.Str? && |v.s| < n
  }

  /**
   * `validateRegistration`: every field is truthy, the name is a string of at
   * least 3 characters, the email matches the pattern and a string password
   * has at least 6 characters. The first failing check is reported.
   */
  function ValidateRegistration(name: JsValue, age: JsValue, email: JsValue, password: JsValue): (r: Option<Error>)
    ensures r.None? <==> Truthy(name) && Truthy(age) && Truthy(email) && Truthy(password)
                         && name.Str? && |name.s| >= 3
                         && email.Str? && MatchesEmailPattern(email.s)
                         && !ShorterThan(password, 6)
    ensures !(Truthy(name) && Truthy(age) && Truthy(email) && Truthy(password)) ==>
      r == Some(ValidationError("All fields are required"))
    ensures Truthy(name) && Truthy(age) && Truthy(email) && Truthy(password)
            && !(name.Str? && |name.s| >= 3) ==>
      r == Some(ValidationError("The name must be at least 3 characters long"))
    ensures Truthy(name) && Truthy(age) && Truthy(email) && Truthy(password)
            && name.Str? && |name.s| >= 3 && !(email.Str? && MatchesEmailPattern(email.s)) ==>
      r == Some(ValidationError("Invalid email"))
    ensures Truthy(name) && Truthy(age) && Truthy(email) && Truthy(password)
            && name.Str? && |name.s| >= 3 && email.Str? && MatchesEmailPattern(email.s)
            && ShorterThan(password, 6) ==>
      r == Some(ValidationError("The password must be at least 6 characters long"))
    ensures r.Some? ==> IsValidation(r.value)
  {
    EmailCheckMatchesPattern(if email.Str? then email.s else "");
    if !Truthy(name) || !Truthy(age) || !Truthy(email) || !Truthy(password) then
      Some(ValidationError("All fields are required"))
    else if !name.Str? || |name.s| < 3 then Some(ValidationError("The name must be at least 3 characters long"))
    else if !(email.Str? && IsValidEmail(email.s)) then Some(ValidationError("Invalid email"))
    else if ShorterThan(password, 6) then Some(ValidationError("The password must be at least 6 characters long"))
    else None
  }

  /** `findByEmailOrName`: the first user whose email or name is taken. */
  function FindByEmailOrName(users: seq<User>, email: string, name: string): (r: Option<User>)
    ensures r.Some? ==> r.value in users && (r.value.email == email || r.value.name == name)
    ensures r.None? <==> forall u :: u in users ==> u.email != email && u.name != name
  {
    if users == [] then None
    else if users[0].email == email || users[0].name == name then Some(users[0])
    else FindByEmailOrName(users[1..], email, name)
  }

  /**
   * `ensureUserDoesNotExist`: passes exactly when neither the email nor the
   * name is taken; the found user's email clash is reported before its name
   * clash.
   */
  function EnsureUserDoesNotExist(users: seq<User>, email: string, name: string): (r: Option<Error>)
    ensures r.None? <==> forall u :: u in users ==> u.email != email && u.name != name
    ensures r.Some? ==> r.value == ValidationError("Email already registered")
                        || r.value == ValidationError("Username already registered")
    ensures (forall u :: u in users ==> u.email != email) && r.Some? ==>
      r.value == ValidationError("Username already registered")
    ensures (exists u :: u in users && u.email == email)
            && (forall u :: u in users && u.name == name ==> u.email == email) ==>
      r == Some(ValidationError("Email already registered"))
  {
    match FindByEmailOrName(users, email, name)
    case None => None
    case Some(u) =>
      if u.email == email then Some(ValidationError("Email already registered"))
      else Some(ValidationError("Username already registered"))
  }
}
